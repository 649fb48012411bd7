/**
  Python's `bytes.fromhex`, which the service applies to its auth key.

  The decoder follows CPython 3.7 and later: before each pair it skips ASCII
  whitespace, then it needs two hexadecimal digits (either case), high nibble
  first; a lone trailing digit, a non-digit, or whitespace between the two
  digits of a pair raises ValueError (here: `None`).
*/
module Hex {
  import opened Wrappers

  newtype byte = x: int | 0 <= x < 256

  /** The characters CPython's `Py_ISSPACE` accepts: space, \t, \n, \v, \f, \r. */
  predicate IsSpace(c: char) {
    c == ' ' || c == '\t' || c == '\n' || c == '\U{B}' || c == '\U{C}' || c == '\r'
  }

  predicate IsHexDigit(c: char) {
    ('0' <= c <= '9') || ('a' <= c <= 'f') || ('A' <= c <= 'F')
  }

  predicate AllHexDigits(s: string) {
    forall i :: 0 <= i < |s| ==> IsHexDigit(s[i])
  }

  predicate AllSpace(s: string) {
    forall i :: 0 <= i < |s| ==> IsSpace(s[i])
  }

  function DigitValue(c: char): (v: int)
    requires IsHexDigit(c)
    ensures 0 <= v < 16
  {
    if '0' <= c <= '9' then c as int - '0' as int
    else if 'a' <= c <= 'f' then c as int - 'a' as int + 10
    else c as int - 'A' as int + 10
  }

  /** The byte spelled by two hex digits, high nibble first. */
  function PairValue(hi: char, lo: char): (b: byte)
    requires IsHexDigit(hi) && IsHexDigit(lo)
  {
    (16 * DigitValue(hi) + DigitValue(lo)) as byte
  }

  /** `bytes.fromhex(s)`: the decoded bytes, or `None` where Python raises ValueError. */
  function FromHex(s: string): (r: Option<seq<byte>>)
    ensures r.Some? ==> 2 * |r.value| <= |s|
    decreases |s|
  {
    if s == [] then Some([])
    else if IsSpace(s[0]) then FromHex(s[1..])
    else if |s| >= 2 && IsHexDigit(s[0]) && IsHexDigit(s[1]) then
      match FromHex(s[2..])
      case None => None
      case Some(rest) => Some([PairValue(s[0], s[1])] + rest)
    else None
  }

  /** The lower-case digit for a nibble (the digits `bytes.hex` writes). */
  function NibbleDigit(v: int): (c: char)
    requires 0 <= v < 16
    ensures IsHexDigit(c) && DigitValue(c) == v
  {
    if v < 10 then ('0' as int + v) as char else ('a' as int + v - 10) as char
  }

  /** `bytes.hex()`: two lower-case digits per byte, the inverse of `FromHex`. */
  function ToHex(b: seq<byte>): (s: string)
    ensures |s| == 2 * |b| && AllHexDigits(s)
  {
    if b == [] then []
    else [NibbleDigit(b[0] as int / 16), NibbleDigit(b[0] as int % 16)] + ToHex(b[1..])
  }

  /** A string of hex digits only, of even length, decodes pair by pair into
      half as many bytes. */
  lemma {:induction false} FromHexDigits(s: string)
    requires AllHexDigits(s) && |s| % 2 == 0
    ensures FromHex(s).Some? && |FromHex(s).value| == |s| / 2
    ensures forall i :: 0 <= i < |s| / 2 ==> FromHex(s).value[i] == PairValue(s[2 * i], s[2 * i + 1])
  {
    if s != [] {
      assert !IsSpace(s[0]) && IsHexDigit(s[0]) && IsHexDigit(s[1]);
      var tail := s[2..];
      assert AllHexDigits(tail) by {
        forall i | 0 <= i < |tail| ensures IsHexDigit(tail[i]) { assert tail[i] == s[i + 2]; }
      }
      FromHexDigits(tail);
      var r := FromHex(s).value;
      assert r == [PairValue(s[0], s[1])] + FromHex(tail).value;
      forall i | 0 < i < |s| / 2 ensures r[i] == PairValue(s[2 * i], s[2 * i + 1]) {
        assert r[i] == FromHex(tail).value[i - 1];
        assert tail[2 * (i - 1)] == s[2 * i] && tail[2 * (i - 1) + 1] == s[2 * i + 1];
      }
    }
  }

  /** Only a string of hex digits decodes to the full half of its length:
      any whitespace, being skipped, leaves fewer bytes. */
  lemma {:induction false} FromHexFullLengthIsDigits(s: string)
    requires FromHex(s).Some? && 2 * |FromHex(s).value| == |s|
    ensures AllHexDigits(s)
  {
    if s != [] {
      assert !IsSpace(s[0]);
      var tail := s[2..];
      assert FromHex(s).value == [PairValue(s[0], s[1])] + FromHex(tail).value;
      FromHexFullLengthIsDigits(tail);
      forall i | 0 <= i < |s| ensures IsHexDigit(s[i]) {
        if i >= 2 { assert s[i] == tail[i - 2]; }
      }
    }
  }

  /** Without whitespace to skip, an odd number of characters can never be
      decoded: the last pair is always incomplete. */
  lemma {:induction false} FromHexOddFails(s: string)
    requires forall i :: 0 <= i < |s| ==> !IsSpace(s[i])
    requires |s| % 2 == 1
    ensures FromHex(s).None?
  {
    assert !IsSpace(s[0]);
    if |s| >= 2 && IsHexDigit(s[0]) && IsHexDigit(s[1]) {
      var tail := s[2..];
      forall i | 0 <= i < |tail| ensures !IsSpace(tail[i]) { assert tail[i] == s[i + 2]; }
      FromHexOddFails(tail);
    }
  }

  /** The input decodes to no bytes at all exactly when it is all whitespace. */
  lemma {:induction false} FromHexEmptyIffBlank(s: string)
    ensures FromHex(s) == Some([]) <==> AllSpace(s)
  {
    if s != [] {
      var tail := s[1..];
      FromHexEmptyIffBlank(tail);
      if AllSpace(s) {
        assert AllSpace(tail) by {
          forall i | 0 <= i < |tail| ensures IsSpace(tail[i]) { assert tail[i] == s[i + 1]; }
        }
      } else if IsSpace(s[0]) {
        var k :| 0 <= k < |s| && !IsSpace(s[k]);
        assert !IsSpace(tail[k - 1]);
      }
    }
  }

  lemma NibblesRecombine(b: byte)
    ensures PairValue(NibbleDigit(b as int / 16), NibbleDigit(b as int % 16)) == b
  {
  }

  /** Decoding what `ToHex` wrote gives back the original bytes. */
  lemma {:induction false} FromHexToHex(b: seq<byte>)
    ensures FromHex(ToHex(b)) == Some(b)
  {
    if b != [] {
      var s := ToHex(b);
      var hi, lo := NibbleDigit(b[0] as int / 16), NibbleDigit(b[0] as int % 16);
      assert s == [hi, lo] + ToHex(b[1..]);
      assert s[2..] == ToHex(b[1..]);
      assert !IsSpace(hi);
      FromHexToHex(b[1..]);
      NibblesRecombine(b[0]);
      assert FromHex(s) == Some([b[0]] + b[1..]);
      assert [b[0]] + b[1..] == b;
    }
  }
}
