/**
  The input handling of `MiConsole`: the auth-key check and connect loop of
  its constructor, the alert selector of `send_notif`, and the wait loop of
  `lost_device`. Menu rendering, `input`/`print` and sleeping are not part of
  this model; what the user types and what the band does arrive as parameters.
*/
module MiConsole {
  import opened Wrappers
  import opened Hex

  /** Seconds slept after each failed connection attempt. */
  const RetryDelay := 3
  /** The key length the console's message asks for. */
  const AuthKeyLength := 32

  /** The guard `if auth: if 1 < len(auth) != 32: exit(1)`. The chained
      comparison means `1 < len(auth) and len(auth) != 32`, so the guard
      exits for lengths 2..31 and above 32 only. */
  function RejectsAuthKey(auth: string): (exits: bool)
    ensures exits <==> 2 <= |auth| && |auth| != AuthKeyLength
  {
    |auth| > 0 && 1 < |auth| && |auth| != AuthKeyLength
  }

  /** Who is stopped by the guard: an empty key skips it, a one-character key
      slips through the chained comparison, and a 32-character key passes. */
  lemma AuthKeyGuardCases(auth: string)
    ensures |auth| == 0 ==> !RejectsAuthKey(auth)
    ensures |auth| == 1 ==> !RejectsAuthKey(auth)
    ensures |auth| == AuthKeyLength ==> !RejectsAuthKey(auth)
  {
  }

  /** The one-character key that the guard lets through then reaches
      `bytes.fromhex`: a blank decodes to no key at all, anything else raises. */
  lemma OneCharacterKeyReachesDecoder(c: char)
    ensures !RejectsAuthKey([c])
    ensures IsSpace(c) ==> FromHex([c]) == Some([])
    ensures !IsSpace(c) ==> FromHex([c]).None?
  {
  }

  /** One pass through the body of the connect loop. */
  datatype Attempt =
    | DisconnectError          // Miband(...) or initialize() raised BTLEDisconnectError
    | KeyboardInterrupt        // Ctrl-C while connecting, caught by the second handler
    | InterruptedInBackoff     // BTLEDisconnectError, then Ctrl-C during its print or sleep
    | Initialized(success: bool)  // initialize() returned this value

  /** How the connect loop was left. */
  datatype LoopExit =
    | Connected(success: bool)  // `break` after initialize() returned
    | Interrupted               // `exit()` on KeyboardInterrupt
    | InterruptEscaped          // KeyboardInterrupt raised inside the BTLEDisconnectError
                                // handler, which no handler of the same `try` catches
    | StillRetrying             // every attempt given raised BTLEDisconnectError

  /** How the loop ends on an attempt that does not simply retry. */
  function ExitOn(a: Attempt): (e: LoopExit)
    requires a != DisconnectError
    ensures e != StillRetrying
  {
    match a
    case Initialized(ok) => Connected(ok)
    case KeyboardInterrupt => Interrupted
    case InterruptedInBackoff => InterruptEscaped
  }

  /** The number of leading attempts that raised BTLEDisconnectError. */
  function FailedPrefix(attempts: seq<Attempt>): (n: nat)
    ensures n <= |attempts|
    ensures forall i :: 0 <= i < n ==> attempts[i] == DisconnectError
    ensures n < |attempts| ==> attempts[n] != DisconnectError
  {
    if attempts == [] || attempts[0] != DisconnectError then 0
    else 1 + FailedPrefix(attempts[1..])
  }

  /** The `while not success` loop: retry after every BTLEDisconnectError,
      leave after the first attempt that does not raise, whatever
      initialize() returned. Returns the attempts used and the seconds slept. */
  method ConnectLoop(attempts: seq<Attempt>) returns (tries: nat, exit: LoopExit, slept: nat)
    ensures var k := FailedPrefix(attempts);
      && slept == RetryDelay * k
      && (k == |attempts| ==> tries == k && exit == StillRetrying)
      && (k < |attempts| ==> tries == k + 1 && exit == ExitOn(attempts[k]))
  {
    tries, exit, slept := 0, StillRetrying, 0;
    var success := false;
    while !success && tries < |attempts|
      invariant tries <= |attempts|
      invariant forall i :: 0 <= i < tries ==> attempts[i] == DisconnectError
      invariant slept == RetryDelay * tries
      invariant !success
    {
      match attempts[tries]
      case Initialized(ok) =>
        success := ok;
        tries, exit := tries + 1, Connected(ok);
        break;
      case DisconnectError =>
        tries, slept := tries + 1, slept + RetryDelay;
      case KeyboardInterrupt =>
        tries, exit := tries + 1, Interrupted;
        return;
      case InterruptedInBackoff =>
        tries, exit := tries + 1, InterruptEscaped;
        return;
    }
  }

  /** How `MiConsole(mac, auth)` ends or reaches its menu. */
  datatype Startup =
    | AuthKeyRejected               // exit(1) from the length guard
    | AuthKeyNotHex                 // bytes.fromhex raised ValueError
    | Menu(key: seq<byte>, success: bool)  // the connect loop was left by `break`
    | Quit                          // exit() on KeyboardInterrupt
    | UncaughtInterrupt             // KeyboardInterrupt escaped the constructor
    | Retrying                      // still in the connect loop

  /** The constructor up to the menu: guard, decode, then connect loop.
      `tries` counts the connection attempts made. */
  method Start(auth: string, attempts: seq<Attempt>) returns (r: Startup, tries: nat)
    ensures RejectsAuthKey(auth) ==> r == AuthKeyRejected && tries == 0
    ensures !RejectsAuthKey(auth) && FromHex(auth).None? ==> r == AuthKeyNotHex && tries == 0
    ensures !RejectsAuthKey(auth) && FromHex(auth).Some? ==>
      var k := FailedPrefix(attempts);
      && (k == |attempts| ==> r == Retrying && tries == k)
      && (k < |attempts| ==>
            tries == k + 1 &&
            r == match attempts[k]
                 case Initialized(ok) => Menu(FromHex(auth).value, ok)
                 case KeyboardInterrupt => Quit
                 case _ => UncaughtInterrupt)
  {
    if RejectsAuthKey(auth) {
      return AuthKeyRejected, 0;
    }
    var key := FromHex(auth);
    if key.None? {
      return AuthKeyNotHex, 0;
    }
    var exit, slept;
    tries, exit, slept := ConnectLoop(attempts);
    r := match exit
      case Connected(ok) => Menu(key.value, ok)
      case Interrupted => Quit
      case InterruptEscaped => UncaughtInterrupt
      case StillRetrying => Retrying;
  }

  /** The selector table of `send_notif`: Mail, Message, Missed Call, Call. */
  const AlertTable: seq<int> := [1, 5, 4, 3]

  /** A `send_custom_alert(type, title, message)` request. */
  datatype Alert = Alert(alertType: int, title: string, message: string)

  /** `send_notif` after its three inputs: an out-of-range selector sends nothing. */
  function SendNotif(title: string, message: string, ty: int): (r: Option<Alert>)
    ensures r.Some? <==> 1 <= ty <= 4
    ensures r.Some? ==> r.value == Alert(AlertCode(ty), title, message)
  {
    if ty > 4 || ty < 1 then None
    else Some(Alert(AlertCode(ty), title, message))
  }

  /** The device alert code for menu choice `ty`: each code is one of
      {1, 3, 4, 5} and leads back to its choice. */
  function AlertCode(ty: int): (code: int)
    requires 1 <= ty <= 4
    ensures code in {1, 3, 4, 5} && SelectorFor(code) == Some(ty)
  {
    AlertTable[ty - 1]
  }

  /** The menu choice a device alert code comes from, if any. */
  function SelectorFor(code: int): (ty: Option<int>)
  {
    if code == 1 then Some(1)
    else if code == 5 then Some(2)
    else if code == 4 then Some(3)
    else if code == 3 then Some(4)
    else None
  }

  /** The table is 1->1, 2->5, 3->4, 4->3: no choice maps to itself except
      the first, and each code in {1, 3, 4, 5} comes from exactly one choice. */
  lemma AlertTableIsBijective(ty: int, title: string, message: string)
    ensures SendNotif(title, message, 1).value.alertType == 1
    ensures SendNotif(title, message, 2).value.alertType == 5
    ensures SendNotif(title, message, 3).value.alertType == 4
    ensures SendNotif(title, message, 4).value.alertType == 3
    ensures SendNotif(title, message, ty).Some? ==>
      SendNotif(title, message, ty).value.alertType in {1, 3, 4, 5} &&
      SelectorFor(SendNotif(title, message, ty).value.alertType) == Some(ty)
  {
  }

  lemma AlertTableInjective(ty1: int, ty2: int, title: string, message: string)
    requires SendNotif(title, message, ty1).Some? && SendNotif(title, message, ty2).Some?
    requires SendNotif(title, message, ty1).value.alertType == SendNotif(title, message, ty2).value.alertType
    ensures ty1 == ty2
  {
    AlertTableIsBijective(ty1, title, message);
    AlertTableIsBijective(ty2, title, message);
  }

  /** What one `waitForNotifications(0.5)` call delivers. */
  datatype Notification =
    | Nothing        // the wait timed out
    | DeviceLost     // invokes lost_device_callback
    | DeviceFound    // invokes found_device_callback
    | Unrelated      // any other notification

  /** The number of leading waits that did not deliver DeviceFound. */
  function WaitsBeforeFound(waits: seq<Notification>): (n: nat)
    ensures n <= |waits|
    ensures forall i :: 0 <= i < n ==> waits[i] != DeviceFound
    ensures n < |waits| ==> waits[n] == DeviceFound
  {
    if waits == [] || waits[0] == DeviceFound then 0
    else 1 + WaitsBeforeFound(waits[1..])
  }

  /** The `while not found` loop of `lost_device`. Only the found callback sets
      `found`; the lost callback is run once per DeviceLost and leaves it. */
  method LostDevice(waits: seq<Notification>) returns (found: bool, used: nat, lostCallbacks: nat)
    ensures found <==> DeviceFound in waits
    ensures found ==> used == WaitsBeforeFound(waits) + 1 && waits[used - 1] == DeviceFound
    ensures !found ==> used == |waits|
    ensures lostCallbacks == multiset(waits[..used])[DeviceLost]
  {
    found, used, lostCallbacks := false, 0, 0;
    while !found && used < |waits|
      invariant used <= |waits|
      invariant found ==> 0 < used && waits[used - 1] == DeviceFound
      invariant forall i :: 0 <= i < used - (if found then 1 else 0) ==> waits[i] != DeviceFound
      invariant lostCallbacks == multiset(waits[..used])[DeviceLost]
    {
      var n := waits[used];
      assert waits[..used + 1] == waits[..used] + [n];
      used := used + 1;
      if n == DeviceLost {
        lostCallbacks := lostCallbacks + 1;
      } else if n == DeviceFound {
        found := true;
      }
    }
    if !found {
      assert waits[..used] == waits;
    }
  }
}
