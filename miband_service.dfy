/**
  The connection and session bookkeeping of `MibandService`.

  The Python object keeps its connection state in whether the attributes
  `band` and `pulse` exist; here they are the `Option` fields `band` and
  `pulse`. The Bluetooth library is replaced by an oracle: each connection
  attempt is given its `ConnectOutcome`, and every request the service makes
  of the device is appended to `calls`, so that contracts can say what was
  (and what was not) sent.
*/
module MibandService {
  import opened Wrappers
  import opened Hex

  const MacAddressLength := 17
  const AuthKeyLength := 32
  /** The `timeout=10` the service passes when it opens the band. */
  const ConnectTimeout := 10
  /** `send_message` always sends alert type 5 under this title. */
  const MessageAlertType := 5
  const MessageTitle := "CyberPAS"

  /** The keys of the configuration dictionary that the service reads. */
  datatype Config = Config(macAddress: Option<string>, authKey: Option<string>, isDebugMode: Option<bool>)

  /** What a successful construction keeps: the MAC, the decoded key, the debug flag. */
  datatype Credentials = Credentials(macAddress: string, authKey: seq<byte>, isDebugMode: bool) {

    /** `is_freezed`: a service without a MAC or without key bytes must not talk to the band. */
    predicate IsFreezed() {
      macAddress == [] || authKey == []
    }
  }

  datatype ServiceError =
    | MacAddressFormat   // ValueError: MAC length is not 17
    | AuthKeyFormat      // ValueError: auth key length is not 32
    | AuthKeyNotHex      // ValueError raised by bytes.fromhex
    | ConnectionFailed   // ValueError raised by connect after a BTLEDisconnectError
    | EmptyMessage       // ValueError raised by send_message
    | Freezed            // FreezedMibandError raised by the reconnect guard
    | NoPulseYet         // AttributeError raised by _get_pulse
    | NoBand             // AttributeError on self.band in send_message
  {
    predicate IsValueError() {
      MacAddressFormat? || AuthKeyFormat? || AuthKeyNotHex? || ConnectionFailed? || EmptyMessage?
    }
  }

  /** The handle `NativeMiband(mac, key, timeout=...)` returns. */
  datatype Band = Band(macAddress: string, authKey: seq<byte>, timeout: int)

  /** A request the service makes of the Bluetooth library. */
  datatype TransportCall =
    | Open(band: Band)  // NativeMiband(...) followed by initialize()
    | SendCustomAlert(band: Band, alertType: int, title: string, message: string)

  /** What the library does with one connection attempt. */
  datatype ConnectOutcome = DisconnectError | Initialized

  /** The validation and decoding done by `__init__`. */
  function Validate(config: Config): (r: Result<Credentials, ServiceError>)
    ensures var mac := config.macAddress.GetOr("");
      r == Err(MacAddressFormat) <==> |mac| != MacAddressLength
    ensures var mac, key := config.macAddress.GetOr(""), config.authKey.GetOr("");
      r == Err(AuthKeyFormat) <==> |mac| == MacAddressLength && |key| != AuthKeyLength
    ensures var mac, key := config.macAddress.GetOr(""), config.authKey.GetOr("");
      r == Err(AuthKeyNotHex) <==> |mac| == MacAddressLength && |key| == AuthKeyLength && FromHex(key).None?
    ensures var mac, key := config.macAddress.GetOr(""), config.authKey.GetOr("");
      r.Ok? <==> |mac| == MacAddressLength && |key| == AuthKeyLength && FromHex(key).Some?
    ensures r.Err? ==> r.error in {MacAddressFormat, AuthKeyFormat, AuthKeyNotHex} && r.error.IsValueError()
    ensures r.Ok? ==>
      && r.value.macAddress == config.macAddress.GetOr("")
      && Some(r.value.authKey) == FromHex(config.authKey.GetOr(""))
      && r.value.isDebugMode == config.isDebugMode.GetOr(false)
  {
    var mac := config.macAddress.GetOr("");
    var key := config.authKey.GetOr("");
    if |mac| != MacAddressLength then Err(MacAddressFormat)
    else if |key| != AuthKeyLength then Err(AuthKeyFormat)
    else match FromHex(key)
      case None => Err(AuthKeyNotHex)
      case Some(bytes) => Ok(Credentials(mac, bytes, config.isDebugMode.GetOr(false)))
  }

  /** A key of 32 hex digits is stored as 16 bytes, byte i spelled by digits
      2i and 2i+1, and the service is then not freezed. */
  lemma ValidatedHexKey(config: Config)
    requires |config.macAddress.GetOr("")| == MacAddressLength
    requires |config.authKey.GetOr("")| == AuthKeyLength && AllHexDigits(config.authKey.GetOr(""))
    ensures Validate(config).Ok?
    ensures var key, creds := config.authKey.GetOr(""), Validate(config).value;
      |creds.authKey| == 16 &&
      (forall i :: 0 <= i < 16 ==> creds.authKey[i] == PairValue(key[2 * i], key[2 * i + 1])) &&
      !creds.IsFreezed()
  {
    FromHexDigits(config.authKey.GetOr(""));
  }

  /** A validated key has 16 bytes exactly when all 32 of its characters are hex
      digits; a key with whitespace in it has fewer. */
  lemma SixteenBytesIffHexDigits(config: Config)
    requires Validate(config).Ok?
    ensures |Validate(config).value.authKey| == 16 <==> AllHexDigits(config.authKey.GetOr(""))
    ensures !AllHexDigits(config.authKey.GetOr("")) ==> |Validate(config).value.authKey| < 16
  {
    var key := config.authKey.GetOr("");
    if |Validate(config).value.authKey| == 16 {
      FromHexFullLengthIsDigits(key);
    }
    if AllHexDigits(key) {
      FromHexDigits(key);
    }
  }

  /** A constructed service is freezed exactly when its 32-character key is all
      whitespace, which `bytes.fromhex` turns into no bytes. */
  lemma FreezedIffBlankKey(config: Config)
    requires Validate(config).Ok?
    ensures Validate(config).value.IsFreezed() <==> AllSpace(config.authKey.GetOr(""))
  {
    FromHexEmptyIffBlank(config.authKey.GetOr(""));
  }

  /** The configuration the service reads when no credentials are configured is refused. */
  lemma MissingCredentialsRejected(isDebugMode: Option<bool>)
    ensures Validate(Config(None, None, isDebugMode)) == Err(MacAddressFormat)
  {
  }

  /** How the recursive `connect` of the source ends, given the outcome of each
      successive attempt. */
  datatype ConnectEnd =
    | Returned               // connect() came back normally
    | RaisedAfter(attempts: nat)  // ValueError, after this many attempts
    | StillRecursing         // every attempt given succeeded and it recursed once more

  /** `connect` as written: after a successful initialize it calls itself
      again before returning, so it can only end by raising. */
  function ConnectAsWritten(outcomes: seq<ConnectOutcome>): (r: ConnectEnd)
    ensures r != Returned
    ensures r == StillRecursing <==> forall i :: 0 <= i < |outcomes| ==> outcomes[i] == Initialized
    ensures r.RaisedAfter? ==>
      1 <= r.attempts <= |outcomes| && outcomes[r.attempts - 1] == DisconnectError &&
      forall i :: 0 <= i < r.attempts - 1 ==> outcomes[i] == Initialized
  {
    if outcomes == [] then StillRecursing
    else if outcomes[0] == DisconnectError then RaisedAfter(1)
    else
      var rest := ConnectAsWritten(outcomes[1..]);
      assert outcomes[0] == Initialized;
      assert forall i :: 1 <= i < |outcomes| ==> outcomes[i] == outcomes[1..][i - 1];
      if rest.RaisedAfter? then RaisedAfter(rest.attempts + 1) else rest
  }

  /** Even when the band accepts every attempt, the recursive `connect` never
      returns. */
  lemma RecursiveConnectNeverReturns(n: nat)
    ensures ConnectAsWritten(seq(n, _ => Initialized)) == StillRecursing
  {
  }

  class Service {
    const credentials: Credentials
    /** The `band` attribute: present while connected. */
    var band: Option<Band>
    /** The `pulse` attribute: the last reading pushed by the realtime callback. */
    var pulse: Option<int>
    /** Every request made of the Bluetooth library so far, oldest first. */
    var calls: seq<TransportCall>

    /** The band handed out by `connect`. */
    function OpenedBand(): (b: Band) {
      Band(credentials.macAddress, credentials.authKey, ConnectTimeout)
    }

    /** A present band is the one this service opened, with its own credentials. */
    ghost predicate Valid()
      reads this
    {
      band.Some? ==> band.value == OpenedBand() && Open(band.value) in calls
    }

    constructor (credentials: Credentials)
      ensures this.credentials == credentials
      ensures band == None && pulse == None && calls == []
      ensures Valid()
    {
      this.credentials := credentials;
      band, pulse, calls := None, None, [];
    }

    /** `MibandService(config)`: validation first; no service exists when it raises. */
    static method Create(config: Config) returns (r: Result<Service, ServiceError>)
      ensures Validate(config).Err? ==> r == Err(Validate(config).error)
      ensures Validate(config).Ok? ==>
        r.Ok? && fresh(r.value) && r.value.credentials == Validate(config).value &&
        r.value.band == None && r.value.pulse == None && r.value.calls == [] && r.value.Valid()
    {
      var v := Validate(config);
      if v.Err? {
        return Err(v.error);
      }
      var s := new Service(v.value);
      r := Ok(s);
    }

    /** `is_connected`: whether the `band` attribute exists. */
    method IsConnected() returns (connected: bool)
      ensures connected <==> band.Some?
    {
      connected := band.Some?;
    }

    /** One connection attempt. On a BTLEDisconnectError both attributes are
        removed and ValueError is raised instead; on success the band is kept
        and the pulse slot is left as it was. */
    method Connect(outcome: ConnectOutcome) returns (r: Result<(), ServiceError>)
      requires Valid()
      modifies this`band, this`pulse, this`calls
      ensures Valid()
      ensures calls == old(calls) + [Open(OpenedBand())]
      ensures outcome == DisconnectError ==> r == Err(ConnectionFailed) && band == None && pulse == None
      ensures outcome == Initialized ==> r == Ok(()) && band == Some(OpenedBand()) && pulse == old(pulse)
    {
      calls := calls + [Open(OpenedBand())];
      band := Some(OpenedBand());
      if outcome == DisconnectError {
        Disconnect();
        return Err(ConnectionFailed);
      }
      r := Ok(());
    }

    /** Remove both attributes, whichever of them exist. */
    method Disconnect()
      requires Valid()
      modifies this`band, this`pulse
      ensures Valid()
      ensures band == None && pulse == None
    {
      band := None;
      pulse := None;
    }

    /** The realtime heart-rate callback. */
    method SetPulse(value: int)
      requires Valid()
      modifies this`pulse
      ensures Valid()
      ensures pulse == Some(value)
    {
      pulse := Some(value);
    }

    /** `_get_pulse`: the last reading, or AttributeError when there is none. */
    method ReadPulse() returns (r: Result<int, ServiceError>)
      ensures pulse.Some? ==> r == Ok(pulse.value)
      ensures pulse.None? ==> r == Err(NoPulseYet)
    {
      if pulse.None? {
        return Err(NoPulseYet);
      }
      r := Ok(pulse.value);
    }

    /** The `reconnect` guard: refuse a freezed service before any transport
        call, connect only when not connected. `Ok` means the wrapped call may run. */
    method Reconnect(outcome: ConnectOutcome) returns (r: Result<(), ServiceError>)
      requires Valid()
      modifies this`band, this`pulse, this`calls
      ensures Valid()
      ensures credentials.IsFreezed() ==>
        r == Err(Freezed) && band == old(band) && pulse == old(pulse) && calls == old(calls)
      ensures !credentials.IsFreezed() && old(band).Some? ==>
        r == Ok(()) && band == old(band) && pulse == old(pulse) && calls == old(calls)
      ensures !credentials.IsFreezed() && old(band).None? ==>
        calls == old(calls) + [Open(OpenedBand())] &&
        (outcome == Initialized ==> r == Ok(()) && band == Some(OpenedBand()) && pulse == old(pulse)) &&
        (outcome == DisconnectError ==> r == Err(ConnectionFailed) && band == None && pulse == None)
      ensures r.Ok? ==> band == Some(OpenedBand())
    {
      if credentials.IsFreezed() {
        return Err(Freezed);
      }
      var connected := IsConnected();
      if !connected {
        r := Connect(outcome);
        if r.Err? {
          return;
        }
      }
      r := Ok(());
    }

    /** `get_pulse`: the reconnect guard, then `_get_pulse` exactly once. */
    method GetPulse(outcome: ConnectOutcome) returns (r: Result<int, ServiceError>)
      requires Valid()
      modifies this`band, this`pulse, this`calls
      ensures Valid()
      ensures credentials.IsFreezed() ==>
        r == Err(Freezed) && band == old(band) && pulse == old(pulse) && calls == old(calls)
      ensures !credentials.IsFreezed() ==>
        calls == old(calls) + (if old(band).None? then [Open(OpenedBand())] else [])
      ensures !credentials.IsFreezed() && old(band).None? && outcome == DisconnectError ==>
        r == Err(ConnectionFailed) && band == None && pulse == None
      ensures !credentials.IsFreezed() && (old(band).Some? || outcome == Initialized) ==>
        band.Some? && pulse == old(pulse) &&
        r == (if pulse.Some? then Ok(pulse.value) else Err(NoPulseYet))
    {
      var guard := Reconnect(outcome);
      if guard.Err? {
        return Err(guard.error);
      }
      r := ReadPulse();
    }

    /** `send_message`: an empty message is refused before anything is sent;
        otherwise one custom alert of type 5 titled "CyberPAS" goes to the band.
        The method is not guarded, so without a band it fails on `self.band`. */
    method SendMessage(message: string) returns (r: Result<(), ServiceError>)
      requires Valid()
      modifies this`calls
      ensures Valid()
      ensures message == [] ==> r == Err(EmptyMessage) && calls == old(calls)
      ensures message != [] && band.None? ==> r == Err(NoBand) && calls == old(calls)
      ensures message != [] && band.Some? ==>
        r == Ok(()) && calls == old(calls) + [SendCustomAlert(OpenedBand(), MessageAlertType, MessageTitle, message)]
    {
      if |message| > 0 {
        if band.None? {
          return Err(NoBand);
        }
        calls := calls + [SendCustomAlert(band.value, MessageAlertType, MessageTitle, message)];
        r := Ok(());
      } else {
        r := Err(EmptyMessage);
      }
    }
  }
}
