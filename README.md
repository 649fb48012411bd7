# Mi Band 4 service and console: a verified model

This project models the two pieces of real logic in the `miband4-app`
package, which drives a Mi Band 4 fitness tracker over Bluetooth Low Energy.

- `MibandService` keeps the session bookkeeping. It validates the MAC address
  and auth key at construction and hex-decodes the key. A service is
  "freezed" when it has no MAC or no key bytes. It is connected when the
  attribute `band` exists; `pulse` holds the last reading. Every guarded call first
  passes the `reconnect` decorator: it refuses a freezed service and connects
  only when not connected. `disconnect` removes both attributes. `send_message`
  turns a text into one custom alert.
- `MiConsole` handles input: the auth-key length guard with its chained
  comparison, the connect-retry loop, the four-entry alert table of
  `send_notif`, and the wait loop of `lost_device`.

Files:

- `wrappers.dfy`: `Option` and `Result`.
- `hex.dfy`: Python's `bytes.fromhex` as the module `Hex`, with its inverse `ToHex`.
- `miband_service.dfy`: the module `MibandService`. The class `Service` holds
  `band` and `pulse` as `Option` fields. The Bluetooth library becomes an
  oracle: each connection attempt is handed its `ConnectOutcome`. Every
  request made of the library is appended to the field `calls`, so contracts
  can say what was sent and that nothing was sent.
- `miband4_console.dfy`: the module `MiConsole`. User input and the band's
  behaviour are parameters: a sequence of connection `Attempt`s and a
  sequence of `Notification`s, one per `waitForNotifications` call.

Behaviour of the code worth knowing, each point proved or stated in the model:

- Missing credentials do not freeze the service. The comment at
  miband4-app/miband_service.py:47-48 says that they do. But the default `""`
  fails the length check at line 57 with ValueError
  (`MibandService.MissingCredentialsRejected`).
- A constructed service can still be freezed. `bytes.fromhex` skips ASCII
  whitespace before each pair. So a 32-character key made only of whitespace
  passes both length checks and decodes to no bytes. That service is freezed
  (`MibandService.FreezedIffBlankKey`).
- A validated key has 16 bytes exactly when all 32 characters are hex digits.
  A key with whitespace in it has fewer (`MibandService.SixteenBytesIffHexDigits`).
- The MAC is checked for its length only, not for the colon-separated form.
- The service ignores the value `initialize()` returns. The model has no
  separate authenticated state.
- `send_message` is not wrapped by `reconnect`. Without a band it fails on
  `self.band` with AttributeError (`NoBand`).
- An out-of-range alert selector in the console prints a message and
  returns. It raises no error.
- The 3-second retry exists only in the console's connect loop. The service
  never retries a failed attempt: its first BTLEDisconnectError becomes
  ValueError. As written, it attempts again after every success (see
  "## Findings").
- In the console, Ctrl-C during the 3-second sleep is raised inside the
  BTLEDisconnectError handler. No handler of the same `try` catches it, so it
  escapes the constructor instead of reaching `exit()`.

## Model

| member | source | states |
|---|---|---|
| `MibandService.Validate` | miband4-app/miband_service.py:44-69 | ValueError for the MAC exactly when its length (default `""`) is not 17; for the key exactly when the MAC is fine and the key length (default `""`) is not 32; from decoding exactly when both lengths are fine and `bytes.fromhex` fails. These are the only errors. The result is `Ok` exactly when all three checks pass. It then holds the MAC, the decoded key and the debug flag (default false). |
| `MibandService.MissingCredentialsRejected` | miband4-app/miband_service.py:49-61 | A configuration without MAC and key is refused with the MAC error, not freezed. |
| `MibandService.ValidatedHexKey` | miband4-app/miband_service.py:63-69 | A valid MAC and a key of 32 hex digits give a 16-byte key. Byte i is spelled by digits 2i and 2i+1, high nibble first. That service is not freezed. |
| `MibandService.SixteenBytesIffHexDigits` | miband4-app/miband_service.py:63-69 | A validated key has 16 bytes exactly when all 32 characters are hex digits. Otherwise it has fewer. |
| `MibandService.Credentials.IsFreezed` | miband4-app/miband_service.py:110-116 | `is_freezed`: true exactly when the MAC is empty or the key has no bytes. |
| `MibandService.FreezedIffBlankKey` | miband4-app/miband_service.py:110-116 | A successfully validated service is freezed exactly when its key is all whitespace. |
| `Hex.FromHex` | miband4-app/miband_service.py:69 | `bytes.fromhex`: it decodes at most half as many bytes as there are characters, or fails. |
| `Hex.FromHexDigits` | miband4-app/miband_service.py:69 | An even-length string of hex digits decodes to half as many bytes, each formed from one pair of digits. |
| `Hex.FromHexToHex` | miband4-app/miband_service.py:69 | Decoding the hex text of any byte string gives back those bytes. |
| `Hex.FromHexEmptyIffBlank` | miband4-app/miband_service.py:69 | The decoder returns no bytes exactly when the input is all whitespace. |
| `Hex.FromHexFullLengthIsDigits` | miband4-app/miband_service.py:69 | Only a string of hex digits decodes to half its length in bytes. |
| `Hex.FromHexOddFails` | miband4-app/miband4_console.py:28 | Input without whitespace and of odd length always fails to decode. |
| `MibandService.Service.Create` | miband4-app/miband_service.py:44-69 | Construction raises exactly what `Validate` refuses. Otherwise it gives a fresh service with those credentials, no band, no pulse and no requests sent. |
| `MibandService.Service.IsConnected` | miband4-app/miband_service.py:157-165 | Connected exactly when the `band` attribute exists. |
| `MibandService.Service.Connect` | miband4-app/miband_service.py:71-81 | One attempt to open the band with the service's MAC, key and timeout 10. On BTLEDisconnectError: no band, no pulse, and ValueError. On success: the band is kept and the pulse is unchanged. |
| `MibandService.Service.Disconnect` | miband4-app/miband_service.py:97-108 | Afterwards there is no band and no pulse, whatever the prior state; nothing is sent. So a second call changes nothing. |
| `MibandService.Service.SetPulse` | miband4-app/miband_service.py:130-138 | The pulse slot holds the given value. |
| `MibandService.Service.ReadPulse` | miband4-app/miband_service.py:122-128 | Returns the stored pulse, or AttributeError when no pulse has been set since construction or the last disconnect. |
| `MibandService.Service.Reconnect` | miband4-app/miband_service.py:15-35 | Freezed: FreezedMibandError, nothing changed, nothing sent. Connected: passes, nothing changed. Otherwise exactly one connect attempt with that attempt's outcome. If the guard passes, the band present is the one opened with the service's own credentials. |
| `MibandService.Service.GetPulse` | miband4-app/miband_service.py:118-120 | The reconnect guard, then one read of the pulse slot. Freezed: nothing is sent. Otherwise exactly one connection request is made when there was no band, and none when there was. Freezed or a failed connect is reported before any read. Otherwise the result is the stored pulse or the no-pulse error. |
| `MibandService.Service.SendMessage` | miband4-app/miband_service.py:167-171 | An empty message gives ValueError and sends nothing. Without a band it gives AttributeError and sends nothing. Otherwise exactly one alert of type 5, titled "CyberPAS", goes to the band the service opened with its own MAC, key and timeout 10. |
| `MibandService.ConnectAsWritten` | miband4-app/miband_service.py:71-87 | `connect` as written never returns normally. It raises ValueError after the first failing attempt, and only then. If every attempt succeeds, it keeps recursing. |
| `MibandService.RecursiveConnectNeverReturns` | miband4-app/miband_service.py:84-87 | Even a band that accepts every attempt never lets the recursive `connect` return. |
| `MiConsole.RejectsAuthKey` | miband4-app/miband4_console.py:21-22 | The guard exits exactly for key lengths 2..31 and above 32. |
| `MiConsole.AuthKeyGuardCases` | miband4-app/miband4_console.py:20-26 | Empty, one-character and 32-character keys pass the guard. |
| `MiConsole.OneCharacterKeyReachesDecoder` | miband4-app/miband4_console.py:21-28 | A one-character key passes the guard. It then decodes to no bytes if it is whitespace, and makes `bytes.fromhex` raise otherwise. |
| `MiConsole.ConnectLoop` | miband4-app/miband4_console.py:30-42 | Retries after every BTLEDisconnectError, sleeping 3 seconds each time. Ends right after the first attempt that does not simply retry. That ends it with the `initialize()` result, true or false. Or with `exit()` on a KeyboardInterrupt while connecting. Or with an uncaught KeyboardInterrupt when Ctrl-C comes during the handler's print or sleep. |
| `MiConsole.Start` | miband4-app/miband4_console.py:19-42 | A rejected key exits(1) before any connection attempt. A key `bytes.fromhex` refuses raises before any attempt. Otherwise the connect loop runs with the decoded key, and its end decides the outcome. |
| `MiConsole.AlertCode` | miband4-app/miband4_console.py:96-97 | The code for choice 1..4 from the table `[1,5,4,3]` is one of {1, 3, 4, 5} and maps back to that choice. |
| `MiConsole.SendNotif` | miband4-app/miband4_console.py:87-97 | An alert is sent exactly when the selector is in 1..4. It carries the table's code for that selector and the given title and message. |
| `MiConsole.AlertTableIsBijective` | miband4-app/miband4_console.py:96-97 | Selectors 1, 2, 3, 4 send codes 1, 5, 4, 3. Every code sent is in {1, 3, 4, 5} and maps back to its selector. |
| `MiConsole.AlertTableInjective` | miband4-app/miband4_console.py:96-97 | Two selectors that send the same code are equal. |
| `MiConsole.LostDevice` | miband4-app/miband4_console.py:146-170 | The loop ends exactly when a device-found notification arrives, right after the first one. The lost-device callback runs once per device-lost notification before that and never ends the loop. |

## Findings

| source | as written | input that shows it | evidently intended | confidence | as-written member | corrected member |
|---|---|---|---|---|---|---|
| miband4-app/miband_service.py:86 | After a successful `initialize()`, `connect` calls `self.connect()` again before anything else. So it never returns normally, and line 87 (start the realtime pulse thread) is never reached. | A band that accepts every attempt: outcomes `seq(n, _ => Initialized)` for any n | One connection attempt, then start the realtime pulse stream | not executed | `MibandService.ConnectAsWritten`, `MibandService.RecursiveConnectNeverReturns` | `MibandService.Service.Connect` |

`Service.Reconnect` and `Service.GetPulse` use the corrected one-attempt `Connect`.

## Left out

- The Bluetooth library (`Miband` / `NativeMiband` and bluepy) is not part of this model. A connection attempt is an oracle value that either succeeds or raises BTLEDisconnectError. Other exceptions the library may raise are not modelled.
- `MibandService.Service.Connect`: the realtime heart-rate thread (lines 87-95) is left out because it is concurrency. `SetPulse` stands for its callback.
- `MibandService.Service.GetPulse`: returns the integer reading instead of wrapping it in `FloatSensor(float(...))`, because that is floating point in a foreign type.
- `get_info` and `get_battery_charge`: they only assemble library calls and `.isoformat()` strings.
- `super().__init__(config)` (a call into the `staze` framework, miband_service.py:45) and the `log.*` calls are library calls and logging, not part of this model.
- The singleton `MibandService.instance()`: the guard acts on the service it is called on.
- The recursion limit of the as-written `connect`: `ConnectAsWritten` reports `StillRecursing` when the given attempts run out, instead of Python's RecursionError.
- `MiConsole.ConnectLoop`: the real loop is unbounded. The model runs over a finite sequence of attempts and reports `StillRetrying` when all of them raised. `time.sleep` becomes a count of seconds.
- `MiConsole.LostDevice`: the notify-send and print side effects of the callbacks are left out because they are I/O. The wait ends after the given sequence of waits if no device-found notification arrives.
- The console's menu, `input`/`print`, the `int(...)` parsing of the selector, and the other menu items (steps, info, heart rate, firmware, watchface, time, music, activity logs) are UI and library calls. So are their endless `waitForNotifications` loops.
- `__main__.py` (reads a creds file and argv), `miband_view.py` (HTTP endpoint) and both `quick_call.py` files (retry-forever wrappers with hard-coded arguments) are glue and I/O. `FreezedMibandError` is the `Freezed` constructor of `ServiceError`.
