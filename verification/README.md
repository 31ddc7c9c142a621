# NFCGate inbound protocol dispatcher, modelled in Dafny

NFCGate relays NFC traffic between two phones through a server: one phone
holds a real card to its reader chip, the other lets a real reader talk to
its card-emulation (APDU) service. `ProtobufCallback` is the client's entry
point for every message the server delivers. It parses a MetaMessage
wrapper, routes it on its message case and acts on the payload:

- server Data messages are unwrapped recursively;
- NFC data is relayed either to the physical card or to the APDU service;
- status and session codes become calls on the network handler;
- anticollision data configures the local card emulation.

The callback also selects a reader technology when a tag is discovered, and
it tears the reader down when the card connection is lost.

The model is a pure step function. The callback's fields are a `State`:

- the reader, which may be absent (null), with what its `isConnected()` answers;
- whether an APDU service is set;
- whether the workaround thread and its runnable are set.

Handling one message yields an `Outcome`. That is either the new state and the
ordered list of `Effect`s, or a `Crash` for a Java runtime exception the
source does not catch. The effects are calls on the network handler, the tag
reader, the APDU service, the daemon configuration and the workaround thread.
Hardware answers are inputs:

- the card's reply to `sendCmd` is a parameter `Option<Bytes>`, where `None` is the null reply;
- the parse result is `Parsed(wrapper)` or `Malformed`;
- the presence of the faulty chipset's device file is a boolean.

Modules:

- `Messages`: the wrapper and its payloads.
- `Effects`: the observable calls.
- `CallbackState`: the state, outcomes and shutdown.
- `Relay`: the NFC relay decision.
- `StatusHandling`, `SessionHandling`, `AnticolHandling`: one per payload handler.
- `Router`: the entry point and Data unwrapping.
- `TagSelection`: `setTag`.

Behaviour of the code a reader might not expect, which the model keeps:

- The code keeps no session state and no record of the partner's reader or
  card mode. Session and status messages only call the network handler, and
  they leave the local state untouched.
- A reader that is absent when a command arrives is not reported as
  "not connected". The code dereferences null, which the model records as
  `Crash(NullReader)`.
- The historical byte is read from the ATQA array. An empty ATQA with
  non-empty historical bytes raises an index error (`Crash(AtqaIndexOutOfBounds)`).
- `setTag` keeps the previous reader when no supported technology is found.
  Starting the workaround overwrites a running thread without interrupting it.

## Model

| member | source | states |
|---|---|---|
| CallbackState.DisconnectCardWorkaround | app/src/main/java/tud/seemuh/nfcgate/network/ProtobufCallback.java:54-58 | afterwards neither thread nor runnable is set; the thread is interrupted exactly when one was running; the reader and the APDU service are untouched |
| CallbackState.Shutdown | app/src/main/java/tud/seemuh/nfcgate/network/ProtobufCallback.java:48-52 | afterwards there is no reader and no workaround; the connection is closed exactly when a reader existed, after the workaround has been stopped; each teardown call happens at most once |
| CallbackState.ShutdownIdempotent | app/src/main/java/tud/seemuh/nfcgate/network/ProtobufCallback.java:48-58 | a second shutdown makes no call and changes nothing |
| CallbackState.ShutdownChangesStateIffActive | app/src/main/java/tud/seemuh/nfcgate/network/ProtobufCallback.java:48-58 | shutdown leaves the state as it was exactly when there was no reader and no workaround |
| StatusHandling.HandleStatus | app/src/main/java/tud/seemuh/nfcgate/network/ProtobufCallback.java:211-258 | at most one call per status; none exactly for the five informational codes; a keepalive reply exactly for a keepalive request; not-implemented exactly for an unknown code; never any relay traffic |
| StatusHandling.StatusNotificationOneToOne | app/src/main/java/tud/seemuh/nfcgate/network/ProtobufCallback.java:211-252 | every known non-informational code produces one call from which the code can be read back, so the mapping is one-to-one |
| StatusHandling.CrossedCapabilityNaming | app/src/main/java/tud/seemuh/nfcgate/network/ProtobufCallback.java:233-248 | reader found/removed, and only they, switch the partner's APDU mode; card found/removed, and only they, switch its reader mode |
| SessionHandling.HandleSession | app/src/main/java/tud/seemuh/nfcgate/network/ProtobufCallback.java:261-299 | exactly one call per session message; invalid-format exactly for an unknown opcode; the three failures pass the error code; a successful creation, and only it, passes the secret; never any relay traffic |
| SessionHandling.SessionNotificationRecoversMessage | app/src/main/java/tud/seemuh/nfcgate/network/ProtobufCallback.java:261-294 | the opcode and the field it uses can be read back from the call made for any known opcode |
| AnticolHandling.AsWrittenAgreesExceptHist | app/src/main/java/tud/seemuh/nfcgate/network/ProtobufCallback.java:145-154 | where the as-written extraction succeeds it agrees with the intended one on ATQA, SAK and UID; it agrees on the historical byte exactly when there are none or the first equals ATQA[0] |
| AnticolHandling.HistTakenFromAtqa | app/src/main/java/tud/seemuh/nfcgate/network/ProtobufCallback.java:148-149 | with ATQA 00 44 and historical byte 07 the as-written extraction gives 00 where 07 is intended |
| AnticolHandling.EmptyAtqaFails | app/src/main/java/tud/seemuh/nfcgate/network/ProtobufCallback.java:145-149 | an empty ATQA with a historical byte makes the as-written extraction fail and the intended one succeed |
| AnticolHandling.HandleAnticol | app/src/main/java/tud/seemuh/nfcgate/network/ProtobufCallback.java:142-161 | it crashes exactly on the index error; otherwise the state is unchanged and it makes three calls: an upload of the extracted bytes and the full UID, enabling the patch, and a sink report of the raw arrays |
| AnticolHandling.AnticolScenario | app/src/main/java/tud/seemuh/nfcgate/network/ProtobufCallback.java:142-161 | UID 04 01 02, ATQA 00 44, SAK 20 and no historical bytes upload ATQA byte 44, SAK 20, historical byte 0 and that UID |
| Relay.ForwardCommand | app/src/main/java/tud/seemuh/nfcgate/network/ProtobufCallback.java:169-188 | the sink hears the command before it goes to the card, and it goes exactly once; a reply is forwarded with identical bytes and the state is kept; a null reply is followed by exactly the shutdown's calls (interrupting a running workaround, then closing the connection) and nothing else |
| Relay.HandleNfcData | app/src/main/java/tud/seemuh/nfcgate/network/ProtobufCallback.java:164-208 | a command crashes exactly when there is no reader; a disconnected reader gives only a not-connected call; the card is addressed exactly when a connected reader exists; only a null reply changes the state, and then the trace after the command is exactly the shutdown's; card replies go to the APDU service, or give not-connected without one, and never touch the reader |
| Relay.LostConnectionIsFinal | app/src/main/java/tud/seemuh/nfcgate/network/ProtobufCallback.java:165-182 | after a null reply has shut the reader down, the next command dereferences null |
| Router.HandleWrapper | app/src/main/java/tud/seemuh/nfcgate/network/ProtobufCallback.java:79-105 | routing keeps the state or applies the shutdown of a present reader, and never anything else; any state change comes with closing the connection; a null-reader crash happens only without a reader |
| Router.HandleData | app/src/main/java/tud/seemuh/nfcgate/network/ProtobufCallback.java:108-140 | the same state guarantees as the router, through any depth of nested blobs |
| Router.OnDataReceived | app/src/main/java/tud/seemuh/nfcgate/network/ProtobufCallback.java:65-77 | bytes that do not parse give exactly one invalid-format call and no change; a message never changes the APDU service; it preserves thread and runnable being set together |
| Router.Unwrap | app/src/main/java/tud/seemuh/nfcgate/network/ProtobufCallback.java:108-115 | following the blobs ends at a malformed blob or at a message that is not a Data message with a blob; a message without a blob is its own result |
| Router.BlobTransparent | app/src/main/java/tud/seemuh/nfcgate/network/ProtobufCallback.java:108-121 | a message nested in Data blobs is handled exactly as its innermost message arriving from the transport, and a malformed blob exactly as unparseable bytes |
| Router.DataWithoutBlob | app/src/main/java/tud/seemuh/nfcgate/network/ProtobufCallback.java:122-139 | a Data message without a blob gives nothing for the four known error codes and one invalid-format call otherwise, with no state change |
| Router.InvalidFormatHandling | app/src/main/java/tud/seemuh/nfcgate/network/ProtobufCallback.java:65-139 | unparseable bytes, a malformed blob at any depth, an unknown Data error code and a Data message with neither blob nor code each give exactly one invalid-format call and no change; a known error code gives nothing |
| Router.RoutesByCase | app/src/main/java/tud/seemuh/nfcgate/network/ProtobufCallback.java:79-105 | every parsed message reaches the handler of its innermost case; a wrapper with no case gives exactly one unknown-type call and no change |
| Router.OnlyNfcDataRelays | app/src/main/java/tud/seemuh/nfcgate/network/ProtobufCallback.java:79-105 | a message whose innermost case is not NFC data never touches the reader, the card or the APDU service and never changes the state |
| TagSelection.FirstSupported | app/src/main/java/tud/seemuh/nfcgate/network/ProtobufCallback.java:309-327 | a technology is found exactly when some entry is IsoDep or NfcA, and it is the technology of the first such entry |
| TagSelection.SetTag | app/src/main/java/tud/seemuh/nfcgate/network/ProtobufCallback.java:307-364 | returns true exactly when a supported entry exists; then the new reader has the first supported technology, otherwise the old reader stays; when a tag was found the callback is registered and then the anticol message is sent, each once; exactly when the faulty chipset is present the workaround is started and then announced, each once, after the other calls; the old reader is never closed, a running workaround never interrupted, and no other call is made |
| TagSelection.ListOrderDecides | app/src/main/java/tud/seemuh/nfcgate/network/ProtobufCallback.java:312-326 | list order, not a preference between IsoDep and NfcA, decides the technology |

## Left out

- Protobuf parsing (`MetaMessage.Wrapper.parseFrom`) and the wire format: parsing is a library call, so the model takes its result as an input. Hence there is no encode/decode round trip.
- Android `Tag` objects and the reader classes (`IsoDepReader`, `NfcAReader`) are hardware I/O. Their answers (`isConnected`, `sendCmd`, `getUID`, `getAtqa`, `getSak`, `getHistoricalBytes`) are inputs.
- The `BroadcomWorkaround` runnable and its thread are concurrency, and the `/dev/bcm2079x-i2c` check is file-system I/O. Only "thread set" and "runnable set" flags are kept, and the file check is a boolean parameter.
- `DaemonConfiguration`, `HighLevelProtobufHandler`, `LowLevelTCPHandler.setCallback` and `ApduService` are foreign singletons. Each call on them is an effect token and nothing more.
- Logging (`Log`, `Utils.bytesToHex`) has no observable effect in the model.
- `setAPDUService` and `notifyBrokenPipe`: one is a field assignment and the other forwards one call. The `apdu` flag of `State` stands for the field.
- The Java exceptions a crash raises are not followed beyond the callback. `Crash` records the fault, and where the exception goes next is not part of this model.

## Findings

| source | as written | input that shows it | evidently intended | confidence | as-written member | corrected member |
|---|---|---|---|---|---|---|
| app/src/main/java/tud/seemuh/nfcgate/network/ProtobufCallback.java:148-149 | the historical byte is `a_atqa[0]` when the historical array is non-empty | ATQA 00 44 with historical byte 07 uploads 00; an empty ATQA with historical byte 07 raises an index error | the historical byte is `a_hist[0]` | high (the guard tests `a_hist`), not executed | AnticolHandling.ExtractAsWritten (HistTakenFromAtqa, EmptyAtqaFails) | AnticolHandling.Extract (AsWrittenAgreesExceptHist) |

`HandleAnticol`, and with it the router, keeps the as-written extraction. This
keeps its trace equal to what the code uploads to the emulation daemon.
`Extract` is the corrected definition, with its intended properties proved.
