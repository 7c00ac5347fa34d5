# Joycast verification

Joycast forwards the events of a physical input device from a client to a server, which replays
them on a virtual device. This project models the parts of it that have to be right together and
proves what they guarantee:

* **The session protocol**: the server with its table of sessions, its table of UDP peers, one
  handler for each Iroh connection, the reaper, and the trust store that several processes share
  through a file; and the client at the other end of a connection. It is a machine whose steps are
  the stretches of code that run without anything else coming between, in any order, with any
  choice of what connections break, which devices can be created and which files can be written.
* **The wire format**: messages in the encoding of the Postcard 1.0 wire format specification, in
  frames with a 32-bit length, read from a stream whose bytes arrive in any pieces and whose writer
  may stop in the middle of a frame. The machine above works on whole messages; the same server
  over bytes, with any number of connections, is shown to refine it.
* **Control messages and sending** in the vendored `noq-udp`: the arena of records behind
  `sendmsg`, its layout arithmetic, the messages that Linux and Windows attach to a datagram, the
  send loop with its fallback, and the cutting of a batch into segments.
* **The client's own bookkeeping**: the list of known servers, and finding a lost device again.

## Modules

| file | what it holds |
|---|---|
| Wire.dfy | the data types of the protocol; strings are UTF-8 byte sequences (section 4 of RFC 3629) |
| Postcard.dfy, Protocol.dfy | the encoding, built from codecs, and the messages in it |
| Utf8.dfy | which byte sequences are strings (section 3 of RFC 3629) |
| WireFormat.dfy, WireGrammar.dfy | the bytes of every message, field by field: what is written, and everything that is accepted |
| Framing.dfy | frames, streams of frames, and the stream as an object that is read and written |
| Trust.dfy | the trust store of one process: the data, and the manager as an object over a shared file |
| TrustSystem.dfy | several processes and threads at work on one trust file, step by step |
| Connection.dfy | the two ends of one Iroh connection over whole messages |
| Writes.dfy | what both ends write, and what each knows of the other |
| ByteConnection.dfy | the same over bytes, and the refinement |
| Durability.dfy | when an approval or a revocation in the trust file stays there |
| Sessions.dfy | session keys, the session table, ordinals in device names |
| Lifetimes.dfy | one session against the clock: activity, keepalives and reaper passes |
| System.dfy | the machine of the whole server |
| SystemSafety.dfy, SystemTheorems.dfy | its invariants and the main results |
| SystemProgress.dfy, SystemService.dfy | what the server can do next from any state of any run, and that an approved client is served |
| Revocation.dfy, RevocationRuns.dfy | what a revocation ends and what it does not |
| Keepalives.dfy | a client's timer keeps its session on the server |
| Checks.dfy | when the approval check answers as the trust file has it |
| ByteSystem.dfy, ByteRuns.dfy | the whole server over bytes: its runs are runs of the machine, and the machine's are followed by its own |
| Server.dfy, ServerSteps.dfy | the server as an object: the locked sections and the handling of a datagram; it agrees with the machine on every datagram, and on every series of them |
| Handler.dfy, HandlerSteps.dfy | the handler of a connection as loops over frames; it agrees with the machine on every stream |
| Layout.dfy, Cmsg.dfy | mask arithmetic, and the encoder and iterator over an aligned buffer |
| Transmits.dfy | the records of a datagram on Linux and Windows, and that they fit |
| Send.dfy | the send loop of Linux and the segmentation halt of Windows, over the life of a socket |
| Segments.dfy | cutting contents into the messages of a batch |
| History.dfy, Reopen.dfy | the list of known servers; reopening a lost device |

## How to read it

A machine is a state, a set of actions and a total function `Next`; an action that is not possible
changes nothing, so that every sequence of actions is a run and a statement about every run
quantifies over every sequence. In `ByteSystem`, a step is taken on what has arrived, and bytes
arrive, and writing breaks off, in steps of their own. `System.Next` follows `src/server.rs` as follows: `OnDatagram`,
`OnUdpDecide`, `OnUdpAnswerPending` and `OnUdpOpen` are `run_udp_server` (src/server.rs:268-418) cut
where it waits for a lock or a file; `OnFrame`, `OnHandlerDecide`, `OnHandlerAnswerPending` and
`OnHandlerOpen` are `handle_iroh_client` (src/server.rs:460-618); `ReaperPass` is the reaper
(src/server.rs:216-231); `Store` is a step of the trust store (src/trust.rs:89-214), in which a
reload reads the file outside the mutex. `Connection.Act`, `ClientGets` and `HandlerGets` are the
phases of `run_iroh_client` (src/client.rs:609-775) and of the handler.

Parameters stand for what comes from outside: the time, the wording of answers and time stamps,
whether a device could be created or a file written, the results of system calls, trimming and
lower-casing of text. Records marked ghost in comments (`passed`, `emitted`, `answers`, `deeds`, `log`) say what
happened and have no influence on what happens.

Where a promise of the code does not hold without a condition, the condition is proved to be
exact, or a run that breaks it is given:

* Two processes that save at the same time can undo an approval that was reported as successful
  (`TrustSystem.ApproveCanBeLost`). An approval that is in the file stays there, whatever others do,
  exactly when no operation that is in flight at that time works on data without it
  (`Durability.ApprovalSurvivesIff`); and so does a revocation, exactly when none works on data with
  the approval (`Durability.RevocationSurvivesIff`).
* A client that is approved in the file can be refused, because a thread that asks works on whatever
  copy was installed last (`Checks.ApprovedCanBeRefused`). All checks of its handshakes that begin
  from now on let it pass exactly when nothing in flight is stale in the same sense
  (`Checks.ApprovedPassesIff`), and a client that is not approved in the file is refused by all of
  them under the mirrored condition (`Checks.RevokedIsRefusedIff`).
* Approval is checked at the handshake only, so a live session outlasts a revocation
  (`RevocationRuns.RevokedClientGoesOn`). A client that is approved nowhere any more never passes
  the check again (`Revocation.RevokedNeverPasses`), and it is heard again exactly when it has a
  conversation that was admitted before (`RevocationRuns.RevokedIsHeardIff`): the UDP loop is about
  to open its session, or a UDP peer was welcomed for it, or a handler has admitted it and its end
  has, or can still write, events; and there is a session under its key, or a handshake that has
  passed is about to open one, or, when one of its ids has a colon, another client's could be.
* `client_id:device` names one client and one device only when the client id has no colon
  (`Sessions.KeysCollideIff`).
* A reaper pass never makes two live devices of a host share an ordinal, but it can leave gaps, and
  then later devices come to share one (`Sessions.ReapedOrdinalIsReused`). From ordinals 1 to n, they
  stay apart over all sessions opened after the pass exactly when every session of the host that it
  removes has a higher ordinal than every one it leaves (`Sessions.StaysApartIff`), which is also
  when they are 1 to n again (`Sessions.ReapKeepsDenseIff`).
* A writer does not check the size of what it writes: a frame comes through exactly when the
  encoding is at most 10 MiB (`Framing.FrameRoundTripsIffFits`).
* Keepalives keep a session alive exactly when no more than 88 in a row are lost
  (`Lifetimes.KeepalivesKeepAliveIff`).
* `Encoder::push` documents a panic for a payload of stricter alignment
  (patches/noq-udp/src/cmsg/mod.rs:42-44) that its code does not have, since it writes unaligned;
  the model follows the code.

## Model

| member | source | states |
|---|---|---|
| Postcard.VarintRoundTrips | src/protocol.rs:75-83 | Every number the width allows is read back from its varint, and what follows is left. |
| Postcard.VarintIsLocal | src/protocol.rs:80-82 | A varint that was read does not depend on what comes after it. |
| Postcard.VarintIff | src/protocol.rs:75-83 | The bytes of a number are all of 0x80 or more but the last, their low seven bits, weighted by the powers of 128, add up to the number, and they are the only such bytes that do not end in a needless zero. |
| Postcard.TakeVarintIff | src/protocol.rs:80-82 | What is accepted as a number, and how much of the buffer it takes: also longer forms, up to the length and the last byte that the width allows. |
| Postcard.SequenceIsGood | src/protocol.rs:25-27 | Sequences of anything that round-trips and is read locally do so themselves. |
| Postcard.TextIsGood | src/protocol.rs:20 | Strings, which are valid UTF-8, round-trip and are read locally. |
| Utf8.ValidIffEncoded | src/protocol.rs:20 | The strings are exactly the encodings of sequences of Unicode scalar values: no surrogates, no overlong forms, nothing above U+10FFFF. |
| Postcard.ProperPrefixIsBad | src/protocol.rs:80-82 | No proper prefix of an encoding parses as anything. |
| Protocol.TakeEncode | src/protocol.rs:75-83 | Parsing the encoding of any message followed by anything gives the message and the rest. |
| Protocol.DecodeEncode | src/protocol.rs:75-83 | Decoding undoes encoding for every message, whatever trails in the buffer; which bytes these are is said by `WireFormat.EncodeIs`. |
| WireFormat.EncodeIs | src/protocol.rs:57-78 | The bytes of all five kinds of message: the position of the kind, then every field in the order of declaration, numbers as varints, strings and lists behind their length, the status and the presence of a device id as one byte; a ping is the byte 3, a pong the byte 4. |
| WireFormat.SignedMeans | src/protocol.rs:31-36 | A signed value is written as an even number exactly when it is not negative, and half of that, rounded up, is its magnitude. |
| WireGrammar.MessageReads | src/protocol.rs:57-82 | The reader accepts as a message exactly the bytes that the grammar has for it, and leaves what follows. |
| WireGrammar.DecodeIff | src/protocol.rs:80-82 | A buffer decodes to a message exactly when some beginning of it is one of the message's forms, which differ in needlessly long numbers only. |
| Protocol.TruncatedIsRejected | src/protocol.rs:80-82 | A message cut short anywhere decodes to nothing. |
| Protocol.EncodeIsInjective | src/protocol.rs:76-78 | No two messages share an encoding. |
| Protocol.MessageIsGood | src/protocol.rs:57-73 | The format of all five kinds of message round-trips and is read without looking past its end, which is what framing needs of it. |
| Protocol.EventSizes | src/protocol.rs:31-36 | An event takes between 3 and 11 bytes. |
| Protocol.EventsSize | src/protocol.rs:67-68 | The exact number of bytes of a batch of events. |
| Protocol.EventMessageIsSmall | src/client.rs:353-359 | Every frame by which the client forwards an event is between 9 and 17 bytes long. |
| Protocol.BatchLimit | src/server.rs:625-627 | A batch passes the reader's limit exactly when its bytes do; up to 953250 events always pass, whatever their values. |
| Protocol.BatchLimitIsTight | src/server.rs:625-627 | Some batch of 953251 events does not pass. |
| Protocol.MessageStreamRoundTrips | src/server.rs:620-651 | A sequence of messages written to a stream is read back as that sequence exactly when each encodes to at most 10 MiB. |
| Framing.FrameRoundTripsIffFits | src/server.rs:620-651 | Anywhere in a stream, a frame is read back as its message exactly when the encoding is at most 10 * 1024 * 1024 bytes. |
| Framing.FrameBytes | src/server.rs:636-651 | A frame is four bytes, the most significant first, that hold the length modulo 2^32, and the payload. |
| Framing.NextFrameIs | src/server.rs:620-634 | From the value of the first four bytes: too large, incomplete, undecodable, or a message and what is left, each exactly when. |
| Framing.OversizeFrameFails | src/server.rs:636-651 | The frame of a larger message never yields a message, also when its length was cut down to 32 bits. |
| Framing.PartialArrival | src/server.rs:620-634 | Whatever part of a stream has arrived, the reader waits, or consumes exactly the first frame and stands at the next, or fails on a message that does not fit. |
| Framing.WholeFrameIsNotAwaited | src/server.rs:628-632 | A frame that has wholly arrived is not waited for. |
| Framing.DrainFrames | src/server.rs:620-634 | Repeated reading of a written stream yields its messages up to the first that is too large. |
| Framing.StreamRoundTripsIffAllFit | src/server.rs:620-651 | For any format, a stream comes through whole exactly when every message fits. |
| Framing.ArrivedIsAPrefix | src/server.rs:620-634 | However much has arrived, what was read is a prefix of what was written. |
| Framing.ByteStream.WriteFrame | src/server.rs:636-651 | Appends the frame of a message, without a check of its size. |
| Framing.ByteStream.ReadFrame | src/server.rs:620-634 | Reads one frame as `NextFrame` says, and says which error and what is left when it cannot. |
| Framing.ByteStream.ReadUntilError | src/server.rs:585-589 | The reading loop collects exactly the readable messages. |
| Framing.WriteThenRead | src/server.rs:620-651 | Writing messages and reading them back gives them all exactly when all of them fit. |
| Trust.SomeIdResolvesIffMatches | src/trust.rs:153-161 | A lookup can settle on an id exactly when some id has the target as a prefix; an exact id wins. |
| Trust.FindId | src/trust.rs:153-161 | The lookup finds an id the rule allows, and none only when there is none. |
| Trust.ApplyKeepsWellFormed | src/trust.rs:122-214 | Every request keeps approved and pending clients apart and every record under its own id. |
| Trust.ApproveMovesOne | src/trust.rs:171-179 | An approve moves exactly one client; the new record has the id, hostname and device name of the old one and the time; it touches no other record. |
| Trust.ApproveCounts | src/trust.rs:171-179 | Nobody enters or leaves the store by an approve: one fewer pending, one more approved. |
| Trust.RegisterAddsOne | src/trust.rs:137-145 | Registering a client that is not approved adds it to the pending ones or renews its record; every other record, pending or approved, stays. |
| Trust.RevokeRemovesOne | src/trust.rs:203-211 | A successful revoke takes away one client's approval; every other record stays. |
| Trust.NothingChanges | src/trust.rs:122-214 | A question, a registration of an approved client, and an approve or a revoke that no id matches change nothing. |
| Trust.TrustManager.constructor | src/trust.rs:70-85 | A new manager holds what is in the file, or two empty maps when it is missing, does not parse or cannot be read. |
| Trust.TrustManager.Reload | src/trust.rs:89-97 | Memory becomes the file's contents, or stays when the file is missing or does not parse. |
| Trust.TrustManager.Save | src/trust.rs:100-112 | The file becomes the memory's contents, or stays when it cannot be written. |
| Trust.TrustManager.IsApproved | src/trust.rs:115-119 | The answer is that of the file as it is now. |
| Trust.TrustManager.RegisterPending | src/trust.rs:122-146 | On the maps of the data as reloaded: an approved client changes nothing; any other is added to the pending ones with this record, every other pending record and all approved ones stay, and the file follows when it can be written. |
| Trust.TrustManager.Approve | src/trust.rs:149-187 | On the maps of the data as reloaded: fails without effect exactly when no pending id has the target as a prefix; otherwise one that the rule allows leaves the pending map and enters the approved one with its fields and the time. States file and result in every case. |
| Trust.TrustManager.Revoke | src/trust.rs:190-214 | The same for taking an approval away, which leaves the pending map as it is. |
| TrustSystem.NewCopies | src/trust.rs:89-214 | A step of any thread can only make a new copy of the data that is one request applied to a copy that was there. |
| TrustSystem.RunKeepsInv | src/trust.rs:89-214 | Over every interleaving of any number of processes, with stale reloads and stale saves, the invariants of every copy hold. |
| TrustSystem.ApprovalsComeFromApprovals | src/trust.rs:89-187 | In every copy on disk or in memory, at any time: the copy is well formed, and whoever is approved was approved in the first file or by an earlier approve, before which the client had asked. |
| TrustSystem.UndisturbedCall | src/trust.rs:115-214 | An operation nothing interferes with does to the file exactly what its request does, whatever stale copy its process held. |
| TrustSystem.SerialCallsAreSerial | src/trust.rs:115-214 | Operations one after another, of any processes, leave in the file what their requests do in turn: no update is lost. |
| TrustSystem.ApprovedIffLastVerdict | src/trust.rs:149-214 | After any such series a client is approved exactly when the last successful approve or revoke that resolved to it was an approve, or there was none and it was approved at the start. |
| TrustSystem.PendingIsLastAsking | src/trust.rs:122-187 | After any serial run a client is pending, with exactly this record, when the last request that touched its place was a registration; it is not after an approve of it; if none touched it, it is as at the start. |
| TrustSystem.ApprovedIsLastGrant | src/trust.rs:149-214 | The same for the record of an approved client: made of its pending record and the time by the last approve, gone after the last revoke, or as at the start. |
| TrustSystem.ExecuteActs | src/trust.rs:149-214 | On any copy, stale or not: an approve or a revoke with a client that matches its target is executed on one that does, and goes on to be saved. |
| TrustSystem.RunSavesAlone | src/trust.rs:137-145 | In every run, whoever is about to write the file writes what is in the memory of its process, and nobody else of that process writes at the same time. |
| TrustSystem.KilledIsGone | src/trust.rs:100-112 | An operation broken off anywhere, also between changing the data and writing the file, leaves the file, all memories and all other operations as they are, and frees the lock it held. |
| TrustSystem.ApproveCanBeLost | src/trust.rs:89-97 | Two operations at the same time can undo an approve that succeeded; when, is said exactly by `Durability.ApprovalSurvivesIff`. |
| Durability.RunKeepsVerdict | src/trust.rs:89-214 | While no operation in flight works on data that say otherwise, the file goes on saying that a client is approved, or that it is not, over every continuation whose reads succeed and in which no revoke, or approve, of this client is executed. |
| Durability.StaleUndoes | src/trust.rs:89-214 | Any operation in flight that is about to write data that say otherwise, or has read them, or will execute a request on them, can undo the verdict. |
| Durability.VerdictSurvivesIff | src/trust.rs:89-214 | So a verdict in the file survives every such continuation exactly when nothing in flight is stale. |
| Durability.ApprovalSurvivesIff | src/trust.rs:149-187 | That for an approval. |
| Durability.RevocationSurvivesIff | src/trust.rs:190-214 | That for a revocation: it can be undone by whoever still works on data with the approval, and by nobody else. |
| Sessions.KeysCollideIff | src/server.rs:511-515 | Exactly which pairs of client and device share a session key. |
| Sessions.ColonFreeKeysAreUnique | src/server.rs:308-312 | Without colons in client ids a key names one client and one device. |
| Sessions.KeyOfHandshake | src/server.rs:308-312 | A handshake's key is the client's id, a colon, and the device's id, or its name when there is no id. |
| Sessions.SameSessionIff | src/server.rs:511-515 | Without colons in client ids, two handshakes share a session exactly when they are of one client and have the same device id; or the same name, when neither has an id. |
| Sessions.OpenKeepsDense | src/server.rs:314-343 | Opening a session keeps the ordinals of every host at 1 to n, each once. |
| Sessions.ReapKeepsDenseIff | src/server.rs:222-229 | A reaper pass keeps them so exactly when every session of the host that it removes has a higher ordinal than every one it leaves. |
| Sessions.StaysApartIff | src/server.rs:534-551 | Exactly then, too, no two live devices of the host ever share an ordinal, whatever sessions are opened after the pass. |
| Sessions.ReapedOrdinalIsReused | src/server.rs:534-551 | The shortest instance: of two devices the first is reaped, and the next one gets the ordinal of the second. |
| Connection.NextKeepsInv | src/client.rs:609-775 | Every action of either end keeps what may be on the streams in step with what both ends are doing, and loses no event; what each action writes is said by `Writes.UpIsWritten` and `Writes.DownIsAnswered`. |
| Connection.RunKeepsInv | src/client.rs:609-775 | So does every run from a fresh connection. |
| Connection.NoUnexpectedMessage | src/client.rs:636-719 | No run reaches "Expected Pong", "Expected HandshakeAck", "Expected Handshake" or the warning about an unexpected message. |
| Writes.UpIsWritten | src/client.rs:609-775 | In every run, what the handler has read followed by what is on the stream is what the client wrote: a ping for each keepalive while it waits or streams, with its controller or without, a handshake when it opens its device, and each event as a batch of its own while the controller is there. |
| Writes.PingsAreKeepalives | src/client.rs:739-768 | In every run, the pings read and those on the stream are as many as the keepalives while the client waited or streamed. |
| Writes.DownIsAnswered | src/server.rs:472-613 | In every run, what the client has read followed by what is on the stream is what the handler wrote: a pong for each ping before the handshake or for a live session, and the answer to the handshake with its status. |
| Writes.ServesOnIff | src/server.rs:584-613 | A serving handler goes on exactly when the frame can be read and its session is there if it is needed; otherwise it stops for the one reason or the other. |
| Writes.ListensOnIff | src/server.rs:472-478 | Before the handshake a handler goes on after a ping, checks the handshake it got, and stops at anything else. |
| Writes.ClientGoesOnIff | src/client.rs:636-718 | What each frame makes of the client: while it streams it goes on and warns of anything but a pong; before, every other message and every answer stops it for its own reason. |
| Writes.RunKeepsAgreement | src/client.rs:664-697 | In every run: a client streams only when the handler has admitted it, takes itself for unauthorised only when it was registered as pending, and for rejected only when its device could not be created. |
| Writes.ForwardsWhileThere | src/client.rs:721-768 | In every run a streaming client forwards exactly while its controller is there, by what was last heard of it. |
| ByteConnection.NextSimulates | src/server.rs:472-651 | One action on bytes, also one that breaks off in the middle of a frame, is none or a few actions on whole messages. |
| ByteConnection.RunSimulates | src/server.rs:472-651 | Every run of a connection on bytes is a run on whole messages. |
| ByteConnection.EveryByteRun | src/client.rs:621-746 | In every run on bytes: no unexpected frame, every read starts at a frame boundary, what was emitted followed by what is in flight is what was sent, and an end that stopped has left at most part of one frame more. |
| ByteConnection.DrainTorn | src/server.rs:620-634 | Reading frames with part of another one behind them yields their messages and no more. |
| ByteConnection.ArrivesInPieces | src/server.rs:628-632 | Bytes that arrive in pieces are those that arrive at once, and none is lost. |
| ByteConnection.EventIsTorn | src/client.rs:727 | A client can be cut off after any number of the bytes of an event, which it has not sent then. |
| ByteConnection.NothingLostInFlight | src/server.rs:585-600 | With the real format, the events emitted followed by those that can be read from the bytes in flight are the events sent. |
| Lifetimes.SurvivesIff | src/server.rs:218-230 | A session lives on exactly when each reaper pass comes less than 900 seconds after it was last heard from. |
| Lifetimes.IdleSessionGoesWithin960 | src/server.rs:218-230 | With passes 60 seconds apart an idle session goes no earlier than 900 and before 960 seconds. |
| Lifetimes.KeptAlive | src/client.rs:347-351 | Keepalives every 10 seconds, at most 88 lost in a row, keep a session over any run; and when it was last active. |
| Lifetimes.EightyNineLossesCanKill | src/server.rs:223-224 | 89 lost in a row can lose it. |
| Lifetimes.KeepalivesKeepAliveIff | src/client.rs:347-351 | The bound of 88 is exact over all runs and all times of reaper passes. |
| SystemSafety.NextKeepsTrust | src/server.rs:307-381 | Whatever the server does with the trust store, every copy of it keeps its invariants. |
| SystemSafety.NextChanges | src/server.rs:268-618 | Sessions, devices and the emission log change in five ways only, whichever step is taken. |
| SystemSafety.NextKeepsDevicesOk | src/server.rs:314-362 | Every live key has a device of its own, made for a handshake with that key. |
| SystemSafety.DeviceIsStable | src/server.rs:216-231 | Over any mix of reconnects and transports a live key keeps its device until a reaper pass finds it idle for 900 seconds. |
| SystemSafety.NextKeepsEvidence | src/server.rs:488-596 | Every emission, peer and serving handler can be traced to a handshake that passed the approval check. |
| SystemTheorems.Reachable | src/server.rs:211-260 | All invariants hold after every run from every well-formed trust file. |
| SystemTheorems.EmissionsAreAuthorised | src/server.rs:307-403 | Every batch that reached a device came from a source whose handshake, for that session, passed the check, and its client had by then been approved in the first file or by an approve. |
| SystemTheorems.DevicesAreIsolated | src/server.rs:511-582 | Without colons in client ids, a client's events reach only devices made for that client and that device of its own: the same device id, or name where there is none; with the metadata and the name of the handshake they were made for. |
| SystemTheorems.OwnDevicesStayApart | src/server.rs:308-312 | In every run, events of two handshakes of one client with different device ids never reach the same device. |
| SystemTheorems.DatagramsAreLogged | src/server.rs:395-403 | In the log of all devices the batches of a UDP peer are, in order and whole, those of its datagrams that came while its last handshake was welcomed and that session was live. |
| ByteSystem.NextSimulates | src/server.rs:460-651 | One step of the server on bytes is none or a few steps of the server on whole messages. |
| ByteSystem.RunSimulates | src/server.rs:211-260 | Every run of the server on bytes, with any number of connections, is a run on whole messages with the same sessions, devices, emissions and trust store. |
| ByteRuns.RunFollows | src/server.rs:620-651 | Every run on whole messages is followed by a run on bytes that arrive whole, with the same server and the same ends of all connections. |
| ByteRuns.SameReach | src/server.rs:211-260 | So the server on bytes and the server on whole messages can come to exactly the same sessions, devices, emissions, answers and trust store, with the ends of all connections doing the same. |
| ByteSystem.DeliveredInOrder | src/server.rs:585-651 | In every run of the server on bytes, for each connection: the batches in the log of all devices, followed while its handler serves by those that can be read from the bytes in flight, are exactly the events its client sent; and no unexpected frame. |
| SystemTheorems.DeliveredInOrder | src/server.rs:585-613 | In the log of all devices the batches of each connection are whole and in order, and they are the first events its client sent; while the handler serves, all others are in flight. |
| SystemTheorems.PeersAreTheLastWelcomes | src/server.rs:296-394 | After any run an address is in the UDP table exactly when its last handshake was answered with an approval, and then with that session. |
| SystemTheorems.DatagramEmitsIff | src/server.rs:395-403 | After any run a datagram of events is emitted exactly when that holds and the session is live. |
| SystemTheorems.SessionsLiveByTheirBeats | src/server.rs:216-231 | Over any run of the whole server the session of a key lives and dies by its own activity and the reaper alone. |
| SystemTheorems.IdleSessionIsThereIff | src/server.rs:216-231 | In a run of the whole server in which nothing of a session arrives and passes come every 60 seconds, it is there exactly as long as no pass came 900 seconds after its last activity or later. |
| SystemTheorems.IdleSessionIsTaken | src/server.rs:216-231 | And what takes it is a reaper pass at least 900 and less than 960 seconds after its last activity. |
| SystemTheorems.KeepalivesKeepTheSession | src/server.rs:404-409 | A run of the whole server in which a session has nothing but keepalives, at most 88 lost in a row, ends with it live and on the same device. |
| Keepalives.KeepaliveRefreshes | src/client.rs:739-768 | On a served connection the client's timer puts a ping on the stream; reading it sets the session's last activity to now and puts a pong on the other; reading that leaves everything else as it was. |
| Keepalives.OthersLeave | src/server.rs:211-260 | Whatever everybody else does for less than 900 seconds leaves the connection as it is and the session live on its device. |
| Keepalives.KeepalivesKeepIt | src/client.rs:721-768 | A served client whose timer goes off less than 900 seconds apart, and whose pings are read, has its session live on the same device after any such run of the whole server, whatever all others do in between. |
| Keepalives.TimerKeepsIt | src/client.rs:347-351 | That for the timer of 10 seconds and the real format, with the controller there or not, and with no assumption about what arrives. |
| SystemTheorems.SameDeviceUnlessReopened | src/server.rs:357-362 | A key still live at the end of a run has the same device unless it was opened anew. |
| SystemTheorems.OrdinalsAreDense | src/server.rs:534-561 | In every run that removes no session of a host, its sessions carry the ordinals 1 to n, each once, over both transports and despite failed devices. |
| SystemTheorems.PassKeepsApartIff | src/server.rs:216-231 | After any run that leaves a host's ordinals at 1 to n, a reaper pass keeps its devices apart for good exactly when it removes the highest ones. |
| SystemProgress.RunKeepsThreads | src/server.rs:297-393 | In every run the UDP loop stands in the trust store where its phase says. |
| SystemProgress.UdpGetsIdle | src/server.rs:276-418 | From every state of every run the UDP loop can get to its next datagram, whoever is in the middle of what in the trust store. |
| SystemService.ApprovedClientIsServed | src/server.rs:460-618 | From every state of every run in which the file has a client approved, the client can connect and have any events emitted on its session, in order. |
| Checks.ChecksAgreeIff | src/trust.rs:89-119 | In every state of every run: all checks of a client's handshakes that begin from now on, on either transport, answer as the file has it now, unless reads fail or an administrator overrules it, exactly when no operation in flight is stale. |
| Checks.ApprovedPassesIff | src/server.rs:488-582 | That for a client that is approved in the file: it passes whenever it asks. |
| Checks.RevokedIsRefusedIff | src/server.rs:374-393 | That for a client that is not: it is refused whenever it asks, whatever copies with its approval are still about. |
| Checks.StaleMisleads | src/trust.rs:89-119 | Any stale operation can bring it about that a handshake that comes later is answered against the file. |
| Checks.ApprovedCanBeRefused | src/trust.rs:89-119 | A run in which an approval has been saved and a handshake that comes after it is refused. |
| Revocation.RevokedNeverPasses | src/trust.rs:115-119 | A client that is approved in no copy stays so, and passes no check, over every continuation in which nobody approves it. |
| Revocation.HeardNeedsConversation | src/server.rs:307-403 | Without an admitted conversation nothing is emitted for it in any such continuation. |
| Revocation.OtherClientNeedsColon | src/server.rs:308-312 | Another client can have a session under its key only when its id or its device's has a colon. |
| RevocationRuns.RevokedIsHeardIff | src/server.rs:488-618 | After any run, a client approved nowhere is heard again in some such continuation exactly when it has a conversation admitted before. |
| RevocationRuns.RevokedClientGoesOn | src/server.rs:585-600 | A run in which a client is served, is revoked in the file and everywhere, and goes on being served. |
| Server.JoycastServer.CountHost | src/server.rs:316-319 | Counts the live sessions of a host. |
| Server.JoycastServer.OpenSession | src/server.rs:314-362 | The key in terms of the handshake's fields; an existing session is refreshed and nothing else; a new one gets a device with the next ordinal of its host, the metadata and the names; without a device nothing changes and the client is rejected. The same as the machine's step. |
| Server.JoycastServer.ServeMessage | src/server.rs:591-612 | Events and pings refresh exactly this session, events are passed to its device, a session that is gone is reported. |
| Server.JoycastServer.ReapPass | src/server.rs:222-229 | Leaves exactly the sessions active less than 900 seconds ago. |
| Server.JoycastServer.Greet | src/server.rs:488-582 | A handshake leads to a session exactly when the client is approved in the reloaded data and the session is there or can be made; otherwise the client is pending. |
| Server.JoycastServer.HandleDatagram | src/server.rs:285-416 | The whole new state and the reply for every datagram, also one that does not decode, whether or not the trust file can be read and written. |
| ServerSteps.WelcomeAgrees | src/server.rs:297-373 | Undisturbed, the machine's steps for a handshake of an approved client leave the tables the object's method leaves. |
| ServerSteps.RegistrationAgrees | src/server.rs:374-393 | The same for a client that is not approved, with the trust file, whether or not it can be read and written. |
| ServerSteps.MachineAgrees | src/server.rs:285-416 | For every message by datagram, the machine's steps and the object's method make the same of sessions, peers, devices, log, trust data and trust file. |
| ServerSteps.DatagramsAgree | src/server.rs:211-416 | From a server that has just started with what it could read of the trust file: for any series of datagrams at any times, a run of the machine comes to the tables, the trust data and the file that the object comes to. |
| Handler.AwaitHandshake | src/server.rs:472-478 | Answers each ping before the handshake and returns the handshake, or an error for anything else. |
| Handler.ServeStream | src/server.rs:584-613 | Emits all batches of the stream in order on the session's device, answers every ping, and refreshes the session last at its last event or ping. |
| Handler.HandleIrohClient | src/server.rs:460-618 | From the bytes of a connection: the answers written, the batches emitted, the session table and the trust data in every case. |
| HandlerSteps.ServingAgrees | src/server.rs:584-613 | Undisturbed, the machine's readings of a stream, each message at its own time, leave the session, the log and the answers that the loop leaves. |
| HandlerSteps.StreamAgrees | src/server.rs:460-618 | For every stream, from the pings before a handshake on, the machine's steps and the method make the same of sessions, log, trust data, trust file and answers. |
| Handler.BatchesCarryEvents | src/server.rs:592-597 | The batches that a stream makes the handler emit are the events in it. |
| Handler.WrittenIsServed | src/client.rs:660-727 | What a client writes is what the handler reads, and the batches emitted are the client's events. |
| Layout.MaskClearsLowBits | patches/noq-udp/src/cmsg/windows.rs:77-83 | And-ing with the complement of 2^k - 1 takes away the remainder modulo 2^k. |
| Layout.AlignIsLeastMultiple | patches/noq-udp/src/cmsg/windows.rs:77-83 | The masks compute the least multiple of the alignment that is not below the length. |
| Layout.StepIsSpace | patches/noq-udp/src/cmsg/windows.rs:28-62 | The step to the next header is always the space reserved, which is the header plus the payload rounded up. |
| Cmsg.HeaderReads | patches/noq-udp/src/cmsg/windows.rs:64-72 | The three numbers of a stored header are read back, negative ones too; where they stand is said by `Cmsg.HeaderHolds`. |
| Cmsg.LowestFirst | patches/noq-udp/src/cmsg/windows.rs:64-72 | A stored number has its lowest eight bits in its first byte, and so on. |
| Cmsg.HeaderHolds | patches/noq-udp/src/cmsg/windows.rs:64-72 | A stored record is its length as a machine word, its level and its kind in two's complement, in this order, and the payload. |
| Cmsg.RecordsDoNotOverlap | patches/noq-udp/src/cmsg/mod.rs:45-60 | Every record ends before the next begins. |
| Cmsg.HoldsExtends | patches/noq-udp/src/cmsg/mod.rs:53-58 | Writing behind the records so far leaves them all in place. |
| Cmsg.Encoder.constructor | patches/noq-udp/src/cmsg/mod.rs:32-38 | Starts with no record, and with a header exactly when there is room for one. |
| Cmsg.Encoder.RoomMeansHeader | patches/noq-udp/src/cmsg/mod.rs:47-53 | The capacity assertion implies that there is a header, so that the `expect` cannot fire. |
| Cmsg.Encoder.Push | patches/noq-udp/src/cmsg/mod.rs:45-60 | Appends the record, whatever the buffer held, exactly when its space fits; otherwise changes nothing. |
| Cmsg.Encoder.Finish | patches/noq-udp/src/cmsg/mod.rs:70-74 | The control length covers exactly the records. |
| Cmsg.RecordIsNext | patches/noq-udp/src/cmsg/mod.rs:106-121 | What stands at the cursor, and that the cursor goes to the next record or to the end. |
| Cmsg.Iter.Next | patches/noq-udp/src/cmsg/mod.rs:103-121 | Yields the next record, and nothing after the last. |
| Cmsg.EncodeThenIterate | patches/noq-udp/src/cmsg/mod.rs:45-122 | From any prior contents, pushing, finishing and iterating yields exactly the records in order, when their spaces fit; otherwise some push panics. |
| Transmits.TosIff | patches/noq-udp/src/unix.rs:607-620 | `IP_TOS` is there exactly for an IPv4 destination outside the fallback. |
| Transmits.MappedIff | patches/noq-udp/src/unix.rs:607-609 | A destination counts as IPv4 also when it is mapped into IPv6, by its first twelve octets. |
| Transmits.LinuxRecordsAre | patches/noq-udp/src/unix.rs:607-670 | The records of every datagram on Linux, byte by byte: the congestion mark by destination and fallback, the segment size when it is shorter than the contents, and the source address. |
| Transmits.WindowsRecordsAre | patches/noq-udp/src/windows.rs:472-525 | The records of every datagram on Windows, byte by byte, by what the socket supports. |
| Transmits.LinuxFits | patches/noq-udp/src/unix.rs:603-670 | The control messages of every datagram fit the 96 bytes, with 8 to spare. |
| Transmits.WindowsFits | patches/noq-udp/src/windows.rs:472-525 | The control messages of every datagram fit the 128 bytes, with 40 to spare. |
| Transmits.PrepareMsg | patches/noq-udp/src/unix.rs:578-670 | The control buffer then holds exactly the records of the datagram, and no push panics. |
| Transmits.PrepareWsaMsg | patches/noq-udp/src/windows.rs:472-525 | The same for Windows. |
| Send.UdpSocketState.TrySend | patches/noq-udp/src/unix.rs:385-465 | The attempts made, in terms of the results of the system call; the flags after it; that the loop ends with the second result that is not an interruption, and with the first once the flag is up. |
| Send.UdpSocketState.Send | patches/noq-udp/src/unix.rs:207-220 | Success unless the kernel would block: which attempts are followed by another, with what result each ending comes, and what the attempts do to the EINVAL flag and the segmentation maximum. |
| Send.FlagsOverASeries | patches/noq-udp/src/unix.rs:281-339 | Over any series of sends the EINVAL flag only rises, the segmentation maximum only drops and is never zero, and a message is prepared again exactly once if the flag rises. |
| Send.SendSeries | patches/noq-udp/src/unix.rs:207-220 | Datagrams sent one after the other, from any state of a socket, form such a series, and its flag and maximum move accordingly. |
| Send.AttemptsOfASend | patches/noq-udp/src/unix.rs:417-464 | A send makes one attempt that is not interrupted, and a second only if it is the one in which the flag rises. |
| Send.OneRepreparation | patches/noq-udp/src/unix.rs:447-459 | In the life of a socket a message is prepared again once if the kernel ever refuses an argument, and never otherwise. |
| Send.TosUntilRefused | patches/noq-udp/src/unix.rs:610-620 | IPv4 messages carry `IP_TOS` exactly until the first refusal; an EINVAL that is returned is of a message without it. |
| Send.AtMostOneGoesOn | patches/noq-udp/src/unix.rs:417-464 | Of the attempts after which the loop goes on, at most one was not an interruption, namely the first refusal of the socket's life. |
| Send.WsaSocketState.Send | patches/noq-udp/src/windows.rs:527-555 | Segmentation is off exactly when a datagram with a segment size was once refused as invalid. |
| Segments.SplitInvertsFlatten | patches/noq-udp/src/lib.rs:106-115 | Splitting at the stride inverts joining even chunks. |
| Segments.FlattenInvertsSplit | patches/noq-udp/src/apple_fast.rs:41-45 | Joining inverts splitting, and a split is even and of ceil(length / size) chunks. |
| Segments.PrepareBatch | patches/noq-udp/src/apple_fast.rs:38-64 | With a segment size n > 0 the first min(ceil(length / n), 32) headers get the chunks of n bytes, each as a datagram of its own; without one, a single header gets the whole contents; the other headers stay; panics exactly for a size of zero, and for empty contents without one. |
| Segments.BatchCarries | patches/noq-udp/src/apple_fast.rs:38-64 | A batch of a size joins to the first min(length, 32 * size) bytes, the whole is carried exactly when it needs at most 32 messages, and splitting at the size finds the messages again. |
| Segments.MessageSize | patches/noq-udp/src/apple_fast.rs:44-45 | Every message has exactly the segment size, except the last that the whole contents need, which has the rest. |
| History.HistoryStore.RecordConnection | src/history.rs:69-93 | After any series of records the list is what the log says; it is saved when the file can be written. |
| History.HistoryStore.FindByHostname | src/history.rs:110-117 | Finds the first entry with the hostname, compared in lower case. |
| History.ListedGrows | src/history.rs:77-90 | Removing what conflicts and putting the record first makes the list of the longer log. |
| History.NewestAre | src/history.rs:77-90 | The entries made by a log are the records with which no later record shares its target or hostname, newest first. |
| History.SurvivesIff | src/history.rs:77-90 | A record survives exactly when no later one has its target and no later one has its hostname. |
| History.ListedIsDistinct | src/history.rs:77-90 | From a list without conflicts, no two entries ever share a target or a hostname. |
| History.FindIsNewest | src/history.rs:110-117 | Starting empty, a search finds the newest surviving record that matches, and nothing exactly when there is none. |
| Reopen.ReconnectingDevice.TryReopen | src/client.rs:91-120 | Opens, of the devices with the identity, the first at the old path, and failing that the first of all, whose path it remembers. |
| Reopen.OpensTheSameDevice | src/client.rs:71-73 | A device is opened exactly when one with the identity is there, and it is one. |
| Reopen.SameIdentityIff | src/client.rs:51-73 | Two devices are the same exactly when name, bus, vendor, product and version are. |
| Reopen.PathMovesIff | src/client.rs:89-120 | The remembered path moves exactly when the device is not where it was and is somewhere else. |
| Reopen.ReopenStays | src/client.rs:89-120 | Over any series of reopenings, as long as the device is enumerated at its path it is opened there and the path stays. |

## Left out

- Sockets, QUIC and Iroh, and the scheduling of tasks: a connection is two streams of bytes that can break, datagrams come in any order, steps are taken in any order.
- Virtual and physical devices (`evdev`, `uinput`): a device is its metadata, its name and a log of batches; creating one can fail, passing events to one cannot.
- Device names as text: a name is kept as host, ordinal and device name, without the words around them.
- The command line, prompts, logging and the service manager: no state of their own.
- Parsing of target addresses, key files and generated client ids: they rest on libraries that are not part of this model.
- The JSON text of the two stores and writes that stop half-way: a file holds a value or none.
- `#[serde(default)]` on the device id: the binary format has no missing fields, so that it has no effect there.
- A server that stops and starts again: runs begin with a server that has just started.
- The loop of the UDP client, which acts on no reply after its handshake: its keepalives are in Lifetimes.dfy, its datagrams are arbitrary in System.dfy.
- The client's loops over its streams are modelled on values, as actions of the connection machine, because what matters about them is how they interleave with the handler.
- Handler.HandleIrohClient: everything of its connection has arrived and nothing else changes the server meanwhile; interleavings are in System.dfy.
- HandlerSteps.StreamAgrees: nothing comes between the steps of the handler but time, which does not pass before the session is opened; with other parties at work the machine says what happens.
- ServerSteps.MachineAgrees: nothing comes between the steps for a datagram; with other parties at work the machine says what happens.
- SystemService.ApprovedClientIsServed: says what the server can do; a device can fail, and when the check is certain to be passed is said by `Checks.ApprovedPassesIff`.
- The session lock while an answer is written: `handle_iroh_client` holds it until the answer to a handshake has been written, and for 500 ms more after a rejection (src/server.rs:518-579), and everybody who needs a session waits meanwhile. The machine has no state for that wait; the others go on once the write has ended, as `SystemProgress.UdpGetsIdle` says that they can.
- ByteRuns.SameReach: compares what can be reached from the start; after a handler has stopped in the middle of an answer, its client cannot go on as it could with the whole of it.
- History.FindIsNewest: text folding is a parameter; nothing is assumed of it.
- Cmsg.Encoder.Push: buffers on machines with words of 4 or 8 bytes, little-endian, with payloads that can be in memory; the control-message macros of the Unix platforms (section 5 of RFC 3542) are taken to have the layout of the Windows ones, as with glibc.
- The shortcut of the iterator for old systems of Apple, and the control messages of systems other than Linux and Windows.
- Decoding of received control messages into metadata (patches/noq-udp/src/unix.rs:727-793): one branch for each kind of record that the iterator yields.
- Transmits.PrepareMsg: the numbers of levels and kinds are those of the platform headers, which are not part of the repository.
- Send.UdpSocketState.TrySend: one sender at a time; senders at the same time could each prepare a message again.
- Segments.PrepareBatch: a build without debug assertions, which would refuse contents of more than 32 segments.
- Pointers, symbol lookup, socket options and address conversions: foreign calls.
