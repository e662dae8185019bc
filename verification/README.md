# ssh-relay: a verified model of the relay protocols

`ssh-relay` carries an ssh connection over a WebSocket. One end is the relay, which talks to an ssh server; the
other is the helper (or a browser), which talks to an ssh client. Two protocols do this, `corp-relay-v4@google.com`
and the older `corp-relay@google.com`. The relay keeps its sessions in a registry with a limit and a maximum age.

This project models both protocols, the v4 command codec and the session lifecycle, and proves:

- **The v4 system is a duplex byte pipe** (`V4System`). In every interleaving of the four goroutines, and with any
  pattern of failed, cut-short or lost writes, every run is a behaviour of two plain byte pipes. What each ssh gets
  is always a prefix of what the other ssh sent.
- **Without failures everything is conserved and gets through** (`V4FaultFree`). Bytes and acks are accounted for
  exactly, also after the 64-bit counters wrap. No command is ever refused. From every such state, every schedule
  takes the same number of steps, known in advance, to a state of rest in which all bytes have arrived, the counters
  agree and the handshake is complete; no schedule gets stuck before that. Any bytes, in any chunks, get through.
- **One end alone keeps its word against any peer** (`V4PeerTheorems`): one writer at a time, each ACK equal to
  what ssh took, no ACK after a failure, a fixed session identifier, serial-number arithmetic of acks.
- **The codec** (`Command`) has the documented bytes, is a bijection between valid commands and accepted messages, and
  refuses truncated or merged ones; the system proof rests on this.
- **The loops of the code stop only for a reason** (`V4Session`, `CorpRelaySession`): the objects with their methods
  take every message and every read in order, up to a failed call or the first message that the protocol refuses.
- **The older protocol is the same pipe** (`CorpRelaySystem`), and without failures everything gets through under
  every schedule (`CorpRelayRest`). Its 24-bit counter is exact modulo 2^24, in front of every frame on the wire. The
  peer refuses exactly the frames that were cut inside their count, and the error mark of the last frame exactly when
  no message was counted after it was set (`CorpRelayWire`).
- **Sessions and their registry** (`LifecycleProofs`): tokens on the `done` channel balance, expired sessions leave
  the registry within four steps, identifiers are used once, the limit holds, keys stay right whatever v4 traffic
  arrives, and a request that deletes has done so when it is through (`LifecycleHandlers`). Three things do *not* hold,
  and the project shows the runs and the exact conditions: a closed session can stay registered for ever, which can
  use up any limit (`LifecycleLeak`); a request can be blocked for ever inside `Run`, as any that is running when its
  session expires may be (`LifecycleBlocking`); and the older protocol's error mark can be lost (`CorpRelayWire`).

## How it is built

| module | content |
|---|---|
| `Bytes`, `Bits`, `Uuid`, `Command` | big-endian fields, bit masks, text UUIDs, the v4 wire format |
| `BytePipe` | the abstract service that both protocols implement |
| `V4Log` | what a sequence of v4 messages means: its payload, its acks, the acks owed for it |
| `V4Peer`, `V4PeerProofs`, `V4PeerTheorems` | one v4 session as a machine, its invariant, its guarantees |
| `V4System` | client and server joined by two message queues, and their refinement of the pipe |
| `V4Honest`, `V4FaultFree` | the same system while no call fails: its invariant, its distance from rest, the results |
| `V4Inbox` | which messages a v4 session refuses, and what it learns from the others |
| `V4Session` | the v4 `Session` object with its methods and loops, each shown to do steps of the machine |
| `CorpRelay`, `CorpRelayProofs`, `CorpRelaySystem`, `CorpRelaySession` | the same for the older protocol |
| `CorpRelayWire`, `CorpRelayRest` | what its frames carry and which are refused; its runs without failures |
| `Lifecycle`, `LifecycleInvariant` | sessions, deadline and watcher goroutines, handlers and the registry, as steps; what they keep |
| `LifecycleProofs`, `LifecycleLeak` | the registry over every run; closed sessions that stay in it |
| `LifecycleHandlers`, `LifecycleBlocking` | which requests delete their session; which never return |
| `Registry`, `Connections` | the `Manager` object; the ssh and WebSocket ends that the objects write to |

A machine step is one call that may block or fail, down to the single `Write` calls on an open WebSocket writer. A run
is any sequence of such steps, so a statement about all runs is about all interleavings. Proofs are modular: each end
keeps an invariant about its own logs (bytes read, bytes delivered, messages received, messages sent), whatever the
other end does; the system adds only that what one end received is a prefix of what the other sent.

What the model takes from outside the repository:

- The WebSocket delivers whole messages, reliably and in order (section 5.6 of RFC 6455). After a failed flush it opens
  no further writer. The code depends on this: closing a writer is the one call whose error it ignores
  (session/corprelayv4/corprelayv4.go:103, session/corprelay/corprelay.go:132); see `V4PeerTheorems.LostFlushUnnoticed`.
- A read from ssh returns at most the size of the buffer; bytes that come together with an error are dropped, as the
  code does. A v4 read of no bytes without an error counts as a failure; the code then stops with a length error.
- `uuid.New` never repeats. Text UUIDs follow section 3 of RFC 4122. The parser's partly filled result after an error
  is modelled as the digits read so far followed by zeros; no property depends on it.
- `int` has 64 bits, so `int(ack - s.wCount)` is the signed distance.

The documentation and the code differ in a few places, and the model follows the code: a comment calls
`unmarshal32` good for messages of "at most 32 bytes", but it reads a 32-bit length; comments in the older protocol
speak of 32 KiB chunks, but a chunk has up to 0xffffff bytes; CONNECT_SUCCESS is called the first command, but
`runWS` may acknowledge early client data before it.

`dafny verify dfyconfig.toml` checks everything.

## Model

| member | source | states |
|---|---|---|
| `Command.WireFormat` | session/corprelayv4/command/command.go:29-64 | the bytes of every command, in numbers: a two-byte tag 1, 2, 4 or 7, then a four-byte length and the bytes, or an eight-byte ack |
| `Command.UnmarshalEncode` | session/corprelayv4/command/command.go:106-269 | parsing a printed command gives it back if and only if a DATA has 1 to 16384 bytes and a CONNECT_SUCCESS 4 to 36; otherwise the result is a length error |
| `Command.UnknownTag` | session/corprelayv4/command/command.go:106-140 | a message is a bad command if and only if it has no tag or one that is not 1, 2, 4 or 7; all other errors are length errors |
| `Command.EncodeUnmarshal` | session/corprelayv4/command/command.go:106-140 | printing what was parsed from an accepted message gives the message back byte for byte, for all four tags; only commands that pass their checks come out |
| `Command.NoExtension` | session/corprelayv4/command/command.go:85-140 | nothing can follow an accepted message: the encodings delimit themselves |
| `Command.NoTruncation` | session/corprelayv4/command/command.go:85-140 | every proper prefix of an accepted message is refused |
| `Command.NoMerge` | session/corprelayv4/command/command.go:106-140 | two or more encodings glued into one message are refused |
| `Command.PrefixParses` | session/corprelayv4/command/command.go:178-184 | a write of a command that was cut short is never taken for another command |
| `Bytes.ToBEAt` | session/corprelayv4/command/command.go:73-81 | byte `k` of a field is its digit of weight 256^(width - 1 - k): most significant first |
| `Bytes.FromToBE` | session/corprelayv4/command/command.go:89-102 | a big-endian field of any width reads back the value that fits it |
| `Bytes.ToFromBE` | session/corprelayv4/command/command.go:89-102 | writing a field that was read gives the same bytes |
| `Uuid.ParseFormat` | session/corprelayv4/corprelayv4.go:149-164 | the text of an identifier parses back to the identifier |
| `Uuid.FormatText` | session/corprelayv4/corprelayv4.go:149-152 | every character of the text: lower-case digits of each byte in order, dashes at 8, 13, 18 and 23 |
| `Uuid.ParseGoodIff` | session/corprelayv4/corprelayv4.go:121-124 | a text is an identifier if and only if it is 32 digits of either case, or 36 characters with the four dashes |
| `V4Log.OwedAdvance` | session/corprelayv4/corprelayv4.go:172-191 | successive acks owed for received DATA differ by one chunk, 1 to 16384, across any wrap of the counter |
| `V4Log.OwedEnd` | session/corprelayv4/corprelayv4.go:172-175 | the last ack owed is the number of bytes received modulo 2^64 |
| `V4PeerProofs.InvStep` | session/corprelayv4/corprelayv4.go:95-279 | every step of either goroutine, any call failing, any message arriving, keeps the invariant of a session |
| `V4PeerProofs.FlushAdds` | session/corprelayv4/corprelayv4.go:102-106 | a flush adds the whole command to what the other end reads, or something that ends it |
| `V4PeerTheorems.OneWriter` | session/corprelayv4/corprelayv4.go:95-107 | two WebSocket writers are never open at once; the mutex is held exactly while a goroutine sends, and free once both have returned |
| `V4PeerTheorems.FlushedMessage` | session/corprelayv4/corprelayv4.go:183-191 | a flushed message is exactly one command's encoding; only a failed write shortens it, and then its goroutine stops and the peer reads no other command in it |
| `V4PeerTheorems.LostFlushUnnoticed` | session/corprelayv4/corprelayv4.go:102-105 | a DATA, ACK or greeting lost in closing its writer goes unnoticed: its goroutine goes on and frees the mutex, the wire is short of that chunk, that ACK or the greeting, and in no continuation is anything flushed after the gap |
| `V4PeerTheorems.BrokenForGood` | session/corprelayv4/corprelayv4.go:102-105 | after a failed flush nothing is flushed any more, in any continuation |
| `V4PeerTheorems.AckIsDelivered` | session/corprelayv4/corprelayv4.go:129-133 | for any peer and any failure, an ACK being sent equals the bytes fully written to ssh at that moment, modulo 2^64 |
| `V4PeerTheorems.AckLog` | session/corprelayv4/corprelayv4.go:172-191 | the acks sent are the acks owed, one per DATA and in order, each 1 to 16384 ahead of the last |
| `V4PeerTheorems.StoppedForGood` | session/corprelayv4/corprelayv4.go:265-268 | after a failed ssh write, or any other stop of `runWS`, no byte is delivered and no ACK sent in any continuation |
| `V4PeerTheorems.SidForGood` | session/corprelayv4/corprelayv4.go:115-126 | no run, whatever is received, changes a server's identifier, or a client's once it is set |
| `V4PeerTheorems.HelloFirst` | session/corprelayv4/corprelayv4.go:208-214 | the server's wire carries one CONNECT_SUCCESS with its identifier, before all of its DATA |
| `V4PeerTheorems.AckVerdict` | session/corprelayv4/corprelayv4.go:194-205 | an ACK is accepted if and only if it lies less than 0x8000000000000000 ahead modulo 2^64; otherwise no field changes |
| `V4Inbox.HandleByKind` | session/corprelayv4/corprelayv4.go:110-138 | what each kind of message does to each field: a RECONNECT_SUCCESS, a misplaced CONNECT_SUCCESS and what does not parse change nothing and stop `runWS` |
| `V4Inbox.RefusedIff` | session/corprelayv4/corprelayv4.go:110-138 | `runWS` stops on a message if and only if it is one of the errors listed by kind; otherwise it has learned what the message says |
| `V4PeerTheorems.AcksClimb` | session/corprelayv4/corprelayv4.go:194-205 | over any acks from any peer, every accepted advance is below 2^63 and `wCount` is their unbounded sum modulo 2^64 |
| `V4System.StepRefines` | session/corprelayv4/corprelayv4.go:82-90 | every step of the client/server system is a step of the duplex pipe or leaves it alone |
| `V4System.RefinesPipe` | session/corprelayv4/corprelayv4.go:82-90 | every run from the start, failures included, is a behaviour of the duplex byte pipe |
| `V4System.EveryStateIsValid` | session/corprelayv4/corprelayv4.go:110-138 | in every reachable state each ssh has received a prefix of what the other sent, and the client's identifier is nil or the server's |
| `V4FaultFree.NeverAlarmed` | session/corprelayv4/corprelayv4.go:110-138 | in every run from the start without I/O failures, however long, no goroutine has stopped and `recvCmd` accepts whatever arrives next |
| `V4FaultFree.BytesAccounted` | session/corprelayv4/corprelayv4.go:172-246 | in such runs, delivered, being delivered, in flight and held by `runSSH`, in order, are the bytes read, in both directions |
| `V4FaultFree.AcksAccounted` | session/corprelayv4/corprelayv4.go:172-205 | in such runs, acks taken, in flight and still to be sent are exactly those owed, one per DATA; they start after one end's `wCount`, end at the other's `rCount`, and advance by 1 to 16384 |
| `V4FaultFree.RestAgrees` | session/corprelayv4/corprelayv4.go:172-205 | when nothing is in flight or pending, all bytes are delivered, `wCount`, `rCount` and the bytes sent agree modulo 2^64, and the client knows the server's identifier |
| `V4FaultFree.EverySchedule` | session/corprelayv4/corprelayv4.go:208-270 | without new input every schedule has at most the number of steps computed from its start; it is at rest if and only if it took all of them, can go on if and only if it is not at rest, and at rest everything is delivered both ways |
| `V4FaultFree.SomeSchedule` | session/corprelayv4/corprelayv4.go:208-270 | from every such state there is a schedule to rest |
| `V4FaultFree.GetsThrough` | session/corprelayv4/corprelayv4.go:208-270 | for every sequence of reads of 1 to 16384 bytes at either end there is a run that takes them all in, and at whose end each ssh was given exactly what the other gave |
| `V4Session.Session.constructor` | session/corprelayv4/corprelayv4.go:29-39 | a new session: counters zero, an identifier for the server only |
| `V4Session.Session.WsWriter` | session/corprelayv4/corprelayv4.go:95-107 | a writer with the mutex held, or neither |
| `V4Session.Session.WriteCommand` | session/corprelayv4/command/command.go:74-81 | prints the command call by call up to the first failure; all of its encoding is in the buffer if none failed |
| `V4Session.Session.Cancel` | session/corprelayv4/corprelayv4.go:102-105 | flushes what is there, or loses it and breaks the WebSocket; frees the mutex either way |
| `V4Session.Session.Transmit` | session/corprelayv4/corprelayv4.go:225-230 | sends at most one message; the whole command, and no error, if no call of the WebSocket failed; the mutex is free on every way out |
| `V4Session.Session.ReadData` | session/corprelayv4/corprelayv4.go:172-180 | the counter is bumped before the write; ssh gets all the bytes, or a prefix and an error exactly if its write failed |
| `V4Session.Session.SendAck` | session/corprelayv4/corprelayv4.go:183-191 | the ACK sent is the byte count of ssh modulo 2^64, and it is sent unless the WebSocket fails |
| `V4Session.Session.ReadAck` | session/corprelayv4/corprelayv4.go:194-205 | accepts if and only if the ack is less than 2^63 ahead; a refused ack changes nothing |
| `V4Session.Session.ReadConnect` | session/corprelayv4/corprelayv4.go:116-126 | sets the identifier of a client that has none; refuses all else |
| `V4Session.Session.RecvCmd` | session/corprelayv4/corprelayv4.go:110-138 | per kind of message: which fields change and how, what ssh and the WebSocket get, and when it is an error |
| `V4Session.Session.WsRound` | session/corprelayv4/corprelayv4.go:249-268 | one message is handled; a read error or a refused message stops the loop, and nothing but these and a failed call does |
| `V4Session.Session.RunWS` | session/corprelayv4/corprelayv4.go:249-270 | over any incoming messages: it takes them in order up to the first that is refused, or to a failed call; ssh has a prefix of their payload and the acks sent are a prefix of those owed, all of both while it goes on |
| `V4Session.Session.Greet` | session/corprelayv4/corprelayv4.go:149-164 | the server sends one CONNECT_SUCCESS with its identifier, and it is sent unless the WebSocket fails |
| `V4Session.Session.Round` | session/corprelayv4/corprelayv4.go:216-231 | one read becomes one DATA command |
| `V4Session.Session.RunSSH` | session/corprelayv4/corprelayv4.go:208-237 | over any reads: greeting first, the payload on the wire is a prefix of the bytes read, all of them while it goes on; it stops only after a failed call, a read error or an empty read |
| `V4Session.Session.RunBoth` | session/corprelayv4/corprelayv4.go:82-90 | both loops from the start, their rounds in any order, until the first error, which has a cause: a failed call, a read error or a refused message. Without one all messages and reads are used up, everything is delivered, acknowledged and sent, and a server has greeted |
| `CorpRelay.AckRoundTrip` | session/corprelay/corprelay.go:217-235 | `readAck` after `writeAck` is the identity exactly on values up to 0xffffff, and an error above |
| `CorpRelay.IncCounterCounts` | session/corprelay/corprelay.go:83-85 | the counter adds modulo 2^24, despite truncation to 32 bits and overflow before the mask |
| `CorpRelay.MasksAreMod` | session/corprelay/corprelay.go:20-29 | the counter is the 32-bit sum masked bit by bit with 0xffffff, and the mark the counter with the bits of 0xff000000 set |
| `CorpRelay.GoodAck` | session/corprelay/corprelay.go:217-228 | an ack is accepted if and only if its four bytes are there and the first is zero |
| `CorpRelay.MarkedFront` | session/corprelay/corprelay.go:107-109 | a marked count starts with 0xff on the wire, an unmarked one with 0; the other three bytes are the same |
| `Bits.BitsOf` | session/corprelay/corprelay.go:83-110 | the operators used for the masks are conjunction and disjunction, digit by digit |
| `CorpRelayProofs.InvStep` | session/corprelay/corprelay.go:88-214 | every step of `runSSH`, `runWS` and the end of `Run` keeps the invariant of a session |
| `CorpRelayProofs.CounterCounts` | session/corprelay/corprelay.go:204-214 | before a failure is marked, the counter is the bytes delivered plus those being written, modulo 2^24, and this is what goes in front of a frame |
| `CorpRelayWire.AckLog` | session/corprelay/corprelay.go:116-137 | before `Run` has ended, every frame on the wire that is long enough starts with the bytes received with some first messages, modulo 2^24, and these points never go back from one frame to the next |
| `CorpRelayWire.AcceptedBeforeEnd` | session/corprelay/corprelay.go:133-136 | before `Run` has ended, whatever failed, a frame is refused by the peer if and only if a failed write cut it inside its 4-byte count |
| `CorpRelayProofs.FinalFrame` | session/corprelay/corprelay.go:99-111 | when `runWS` failed, the last frame carries the bytes received modulo 2^24 behind a set high byte, and the peer refuses it |
| `CorpRelayWire.MarkSurvives` | session/corprelay/corprelay.go:107-110 | the last frame is refused by the peer if and only if no acceptable binary message was received from setting the mark to writing it; never one if `runWS` failed; it carries the count either way |
| `CorpRelayWire.MarkCanBeCleared` | session/corprelay/corprelay.go:83-110 | a run in which `runSSH` fails, one more message clears the mark, and the peer accepts all it gets |
| `CorpRelaySystem.StepRefines` | session/corprelay/corprelay.go:116-214 | every step of two ends is a step of the duplex pipe or leaves it alone |
| `CorpRelaySystem.RefinesPipe` | session/corprelay/corprelay.go:116-214 | every run, with failures and text messages, is a behaviour of the same duplex pipe as v4 |
| `CorpRelaySystem.EveryStateIsValid` | session/corprelay/corprelay.go:116-214 | whatever failed, each ssh was given a prefix of what the other sent |
| `CorpRelaySystem.FaultFreeRun` | session/corprelay/corprelay.go:116-150 | in every run from the start without I/O failures neither end stops, and delivered, being delivered, in flight and held, in order, are the bytes read |
| `CorpRelayRest.NeverAlarmed` | session/corprelay/corprelay.go:155-186 | in such runs whatever arrives next is accepted |
| `CorpRelayRest.RestAgrees` | session/corprelay/corprelay.go:204-214 | when nothing is in flight or pending, all bytes are delivered and each counter is the number of bytes sent to it modulo 2^24 |
| `CorpRelayRest.EverySchedule` | session/corprelay/corprelay.go:116-214 | without new input every schedule has at most the number of steps computed from its start; it is at rest if and only if it took all of them, can go on if and only if it is not at rest, and at rest everything is delivered both ways |
| `CorpRelayRest.SomeSchedule` | session/corprelay/corprelay.go:116-214 | from every such state there is a schedule to rest |
| `CorpRelayRest.GetsThrough` | session/corprelay/corprelay.go:116-214 | for every sequence of reads at either end there is a run that takes them all in, and at whose end each ssh was given exactly what the other gave |
| `CorpRelayRest.CanReport` | session/corprelay/corprelay.go:189-201 | a text message may be sent from any state of rest; it changes nothing that is read or delivered |
| `CorpRelaySession.Session.IncrementCounter` | session/corprelay/corprelay.go:83-85 | adds modulo 2^24 |
| `CorpRelaySession.Session.ParseBinary` | session/corprelay/corprelay.go:181-214 | a bad ack changes nothing; otherwise the rest is counted and ssh gets it, or a prefix of it and an error |
| `CorpRelaySession.Session.WsRound` | session/corprelay/corprelay.go:155-214 | the loop goes on after a text, and after a binary message with a good ack that ssh took, and after nothing else; what is counted and given to ssh |
| `CorpRelaySession.Session.RunWS` | session/corprelay/corprelay.go:155-178 | over any messages: it takes them in order up to the first bad one or a failed write to ssh; ssh has a prefix of what was received, all of it while it goes on, and the counter agrees modulo 2^24 |
| `CorpRelaySession.Session.SendFrame` | session/corprelay/corprelay.go:128-137 | one frame: the current count, then the chunk; sent whole unless the WebSocket fails |
| `CorpRelaySession.Session.SshRound` | session/corprelay/corprelay.go:116-143 | one read becomes one frame behind the current count |
| `CorpRelaySession.Session.RunSSH` | session/corprelay/corprelay.go:116-143 | over any reads: what the peer will take is a prefix of the bytes read, all of them while it goes on; it stops only after a read error or a failed call |
| `CorpRelaySession.Session.Finish` | session/corprelay/corprelay.go:99-111 | at most one more frame, at most the marked counter, and exactly that if no call fails |
| `CorpRelaySession.Session.RunBoth` | session/corprelay/corprelay.go:88-113 | both loops from the start, their rounds in any order, until the first error, which has a cause; without one all messages and reads are used up, delivered and sent, and no last frame follows. After an error the last frame is 0xff and the 24-bit count if no call of the WebSocket failed |
| `LifecycleInvariant.InvStep` | relay/session/manager/manager.go:44-91 | every step of any goroutine, handler or v4 session keeps the invariant of the registry |
| `LifecycleInvariant.TrafficKeeps` | session/corprelayv4/corprelayv4.go:115-126 | no step of the machine of a registered v4 session, whatever it receives, changes the identifier that `SID()` returns |
| `LifecycleProofs.RegistryHolds` | relay/session/manager/manager.go:44-67 | a positive limit is never exceeded, and every key is the identifier that its session's `SID()` returns now, for v4 that of its running machine |
| `LifecycleProofs.TokensBalance` | session/session.go:66-77 | completed sends on `done` equal completed receives and are at most two; at most one after the timer fired; none before ssh was closed |
| `LifecycleProofs.WatcherInOrder` | relay/session/manager/manager.go:59-64 | though it starts first, the watcher removes a session only after it was inserted and its ssh closed |
| `LifecycleProofs.ExpiredIsRemoved` | session/session.go:66-77 | once the timer fired, the session is out of the registry whenever its goroutines are at rest |
| `LifecycleProofs.ExpiryRemoves` | session/session.go:66-77 | from every state after the timer fired, at most four steps of the session's deadline goroutine and watcher and of a pending `New` remove it |
| `LifecycleProofs.ClosedAtRest` | relay/runner/corprelayv4.go:61-70 | a closed session at rest is registered if and only if each of its requests that is through was a v4 request whose run did not end with end of file, and its only token went to the deadline goroutine |
| `LifecycleLeak.LeakHappens` | relay/runner/corprelayv4.go:61-70 | under any limit, for any different identifiers that fit it, there is a run that closes all those v4 sessions and leaves them registered with nobody to remove them |
| `LifecycleLeak.LeakForGood` | relay/session/manager/manager.go:59-64 | such a session stays registered in every continuation in which nobody looks it up |
| `LifecycleLeak.LeakBlocksRelay` | relay/session/manager/manager.go:47-49 | for any positive limit, once that many sessions leaked, no continuation without a lookup of them can create a session |
| `LifecycleLeak.RelayCanBeExhausted` | relay/session/manager/manager.go:44-67 | every positive limit has a run after which no session can be created any more |
| `LifecycleProofs.OutForGood` | relay/session/manager/manager.go:81-91 | an identifier that left the registry never returns, in any run |
| `LifecycleHandlers.LookedUpOnce` | relay/runner/corprelay.go:28-48 | from the lookup on: once the `connectHandle` that made it is through, whatever happened, the identifier is out of the registry |
| `LifecycleHandlers.CreatedOnce` | relay/runner/corprelayv4.go:36-70 | from the creation on: a corp-relay session has no request yet; a v4 session has one, which deletes it if its run ended with end of file and only then |
| `LifecycleHandlers.OneOwner` | relay/runner/corprelayv4.go:36-70 | a v4 request belongs to a v4 session, and no two to the same |
| `LifecycleHandlers.Choices` | relay/runner/corprelayv4.go:53-71 | a request that has its session may run it or give up, its run may end with end of file or otherwise, then it closes and, if it deletes, does so as soon as the lock is free; nothing else |
| `LifecycleHandlers.OpenToAll` | relay/session/manager/manager.go:70-78 | a session can be looked up exactly while it is registered, its timer fires exactly while armed, and a v4 session makes exactly the steps of its machine |
| `LifecycleProofs.OneShot` | relay/runner/corprelay.go:28-48 | once a `connectHandle` that looked a session up has returned, or a v4 request whose run ended with end of file, every later `Get` of it fails |
| `LifecycleBlocking.FewReturn` | session/corprelayv4/corprelayv4.go:70-74 | however many requests run a session, at most two of the runs ever return, and once its timer fired at most one, counting the deadline goroutine's own close |
| `LifecycleBlocking.ReturnsIff` | session/corprelayv4/corprelayv4.go:70-74 | a request inside `Run` can return if and only if the deadline goroutine or the watcher still waits for a token |
| `LifecycleBlocking.BlockedForGood` | session/corprelay/corprelay.go:71-75 | when neither does, the request stays inside `Run` in every continuation |
| `LifecycleBlocking.ExpiredNeverReturns` | session/session.go:66-77 | a request inside `Run` when its session has expired and come to rest never returns |
| `LifecycleBlocking.ExpiryBlocks` | session/session.go:66-77 | from every state in which a request runs a session that nobody has closed, three steps of the timer, the deadline goroutine and the watcher leave it blocked for good |
| `Registry.Manager.constructor` | relay/session/manager/manager.go:26-32 | an empty registry with its limit |
| `Registry.Manager.New` | relay/session/manager/manager.go:44-67 | the limit is checked before the version; the session is inserted under its identifier, the limit holds afterwards; an error changes nothing |
| `Registry.Manager.Get` | relay/session/manager/manager.go:70-78 | the session registered under the identifier, or an error |
| `Registry.Manager.Delete` | relay/session/manager/manager.go:81-91 | for any identifier: removes exactly that key, or reports an error and changes nothing if it is not there |
| `Registry.CreateSession` | relay/session/manager/manager.go:44-67 | a call of `New` is the two events of the lifecycle model that create a session, and is refused exactly where they are |
| `Registry.LookUp` | relay/session/manager/manager.go:70-78 | a call of `Get` succeeds exactly where the event of the lifecycle model is possible, and gives the session that the new request has |
| `Registry.RemoveSession` | relay/session/manager/manager.go:81-91 | a call of `Delete` by a watcher or a handler leaves the registry that the event of the lifecycle model leaves |

## Left out

- Reconnecting: not implemented in the code; a received RECONNECT_SUCCESS is an error, as there.
- The WebSocket library, TLS, HTTP upgrade, dialing and the UUID library: replaced by the assumptions listed above.
- Cookie server, origin checks, request parsing, configuration, logging, command-line programs: short validation and plumbing.
- Time: the deadline may fire at any moment.
- What `Run`'s return does to the goroutine that is still running (ssh closed, later the WebSocket): any of its calls may fail at any time instead.
- CorpRelaySystem.RefinesPipe: does not cover two overlapping writers on the older protocol's WebSocket, when `Run` opens its last frame while `runSSH` is inside one; the WebSocket library forbids that, so what it does then is not defined. Each opens a writer only while the other has none.
- Go memory-model races on the older protocol's counter: reads and writes of it are single steps.
- The mutex that lets one `Run` of a corp-relay session go at a time: more handlers may run at once in the lifecycle model.
- V4Session.Session.RunWS: the contract holds while `runSSH` does nothing; `RunBoth` lets whole rounds of the two loops alternate, and finer interleavings are the subject of the machine, whose steps the methods take.
- V4Session.Session.RunSSH: likewise, while `runWS` does nothing.
- CorpRelaySession.Session.RunWS: likewise.
- CorpRelaySession.Session.RunSSH: likewise.
