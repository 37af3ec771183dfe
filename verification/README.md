# tcpsh: a verified model

tcpsh accepts TCP connections on any number of ports, keeps each as a session with a receive
buffer, and lets an operator attach to one of them, locally or through an encrypted client. This
project models how bytes and commands travel through it, and proves what arrives, in what order,
and who may rely on what, over every interleaving of the goroutines involved.

| files | component |
|---|---|
| `RxMonitor.dfy`, `RxTheorems.dfy`, `Rounds.dfy` | a session's receive buffer as a monitor: receive loop, drain goroutines, `read`, `WaitDead`, one mutex, one condition variable, and the session state behind another mutex; how long each goroutine goes on |
| `Session.dfy` | the same buffer in place: a growing backing array, copy-out, reuse |
| `Framing.dfy`, `FrameIO.dfy` | the frame codec as functions, and its reader, writer and handshakes as classes and methods over a connection that delivers arbitrary pieces |
| `Handover.dfy` | the handshake and the server's change of buffered reader |
| `Wire.dfy` | the server's side of the client's connection: bounded `outCh`, and the two writers, each with three writes for a frame |
| `Relay.dfy`, `Farewells.dfy` | monitor and wire together: end-to-end order of session data, and how an attach ends |
| `Protocol.dfy`, `LockStep.dfy`, `Ledger.dfy`, `Replies.dfy` | client and server: all channels with their capacities, all goroutines, menu and session mode on both sides; what the replies and events say |
| `Pumps.dfy` | forwarder and logging proxy connections: two copiers, a handler, `sync.Once`, counters, the log |
| `SessionTable.dfy` | every session ever accepted, IDs, the index, and which session is Foreground |
| `Managers.dfy`, `Listeners.dfy`, `Forwards.dfy` | the session, listener and forward managers as classes over their maps |
| `Selection.dfy` | `use` and `kill`, with the filter inside the argument slice |
| `Text.dfy`, `Parser.dfy` | line parsing, addresses, and the client's own tests on a line |
| `SessionLines.dfy` | what a line typed in session mode does, in the console and through the server |

Goroutines that share state are transition systems: a program counter per goroutine, one action for
each point at which another may run, and theorems over all runs. Objects that one caller changes at
a time are classes, with methods proved against functions of the old state. Whatever a scheduler,
a peer, the kernel, a random generator or map iteration decides is a parameter of an action or of a
call. An actor that fails or is cancelled takes no further step, so every safety theorem covers it.

The AEAD is the construction of section 2.8 of RFC 8439, taken as a parameter with two laws: opening
undoes sealing under the same key and nonce, and sealing adds 16 bytes. Key and nonce are inputs.
`Framing.LawsSatisfiable` gives an instance.

## What does not hold

Seven things one would expect fail in the code as it is. Each is modelled as it is, shown by a
concrete run or line, and replaced by the exact condition under which it does hold.

* Client and server fall out of step when an RX goroutine sees a dead session, be it the attached one
  or one left over from an attach that was ended by `+back` (`internal/server/server.go:384-387` sends
  a response that nobody asked for), when input ends in session mode
  (`internal/client/client.go:164` leaves without telling the server), after a system command that
  prints nothing (`internal/server/server.go:289` sends no empty response), and when a goodbye and
  another frame fall into each other (next point). `Ledger.InStepExactlyWhenClean` proves that they are
  in step at the end of a run if and only if none of these has ever occurred in it: falling out of
  step is final. `LockStepProof.DetachedDeathMisanswers`, `LockStepProof.FirstDeathMisroutes`,
  `LockStepProof.FirstEofMisroutes`, `LockStepProof.FirstSilentCommandHangs` and
  `LockStepProof.FirstGoodbyeIsLost` are runs from the start that show what each does.
* The dispatcher writes `Bye.` to the connection itself (`internal/server/server.go:274`,
  `internal/server/server.go:280`), past the writer goroutine (`internal/server/server.go:245`), and
  each frame is three writes (`internal/proto/proto.go:95-103`). The wire is a succession of whole
  frames if and only if neither writes while the other is inside its frame:
  `Wire.WholeFramesExactlyWhenApart`. Otherwise the client reads the length of one frame and opens a
  mixture: `Wire.GoodbyeInsideFrame`, `Wire.MixtureIsRead`, `Wire.GoodbyeInsideIsUnreadable`. The
  bytes with the whole goodbye between two writes of a frame are still those of the two frames, one
  after the other, if and only if the rest of the frame commutes with the goodbye's frame:
  `Wire.MixtureIsStreamExactly`, `Wire.GoodbyeInsideCanPass`.
* The comment at `internal/session/session.go:123` says that the last broadcast wakes any waiter. It
  is made without the mutex, so a goroutine between its test and its wait sleeps through it:
  `RxTheorems.OversleepExactlyWhenAtRisk`, `RxTheorems.DeathBroadcastCanBeMissed`. The same goes for the
  broadcasts behind exitFlag (`internal/server/server.go:403-404` and four more):
  `RxTheorems.ExitMissedExactlyBeforeWait`, `RxTheorems.ExitBroadcastCanBeMissed`.
* "Closed by remote" is final if and only if the receive loop is past its last append or about to read
  from a connection closed on this side: `RxTheorems.DeathFinalExactlyWhenQuiet`. A kill and a failed
  write can come before that: `RxTheorems.KillDoesNotMakeNoticeFinal`,
  `RxTheorems.FailedWriteDoesNotMakeNoticeFinal`.
* Dead is not absorbing. A session whose receive loop has returned stays Dead if and only if no attach,
  `+bg` or deferred reset of it follows: `SessionTable.FinishedMeansDead`. The deferred reset tests and
  then sets, and a detach can end with a session listed whose connection nothing reads any more if and
  only if the session is Foreground when it is tested:
  `SessionTable.ResetRevivesExactlyFromForeground`, `SessionTable.ResetCanReviveTheDead`.
* A negative index passes the only bound check there is and indexes out of range, in `kill`
  (`internal/console/dispatcher.go:140-146`), `send` (`internal/console/dispatcher.go:389-395`), `read`
  (`internal/console/dispatcher.go:422-428`) and `use` (`internal/console/repl.go:212-216`,
  `internal/server/server.go:345-349`): `Selection.PrintedTarget`. `info` tests `idx > 0` and does not.
* Session mode is not the same in the console and through the server: `exit` is data in one and ends
  session mode in the other, a lone `!` is a command in one and data in the other, any other word with
  `+` is ignored (or, by its first field, obeyed) in one and data in the other, and a margin is kept in
  one and trimmed in the other. `SessionLines.PassthroughAgreesExactly` proves that there is no other
  difference on a live session.

The repository's README also says that the server preserves all state when a client disconnects
(`README.md:357`). Its maps do survive, but forwards are opened under the client's context
(`internal/server/server.go:175-179`), and the model claims nothing beyond the maps.

## Model

| member | source | states |
|---|---|---|
| RxTheorems.Conservation | internal/session/session.go:104-164 | In every reachable state, for any number of concurrent drainers and reads, the drained chunks in lock order followed by the buffer are the bytes appended, and BytesRX is that length plus the chunk in flight once counted |
| RxTheorems.NoLostDataWakeup | internal/session/session.go:114-117 | Whenever the receive mutex is free and the buffer holds data, no drain goroutine is parked, with WaitDead waiters on the same condition |
| RxTheorems.MutualExclusion | internal/session/session.go:114-117 | At most one goroutine, the receive loop included, is between Lock and Unlock, across waits and wakeups |
| RxTheorems.SoleDrainerSlice | internal/server/server.go:369-393 | What a goroutine that alone drained since it started has handed on and holds is one contiguous slice of the bytes appended, starting behind the drains before it and ending at the buffer |
| Rounds.GoesRoundExactly | internal/server/server.go:369-393 | Over every run, a drain goroutine is on its way round if and only if it has seen neither Dead nor its exitFlag; an attach's that is gone has seen Dead and sent notice and menu response behind its data, or has seen the exitFlag and sent data alone; the console's and WaitDead have seen Dead |
| Rounds.EverythingIsHandedOn | internal/server/server.go:371-392 | From every reachable state in which a drainer has seen neither, some continuation hands on every byte appended so far: the buffer is empty and nothing newly drained is in anyone's hands; and the drainer itself has handed on all of it behind the drains before it if it is the only one and no other goroutine holds the mutex |
| Rounds.ConsoleNoticeExactly | internal/console/repl.go:261-266 | Over every run, the console prints the closed notice, behind its data and as its last line, if and only if its second look still found Dead |
| RxTheorems.NoBytesAfterDeath | internal/server/server.go:371-388 | Once a drainer has observed Dead when the receive loop had nothing left to append, as after it set Dead itself, the buffer is empty, everything read was drained, and no continuation appends another byte |
| RxTheorems.LastBytesBeforeNotice | internal/server/server.go:371-388 | When a sole drainer has sent the closed notice for such a death, the data it handed on before is every byte behind the drains that preceded it, now and in every continuation |
| RxTheorems.DeathFinalExactlyWhenQuiet | internal/session/session.go:107-127 | For a goroutine about to unlock after it observed Dead, no byte will follow in any continuation if and only if the receive loop is past its last append, or about to read from a connection that this side has closed |
| RxTheorems.KillDoesNotMakeNoticeFinal | internal/session/session.go:184-190 | A run in which a drainer left over from an attach observes a kill while a chunk, read before the connection was closed, is still to be appended |
| RxTheorems.FailedWriteDoesNotMakeNoticeFinal | internal/server/server.go:438-441 | A run in which a drainer, of the server or the console, observes the Dead that a failed write set while the receive loop reads on |
| RxTheorems.OversleepExactlyWhenAtRisk | internal/session/session.go:119-125 | Some goroutine can stay parked after the death broadcast if and only if one stands between its last test and its wait when the broadcast is due |
| RxTheorems.DeathBroadcastCanBeMissed | internal/session/session.go:175-181 | A run in which WaitDead is at that point and sleeps through the broadcast |
| RxTheorems.ExitMissedExactlyBeforeWait | internal/server/server.go:408-412 | After exitFlag is stored and broadcast, the attach's goroutine can be parked at any later time if and only if it stood right before its wait at the broadcast |
| RxTheorems.ExitBroadcastCanBeMissed | internal/server/server.go:372-375 | A run in which it did and is parked on a live session |
| SessionObject.Session.AppendRx | internal/session/session.go:115 | The buffer becomes its old contents followed by the chunk, in place when the capacity allows and otherwise in a larger array |
| SessionObject.Session.DrainRxBuf | internal/session/session.go:131-164 | The whole contents go out in a fresh array, nil exactly for an empty buffer, and the backing array is kept |
| SessionObject.Session.Receive | internal/session/session.go:109-115 | n bytes of the read buffer are counted and appended, through a copy |
| SessionObject.Session.RxLoop | internal/session/session.go:104-129 | The loop appends and counts exactly the bytes up to and including the first error, and sets Dead exactly when there is one |
| SessionObject.DrainedChunkIsSafe | internal/session/session.go:156-164 | A drained chunk is unchanged by all later receiving and draining over the same backing array, and two drains together hold the old contents and all that arrived |
| SessionObject.Session.Write | internal/session/session.go:167-171 | BytesTX grows by exactly what the connection took, also on failure |
| Framing.LawsSatisfiable | internal/proto/proto.go:88 | Some AEAD meets both laws |
| Framing.Uint32RoundTrip | internal/proto/proto.go:91-93 | Big-endian decoding of the length field undoes its encoding |
| Framing.ReadableExactlyWhenCapped | internal/proto/proto.go:116-121 | A written frame is read back, whole and exactly, if and only if its plaintext is at most 4,194,276 bytes (4 MiB minus nonce and tag); above that it is refused as too large |
| Framing.CutFrameIsPartial | internal/proto/proto.go:110-126 | No proper prefix of a readable frame yields a message or an error of its own |
| Framing.PrefixDecodes | internal/proto/proto.go:75-141 | The first k bytes of a stream of frames decode to the plaintexts of exactly the frames that lie whole within them, in order |
| Framing.StreamDecodes | internal/proto/proto.go:75-141 | A whole stream decodes to exactly the plaintexts written |
| Framing.DecodesToPrefix | internal/proto/proto.go:119-121 | Even with frames over the cap among them, what is returned is a prefix of what was written |
| FrameIO.BufReader.Read | internal/proto/proto.go:198-200 | A buffered read returns a non-empty part of what is pending and leaves the rest, or end of stream exactly when nothing is pending |
| FrameIO.BufReader.ReadFull | internal/proto/proto.go:112-114 | Exactly n bytes, in order, however the connection cuts them, or an error exactly when fewer are left |
| FrameIO.BufReader.ReadFrame | internal/proto/proto.go:110-141 | The result, each error kind included, and what is left to read depend only on the bytes pending, never on chunking or buffering |
| FrameIO.BufReader.ReadTypedFrame | internal/proto/proto.go:185-194 | Succeeds exactly on a frame with a non-empty plaintext, and splits it into type and payload |
| FrameIO.ReadAll | internal/server/server.go:187-201 | Repeated reads return exactly the messages of the pending bytes |
| FrameIO.WriteFrame | internal/proto/proto.go:77-105 | The three writes put the whole frame on the connection, or a proper prefix of it and an error |
| FrameIO.WriteTypedFrame | internal/proto/proto.go:177-182 | The same for type byte and payload |
| FrameIO.SendHandshake | internal/proto/proto.go:145-157 | Succeeds exactly if HELLO went out whole and the next frame is READY, and leaves the reader right behind it |
| FrameIO.ReceiveHandshake | internal/proto/proto.go:162-174 | Succeeds exactly if the first frame is HELLO and READY went out whole; nothing is written otherwise |
| Handover.HandoverLossless | internal/server/server.go:160-178 | With a client that waits for READY, the reader dropped after authentication is empty, the server never refuses, and commands are read whole and in order with the rest of them pending byte for byte |
| Handover.PushesSurvive | internal/client/client.go:48-50 | Frames sent right behind READY are shown in order with the rest of them pending byte for byte |
| Handover.CommandsGetThrough | internal/server/server.go:187-201 | A sent command that is not read yet can be read now, or bytes of it can be taken from the connection |
| Handover.LosslessExactlyWhenDrained | internal/server/server.go:160-178 | For any client, all frames sent so far reach the serving reader if and only if the authenticating reader holds nothing |
| Handover.EarlyCommandCanBeLost | internal/server/server.go:160-178 | A run in which a command sent without waiting is dropped with the first reader |
| Wire.WholeFramesExactlyWhenApart | internal/proto/proto.go:95-103 | Over every run of both writers, the writes on the wire are whole frames one after the other if and only if none is made while the other writer is inside its frame |
| Wire.DecodedInOrder | internal/server/server.go:238-252 | In such a run, whatever part of the wire has arrived decodes to the first of the messages written, which are those sent on outCh, in order, with the goodbye where it was written |
| Wire.DecodedInFull | internal/server/server.go:238-252 | Once outCh is empty and both writers are between frames, frames within the cap are all decoded, the goodbye included |
| Wire.MixtureIsRead | internal/proto/proto.go:110-141 | With the goodbye after the first or second write of a frame, the client reads the frame's length and gets exactly what the AEAD opens that many bytes of the mixture to |
| Wire.MixtureIsStreamExactly | internal/server/server.go:273-275 | The bytes of the mixture are those of the two frames one after the other if and only if the rest of the frame commutes with the goodbye's frame, and never with the goodbye first |
| Wire.GoodbyeInsideCanPass | internal/proto/proto.go:95-103 | An instance in which they are, for every nonce of the goodbye that makes the message an event |
| Wire.GoodbyeInsideFrame | internal/server/server.go:273-281 | For any message, a run in which the goodbye lands inside its frame and the wire is the mixture |
| Wire.GoodbyeInsideIsUnreadable | internal/proto/proto.go:136-139 | An instance in which the client gets an error and no message of such a wire |
| Relay.DecodedIsPushed | internal/server/server.go:238-281 | What the client decodes, at any time and however the bytes arrive, is what the actions of the run sent on outCh, in order: session data and notices as `E`, the menu response as `R`, session starts as `S`, others under the type they were sent with, and `RBye.` in between where it was written; if the goodbye is kept apart and no length field wraps around |
| Relay.SentSlice | internal/server/server.go:381-383 | The data an attach has sent, behind the bytes drained before it, is a prefix of the session's bytes |
| Relay.EndToEndOrder | internal/server/server.go:354-393 | For a sole drainer, under the same conditions, its data among the frames decoded so far is one contiguous in-order slice of the session's bytes, every such frame has type byte `E` and stands behind that attach's frame with type byte `S`, whatever other frames interleave |
| Relay.EndToEndComplete | internal/server/server.go:238-281 | Frames within the cap are all decoded, one for each message sent and one for the goodbye, once channel and writers are idle |
| Relay.LastBytesOnTheWire | internal/server/server.go:381-388 | Once the client has decoded a farewell (the notice as an event or the menu text as a response) for a death observed when the receive loop had nothing left to append, the session data among the frames decoded before it is every byte of the session behind the earlier drains, now and in every continuation |
| Farewells.NoticeThenMenu | internal/server/server.go:384-391 | The farewells of an attach among the frames decoded are none, the notice event, or the notice event and then one response with the menu text; its goroutine has sent just these two once it is gone because of a death, and none once it is gone for another reason |
| LockStepProof.InStepExactlyWithoutHazard | internal/server/server.go:254-450 | From a state in step, an action of any of the goroutines leads to a state in step if and only if it is none of the four hazards |
| LockStepProof.RunInStepExactlyWithoutHazard | internal/server/server.go:254-450 | A run is in step in every one of its states if and only if none of its actions is a hazard |
| Ledger.InStepExactlyWhenClean | internal/server/server.go:254-450 | At the end of any run from the start, client and server are in step if and only if no hazard has ever occurred in it |
| Ledger.OneReplyTooMany | internal/server/server.go:386 | In every run, replies received and in flight are those sent plus the stray ones, so that after a stray one a reply too many stays on its way whenever the client prompts with all answered |
| LockStepProof.ClientServerLockStep | internal/client/client.go:105-236 | Over every run without a hazard, lines are handled in order and in the mode in which they were typed, replies are received in order and for the commands they answer, at most one is outstanding, and at either prompt both sides are in the same mode with none outstanding |
| LockStepProof.KthReplyAnswersKthCommand | internal/client/client.go:118-230 | The k-th reply received is the one sent for the k-th line that awaits a reply |
| Replies.AnswersAreDue | internal/server/server.go:265-295 | In every run, hazards included, the replies sent and the one about to be sent are, line by line, those due: the text or session start the command came to, `Bye.` for an exit word, the refusal for another `+` word, none for an empty text; in session mode the fixed texts of the five words that end it |
| Replies.RepliesAreOutcomes | internal/client/client.go:118-230 | Over every run without a hazard, the replies the client has received are the first of those due, and all of them at its menu prompt |
| Replies.EventsInOrder | internal/client/client.go:94-103 | In every run, as long as the wire is whole, the texts printed and then those on their way are the events sent, in order, and an echo is the output of the session line that ran the command |
| Replies.LeavesExactly | internal/client/client.go:232-235 | Over every run, the client has ended if and only if the reply to an exit word came or its user or terminal ended it, and the dispatcher if and only if it finished its goodbye or failed |
| LockStepProof.SilentCommandHangs | internal/server/server.go:289-295 | From any state in step, after a system command that prints nothing, the client waits in every hazard-free continuation |
| LockStepProof.FirstSilentCommandHangs | internal/server/server.go:270-295 | A run from the start for every such command typed first |
| LockStepProof.AttachAndLeave | internal/server/server.go:408-412 | A run after which both sides are back in the menu while the attach's RX goroutine is still there |
| LockStepProof.DetachedDeathMisanswers | internal/server/server.go:384-387 | From there, a death makes the client take the notice for the reply to its next command, before the server has seen it |
| LockStepProof.OwnDeathMisroutes | internal/server/server.go:384-400 | When the attached session dies, the server is back in its menu and the client at its session prompt, and the next session line is dispatched as a menu command |
| LockStepProof.SessionEofMisroutes | internal/client/client.go:155-165 | After end of input in session mode, the server passes the next menu command to the session |
| LockStepProof.FirstDeathMisroutes | internal/client/client.go:153-196 | A run from the start for the death of the first session attached to |
| LockStepProof.FirstEofMisroutes | internal/client/client.go:153-196 | A run from the start for end of input in it |
| LockStepProof.FirstGoodbyeIsLost | internal/server/server.go:273-281 | A run from the start in which `exit` is typed while the writer is inside an event's frame; the client gets no reply in any continuation |
| Parser.ParseIgnoresMargins | internal/console/parser.go:30-34 | Trimming a line first does not change what it parses to, in either mode |
| Parser.ParseBlank | internal/console/parser.go:31-34 | A line of white space parses to the empty command |
| Parser.ParseSystem | internal/console/parser.go:36-39 | `!` and a text, whatever the margins, parse to that text as the only argument |
| Parser.ParseWords | internal/console/parser.go:41-70 | For words w0, w1, ..., wn with any white space between and around them, the verb is w0 in lower case and the arguments are exactly w1 to wn; a `+` word takes none; an unknown verb in session mode leaves the line without its margin |
| Parser.TypingRefines | internal/client/client.go:118-130 | A non-blank line typed into the client parses on the server to the same command as typed locally, and the client's test for `use` agrees with the server's |
| Parser.ExitTestsAgreeOnOneWord | internal/client/client.go:232-235 | Client and server agree that a line ends the program exactly on lines of one word |
| Parser.DetachTestsAgree | internal/client/client.go:166-176 | Both sides see the same detach words, and the server receives the trimmed line |
| SessionLines.PassthroughAgreesExactly | internal/console/repl.go:282-320 | For every line typed in session mode on a live session, console and server have the same effect (bytes written, local command, end of session mode, nothing) if and only if it is blank, a non-empty `!` command, exactly one of the four `+` words, or any other line but `exit` without a margin |
| SessionLines.BytesAgreeExactly | internal/server/server.go:407-441 | The bytes put on the session agree on exactly the same lines |
| Parser.PortIdxRoundTrip | internal/console/parser.go:74-87 | ParsePortIdx undoes printing, with and without an index, for all ints |
| Parser.RemoteRoundTrip | internal/console/parser.go:90-104 | ParseRemote undoes RemoteAddr if and only if the host is not empty, colons included; the empty host becomes the loopback address |
| Parser.PortIdxExactly | internal/console/parser.go:74-87 | A target is accepted if and only if what stands before its first colon, and behind it if there is one, are numbers; a part that is none is named |
| Parser.RemoteExactly | internal/console/parser.go:90-104 | An address without a colon is refused, and one with a colon exactly if no number follows its last; the host is what stands before, or the loopback address |
| Parser.StartInfoSplits | internal/client/client.go:134-146 | The three-way split recovers port, index and remote address, colons in the address or not |
| Text.AtoiItoa | internal/console/parser.go:76 | Reading undoes decimal printing if and only if the number fits 64 bits |
| Text.AtoiReads | internal/console/parser.go:76 | Digits with an optional sign are read as their decimal value, exactly if it fits 64 bits |
| Text.AtoiOnlyNumerals | internal/console/parser.go:76 | Nothing else is read |
| Text.FieldsSpread | internal/console/parser.go:50 | The words of a line are the words it is made of, whatever white space stands between and around them |
| Text.FieldsAreWords | internal/console/parser.go:50 | The pieces of any line are non-empty and without white space, and together they are the line without its white space |
| Text.FirstWord | internal/console/parser.go:48-49 | The first word of a trimmed line starts the line, and is all of it exactly if there is no white space and exactly if there is no other word |
| Selection.KeptDropsOnlyTheFlag | internal/console/dispatcher.go:115-123 | The filter's result has every argument but the flag, as often as given |
| Selection.Filter | internal/console/dispatcher.go:114-123 | Overwriting the slice it reads, the loop leaves the arguments without the flag in order at the front, the old tail behind, and reports whether the flag was there |
| Selection.DoKill | internal/console/dispatcher.go:113-163 | The listing is exactly the port's live sessions; exactly those selected become Dead and leave the map; all others keep place and state; the count reported is the number that left; every refusal changes nothing |
| Selection.Terminate | internal/console/dispatcher.go:149-156 | Targets are Dead and gone, all other entries are as they were |
| Selection.PrintedTarget | internal/console/dispatcher.go:129-147 | For all ints, a printed `port:idx` kills exactly if the index is within the listing, all of it at index 0 and one session otherwise, panics exactly if it is negative and the port has a session, and is out of range exactly above; a bare port is index 0 |
| Selection.ChosenTarget | internal/server/server.go:318-351 | For all ints and listings, a bare port or index 0 picks the only session there is and lists several instead of picking; any other index picks exactly the session at that place, and is refused above the listing |
| Selection.PromptNamesTheSession | internal/server/server.go:324-354 | The port and index that the client reads off the session-start payload, typed back over the same listing, make `use` pick the same session and `kill` terminate that one alone |
| Managers.SessionManager.Accept | internal/session/manager.go:24-31 | A fresh Active session under the next ID of a counter that wraps at 32 bits; every key stays its session's ID |
| Managers.SessionManager.ByPort | internal/session/manager.go:41-51 | Exactly the registered sessions of the port that are not Dead, each once, in an order of no meaning |
| Managers.SessionManager.All | internal/session/manager.go:54-64 | Exactly the registered sessions that are not Dead, each once |
| Managers.SessionManager.Remove | internal/session/manager.go:67-71 | The map loses that key and nothing else |
| Managers.SessionManager.CloseAll | internal/session/manager.go:74-79 | Every session of the port is Dead and no other session has changed |
| Listeners.ListenerManager.Open | internal/listener/manager.go:34-48 | Refused exactly if the port is listed or the listener cannot be started (its host or interface does not resolve, or the socket cannot be bound); otherwise one open listener more and the others as they were |
| Listeners.ListenerManager.Close | internal/listener/manager.go:51-64 | The port's sessions are Dead and no other changed, its listener is closed and forgotten |
| Listeners.ListenerManager.CloseAll | internal/listener/manager.go:109-119 | No listener is left, each is closed, and exactly the sessions of their ports were killed |
| Forwards.ForwardManager.Open | internal/forward/manager.go:62-95 | Refused exactly if the port has a forward or a proxy or the entry cannot be started (the socket cannot be bound, or a proxy's log file not opened); otherwise one entry more of the kind asked for, under its own local port |
| Forwards.ForwardManager.Close | internal/forward/manager.go:98-109 | The entry is stopped and forgotten, and no other is touched |
| Forwards.ForwardManager.All | internal/forward/manager.go:119-127 | Exactly the registered entries, each once |
| Forwards.ForwardManager.OfKind | internal/forward/manager.go:130-151 | Exactly the registered entries of one kind, each once, so that forwards and proxies partition the map |
| Forwards.ForwardManager.CloseAll | internal/forward/manager.go:154-164 | No entry is left and every one that was there has stopped |
| SessionTable.IdsCollideExactly | internal/session/manager.go:25 | Two accepts get the same ID if and only if their numbers differ by a multiple of 2^32 |
| SessionTable.IndexIsFaithful | internal/session/manager.go:24-71 | Over every interleaving of accepts, removals, kills and deaths, IDs of all sessions ever created differ, and a key finds a session if and only if it is its ID |
| SessionTable.ForegroundUnique | internal/server/server.go:356-361 | At most one session is Foreground, it is the one being attached to or left, and back in the menu none is, although the deferred test and set are two steps |
| SessionTable.AttachedIsNeverActive | internal/server/server.go:356-361 | Over every run, a session is Active only until someone attaches to it; attached to, it is Foreground or Dead; and left behind in the menu it is Background or Dead |
| SessionTable.FinishedMeansDead | internal/session/session.go:119-122 | Over every run, a session is Dead whenever its receive loop has returned if and only if no such step occurs in the run |
| SessionTable.ResetRevivesExactlyFromForeground | internal/server/server.go:357-361 | When a session is left, some schedule of its receive loop and the deferred function ends in the menu with it finished and not Dead if and only if it is Foreground when the test comes |
| SessionTable.ResetCanReviveTheDead | internal/server/server.go:357-361 | A run in which it is set again by the deferred reset, leaving a registered session that is not Dead and that nothing reads |
| Pumps.OnceOnlyShutdown | internal/forward/forwarder.go:95-126 | Whichever of the copiers or the cancelled context fires, in whatever order, `done` is closed at most once, both connections are closed when it is and when the handler or a copier has returned, and neither is closed, nor does the handler go on, before a copier has left its copy or the context is cancelled |
| Pumps.DeliveredIsPrefix | internal/forward/forwarder.go:105-119 | For every schedule, the bytes delivered on a side are a prefix of those read from the other, short of at most the chunk in hand while the copier runs |
| Pumps.CopiesToTheEnd | internal/forward/forwarder.go:105-119 | Over every run, a copier has read just what its source gave; it is still copying if and only if no write of its was short and not both the source has ended and nothing is in hand; it is back at its source whenever nothing is in hand and neither has happened; and a copy left without a short write delivered every byte read |
| Pumps.NeverStuck | internal/forward/forwarder.go:95-126 | From every reachable state, whoever is inside the once-only shutdown and whoever waits for it, some continuation ends with both copiers and the handler returned |
| Pumps.ClosedIsQuiet | internal/forward/forwarder.go:95-126 | Once both connections are closed, no continuation reads or delivers another byte on either side |
| Pumps.Accounting | internal/forward/forwarder.go:105-119 | Over all interleavings of any number of connections, totals plus amounts not yet added are the sum of the pipe counters, each the number of bytes its finished copy moved |
| Pumps.TotalsNeverDecrease | internal/forward/forwarder.go:135-137 | From any state of a run to any later one, totals never decrease, and the counter and bytes of a finished copy never change |
| Pumps.LogIsTraffic | internal/forward/proxy.go:91-103 | The lines of one direction of one connection concatenate to exactly the bytes read there, but for the chunk about to be logged, and what was delivered has been logged |
| Pumps.ProxyRefinesForwarder | internal/forward/proxy.go:68-110 | Every run of a proxy, its log erased, is a run of the plain forwarder that reads and delivers the same bytes on every side |

## Left out

- Relay.EndToEndOrder: holds while no send of the attach was given up to a cancelled client context, since such a send drops its data (`internal/server/server.go:306-311`).
- RxTheorems.LastBytesBeforeNotice: says nothing about notices that are not final; `RxTheorems.DeathFinalExactlyWhenQuiet` says which are.
- SessionTable.IndexIsFaithful: for as many accepts as the 32-bit counter has values; behind that, IDs repeat.
- Pumps.LogIsTraffic: assumes that log writes succeed and keeps of a line its connection, direction and data; tag text and `%q` quoting are not modelled.
- LockStepProof.InStepExactlyWithoutHazard: takes a wire on which two frames have fallen into each other for unreadable from there on; `Wire.MixtureIsRead` and `Wire.MixtureIsStreamExactly` say what that leaves out.
- Relay.DecodedIsPushed: needs plaintexts shorter than 2^32 - 28 bytes, whose length fields do not wrap around, and so do Relay.EndToEndOrder and Relay.LastBytesOnTheWire.
- Wire.GoodbyeInsideIsUnreadable: is about one AEAD; that none ever opens a mixture would be a claim of unforgeability.
- SessionLines.PassthroughAgreesExactly: compares the two sides on a live session; on a dead one the console prints an error and the server waits for its RX goroutine.
- Parser.TypingRefines: lower-casing one character is a parameter of which only `Text.LowerLaw` is assumed; strings are sequences of code points, so invalid UTF-8 is not modelled.
- Listeners.ListenerManager.Close: one call under its lock; a connection accepted between the listing and the closing of the socket is not covered.
- Pumps.Accounting: byte counters are unbounded, not 64 bits wide.
- The goroutine loops of server, client, console, listener and pumps are transition systems on values; what that leaves out is their local variables and the Go memory model (every access between two lock operations, and every channel operation, is one atomic step).
- AEAD internals, key derivation and nonces beyond the two laws; no secrecy or unforgeability claims.
- Sockets, keepalive, linger, half-close, dialling and its failure: a connection delivers arbitrary pieces, then end of stream or an error.
- Liveness of death detection and of WaitDead: the unlocked broadcast and the overwritable state do not support it.
- Survival of piped connections across a client's disconnect, delivery of every listener event to a client, and `proxy log` redirection of existing connections.
- A server whose process has panicked or been signalled, and a client whose terminal fails, take no further step.
- The console's numbered prompt when a port has several sessions, which loops over the same listing.
- The `open`, `close`, `list`, `info`, `log`, `fwd`, `proxy`, `send`, `read` and `help` commands beyond the manager calls they make: argument checks and formatting.
- History files, configuration, the shell executor, readline, signals, completion, colours and tables; interface-name resolution; token generation and validation.
