# Kilix-multiplexer: a verified model

Kilix-multiplexer carries terminal screens, keystrokes, pixels and audio between
a server and its clients. This project models the four parts of it whose
correctness is an argument rather than a reading, and proves the argument.

**Screens** (`Bytes`, `Screen`, `Codec`, `CodecProofs`, `CellWrites`,
`CellPlane`, `CellChoice`, `Wire`, `Sync`, `SyncProtocol`, `Retention`). A
sender keeps an acknowledged baseline, eight sent screens and, per row and for
the cursor, the sequence that last changed it. Each message is a difference
against the baseline plus full copies of the rows the receiver may hold in an
intermediate form. The model runs sender, ordered stream and receiver together:
messages may be skipped, acknowledgements late, repeated or lost, baselines
reset and receivers replaced. In every such run the receiver shows exactly the
screen that was snapshotted for the message it applied. The key step is
`SyncProtocol.UnowedRowConstant`: a row that is not repaired was the same, on
screens of the same size, at every sequence the receiver may be at. `Retention`
shows that the unacknowledged screens remembered are always one anchor and the
newest seven, and from that exactly when the oldest one is lost. A poll is quiet
exactly when every screen the receiver may hold is the current one, and sends
when it is due otherwise; a message holds exactly the rows and cells that need
it.

**Input** (`Frame`, `InputWire`, `InputSession`, `Outgoing`, `Attach`, `Serve`,
`InputWorld`, `InputLinks`, `InputClientSteps`, `InputServerSteps`,
`InputProtocol`, `InputProgress`, `InputPane`). A client journals what is typed
and replays it across connections; a server holds a lease, a ledger and a
bounded queue. The model keeps every transport the client ever opened, each
delivering any prefix of the bytes it was given, or under TLS of what was offered,
cut at any byte, with other clients competing for the lease. Connection
identifiers and new epochs are globally unused when they appear. Each epoch's
admitted payloads are then the first ones typed, once each and in order, and the
two counters never contradict each other. The pane's queue has two more writers,
keys typed by a controller while there is no lease and the terminal's own
answers to queries: what the terminal took and still waits for is whole
admissions of the three kinds, one after another. And it gets through: from any
online ready state whose connection the server has, there are steps after which
everything typed was admitted, counted and acknowledged.

**The audio encoder** (`Ring`, `Encodec`, `EncodecProofs`, `EncodecEpochs`,
`EncodecPrompt`). Scheduler and worker are two threads over two wrapping rings
and one monotone boundary. Every atomic access is a step; spurious
compare-and-swap failures, the clock, the resampler's yield and the native
encoder's success are free. Every packet returned is then the next 960 samples
captured without a gap since its epoch's whole second, and packets are 40 ms
apart or reset at a whole second, unless the 64-bit packet clock wrapped below
its epoch. In an uninterrupted stream whose packets are fetched in time, each
chunk comes back as one packet.

**Stateful codecs** (`Rate`, `Motion`, `Audio`, `ImageCache`, `Render`,
`RenderProofs`, `RenderChoice`, `Layout`, `Composite`): the debt-carrying rate
window, the motion and audio planes that run under it, the image cache, the
diffing renderer against an abstract terminal (cursor positioning and graphic
rendition, sections 8.3.21 and 8.3.117 of ECMA-48), and the layout plane.

Each file's code is written the way the source writes it: classes whose methods
loop over arrays and buffers, proved equal to functions over values, about which
the laws are proved. Foreign code enters as parameters: zstd as a pair of functions
of which only the round trip is required, the terminal as a width function.
`Pigeonhole` counts lists of small distinct numbers for the ring of screens and for
the image slots.

## Where the code is not what its comments or a first reading say

- The history always keeps its own oldest unacknowledged screen, its anchor
  (`SyncProtocol.PollKeepsAnchor`). That is not always the oldest unacknowledged
  screen there is: `SyncProtocol.OldestUnacknowledgedCanBeForgotten` gives a run in
  which that one is gone. Polling never loses it (`Retention.PollKeepsOldest`); an
  acknowledgement that covers the anchor does if and only if eight or more were
  issued since the anchor and it names none of the newest seven
  (`Retention.AckLosesOldestIff`). With fewer than eight outstanding it is there
  (`Retention.OldestKeptWhileFew`), and if there were never more than eight nothing
  is ever forgotten (`Retention.NothingForgotten`).
- The cell decoder does not keep cells well formed: a code point of zero inside a
  character list is accepted (`CodecProofs.AcceptedMessageCanHideCharacters`), and
  refusing the rest of the message undoes nothing
  (`CodecProofs.RefusedMessageCanHideCharacters`). Any bytes at all leave a
  well-formed grid well formed if and only if the last list they write to each cell
  has no character after a zero (`CellWrites.DecodeWellFormedIff`); dimensions,
  cursor and value ranges survive regardless (`CodecProofs.DecodeKeepsGridValid`).
- The repayment product of the rate window is taken in 64 bits: after sixty-five
  messages of some 63 MiB at a budget just below 2^32, one second should open the
  gate and 136 idle years leave it shut (`Rate.WrapKeepsGateShut`).
  `Rate.ReopensExactlyAt` says exactly when it is open, wrap included; a debt is
  always below one budget and one message (`Rate.DebtBounded`), so where the budget
  times that fits 64 bits the gate opens exactly when the debt is paid
  (`Rate.GateReopens`).
- The packet clock of the audio encoder is 64 bits too. A packet that wrapped below
  the boundary its generation came from is dropped while the next one may be
  returned; `EncodecProofs.ContinuesIffInTime` says that this is the only gap.
- `src/layout.c:52-53` says earlier panes get the remainder; later ones do
  (`Layout.SpansFill`). Panes side by side under titles need two rows;
  with one, a pane lies below the screen (`Layout.PanesInsideIff`). A title without
  a NUL is encoded and then refused (`Layout.LayoutRoundTrip`).
- In the input protocol the duplicate arm of the server is never taken by an
  honest client: a transport's first DATA frame follows the counter it was granted
  (`InputServerSteps.HonestData`).

## Model

| member | source | states |
|---|---|---|
| Bytes.VarintRoundTrip | src/codec.c:19-53 | every 64-bit value, embedded anywhere, reads back as itself and reading stops where it ended |
| Bytes.VarintCut | src/codec.c:38-53 | an integer cut anywhere inside reads as truncated, never as another value |
| Bytes.VarintAgree | src/codec.c:38-53 | reading depends on no byte past where it stops |
| Bytes.WriteVarint | src/codec.c:19-30 | the division loop emits the encoding the laws are about |
| Bytes.GetVarint | src/codec.c:38-53 | the shifting loop, with bits past 63 lost and an eleventh group refused, is the specified reader on any bytes |
| Screen.ResizedValid | src/grid.c:57-70 | resizing keeps dimensions legal, the cursor on the screen and cells well formed; another size blanks every cell and clamps the cursor |
| CodecProofs.DecodeInvertsEncode | src/codec.c:198-356 | decoding an encoded difference yields exactly the current screen over any held grid that agrees with the previous one on unforced rows, and over any grid without a usable baseline, whatever the sampling chose |
| CodecProofs.AcceptedIsWhole | src/codec.c:261-356 | no extension of an accepted message is accepted, over any grids |
| CodecProofs.ProperPrefixRejected | src/codec.c:261-356 | no proper prefix of an accepted message is accepted |
| CodecProofs.DecodeKeepsGridValid | src/codec.c:261-356 | after any bytes, accepted or refused, dimensions are legal, the cursor is on the screen and every cell is in range |
| CodecProofs.CutMovesNoCursor | src/codec.c:261-356 | an accepted message sets the cursor it carries, one cut short anywhere leaves it where the resize did |
| CodecProofs.AcceptedMessageCanHideCharacters | src/codec.c:340-347 | a concrete accepted message leaves a cell with a character behind a NUL |
| CodecProofs.RefusedMessageCanHideCharacters | src/codec.c:337-348 | so does a concrete message that is refused as cut off |
| CellWrites.MessageMatches | src/codec.c:261-356 | after any bytes, every cell holds the last list the bytes themselves write to it, partial last list included, or what it held after the resize |
| CellWrites.DecodeWellFormedIff | src/codec.c:261-356 | any bytes, accepted or refused anywhere, leave a well-formed grid well formed if and only if the last list written to each cell has no character after a zero |
| CellWrites.ZeroFreeIsHarmless | src/codec.c:327-348 | a message none of whose lists holds a zero leaves a well-formed grid well formed, accepted or refused |
| CodecProofs.MessageLength | src/codec.c:198-250 | every encoded screen fits the receiver's limit of 64 bytes a cell and 64 more |
| CellChoice.DenseIff | src/codec.c:125-135 | a row is rebased if and only if at least half of the columns looked at, one in an eighth of the row, changed |
| CellChoice.EncodesOnlyNews | src/codec.c:113-250 | a message holds exactly the rows that are forced, changed or without a baseline, in order; in a forced, rebased or dense row every cell, in another exactly those that changed; in as few runs as the styles allow |
| CellPlane.CellCharCount | src/codec.c:106-111 | the characters before the first NUL |
| CellPlane.LooksDense | src/codec.c:125-135 | the strided sampling loop decides as specified |
| CellPlane.PutRow | src/codec.c:113-176 | the run loop emits the specified patch for its row |
| CellPlane.CellsEncodeRows | src/codec.c:198-250 | the row loop emits the message the inverse law is about |
| CellPlane.ScreenGrid.Apply | src/codec.c:261-356 | decoding in place gives the specified grid and verdict on any bytes, including what a refused message already wrote |
| CellPlane.ScreenGrid.Resize | src/grid.c:57-70 | in-place resize is the specified one, and a no-op for illegal or equal sizes |
| CellPlane.ScreenGrid.CopyFrom | src/grid.c:72-85 | a copy is the whole source, cursor included |
| Wire.CompressRoundTrip | src/sync.c:67-141 | whichever codec was chosen, the same bytes come back within the plane's limit |
| Wire.CompressPays | src/sync.c:67-103 | compression is used if and only if it makes the data shorter, and a header of one byte and the length says which |
| Wire.UnpackedIff | src/sync.c:105-141 | exactly which bytes unpack: a known codec, a size within the plane's limit, and as many bytes as it says |
| Wire.ReceiverInvertsSender | src/sync.c:585-610 | the receiver reports the sender's sequence and shows the sender's screen |
| Wire.ReceiverKeepsGridValid | src/sync.c:585-610 | no bytes leave the receiver's grid invalid, and a refused message reports no sequence |
| Sync.AtOrBeforeIsBest | src/sync.c:314-323 | the scan finds the newest remembered screen at or before a sequence, or none when there is none |
| Sync.NextSlotExpendable | src/sync.c:325-342 | the slot chosen for overwriting is free, acknowledged, or the second oldest of eight unacknowledged ones, so never the oldest or the newest |
| Sync.SyncSender.HistoryAtOrBefore | src/sync.c:314-323 | the loop computes that scan |
| Sync.SyncSender.HistoryNextSlot | src/sync.c:325-342 | the loop, with its two candidates, computes that choice |
| Sync.SyncSender.RowMasks | src/sync.c:391-401 | both row masks and the pending flag are the specified obligations |
| Sync.SyncSender.Commit | src/sync.c:456-471 | slot, row obligations, cursor obligation and sequence become the specified ones |
| Sync.SyncSender.Poll | src/sync.c:357-482 | the whole new state and the message, or silence, are the specified ones, of which SyncProtocol.PollSendsNews says when each |
| Sync.SyncSender.Ack | src/sync.c:517-554 | the baseline moves to the newest covered screen, never backward |
| Sync.SyncSender.ResetBaseline | src/sync.c:284-302 | the floor rises to the last issued sequence and every obligation and screen is forgotten |
| SyncProtocol.UnowedRowConstant | src/sync.c:391-401 | a row not repaired was the same, on equally sized screens, at every sequence since the baseline |
| SyncProtocol.UnowedCursorConstant | src/sync.c:402-410 | likewise for the cursor |
| SyncProtocol.PollKeepsInv | src/sync.c:357-482 | polling keeps the sender's invariant over its ghost history |
| SyncProtocol.AckKeepsInv | src/sync.c:517-554 | acknowledging keeps it |
| SyncProtocol.ResetKeepsInv | src/sync.c:284-302 | resetting keeps it |
| SyncProtocol.PollPacketGood | src/sync.c:434-450 | a message produced by poll applies exactly over every screen its receiver may hold |
| SyncProtocol.StepKeepsInv | src/sync.c:357-554 | every step of sender, stream, receiver and acknowledgements keeps the protocol's invariant |
| SyncProtocol.Convergence | src/sync.c:357-482 | in every run, an applied message leaves the receiver showing exactly the screen snapshotted for it |
| SyncProtocol.QuietIsSound | src/sync.c:412-416 | when poll has nothing to say, every screen the receiver could hold is the current one, cursor included |
| SyncProtocol.QuietReceiverIsCurrent | src/sync.c:412-416 | in the protocol, a silent sender's receiver and everything still in flight show the current screen |
| SyncProtocol.NewestAckSilences | src/sync.c:534-552 | acknowledging the newest message makes the next poll of an unchanged screen silent |
| SyncProtocol.RepairedIffInDoubt | src/sync.c:391-401 | a row is sent whole if and only if the screens the receiver may hold do not all have the current size and the same content in it |
| SyncProtocol.PollSendsNews | src/sync.c:412-433 | poll is quiet if and only if a screen is acknowledged and all from it on are the current one; otherwise it sends if due and waits if not, from scratch only without a baseline of the same size |
| SyncProtocol.DuePollIsShown | src/sync.c:357-482 | whatever was skipped, in any reachable state with an empty stream a due poll and the delivery of what it sent leave the receiver showing the current screen |
| SyncProtocol.PollKeepsAnchor | src/sync.c:339-342 | polling never evicts the oldest remembered unacknowledged screen |
| SyncProtocol.AckAdvancesIffCoversAnchor | src/sync.c:517-554 | an acknowledgement moves the baseline if and only if it covers that screen, and then to the newest remembered screen it covers; it is invalid if and only if nothing was issued with it |
| SyncProtocol.OldestUnacknowledgedCanBeForgotten | src/sync.c:325-342 | a concrete run after which the oldest unacknowledged screen is not remembered |
| Retention.PollKeepsWindow | src/sync.c:325-342 | polling keeps the remembered unacknowledged sequences exactly one anchor and the newest seven, and moves no anchor |
| Retention.AckLands | src/sync.c:517-554 | an acknowledgement at or past the anchor lands on the sequence it names when that one is remembered and on the anchor otherwise; any other changes nothing |
| Retention.PollKeepsOldest | src/sync.c:339-342 | polling neither loses nor recovers the oldest unacknowledged screen |
| Retention.AckLosesOldestIff | src/sync.c:517-554 | an acknowledgement covering the anchor loses it if and only if eight or more were issued since the anchor and it names none of the newest seven |
| Retention.OldestKeptWhileFew | src/sync.c:325-342 | in every run it is remembered whenever fewer than eight sequences are outstanding |
| Retention.NothingForgotten | src/sync.c:325-342 | in a run with never more than eight outstanding no unacknowledged screen is ever forgotten |
| Frame.ConsumeShrinks | src/frame.c:111-126 | consuming a ready frame removes exactly it, and always something |
| Frame.DrainPrefix | src/frame.c:84-126 | draining any prefix of a stream gives exactly the messages wholly inside it |
| Frame.RemainderIsProperPrefix | src/frame.c:84-126 | what is left is a proper prefix of the next frame |
| Frame.NextIff | src/frame.c:84-109 | exactly which bytes wait, which are a frame of up to 8 MiB, and which are an error |
| Frame.NextStays | src/frame.c:84-109 | what was decided about a frame more bytes do not change |
| Frame.ChunkingIndependence | src/frame.c:50-126 | however a stream is cut into socket-sized chunks, the same messages come out in order and the push limit is never met |
| Frame.EncodeFrame | src/frame.c:50-65 | length, kind and payload, or a limit error past 8 MiB |
| Frame.Framer.Push | src/frame.c:77-82 | appends, or refuses past 16 MiB and changes nothing |
| Frame.Framer.NextMessage | src/frame.c:84-109 | waits, reports a frame, or fails exactly as specified |
| Frame.Framer.Consume | src/frame.c:111-126 | removes the first whole frame or nothing |
| Frame.Framer.DrainAll | src/frame.c:84-126 | the reading loop yields the specified messages, rest and status |
| InputWire.OpenRoundTrip | src/input.c:48-73 | an OPEN carries its request across |
| InputWire.OpenCanonical | src/input.c:48-73 | an OPEN that is read is exactly the encoding of what it reads as |
| InputWire.StateRoundTrip | src/input.c:75-108 | a STATE carries status, grace, epoch, client and counter across |
| InputWire.StateCanonical | src/input.c:75-108 | a STATE that is read is exactly the encoding of what it reads as |
| InputWire.DataRoundTrip | src/input.c:110-143 | a DATA message carries its sequence and payload across |
| InputWire.DataCanonical | src/input.c:110-143 | DATA for pane zero that is read is exactly the encoding of what it reads as |
| InputWire.AckRoundTrip | src/input.c:145-163 | an acknowledgement carries its counter across |
| InputWire.AckCanonical | src/input.c:145-163 | an acknowledgement that is read is exactly the encoding of what it reads as |
| InputSession.OpenGrantedIff | src/input_session.c:38-80 | exactly which requests are granted and with which lease, epoch and counter kept or new; whom a grant fences; a refusal changes nothing |
| InputSession.RefusalSays | src/input_session.c:48-70 | exactly when a refusal says another epoch, an expired lease, a busy one, or a denial |
| InputSession.LapsesIff | src/input_session.c:23-36 | a lease lapses only without owner and at its deadline, which a leaving owner sets to now and the grace, saturating |
| InputSession.ClassifyIff | src/input_session.c:82-117 | exactly which sequences are next, duplicates or rejected, what a commit counts and which counter closes |
| InputSession.ResumeUntilDeadline | src/input_session.c:30-80 | a resume keeps epoch and counter before the saturating deadline and is told the session expired from it on |
| InputSession.AcceptedCountsCommits | src/input_session.c:100-108 | within an epoch the counter is the number of successful commits over any calls |
| InputSession.NeverOwnsAgain | src/input_session.c:23-117 | an owner that lost the lease and does not open again never owns it |
| InputSession.TakeoverFences | src/input_session.c:38-80 | a takeover names exactly the previous owner, whose later calls change nothing after any further calls |
| InputSession.Session.ExpireAt | src/input_session.c:23-28 | the in-place call is the specified one |
| InputSession.Session.DisconnectOwner | src/input_session.c:30-36 | only the owner's disconnect counts, and the deadline saturates |
| InputSession.Session.OpenLease | src/input_session.c:38-80 | refusals in the source's order leave every field alone; a grant sets all of them |
| InputSession.Session.ClassifyInput | src/input_session.c:82-98 | duplicate, next, or rejected |
| InputSession.Session.CommitInput | src/input_session.c:100-108 | advances the counter for the next sequence only |
| InputSession.Session.CloseLease | src/input_session.c:110-117 | releases the lease only for the owner's exact counter |
| Outgoing.PostCarries | tools/kmx_attach.c:196-227 | a frame is queued whole or the queue fails and keeps what it had, compaction included |
| Outgoing.FlushCarries | tools/kmx_attach.c:128-161 | whatever the transport takes is the next piece of the stream |
| Outgoing.PostTakesIff | tools/kmx_attach.c:196-227 | exactly when a message is queued: up to 8 MiB, and up to 256 KiB, 8 MiB and 64 KiB held with it |
| Outgoing.FlushTakes | tools/kmx_attach.c:128-161 | a write offers all that is pending up to 64 KiB, or the interrupted attempt; what is taken is gone, and only a transport that breaks or takes nothing ends the connection |
| Outgoing.TakenIsPrefix | tools/kmx_attach.c:123-227 | over any sends and writes in a generation the bytes taken are a prefix of the bytes queued and the counters are their lengths |
| Outgoing.RetryOffersTheSame | tools/kmx_attach.c:133-143 | a TLS retry offers the same bytes and length after any appends and compactions |
| Outgoing.SendQueue.AppendBytes | src/grid.c:137-156 | the grown array holds the old bytes and then the new ones |
| Outgoing.SendQueue.Compact | tools/kmx_attach.c:204-211 | moving bytes down in place drops exactly the consumed ones, at the specified moments |
| Outgoing.SendQueue.Send | tools/kmx_attach.c:196-227 | the array, its counters and the failure flag are those of the queue the laws above are about |
| Outgoing.SendQueue.FlushOnce | tools/kmx_attach.c:128-161 | attempt length, retained TLS attempt, progress and verdict are the specified ones for any outcome of the write |
| Outgoing.SendQueue.DiscardAll | tools/kmx_attach.c:163-178 | nothing is carried any more |
| Attach.InputClient.SendMessage | tools/kmx_attach.c:196-227 | whatever stream the transport carries, the frame is added to it whole, or the client is to end and the stream stays as it was |
| Attach.InputClient.EmittedThrough | tools/kmx_attach.c:114-121 | the journal walk computes the specified ceiling |
| Attach.InputClient.FlushTo | tools/kmx_attach.c:128-161 | the ceiling rises before a TLS write and after a plain one |
| Attach.InputClient.OpenInput | tools/kmx_attach.c:237-255 | a new generation asks with the epoch and counter it has |
| Attach.InputClient.AcknowledgeThrough | tools/kmx_attach.c:257-272 | releases exactly the acknowledged entries, or refuses a counter outside the two bounds |
| Attach.InputClient.ReplayPending | tools/kmx_attach.c:274-285 | the replay loop queues and stamps from the pointer on, exactly what it passes, until nothing is left or 256 KiB are pending |
| Attach.InputClient.Type | tools/kmx_attach.c:287-315 | journals, queues and stamps one payload, or refuses |
| Attach.InputClient.CloseInput | tools/kmx_attach.c:317-337 | only a ready client with an empty journal says goodbye |
| Attach.InputClient.OnState | tools/kmx_attach.c:1289-1319 | the STATE arm refuses another client's, a refused, a graceless or another epoch's state; else it acknowledges, selects the epoch and replays |
| Attach.InputClient.OnAck | tools/kmx_attach.c:1320-1326 | the ACK arm |
| Attach.InputClient.ConnectionLost | tools/kmx_attach.c:1170-1177 | the queue carries nothing, the session must be asked for again, and journal, counters and epoch are what they were |
| Attach.ReplayGoesOn | tools/kmx_attach.c:274-285 | a replay goes on until nothing is left or 256 KiB are pending, stamps exactly the entries it queued with the current generation, and fails only with the queue |
| Attach.TypedIff | tools/kmx_attach.c:229-315 | exactly when a payload is journalled: in a session with nothing left to replay, below 256 KiB and 4096 entries, up to 32 KiB; it is then sent or the queue failed |
| Attach.GrantAcceptedIff | tools/kmx_attach.c:1289-1319 | exactly which STATE a client takes, and that it then replays until nothing is left or 256 KiB are pending |
| Attach.AckAcceptedIff | tools/kmx_attach.c:1320-1326 | exactly which acknowledgements it takes |
| Attach.ClosesIff | tools/kmx_attach.c:317-337 | a goodbye with the counter is queued exactly by a ready client with an empty journal whose queue takes it |
| Serve.PaneInput.AdmitInput | tools/kmx_serve.c:433-451 | a live pane takes a payload of any size if and only if at most 256 KiB wait before it; it is appended once, or nothing changes |
| Serve.AdmitIff | tools/kmx_serve.c:433-451 | a payload is taken if and only if at most 256 KiB wait, whatever its own size |
| Serve.AnswerIff | tools/kmx_serve.c:464-478 | an answer is queued if and only if the queue stays within 256 KiB, 8 MiB and 64 KiB with it |
| Serve.QueueBounded | tools/kmx_serve.c:433-478 | no message and no answer takes the queue past that, and less than 64 KiB of it are consumed bytes |
| Serve.FlushTakesFront | tools/kmx_serve.c:412-431 | over any writes, interrupted, partial or failing, what the pty took and then what waits is what waited |
| Serve.FlushTakesAll | tools/kmx_serve.c:412-431 | as much is written as the pty takes before it stops, all of it if it takes that much, and the flush fails exactly when a write did |
| Serve.PaneInput.FlushInput | tools/kmx_serve.c:412-431 | the write loop takes and leaves exactly that, and fails exactly when a write did |
| Serve.PaneInput.QueueInput | tools/kmx_serve.c:453-457 | keys without a lease are appended once and flushed, or nothing is written |
| Serve.PaneInput.TerminalReply | tools/kmx_serve.c:464-478 | an answer goes whole behind everything admitted before it, or not at all; once one is lost or cannot be flushed, no other is queued |
| Serve.InputServer.OnOpen | tools/kmx_serve.c:1562-1601 | the OPEN arm on the live session is the specified one, with its two readings of the clock and the epoch drawn only after the first |
| Serve.InputServer.OnData | tools/kmx_serve.c:1602-1639 | the DATA arm admits before it commits, a full queue changes nothing, and a pty that fails stops the server after the payload was counted |
| Serve.InputServer.OnClose | tools/kmx_serve.c:1640-1648 | the CLOSE arm |
| Serve.ServeSafely | tools/kmx_serve.c:1562-1648 | a session is granted only to a greeted connection that may control, a payload admitted only from the owner, for its pane and next in sequence, and a lease ended only by an expiry or the owner's exact counter |
| Serve.ServeAnswers | tools/kmx_serve.c:1602-1639 | a duplicate is acknowledged again and admitted nowhere; a connection that cannot be answered is given up |
| Serve.ServeRefuses | tools/kmx_serve.c:1562-1612 | a message out of turn or malformed costs the connection, and nothing else than the grace follows |
| InputLinks.NextIsSent | tools/kmx_serve.c:1562-1648 | the next frame the server decodes from any bytes received so far is the next one the client queued |
| InputClientSteps.EmittedExactly | tools/kmx_attach.c:114-121 | the ceiling rises through exactly the entries on this transport up to the emitted byte and stops at the first that is not |
| InputClientSteps.FlushRaisesExactly | tools/kmx_attach.c:128-161 | a write raises the ceiling through exactly the entries it may have carried: all that was offered under TLS, what was taken otherwise |
| InputClientSteps.ExposureCarried | tools/kmx_attach.c:138-151 | no frame above the ceiling can be wholly delivered, plain or TLS |
| InputClientSteps.ReplyInRange | tools/kmx_attach.c:1289-1326 | under the invariant a reply on the current transport is inside the client's two bounds and in its epoch |
| InputServerSteps.OpenSettled | tools/kmx_serve.c:1562-1601 | an OPEN from any transport, stale ones included, keeps the invariant |
| InputServerSteps.ServedOpen | tools/kmx_serve.c:1562-1601 | what an OPEN is answered: the session's verdict, a grace of a minute, its epoch, and the counter if granted |
| InputServerSteps.HonestData | tools/kmx_serve.c:1602-1612 | a DATA frame that reaches a live connection is exactly the next payload, from the lease's owner in the client's epoch |
| InputProtocol.StepKeeps | tools/kmx_attach.c:114-337 | every event of the client, the transports, the server, its pane and rival clients keeps the invariant |
| InputProtocol.ExactlyOnce | tools/kmx_serve.c:1602-1639 | in every run each epoch admitted exactly the first payloads typed, in order, as many as the counter says |
| InputProtocol.CounterSandwich | tools/kmx_attach.c:257-337 | acknowledged, accepted, emission ceiling and sequence are ordered in every reachable state, and the journal is exactly what lies above the first |
| InputProtocol.HonestReplyNeverRejected | tools/kmx_attach.c:1289-1326 | an acknowledgement is never refused, and a grant only when the outgoing queue failed |
| InputProtocol.HonestOpenGranted | tools/kmx_serve.c:1562-1601 | in every run, the OPEN of the client's current transport is granted with the lease's epoch and counter and fences the holder as long as the client's lease is retained; a client that knows an epoch is refused otherwise |
| InputProtocol.HonestDataNeverRejected | tools/kmx_serve.c:1602-1639 | with room and a pty that drains, the next payload is admitted, counted and acknowledged; with no room, nothing changes |
| InputProtocol.HonestCloseMatches | src/input_session.c:110-117 | a CLOSE that reaches the owner's connection always matches and releases the lease |
| InputProtocol.LedgerOnlyGrows | tools/kmx_serve.c:1613-1629 | what an epoch admitted is never withdrawn or rewritten by any step |
| InputProtocol.EverythingArrives | tools/kmx_attach.c:274-315 | once all is replayed, written, received and handled, everything typed was admitted, and once all replies are heard the journal is empty |
| InputProgress.ConnectsIff | tools/kmx_attach.c:237-255 | a connection gets its greeting and the OPEN of the client's epoch and counter, unless generations are used up or the queue has failed |
| InputProgress.ReplayFinishes | tools/kmx_attach.c:274-285 | from any online ready state, writes and resumes end with nothing left to replay or to write, or with a queue that failed |
| InputProgress.EverythingGetsThrough | tools/kmx_serve.c:1602-1639 | from any such state whose connection the server has, there are steps after which everything typed was admitted once and in order, counted and acknowledged, and the journal is empty, unless the queue failed |
| InputPane.StepKeepsPane | tools/kmx_serve.c:412-478 | every event, answers of the terminal and keys typed without a lease included, keeps the pane's bytes the joined log of admissions and each epoch's ledger its part of that log |
| InputPane.AdmittedBytes | tools/kmx_serve.c:412-478 | in every run the bytes the terminal took and then those waiting are whole admissions - payloads, keys typed without a lease, answers of the terminal - joined in the order they were made, and the payloads counted in each epoch are the first ones typed |
| InputPane.SoleInput | tools/kmx_serve.c:1613-1629 | while nothing else was admitted - no other client's input, no keys without a lease, no answer of the terminal - they are exactly the first payloads typed, as many as the server counted |
| Ring.IndexAcrossWrap | tools/kmx_encodec.c:164-168 | the ring index does not see the 64-bit counter wrap |
| Ring.WriteSparesLive | tools/kmx_encodec.c:513-530 | a producer step writes no live slot |
| Ring.CheckedRoomSound | tools/kmx_encodec.c:513-524 | the producer goes on if and only if fewer than the limit are live |
| Ring.CheckedItemsSound | tools/kmx_encodec.c:317-325 | the consumer goes on if and only if something is live |
| Ring.RingSafety | tools/kmx_encodec.c:117-168 | for any interleaving and any ring whose storage divides 2^64 - eight slots with six admitted, two with two - live items stay within the limit and each is consumed once, in order |
| EncodecProofs.BreakRises | tools/kmx_encodec.c:227-231 | each access of break_epoch keeps or raises the boundary and the last one reaches what was asked, spurious failures included |
| EncodecProofs.StepKeeps | tools/kmx_encodec.c:286-381 | every atomic step of either thread keeps the pipeline's invariant, a wrap of the packet clock included |
| EncodecProofs.PacedFits | tools/kmx_encodec.c:286-381 | the packet clock does not wrap when no chunk yields more than its 960 samples, whatever capture times are offered, nor at twice that when they are below 2^63 ms; 40 ms on is then 40 more |
| EncodecEpochs.GapFreeAudio | tools/kmx_encodec.c:551-578 | each returned packet continues the one before it by 40 ms in the same generation and with the next 960 samples of the same epoch, or resets at a whole second, as long as no packet's clock wrapped below the boundary of its generation |
| EncodecEpochs.PacketsHoldTheirTime | tools/kmx_encodec.c:334-377 | in every run each returned packet holds the audio of its time: its epoch resampled chunks 40 ms apart from a whole second on, none missing, and its n-th packet is the n-th 960 samples of what they gave |
| EncodecPrompt.PromptAudio | tools/kmx_encodec.c:286-578 | in an uninterrupted stream whose packets are received within 250 ms, each chunk comes back as one packet, in order, at its own time, all samples its own; only the first may reset |
| EncodecPrompt.OpenedIsDrained | tools/kmx_encodec.c:286-294 | a pipeline just opened can take such a stream at any whole second |
| EncodecPrompt.RoomIff | tools/kmx_encodec.c:233-316 | the worker takes input, and a packet is stored, exactly while fewer than two packets wait |
| EncodecPrompt.OverflowBreaks | tools/kmx_encodec.c:513-524 | with six chunks queued another is refused and the boundary becomes the next whole second |
| EncodecPrompt.EarlyOfferRefused | tools/kmx_encodec.c:513-543 | a chunk before the boundary, or at no multiple of 40 ms, is refused and changes nothing |
| EncodecPrompt.LateChunkBreaks | tools/kmx_encodec.c:325-333 | a chunk the worker reaches after more than 250 ms ends the epoch at the next whole second |
| EncodecPrompt.JumpBreaks | tools/kmx_encodec.c:334-341 | so does a chunk that neither continues the epoch nor starts a second |
| EncodecPrompt.LatePacketBreaks | tools/kmx_encodec.c:567-573 | so does a packet received after more than 250 ms, which is dropped |
| EncodecPrompt.ReturnedIsFresh | tools/kmx_encodec.c:551-577 | what is returned was offered at most 250 ms before |
| EncodecProofs.ContinuesIffInTime | tools/kmx_encodec.c:551-578 | in every run, when a packet that is no reset is about to be returned, the one that ends where it starts was decided about just before, and was returned if and only if it was not timed before its generation's boundary |
| EncodecProofs.SourcesAreCurrent | tools/kmx_encodec.c:561-563 | when a packet passes the generation check, all its 960 samples come from inputs of the current generation |
| EncodecProofs.PipelineRings | tools/kmx_encodec.c:233-254 | at most six inputs and two packets are live, and each thread receives what the other stored, once and in order |
| EncodecProofs.BoundaryNeverFalls | tools/kmx_encodec.c:221-231 | no step lowers the boundary |
| Rate.RateCeiling | src/rate.h:24-56 | bytes admitted by any time are at most the budget for the time since the first window opened, one budget more and one admitted message |
| Rate.ReopensExactlyAt | src/rate.h:24-56 | a shut gate is open again if and only if the whole seconds its debt takes to repay have passed and the 64-bit product, if it wrapped, still covers the debt |
| Rate.OpenBelowBudget | src/rate.h:24-56 | below the budget the gate is open |
| Rate.AskingIsFree | src/rate.h:44-56 | a shut gate that is asked in between opens at the same moment as one that is not |
| Rate.DebtBounded | src/rate.h:24-56 | after any run of offers under a clock that never runs backwards, less than one budget and one admitted message is owed and the window is not ahead of the clock |
| Rate.GateReopens | src/rate.h:24-56 | so where the budget times a budget and a message fits 64 bits, a gate shut by any run is open if and only if the whole seconds its debt takes have passed |
| Rate.WrapKeepsGateShut | src/rate.h:44-52 | a run of messages below 64 MiB after which one second should pay the debt and the gate is shut after 136 years, because the product wraps |
| Rate.RateWindow.AdvanceTo | src/rate.h:24-56 | the in-place call is the specified one |
| Motion.BandsPaint | src/motion.c:202-226 | painting the bands of a delta over the previous frame gives exactly the new one |
| Motion.BodyFits | src/motion.c:311-320 | every body, deltas of the tallest frames included, is within 64 MiB and 64 KiB |
| Motion.OfferAgrees | src/motion.c:148-263 | a produced message is accepted and shows the offered frame; otherwise nothing moved |
| Motion.OfferSendsIff | src/motion.c:148-263 | a frame is sent if and only if it is one, is not what the receiver has, and there is no allowance or its gate is open; one the gate keeps back is counted as dropped |
| Motion.BodyHoldsChanges | src/motion.c:191-231 | a message holds the whole frame only where none of its size is held, else exactly the bands in which something changed, from top to bottom |
| Motion.AcceptedIsWhole | src/motion.c:292-418 | an accepted body is a frame of a legal size and the whole of what was unpacked |
| Motion.MotionAgreement | src/motion.c:292-418 | over any frames, drops, size changes and invalidations no produced message is rejected and the sink shows the last one produced |
| Motion.MotionCeiling | src/motion.c:183-190 | over any run of offers under a clock that never runs backwards, the bytes of all messages produced obey the ceiling, the largest being a produced one |
| Motion.MotionCeilingPrefixed | src/motion.c:183-190 | they obey it with no hypothesis about sizes, the largest being a whole body, its header and whatever the buffer held before, however much that is |
| Motion.MotionPlane.ChangedBands | src/motion.c:202-226 | the band loop computes the specified delta |
| Motion.MotionPlane.OfferFrame | src/motion.c:148-263 | state, status and bytes are the specified ones, drops and charges included, and a message is produced exactly for a new frame that no allowance keeps back |
| Motion.MotionSink.PaintAll | src/motion.c:377-413 | the band loop bounds every operand and keeps what it painted before a refusal |
| Motion.MotionSink.ApplyMessage | src/motion.c:292-418 | the sink and verdict are the specified ones for any bytes |
| Audio.OfferAgrees | src/audio.c:117-303 | a block that was produced is accepted and the sink then holds exactly it; otherwise the buffer is as it was |
| Audio.OfferSendsIff | src/audio.c:117-173 | a block is sent if and only if it holds one byte to a mebibyte and there is no allowance or its gate is open; one the gate keeps back is counted |
| Audio.AcceptedIsPlayable | src/audio.c:223-303 | an accepted block has a playable format and size and reports a gap only if it starts after the last one ended; a refused one changes nothing |
| Audio.BlockIsWhole | src/audio.c:223-267 | a block is the whole of what was unpacked |
| Audio.GapIsDropped | src/audio.c:117-303 | over any blocks captured without a break none is rejected, and the gap reported, with the time since the sink's last block ended, is exactly the time of the blocks dropped since its first |
| Audio.AudioCeiling | src/audio.c:134-167 | over any run of blocks whose timestamps never run backwards, the bytes of all messages produced are at most the budget for the time since the first window opened, one budget more and one whole block with its header and what its buffer held before |
| Audio.AudioPlane.OfferBlock | src/audio.c:117-173 | state, status and bytes are the specified ones, drops and charges included |
| Audio.AudioSink.ApplyBlock | src/audio.c:223-303 | the sink and verdict are the specified ones for any bytes |
| ImageCache.PutKeeps | src/graphics.c:170-211 | keys stay unique and both limits hold, a put succeeds if and only if the image could ever fit, and a get then finds it |
| ImageCache.EvictsFewest | src/graphics.c:186-195 | a put drops only the least recently wanted images and no more than the limits require |
| ImageCache.StoredBytesStay | src/graphics.c:115-130 | over any sequence of puts and gets of any keys during which an image stays held, a get finds the bytes first stored |
| ImageCache.OldestIs | src/graphics.c:156-168 | the smallest stamp is the head of the recency order |
| ImageCache.FreeSlotIff | src/graphics.c:143-150 | a slot is free if and only if fewer images than slots are held |
| ImageCache.Cache.Find | src/graphics.c:99-107 | the scan finds the key's slot if and only if it is held |
| ImageCache.Cache.Get | src/graphics.c:115-130 | returns the stored bytes and makes the image the most recently wanted |
| ImageCache.Cache.EvictOldest | src/graphics.c:156-168 | exactly the least recently wanted image goes |
| ImageCache.Cache.MakeRoom | src/graphics.c:186-189 | the eviction loop ends and leaves the specified images |
| ImageCache.Cache.PutImage | src/graphics.c:170-211 | the slot array with its stamps refines the list ordered by recency |
| RenderProofs.StyleSets | src/render.c:101-132 | whatever the pen was, the emitted sequence leaves exactly the cell's style |
| RenderProofs.CellStep | src/render.c:176-223 | drawing or skipping one cell keeps what is drawn, what is still shown and where the cursor is |
| RenderProofs.PrintTorn | src/render.c:211-219 | a glyph wider than its cell leaves its tail on the next one, which is repainted |
| RenderProofs.FrameShows | src/render.c:149-237 | a frame's output turns a screen showing the previous frame, or any screen for a full repaint, into the new one with its cursor |
| RenderChoice.FrameDrawsOnlyNews | src/render.c:149-237 | a frame draws exactly the cells that changed or may have been erased, in reading order, and moves and sets a style only where it must |
| RenderChoice.SameFrameIsQuiet | src/render.c:149-237 | a frame is a difference after any frame of its size not invalidated since, and costs its cursor alone when nothing changed |
| RenderProofs.RendererRefinement | src/render.c:149-237 | over any frames and disturbances the terminal shows each frame drawn |
| Render.FrameRenderer.AppendText | src/render.c:201-210 | what a cell prints, and whether any of it is beyond ASCII |
| Render.FrameRenderer.EmitCell | src/render.c:176-223 | commands and tracked cursor, style and repaint flag are the specified ones |
| Render.FrameRenderer.Frame | src/render.c:149-237 | the nested loops emit the specified frame and remember it |
| Layout.SpansFill | src/layout.c:54-104 | spans fill the screen exactly, differ by at most one, and the larger ones come last |
| Layout.PartsDisjoint | src/layout.c:54-104 | panes, titles and dividers are pairwise disjoint |
| Layout.PartsCover | src/layout.c:54-104 | together they cover every position |
| Layout.PanesInsideIff | src/layout.c:54-104 | every pane lies on the screen if and only if there is room across the split |
| Layout.ArrangesIff | src/layout.c:54-104 | exactly which arrangements are refused, and that another one is a new generation focusing its first pane that keeps titles and numbers |
| Layout.PanesInOrder | src/layout.c:70-101 | stacked panes follow one another down the screen at full width, others from left to right at full height, a row given up for titles |
| Layout.ArrangedSendable | src/layout.c:54-104 | what was arranged with room can be sent |
| Layout.PlacePanes | src/layout.c:70-101 | the loop with its running total places every pane as specified |
| Layout.ArrangeLayout | src/layout.c:54-104 | refusals and the new layout are the specified ones |
| Layout.EncodeLayout | src/layout.c:151-174 | the loop emits the specified encoding of any layout whose fields fit 32 bits, panes off the screen included |
| Layout.ApplyPanes | src/layout.c:204-236 | the loop reads the specified panes and stops where the specification does |
| Layout.LayoutRoundTrip | src/layout.c:151-238 | an encoded layout decodes to an equal one of the same generation if and only if every title is NUL-terminated |
| Layout.AcceptedInside | src/layout.c:176-238 | an accepted layout keeps its panes on its screen, whatever was received |
| Layout.AcceptedIsWhole | src/layout.c:176-238 | an accepted layout is the whole message |
| Composite.CompositeLayout | src/layout.c:252-315 | the nested loops draw title, divider and content so that the last writer of each position wins |
| Composite.SourcesShown | src/layout.c:252-315 | compositing an arrangement shows every source cell unchanged inside its own pane |
| Composite.PartsShown | src/layout.c:252-315 | compositing an arrangement shows all of it: sources in panes, titles in their bars with the focused one reversed, lines between columns, blanks elsewhere |
| Composite.CursorFollows | src/layout.c:308-312 | the cursor is that of the focused first pane, moved to where it is |

## Left out

- Foreign code: libvterm (`src/term.c`, a snapshot is any well-formed grid), OpenSSL, the EnCodec network, libsamplerate, and zstd beyond its round trip.
- Sockets, poll loops, spawning, terminal ioctls, signals, argument parsing, tap and display capture, shaper, benchmarks and Python helpers.
- Allocation failures and zstd errors, except where a refusal changes nothing.
- Pacing (`observe_round_trip`, intervals, throughput): whether a send is due is free.
- The wrap of 64-bit screen sequence numbers, of the image cache's clock and of the journal's generation; the model refuses a generation past 2^64 - 1 as the code does.
- Row-major cell storage is represented by its rows, and padding bytes by nothing: comparing memory and comparing fields are the same here.
- Replies reach the client as values, in order or not at all; their payloads' encodings round-trip (`InputWire.StateRoundTrip`, `InputWire.AckRoundTrip`). Requests travel as bytes.
- The server conditions on pane count, liveness and roles around the input arms are the environment's choices: a permission flag for OPEN, a release at any time for the rest.
- When admitted bytes cannot be drained the source stops the server; the model releases the connection and lets the run go on. Likewise after an answer of the terminal is lost, with no further answers.
- Which queries the terminal answers, and which keys arrive while there is no lease, are the environment's choices, any bytes at any time.
- EncodecEpochs.GapFreeAudio: is stated for runs in which no packet's 64-bit clock wraps below the boundary of its generation, because there is a gap where it does; `EncodecProofs.ContinuesIffInTime` covers every run and `EncodecProofs.PacedFits` says which are free of that.
- The audio encoder: memory orders are those of atomic steps; statistics, epoch ages and the stop flag are not modelled; of the decoder only its ring shapes are, through Ring.RingSafety.
- Rate.ReopensExactlyAt: is stated for windows that start more than a second before the 64-bit clock ends.
- Motion: agreement is about produced messages that are all applied in order; `client_queue_droppable` may drop one after the sender has moved on.
- Server and client image caches need not evict alike, since the server tests membership without touching recency; nothing is claimed about both.
- Renderer: output is a list of commands; decimal and UTF-8 formatting and the error for a code point past 0x10ffff are not modelled. A glyph wider than its cell is shown as a blank, as the terminal does.
- Layout: pane identifiers need not be unique when stale ones are reused; the model keeps them as the code does and claims nothing.
- Key hashing, base64, colour mapping, the predictor, image messages and `kmx_pixel_input_transform`.
