# Verified models of alfalfa and ALGLIB

This repository carries, beside a thin congestion-control server, several programs with hard
correctness properties. This project models them in Dafny and proves those properties.

* **State synchronisation** (`UserStreams`, `TransportSenders`, `Transports`, `SspProtocol`, `SspTheorems`, `SspLosses`,
  `SspTimers`, `SspAcknowledgments`, `Fragments`, `SspPackets`).
  Two parties keep numbered snapshots of an event stream and send each other differences over a network
  that loses, duplicates and reorders. The classes have the source's loops and are proved equal to functions
  on states; the theorems are about all runs of the two parties over the set of all instructions, or of all
  packets, ever sent, with the full streams kept alongside.
* **Terminal** (`TerminalRenditions`, `Screens`, `ControlFunctions`, `TerminalParser`, `Dispatchers`, `Emulators`,
  `TerminalColours`, `ScreenEffects`, `ControlEffects`, `ControlDispatch`, `ParserStrings`, `ControlSequences`,
  `Framebuffers`, `DisplayOps`, `DisplayText`, `Displays`). An emulator from characters to screen, what each of its functions does cell
  by cell, and the display that writes the characters which turn one screen into another, proved against the emulator.
* **Nearest neighbours and random integers** (`TagHeap`, `KdGeometry`, `KdSpec`, `KdSplits`, `KdInputs`, `KdTrees`, `KdQueries`,
  `ModularPowers`, `HqrndPeriods`, `Hqrnds`, `HqrndLaws`). The kd-tree is set against a linear scan, over the reals and
  all three norms, and its answers are said of the data set it was built from; that the random generator's rejection loops end rests on both multipliers' full periods.
* **OCB3** (`OcbBlocks`, `OcbSpec`, `OcbContexts`). The batched, incremental, caching code against the block by block
  definition of RFC 7253, for any permutation in the place of AES.
* **Queues and links** (`Codels`, `QueueGangs`, `QueueGangOrders`, `QueueGangLines`, `LinkEmulators`, `Reassemblies`, `SproutAccounting`).

The heap helpers are cited at their declarations in `alglibinternal.h`; what is modelled is their code in
`alglibinternal.cpp`, lines 3053 to 3288.

`Outcome` (module `Outcomes`) stands for the source's assertions: `AssertFailed` is a stopped process. Where a
promised property is false of the code, one member has the input that shows it and one says exactly when it holds:
`EmptyAckCanLoseEvents` and `TickKeepsAgreementIff` (and `CanBreakIff`), `SproutDropCanStrand` and `EnqueKeepsIff`, `FarOpportunity` and
`WaitTime`, `SaturationCanDecrease` and `CountDropsIff`, `EstimateCanFail` and `QueueEstimate`, `AskedFirst` and
`ReadyToDeliver`, `OverlapCanLeaveHole` and `WalkClearsIff` (over runs: `ReceiveParts`), `CombiningCanStop` and `ShapeAlwaysHolds`,
`MixedSizesCanStarve` and `FairButForSurplus`, `OverdueCanWait` and `WaitIsLeastIff`.

Clocks (one for each party), the network, serialisation, the cipher, character widths and the control law are parameters.
`dafny verify dfyconfig.toml` checks everything.

## Model

| member | source | states |
|---|---|---|
| SspTheorems.ExactlyOnceInOrder | alfalfa/src/network/networktransport.cc:70-191 | For every run of two parties over a network that loses, duplicates and reorders, started from the initial state at any two clock readings, in which each party's own clock does not run backwards (the two need not agree), no empty acknowledgment loses events (`TickKeepsAgreementIff`), nothing is pushed after a shutdown and numbers do not run out: no assertion fails; every numbered state the receiver holds is the stream the sender recorded under that number; the events handed out are a prefix of the events pushed; the receiver still holds the sender's front state; the received lists stay sorted; at most 32 states are kept. Both directions. |
| SspPackets.ExactlyOnceOverPackets | alfalfa/src/network/networktransport.cc:69-171 | The same over packets: instructions are serialised, cut and encoded, the network loses, duplicates and reorders single packets, and a party acts once the last fragment of an instruction is there. No assertion of the protocol, of cutting or of reassembly fails, and what is delivered is a prefix of what was pushed. |
| SspPackets.CanCatchUpOverPackets | alfalfa/src/network/transportsender.cc:299-337 | From every state in order a retry, its packets in a row and a read deliver everything pushed, provided that it fits the wire and the receiver's queue is not over its limit. |
| SspPackets.RestArrives | alfalfa/src/network/networktransport.cc:69-77 | The packets of an instruction in a row, from the first one missing on, have exactly the effect of the whole instruction. |
| SspPackets.TakeKeeps | alfalfa/src/network/networktransport.cc:69-77 | Any packet ever sent is decoded and added without a failing assertion, and what it completes is an instruction that was sent. |
| SspPackets.PostIff | alfalfa/src/network/transportsender.cc:299-337 | An instruction can be sent if and only if it is at most 32768 full fragments, and then its fragments are a split of it. |
| SspTheorems.RunKeeps | alfalfa/src/network/networktransport.cc:70-171 | The invariant of both directions is kept over whole such runs, no step fails, and acknowledgment numbers never decrease. |
| SspTheorems.StepKeeps | alfalfa/src/network/networktransport.cc:78-171 | One step of either party (push, tick, wait, delivery, read, shutdown) succeeds, keeps the invariant and never lowers an acknowledgment number. |
| SspTheorems.ReadActionKeeps | alfalfa/src/network/networktransport.cc:173-191 | Reading hands out exactly the events up to the newest state held, and keeps the invariant. |
| SspTheorems.InitiallyHolds | alfalfa/src/network/networktransport.cc:44-67 | Two fresh parties satisfy the invariant, whatever their two clocks read. |
| SspTheorems.DirectionFaithful | alfalfa/src/network/networktransport.cc:78-171 | The invariant implies that held states denote recorded streams, that what was delivered is a prefix of what was pushed, and that the front state is held. |
| SspTheorems.TickKeepsAgreementIff | alfalfa/src/network/transportsender.cc:151-221 | A tick of a state in order always succeeds, and keeps the agreement if and only if it does not send an empty acknowledgment through a closed window while the current state differs from the assumed one. |
| SspTheorems.EmptyAckCanLoseEvents | alfalfa/src/network/transportsender.cc:201-221 | The counterexample: a nine-step run in which an empty acknowledgment records events it does not carry; x and y are pushed, only y is delivered. |
| SspTheorems.CanAlwaysCatchUp | alfalfa/src/network/transportsender.cc:151-258 | From every state in order there is a run of a late tick, a delivery and a read after which everything pushed was delivered, provided the receiver's queue is not over its limit. |
| SspLosses.LosingTickBreaks | alfalfa/src/network/transportsender.cc:151-221 | From every state in order: after a tick that loses events, by a party that is not shutting down and whose peer holds the state it takes as known (the front state always is held), seven more allowed steps lead to an assertion of the peer or to events handed out that are no prefix of those pushed. |
| SspLosses.CanBreakIff | alfalfa/src/network/transportsender.cc:151-221 | So, under the same conditions, a tick makes it possible that delivery breaks if and only if it loses events. |
| SspLosses.AppendNewest | alfalfa/src/network/networktransport.cc:80-152 | An instruction with the highest number so far, whose reference is held, is appended behind what the throwaway leaves, and acknowledged. |
| SspTimers.TickSendsIff | alfalfa/src/network/transportsender.cc:80-258 | At any point of a run, without the timers: a tick sends if and only if the address is known and an acknowledgment is due, or data are due, the window is open and the receiver is not taken to have everything. What it sends leads from the state taken as received, carries through an open window exactly the events after it, is recorded, and sets the next acknowledgment 3000 ms ahead; otherwise only the noticing of new events is kept. |
| SspTimers.TimersDueIff | alfalfa/src/network/transportsender.cc:80-119 | The timers set have come exactly when data are due (new events noticed for the minimum delay and a send interval after the newest state; or sending again after a send interval or a time-out to a peer heard lately) and when an acknowledgment is (its time, or 100 ms with data to acknowledge, or a send interval when shutting down). |
| SspTimers.PendingIsSent | alfalfa/src/network/transportsender.cc:94-100 | Events noticed for the minimum delay are sent once a send interval has passed, whatever the acknowledgment timer says. |
| SspTimers.UnacknowledgedIsSentAgain | alfalfa/src/network/transportsender.cc:102-110 | A state not acknowledged within the time-out is sent again from the acknowledged one. |
| SspTimers.WaitIsLeastIff | alfalfa/src/network/transportsender.cc:121-148 | The wait ends when something is first due, or with the connection's tick, if and only if the 32-bit difference is not taken for one on the other side of now or too early. |
| SspTimers.OverdueCanWait | alfalfa/src/network/transportsender.cc:138-145 | The input: an acknowledgment overdue by 2^32 - 5 ms makes the sender wait for five more. |
| SspProtocol.TickKeeps | alfalfa/src/network/transportsender.cc:151-258 | A tick keeps the invariant of both directions: what it sends carries exactly the events between the two states it names, and never asks the receiver to drop its own reference. |
| SspProtocol.TimersKeep | alfalfa/src/network/transportsender.cc:80-119 | Recomputing the timers (choosing the assumed state, cutting shared prefixes) never fails an assertion and keeps the sender's invariant. |
| SspProtocol.RationalizeKeeps | alfalfa/src/network/transportsender.cc:285-297 | Cutting the oldest state's stream from every state succeeds, and every state still denotes the rest of its recorded stream. |
| SspProtocol.AddKeepsList | alfalfa/src/network/transportsender.cc:223-232 | Recording a state, with the mid-list erase beyond 32, keeps numbers and times sorted, the front in place and every state denoting its stream. |
| SspProtocol.AckLeaves | alfalfa/src/network/transportsender.cc:339-351 | An acknowledgment of a number in the list leaves exactly the states from that number on; any other changes nothing. |
| SspAcknowledgments.RecvEffect | alfalfa/src/network/networktransport.cc:69-154 | For every instruction, on any state: receiving it fails exactly when no sent state is kept or its data part fails. Otherwise its data part does what it does without the acknowledgment (`IncorporateEffect`); an acknowledged number that is in the list leaves exactly the states from that number on, in order, with the assumed state the same one, or none if it went; any other number changes neither. |
| SspAcknowledgments.AckEffect | alfalfa/src/network/transportsender.cc:339-351 | The same of the acknowledgment alone, for any list, sorted or not. |
| SspAcknowledgments.DeliverMovesFront | alfalfa/src/network/networktransport.cc:69-154 | At any point of a run, a delivery moves the first sent state to the number acknowledged if it is held, and else not at all. |
| SspAcknowledgments.RunAdvances | alfalfa/src/network/transportsender.cc:299-351 | Over every run neither party's first sent state goes back, and every instruction sent on the way asks the peer to throw away everything before it. |
| SspAcknowledgments.AcknowledgmentStays | alfalfa/src/network/transportsender.cc:299-351 | Once an instruction that acknowledges a held state is delivered, however the run goes on: the sender never keeps a state before it, and what it sends from then on asks the peer to throw away everything before it. |
| SspProtocol.AckKeeps | alfalfa/src/network/transportsender.cc:339-351 | Processing an acknowledgment drops a prefix of the sent states; the new front is held by the receiver. |
| SspProtocol.ThrowawayKeeps | alfalfa/src/network/networktransport.cc:156-171 | Throwing away old states never removes the reference of the instruction being received and leaves the list non-empty. |
| SspProtocol.IncorporateKeeps | alfalfa/src/network/networktransport.cc:80-152 | Receiving an instruction, new, duplicate or without its reference, keeps the invariant of both directions. |
| SspProtocol.ReadKeeps | alfalfa/src/network/networktransport.cc:173-191 | Reading keeps the receiver's invariant and its diff is the events between the last read state and the newest one. |
| TransportSenders.AssumedIsFirstOrLast | alfalfa/src/network/transportsender.cc:260-283 | With non-decreasing timestamps the assumed state is the first or the last sent state. |
| TransportSenders.TransportSender.UpdateAssumedReceiverState | alfalfa/src/network/transportsender.cc:260-283 | The loop over the sent states computes `UpdateAssumed`, including its assertion. |
| TransportSenders.TransportSender.RationalizeStates | alfalfa/src/network/transportsender.cc:285-297 | The backwards loop of subtractions (the last one of a state from itself) computes `Rationalize`. |
| TransportSenders.TransportSender.UpdateTimers | alfalfa/src/network/transportsender.cc:80-119 | Timers, clocks and lists after `calculate_timers` are those of `CalculateTimers` (whose meaning is in `TimersDueIff`); it fails exactly when that does. |
| TransportSenders.TransportSender.RecordSentState | alfalfa/src/network/transportsender.cc:223-232 | The list after a push and the erase 16 before its end. |
| TransportSenders.TransportSender.MakeInstruction | alfalfa/src/network/transportsender.cc:299-337 | The instruction's five fields and the cleared pending-ack flag. |
| TransportSenders.TransportSender.TransmitEmptyAck | alfalfa/src/network/transportsender.cc:201-221 | Computes `SendEmptyAck`: a new number, an empty diff, the shutdown number when closing. |
| TransportSenders.TransportSender.TransmitDiff | alfalfa/src/network/transportsender.cc:234-258 | Computes `SendToReceiver`: the number after the last, or the shutdown number, is recorded, sent and assumed received. |
| TransportSenders.TransportSender.DoTick | alfalfa/src/network/transportsender.cc:151-199 | Computes `Tick` (whose meaning is in `TickSendsIff`), with its early exits, the window gate and every failing assertion. |
| TransportSenders.TransportSender.WaitTime | alfalfa/src/network/transportsender.cc:121-148 | Computes `WaitFor`, with the 32-bit difference and the connection's tick. |
| TransportSenders.RecordedStates | alfalfa/src/network/transportsender.cc:223-232 | A recorded state comes last; beyond 32 exactly the one with 15 behind it goes. |
| TransportSenders.TransportSender.ProcessAcknowledgmentThrough | alfalfa/src/network/transportsender.cc:339-351 | Computes `ProcessAck`; an unknown number changes nothing. |
| Transports.IncorporateEffect | alfalfa/src/network/networktransport.cc:78-152 | For any instruction whose reference is held: a known number changes nothing; else the states below the throwaway number go and, if there is room, the reference with the diff applied is put in order, and acknowledged if it is the last. With room it fails exactly when the reference itself was thrown away. |
| Transports.UnreferencedChangesNothing | alfalfa/src/network/networktransport.cc:90-106 | Without its reference an instruction changes nothing. |
| Transports.Transport.Receive | alfalfa/src/network/networktransport.cc:69-154 | Computes `Recv` (whose meaning is in `RecvEffect`): acknowledgment first, then the data; fails exactly when it does. |
| Transports.Transport.ReceiveData | alfalfa/src/network/networktransport.cc:78-152 | Finds duplicates and the reference, throws away, applies and inserts as `Incorporate` does. |
| Transports.Transport.InsertState | alfalfa/src/network/networktransport.cc:129-147 | Inserts before the first larger number without acknowledging, or appends and acknowledges. |
| Transports.Transport.ProcessThrowawayUntil | alfalfa/src/network/networktransport.cc:156-171 | Exactly the states not below the number stay, in order; the assertion holds when one does. |
| Transports.Transport.TakeRemoteDiff | alfalfa/src/network/networktransport.cc:173-191 | Computes `GetRemoteDiff`: the diff against the last read state, with the oldest prefix cut from all. |
| UserStreams.EncodeRoundTrip | alfalfa/src/statesync/user.cc:55-118 | Applying the diff made of a suffix gives back exactly its events, and only an empty suffix has an empty diff. |
| UserStreams.DecodeRoundTrip | alfalfa/src/statesync/user.cc:55-118 | A diff with no two keystrokes in a row and none empty is the encoding of its events. |
| UserStreams.UserStream.Subtract | alfalfa/src/statesync/user.cc:44-53 | Succeeds exactly for a prefix and removes it; subtracting a stream from itself empties it. |
| UserStreams.UserStream.DiffFrom | alfalfa/src/statesync/user.cc:55-100 | Succeeds exactly for a prefix; the diff's events are the rest. |
| UserStreams.UserStream.ApplyString | alfalfa/src/statesync/user.cc:102-118 | Appends exactly the events of the diff. |
| UserStreams.UserStream.PushBack | alfalfa/src/statesync/user.h:82-83 | Appends one event. |
| Fragments.ReassemblyIsIdeal | alfalfa/src/network/transportfragment.cc:89-147 | For any interleaving, reordering and duplication of genuine fragments of any instructions, no assertion fails and every completion is exactly the payload of that id; the outputs are those of an ideal assembler that keeps a set of pieces. |
| Fragments.ReceiveAgrees | alfalfa/src/network/transportfragment.cc:89-147 | One fragment moves the assembly and the ideal assembler in step. |
| Fragments.AddEffect | alfalfa/src/network/transportfragment.cc:89-126 | Any fragment, genuine or not: the assertions fail exactly when another one is held under its number, when it is final with one held behind it, or when more have arrived than belong together; else it takes its place, all others stay, and it completes exactly if as many have arrived. |
| Fragments.UninterruptedCompletes | alfalfa/src/network/transportfragment.cc:89-147 | Whatever arrived before: fragments of one id in a row, after one of another id, complete it exactly when the last missing one arrives; then its payload comes out, and not before. |
| Fragments.WireRoundTrip | alfalfa/src/network/transportfragment.cc:55-87 | Decoding an encoded fragment gives it back, for every id, number and final flag. |
| Fragments.WireIsOnto | alfalfa/src/network/transportfragment.cc:55-87 | Every string with a whole header decodes to a fragment that encodes to that string. |
| Fragments.Fragmenter.MakeFragments | alfalfa/src/network/transportfragment.cc:155-180 | The contents concatenate to the payload, all but the last are full and only the last is final; numbers are the positions modulo 65536, so the fragments are a proper split if and only if there are at most 65536. |
| Fragments.SendAndReceive | alfalfa/src/network/transportfragment.cc:55-180 | Cut, encoded, decoded and reassembled: every fragment fits the wire if and only if the payload is at most 32768 full fragments, and then the payload comes out at the last one and nothing before. |
| Fragments.FragmentAssembly.AddFragment | alfalfa/src/network/transportfragment.cc:89-126 | Computes `Add` (whose meaning is in `AddEffect`), assertions included. |
| Fragments.FragmentAssembly.TakeAssembly | alfalfa/src/network/transportfragment.cc:128-147 | Computes `GetAssembly`: concatenates in order and resets. |
| Displays.NewFrame | alfalfa/src/terminal/terminaldisplay.cc:47-388 | Typing the characters written for a new frame into an emulator that shows the last one leaves it showing the new frame: cells, cursor, visibility, renditions, reverse video. Cells are equal where the terminal has ECH and BCE and the size is unchanged, and equal up to the kind of blank otherwise, also from an unknown screen. |
| Displays.Play | alfalfa/src/terminal/terminaldisplay.cc:47-388 | A sequence of frames, each compiled against the one before, leaves the emulator showing the last. |
| Displays.Compile | alfalfa/src/terminal/terminaldisplay.cc:47-280 | The same for the operations before they are written out as characters. |
| Displays.FrameState.PutCell | alfalfa/src/terminal/terminaldisplay.cc:282-372 | Skips equal cells, else positions, selects and draws; afterwards the cells up to the new column show the new frame and the rest are untouched. |
| Displays.FrameState.PutBlank | alfalfa/src/terminal/terminaldisplay.cc:306-354 | A blank cell is drawn; it is shown empty if and only if it can be erased (background kept, and to the end of the line or counted) and no space is forced, and with a space otherwise. |
| Displays.FrameState.DrawRow | alfalfa/src/terminal/terminaldisplay.cc:205-248 | One row, including turning off wrap, comes to show the new frame. |
| Displays.FrameState.TurnOffWrap | alfalfa/src/terminal/terminaldisplay.cc:233-248 | Erasing from the last drawn cell and redrawing it leaves the row as wanted. |
| Displays.FrameState.Shortcut | alfalfa/src/terminal/terminaldisplay.cc:129-203 | The scroll shortcut leaves the rows it skips showing the new frame and the others as remembered. |
| Displays.FrameState.FindScroll | alfalfa/src/terminal/terminaldisplay.cc:136-156 | The first old row equal to the new top row and the largest region that matches from there. |
| Displays.FrameState.ScrollRegion | alfalfa/src/terminal/terminaldisplay.cc:161-201 | Margins, move and line feeds shift the region up by exactly the lines scrolled and restore the margins. |
| Displays.FrameState.MoveRows | alfalfa/src/terminal/terminaldisplay.cc:186-192 | The remembered frame is shifted like the screen. |
| Displays.FrameState.SilentMove | alfalfa/src/terminal/terminaldisplay.cc:374-388 | Hides the cursor if shown and moves it; no cell changes. |
| Displays.FrameState.Finish | alfalfa/src/terminal/terminaldisplay.cc:251-277 | Final cursor, visibility and renditions are the new frame's. |
| Displays.FrameState.Restart | alfalfa/src/terminal/terminaldisplay.cc:109-122 | From an unknown screen: margins, renditions and cursor are reset and the screen cleared. |
| DisplayText.TextRuns | alfalfa/src/terminal/terminaldisplay.cc:47-388 | Typing the encoded operations through parser, dispatcher and control functions does what running the operations does. |
| DisplayText.OpRuns | alfalfa/src/terminal/terminaldisplay.cc:90-388 | One encoded operation, typed character by character, acts as that operation. |
| DisplayText.CsiRuns | alfalfa/src/terminal/terminaldispatcher.cc:200-237 | A control sequence with any numbers the display writes runs the function its final character names with exactly those parameters. |
| Dispatchers.EveryStringParses | alfalfa/src/terminal/terminaldispatcher.cc:80-133 | Any string of parameters is a list of segments joined by semicolons, and parsing gives the value of every one, empty ones included, in order. |
| DisplayText.WrittenValue | alfalfa/src/terminal/terminaldispatcher.cc:97-126 | A number, with any zeros before it, has itself as its value up to 65535, and counts as -1 beyond. |
| DisplayText.ListedRoundTrip | alfalfa/src/terminal/terminaldispatcher.cc:80-133 | Parsing a written list of numbers gives the numbers back. |
| DisplayText.CombiningCanStop | alfalfa/src/terminal/terminal.cc:114-126 | The input, as characters: a letter, an erase of the line and a combining character fail the assertion that the cursor is at the cell. |
| DisplayOps.ApplyMoveTo | alfalfa/src/terminal/terminalfunctions.cc:96-128 | Absolute positioning moves the cursor there and cancels a pending wrap; cells, modes and margins stay. |
| DisplayOps.ApplyEraseLine | alfalfa/src/terminal/terminalfunctions.cc:53-67 | Erase to the end of the line blanks from the cursor on with the current background, nothing else. |
| DisplayOps.ApplyEraseChars | alfalfa/src/terminal/terminalfunctions.cc:497-506 | Erase characters blanks exactly that many cells from the cursor. |
| DisplayOps.ApplyPut | alfalfa/src/terminal/terminal.cc:60-113 | A narrow character replaces the cell at the cursor and advances, or leaves a wrap pending in the last column. |
| DisplayOps.ApplyCombining | alfalfa/src/terminal/terminal.cc:114-133 | A combining character is appended to the cell printed last. |
| DisplayOps.ApplyMargins | alfalfa/src/terminal/terminalfunctions.cc:335-349 | Setting margins from the top homes the cursor and sets the region. |
| DisplayOps.ApplyLineFeed | alfalfa/src/terminal/terminalfunctions.cc:159-163 | A line feed at the bottom margin moves the region up by one and adds a blank row. |
| DisplayOps.ApplyParams | alfalfa/src/terminal/terminalfunctions.cc:361-380 | Select graphic rendition changes the renditions only. |
| TerminalRenditions.SgrRoundTrip | alfalfa/src/terminal/terminalframebuffer.cc:397-533 | From any renditions, applying the sequences `sgr` writes for r gives exactly r, for every attribute and colour in range. |
| TerminalRenditions.LastDecides | alfalfa/src/terminal/terminalframebuffer.cc:397-434 | Whatever else is in a list of codes, an attribute is as the last code about it says, or as it was. |
| TerminalRenditions.LastPaints | alfalfa/src/terminal/terminalframebuffer.cc:397-434 | The same for foreground and background: the default, the eight colours and the eight bright ones that follow them. |
| TerminalRenditions.ManyColours | alfalfa/src/terminal/terminalfunctions.cc:361-388 | Exactly the lists 38 or 48, 5 and a number select one of 256 colours; any other list counts code by code. |
| TerminalRenditions.ApplySgrKeepsValid | alfalfa/src/terminal/terminalfunctions.cc:361-380 | Any parameter list keeps the colours in the range that `sgr` can write. |
| Emulators.ShapeAlwaysHolds | alfalfa/src/terminal/terminalframebuffer.cc:77-388 | For every stream of characters and positive resizes: the run stops at an assertion if and only if some printed character of no width comes when the cell printed last is on screen, empty and not the cursor's. Up to there row count equals height, rows and tab vector have length width, cursor and region stay in bounds, the combining position is in bounds or (-1,-1), colours of cells, renditions and saved renditions stay in range, and empty cells are one column wide. |
| Emulators.StepKeeps | alfalfa/src/terminal/terminal.cc:55-180 | One character through parser, dispatcher and functions, or one resize, stops exactly so, and keeps all of that otherwise. |
| Emulators.ActKeeps | alfalfa/src/terminal/terminal.cc:55-164 | One parser action stops exactly when it is such a print, and keeps all of that otherwise. |
| ScreenEffects.PrintEffect | alfalfa/src/terminal/terminal.cc:60-113 | Printing a narrow or wide character, cell by cell: where it lands (with a pending wrap, or wide in the last column, in column 0 one row down), the mark or blank left in the last column, the region moved up at the bottom margin, the rest of the row moved in insert mode, the blanked second half, every other cell unchanged, and the cursor or pending wrap after it. |
| ScreenEffects.WrapEffect | alfalfa/src/terminal/terminal.cc:73-89 | The wrap before printing, cell by cell. |
| ScreenEffects.TypedTextEffect | alfalfa/src/terminal/terminal.cc:60-113 | Any text of narrow characters typed on a fresh terminal of w columns and h rows: character k stands in line k / w, column k % w, the first lines leave at the top once there are more than h, and every other cell is empty. |
| ScreenEffects.LineFeedEffect | alfalfa/src/terminal/terminalframebuffer.cc:145-161 | A line feed moves the cursor down; at the bottom margin the region moves up by one and a blank row enters. |
| ScreenEffects.ReverseFeedEffect | alfalfa/src/terminal/terminalframebuffer.cc:145-161 | A reverse line feed, at the top margin, moves the region down. |
| ScreenEffects.ScrollUpEffect | alfalfa/src/terminal/terminalframebuffer.cc:77-84 | Scrolling n times by one line is one move of the region by n. |
| ScreenEffects.ScrollDownEffect | alfalfa/src/terminal/terminalframebuffer.cc:84-93 | The same downwards. |
| ScreenEffects.InsertLinesEffect | alfalfa/src/terminal/terminalfunctions.cc:422-433 | Inserting a line n times is one move by n of the lines from the cursor to the bottom margin; outside the margins nothing moves. |
| ScreenEffects.DeleteLinesEffect | alfalfa/src/terminal/terminalfunctions.cc:438-449 | The same for deleting. |
| ScreenEffects.InsertCellsEffect | alfalfa/src/terminal/terminalfunctions.cc:454-461 | Inserting a cell n times is one move by n of the rest of the row. |
| ScreenEffects.DeleteCellsEffect | alfalfa/src/terminal/terminalfunctions.cc:466-473 | The same for deleting. |
| ControlEffects.EraseLineEffect | alfalfa/src/terminal/terminalfunctions.cc:53-66 | Erasing in the line blanks exactly the cells behind, before or around the cursor in its row. |
| ControlEffects.EraseDisplayEffect | alfalfa/src/terminal/terminalfunctions.cc:71-92 | Erasing in the display blanks exactly the cells behind or before the cursor in reading order, or all. |
| ControlEffects.EraseCharactersEffect | alfalfa/src/terminal/terminalfunctions.cc:497-506 | Erasing characters blanks exactly so many cells from the cursor on, in its row. |
| ControlEffects.CursorEffect | alfalfa/src/terminal/terminalfunctions.cc:96-125 | Every cursor function takes the cursor to the place asked for, or the nearest one on the screen or, in origin mode, between the margins, and changes no cell. |
| ControlEffects.InsertingLines | alfalfa/src/terminal/terminalfunctions.cc:422-433 | The control function: the lines move and the cursor goes to the first column. |
| ControlEffects.DeletingLines | alfalfa/src/terminal/terminalfunctions.cc:438-449 | The same for deleting. |
| ControlEffects.ScrollEffect | alfalfa/src/terminal/terminalfunctions.cc:559-572 | The region moves by the number given, and the cursor with it as far as it may. |
| ControlEffects.FeedEffect | alfalfa/src/terminal/terminalfunctions.cc:159-199 | Line feed, reverse line feed and next line. |
| ControlEffects.CharactersEffect | alfalfa/src/terminal/terminalfunctions.cc:454-473 | Inserting and deleting characters. |
| ControlEffects.TabEffect | alfalfa/src/terminal/terminalfunctions.cc:204-219 | A tab leads to the first stop behind the cursor, or the last column, and keeps a pending wrap. |
| ControlEffects.RestoreEffect | alfalfa/src/terminal/terminalframebuffer.cc:239-258 | Restoring brings back cursor, renditions, wrap and origin mode as saved last, whatever came between, with the cursor snapped. |
| ControlEffects.ResetEffect | alfalfa/src/terminal/terminalframebuffer.cc:310-317 | A reset leaves nothing but the size, the icon name and the bell count. |
| ControlEffects.SoftResetEffect | alfalfa/src/terminal/terminalframebuffer.cc:319-328 | A soft reset undoes modes, margins, renditions and the saved cursor, and nothing else. |
| ControlEffects.ResizeEffect | alfalfa/src/terminal/terminalframebuffer.cc:343-388 | A resize keeps every cell on both screens but for wrap marks, blanks new ones, keeps tab stops and adds the default ones if none were cleared, resets the margins if the size changes, and snaps the cursor; the combining position goes if it is outside. Every other field of the drawing state stays. |
| ControlEffects.ResizedStateEffect | alfalfa/src/terminal/terminalframebuffer.cc:343-388 | The drawing state after a resize, field by field. |
| ControlEffects.ResizedRowsEffect | alfalfa/src/terminal/terminalframebuffer.cc:343-388 | The rows after a resize, cell by cell. |
| ControlEffects.CombiningEffect | alfalfa/src/terminal/terminal.cc:114-133 | A combining character changes only the cell printed last, up to 16 characters; an empty one it starts, and the cursor moves on. |
| ControlEffects.MarginsEffect | alfalfa/src/terminal/terminalfunctions.cc:335-350 | Margins that make sense are set, cut to the screen, with the cursor home; others change nothing. |
| ControlEffects.DecModesEffect | alfalfa/src/terminal/terminalfunctions.cc:249-296 | Setting or resetting any list of private modes decides exactly the modes listed; 3 also blanks the screen, and 3 and 6 take the cursor home, by the origin mode then in force. Nothing else of the screen or the drawing state changes. |
| ControlEffects.AnsiModesEffect | alfalfa/src/terminal/terminalfunctions.cc:301-329 | Over any list of the other modes insert mode is decided exactly if 4 is listed, and nothing else changes. |
| ControlEffects.AlignmentEffect | alfalfa/src/terminal/terminalfunctions.cc:145-154 | The alignment test leaves exactly an E on the current background in every cell, and the drawing state as it was. |
| ControlEffects.SetStopEffect | alfalfa/src/terminal/terminalfunctions.cc:221-227 | A tab stop is set at the cursor, and nothing else changes. |
| ControlEffects.ClearStopsEffect | alfalfa/src/terminal/terminalfunctions.cc:229-247 | Stops are cleared at the cursor or everywhere, and nothing else changes but that default stops go with all. |
| ControlDispatch.DispatchEffect | alfalfa/src/terminal/terminaldispatcher.cc:200-236 | A function is performed on the screen with a pending wrap cancelled, unless it is HT, TBC, DECSM, DECRM or SGR; an unknown one cancels the wrap and does nothing else. |
| ControlDispatch.PendingWrapAfter | alfalfa/src/terminal/terminaldispatcher.cc:228-236 | For every function and parameters: a wrap is pending afterwards if and only if one was before and the function is HT, TBC, SGR or a list of private modes without 3 and 6. |
| ControlDispatch.EraseDispatched | alfalfa/src/terminal/terminalfunctions.cc:53-506 | Dispatching EL, ED or ECH blanks exactly the cells its parameter names and cancels a pending wrap. |
| ControlDispatch.ModesDispatched | alfalfa/src/terminal/terminalfunctions.cc:249-329 | Dispatching SM, RM, DECSM or DECRM leaves exactly the screen with the modes listed set, or reset, and what goes with them. |
| ControlDispatch.OthersDispatched | alfalfa/src/terminal/terminalfunctions.cc:130-384 | Dispatching BEL, a report or SGR changes the bell count, nothing, or the renditions, besides a pending wrap. |
| ControlSequences.SequenceLeaves | alfalfa/src/terminal/parserstate.cc:169-256 | Every control sequence, with any control codes in it: these run first, in order. Then, if the rest is well-formed (at most one private mark, parameters, intermediate characters), the function of its mark, intermediate and final characters runs with the numbers of its parameters, up to the limits on both; if it is malformed, nothing more happens. |
| ControlSequences.CodeRuns | alfalfa/src/terminal/parserstate.cc:72-256 | In the ground state and inside every escape or control sequence a control code runs at once, and what was collected stays. |
| ControlSequences.EscapeSequenceRuns | alfalfa/src/terminal/parserstate.cc:147-162 | Every escape sequence with intermediate characters runs the function of these and the final one. |
| ControlSequences.IgnoredToTheEnd | alfalfa/src/terminal/parserstate.cc:245-256 | An ignored sequence is skipped up to and with its final character. |
| ParserStrings.EscapeStartsOver | alfalfa/src/terminal/parserstate.cc:38-107 | In every state an escape character forgets what was collected; only a title it ends is set. |
| ParserStrings.CodeBreaksOff | alfalfa/src/terminal/parserstate.cc:38-60 | In every state the codes that break off end what is being read and run; only a title they end is set before. |
| ParserStrings.EscapeRuns | alfalfa/src/terminal/parserstate.cc:104-145 | An escape sequence of one character runs its function, or the control code 0x40 further on. |
| ParserStrings.TitleRuns | alfalfa/src/terminal/parserstate.cc:358-379 | A typed title command sets icon name, title or both to exactly its text, and nothing else. |
| ParserStrings.StringsAreSkipped | alfalfa/src/terminal/parserstate.cc:258-388 | Device control strings and those of SOS, PM and APC change nothing on the screen, up to their terminator. |
| TerminalColours.DispatchColoured | alfalfa/src/terminal/terminalfunctions.cc:45-572 | Every control function, with any parameters, keeps the colours of cells, renditions and saved renditions in the range `sgr` can write. |
| TerminalColours.PrintColoured | alfalfa/src/terminal/terminal.cc:60-140 | So does printing, with its wraps, scrolls and insertions. |
| TerminalColours.ResizeColoured | alfalfa/src/terminal/terminalframebuffer.cc:343-388 | So does a resize. |
| TerminalColours.SavedCursorCanBeOutside | alfalfa/src/terminal/terminalframebuffer.cc:239-258 | The input: a cursor saved in the last column lies outside after a resize, and restoring it brings the cursor inside. |
| TerminalParser.FeedIsOk | alfalfa/src/terminal/parser.cc:55-73 | Every action a character causes, on exit, transition and entry, meets what the dispatcher asserts: parameters are digits or semicolons, collected characters and controls are in range. |
| TerminalParser.InputIsOk | alfalfa/src/terminal/parserstate.cc:38-388 | The same for the transition rules of all fourteen states. |
| Dispatchers.Dispatcher.NewParamChar | alfalfa/src/terminal/terminaldispatcher.cc:50-60 | Appends up to 100 parameter characters and forgets the parse. |
| Dispatchers.Dispatcher.Collect | alfalfa/src/terminal/terminaldispatcher.cc:62-70 | Appends up to 8 dispatch characters. |
| Dispatchers.Dispatcher.Parse | alfalfa/src/terminal/terminaldispatcher.cc:80-133 | The scan over semicolons leaves the cached numbers equal to `ParseParams` of the characters. |
| Dispatchers.Dispatcher.GetParam | alfalfa/src/terminal/terminaldispatcher.cc:135-149 | The n-th number, or the default where it is absent, missing or below one; the cached parse is always that of the current characters. |
| Dispatchers.Dispatcher.ParamCount | alfalfa/src/terminal/terminaldispatcher.cc:151-158 | The number of parameters of the current characters. |
| Framebuffers.Framebuffer.ClearCells | alfalfa/src/terminal/terminalfunctions.cc:45-50 | The loop blanks exactly the given columns of the row. |
| Framebuffers.Framebuffer.ResetRows | alfalfa/src/terminal/terminalfunctions.cc:71-92 | The loop resets exactly the given rows. |
| Framebuffers.Framebuffer.RemoveLine | alfalfa/src/terminal/terminalframebuffer.cc:271-286 | Deleting a line moves the rest of the region up; outside the region nothing happens. |
| Framebuffers.Framebuffer.AddLine | alfalfa/src/terminal/terminalframebuffer.cc:260-269 | Inserting a line moves the rest of the region down. |
| Framebuffers.Framebuffer.ScrollBy | alfalfa/src/terminal/terminalframebuffer.cc:77-93 | Repeated deletes or inserts at the top of the region are `Scroll`. |
| Framebuffers.Framebuffer.MoveRowsAutoscroll | alfalfa/src/terminal/terminalframebuffer.cc:145-161 | Scrolls by the excess over the region, and only inside it. |
| Framebuffers.Framebuffer.GetNextTab | alfalfa/src/terminal/terminalframebuffer.cc:185-193 | The first set tab stop after the cursor, or -1. |
| Framebuffers.Framebuffer.ResizeTo | alfalfa/src/terminal/terminalframebuffer.cc:343-388 | Computes `Resize` (whose meaning is in `ResizeEffect`): rows, tab stops, region, cursor and combining position. |
| Framebuffers.Framebuffer.WrapIfNeeded | alfalfa/src/terminal/terminal.cc:73-89 | Computes `WrapForPrint` (whose meaning is in `WrapEffect`): the wrap before printing, pending or for a wide character without room. |
| Framebuffers.Framebuffer.PrintSpacing | alfalfa/src/terminal/terminal.cc:71-113 | Computes `PrintWide` (whose meaning is in `PrintEffect`): wrap, insert mode, the cell, the overlapped cell and the cursor. |
| KdSpec.ResultsMatchScan | verus/lib/alglib/src/alglibmisc.cpp:3162-3230 | The best of all rows, set against the sorted linear scan: the same count, and the i-th distance is within the approximation factor of the i-th smallest; without a limit on the count the same rows. |
| KdSpec.ExactResults | verus/lib/alglib/src/alglibmisc.cpp:3162-3230 | With eps = 0 the i-th distance returned is the i-th smallest of the scan. |
| KdSpec.SkipSubtree | verus/lib/alglib/src/alglibmisc.cpp:4206-4236 | Leaving out a subtree whose box is farther than the radius, or than the scaled worst kept distance, loses nothing. |
| KdSpec.SeeReplaced | verus/lib/alglib/src/alglibmisc.cpp:4079-4097 | Replacing the worst kept point by a nearer one keeps the best seen so far. |
| KdSpec.FitsAllRows | verus/lib/alglib/src/alglibmisc.cpp:3760-3978 | Every row of a subtree lies in its box. |
| KdGeometry.BoxIsNearer | verus/lib/alglib/src/alglibmisc.cpp:4265-4350 | In all three norms no point of a box is nearer than the box. |
| KdGeometry.RaisedIsDistance | verus/lib/alglib/src/alglibmisc.cpp:4158-4183 | The incremental update of the distance on entering the right half is the distance to that half. |
| KdGeometry.LoweredIsDistance | verus/lib/alglib/src/alglibmisc.cpp:4184-4205 | The same for the left half. |
| KdTrees.KdTree.Build | verus/lib/alglib/src/alglibmisc.cpp:2898-2983 | The tree built is valid: each input row is in exactly one row of the tree, with its point in front, all its columns behind and its own tag, every row is in exactly one leaf and inside the boxes above it, and all writes stay inside the preallocated arrays. Its bounding box is tight, every leaf has at most 8 rows or rows all in one place, and every other node divides its box by the sliding midpoint rule across a longest dimension in which its rows differ (`Slid`). |
| KdInputs.InputsArranged | verus/lib/alglib/src/alglibmisc.cpp:2946-2954 | Rows that are the loaded ones rearranged are in one-to-one correspondence with the input rows, each with its point, columns and tag. |
| KdQueries.NearestInputs | verus/lib/alglib/src/alglibmisc.cpp:3162-3395 | Built, asked and read back: the k results are rows of the data set, each at most once, nearest first, with their distances, points, columns and tags; one that may be a result is left out only if k are listed (or all) and none of them is farther, up to the factor of eps. |
| KdQueries.InputsInRange | verus/lib/alglib/src/alglibmisc.cpp:3059-3395 | Built, asked and read back: exactly the rows of the data set within the radius, nearest first, with their distances, points, columns and tags. |
| KdQueries.ReadResults | verus/lib/alglib/src/alglibmisc.cpp:3262-3395 | The three accessors give the input row, point and tag of each result. |
| KdTrees.KdTree.ResultsXY | verus/lib/alglib/src/alglibmisc.cpp:3316-3338 | The columns behind the point of each row listed, in order. |
| KdTrees.KdTree.ResultsX | verus/lib/alglib/src/alglibmisc.cpp:3262-3283 | The first nx of these. |
| KdTrees.KdTree.ResultsTags | verus/lib/alglib/src/alglibmisc.cpp:3370-3391 | The tag of each row listed. |
| KdInputs.ResultsAnswer | verus/lib/alglib/src/alglibmisc.cpp:3162-3230 | The best rows of the tree are the best rows of the data set. |
| KdTrees.KdTree.GenerateTree | verus/lib/alglib/src/alglibmisc.cpp:3760-3978 | Terminates by (points, dimensions with extent); permutes its rows, writes a tree for them, divided by the sliding midpoint rule, into fresh cells only and restores the box. |
| KdSplits.SlidInBox | verus/lib/alglib/src/alglibmisc.cpp:3872-3888 | The rule looks at a box only in the dimensions in which the rows differ, so flattening it in another changes nothing. |
| KdTrees.RuleOfSplit | verus/lib/alglib/src/alglibmisc.cpp:3889-3949 | What a scan of the column finds decides between the middle, the least and the greatest value as the rule does. |
| KdTrees.KdTree.FlattenAndRetry | verus/lib/alglib/src/alglibmisc.cpp:3872-3888 | A column of equal values: the box is flattened there and the recursion has one extended dimension less. |
| KdTrees.KdTree.GenerateSplit | verus/lib/alglib/src/alglibmisc.cpp:3950-3978 | The split node and its two subtrees, each non-empty and on its side. |
| KdTrees.KdTree.Divide | verus/lib/alglib/src/alglibmisc.cpp:3889-3949 | Both parts are non-empty and on the correct sides of a split inside the box, which is the middle if rows lie on both sides of it and else the row nearest to it. |
| KdTrees.KdTree.SplitRows | verus/lib/alglib/src/alglibmisc.cpp:3674-3743 | The in-place partition: a permutation with values up to s first. |
| KdTrees.KdTree.ScanColumn | verus/lib/alglib/src/alglibmisc.cpp:3841-3871 | Least and greatest value with their rows, and whether any lies on either side. |
| KdTrees.KdTree.LongestDimension | verus/lib/alglib/src/alglibmisc.cpp:3814-3824 | A dimension of greatest extent. |
| KdTrees.KdTree.FindBoundingBox | verus/lib/alglib/src/alglibmisc.cpp:2956-2968 | The smallest box of all rows: each bound is reached by a row. |
| KdTrees.KdTree.QueryAKNN | verus/lib/alglib/src/alglibmisc.cpp:3162-3230 | Ascending results that are the best k of all rows for the factor of eps. |
| KdTrees.KdTree.QueryRNN | verus/lib/alglib/src/alglibmisc.cpp:3059-3124 | Ascending results that are all rows within the radius. |
| KdTrees.NearestMatchScan | verus/lib/alglib/src/alglibmisc.cpp:3162-3230 | A nearest-neighbour query returns as many rows as the scan has, up to k, the i-th within the factor of eps of the i-th smallest distance of the scan, and equal to it for eps = 0. Each result is a row of the tree at that distance, none twice. |
| KdTrees.InRangeMatchScan | verus/lib/alglib/src/alglibmisc.cpp:3059-3124 | A radius query returns exactly the rows of the scan, in order of distance; each is a row of the tree at that distance, none twice. |
| KdTrees.KdTree.QueryRec | verus/lib/alglib/src/alglibmisc.cpp:3987-4254 | Afterwards the heap is the best of the rows seen before and those of the subtree; box and distance are restored. |
| KdTrees.KdTree.VisitChild | verus/lib/alglib/src/alglibmisc.cpp:4139-4251 | One child: entered with its box and distance, searched or skipped, restored. |
| KdTrees.KdTree.SearchOrSkip | verus/lib/alglib/src/alglibmisc.cpp:4206-4237 | Searched or pruned, the heap is the best of all rows of the subtree. |
| KdTrees.KdTree.EnterHalf | verus/lib/alglib/src/alglibmisc.cpp:4158-4205 | The kept distance is the distance to the current box, before and after. |
| KdTrees.KdTree.ProcessRow | verus/lib/alglib/src/alglibmisc.cpp:4022-4099 | One row: own match, radius, push, replacement or rejection keep the best seen. |
| KdTrees.KdTree.PointDistance | verus/lib/alglib/src/alglibmisc.cpp:4026-4048 | The three loops compute the distance of the norm. |
| KdTrees.KdTree.InitBox | verus/lib/alglib/src/alglibmisc.cpp:4265-4350 | The three loops start the kept distance as that to the bounding box. |
| TagHeap.Push | verus/lib/alglib/src/alglibinternal.h:407-412 | Keeps the heap and adds the entry. |
| TagHeap.ReplaceTop | verus/lib/alglib/src/alglibinternal.h:413-418 | Keeps the heap and replaces the greatest entry by the new one. |
| TagHeap.Pop | verus/lib/alglib/src/alglibinternal.h:419-422 | Moves the greatest entry behind a heap of the others. |
| TagHeap.SortHeap | verus/lib/alglib/src/alglibmisc.cpp:3223-3229 | Popping to the end sorts ascending, a permutation. |
| TagHeap.TopIsMax | verus/lib/alglib/src/alglibinternal.h:407-422 | The first entry of a heap is the greatest. |
| HqrndPeriods.FirstGenerates | verus/lib/alglib/src/alglibmisc.cpp:2723-2754 | The powers of 40014 run through all remainders modulo 2147483563 but zero. |
| HqrndPeriods.SecondGenerates | verus/lib/alglib/src/alglibmisc.cpp:2723-2754 | The powers of 40692 run through all remainders modulo 2147483399 but zero. |
| Hqrnds.AfterSteps | verus/lib/alglib/src/alglibmisc.cpp:2723-2754 | After any number of steps both seeds are in range and equal the power of the multiplier times the start, modulo m. |
| Hqrnds.Schrage | verus/lib/alglib/src/alglibmisc.cpp:2723-2754 | The step without division by m equals multiplication modulo m, and every intermediate value is below m. |
| Hqrnds.NeverZero | verus/lib/alglib/src/alglibmisc.cpp:2723-2754 | No seed ever becomes zero. |
| Hqrnds.NextOk | verus/lib/alglib/src/alglibmisc.cpp:2723-2754 | The output lies in [0, 2147483561]. |
| Hqrnds.OutputIs | verus/lib/alglib/src/alglibmisc.cpp:2723-2754 | The output is the difference of the seeds, less one, modulo 2147483562. |
| Hqrnds.NoBias | verus/lib/alglib/src/alglibmisc.cpp:2488-2512 | Up to 2147483562, every result below n has the same number of accepted base values. |
| Hqrnds.OnePair | verus/lib/alglib/src/alglibmisc.cpp:2427-2486 | Beyond that, every result below n comes from exactly one accepted pair, and a pair is accepted exactly when it gives a result below n. |
| Hqrnds.UniformInRange | verus/lib/alglib/src/alglibmisc.cpp:2409-2512 | The assertions fail exactly for n <= 0 or too many bins; otherwise a number in [0, n) is returned, from every pair of seeds. Which one is in `SmallIs` and `LargeIs`. |
| HqrndLaws.SmallIs | verus/lib/alglib/src/alglibmisc.cpp:2409-2512 | For n up to the number of base values: the first base value below the largest multiple of n, modulo n, is returned, and the seeds are those after it. |
| HqrndLaws.LargeIs | verus/lib/alglib/src/alglibmisc.cpp:2409-2512 | For larger n: rounds of an offset and a bin, each drawn so, go on until offset + count * bin is below n; that is returned, and the seeds are those after the last round. |
| HqrndLaws.ReturnsIff | verus/lib/alglib/src/alglibmisc.cpp:2409-2512 | A number is returned if and only if n is from 1 to the square of the number of base values. |
| HqrndLaws.SmallUnbiased | verus/lib/alglib/src/alglibmisc.cpp:2409-2512 | Every result has the same number of accepted base values, and is returned exactly when the first accepted one is among its own. |
| HqrndLaws.LargeUnbiased | verus/lib/alglib/src/alglibmisc.cpp:2409-2512 | Every result has exactly one pair, and is returned exactly when the last round draws it. |
| Hqrnds.DrawTakesFirst | verus/lib/alglib/src/alglibmisc.cpp:2488-2512 | What is drawn is the first base value not rejected, and there is only one. |
| Hqrnds.DrawEnds | verus/lib/alglib/src/alglibmisc.cpp:2488-2512 | From any seeds some base value is accepted, for every n up to 2147483562: the rejection loop ends. |
| Hqrnds.Opposite | verus/lib/alglib/src/alglibmisc.cpp:2723-2754 | After (m1-1)/2 * (m2-1)/2 steps both seeds are negated. |
| Hqrnds.Reaches | verus/lib/alglib/src/alglibmisc.cpp:2723-2754 | From any seeds the generator comes to every first seed together with every second seed or its negative. |
| Hqrnds.ZeroComes | verus/lib/alglib/src/alglibmisc.cpp:2723-2754 | From any seeds the base value 0 comes. |
| Hqrnds.PairNearsZero | verus/lib/alglib/src/alglibmisc.cpp:2470-2486 | A pair that is drawn again has not passed the next base value 0, so the pair loop ends. |
| Hqrnds.DrawPair | verus/lib/alglib/src/alglibmisc.cpp:2470-2486 | The first pair that is accepted, which always comes, gives a number in [0, n). |
| Hqrnds.HqrndState.constructor | verus/lib/alglib/src/alglibmisc.cpp:2345-2375 | Any seeds, negative ones too, are brought into range. |
| Hqrnds.HqrndState.IntegerBase | verus/lib/alglib/src/alglibmisc.cpp:2723-2754 | Computes the step and its output, in [0, 2147483561] and one less than the difference of the new seeds modulo 2147483562, all intermediates inside 32 bits. |
| Hqrnds.HqrndState.UniformSmall | verus/lib/alglib/src/alglibmisc.cpp:2488-2512 | The rejection loop ends and computes `Draw`. |
| Hqrnds.HqrndState.UniformInteger | verus/lib/alglib/src/alglibmisc.cpp:2409-2512 | Both branches and both assertions, as in `Uniform` (whose meaning is in `SmallIs` and `LargeIs`); both loops end, for every n, and the result is in [0, n). |
| OcbContexts.Context.Encrypt | alfalfa/src/crypto/ocb.cc:831-1013 | Called any number of times with 64-byte multiples and then a final piece, in any state of the caches, the ciphertext pieces and the tag are those of OCB3 (section 4.2 of RFC 7253) on the whole message and associated data. |
| OcbContexts.Context.Decrypt | alfalfa/src/crypto/ocb.cc:1017-1206 | Likewise (section 4.3): the pieces are the plaintext, and the final status is the length exactly when the tag is right. |
| OcbContexts.EncryptInPieces | alfalfa/src/crypto/ocb.cc:831-1013 | Every split into 64-byte multiples gives the ciphertext and tag of the whole message. |
| OcbContexts.SealAndOpen | alfalfa/src/crypto/ocb.cc:831-1206 | Decrypting what was encrypted under the same key and nonce accepts and returns the plaintext, for any text and associated data below 2^20 bytes. |
| OcbContexts.Context.constructor | alfalfa/src/crypto/ocb.cc:640-682 | The key-dependent table is L_*, L_$ and L_0 to L_15 of section 4.1, and the cache is consistent. |
| OcbContexts.Context.GenOffsetFromNonce | alfalfa/src/crypto/ocb.cc:687-711 | The initial offset is the RFC's, whether or not the cached top was used, whatever calls came before. |
| OcbContexts.Context.ProcessAd | alfalfa/src/crypto/ocb.cc:713-826 | The checksum is HASH of all associated data so far. |
| OcbContexts.Context.EncryptBatches | alfalfa/src/crypto/ocb.cc:864-918 | Four blocks at a time: the same blocks, offset and checksum as the recursion. |
| OcbContexts.Context.EncryptTail | alfalfa/src/crypto/ocb.cc:920-992 | The last up to 63 bytes, the partial block included, and the tag. |
| OcbContexts.Context.DecryptBatches | alfalfa/src/crypto/ocb.cc:1058-1111 | Four blocks at a time, the checksum over the plaintext. |
| OcbContexts.Context.DecryptTail | alfalfa/src/crypto/ocb.cc:1113-1185 | The last up to 63 bytes and the tag to compare with. |
| OcbContexts.Context.HashBatches | alfalfa/src/crypto/ocb.cc:723-766 | Four blocks of associated data at a time. |
| OcbContexts.Context.HashTail | alfalfa/src/crypto/ocb.cc:768-825 | The last up to 63 bytes of associated data. |
| OcbContexts.TableSuffices | alfalfa/src/crypto/ocb.cc:57-67 | Below 2^20 bytes no block asks for an L beyond the table. |
| OcbSpec.RoundTrip | alfalfa/src/crypto/ocb.cc:831-1206 | Decryption of an encryption is the plaintext, accepted. |
| OcbSpec.AcceptsOnlySealed | alfalfa/src/crypto/ocb.cc:1017-1206 | A sealed text is accepted if and only if it is the encryption of what it decrypts to. |
| OcbSpec.TextRoundTrip | alfalfa/src/crypto/ocb.cc:831-1206 | Enciphering and deciphering undo each other, in both orders, from any offset. |
| OcbSpec.MessageContinues | alfalfa/src/crypto/ocb.cc:861-918 | A message may be cut after whole blocks and continued from the offset and checksum reached. |
| OcbSpec.HashRestContinues | alfalfa/src/crypto/ocb.cc:713-826 | The same for associated data. |
| OcbBlocks.DoubleBlockRefines | alfalfa/src/crypto/ocb.cc:311-316 | The two-word doubling is doubling in GF(2^128) on the block as a number. |
| OcbBlocks.OffsetRefines | alfalfa/src/crypto/ocb.cc:287-297 | The shifts of the three cached words are the 128 bits of the stretched top at the bottom bits. |
| OcbBlocks.ThirdWordIsXor | alfalfa/src/crypto/ocb.cc:705-708 | The third word is the first xored with the window eight bits on. |
| QueueGangs.Fairness | alfalfa/src/network/queue-gang.cc:109-137 | The corollary for flows of one packet size each: the bytes charged to two that wait throughout any run differ by less than 3 * 1434. |
| QueueGangs.FairFromStart | alfalfa/src/network/queue-gang.cc:109-137 | So over any stretch of a run from the empty gang in which two flows wait throughout. |
| QueueGangs.ChargedDifference | alfalfa/src/network/queue-gang.cc:109-137 | For any packet sizes, over any run in which two flows wait throughout, the exact difference in charged bytes: a quantum for whose turn it was and is, a quantum for each in surplus (further ones less turns started without one), and the credits at both ends. |
| QueueGangs.ServeAlternates | alfalfa/src/network/queue-gang.cc:109-137 | Turns of two waiting flows alternate strictly, whatever the sizes of their packets. |
| QueueGangs.FairButForSurplus | alfalfa/src/network/queue-gang.cc:109-137 | For any packet sizes the charged bytes differ by less than 3 * 1434 from the quanta in surplus. |
| QueueGangs.FurtherQuantumIff | alfalfa/src/network/queue-gang.cc:115-135 | Within a turn a flow gets a further quantum if and only if (size of its packet sent last) <= credit < (size of its first packet), both known before the call. |
| QueueGangs.QuantaOverRun | alfalfa/src/network/queue-gang.cc:109-137 | Over any run: quanta are turns, less those started with credit enough, and the further ones. |
| QueueGangs.TurnsOverRun | alfalfa/src/network/queue-gang.cc:109-137 | Over any run: a waiting flow is charged its quanta but for the change of its credit, and turns alternate. |
| QueueGangs.NoSurplus | alfalfa/src/network/queue-gang.cc:109-137 | With one packet size per flow no quantum is ever in surplus. |
| QueueGangs.MixedSizesCanStarve | alfalfa/src/network/queue-gang.cc:132-135 | The input: one byte, then packets of 434 and 1000 bytes in turn; after 2n + 1 services the flow was charged 1434n + 1 bytes and another, waiting all the time, nothing, for every n. |
| QueueGangs.GangAlwaysOk | alfalfa/src/network/queue-gang.cc:58-137 | Over every run with packets of 1 to 1434 bytes and no stranding drop the active list has no duplicates and is exactly the flows with packets, 0 <= credit < 1434, and no assertion fails. |
| QueueGangs.GangFromStart | alfalfa/src/network/queue-gang.cc:58-137 | So over every such run from the empty gang. |
| QueueGangs.ShortAlwaysOk | alfalfa/src/network/queue-gang.cc:109-137 | With one packet size per flow, a flow that waits for its turn never has credit for a packet, over every run. |
| QueueGangs.GetKeeps | alfalfa/src/network/queue-gang.cc:109-137 | Taking a packet never fails and keeps all of that. |
| QueueGangs.EnqueKeepsIff | alfalfa/src/network/queue-gang.cc:58-88 | An arrival succeeds, and keeps all of that if and only if the Sprout discipline does not drop the only packet of another flow. |
| QueueGangs.SproutDropCanStrand | alfalfa/src/network/queue-gang.cc:69-75 | The input: such a drop leaves a flow active without packets, and the next packet cannot be served: its assertion fails. |
| QueueGangs.StrandedHeadFails | alfalfa/src/network/queue-gang.cc:69-75 | Whenever the only packet of the flow in turn is dropped the next service fails. |
| QueueGangs.QueueGang.EnquePacket | alfalfa/src/network/queue-gang.cc:58-88 | Computes `Enque`; not ok exactly when an assertion or lookup fails. |
| QueueGangs.QueueGang.GetNext | alfalfa/src/network/queue-gang.cc:109-137 | Computes `GetNextPacket` (what it hands out is in `ServeTakesNext`, what it does to the controllers in `ServeKeepsServos`): credit, dequeue, rotation or retirement. |
| QueueGangs.QueueGang.AggregateLength | alfalfa/src/network/queue-gang.cc:17-22 | The bytes waiting in all flows. |
| QueueGangs.QueueGang.LongestQueue | alfalfa/src/network/queue-gang.cc:24-31 | The first flow with the most bytes waiting. |
| QueueGangs.QueueGang.CreateNewQueue | alfalfa/src/network/queue-gang.cc:40-51 | A new flow starts empty, without credit and inactive. |
| QueueGangOrders.InOrderOverRun | alfalfa/src/network/queue-gang.cc:58-137 | Over every run that no assertion stops, and for every flow: the packets that left, in order, followed by those queued are those queued at first and those that arrived, in order; what the services returned while the flow was in turn is, in order, the contents of those that left and were not dropped. With the Sprout discipline as many were dropped as arrivals over the limit found the flow the longest. |
| QueueGangOrders.ServeTakesNext | alfalfa/src/network/queue-gang.cc:90-137 | A service hands out the contents of the first packet of the flow in turn, or of the one behind those CoDel drops, removes these, and touches no other queue. |
| QueueGangOrders.ArrivalQueues | alfalfa/src/network/queue-gang.cc:58-80 | An arrival goes to the end of its queue; over the limit exactly one packet is dropped, from the front of the first flow with the most bytes. |
| QueueGangLines.FlowIsLine | alfalfa/src/network/queue-gang.cc:40-137 | Over every run with the CoDel discipline, from any gang: each flow is a CoDel queue of its own, fed with exactly its arrivals and the dequeues while it is in turn; its packets, its controller and what it hands out are those of that queue. |
| QueueGangLines.FlowsAreLines | alfalfa/src/network/queue-gang.cc:40-137 | So from the empty gang what holds of one queue (`LineFromStart`) holds of every flow: order, what is handed out, and which packets may be dropped. |
| QueueGangLines.StandingFlowDrops | alfalfa/src/network/queue-gang.cc:40-137 | A flow that is above target at each of its dequeues, two of them 200 ms apart, has lost a packet: fewer were handed out or are queued than arrived. |
| QueueGangLines.ServeKeepsServos | alfalfa/src/network/queue-gang.cc:109-137 | A service leaves the flow in turn with the queue and the controller that its dequeue leaves, and changes no other. |
| Codels.LineAlwaysOk | alfalfa/src/network/codel.cc:3-70 | Over every run: what was taken followed by what is queued is what was enqueued, in order; what was returned is, in order, what was taken and not dropped; every packet dropped was at least 5 ms old, with at least 1500 bytes left, at least 100 ms after a dequeue since which every dequeue was so. |
| Codels.LineFromStart | alfalfa/src/network/codel.cc:3-70 | So over every run of a queue that starts empty, with the target time waited by every packet dropped. |
| Codels.DequeKeeps | alfalfa/src/network/codel.cc:28-70 | One dequeue with its drops keeps that; the loop ends. |
| Codels.DequeHandsOn | alfalfa/src/network/codel.cc:28-70 | A dequeue returns the one packet it took and did not drop, or nothing from a queue that ran empty. |
| Codels.DropLoopKeeps | alfalfa/src/network/codel.cc:37-54 | The drop loop, any number of rounds. |
| Codels.DroppedHadWaited | alfalfa/src/network/codel.cc:3-25 | A dropped packet waited at least the target. |
| Codels.StartsDroppingIff | alfalfa/src/network/codel.cc:28-70 | Outside the dropping state a dequeue drops one packet, and goes on dropping with the count and time that go with it, if and only if the first packet is not empty, had waited 5 ms with 1500 bytes behind it, the time set when that began has come, and now is within 100 ms after the last drop time or at least 100 ms after that time; otherwise it drops none. |
| Codels.DropsWhileDue | alfalfa/src/network/codel.cc:37-54 | In the dropping state exactly the packets before the first that is not due, or whose drop time by the control law has not come, are dropped; dropping goes on if and only if that one is due. |
| Codels.StandingQueueDrops | alfalfa/src/network/codel.cc:3-70 | Over every run from a line that is not dropping in which each dequeue finds the queue above target: two dequeues 200 ms apart leave a dropped packet. |
| Codels.CodelController.DequePacket | alfalfa/src/network/codel.cc:28-70 | Computes `Deque` on the queue (when it drops is in `StartsDroppingIff` and `DropsWhileDue`), and counts the drops. |
| Codels.CodelController.DoDeque | alfalfa/src/network/codel.cc:3-25 | Computes `Pop`: the packet, whether it may be dropped, and the time from which it was above target. |
| Codels.IngressQueue.Enque | alfalfa/src/network/ingress-queue.h:35-38 | Appends, and the byte counter stays the sum of the lengths. |
| Codels.IngressQueue.Deque | alfalfa/src/network/ingress-queue.h:25-33 | Takes the first packet or an empty one, and keeps the counter. |
| LinkEmulators.DelayQueue.Tick | alfalfa/src/examples/cellsim.cc:144-228 | Keeps: 1500 times the opportunities used is bytes delivered, earned in limbo and wasted; bytes are wasted only when nothing released is waiting; delivered, limbo, queue and delay together are what was written, in order; nothing leaves before its release. Exactly the opportunities after the time stay scheduled. The bytes of those used are played to the packets released by then, in order (`Played`): a prefix is delivered, the next has earned part of its size, and bytes are wasted only after all. |
| LinkEmulators.PlayedOnce | alfalfa/src/examples/cellsim.cc:144-228 | Without empty packets there is only one such outcome. |
| LinkEmulators.SoonerIsLeastIff | alfalfa/src/examples/cellsim.cc:104-125 | The time returned is the least to any opportunity or release, if and only if neither first one, stored in 32 bits, is taken for one too soon. |
| LinkEmulators.DelayQueue.Write | alfalfa/src/examples/cellsim.cc:137-142 | Appends the packet with its release time and keeps all of that. |
| LinkEmulators.DelayQueue.Read | alfalfa/src/examples/cellsim.cc:127-135 | Returns exactly what was delivered since the last read. |
| LinkEmulators.DelayQueue.WaitTime | alfalfa/src/examples/cellsim.cc:104-125 | The assertion holds if and only if the first opportunity after the tick, among those scheduled before the call, is modulo 2^32 less than 2^31 ms away; then the time returned is that to this opportunity or to the first release, whichever is sooner. |
| LinkEmulators.NearSchedule | alfalfa/src/examples/cellsim.cc:119-122 | Opportunities less than 2^31 ms ahead never fail the assertion. |
| LinkEmulators.FarOpportunity | alfalfa/src/examples/cellsim.cc:119-122 | The input: a trace whose first line is 2^31 up to 2^32 ms ahead fails it on the first call. |
| LinkEmulators.DelayQueue.ServeLimbo | alfalfa/src/examples/cellsim.cc:162-181 | The packet in limbo is delivered or earns the whole opportunity; both assertions hold. |
| LinkEmulators.DelayQueue.ServeQueue | alfalfa/src/examples/cellsim.cc:183-219 | Whole packets are delivered and one may enter limbo until the opportunity is used up. |
| Reassemblies.CompleteIff | alfalfa/src/network/reassembly.cc:50-58 | The hole list is empty if and only if all pieces arrived, and then the buffer starts with the packet. |
| Reassemblies.PieceArrives | alfalfa/src/network/reassembly.cc:20-48 | A new piece of a partition, in any order: taking it out of its hole keeps holes disjoint and covering exactly the missing positions. |
| Reassemblies.DuplicateArrives | alfalfa/src/network/reassembly.cc:20-48 | A piece seen before changes nothing. |
| Reassemblies.PieceInHole | alfalfa/src/network/reassembly.cc:20-48 | A missing piece lies in one hole, the last one in the hole that reaches the end. |
| Reassemblies.Reassembly.AddFragment | alfalfa/src/network/reassembly.cc:8-48 | Any fragment: holes are those of the walk, the buffer is replaced unless the offset is past its end. For pieces that partition a packet the record goes on tracking them, and the replacement is out of range if and only if the id was asked about before its first piece and a piece before this one is missing. |
| Reassemblies.Reassembly.PunchHoles | alfalfa/src/network/reassembly.cc:20-44 | The loop, for any list, is `Walk`. |
| Reassemblies.WalkClearsIff | alfalfa/src/network/reassembly.cc:20-44 | The walk leaves no hole that the fragment overlaps if and only if no two such holes are next to each other in the list. |
| Reassemblies.WalkCovers | alfalfa/src/network/reassembly.cc:20-44 | For any list: a position that the fragment leaves open stays covered by the walk; when no two overlapped holes are next to each other in the list, no other position does. |
| Reassemblies.HolesCover | alfalfa/src/network/reassembly.cc:8-44 | After any run of overlapping fragments of one packet the holes cover every position still missing; in a run in which no fragment meets two overlapped holes next to each other they cover no other. |
| Reassemblies.NoHolesIff | alfalfa/src/network/reassembly.cc:8-58 | Without holes every byte arrived; in such a run the other way round too. |
| Reassemblies.ReceiveParts | alfalfa/src/network/reassembly.cc:8-58 | Fragments of one packet in any order, overlapping and repeated in any way: it is handed out only when every byte arrived, and then starts with the packet; in a run as above exactly then. |
| Reassemblies.PieceWalks | alfalfa/src/network/reassembly.cc:20-48 | For a piece of a partition the walk takes the one hole it lies in, or none. |
| Reassemblies.OverlapCanLeaveHole | alfalfa/src/network/reassembly.cc:20-48 | The input: positions 10-19, 0-29 and 30-39 arrive, every byte is in the buffer, and the packet is not handed out. |
| Reassemblies.Reassembly.ReadyToDeliver | alfalfa/src/network/reassembly.cc:50-58 | The buffer when all pieces arrived. An incomplete packet is handed out if and only if the id was asked about before its first piece and some but not all pieces arrived. |
| Reassemblies.AskedFirst | alfalfa/src/network/reassembly.cc:50-58 | The input: asked about first, a packet of several pieces is handed out when only one arrived. |
| Reassemblies.AskedFirstFails | alfalfa/src/network/reassembly.cc:46-48 | Or the first fragment to arrive, if it is not the first piece, is out of range. |
| Reassemblies.GrowsOn | alfalfa/src/network/reassembly.cc:46-48 | In a buffer that started empty the pieces arrived are a prefix in order, and an offset is past its end exactly when one before is missing. |
| SproutAccounting.LinkAlwaysOk | alfalfa/src/sprout/receiver.cc:151-177 | Over any losing, reordering, non-duplicating network the received-or-lost count lies between 0 and the sender's next number. |
| SproutAccounting.QueueEstimate | alfalfa/src/network/sproutconn.cc:66-81 | A count reported earlier never exceeds the next number later; the 32-bit estimate is their difference below 2^31 bytes, and the assertion holds if and only if the difference modulo 2^32 is below 2^31. |
| SproutAccounting.EstimateCanFail | alfalfa/src/network/sproutconn.cc:66-81 | The input: 1441266 payloads of 1440 bytes sent since the count was reported make it negative. |
| SproutAccounting.CountIsMonotone | alfalfa/src/sprout/receiver.cc:157-177 | While no window is saturated the count never decreases. |
| SproutAccounting.CountNeverDecreases | alfalfa/src/sprout/receiver.cc:151-177 | The same for one event. |
| SproutAccounting.CountDropsIff | alfalfa/src/sprout/receiver.cc:151-177 | An arrival lowers the count if and only if the packets it throws away hold more bytes than the numbers it skips and its own length, which takes a saturated window. |
| SproutAccounting.SaturationCanDecrease | alfalfa/src/sprout/receiver.cc:151-177 | The input: 44 payloads of 1440 bytes and an empty one are sent within 10 ms, and only the first and the last arrive; the count goes from 1440 to 25. |
| SproutAccounting.SkippedIff | alfalfa/src/sprout/receiver.cc:151-155 | With unsaturated windows a packet lies before the mark, given up as received or lost, if and only if some packet that arrived was sent more than 10 ms after it. |
| SproutAccounting.SkippedIsOld | alfalfa/src/sprout/receiver.cc:151-155 | With unsaturated windows only packets sent more than 10 ms before one already received are skipped. |
| SproutAccounting.EventKeeps | alfalfa/src/network/network.cc:98-118 | Numbers are byte offsets, windows reach back to the first packet at most 10 ms old, and the receiver's mark is one of them. |
| SproutAccounting.SendQueue.Add | alfalfa/src/network/network.cc:535-553 | Exactly the stamps before the first one at most 10 ms old go; the window reaches to the oldest left, at most 65535. |
| SproutAccounting.RecvQueue.Recv | alfalfa/src/sprout/receiver.cc:151-155 | The mark rises to the packet's number less its window. |
| SproutAccounting.RecvQueue.PacketCount | alfalfa/src/sprout/receiver.cc:157-177 | The mark plus the bytes of all packets from there on, whatever was popped. |

## Left out

State synchronisation
- SspTheorems.CanAlwaysCatchUp: excludes a receiver whose list is over 1024 states after the throwaway, where the source discards what arrives, and a sender about to reach the last number.
- SspTheorems.RunKeeps: the runs are those without an empty acknowledgment that loses events; `TickKeepsAgreementIff` says exactly which ticks those are.
- SspLosses.LosingTickBreaks: for a peer that holds the state the tick takes as known, not one that could still get it; and not for a party that is shutting down, which pushes nothing more.
- SspPackets.ExactlyOnceOverPackets: the runs are those of `RunKeeps` in which every instruction fits the wire (`PostIff` says exactly which do) and fewer than 2^64 are sent.
- Fragments.Fragmenter.MakeFragments: instruction ids are not wrapped at 64 bits.
- SspTimers.TickSendsIff: clock readings are below 2^64 - 1, which stands for never.
- 64-bit wrap-around of clocks and state numbers; counters and printing.
- Sockets and `Session` encryption; how protobuf serialises an instruction, which is a parameter that parsing undoes.
- `attempt_prospective_resend_optimization`, which the send path does not call, and shutdown time-outs.

Terminal
- Displays.NewFrame: frames of narrow, non-fallback, non-wrapped cells whose empty cells carry only a background; the wide, fallback and wrap-flag paths have no clean equality. A bell is written when the counts differ, but neither the counts nor window titles are compared.
- ControlFunctions.Perform: which character or sequence selects which function is a table, and the table is the only definition of that.
- Decoding UTF-8 (input is characters), replies to the host, user input, posterizing.

Nearest neighbours and random integers
- KdTrees.KdTree.Build: distances and splits are reals, so rounding is not modelled; a matrix row and its tag are one record; the two-round loop over children is two calls.
- Serialization, the square root of the distances for the Euclidean norm, output buffers that are too small, real and normal variates, and the wrapper classes.

OCB3
- OcbContexts.Context.Encrypt: for texts below 2^20 bytes, as the source's table size demands; buffers are values, so encryption in place over aliased buffers is not modelled; words are in register order, without byte swaps.
- OcbContexts.Context.Decrypt: the same.
- AES and its key schedule, the vector and assembler variants of the block operations and eight blocks per call.
- `ae_init` with another nonce length, which returns an error, and `Session`, whose encryption does not call these functions.

Queues and links
- Codels.LineAlwaysOk: the control law is an arbitrary function; 32-bit wrap-around of the drop count is not modelled.
- QueueGangs.Fairness: for one packet size per flow, since the rotation test looks at the packet just sent; `FairButForSurplus` is for all sizes. Flow classification is a parameter.
- LinkEmulators.DelayQueue.Tick: the per-second statistics it prints are not modelled.
- Reassemblies.Reassembly.AddFragment: tracking of pieces is for those that partition a packet; overlapping ones are in `ReceiveParts`, and of any others the new holes and buffer are stated.
- Reassemblies.ReceiveParts: empty fragments are not part of the run; `AddFragment` states what they do.
- SproutAccounting.QueueEstimate: the decay of the estimate and `window_size` are not modelled, nor is the 32-bit sum inside a count, nor Sprout's inference.
- The server, client, flow and Verus programs: sockets, timers, threads and process control.
