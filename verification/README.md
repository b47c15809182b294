# Looschen Datenbereitstellung: verification model

The service reads CNC projects from disk, sends them to a PLC over OPC UA in blocks, and shows
a preview of the tool path in a browser. This project models the parts of it that carry real
arguments and proves what they promise, for all inputs and all runs.

| file | models |
|---|---|
| `Text.dfy`, `Decimal.dfy`, `Reals.dfy`, `Arith.dfy`, `Int16.dfy` | words and lines, `std::stod` on decimals, products, `int16_t` |
| `ArcFlatten.dfy`, `Numbers.dfy` | the line rewriter that turns small arcs into lines, and what its numbers mean |
| `GCode.dfy`, `Reading.dfy`, `GCodeFile.dfy`, `FileReading.dfy` | the G-code reader of lines and files, what lines and files mean, and the command form of flattening |
| `Records.dfy`, `Transfer.dfy` | counting records, reading them in blocks, sending them |
| `Delivery.dfy`, `Counterexamples.dfy` | what a completed transfer delivers against what the preview draws, and where they differ |
| `Fit.dfy`, `Sweep.dfy`, `Preview.dfy` | fitting a path to the canvas, the test run, the preview jobs |
| `PlcWorker.dfy`, `PlcSafety.dfy`, `PlcRuns.dfy`, `PlcReaction.dfy`, `PlcDialling.dfy`, `PlcExamples.dfy` | the connection thread, its watchdog, the PLC, the settings editor and shutdown as one state machine |
| `Handles.dfy`, `HandleRef.dfy`, `PropertyList.dfy` | reference-counted handles and the property list transfer |
| `PackBgr.dfy` | packing colour planes into pixels with a row pitch |
| `Endpoint.dfy` | splitting an endpoint URL |

Code that works step by step is modelled by methods with loops, arrays and classes that are
proved against specification functions; the laws are lemmas about those functions. Numbers of type
`double` are reals. `hypot(I, J) < t` is decided on squares, and `SmallArcIsRadiusTest` shows that
any nonnegative root gives the same decision. Clock readings, the moment of a stop request, answers
of OPC UA and C library calls and the order of thread steps are free inputs.

## Where the code and its comments part

- The header of the line rewriter says that what is shown and what is sent behave identically. The
  logic is the same, its threshold is not: the transfer takes it from the PLC variable `minArcRadius`,
  0 if that cannot be read (src/CNC_Daten/cnc_projekt_manager.cpp:161-162), the preview from the web
  setting `previewMinArcRadius` (src/main.cpp:306, 370, 426), and nothing keeps the two equal. So
  everything is stated for a threshold `a` of the transfer and a threshold `b` of the preview.
- For any line what is shown and what is sent agree exactly under `GCode.FormsAgreeOn`. A line the
  preview accepts as an arc and the transfer does not rewrite must not be flattened by the preview
  either. A line it accepts and the transfer rewrites must not turn into a comment; if an arc word
  decides its type, that must be the last arc word, and the preview must flatten it too. With one
  threshold only the conditions on rewritten lines remain (`GCode.OneThreshold`). A line the preview
  rejects is sent all the same; what is sent draws nothing exactly if the line is not rewritten, or
  becomes a comment, or keeps no motion word, or keeps an X or Y word without a number.
- A whole file is delivered as it is shown exactly if all its records meet this and its first line,
  which is never sent, is no command (`Delivery.DeliveryDrawsThePreview`). `Counterexamples.dfy` has
  an input for each way to fail.
- Record indices are said to count like the transfer's records. The reader counts the first line, the
  transfer skips it, so they agree exactly when the first line is blank (`Records.NumberingsAgree`).
- `ReadProjekt` is cleared after the transfer. A raise of it is lost exactly if it is made during a
  transfer whose clearing then succeeds (`PlcRuns.TransferLoses`), which happens
  (`PlcExamples.RequestIsLostInARun`); the other two bits never lose one.
- An edit between reading the settings and reading their revision, two separate steps here, is missed
  if it leaves other settings (`PlcRuns.EditBetweenReadsIsMissed`, `PlcExamples.EditIsMissedInARun`);
  under an unchanged revision nothing else makes the settings in use differ from the stored ones
  (`PlcRuns.SettingsAreCurrent`).

## Model

| member | source | states |
|---|---|---|
| `Text.SpacesOfC` | include/CNC_Daten/arc_flatten.h:89-94 | the characters that separate words |
| `Text.Tokenize` | include/CNC_Daten/arc_flatten.h:89-94 | the extraction loop yields exactly the words of the line |
| `Text.TokensOfJoin` | include/CNC_Daten/arc_flatten.h:143-167 | words joined by single blanks read back as the same words |
| `ArcFlatten.SmallArcIsRadiusTest` | include/CNC_Daten/arc_flatten.h:29-43 | with any root that hypot may return, the threshold test is the test on squares |
| `ArcFlatten.ParseValueInPlace` | include/CNC_Daten/arc_flatten.h:46-57 | replacing commas in place and parsing gives the decimal value, 0 on failure |
| `Numbers.PrintedReadsBack` | include/CNC_Daten/arc_flatten.h:45-57 | a whole number, printed digit by digit, reads back as itself, with a minus sign as its negative |
| `Numbers.CommaShifts` | include/CNC_Daten/arc_flatten.h:45-57 | moving the decimal comma or point one digit to the right multiplies the value by ten |
| `Numbers.CommaAtEnd` | include/CNC_Daten/arc_flatten.h:45-57 | a comma at the end and a zero in front change nothing |
| `Numbers.DecimalComma` | include/CNC_Daten/arc_flatten.h:45-51 | comma and point mean the same; signs give the value and its negative |
| `Numbers.ExponentShifts` | include/CNC_Daten/arc_flatten.h:45-57 | one more in the exponent is ten times the value, with a minus sign a tenth of it |
| `Numbers.RestIsIgnored` | include/CNC_Daten/arc_flatten.h:45-57 | text after a number that does not go on with it changes nothing |
| `Numbers.NumberOrNone` | include/CNC_Daten/arc_flatten.h:49-56 | there is a value exactly if, after blanks, a sign or none and a digit or a point and a digit follow; otherwise it is 0 |
| `ArcFlatten.GNumberLoop` | include/CNC_Daten/arc_flatten.h:60-70 | the zero-stripping loop yields the normalised G number |
| `ArcFlatten.GNumberMeaning` | include/CNC_Daten/arc_flatten.h:59-70 | a word has G number d exactly when it is G or g, any zeros, and d |
| `ArcFlatten.Scan` | include/CNC_Daten/arc_flatten.h:98-134 | the scan finds the last arc word and the values of the last I and J words |
| `ArcFlatten.Emit` | include/CNC_Daten/arc_flatten.h:142-167 | the output loop joins the rewritten words, including the skip after a lone letter |
| `ArcFlatten.FlattenArcLine` | include/CNC_Daten/arc_flatten.h:84-168 | the whole rewriter, early returns included, computes the flattened line |
| `ArcFlatten.RewrittenIsStable` | include/CNC_Daten/arc_flatten.h:142-167 | a rewritten line reads back as the emitted words and never fires again |
| `ArcFlatten.Absorption` | include/CNC_Daten/arc_flatten.h:84-168 | on every line, flattening with a and then b is flattening with the larger |
| `ArcFlatten.IdempotentAndOrderFree` | include/CNC_Daten/arc_flatten.h:84-168 | repeating a threshold changes nothing and the order of two does not matter |
| `ArcFlatten.FlattenedWords` | include/CNC_Daten/arc_flatten.h:73-78 | on every line that fires, exactly the I/J words and the word after each lone one go, the G word becomes G01, every other word stays verbatim and in order |
| `GCode.ReadsWhenNumbered` | src/CNC_Daten/gcode_parser.cpp:209-269 | the reader throws exactly where some X, Y, I or J word has no number |
| `GCode.SameOffsets` | src/CNC_Daten/gcode_parser.cpp:209-269 | on a line that reads without error the last word of each letter gives X, Y, I and J, for I and J as the rewriter takes them |
| `Reading.KindByLetters` | src/CNC_Daten/gcode_parser.cpp:135-160 | the type of a word by its letters: G or g, zeros, and 1, 2 or 3, or only zeros; no type otherwise |
| `Reading.FirstWordGivesType` | src/CNC_Daten/gcode_parser.cpp:176-207 | a line is skipped exactly if it opens a comment or no word spells a type; otherwise the first such word gives the type |
| `Reading.PrintedCommandReads` | src/CNC_Daten/gcode_parser.cpp:176-269 | a type word and address words, attached or apart, in either case, read back with exactly their numbers; unnamed coordinates keep the position |
| `Reading.PrintedArcReads` | src/CNC_Daten/gcode_parser.cpp:176-269 | every printed arc with whole-number coordinates is read back |
| `Reading.PrintedArcWords` | src/CNC_Daten/gcode_parser.cpp:244-269 | the words of that arc, its J apart from its number |
| `GCode.RewriteReads` | src/CNC_Daten/gcode_parser.cpp:209-269 | rewritten words read without error to the same X and Y, with I and J unset |
| `GCode.ReadSent` | src/CNC_Daten/gcode_parser.cpp:176-207 | how what is sent for any line that fires reads, in terms of its surviving words |
| `GCode.ReadRewritten` | src/CNC_Daten/gcode_parser.cpp:135-207 | for an accepted line: a comment, or a command of known type and the same end |
| `GCode.SkippedStaysSkipped` | src/CNC_Daten/gcode_parser.cpp:176-187 | a line without a command is sent as a line without a command |
| `GCode.RejectedFormsAgree` | src/CNC_Daten/cnc_projekt_manager.cpp:216-222 | what is sent for a line the reader rejects draws nothing exactly under its guard |
| `GCode.LineAndCommandFormsAgree` | src/CNC_Daten/cnc_projekt_manager.cpp:158-222 | for every line, position and pair of thresholds: the sent line draws what the preview draws, a flattened command or nothing, exactly when the guard holds |
| `GCode.OneThreshold` | include/CNC_Daten/arc_flatten.h:14-17 | with one threshold a command line that is not rewritten always agrees, a rewritten one exactly if it becomes no comment and, as an arc, is decided by its last arc word |
| `GCodeFile.ParseFile` | src/CNC_Daten/gcode_parser.cpp:41-97 | the reading loop yields the commands and error lines of the file |
| `FileReading.CommandIsItsLine` | src/CNC_Daten/gcode_parser.cpp:47-83 | every command is its line, read from where the command before it ended; its record index counts the nonblank lines before it |
| `FileReading.CommandLineIsRead` | src/CNC_Daten/gcode_parser.cpp:74-83 | every line that reads as a command has one |
| `FileReading.ErrorLinesAreRejected` | src/CNC_Daten/gcode_parser.cpp:85-92 | the error lines are exactly the numbers of the lines the reader rejects |
| `GCodeFile.CommandsNameTheirRecord` | include/CNC_Daten/gcode_parser.h:61-64 | record indices strictly increase and each names the nonblank line its command was read from |
| `GCodeFile.FlattenCommandsMM` | src/main.cpp:142-159 | the in-place loop retypes exactly the small arcs |
| `Records.CountRecords` | src/CNC_Daten/project_file_reader.cpp:16-44 | the counting loop counts the records |
| `Records.ReadDataBlock` | src/CNC_Daten/project_file_reader.cpp:123-176 | the loop with its early break returns exactly the records of the block |
| `Records.BlockCountCovers` | src/CNC_Daten/cnc_projekt_manager.cpp:152-154 | the block count is the least that covers every record |
| `Records.BlocksPartitionRecords` | src/CNC_Daten/cnc_projekt_manager.cpp:152-242 | the announced blocks hold every record once, in order, none empty or too long |
| `Records.NumberingsAgree` | include/CNC_Daten/gcode_parser.h:61-64 | preview and transfer number the same lines exactly when the first line is blank |
| `Records.CommandsAgainstRecords` | src/CNC_Daten/gcode_parser.cpp:43-83 | which transferred record a command's index belongs to, with the shift by the header line |
| `Transfer.FlattenBlock` | src/CNC_Daten/cnc_projekt_manager.cpp:216-222 | every line of a block is flattened, in place |
| `Transfer.SentSoFar` | src/CNC_Daten/cnc_projekt_manager.cpp:173-242 | blocks sent in order are the flattened prefix of the records |
| `Transfer.TransferBlocks` | src/CNC_Daten/cnc_projekt_manager.cpp:152-242 | whatever the PLC answers, the blocks asked for before the first failing poll go out once and in order with indices 1, 2, ...; complete exactly if they are all, aborted exactly if not and a poll fails; a completed transfer has delivered every flattened record |
| `Transfer.FirstFailureIsFirst` | src/CNC_Daten/cnc_projekt_manager.cpp:180-233 | the failing poll is the first with a dead link, a timeout, an abort, or a block that cannot be written |
| `Transfer.AnnouncedIsTrue` | src/CNC_Daten/cnc_projekt_manager.cpp:153-156 | the announced count is the true one exactly when it fits an INT |
| `Delivery.RecordStep` | src/CNC_Daten/cnc_projekt_manager.cpp:210-222 | one record, two thresholds: the pictures agree at it exactly under its guard, and a command that only one side draws is never made up for later |
| `Delivery.DeliveryDrawsThePreview` | src/main.cpp:424-427 | for every file and any two thresholds: reading the data delivered with one draws the commands flattened with the other, each at the record it belongs to, exactly when the first line is no command and every record meets the guard |
| `Delivery.CompletedTransferDrawsThePreview` | src/CNC_Daten/cnc_projekt_manager.cpp:158-242 | the same for the blocks of a transfer that has sent them all |
| `Counterexamples.RejectedLineIsSentAsLine` | include/CNC_Daten/arc_flatten.h:46-57 | a line the reader rejects that is sent as a G01 line |
| `Counterexamples.SecondArcStaysArc` | include/CNC_Daten/arc_flatten.h:98-134 | an accepted line shown as a line and sent as an arc |
| `Counterexamples.SmallArcAgrees` | src/main.cpp:424-427 | an arc of radius 1 is sent as shown exactly if both thresholds or none are above 1 |
| `Counterexamples.ThresholdsOfOneFile` | src/main.cpp:424-427 | a file delivered as shown with threshold 2 for both, and otherwise with the preview's default 0 |
| `Counterexamples.IndentedCommentIsLost` | src/CNC_Daten/gcode_parser.cpp:176-187 | a comment that is not in the first column is shown as a command and sent as a comment |
| `Counterexamples.FirstCommandIsNotSent` | src/CNC_Daten/project_file_reader.cpp:148-155 | a command on the first line is shown and never sent |
| `Fit.FitCommands` | src/main.cpp:98-135 | the two loops compute scale, offsets and scaled commands |
| `Fit.BoxHoldsPath` | src/main.cpp:107-114 | start and all endpoints lie in the computed box |
| `Fit.BoxIsTight` | src/main.cpp:107-114 | each side of the box is met by the start or an endpoint |
| `Fit.ScaleIsLargest` | src/main.cpp:115-119 | both spans fit the margin box at this scale and at no larger one |
| `Fit.FitsUpToScale` | src/main.cpp:105-119 | in terms of the points: a unit square and all distances on the path fit the margin box exactly up to the chosen scale |
| `Fit.FittedPathIsInside` | src/main.cpp:94-97 | start and endpoints land inside the margins, up to half a pixel |
| `Fit.FitBoundIsExact` | src/main.cpp:94-133 | every path lands inside exactly when the margins leave room in both directions |
| `Fit.FitIsCentred` | src/main.cpp:121-124 | the scaled box stands in the middle of the canvas, up to a pixel |
| `Fit.OutermostPointsCentred` | src/main.cpp:121-124 | what is left free beyond the outermost points on both sides differs by a pixel at most |
| `Fit.RoundHalvesAway` | src/main.cpp:123-124 | offsets are rounded to the nearest pixel, halves away from zero |
| `Fit.OffsetsFitInt` | src/main.cpp:123-124 | the offsets lie on the canvas, so the conversion to int is harmless |
| `Fit.FitIsSimilarity` | src/main.cpp:126-133 | starts, ends and arc centres are the originals times one positive scale, so arcs stay arcs |
| `Fit.FlattenCommutesWithFit` | src/main.cpp:424-433 | flattening before fitting is flattening after fitting with the scaled threshold, same offsets |
| `Sweep.RenderRange` | src/CNC_Daten/preview_renderer.cpp:182-203 | the loop paints exactly the range, nothing if it starts beyond its end, and returns the advanced position |
| `Sweep.ShadeMeaning` | include/CNC_Daten/preview_renderer.h:46-51 | earlier records are done, the current one is live, a command without a record is neither |
| `Sweep.RangesCompose` | include/CNC_Daten/preview_renderer.h:109-123 | painting a range in two chained pieces is painting it at once |
| `Sweep.RedrawRepeats` | src/main.cpp:472-523 | redrawing one command from its noted start repeats the base pass's segment and nothing else |
| `Sweep.DirectAtRecord` | include/CNC_Daten/preview_renderer.h:46-51 | a full rendering at the record of command k shows those before done, k live, those after open |
| `Sweep.DirectAfterRecord` | include/CNC_Daten/preview_renderer.h:46-51 | when "first n done, rest open" is a full rendering at the following record |
| `Sweep.BasePass` | src/main.cpp:472-486 | command by command everything is painted open, and the starts are noted |
| `Sweep.SleepStep` | src/main.cpp:536-546 | the pause is the interval unless stop or shutdown comes, and ends before the next 50 ms piece once one of them does |
| `Sweep.PauseAfter` | src/main.cpp:534-550 | keeps the pacing: every step before the last sleeps out the interval, and stop and shutdown are noticed as promised |
| `Sweep.StopIsTaken` | src/main.cpp:534-550 | a stop is taken within 128 steps in fast mode, after less than 50 ms of further sleep otherwise |
| `Sweep.ChunkIsSixtieth` | src/main.cpp:506-506 | the step fallback pushes a frame every sixtieth of the sweep, every step of a short one |
| `Sweep.Recolour` | src/main.cpp:510-525 | after step k the canvas is the full rendering at the record of command k |
| `Sweep.TestRun` | src/main.cpp:489-561 | the sweep does every command unless stopped or shut down, in pace; every frame is a full rendering at its step and needed; the picture is never 90 ms or a chunk old; the end shows the first lastK done, or the last one live after a stop |
| `Sweep.UnforcedBound` | src/main.cpp:501-534 | at most 118 frames of any run are not asked for by the clock |
| `Preview.PreparedIsRecorded` | src/main.cpp:422-434 | the prepared commands have strictly increasing record indices from 0 on and a type each |
| `Preview.RenderJob` | src/main.cpp:457-464 | the render job paints everything open |
| `Preview.TestRunJob` | src/main.cpp:465-566 | the test run from the file to the final picture |
| `PlcSafety.NextKeepsSession` | src/main.cpp:673-925 | every step of every actor keeps the session invariant |
| `PlcSafety.SessionSafety` | src/main.cpp:652-925 | in every run: no session, watchdog or "connected" at the top of the loop, diagnostics there only from a failed setup |
| `PlcRuns.NextKeepsRequests` | src/main.cpp:883-912 | every step of every actor keeps each waiting raise, except a raise of ReadProjekt during a transfer |
| `PlcRuns.NoRequestForgotten` | src/main.cpp:883-912 | in every run a raise that still waits has its bit set, or its service comes next; for ReadProjekt as long as none is raised during a transfer |
| `PlcRuns.OnlyServiceSettles` | src/main.cpp:883-912 | for each bit: only a raise sets it, only the start of its service settles a raise, only its own clearing step clears it |
| `PlcRuns.RaiseIsServed` | src/main.cpp:820-916 | with answering calls and data exchange on, a raise waiting anywhere in the operating loop is served within 18 worker steps plus one per transfer poll, under any interleaving, unless shutdown, changed settings, a lost link or the switch end the session |
| `PlcRuns.TransferLoses` | src/main.cpp:904-912 | over every run without another raise, a raise of ReadProjekt is lost exactly when made during a transfer whose clearing then succeeds |
| `PlcRuns.RaiseDuringTransferIsLost` | src/main.cpp:908-912 | such a run |
| `PlcRuns.NextKeepsBeats` | src/main.cpp:800-874 | every step keeps the order and spacing of the heartbeats |
| `PlcRuns.HeartbeatSequence` | src/main.cpp:800-874 | in every run the heartbeats of a session are 0, 1, 2, ... as int16, a second or more apart |
| `PlcRuns.SettingsAreCurrent` | src/main.cpp:675-678 | in every run, in a session with unchanged revision and no edit pending, the settings in use are the stored ones exactly if no edit fell between the two reads and left other settings |
| `PlcRuns.EditBetweenReadsIsMissed` | src/main.cpp:675-678 | an edit that falls there stays unnoticed |
| `PlcExamples.RequestIsLostInARun` | src/main.cpp:673-912 | a run from the start of the worker into a transfer that loses the next request |
| `PlcExamples.EditIsMissedInARun` | src/main.cpp:673-842 | a run from the start of the worker into a session that works with outdated settings |
| `PlcReaction.SessionEnds` | src/main.cpp:820-856 | under any interleaving and all answers, a session whose settings changed, whose link is down, whose switch is off, or at shutdown, is left within 18 worker steps, plus one per transfer poll where only settings changed |
| `PlcReaction.SettingsChangeEndsSession` | src/main.cpp:822-828 | a counted edit always ends the session |
| `PlcReaction.WatchdogLives` | src/main.cpp:776-798 | in every run the watchdog lives as long as the session, up to shutdown |
| `PlcReaction.LinkLossIsMarked` | src/main.cpp:778-798 | while no probe succeeds the loss is marked within 21 watchdog steps |
| `PlcReaction.LinkLossEndsSession` | src/main.cpp:769-847 | a session whose PLC cannot be reached any more is left, a transfer under way included |
| `PlcReaction.LossIsShown` | src/main.cpp:783-790 | a marked loss takes "connected" and the diagnostics off show |
| `PlcReaction.OnlyWorkerShows` | src/main.cpp:778-798 | nothing but the worker brings "connected" or diagnostics on show, or opens or ends a connection |
| `PlcReaction.SessionCloses` | src/main.cpp:917-925 | under any interleaving, a session being closed is over after at most 10 steps of the two threads, and the next attempt begins |
| `PlcReaction.ClosingCompletes` | src/main.cpp:917-925 | the same from the moment a session is left |
| `PlcReaction.LinkDownIsLastProbe` | src/main.cpp:778-798 | in every run the link counts as down exactly if the last probe of the session failed |
| `PlcReaction.BeatIsFresh` | src/main.cpp:806-874 | after every look the last heartbeat is less than a second old, one was written exactly if due, and its success is shown and decides how to go on |
| `PlcReaction.DiagIsFresh` | src/main.cpp:830-835 | after every refresh the diagnostics are less than ten seconds old |
| `PlcDialling.PauseEnds` | src/main.cpp:664-671 | a pause takes exactly its rounds of 200 ms, or ends at once on shutdown or changed settings |
| `PlcDialling.UnreachablePauses` | src/main.cpp:694-701 | an unreachable PLC is tried again after 3 s |
| `PlcDialling.RefusedPauses` | src/main.cpp:705-711 | a refused connection is tried again after 5 s |
| `PlcDialling.BadSetupPauses` | src/main.cpp:735-746 | so is a failed setup, its diagnostics on show and the connection given up |
| `PlcDialling.SessionOpens` | src/main.cpp:673-801 | from anywhere outside a session, with answering calls and the switch on, a session opens within a bounded number of worker steps, under any interleaving |
| `PlcDialling.SwitchedOffPauses` | src/main.cpp:681-688 | switched off, the worker takes its status back and pauses without connecting |
| `PlcDialling.OffPauseEnds` | src/main.cpp:681-688 | switched off, the worker looks again after exactly ten rounds |
| `PlcDialling.StaysOff` | src/main.cpp:681-688 | switched off, no run opens a connection |
| `PlcRuns.ShutdownIsBounded` | src/main.cpp:664-919 | after shutdown both threads make at most 30 steps, never block each other, and the worker leaves |
| `PlcRuns.LeavesOnlyOnShutdown` | src/main.cpp:673-674 | the outer loop is left only after shutdown |
| `Handles.CallsAreSafe` | include/ic4/HandleRef.h:36-104 | every count call of a legal operation hits a live object, self-assignment and shared objects included |
| `Handles.StepConserves` | include/ic4/HandleRef.h:13-104 | every operation keeps each count equal to the number of holders |
| `Handles.RunConserves` | include/ic4/HandleRef.h:13-104 | in every run counts equal holders, are zero exactly when the last holder is gone, and no dead object is touched |
| `Handles.NothingOwned` | include/ic4/HandleRef.h:13-45 | with nothing obtained every count is zero, so runs from there conserve |
| `Handles.PointersAfter` | include/ic4/HandleRef.h:45-104 | copies and moves hand on what the source held, a move empties it, no other handle changes |
| `HandleRef.HandleRef.Attach` | include/ic4/HandleRef.h:45-45 | taking over a reference |
| `HandleRef.HandleRef.Wrap` | include/ic4/Properties.h:217-220 | adding a reference of its own |
| `HandleRef.HandleRef.CopyNew` | include/ic4/HandleRef.h:92-95 | copy construction |
| `HandleRef.HandleRef.MoveNew` | include/ic4/HandleRef.h:51-51 | move construction |
| `HandleRef.HandleRef.CopyFrom` | include/ic4/HandleRef.h:96-103 | copy assignment in place, aliased or not |
| `HandleRef.HandleRef.MoveFrom` | include/ic4/HandleRef.h:52-60 | move assignment in place, aliased or not |
| `HandleRef.HandleRef.Destroy` | include/ic4/HandleRef.h:46-46 | destruction |
| `PropertyList.PushAttached` | include/ic4/Properties.h:164-167 | an entry's reference ends up in exactly one element |
| `PropertyList.ReturnPropertyList` | include/ic4/Properties.h:145-172 | on every path the list is given back exactly as often as obtained, and each entry reference belongs to one element, in order |
| `PackBgr.PixelsInOrder` | include/ic4-interop/interop-HALCON.h:283-290 | pixels of a row follow each other, rows are a pitch apart |
| `PackBgr.PixelsApart` | include/ic4-interop/interop-HALCON.h:271-287 | different pixels share no byte |
| `PackBgr.RowStartIsExact` | include/ic4-interop/interop-HALCON.h:280-282 | the unsigned row products do not wrap exactly when the last row starts below 2^32 |
| `PackBgr.PackBGRx` | include/ic4-interop/interop-HALCON.h:264-293 | the nested loops write every pixel and leave every padding byte |
| `PackBgr.PixelRecovered` | include/ic4-interop/interop-HALCON.h:278-292 | blue, green and red at every pixel are those the row product, wrapping or not, selects in the planes; alpha is all ones |
| `PackBgr.AlphaIsOpaque` | include/ic4-interop/interop-HALCON.h:290-290 | every byte of every alpha is 255 |
| `PackBgr.SameBufferIsSamePixels` | include/ic4-interop/interop-HALCON.h:264-293 | two images fill a buffer alike exactly when all their pixels are the same |
| `PackBgr.PackingIsInjective` | include/ic4-interop/interop-HALCON.h:280-292 | the pixels of an image determine its planes exactly when no row product wraps |
| `Endpoint.SchemelessIsKept` | src/main.cpp:577-580 | without a scheme the URL is taken as it is exactly when the path brings no "://" |
| `Endpoint.SplitUndoesPrint` | src/main.cpp:577-591 | splitting a printed endpoint gives back host and port, 4840 for a missing port, whatever scheme and path; without a scheme, a path with a "://" is split instead |
| `Endpoint.PathTakenForScheme` | src/main.cpp:577-583 | a path with "://" whose host is taken from behind it |

## Left out

- Sockets, name lookup, OPC UA and C library calls, sleeping and real time: only their outcomes, as free inputs.
- Drawing pixels, line thickness, colours from settings, mirroring, image encoding and publishing: the canvas is the last paint per command.
- Floating-point rounding, NaN and infinities.
- `ArcFlatten.ParseValueInPlace`: decimals only; without the hexadecimal, `inf` and `nan` spellings of `stod` and its range errors.
- `GCode.Command`: without the original line kept for debugging.
- `Transfer.TransferBlocks`: for a nonempty project that does not change while it is sent and a positive block size; the wait for the last acknowledgement and the three transfer flags are not modelled.
- `Sweep.TestRun`: status messages and the full pictures pushed before and after the sweep are not recorded.
- `PlcWorker.Next`: reading all settings is one step, a status report is one store of the connection flag, log lines and the displayed message are not modelled; a transfer is its keep-alive polls.
- `PlcWorker.BeatIfDue`: the heartbeat code that the source writes out twice (src/main.cpp:806-818, 857-874) is one function.
- `HandleRef.HandleRef`: one class stands for the fixed, movable and copyable variants; receiving a handle through `operator&` and comparisons are not modelled.
- `PropertyList.ReturnPropertyList`: error reporting, and copies made when the vector grows or is returned, each a copy and a destruction.
- `PackBgr.PackBGRx`: the destination is taken to hold all pixels; image types and buffer allocation are not modelled.
- Reachability probing after the split, the live picture loop, settings tables, colour parsing, project listing, the web server and the OCR scripts: little but input and output.
