# Verified model of the algorithmic layer

This project models, in Dafny 4.11, the self-contained algorithms of `dev/algorithmic/src` and three small
stateful pieces of `dev/cyberspace/src`, and proves what they are for. `dafny verify dfyconfig.toml` checks
everything. Code that works in place is modelled in place (arrays, fields, loops with invariants) and tied to
functions whose properties the lemmas prove. The modules named Answers hold worked examples, the published ones where
a standard has them, and the laws that fix the functions a code and its specification share.

| module | models |
|---|---|
| PathGrid, PathQueue, PathLabels, PathBacktrack, PathOrder, PathSearch, PathWaypoints, PathStraight | the grid path search, the order in which it expands cells, and its way-points |
| Flood | the layered flood and the route taken from it |
| Crc32, Crc64, CrcAnswers | both checksums and the table generator |
| AesTables, AesField, AesState, AesCipher, AesBuffers, AesAnswers | AES-128 and its block and buffer functions |
| Md5Block, Md5Stream, Md5Answers | the MD5 compression and the streaming state |
| OctetBits, Base32, RecordAddress, Base64, CodecAnswers | the codecs and the record address built on one of them |
| Pc1, Pc1Answers | the PC1 stream cipher and its text forms |
| Wrappers, CStrings | an optional value; zero-terminated strings |
| LogQueues, FileExporter, ObjDescriptor | the log workers, the log file worker, reference counting |

Where the code differs from what its names or documentation suggest, the model follows the code and states
exactly when the expected behaviour holds:

- `Find` puts way-point 0 one step after the start and then adds the first run in full, so with more than one
  direction the last way-point lies one first step beyond the end cell's centre (`PathWaypoints.WorldSearch.Find`,
  `PathWaypoints.OvershootExample`).
- `SearchInMap` also returns a path when the search was exhausted or cut off: to the cell it expanded last, or to the
  labelled cell nearest to the target. The path leads to the target exactly when the search gave the target a label
  (`PathSearch.EndIsTarget`, `PathSearch.PathElsewhere`). It returns 0 only for refused requests and for a source without neighbours.
- Backtracking asks for the label 0 around a cell, but cell 0 is never listed there. So a request from cell 0 comes
  back exactly when it is refused or cell 0 has no neighbour; from every other cell the loop ends
  (`PathBacktrack.BacktrackingEnds`, `PathSearch.Searcher.Locate`, `PathSearch.ZeroStartExample`). The code does not
  stay in that loop: every turn writes another entry of PathPos, past its 1024 entries. The same happens on a path of
  1024 steps or more from any start; `PathSearch.Searcher.SearchInMap` tells both apart from the requests it answers.
- `ASearchTo` takes a start of its own, but reads only its label: the route begins at the cell where the climb from the
  target comes to that distance. All routes begin at the start exactly when it is the first nearer neighbour of every
  cell one step further out; for one target and any order of the neighbours, exactly when no other cell at its distance
  is as near to the target (`Flood.StartsEveryRoute`, `Flood.StartIsSure`, `Flood.StartMissed`).
- The functions named cbc use one vector for all blocks. They agree with chaining exactly when every block but the
  last is one particular block, so always on one block and never on all buffers of more
  (`AesBuffers.ChainingOnlyByChance`, `AesBuffers.FirstBlockDecides`, `AesBuffers.NotChained`).
- For a length that is no multiple of 16 they run to the next multiple and then over one block more
  (`AesBuffers.EncryptBuffer`, `AesBuffers.AnyLengthRecovered`).
- `Encode` of both checksums returns 0 for an empty buffer, whatever the seed, which limits the composition law
  (`Crc32.Composition`, `Crc64.Composition`).
- `PC1DecT` stops at a zero letter, so the text forms are inverse only for some values of `begin`
  (`Pc1.TextFormsInverse`, `Pc1.TextRecovered`).
- `SplitRecordAddress` skips empty tokens, so it recovers only names that are non-empty and free of '@'
  (`RecordAddress.Recovered`).
- The log workers of the database service do not drain their queues at the end. Everything submitted to a queue is
  written exactly when it was empty as its owner left and receives nothing afterwards (`LogQueues.AllWrittenExactly`,
  `LogQueues.RecordLost`).
- The log file worker does drain, but crashes if it is closed before its first loop test, or if it has to write while
  an fopen has failed (`FileExporter.CrashesOnlyUnentered`, `FileExporter.EndDecided`, `FileExporter.FailedOpening`).
- Self-assignment of a descriptor releases before it holds again (`ObjDescriptor.SelfAssignmentDips`).

## Model

| member | source | states |
|---|---|---|
| PathGrid.StepMovesCoordinates | dev/algorithmic/src/ob_path_search.cpp:386-447 | a legal step changes column and row by exactly its direction: no row wrap, never out of the map |
| PathGrid.StepReverses | dev/algorithmic/src/ob_path_search.cpp:386-447 | every legal step between free cells can be taken back, corner rule included |
| PathGrid.EdgeSymmetric | dev/algorithmic/src/ob_path_search.cpp:386-447 | the neighbour relation of GetAround is symmetric on free cells; backtracking rests on it |
| PathGrid.WalkDisplacement | dev/algorithmic/src/ob_path_search.cpp:386-447 | the coordinates at the end of any legal walk are those at its start plus the sum of its directions |
| PathGrid.DistanceSteps | dev/algorithmic/src/ob_path_search.cpp:449-466 | the estimate is ten for every step along the longer side and four along the shorter one, on all four sides |
| PathGrid.Compass | dev/algorithmic/src/ob_path_search.cpp:468-488 | the direction codes go clockwise from the cell above |
| PathBacktrack.SlotOrder | dev/algorithmic/src/ob_path_search.cpp:386-447 | where nothing is in the way GetAround lists the cells above, right, below, left and then the corners clockwise from the upper right |
| PathQueue.RootIsMinimum | dev/algorithmic/src/ob_path_search.cpp:322-383 | in a heap of any size entry 1 is a minimum |
| PathQueue.RisingStep | dev/algorithmic/src/ob_path_search.cpp:334-342 | one sift-up move keeps both the heap apart from the hole and the multiset of entries |
| PathQueue.SinkingStep | dev/algorithmic/src/ob_path_search.cpp:355-380 | one sift-down move keeps both the heap apart from the hole and the multiset of entries |
| PathQueue.Queue.Reset | dev/algorithmic/src/ob_path_search.cpp:203-206 | restarting leaves exactly the source entry, whatever was queued before |
| PathQueue.Queue.PushToQueue | dev/algorithmic/src/ob_path_search.cpp:322-344 | adds exactly one entry to the multiset and keeps heap and sentinel, or changes nothing when full |
| PathQueue.Queue.ShrinkQueue | dev/algorithmic/src/ob_path_search.cpp:346-383 | removes exactly the root entry from the multiset and keeps heap and sentinel |
| PathLabels.RelaxSound | dev/algorithmic/src/ob_path_search.cpp:233-241 | after a relaxation every label is still the length of a real walk, and every label but the source's has a smaller one beside it |
| PathLabels.RelaxFrontier | dev/algorithmic/src/ob_path_search.cpp:233-250 | after a relaxation every labelled cell that is not queued has nothing left to improve around it, the cell being expanded aside |
| PathLabels.LabelAtMostWalk | dev/algorithmic/src/ob_path_search.cpp:216-268 | with an empty queue no walk is shorter than the label of its end, whatever the order of expansion was |
| PathLabels.ExhaustedIsExact | dev/algorithmic/src/ob_path_search.cpp:216-268 | with an empty queue a label is the exact shortest distance, and 65535 exactly on unreachable cells |
| PathOrder.RootIsBest | dev/algorithmic/src/ob_path_search.cpp:216-226 | an entry of least key whose cell is due is a due cell with the least sum of label and estimate |
| PathOrder.ImproveTracked | dev/algorithmic/src/ob_path_search.cpp:233-257 | writing a better label, queueing it under label plus estimate and noting the nearest cell is one look of the search without a queue |
| PathOrder.SettledLooks | dev/algorithmic/src/ob_path_search.cpp:229-257 | an out-of-date entry changes nothing: there is nothing left to improve around its cell |
| PathOrder.TurnTraced | dev/algorithmic/src/ob_path_search.cpp:216-268 | every turn of the loop is a best-first turn, or none at all |
| PathSearch.GetDirInverts | dev/algorithmic/src/ob_path_search.cpp:468-488 | GetDir recovers the direction of every legal step, so it never reads a -1 or leaves its table |
| PathSearch.CornersFromSides | dev/algorithmic/src/ob_path_search.cpp:418-446 | the corner pass over the side results keeps a corner exactly when both its sides are free |
| PathSearch.RelaxNeighbour | dev/algorithmic/src/ob_path_search.cpp:233-257 | one improving neighbour keeps the whole search invariant: labels, frontier, queue, nearest cell |
| PathSearch.RelaxTracked | dev/algorithmic/src/ob_path_search.cpp:233-257 | one improving neighbour keeps arrays, queue and nearest cell those of the search without a queue |
| PathSearch.FinishExpanding | dev/algorithmic/src/ob_path_search.cpp:229-268 | after all eight neighbours the expanded cell is settled and the invariant of the outer loop holds again |
| PathLabels.OnlySourceIsZero | dev/algorithmic/src/ob_path_search.cpp:193-268 | in a search from any start only the start itself is labelled 0 |
| PathBacktrack.LowerAround | dev/algorithmic/src/ob_path_search.cpp:282-305 | around every labelled cell but a source other than cell 0 GetAround lists one with a smaller label |
| PathBacktrack.ScanFinds | dev/algorithmic/src/ob_path_search.cpp:286-301 | the inner loop of backtracking finds the smallest label among the cells listed, and keeps the slot of the turn before when there is none |
| PathBacktrack.StepDown | dev/algorithmic/src/ob_path_search.cpp:279-305 | one turn of backtracking from a source other than cell 0 moves to a labelled cell with a smaller label |
| PathBacktrack.RunStaysPositive | dev/algorithmic/src/ob_path_search.cpp:279-305 | where only cell 0 is labelled 0, every number of backtracking turns leaves the smallest label seen positive |
| PathBacktrack.RunsOn | dev/algorithmic/src/ob_path_search.cpp:279-305 | and then there is such a run of any number of turns |
| PathBacktrack.BacktrackingEnds | dev/algorithmic/src/ob_path_search.cpp:277-307 | from any labelled cell but the source the backtracking loop can be left exactly when the source is not cell 0 |
| PathBacktrack.EndIsLast | dev/algorithmic/src/ob_path_search.cpp:277-305 | from a source other than cell 0 no run of backtracking turns is longer than one that has ended |
| PathSearch.ExhaustedLabels | dev/algorithmic/src/ob_path_search.cpp:268-275 | the label array left by an exhausted search is the exact distance map |
| PathSearch.EndIsTarget | dev/algorithmic/src/ob_path_search.cpp:216-275 | the cell the search ends at is the target exactly when the target has a label |
| PathSearch.NeverReturnsFromZero | dev/algorithmic/src/ob_path_search.cpp:193-307 | after a search from cell 0 that labelled anything else, backtracking makes any number of turns and is never done |
| PathSearch.ZeroStartExample | dev/algorithmic/src/ob_path_search.cpp:163-307 | such a request: two walkable cells in a row, from the first to the second |
| PathSearch.WalkIsShortest | dev/algorithmic/src/ob_path_search.cpp:268-319 | a walk no longer than the exact label of its end is a shortest one |
| PathSearch.PathElsewhere | dev/algorithmic/src/ob_path_search.cpp:163-319 | a search in a row with two walls answers a request for the cell behind the second with a path to another cell |
| PathSearch.Searcher.GetAround | dev/algorithmic/src/ob_path_search.cpp:386-447 | slot i holds the cell one legal step away in the i-th direction, or 0 |
| PathSearch.Searcher.Expand | dev/algorithmic/src/ob_path_search.cpp:227-259 | expanding one cell: at most eight relaxations in the order of GetAround, queue growth equal to their number, invariant kept, and the state afterwards is that of the search without a queue after a turn on that cell |
| PathSearch.Searcher.Explore | dev/algorithmic/src/ob_path_search.cpp:216-268 | up to the distance for which the queue is large enough, the main loop ends at the target, with an empty queue, or past the limit at the labelled cell nearest to the target, with the label invariant intact; the cells it expanded are a best-first run: each was a due cell with the least label plus estimate, and replaying them gives the labels and the end cell |
| PathSearch.Searcher.Backtrack | dev/algorithmic/src/ob_path_search.cpp:277-307 | when the loop ends before PathPos is full the cells in it form a chain of legal steps from the source to the end cell, no longer than the end cell's label; otherwise the source writes past PathPos, and that is told |
| PathSearch.Searcher.ConvertToDirs | dev/algorithmic/src/ob_path_search.cpp:311-315 | following PathDir from the source is a legal walk that ends at PathPos[0] |
| PathSearch.Searcher.SearchInMap | dev/algorithmic/src/ob_path_search.cpp:163-319 | for every request, cell 0 included: backtracking ends before PathPos is full, always so from another cell with 2 * distance + 8 below 1024 and never from cell 0, or nothing is promised. If it does, the map is unchanged on return; 0 exactly when refused or the source is isolated; otherwise the search was a best-first run under a limit of 2 * distance, and the answer is a legal walk of at most 2 * distance + 8 steps and no more than the end cell's label to the target (found), to a reachable cell by a shortest way with exact labels and an unreachable target (exhausted), or to the labelled cell nearest to the target (limit); it leads to the target exactly when the target has a label |
| PathWaypoints.RunsAreMaximal | dev/algorithmic/src/ob_path_search.cpp:561-579 | the leg decomposition is the maximal runs of equal directions and expands back to PathDir |
| PathWaypoints.MaximalRunsUnique | dev/algorithmic/src/ob_path_search.cpp:561-579 | there is only one such decomposition |
| PathWaypoints.LegsSpan | dev/algorithmic/src/ob_path_search.cpp:561-586 | the legs between way-points add up to the displacement of the whole walk |
| PathWaypoints.LastWayPoint | dev/algorithmic/src/ob_path_search.cpp:548-586 | the last way-point is the start cell's centre plus the whole displacement plus the first step once more |
| PathWaypoints.EndPoint | dev/algorithmic/src/ob_path_search.cpp:548-586 | in cell coordinates: the centre of the end cell is the centre of the start cell plus the displacement |
| PathWaypoints.WorldSearch.Compress | dev/algorithmic/src/ob_path_search.cpp:543-586 | way-points are start, start plus first step, then one per maximal run, for any PathDir; there are too many for PathX and PathY exactly from 512 runs on |
| PathWaypoints.WorldSearch.Find | dev/algorithmic/src/ob_path_search.cpp:526-587 | for every request: nothing is promised exactly when backtracking does not end before PathPos is full or the path has 512 runs or more. Otherwise the directions compressed are those PathDir holds and they are the answer of SearchInMap, from a best-first run; differences of consecutive way-points are their maximal runs; the last way-point is the end cell's centre exactly when there is a single direction, and lies one first step beyond it otherwise |
| PathWaypoints.OvershootExample | dev/algorithmic/src/ob_path_search.cpp:548-586 | two steps to the right give two way-points, the second one cell beyond the end cell |
| PathWaypoints.CentreInside | dev/algorithmic/src/ob_path_search.cpp:548-549 | the centre lies inside its cell, equally far from both edges up to the odd pixel |
| PathStraight.StraightRun | dev/algorithmic/src/ob_path_search.cpp:193-268 | a best-first run along any row of free cells, with eight relaxations a cell within the limit, expands exactly the cells of the row and finds the target |
| PathStraight.OpenMapAnswer | dev/algorithmic/src/ob_path_search.cpp:163-319 | on an open map of 41 by 41 cells the request (20,20) to (30,20) is answered with the ten steps to the target, within the limit of 200 relaxations |
| PathStraight.PixelAnswer | dev/algorithmic/src/ob_path_search.cpp:526-587 | in cells of 16 by 8 pixels, from (24,4) to (56,4): the way-points (40,4) and (72,4) |
| Flood.SpreadingPop | dev/algorithmic/src/bfs.cpp:57-62 | taking the top of the stack, in whatever order cells were pushed, keeps the invariant of the layer |
| Flood.SpreadingPush | dev/algorithmic/src/bfs.cpp:67-80 | labelling and pushing a new neighbour keeps the invariant of the layer being filled |
| Flood.StackIsLayer | dev/algorithmic/src/bfs.cpp:54-84 | a finished stack holds exactly the cells at that distance, each once |
| Flood.Uphill | dev/algorithmic/src/bfs.cpp:129-143 | beside every labelled cell at distance n + 1 there is one with a higher label, and the neighbours with a higher label are exactly those at distance n |
| Flood.Flooder.Visit | dev/algorithmic/src/bfs.cpp:64-83 | the four neighbours of a popped cell; stops exactly when the other stack fills up |
| Flood.Flooder.SpreadLayer | dev/algorithmic/src/bfs.cpp:54-84 | one layer from one stack to the other; fails exactly when the next layer has 1024 cells or more |
| Flood.Flooder.ADiffuse | dev/algorithmic/src/bfs.cpp:16-90 | every cell ends with range minus its true walkable distance if that is at most range, and -1 otherwise; the stack assertion holds exactly when no layer reaches 1024 cells |
| Flood.ASearchTo | dev/algorithmic/src/bfs.cpp:96-151 | from any start: 0 and no route exactly on unlabelled targets; the step assertion fails exactly on unlabelled starts and when the difference of the two distances is outside 1 to maxStep; otherwise the step + 1 cells pushed in front of the list are the climb from the target, each the first nearer neighbour of the next: a shortest route when the start is the origin |
| Flood.StartOnRoute | dev/algorithmic/src/bfs.cpp:96-151 | the cell any such route begins at is no further from the target than the route is long |
| Flood.RouteDetermined | dev/algorithmic/src/bfs.cpp:126-146 | the target and the distance of the start decide the route; which start it is does not |
| Flood.RouteExists | dev/algorithmic/src/bfs.cpp:126-146 | every target has its route down to every smaller distance |
| Flood.CornerTurns | dev/algorithmic/src/bfs.cpp:13-14 | where two neighbours are equally near the order is below, right, above, left |
| Flood.DiagonalRoute | dev/algorithmic/src/bfs.cpp:96-151 | the one route from a corner of an open square to the opposite one goes by the cell to the right of the first |
| Flood.StartsEveryRoute | dev/algorithmic/src/bfs.cpp:126-146 | all routes down to distance n begin at s exactly when s is the first nearer neighbour of every cell at distance n + 1 |
| Flood.StartIsSure | dev/algorithmic/src/bfs.cpp:126-146 | for one target, whatever the order of the neighbours, every route begins at s exactly when s is the only cell at that distance from which the target is no further than the labels say |
| Flood.StartMissed | dev/algorithmic/src/bfs.cpp:96-151 | in a row of four cells flooded from the second, the one route for a start in the first and a target in the fourth begins at the third |
| Flood.SpreadingDone | dev/algorithmic/src/bfs.cpp:54-84 | when nothing is left to visit the next layer is complete: every cell at that distance has its label |
| Crc32.TableIsDivision | dev/algorithmic/src/crypt-crc32.cpp:7-76 | each of the 256 table entries is its index divided by the polynomial for eight bits |
| Crc32.DivideByte | dev/algorithmic/src/crypt-crc32.cpp:79-82 | one table step is eight single-bit division steps on the register and the byte |
| Crc32.FoldIsDivision | dev/algorithmic/src/crypt-crc32.cpp:79-101 | the table-driven loop over any message is bit-by-bit division of its bits |
| Crc32.DivideIsShiftN | dev/algorithmic/src/crypt-crc32.cpp:79-82 | up to 32 message bits may be added to the register all at once and shifted through |
| Crc32.DivideInjective | dev/algorithmic/src/crypt-crc32.cpp:79-82 | on a fixed message different registers never meet again |
| Crc32.WindowDetermined | dev/algorithmic/src/crypt-crc32.cpp:79-82 | between a common head and tail, a window of at most 32 bits is determined by the remainder |
| Crc32.BurstDetected | dev/algorithmic/src/crypt-crc32.cpp:85-101 | messages whose bits differ only within 32 consecutive bits share a checksum only if they are equal |
| Crc32.WindowDetected | dev/algorithmic/src/crypt-crc32.cpp:85-101 | messages of any length that differ inside 4 consecutive bytes never share a checksum |
| Crc32.Composition | dev/algorithmic/src/crypt-crc32.cpp:85-101 | encoding b from the checksum of a gives the checksum of a followed by b exactly when both are non-empty or the empty buffer's 0 happens to fit |
| Crc32.SeedMatters | dev/algorithmic/src/crypt-crc32.cpp:85-101 | on the same non-empty message another seed gives another checksum |
| Crc32.EncodeSeeded | dev/algorithmic/src/crypt-crc32.cpp:85-101 | the loop over the buffer returns the division of its contents from the seed, and 0 on a null or empty buffer |
| Crc32.Encode | dev/algorithmic/src/crypt-crc32.cpp:105-121 | the one-argument form is the seeded form with seed 0 |
| Crc64.TableIsDivision | dev/algorithmic/src/crypt-crc64.cpp:12-100 | each of the 256 table entries is its index divided by the polynomial for eight bits |
| Crc64.DivideByte | dev/algorithmic/src/crypt-crc64.cpp:114-119 | one table step is eight single-bit division steps on the register and the byte |
| Crc64.FoldIsDivision | dev/algorithmic/src/crypt-crc64.cpp:103-121 | the table-driven loop over any message is bit-by-bit division of its bits |
| Crc64.DivideIsShiftN | dev/algorithmic/src/crypt-crc64.cpp:114-119 | up to 64 message bits may be added to the register all at once and shifted through |
| Crc64.DivideInjective | dev/algorithmic/src/crypt-crc64.cpp:114-119 | on a fixed message different registers never meet again |
| Crc64.WindowDetermined | dev/algorithmic/src/crypt-crc64.cpp:114-119 | between a common head and tail, a window of at most 64 bits is determined by the remainder |
| Crc64.BurstDetected | dev/algorithmic/src/crypt-crc64.cpp:103-121 | messages whose bits differ only within 64 consecutive bits share a checksum only if they are equal |
| Crc64.WindowDetected | dev/algorithmic/src/crypt-crc64.cpp:103-121 | messages of any length that differ inside 8 consecutive bytes never share a checksum |
| Crc64.Composition | dev/algorithmic/src/crypt-crc64.cpp:103-121 | encoding b from the checksum of a gives the checksum of a followed by b exactly when both are non-empty or the empty buffer's 0 happens to fit |
| Crc64.SeedMatters | dev/algorithmic/src/crypt-crc64.cpp:103-121 | on the same non-empty message another seed gives another checksum |
| Crc64.EncodeSeeded | dev/algorithmic/src/crypt-crc64.cpp:103-121 | the loop over the buffer returns the division of its contents from the seed, and 0 on a null or empty buffer |
| Crc64.Encode | dev/algorithmic/src/crypt-crc64.cpp:125-146 | the one-argument form is the seeded form with seed 0 |
| CrcAnswers.Check32 | dev/algorithmic/src/crypt-crc32.cpp:85-101 | the digits 1 to 9 have the checksum CBF43926 |
| CrcAnswers.Check64 | dev/algorithmic/src/crypt-crc64.cpp:103-121 | the digits 1 to 9 have the checksum 6C40DF5F0B497347 |
| Crc32.CalcCrc32 | dev/algorithmic/src/crypt-crc32.cpp:79-82 | one byte through the register is the division of its eight bits |
| Crc32.Generate | dev/algorithmic/src/crc32dynamic.cpp:27-39 | the generator loop computes the static table entry |
| Crc32.Init | dev/algorithmic/src/crc32dynamic.cpp:17-40 | the generated table and the static table are the same |
| AesTables.SBoxesInverse | dev/algorithmic/src/crypt-aes.cpp:84-126 | sbox and rsbox are permutations inverse to each other |
| AesField.XtimeDoubles | dev/algorithmic/src/crypt-aes.cpp:285-288 | xtime is doubling modulo 0x11B (section 4.2.1 of FIPS 197) |
| AesField.MultiplyIsProduct | dev/algorithmic/src/crypt-aes.cpp:317-334 | for every factor below 0x20 Multiply is the product in GF(2^8) |
| AesField.SBoxFromField | dev/algorithmic/src/crypt-aes.cpp:84-103 | each sbox entry is the affine map of the multiplicative inverse (section 5.1.1 of FIPS 197) |
| AesField.TrickIsMix | dev/algorithmic/src/crypt-aes.cpp:291-313 | the single-xtime trick computes the matrix row {02} {03} {01} {01} |
| AesField.ColumnsInverse | dev/algorithmic/src/crypt-aes.cpp:291-356 | the column steps of MixColumns and InvMixColumns undo each other, both ways |
| AesState.ShiftInverse | dev/algorithmic/src/crypt-aes.cpp:261-395 | the row shifts undo each other, both ways |
| AesState.MixInverse | dev/algorithmic/src/crypt-aes.cpp:291-356 | MixColumns and InvMixColumns undo each other on whole states |
| AesState.SubBytes | dev/algorithmic/src/crypt-aes.cpp:245-256 | in place, exactly the sixteen bytes at the offset are substituted |
| AesState.ShiftRows | dev/algorithmic/src/crypt-aes.cpp:261-283 | in place, row r moves left by r columns (section 5.1.2 of FIPS 197) |
| AesState.InvShiftRows | dev/algorithmic/src/crypt-aes.cpp:372-395 | in place, row r moves right by r columns (section 5.3.1 of FIPS 197) |
| AesState.MixColumns | dev/algorithmic/src/crypt-aes.cpp:291-313 | in place, every column is multiplied by the matrix of section 5.1.3 of FIPS 197 |
| AesState.InvMixColumns | dev/algorithmic/src/crypt-aes.cpp:338-355 | in place, every column is multiplied by the matrix of section 5.3.3 of FIPS 197 |
| AesState.AddRoundKey | dev/algorithmic/src/crypt-aes.cpp:230-241 | in place, the sixteen bytes of one round key are added |
| AesCipher.RconPowers | dev/algorithmic/src/crypt-aes.cpp:129-147 | entries 1 to 10 of Rcon are the powers of x in GF(2^8) |
| AesCipher.KeyExpansion | dev/algorithmic/src/crypt-aes.cpp:165-226 | the 176 bytes are the word recursion of section 5.2 of FIPS 197 |
| AesAnswers.ScheduleStart | dev/algorithmic/src/crypt-aes.cpp:171-178 | a schedule begins with the key |
| AesAnswers.ScheduleLaw | dev/algorithmic/src/crypt-aes.cpp:181-225 | inside a round key every byte is the sum of the bytes one and four words back |
| AesAnswers.ScheduleTurn | dev/algorithmic/src/crypt-aes.cpp:188-225 | at the start of a round key the byte one word back is the next one in its word, substituted, with the constant of the round on the first |
| AesAnswers.ScheduleAnswer | dev/algorithmic/src/crypt-aes.cpp:165-226 | all eleven round keys of appendix A.1 of FIPS 197 |
| AesAnswers.CipherAnswer | dev/algorithmic/src/crypt-aes.cpp:398-444 | the cipher of appendix B of FIPS 197, and back |
| AesAnswers.EncryptAnswer | dev/algorithmic/src/crypt-aes.cpp:464-476 | the call with that key and block writes that cipher text |
| AesCipher.BackwardUndoes | dev/algorithmic/src/crypt-aes.cpp:398-444 | the inverse rounds take the forward rounds back one by one |
| AesCipher.CipherInverse | dev/algorithmic/src/crypt-aes.cpp:398-444 | for every key schedule and block InvCipher undoes Cipher and Cipher undoes InvCipher |
| AesCipher.Cipher | dev/algorithmic/src/crypt-aes.cpp:398-420 | the round loop in place is the cipher of section 5.1 of FIPS 197 on the block at the offset |
| AesCipher.InvCipher | dev/algorithmic/src/crypt-aes.cpp:422-444 | the inverse round loop in place is the inverse cipher of section 5.3 of FIPS 197 |
| AesBuffers.Encrypt | dev/algorithmic/src/crypt-aes.cpp:464-476 | ecb: the output block is the input block enciphered under the expanded key, also in place |
| AesBuffers.Decrypt | dev/algorithmic/src/crypt-aes.cpp:478-489 | ecb: the output block is the input block deciphered under the expanded key, also in place |
| AesBuffers.EncryptBuffer | dev/algorithmic/src/crypt-aes.cpp:515-547 | for any length, with or without a key: the blocks up to the rounded-up length are each added to the same vector and enciphered, after a remainder one more block is cut, zero-filled and enciphered without the vector, and a separate input buffer is left with the vector added to it |
| AesBuffers.DecryptBuffer | dev/algorithmic/src/crypt-aes.cpp:556-588 | for any length, with or without a key: the blocks up to the rounded-up length are each deciphered and added to the same vector, and after a remainder one more block is cut, zero-filled and deciphered |
| AesBuffers.BuffersInverse | dev/algorithmic/src/crypt-aes.cpp:515-588 | decrypting an encrypted buffer of any number of blocks gives it back, and the other way round |
| AesBuffers.ChainingOnlyByChance | dev/algorithmic/src/crypt-aes.cpp:536-545 | the buffer functions agree with cipher block chaining (section 6.2 of SP 800-38A) exactly when every block but the last is the one plaintext block that key and vector single out |
| AesBuffers.OnlyVectorSource | dev/algorithmic/src/crypt-aes.cpp:536-545 | that block is the only one enciphered to the vector |
| AesBuffers.SingleBlockAgrees | dev/algorithmic/src/crypt-aes.cpp:536-545 | up to one block the buffer functions always agree with chaining |
| AesBuffers.FirstBlockDecides | dev/algorithmic/src/crypt-aes.cpp:536-545 | with more blocks, of any two messages that differ in their first block at least one is not chained |
| AesBuffers.NotChained | dev/algorithmic/src/crypt-aes.cpp:536-545 | for every key and vector some two-block buffer is not chained |
| AesBuffers.AnyLengthRecovered | dev/algorithmic/src/crypt-aes.cpp:515-588 | for every length decrypting what was encrypted gives back the first `length` bytes |
| Md5Block.Round1 | dev/algorithmic/src/crypt-md5.cpp:138-162 | the sixteen unrolled steps of round 1 follow the index, shift and constant schedule of section 3.4 of RFC 1321 |
| Md5Block.Round2 | dev/algorithmic/src/crypt-md5.cpp:164-188 | the sixteen unrolled steps of round 2 follow the index, shift and constant schedule of section 3.4 of RFC 1321 |
| Md5Block.Round3 | dev/algorithmic/src/crypt-md5.cpp:190-214 | the sixteen unrolled steps of round 3 follow the index, shift and constant schedule of section 3.4 of RFC 1321 |
| Md5Block.Round4 | dev/algorithmic/src/crypt-md5.cpp:216-240 | the sixteen unrolled steps of round 4 follow the index, shift and constant schedule of section 3.4 of RFC 1321 |
| Md5Block.Process | dev/algorithmic/src/crypt-md5.cpp:93-249 | one block through the unrolled code is the compression of section 3.4 of RFC 1321 |
| Md5Answers.FSelects | dev/algorithmic/src/crypt-md5.cpp:141 | F takes each bit of its second argument where the first has a one, and of the third elsewhere |
| Md5Answers.GSelects | dev/algorithmic/src/crypt-md5.cpp:167 | G takes each bit of its first argument where the third has a one, and of the second elsewhere |
| Md5Answers.HIsParity | dev/algorithmic/src/crypt-md5.cpp:193 | a bit of H is set exactly when an odd number of its arguments has it set |
| Md5Answers.ISelects | dev/algorithmic/src/crypt-md5.cpp:219 | I takes the complement of the second argument where the first has a one or the third has none, and the second argument elsewhere |
| Md5Stream.PadLands | dev/algorithmic/src/crypt-md5.cpp:308-309 | padding adds 1 to 64 bytes and is the least that leaves room for the length |
| Md5Stream.PaddedWhole | dev/algorithmic/src/crypt-md5.cpp:294-310 | the padded message is a whole number of blocks, so the digest leaves no byte out |
| Md5Stream.Resume | dev/algorithmic/src/crypt-md5.cpp:274-291 | digesting can be resumed from the registers and the unfinished block alone |
| Md5Stream.CountsAdd | dev/algorithmic/src/crypt-md5.cpp:265-271 | the carry test keeps the two count words equal to 8 times the length modulo 2^64 |
| Md5Stream.CountBytes | dev/algorithmic/src/crypt-md5.cpp:305-307 | the bytes of the two words in a row are those of the 64-bit length |
| Md5Stream.State.Append | dev/algorithmic/src/crypt-md5.cpp:260-292 | after appending, words, registers and buffer describe the longer message, for every offset and length |
| Md5Stream.State.Finish | dev/algorithmic/src/crypt-md5.cpp:294-314 | the result is the digest of the whole message as sections 3.1 to 3.5 of RFC 1321 define it |
| Md5Stream.DigestOfChunks | dev/algorithmic/src/crypt-md5.cpp:251-314 | however a message is cut into appends, the result is the digest of the joined message |
| Md5Answers.EmptyAnswer | dev/algorithmic/src/crypt-md5.cpp:251-314 | the digest of the empty message in section A.5 of RFC 1321 |
| Md5Answers.AbcAnswer | dev/algorithmic/src/crypt-md5.cpp:251-314 | the digest of "abc" in section A.5 of RFC 1321 |
| Md5Answers.ChunksAnswer | dev/algorithmic/src/crypt-md5.cpp:251-314 | appending "a" and then "bc" gives that digest |
| Base32.BlockIsQuintet | dev/algorithmic/src/crypt-base32.cpp:173-198 | the shifts of encode_sequence pick out five consecutive bits for every block and group length |
| Base32.OneMore | dev/algorithmic/src/crypt-base32.cpp:225-236 | the assignments of decode_sequence add exactly the five bits of one character |
| Base32.SameBits | dev/algorithmic/src/crypt-base32.cpp:173-213 | cutting the bits into fives loses none and adds only zeros |
| Base32.RoundTrip | dev/algorithmic/src/crypt-base32.cpp:200-262 | decoding an encoding gives the octets back followed by zeros up to a multiple of five |
| Base32.WritesAll | dev/algorithmic/src/crypt-base32.cpp:250-256 | decoding an encoding writes exactly as many octets as were encoded |
| Base32.EncodingInjective | dev/algorithmic/src/crypt-base32.cpp:200-213 | different octet strings have different encodings |
| Base32.Encode | dev/algorithmic/src/crypt-base32.cpp:200-213 | the loops write the encoding of section 6 of RFC 4648, read as a string of bits |
| Base32.DecodeSequence | dev/algorithmic/src/crypt-base32.cpp:216-239 | a group's octets hold the bits of its good characters and nothing else; the return counts the completed octets |
| Base32.Decode | dev/algorithmic/src/crypt-base32.cpp:242-262 | the result is the bits of the characters before the first bad one, zero-filled to five octets per group, for every string whose good characters end within its whole groups |
| RecordAddress.Recovered | dev/cyberspace/src/cs-db_query_base.h:137-154 | SplitRecordAddress recovers the names exactly when both are non-empty and free of '@' |
| RecordAddress.AddressesDiffer | dev/cyberspace/src/cs-db_query_base.h:137-142 | different joined strings have different addresses |
| RecordAddress.MakeRecordAddress | dev/cyberspace/src/cs-db_query_base.h:137-142 | the address is the encoding of id, '@' and table name |
| RecordAddress.SplitRecordAddress | dev/cyberspace/src/cs-db_query_base.h:144-154 | two tokens become the names, anything else leaves them untouched |
| RecordAddress.TokensClean | dev/utility/src/pf-string.cpp:636-674 | no token is empty or holds the delimiter |
| RecordAddress.StrTok | dev/utility/src/pf-string.cpp:636-674 | each call cuts out the next token in place and leaves exactly the remaining ones to follow |
| RecordAddress.StringSplit | dev/utility/src/pf-stdlib.cpp:301-317 | the list is the tokens of the string in order |
| CodecAnswers.Alphabet32From0 | dev/algorithmic/src/crypt-base32.cpp:87 | the first eight characters of the alphabet, as letters |
| CodecAnswers.Alphabet32From8 | dev/algorithmic/src/crypt-base32.cpp:87 | the second eight |
| CodecAnswers.Alphabet32From16 | dev/algorithmic/src/crypt-base32.cpp:87 | the third eight |
| CodecAnswers.Alphabet32From24 | dev/algorithmic/src/crypt-base32.cpp:87 | the last eight |
| CodecAnswers.Fooba32 | dev/algorithmic/src/crypt-base32.cpp:200-213 | the encoding of "fooba" in section 10 of RFC 4648 |
| CodecAnswers.F32 | dev/algorithmic/src/crypt-base32.cpp:200-213 | the encoding of "f" in section 10 of RFC 4648, padding included |
| CodecAnswers.AddressForm | dev/cyberspace/src/cs-db_query_base.h:137-142 | the names are joined by the character @, the id first |
| Base64.GroupOfFour | dev/algorithmic/src/crypt-base64.cpp:31-34 | the masks and shifts pick out six consecutive bits, in whole groups and in zero-filled tails |
| Base64.GroupOfThree | dev/algorithmic/src/crypt-base64.cpp:92-94 | the masks and shifts put four six-bit values back into three octets |
| Base64.RoundTrip64 | dev/algorithmic/src/crypt-base64.cpp:17-124 | decoding an encoding gives back exactly the octets that were encoded |
| Base64.Shape64 | dev/algorithmic/src/crypt-base64.cpp:17-69 | length is four per started group of three, with two, one or no padding characters at the end as section 4 of RFC 4648 asks |
| Base64.Encode | dev/algorithmic/src/crypt-base64.cpp:17-69 | the loops and tails write the encoding of section 4 of RFC 4648, read as a string of bits |
| Base64.Decode | dev/algorithmic/src/crypt-base64.cpp:71-124 | the octets completely given by the characters before the first bad one; the 255 looked up for a missing character never shows |
| CodecAnswers.Alphabet64From0 | dev/algorithmic/src/crypt-base64.cpp:6-9 | characters 0 to 7 of the alphabet, as letters |
| CodecAnswers.Alphabet64From8 | dev/algorithmic/src/crypt-base64.cpp:6-9 | characters 8 to 15 of the alphabet, as letters |
| CodecAnswers.Alphabet64From16 | dev/algorithmic/src/crypt-base64.cpp:6-9 | characters 16 to 23 of the alphabet, as letters |
| CodecAnswers.Alphabet64From24 | dev/algorithmic/src/crypt-base64.cpp:6-9 | characters 24 to 31 of the alphabet, as letters |
| CodecAnswers.Alphabet64From32 | dev/algorithmic/src/crypt-base64.cpp:6-9 | characters 32 to 39 of the alphabet, as letters |
| CodecAnswers.Alphabet64From40 | dev/algorithmic/src/crypt-base64.cpp:6-9 | characters 40 to 47 of the alphabet, as letters |
| CodecAnswers.Alphabet64From48 | dev/algorithmic/src/crypt-base64.cpp:6-9 | characters 48 to 55 of the alphabet, as letters |
| CodecAnswers.Alphabet64From56 | dev/algorithmic/src/crypt-base64.cpp:6-9 | characters 56 to 63 of the alphabet, as letters |
| CodecAnswers.Foo64 | dev/algorithmic/src/crypt-base64.cpp:17-69 | the encoding of "foo" in section 10 of RFC 4648 |
| CodecAnswers.Fo64 | dev/algorithmic/src/crypt-base64.cpp:17-69 | the encoding of "fo" in section 10 of RFC 4648, with one padding character |
| CodecAnswers.F64 | dev/algorithmic/src/crypt-base64.cpp:17-69 | the encoding of "f" in section 10 of RFC 4648, with two |
| Pc1.InStep | dev/algorithmic/src/pc1cipher.cpp:117-172 | from any coder state and key each cipher undoes the other: both sides stay in the same state |
| Pc1.CiphersInverse | dev/algorithmic/src/pc1cipher.cpp:117-172 | PC1Dec undoes PC1Enc and PC1Enc undoes PC1Dec for every key and message |
| Pc1.Streams | dev/algorithmic/src/pc1cipher.cpp:117-138 | what was enciphered so far does not depend on what follows |
| Pc1Answers.MaskFlips | dev/algorithmic/src/pc1cipher.cpp:128-136 | flipping bit k of the register flips exactly bit k % 8 of what is added to the byte, and nothing is added for 0 |
| Pc1Answers.EmptyKeyAnswer | dev/algorithmic/src/pc1cipher.cpp:117-138 | under the empty key 61 becomes 05 |
| Pc1Answers.KeyAnswer | dev/algorithmic/src/pc1cipher.cpp:117-138 | under "key" the bytes of "at" become f3 54 |
| Pc1Answers.TextAnswer | dev/algorithmic/src/pc1cipher.cpp:181-202 | the same in letters from a: "dpef" |
| Pc1Answers.EncryptAnswer | dev/algorithmic/src/pc1cipher.cpp:117-138 | the call with "key" and "at" writes f3 54 |
| Pc1.TextRecovered | dev/algorithmic/src/pc1cipher.cpp:181-231 | one text survives the letter form exactly when no letter but possibly the last is a zero |
| Pc1.TextFormsInverse | dev/algorithmic/src/pc1cipher.cpp:181-231 | the text forms are inverse for every key and text exactly when begin is 1 to 240 |
| Pc1.PC1Coder.Code | dev/algorithmic/src/pc1cipher.cpp:14-56 | the register swaps come to two multiplications and sums modulo 2^16 |
| Pc1.PC1Coder.Update | dev/algorithmic/src/pc1cipher.cpp:65-99 | the eight unrolled steps chain each key word onto the register the step before left |
| Pc1.PC1Enc | dev/algorithmic/src/pc1cipher.cpp:117-138 | the output is the enciphered message, also in place |
| Pc1.PC1Dec | dev/algorithmic/src/pc1cipher.cpp:150-172 | the output is the deciphered message, also in place |
| Pc1.PC1EncT | dev/algorithmic/src/pc1cipher.cpp:181-202 | two letters per byte, low nibble first, and a terminating zero |
| Pc1.PC1DecT | dev/algorithmic/src/pc1cipher.cpp:212-231 | reads the text up to its first zero; an odd last letter is completed by the terminator |
| LogQueues.EveryRunConserves | dev/cyberspace/src/cs-database_service.cpp:779-925 | in every schedule, per queue, written, held by the owner and queued are together what was submitted, in order, and no two workers own the same queue |
| LogQueues.SessionsInOrder | dev/cyberspace/src/cs-database_service.cpp:895-925 | in every schedule a session's records are written in the order they were submitted |
| LogQueues.WrittenAtMostOnce | dev/cyberspace/src/cs-database_service.cpp:907-925 | in every schedule each record is written at most as often as it was submitted |
| LogQueues.IndexInRange | dev/cyberspace/src/cs-database_service.cpp:452-461 | ten workers share out the indices 0 to 9 and never run past the arrays |
| LogQueues.TurnWritesAll | dev/cyberspace/src/cs-database_service.cpp:907-924 | while the service is alive one turn of a queue's owner writes everything submitted to it |
| LogQueues.NoDrain | dev/cyberspace/src/cs-database_service.cpp:907-925 | once the owner has left its loop its queue is never written again: there is no final drain |
| LogQueues.LostRecords | dev/cyberspace/src/cs-database_service.cpp:907-925 | what is lost then is exactly the records the queue held when its owner left and those submitted to it afterwards |
| LogQueues.AllWrittenExactly | dev/cyberspace/src/cs-database_service.cpp:907-925 | everything submitted to a queue whose owner has left is written exactly when the queue was empty then and nothing is submitted to it afterwards |
| LogQueues.RecordLost | dev/cyberspace/src/cs-database_service.cpp:907-925 | a run that loses a record, however it goes on: submitted after the owner's last take, before the service is stopped |
| LogQueues.StepKeeps | dev/cyberspace/src/cs-database_service.cpp:779-925 | every step of every thread keeps the invariant |
| LogQueues.LogService.SetLogMessage | dev/cyberspace/src/cs-database_service.cpp:779-793 | the record joins the queue of its session; nothing else changes |
| LogQueues.SubmitExample | dev/cyberspace/src/cs-database_service.cpp:779-793 | a record of session 23 goes to queue 3 of ten |
| LogQueues.LogService.TakeIndex | dev/cyberspace/src/cs-database_service.cpp:899-905 | the thread gets the next index |
| LogQueues.LogService.TakeBatch | dev/cyberspace/src/cs-database_service.cpp:909-914 | the queue is copied and cleared in one step |
| LogQueues.LogService.WriteRecord | dev/cyberspace/src/cs-database_service.cpp:916-922 | the first record of the batch goes to the output |
| FileExporter.EveryRunConserves | dev/cyberspace/src/cs-log_file_exporter.cpp:85-195 | in every schedule, across every change of file, written, held and queued are together what was accepted, in order |
| FileExporter.CrashesOnlyUnentered | dev/cyberspace/src/cs-log_file_exporter.cpp:111-195 | as long as no fopen fails, a worker that has stopped has crashed exactly when Close came before its first loop test |
| FileExporter.EndDecided | dev/cyberspace/src/cs-log_file_exporter.cpp:177-195 | whether or not an fopen failed, from its last loop test on the worker crashes exactly when it then has no file |
| FileExporter.FailedOpening | dev/cyberspace/src/cs-log_file_exporter.cpp:120-175 | after a failed fopen the worker tries again in the next turn, unless messages have come in, which it writes to no file |
| FileExporter.ClosedTooEarly | dev/cyberspace/src/cs-log_file_exporter.cpp:75-79 | closing before the first loop test loses an accepted message and runs the drain without a file |
| FileExporter.FinalDrain | dev/cyberspace/src/cs-log_file_exporter.cpp:177-195 | when the worker ends properly the files hold everything accepted up to the final take, and later messages stay queued |
| FileExporter.Exporting.OutputMessage | dev/cyberspace/src/cs-log_file_exporter.cpp:85-105 | null and empty strings are ignored, anything else is stamped and queued |
| FileExporter.StampedExample | dev/cyberspace/src/cs-log_file_exporter.cpp:85-105 | a message is queued as its time, a colon between blanks, and its text |
| FileExporter.Exporting.ChangeFile | dev/cyberspace/src/cs-log_file_exporter.cpp:120-148 | a file is opened when there is none or the day has changed; if that fails there is none |
| FileExporter.Exporting.WriteLine | dev/cyberspace/src/cs-log_file_exporter.cpp:161-164 | the first message of the batch goes to the open file; without one there is nowhere to write it |
| ObjDescriptor.EveryRunBalanced | dev/cyberspace/src/cs-obj_descriptor.cpp:45-183 | in every run the net count delivered for an object is the number of live descriptors that hold it |
| ObjDescriptor.AllGone | dev/cyberspace/src/cs-obj_descriptor.cpp:98-111 | when no descriptor is left every count is back at zero |
| ObjDescriptor.TypeKept | dev/cyberspace/src/cs-obj_descriptor.cpp:145-183 | as long as it lives a descriptor with a type keeps that type |
| ObjDescriptor.AssignmentRefused | dev/cyberspace/src/cs-obj_descriptor.cpp:160-164 | an assignment across types changes nothing and calls nobody; any other makes the target hold what the source holds |
| ObjDescriptor.SelfAssignmentDips | dev/cyberspace/src/cs-obj_descriptor.cpp:166-180 | self-assignment lets the count drop by one first, to zero exactly if no other descriptor holds the object |
| ObjDescriptor.Descriptor.Create | dev/cyberspace/src/cs-obj_descriptor.cpp:66-82 | the callback is told once that the object is held |
| ObjDescriptor.Descriptor.Copy | dev/cyberspace/src/cs-obj_descriptor.cpp:88-92 | the copy holds what the source holds, whatever its type, and says so once |
| ObjDescriptor.Descriptor.Assign | dev/cyberspace/src/cs-obj_descriptor.cpp:145-183 | release, then hold, in this order, or nothing across types |
| ObjDescriptor.Descriptor.Destroy | dev/cyberspace/src/cs-obj_descriptor.cpp:98-111 | the callback is told once that the object is released |
| PathSearch.Searcher.SteepestNeighbour | dev/algorithmic/src/ob_path_search.cpp:286-304 | the neighbour chosen has the smallest label around the cell |
| PathSearch.Searcher.Search | dev/algorithmic/src/ob_path_search.cpp:193-268 | from the initialised labels to the end of the exploration, for two different cells and any start, as a best-first run from the opening state |
| PathSearch.Searcher.Locate | dev/algorithmic/src/ob_path_search.cpp:163-275 | for every request: it is done exactly when refused or when the start cell has no neighbour, and otherwise backtracking starts, from the labels and the end cell of a best-first run; it can be left exactly when the start is not cell 0 |
| PathSearch.Searcher.Improve | dev/algorithmic/src/ob_path_search.cpp:233-257 | a better label is written, queued with its key and compared with the nearest cell so far: exactly one look of the search without a queue |
| AesState.InvSubBytes | dev/algorithmic/src/crypt-aes.cpp:359-370 | in place, exactly the sixteen bytes at the offset go back through the inverse table |
| AesBuffers.BlockCopy | dev/algorithmic/src/crypt-aes.cpp:446-454 | sixteen bytes are copied and the rest of the output stays |
| AesBuffers.XorWithIv | dev/algorithmic/src/crypt-aes.cpp:505-513 | the vector is added to sixteen bytes and the rest of the buffer stays |
| Md5Block.Decode | dev/algorithmic/src/crypt-md5.cpp:106-114 | the sixteen words of a block, least significant byte first |
| Md5Stream.State.Init | dev/algorithmic/src/crypt-md5.cpp:251-258 | the state describes the empty message |
| Base32.EncodeSequence | dev/algorithmic/src/crypt-base32.cpp:173-198 | the eight characters of one group, padding included; the rest of the output stays |
| LogQueues.LogService.TestAlive | dev/cyberspace/src/cs-database_service.cpp:907 | the worker goes on exactly if the service is alive |
| LogQueues.LogService.FinishBatch | dev/cyberspace/src/cs-database_service.cpp:916-924 | the worker returns to its loop test |
| LogQueues.LogService.Shutdown | dev/cyberspace/src/cs-database_service.cpp:101 | nothing but the alive flag changes |
| FileExporter.Exporting.CloseLog | dev/cyberspace/src/cs-log_file_exporter.cpp:75-79 | nothing but the live flag changes |
| FileExporter.Exporting.TestLive | dev/cyberspace/src/cs-log_file_exporter.cpp:118 | the worker enters its loop body exactly if the flag is still set |
| FileExporter.Exporting.CollectBatch | dev/cyberspace/src/cs-log_file_exporter.cpp:154-159 | the queue is taken and cleared in one step |
| FileExporter.Exporting.DrainBatch | dev/cyberspace/src/cs-log_file_exporter.cpp:179-184 | the rest of the queue is taken after the loop |
| FileExporter.Exporting.WriteRestLine | dev/cyberspace/src/cs-log_file_exporter.cpp:186-189 | a remaining message goes to the file; without one there is nowhere to write it |
| FileExporter.Exporting.CloseFile | dev/cyberspace/src/cs-log_file_exporter.cpp:191-193 | the file is closed and forgotten |
| FileExporter.Exporting.Enter | dev/cyberspace/src/cs-log_file_exporter.cpp:115-118 | the worker begins with the day it was started on |
| FileExporter.Exporting.FlushBatch | dev/cyberspace/src/cs-log_file_exporter.cpp:174-175 | with the batch written out the worker returns to its loop test |
| ObjDescriptor.Descriptor.Default | dev/cyberspace/src/cs-obj_descriptor.cpp:45-60 | an untyped descriptor that tells nobody |

## Left out

- PathSearch.Searcher.SearchInMap: asks for 2 * distance + 8 below 2047, up to which the queue cannot overflow, width at least 2, map cells 1 or 10000, and both points inside the map; the source does not check these. Longer requests, on which the source drops queue entries, are not modelled. What the source does once it has written past PathPos is not modelled.
- PathWaypoints.WorldSearch.Find: the same restrictions; what the source does once it has written past PathPos, PathX or PathY is not modelled.
- PathQueue.Queue.ShrinkQueue: is not called on an empty queue by the search, and is not modelled there. Which of several entries with equal keys comes out first is not fixed by its contract.
- The neighbour offset table is a static set up by the first search; searches on maps of different widths in one process, and reuse of the object through Init and Close, are not modelled.
- Flood.Flooder.ADiffuse: asks for four directions, a non-walkable border and a range that fits a short; the packing of coordinates into one word and the eight-direction tables, which the code never reads, are not modelled.
- Flood.ASearchTo: reads the labels of a finished flood with a non-walkable border; start and target lie in the grid.
- The stream, file and assembly variants of the checksum classes are not modelled.
- AesBuffers.EncryptBuffer: the buffers hold every byte the call touches, which the source does not check. Without a key the schedule is whatever the unset local array held, an arbitrary value here. Output and input are the same buffer or do not overlap, and key and vector are separate from both.
- AesBuffers.DecryptBuffer: the same restrictions as for encryption.
- AesCipher.KeyExpansion: Rcon has the eleven entries a 128-bit key can reach.
- Md5Stream.State.Append: the length counter follows the 32-bit arithmetic of the code with shifts taken modulo 2^32; the sum of buffered and new bytes must fit an int. The hexadecimal printing of the digest is left out.
- Base32.Decode: asks that the good characters end within the whole groups of eight, as they do at every length divisible by eight; otherwise the source writes over the end of its string.
- RecordAddress.SplitRecordAddress: takes the same condition over from the decoder; only the delimiter '@' and byte characters are modelled.
- Base64.Decode: isalnum is taken in the C locale.
- Pc1.PC1Coder.Code: products are taken modulo 2^16; PasswdEnc32 is left out.
- LogQueues.EveryRunConserves: one start of the service; configuring it again while old workers still run is not modelled. The database is an output list; clocks and sleeps are left out.
- FileExporter.EveryRunConserves: one Open per object; what an fwrite without a file does is a crash here; the 30-second limit of Close is left out.
- ObjDescriptor.EveryRunBalanced: the reference callback does not change the descriptor's object through the pointer it is given.
- Sockets, servers, configuration files, SQL text, windows, serialisation and the unfinished or duplicate searches and coders are not modelled.
