# GEARS maze robot: move log and map builder, in Dafny

The system is a wall-following maze robot (`GEARS`) and the map builder (`Map_Generator`)
that turns the robot's move log into a grid map. This project models both halves, from
`files_from_demo/GEARS.py` and `files_from_demo/map_generator.py`.

- **Move log** (`move_log.dfy`, module `MoveLog`). A record is a code and a value. Codes
  0–3 are headings (N, E, S, W), 4 is END, 5 is a magnetic hazard, 6 an IR hazard and
  7 is START. Values are `real`; the value of a leg is a whole number of cells.
- **Dimension pass** (`map_dimension.dfy`, `MapDimension`). `calculate_dimension` is a
  method with a loop. It is proved against the fold `Scan`, and the lemmas about `Scan`
  state the bounding-box facts: width ≥ 1, origin column in range, height as the
  running maximum, end position as the net displacement.
- **Replay** (`map_raster.dfy`, `MapRaster`). The cursor, the cells each record writes
  and the grid and hazard rows after n records are stated on values (`Cursor`, `Writes`,
  `Rasterize`, `Consumed`). The key lemma, `WritesWithinDimension`, ties the two passes
  together: every cell the replay writes is inside the grid the first pass sized, as
  long as no write falls below row 0. `FrameOf` is the sizing that also keeps the
  lowest row, and `CorrectedWritesFit` shows it holds every write (see "Findings").
- **Rendering** (`map_render.dfy`, `MapRender`). The lines `print_map` prints and the
  rows `export_map` writes are functions of the grid, with read-back lemmas.
- **Map builder** (`map_generator.dfy`, `MapGen`).
  - `ConvertToMatrix` works in place on an `array` of records, because the source
    rewrites the caller's START record. Its loop body is split by record kind
    (`ReplayLeg`, `MarkCursor`), and the inner loop over a leg's cells is `StepLeg`.
  - `PrintMap` and `ExportMap` are the loops of the source.
  - The `MapGenerator` class runs them in the order of its constructor.
- **Robot** (`gears.dfy`, `Gears`).
  - The loop body of `traverse_maze` is the function `Step`, one sensor snapshot per
    tick, and `Finish` is the interrupt handler.
  - `straight_control` is `PidControl`.
  - The `Robot` class keeps the controller fields and the loop's state. Its `Tick`,
    `Finalize`, `StraightControl` and `TraverseMaze` methods are proved against those
    functions. `Tick` takes the branch of the loop body and calls one method per
    branch: `AvoidHazard`, `TurnLeft`, `FollowWall` or `TurnIntoOpening`.
  - `Traversing` is the loop invariant: heading in 0..3, a log that starts with START
    and ends with the open leg, legs turning by quarter turns, and a balanced
    integral term.
- **Pipeline** (`pipeline.dfy`). A finished robot log meets the map builder's
  preconditions on records. For the example in `map_generator.py`'s main, the
  dimensions, the cursor, the cells each record writes and the hazard rows are worked
  out. On a three-record log, a second replay of the same log object differs from
  the first.

Sensor values are parameters: the ultrasonic distances, the magnetic magnitude (the
square root the source computes) and the mean of the two IR channels. Motor commands
are returned as `Motion` values.

Two behaviours of the code that a reader of the map builder might not expect:

- `convert_to_matrix` rewrites the START record to NORTH in the caller's list when the
  first leg marks its first cell (`map_generator.py:69-71`). A second replay of that
  list therefore marks no START cell. `Pipeline.ReplayNotRepeatable` shows the two
  grids differ, for the log START; north 2; END.
- The map builder does not check the log. Malformed records fail inside Python (a
  float leg length in `range`), or are read in a way the log's author did not mean (a
  first leg silently reads the last record, `array[-1]`). Rows below 0 fail only
  below −height; rows −1 to −height are taken as rows from the top. The model states
  the code's demands as preconditions (see "Left out"), and "Findings" records the
  rows below 0 as a defect.

## Model

| member | source | states |
|---|---|---|
| MapDimension.CalculateDimension | files_from_demo/map_generator.py:99-131 | Returns the fold of the log (`DimensionOf`). Width ≥ 1 and 0 ≤ origin column < width. The height is the largest y of any prefix (reached by one, 0 at the origin). The columns −start and width − 1 − start are the smallest and largest x of any prefix, each reached by one. For a well-formed log the end position is east−west and north−south |
| MapDimension.AdvanceKeepsBox | files_from_demo/map_generator.py:114-126 | One record of the pass (`Advance`): END and the hazards change nothing. x_min only falls, x_max and the height only grow, each new bound is the old one or the new position, and a position inside the box stays inside it |
| MapDimension.ScanReaches | files_from_demo/map_generator.py:108-126 | After n records, every prefix's position lies in the column range and at or below the height, and the height, x_min and x_max are each the y or x of some prefix |
| MapDimension.AdvanceByCode | files_from_demo/map_generator.py:114-126 | The factors `(1 - code) * d` and `(2 - code) * d` move y by +d for N and −d for S, and x by +d for E and −d for W. END and the hazards move nothing |
| MapDimension.ScanBounds | files_from_demo/map_generator.py:108-126 | After every prefix, x_min ≤ 0 ≤ x_max, x_min ≤ x ≤ x_max, height ≥ 0 and y ≤ height |
| MapDimension.ScanMonotone | files_from_demo/map_generator.py:119-126 | x_min never grows, and x_max and height never shrink, as the log is read |
| MapDimension.NetDisplacement | files_from_demo/map_generator.py:114-131 | Final y = total north − total south. Final x = total east − total west − 5 × total START |
| MapDimension.WellFormedSizable | files_from_demo/map_generator.py:114-126 | A well-formed log can be sized: every record the pass adds up is whole |
| MapDimension.LowestRow | files_from_demo/map_generator.py:108-131 | The y minimum `calculate_dimension` does not keep: the lowest row the first n records write, never above 0 |
| MapDimension.FrameOf | files_from_demo/map_generator.py:128-131 | The corrected sizing: the same width and origin column, and `base` ≥ 0 extra rows below the height, one for each row written below 0 |
| MapDimension.LowestRowBelow | files_from_demo/map_generator.py:108-131 | The lowest row after n records is at or below the lowest row of each of the first n records |
| MapDimension.StartAddsNothing | files_from_demo/map_generator.py:115-122 | In a well-formed log START (value 0) adds nothing, although it takes the odd-code branch |
| MapGen.CreateMatrix | files_from_demo/map_generator.py:87-97 | Exactly y rows of x cells each, all EMPTY (no rows or empty rows for a negative count) |
| MapRaster.Paint | files_from_demo/map_generator.py:70-81 | Writing one cell keeps the grid's shape |
| MapRaster.PaintLeg | files_from_demo/map_generator.py:59-73 | Marking a leg's cells keeps the grid's shape |
| MapRaster.RecordEffect | files_from_demo/map_generator.py:56-82 | One record keeps the grid's shape, keeps every hazard row so far, and adds at most one |
| MapRaster.Rasterize | files_from_demo/map_generator.py:56-82 | The replay of n records keeps the matrix's shape and writes at most one hazard row per record |
| MapRaster.Consumed | files_from_demo/map_generator.py:69-71 | The log after the replay has the same length and values. Each record is unchanged, or was START and is now NORTH |
| MapRaster.WalkIsShift | files_from_demo/map_generator.py:59-67 | Stepping a leg one cell at a time ends d cells away in its direction |
| MapRaster.LegCellsAt | files_from_demo/map_generator.py:58-73 | A leg of d visits exactly max(d, 0) cells, the k-th one k+1 cells from the start |
| MapRaster.LegCellsDistinct | files_from_demo/map_generator.py:58-73 | A leg never steps on the same cell twice |
| MapRaster.CursorTracksScan | files_from_demo/map_generator.py:47-67 | For a well-formed log, the replay's cursor after n records is the dimension pass's (x, y − 1) |
| MapRaster.RecordWritesInBox | files_from_demo/map_generator.py:56-82 | Each cell a record writes lies between x_min and x_max and below the height reached after that record |
| MapRaster.WritesWithinDimension | files_from_demo/map_generator.py:47-82 | If the cursor row is ≥ 0 at every write, every written index has 0 ≤ y < height and 0 ≤ start + x < width |
| MapRaster.RecordWritesAboveFloor | files_from_demo/map_generator.py:56-82 | No cell a record writes lies below the lowest row the corrected pass takes for it |
| MapRaster.RowFloorAttained | files_from_demo/map_generator.py:56-82 | When a record's lowest row is not 0, one of its cells lies on that row |
| MapRaster.LowestRowZero | files_from_demo/map_generator.py:108-131 | If no write falls below row 0, the lowest row stays 0 |
| MapRaster.CorrectedWritesFit | files_from_demo/map_generator.py:26-31 | Under the corrected sizing every cell the replay writes of any well-formed log is a matrix cell, rows shifted by `base` and columns by `start` |
| MapRaster.WriteInFrame | files_from_demo/map_generator.py:56-82 | One written cell lies inside the corrected frame |
| MapRaster.FrameAgrees | files_from_demo/map_generator.py:99-131 | The corrected sizing adds rows exactly when some write falls below row 0. Otherwise it equals `calculate_dimension`'s width, height and origin column |
| MapRaster.PaintLegEffect | files_from_demo/map_generator.py:59-73 | Marking a leg keeps the shape and marks its first cell with the given code and the rest PATH. Every other cell is unchanged |
| MapRaster.PaintLegKeepsCodes | files_from_demo/map_generator.py:69-73 | Marking a leg keeps every cell code in 0..5 and keeps the shape |
| MapRaster.RasterizeKeepsCodes | files_from_demo/map_generator.py:56-82 | The replay over an all-known-codes matrix keeps the shape and leaves only codes 0..5 |
| MapRaster.LegRecordEffect | files_from_demo/map_generator.py:58-73 | A leg record marks exactly its max(d, 0) cells, the first START after a START record and the rest PATH. No other cell and no hazard row changes |
| MapRaster.MarkRecordEffect | files_from_demo/map_generator.py:75-82 | END marks the cursor cell 4, magnetic 3 and IR 2. A hazard appends exactly its one row, END appends none, and no other cell changes |
| MapRaster.RecordEffectSpec | files_from_demo/map_generator.py:56-82 | For one record, a leg of d marks max(d, 0) cells: the first is START after a START record, the rest PATH. END marks 4, magnetic 3 and IR 2, and each hazard appends one row (floor(value), (start + x)·5, y·5). Other cells and rows are unchanged |
| MapGen.ConvertToMatrix | files_from_demo/map_generator.py:36-85 | The returned grid and hazard rows are the replay of the original log, and the log array becomes `Consumed`: each START in front of a moving leg is rewritten to NORTH |
| MapGen.ReplayLeg | files_from_demo/map_generator.py:56-73 | For a leg record, the loop state after it is the replay of one more record: grid, cursor and the log rewritten up to the record before it |
| MapGen.MarkCursor | files_from_demo/map_generator.py:75-82 | For any other record, the loop state after it is the replay of one more record: END and the hazards mark the cursor cell, each hazard adds its row, and the log is untouched |
| MapGen.StepLeg | files_from_demo/map_generator.py:59-73 | The inner loop marks the leg's cells in order and ends d cells on. It rewrites the record before the leg to NORTH exactly when that record is START and the leg moves, and changes no other record |
| MapGen.LegCell | files_from_demo/map_generator.py:59-73 | One step of a leg moves the cursor one cell on and marks it. What is left to paint is the rest of the leg. Only the record before the leg can change, and only START to NORTH |
| MapGen.Move | files_from_demo/map_generator.py:60-67 | One step moves the cursor one cell in the leg's heading |
| MapGen.MarkFor | files_from_demo/map_generator.py:69-73 | The step marks START exactly when the record before the leg is START, which becomes NORTH. Every other record is unchanged |
| MapGen.FreshMatrixFits | files_from_demo/map_generator.py:26-31 | A controller-shaped log whose cursor stays at row ≥ 0 replays inside the matrix `create_matrix` builds for its dimensions |
| MapGen.PrintMap | files_from_demo/map_generator.py:133-167 | Returns the reversed rows and exactly the lines `RenderLines` gives: a border before the first row (built from the first row's width), one line per row north first, and a border after |
| MapRender.Reversed | files_from_demo/map_generator.py:141 | The reversed map has as many rows as the map |
| MapRender.ReversedTwice | files_from_demo/map_generator.py:141 | Reversing twice gives the map back |
| MapRender.Glyph | files_from_demo/map_generator.py:146-157 | Every cell code 0..5 has a two-character picture starting with a space |
| MapRender.RenderLines | files_from_demo/map_generator.py:139-167 | `print_map` prints one line per row and two borders (one border for an empty map), and the first and last lines are the same border |
| MapRender.ExportLines | files_from_demo/map_generator.py:185-188 | `export_map` writes one line per row, each ending in a newline |
| MapRender.GlyphRoundTrip | files_from_demo/map_generator.py:146-157 | The letter of each cell code's picture reads back as that code |
| MapRender.GlyphsAt | files_from_demo/map_generator.py:143-158 | The pictures of a row are two characters per cell, a space and then the letter of the cell's code |
| MapRender.RowLineRoundTrip | files_from_demo/map_generator.py:143-165 | A printed row is '#', two characters per cell, then ' #'. It is 2w + 3 characters long and reading its glyphs back gives the row |
| MapRender.BorderLine | files_from_demo/map_generator.py:139-162 | The border is 2w + 3 characters: '#' then w + 1 copies of " #" |
| MapRender.RenderLinesShape | files_from_demo/map_generator.py:139-167 | For a rectangular grid: rows + 2 lines, the first and last the same border, every line 2w + 3 wide, and line k + 1 reads back as row k |
| MapGen.ExportMap | files_from_demo/map_generator.py:169-188 | Returns one line per row: the first len(map[1]) cells, each followed by a comma, then a newline |
| MapGen.CsvRow | files_from_demo/map_generator.py:186-187 | The inner loop writes the first `width` cells of the row, each followed by a comma |
| MapRender.CsvCellsRoundTrip | files_from_demo/map_generator.py:185-188 | An exported row of single-digit cells is two characters per cell with a comma second, and reads back as the row |
| MapGen.MapGenerator.constructor | files_from_demo/map_generator.py:18-34 | Fields hold the dimensions of the log. The map matrix is the reversed replay of the log over a fresh matrix, with codes 0..5, `height` rows of `width` cells. Printed lines and exported rows are those of the reversed matrix, and the input array ends up consumed |
| Gears.RightOf | files_from_demo/GEARS.py:68 | For a heading in 0..3, the right turn is (h + 1) mod 4 |
| Gears.LeftOf | files_from_demo/GEARS.py:84 | For a heading in 0..3, the left turn is (h + 3) mod 4 |
| Gears.TurnsCancel | files_from_demo/GEARS.py:68-84 | Left and right turns undo each other, and four right turns come back to the start |
| Gears.TrackingError | files_from_demo/GEARS.py:145 | The error is 0 exactly at 6 cm and positive exactly when closer than 6. It is never below −6, and is pinned to −6 from 11 cm on |
| Gears.PidControl | files_from_demo/GEARS.py:139-157 | The wheel factors sum to 2 and prevErr becomes the error. The integral grows by 0.75 × the change in error, so a balanced state (iError = 0.75·prevErr) stays balanced |
| Gears.PidTelescopes | files_from_demo/GEARS.py:148-151 | Over any run of calls, the integral grows by 0.75 × the net change of the error |
| Gears.FromResetBalanced | files_from_demo/GEARS.py:34-35 | From the reset state 0/0, after any run of calls the integral is 0.75 × the last error |
| Gears.SteadySteering | files_from_demo/GEARS.py:145-154 | At a steady distance from a balanced state, the right wheel speeds up exactly when closer than 6 cm and the left exactly when farther. At 6 cm both factors are 1, so no kick |
| Gears.Initial | files_from_demo/GEARS.py:45-51 | The loop starts heading north, with distance 0, just_turned false, the controller state kept, and the log [START 0, north 0]: START followed by an open leg in the current heading |
| Gears.CloseLeg | files_from_demo/GEARS.py:67 | Closing keeps every record but the last and the last one's code. Its value becomes floor(distance) |
| Gears.Step | files_from_demo/GEARS.py:54-118 | A tick never rewrites the log's past: every record before the open leg and that leg's heading are kept, at most two records are appended, and at least one motor command is issued |
| Gears.StepBranches | files_from_demo/GEARS.py:64-118 | Hazard: the leg is closed with floor(distance) and the heading turns right. Then exactly [5, mag] if mag > 100, else [6, ir], and [heading, 0] are appended. Distance and PID go to 0, just_turned is kept, and the robot spins right. Left turn: the leg is closed, the heading turns left, one leg is appended, the PID is reset, and the robot spins left. Straight: the log is unchanged, distance + 0.25641, the PID is updated, and one drive at 180 × the PID's wheel factors. Open space: the leg is closed with floor(distance + 4.10256), the heading turns right, one leg is appended and distance is 1.28205. It drives, spins right for 1.2 s and drives when front > 15, else spins right and drives. After a left turn or a straight tick just_turned = right ≥ 20; after open space, just_turned = front > 15 |
| Gears.Finish | files_from_demo/GEARS.py:122-125 | The interrupt closes the open leg with floor(distance) and appends exactly one record, END |
| Gears.InitialTraversing | files_from_demo/GEARS.py:45-51 | The starting state satisfies the loop invariant when the controller state is balanced |
| Gears.CloseLegKeeps | files_from_demo/GEARS.py:67 | Closing with a non-negative distance keeps all codes and gives the leg a whole non-negative length |
| Gears.HazardKeeps | files_from_demo/GEARS.py:64-74 | A hazard tick keeps the invariant: the hazard sits between a leg and the leg to its right |
| Gears.WallKeeps | files_from_demo/GEARS.py:76-95 | Left-turn and straight ticks keep the invariant |
| Gears.OpenSpaceKeeps | files_from_demo/GEARS.py:97-118 | An open-space tick keeps the invariant |
| Gears.StepKeepsTraversing | files_from_demo/GEARS.py:54-120 | Every tick keeps the loop invariant: heading in 0..3, distance ≥ 0, START first, the open leg last, closed legs whole and non-negative, hazards holding their tripping reading, quarter turns between legs, and a balanced integral |
| Gears.RunKeepsTraversing | files_from_demo/GEARS.py:53-120 | Any number of ticks keeps the loop invariant |
| Gears.FinishIsFinished | files_from_demo/GEARS.py:122-125 | Finishing a traversing state gives a log that starts with START and ends with END. Every record in between is a leg of whole non-negative length or a hazard, and consecutive legs are quarter turns. The record before END is a leg, so every hazard, the last one included, sits between a leg and the leg to its right |
| Gears.TraversalLog | files_from_demo/GEARS.py:39-128 | Whatever the readings, the log of a traversal is a finished log: START first, END last with a leg just before it, and every hazard between a leg and the leg to its right |
| Gears.Robot.constructor | files_from_demo/GEARS.py:11-37 | Gains 3, 2 and 1.5, PID state 0/0 and an empty out_array |
| Gears.Robot.StraightControl | files_from_demo/GEARS.py:139-157 | Updates iError and prevErr as `PidControl` says and returns dps × rChange and dps × lChange. Nothing else changes |
| Gears.Robot.BeginTraversal | files_from_demo/GEARS.py:45-51 | The loop state becomes `Initial` and the PID fields are kept |
| Gears.Robot.Tick | files_from_demo/GEARS.py:54-120 | The new state and the motor commands are exactly `Step`'s |
| Gears.Robot.AvoidHazard | files_from_demo/GEARS.py:64-74 | On a hazard reading, the new state and motions are `Step`'s |
| Gears.Robot.TurnLeft | files_from_demo/GEARS.py:76-86 | Against a wall with the front blocked, the new state and motions are `Step`'s |
| Gears.Robot.FollowWall | files_from_demo/GEARS.py:88-95 | Against a wall with the front open, the new state and motions are `Step`'s |
| Gears.Robot.TurnIntoOpening | files_from_demo/GEARS.py:97-118 | With the wall on the right gone, the new state and motions are `Step`'s |
| Gears.Robot.Finalize | files_from_demo/GEARS.py:122-128 | The returned log, out_array and moves are `Finish` of the state. Heading, distance, just_turned and the PID state are kept |
| Gears.Robot.TraverseMaze | files_from_demo/GEARS.py:39-128 | With the interrupt after the given readings, the returned log, out_array and moves equal `TraversalLog` and form a finished log. Heading, distance, just_turned and the PID state are those the ticks left |
| Pipeline.FinishedLogAccepted | files_from_demo/GEARS.py:122-125 | A finished log is well formed for the map builder. It has no leg first, so the replay never reads `array[-1]`, and every leg is whole |
| Pipeline.TraversalFeedsMap | files_from_demo/GEARS.py:39-128 | Every traversal from the constructor's state yields a well-formed log. It starts with START, ends with END, and has no leg first |
| Pipeline.IdleRunBreaksMap | files_from_demo/map_generator.py:26-31 | A traversal interrupted before its first tick logs START; north 0; END. It is sized 1 × 0, so `create_matrix` gives no rows, yet END is written on row −1. The corrected sizing gives one row |
| Pipeline.SouthRunWrapsRows | files_from_demo/map_generator.py:56-82 | START; north 2; west 0; south 3; END is a log the controller can finish. It is sized 1 × 2, but the south leg writes rows 0, −1 and −2 and END row −2. The corrected sizing gives 4 rows, grid row 0 on matrix row 2 |
| Pipeline.ExampleRecordsOk | files_from_demo/map_generator.py:192 | Every record of the main's log is one the map builder accepts |
| Pipeline.ExampleScanFirstHalf | files_from_demo/map_generator.py:108-126 | After START, north 4, east 3 and south 1 the pass stands at (3, 3) with x range 0..3 and height 4 |
| Pipeline.ExampleScanSecondHalf | files_from_demo/map_generator.py:108-126 | The IR record and the zero-length west leg move nothing, and north 5 ends the pass at (3, 8) with height 8 |
| Pipeline.ExampleDimension | files_from_demo/map_generator.py:191-198 | The main's log gives width 4, height 8, origin column 0 and end (3, 8) |
| Pipeline.ExampleCursor | files_from_demo/map_generator.py:47-67 | The replay's cursor for the main's log: (0, −1), (0, 3), (3, 3), then (3, 2) through the hazard and the west leg, and (3, 7) |
| Pipeline.ExampleWrites | files_from_demo/map_generator.py:56-82 | The cells each record of the main's log writes: column 0 rows 0–3, row 3 columns 1–3, (3, 2) for the south leg and for the IR hazard, nothing for west 0, column 3 rows 3–7, and END at (3, 7) |
| Pipeline.ExampleHazards | files_from_demo/map_generator.py:80-82 | Whatever the grid, the main's log gives exactly one hazard row: heat, 0, 15, 10 |
| Pipeline.ConsumedHasNoLiveStart | files_from_demo/map_generator.py:69-71 | After the replay, no START record remains in front of a leg that moves |
| Pipeline.ReplayMarksNoStart | files_from_demo/map_generator.py:69-73 | Replaying a log with no START in front of a moving leg marks no cell START |
| Pipeline.ShortReplay | files_from_demo/map_generator.py:56-82 | START (or NORTH 0); north 2; END over a 1 × 2 matrix gives [[START or PATH], [END]] |
| Pipeline.ReplayNotRepeatable | files_from_demo/map_generator.py:69-71 | START; north 2; END sizes a 1 × 2 matrix and replays to [[5], [4]]. Replaying the same list again gives [[1], [4]] |

## Left out

- Hardware and timing: the BrickPi3, GrovePi, MPU9250 and IR sensor set-up and reads
  (`GEARS.py:14-24, 55-62`), every `set_motor_dps` call and all `time.sleep` delays.
  Readings are parameters of `Step` and `Tick`. Motor commands appear only as the
  `Motion` values a tick returns.
- The turn primitives `turn_right`, `turn_left`, `turn_right_PID` and `straight`. They
  only drive motors, so they are reduced to the `Motion` they issue. `turn_clockwise`,
  `show_label`, `show_mag`, `show_ir`, `test_control` and `stop` are hardware or
  diagnostic loops and are not modelled.
- The `KeyboardInterrupt` exception. The interrupt is modelled as the end of the
  reading sequence, and `Finalize` is the handler.
- Gears.TraversalLog: the interrupt is taken only between ticks. In the code it can
  arrive inside a tick, most likely during a sleep, and those logs are not modelled.
  Two examples. During `time.sleep(.5)` (`GEARS.py:117`) the new leg is already
  appended and `distance` is 0, so the handler closes that leg as 0, not 1. Between
  the hazard append (`GEARS.py:71` or `73`) and line 74, the handler overwrites the
  hazard's reading with floor(0) = 0, so the hazard does not keep its tripping reading.
- Printing and files. `print_map` returns its lines instead of printing them.
  `export_map` returns its rows, without the file's four header lines. The hazard file
  is the list of hazard rows `ConvertToMatrix` returns, without its header lines and
  text formatting.
- `distance_const` and `turn_time`: set but never used by the modelled code.
- `files_from_demo/main.py` is not part of this model: it only reads input and
  constructs objects.
- Floating point. Distances, readings and PID values are exact `real`s, so rounding in
  `0.25641`-style increments is not modelled.
- Python's negative indexing is ruled out by preconditions rather than modelled:
  `array[-1]` for a first leg, a write to a row below 0, and `map[1]` on a one-row
  map. Columns never go below 0 (`MapRaster.RecordWritesInBox`). Rows below 0 do
  occur in robot logs. A row from −1 to −height lands silently in a row counted from
  the top, and a lower row raises `IndexError` (see "Findings").
- Gears.Robot: the locals of `traverse_maze` (direction, distance, just_turned, moves)
  are kept as fields, so one tick can be taken at a time. The source holds them as
  locals of one call.
- MapGen.ConvertToMatrix: requires every leg length to be whole (`range()` rejects a
  float), no moving leg as the first record (`array[-1]`), and every written cell
  inside the matrix.
- MapGen.MapGenerator.constructor: requires a controller-shaped log
  (`MoveLog.WellFormed`), a cursor row ≥ 0 at every write, and a height of at least
  2 (for `map[1]`).
- MapGen.PrintMap: requires every cell code in 0..5. For another code the source
  reuses the previous cell's glyph, or fails on the first cell.
- MapGen.ExportMap: requires at least two rows, and every row at least as long as row 1.
- Gears.Robot.Tick: requires a non-empty log (`moves[-1]`). The state from
  `BeginTraversal` always has one.
- MapRaster.Paint: total, so a write outside the grid leaves the grid unchanged. The
  replay only uses it where `WritesWithinDimension` has shown the write is inside.
- Two consecutive hazard records of different kinds: the controller never produces
  them (`Gears.Traversing` puts a leg after every hazard). For the map builder,
  `MapRaster.RecordEffectSpec` shows each hazard record adds its own row of its own kind.

## Findings

| source | as written | input that shows it | evidently intended | confidence | as-written member | corrected member |
|---|---|---|---|---|---|---|
| files_from_demo/map_generator.py:108-131 | `calculate_dimension` keeps no minimum y. The height is the largest y reached, and the replay starts at row −1, so a write below row 0 has no row of its own | START; north 0; END, the log of a traversal interrupted before its first tick: it is sized 1 × 0, `create_matrix` returns `[]`, and END at row −1 raises `IndexError` | keep the lowest row written, as x_min is kept for columns, and offset the rows by it | not executed | Pipeline.IdleRunBreaksMap | MapRaster.CorrectedWritesFit |
| files_from_demo/map_generator.py:56-82 | A write to a row from −1 to −height goes through Python's negative indexing into a row counted from the top, with no error | START; north 2; west 0; south 3; END: sized 1 × 2, the south leg writes rows −1 and −2, which are rows 1 and 0. The START mark and the north leg's cells are overwritten, and END lands on row 0 | the same corrected sizing: 4 rows, with grid row 0 on matrix row 2 | not executed | Pipeline.SouthRunWrapsRows | MapRaster.FrameAgrees |

The corrected sizing is `MapDimension.FrameOf`. `MapRaster.FrameAgrees` proves it equals
`calculate_dimension`'s sizing exactly when no write falls below row 0. That is the
precondition under which `MapGen.ConvertToMatrix` and `MapGen.MapGenerator` model the
code as written, so the rest of the model uses the corrected sizing on every log it accepts.
