/** The replay pass of the map builder (`convert_to_matrix`), stated on values:
    where the cursor is, which cells each record writes, and what the grid and the
    hazard list are after the first n records. */
module MapRaster {
  import opened MoveLog
  import opened MapDimension

  // Cell codes of the grid.
  const EMPTY := 0
  const PATH := 1
  const IR_CELL := 2
  const MAGNETIC_CELL := 3
  const END_CELL := 4
  const START_CELL := 5

  /** Hazard coordinates are cell coordinates times this many centimetres. */
  const UNIT_LENGTH := 5

  /** A cursor position: x relative to the origin column, y the row. */
  datatype Pos = Pos(x: int, y: int)

  datatype HazardKind = MagneticSource | HeatSource

  /** One hazard row: kind, floor of the sensor value, world coordinates. */
  datatype Hazard = Hazard(kind: HazardKind, parameter: int, x: int, y: int)

  /** Grid and hazard list produced so far. */
  datatype Raster = Raster(grid: seq<seq<int>>, hazards: seq<Hazard>)

  /** One cell in the leg's direction. */
  function Next(p: Pos, code: int): Pos
    requires IsLeg(code)
  {
    if code == NORTH then Pos(p.x, p.y + 1)
    else if code == EAST then Pos(p.x + 1, p.y)
    else if code == SOUTH then Pos(p.x, p.y - 1)
    else Pos(p.x - 1, p.y)
  }

  /** n cells in the leg's direction, in closed form. */
  function Shift(p: Pos, code: int, n: int): Pos
    requires IsLeg(code)
  {
    if code == NORTH then Pos(p.x, p.y + n)
    else if code == EAST then Pos(p.x + n, p.y)
    else if code == SOUTH then Pos(p.x, p.y - n)
    else Pos(p.x - n, p.y)
  }

  /** Where the cursor ends after stepping n cells. */
  function Walk(p: Pos, code: int, n: int): Pos
    requires IsLeg(code)
    decreases n
  {
    if n <= 0 then p else Walk(Next(p, code), code, n - 1)
  }

  /** The cells a leg of n steps visits, in order. */
  function LegCells(p: Pos, code: int, n: int): seq<Pos>
    requires IsLeg(code)
    decreases n
  {
    if n <= 0 then [] else [Next(p, code)] + LegCells(Next(p, code), code, n - 1)
  }

  /** The cursor after the first n records; it starts one row below row 0. */
  function Cursor(log: seq<Record>, n: nat): Pos
    requires n <= |log|
  {
    if n == 0 then Pos(0, -1)
    else
      var p := Cursor(log, n - 1);
      if IsLeg(log[n - 1].code) then Walk(p, log[n - 1].code, Cells(log[n - 1])) else p
  }

  /** The cells record i writes, in order: each cell a leg steps onto, or the
      cursor's own cell for END and hazard records. */
  function Writes(log: seq<Record>, i: nat): seq<Pos>
    requires i < |log|
  {
    var p := Cursor(log, i);
    if IsLeg(log[i].code) then LegCells(p, log[i].code, Cells(log[i]))
    else if log[i].code == END || IsHazard(log[i].code) then [p]
    else []
  }

  /** The record just before leg i is START: its first cell is marked START. */
  predicate AfterStart(log: seq<Record>, i: nat)
    requires i < |log|
  {
    i > 0 && log[i - 1].code == START
  }

  /** The grid cell of a cursor position, given the origin column. */
  predicate Inside(g: seq<seq<int>>, start: int, p: Pos) {
    0 <= p.y < |g| && 0 <= start + p.x < |g[p.y]|
  }

  /** The cell of p is in the grid and holds v. */
  predicate CellIs(g: seq<seq<int>>, start: int, p: Pos, v: int) {
    Inside(g, start, p) && g[p.y][start + p.x] == v
  }

  /** Every cell the replay writes is a cell of the grid. */
  predicate WritesInside(log: seq<Record>, start: int, g: seq<seq<int>>) {
    forall i, c :: 0 <= i < |log| && c in Writes(log, i) ==> Inside(g, start, c)
  }

  /** Every cell the replay writes has row >= 0 (no write through `matrix[-1]`). */
  predicate RowsNonNegative(log: seq<Record>) {
    forall i, c :: 0 <= i < |log| && c in Writes(log, i) ==> c.y >= 0
  }

  /** Write v into the cell of p; a position outside the grid changes nothing
      (the replay only writes inside, see WritesInside). */
  function Paint(g: seq<seq<int>>, start: int, p: Pos, v: int): (r: seq<seq<int>>)
    ensures SameShape(r, g)
  {
    if Inside(g, start, p) then g[p.y := g[p.y][start + p.x := v]] else g
  }

  /** Mark the cells of a leg in order, the first with `first` and the rest PATH. */
  function PaintLeg(g: seq<seq<int>>, start: int, cells: seq<Pos>, first: int): (r: seq<seq<int>>)
    ensures SameShape(r, g)
    decreases |cells|
  {
    if cells == [] then g else PaintLeg(Paint(g, start, cells[0], first), start, cells[1..], PATH)
  }

  /** What record i adds to the grid and to the hazard list: the grid keeps its shape,
      and the hazard rows so far stay, with at most one added. */
  function RecordEffect(s: Raster, log: seq<Record>, start: int, i: nat): (t: Raster)
    requires i < |log|
    ensures SameShape(t.grid, s.grid)
    ensures |s.hazards| <= |t.hazards| <= |s.hazards| + 1 && t.hazards[..|s.hazards|] == s.hazards
  {
    var r := log[i];
    var p := Cursor(log, i);
    if IsLeg(r.code) then
      Raster(PaintLeg(s.grid, start, Writes(log, i), if AfterStart(log, i) then START_CELL else PATH), s.hazards)
    else if r.code == END then
      Raster(Paint(s.grid, start, p, END_CELL), s.hazards)
    else if r.code == MAGNETIC then
      Raster(Paint(s.grid, start, p, MAGNETIC_CELL),
             s.hazards + [Hazard(MagneticSource, r.value.Floor, (start + p.x) * UNIT_LENGTH, p.y * UNIT_LENGTH)])
    else if r.code == IR then
      Raster(Paint(s.grid, start, p, IR_CELL),
             s.hazards + [Hazard(HeatSource, r.value.Floor, (start + p.x) * UNIT_LENGTH, p.y * UNIT_LENGTH)])
    else s
  }

  /** Grid and hazards after replaying the first n records over g0: the grid keeps
      g0's shape, and there is at most one hazard row per record. */
  function Rasterize(log: seq<Record>, start: int, g0: seq<seq<int>>, n: nat): (r: Raster)
    requires n <= |log|
    ensures SameShape(r.grid, g0) && |r.hazards| <= n
  {
    if n == 0 then Raster(g0, [])
    else RecordEffect(Rasterize(log, start, g0, n - 1), log, start, n - 1)
  }

  /** A leg that actually moves. */
  predicate Moves(log: seq<Record>, j: nat)
    requires j < |log|
  {
    IsLeg(log[j].code) && Cells(log[j]) >= 1
  }

  /** The log after the replay: a START directly followed by a leg that moves has
      been rewritten to NORTH, so it cannot mark a second cell. */
  function Consumed(log: seq<Record>): (r: seq<Record>)
    ensures |r| == |log|
    ensures forall j :: 0 <= j < |log| ==>
      r[j].value == log[j].value && (r[j] == log[j] || (log[j].code == START && r[j].code == NORTH))
  {
    seq(|log|, j requires 0 <= j < |log| =>
      if log[j].code == START && j + 1 < |log| && Moves(log, j + 1)
      then log[j].(code := NORTH) else log[j])
  }

  /** Same number of rows and the same length for every row. */
  predicate SameShape(g: seq<seq<int>>, h: seq<seq<int>>) {
    |g| == |h| && forall r :: 0 <= r < |g| ==> |g[r]| == |h[r]|
  }

  /** Every cell holds one of the six cell codes. */
  predicate KnownCodes(g: seq<seq<int>>) {
    forall r, c :: 0 <= r < |g| && 0 <= c < |g[r]| ==> EMPTY <= g[r][c] <= START_CELL
  }

  // ---------------------------------------------------------------------------
  // Geometry of a leg

  lemma {:induction false} WalkIsShift(p: Pos, code: int, n: int)
    requires IsLeg(code) && n >= 0
    ensures Walk(p, code, n) == Shift(p, code, n)
    decreases n
  {
    if n > 0 {
      WalkIsShift(Next(p, code), code, n - 1);
    }
  }

  /** A leg of n steps visits exactly n cells, the k-th one k + 1 cells away. */
  lemma {:induction false} LegCellsAt(p: Pos, code: int, n: int)
    requires IsLeg(code)
    ensures |LegCells(p, code, n)| == if n <= 0 then 0 else n
    ensures forall k :: 0 <= k < |LegCells(p, code, n)| ==> LegCells(p, code, n)[k] == Shift(p, code, k + 1)
    decreases n
  {
    if n > 0 {
      LegCellsAt(Next(p, code), code, n - 1);
      var cells := LegCells(p, code, n);
      forall k | 0 <= k < |cells|
        ensures cells[k] == Shift(p, code, k + 1)
      {
        if k > 0 {
          assert cells[k] == LegCells(Next(p, code), code, n - 1)[k - 1];
        }
      }
    }
  }

  /** A leg never visits a cell twice. */
  lemma LegCellsDistinct(p: Pos, code: int, n: int)
    requires IsLeg(code)
    ensures forall a, b :: 0 <= a < b < |LegCells(p, code, n)| ==> LegCells(p, code, n)[a] != LegCells(p, code, n)[b]
  {
    LegCellsAt(p, code, n);
  }

  // ---------------------------------------------------------------------------
  // The two passes agree

  /** In a well-formed log the replay cursor is the bounding-box position one row lower. */
  lemma {:induction false} CursorTracksScan(log: seq<Record>, n: nat)
    requires WellFormed(log) && n <= |log|
    ensures Sizable(log) && Cursor(log, n) == Pos(Scan(log, n).x, Scan(log, n).y - 1)
  {
    assert Sizable(log) by {
      forall i | 0 <= i < |log| ensures Skipped(log[i].code) || Whole(log[i].value) {
        assert RecordOk(log[i]);
      }
    }
    if n > 0 {
      CursorTracksScan(log, n - 1);
      var r := log[n - 1];
      assert RecordOk(r);
      AdvanceByCode(Scan(log, n - 1), r);
      if IsLeg(r.code) {
        WalkIsShift(Cursor(log, n - 1), r.code, Cells(r));
      }
    }
  }

  /** The cells record i writes lie between the positions before and after it,
      within the column range and below the height the bounding-box pass reached. */
  lemma RecordWritesInBox(log: seq<Record>, i: nat, c: Pos)
    requires WellFormed(log) && i < |log| && c in Writes(log, i)
    ensures Sizable(log)
    ensures Scan(log, i + 1).xMin <= c.x <= Scan(log, i + 1).xMax
    ensures c.y < Scan(log, i + 1).height
  {
    CursorTracksScan(log, i);
    CursorTracksScan(log, i + 1);
    var r := log[i];
    assert RecordOk(r);
    var e0, e1 := Scan(log, i), Scan(log, i + 1);
    assert e1 == Advance(e0, r);
    AdvanceByCode(e0, r);
    ScanBounds(log, i);
    ScanBounds(log, i + 1);
    ScanMonotone(log, i, i + 1);
    var p := Cursor(log, i);
    assert p == Pos(e0.x, e0.y - 1);
    if IsLeg(r.code) {
      var cells := Writes(log, i);
      LegCellsAt(p, r.code, Cells(r));
      var k :| 0 <= k < |cells| && cells[k] == c;
      assert c == Shift(p, r.code, k + 1);
      assert k < Cells(r);
    } else {
      assert c == p;
    }
  }

  /** The link between the two passes: in a well-formed log whose writes never fall
      below row 0, every cell the replay writes is inside the grid that the
      bounding-box pass sized, once shifted by the origin column. */
  lemma WritesWithinDimension(log: seq<Record>)
    requires WellFormed(log) && RowsNonNegative(log)
    ensures Sizable(log)
    ensures forall i, c :: 0 <= i < |log| && c in Writes(log, i) ==>
      0 <= c.y < DimensionOf(log).height && 0 <= DimensionOf(log).start + c.x < DimensionOf(log).width
  {
    CursorTracksScan(log, 0);
    var d := DimensionOf(log);
    forall i, c | 0 <= i < |log| && c in Writes(log, i)
      ensures 0 <= c.y < d.height && 0 <= d.start + c.x < d.width
    {
      RecordWritesInBox(log, i, c);
      ScanMonotone(log, i + 1, |log|);
    }
  }

  // ---------------------------------------------------------------------------
  // Rows below the first one

  /** No cell record i writes lies below the row `RowFloor` gives for it. */
  lemma RecordWritesAboveFloor(log: seq<Record>, i: nat, c: Pos)
    requires WellFormed(log) && i < |log| && c in Writes(log, i)
    ensures Sizable(log) && RowFloor(Scan(log, i), log[i]) <= c.y
  {
    CursorTracksScan(log, i);
    var r := log[i];
    var p := Cursor(log, i);
    if IsLeg(r.code) {
      var cells := Writes(log, i);
      LegCellsAt(p, r.code, Cells(r));
      forall k | 0 <= k < |cells|
        ensures RowFloor(Scan(log, i), r) <= cells[k].y
      {
        assert cells[k] == Shift(p, r.code, k + 1);
      }
    } else {
      assert c == p;
    }
  }

  /** When record i writes a row below 0, `RowFloor` is the row of one of its cells. */
  lemma RowFloorAttained(log: seq<Record>, i: nat)
    requires WellFormed(log) && i < |log|
    ensures Sizable(log)
    ensures RowFloor(Scan(log, i), log[i]) == 0 || exists c :: c in Writes(log, i) && c.y == RowFloor(Scan(log, i), log[i])
  {
    CursorTracksScan(log, i);
    var r := log[i];
    var p := Cursor(log, i);
    if IsLeg(r.code) && Cells(r) >= 1 {
      var cells := Writes(log, i);
      LegCellsAt(p, r.code, Cells(r));
      if r.code == SOUTH {
        assert cells[Cells(r) - 1] == Shift(p, r.code, Cells(r));
      } else {
        assert cells[0] == Shift(p, r.code, 1);
      }
    } else if Skipped(r.code) {
      assert Writes(log, i) == [p];
    }
  }

  /** A log whose writes all have row >= 0 keeps its lowest row at 0. */
  lemma {:induction false} LowestRowZero(log: seq<Record>, n: nat)
    requires WellFormed(log) && RowsNonNegative(log) && n <= |log|
    ensures Sizable(log) && LowestRow(log, n) == 0
  {
    CursorTracksScan(log, 0);
    if n > 0 {
      LowestRowZero(log, n - 1);
      RowFloorAttained(log, n - 1);
    }
  }

  /** The corrected sizing holds every cell the replay writes, for every well-formed
      log, once rows are shifted by `base` and columns by `start`. */
  lemma CorrectedWritesFit(log: seq<Record>)
    requires WellFormed(log)
    ensures Sizable(log)
    ensures forall i, c :: 0 <= i < |log| && c in Writes(log, i) ==> InFrame(FrameOf(log), c)
  {
    WellFormedSizable(log);
    forall i, c | 0 <= i < |log| && c in Writes(log, i)
      ensures InFrame(FrameOf(log), c)
    {
      WriteInFrame(log, i, c);
    }
  }

  /** The matrix cell of p under the frame f exists. */
  predicate InFrame(f: Frame, p: Pos) {
    0 <= f.base + p.y < f.rows && 0 <= f.start + p.x < f.width
  }

  lemma WriteInFrame(log: seq<Record>, i: nat, c: Pos)
    requires WellFormed(log) && i < |log| && c in Writes(log, i)
    ensures Sizable(log) && InFrame(FrameOf(log), c)
  {
    RecordWritesInBox(log, i, c);
    ScanMonotone(log, i + 1, |log|);
    RecordWritesAboveFloor(log, i, c);
    LowestRowBelow(log, i, |log|);
    var e := Scan(log, |log|);
    var low := LowestRow(log, |log|);
    assert FrameOf(log) == Frame(e.xMax - e.xMin + 1, e.height - low, -e.xMin, -low);
  }

  /** The corrected sizing adds rows exactly when the replay writes below row 0; for
      any other log it is `calculate_dimension`'s own sizing. */
  lemma FrameAgrees(log: seq<Record>)
    requires WellFormed(log)
    ensures Sizable(log)
    ensures FrameOf(log).base == 0 <==> RowsNonNegative(log)
    ensures RowsNonNegative(log) ==>
      FrameOf(log) == Frame(DimensionOf(log).width, DimensionOf(log).height, DimensionOf(log).start, 0)
  {
    CursorTracksScan(log, 0);
    if RowsNonNegative(log) {
      LowestRowZero(log, |log|);
    } else {
      var i, c :| 0 <= i < |log| && c in Writes(log, i) && c.y < 0;
      RecordWritesAboveFloor(log, i, c);
      LowestRowBelow(log, i, |log|);
    }
  }

  // ---------------------------------------------------------------------------
  // What painting does to the grid

  /** Painting a leg keeps the grid's shape, leaves the leg's cells holding `first`
      then PATH, and leaves every other cell as it was. */
  lemma {:induction false} PaintLegEffect(g: seq<seq<int>>, start: int, cells: seq<Pos>, first: int)
    requires forall k :: 0 <= k < |cells| ==> Inside(g, start, cells[k])
    requires forall a, b :: 0 <= a < b < |cells| ==> cells[a] != cells[b]
    ensures SameShape(PaintLeg(g, start, cells, first), g)
    ensures forall k :: 0 <= k < |cells| ==>
      CellIs(PaintLeg(g, start, cells, first), start, cells[k], if k == 0 then first else PATH)
    ensures forall r, c :: 0 <= r < |g| && 0 <= c < |g[r]| && Pos(c - start, r) !in cells ==>
      PaintLeg(g, start, cells, first)[r][c] == g[r][c]
    decreases |cells|
  {
    if cells != [] {
      var g1 := Paint(g, start, cells[0], first);
      var rest := cells[1..];
      assert forall k :: 0 <= k < |rest| ==> rest[k] == cells[k + 1];
      PaintLegEffect(g1, start, rest, PATH);
      var h := PaintLeg(g, start, cells, first);
      assert h == PaintLeg(g1, start, rest, PATH);
      assert cells[0] !in rest;
    }
  }

  /** Painting a leg writes only cell codes it is given. */
  lemma {:induction false} PaintLegKeepsCodes(g: seq<seq<int>>, start: int, cells: seq<Pos>, first: int)
    requires KnownCodes(g) && EMPTY <= first <= START_CELL
    ensures KnownCodes(PaintLeg(g, start, cells, first)) && SameShape(PaintLeg(g, start, cells, first), g)
    decreases |cells|
  {
    if cells != [] {
      PaintLegKeepsCodes(Paint(g, start, cells[0], first), start, cells[1..], PATH);
    }
  }

  /** The replay keeps the grid's shape and, starting from known codes, writes only known codes. */
  lemma {:induction false} RasterizeKeepsCodes(log: seq<Record>, start: int, g0: seq<seq<int>>, n: nat)
    requires n <= |log| && KnownCodes(g0)
    ensures KnownCodes(Rasterize(log, start, g0, n).grid)
    ensures SameShape(Rasterize(log, start, g0, n).grid, g0)
  {
    if n > 0 {
      RasterizeKeepsCodes(log, start, g0, n - 1);
      var s := Rasterize(log, start, g0, n - 1);
      if IsLeg(log[n - 1].code) {
        PaintLegKeepsCodes(s.grid, start, Writes(log, n - 1), if AfterStart(log, n - 1) then START_CELL else PATH);
      }
    }
  }

  /** A leg record marks exactly its cells, the first with START when it follows START,
      and changes no other cell and no hazard row. */
  lemma LegRecordEffect(s: Raster, log: seq<Record>, start: int, i: nat)
    requires i < |log| && IsLeg(log[i].code)
    requires forall c :: c in Writes(log, i) ==> Inside(s.grid, start, c)
    ensures var t := RecordEffect(s, log, start, i);
      && SameShape(t.grid, s.grid)
      && (forall r, c :: 0 <= r < |s.grid| && 0 <= c < |s.grid[r]| && Pos(c - start, r) !in Writes(log, i) ==>
            t.grid[r][c] == s.grid[r][c])
      && |Writes(log, i)| == (if Cells(log[i]) <= 0 then 0 else Cells(log[i]))
      && (forall k :: 0 <= k < |Writes(log, i)| ==>
            CellIs(t.grid, start, Writes(log, i)[k], if k == 0 && AfterStart(log, i) then START_CELL else PATH))
      && t.hazards == s.hazards
  {
    var cells := Writes(log, i);
    var first := if AfterStart(log, i) then START_CELL else PATH;
    LegCellsAt(Cursor(log, i), log[i].code, Cells(log[i]));
    LegCellsDistinct(Cursor(log, i), log[i].code, Cells(log[i]));
    PaintLegEffect(s.grid, start, cells, first);
    assert RecordEffect(s, log, start, i) == Raster(PaintLeg(s.grid, start, cells, first), s.hazards);
  }

  /** END and hazard records mark the cursor cell with their own code, change no other
      cell, and a hazard adds its one row. */
  lemma MarkRecordEffect(s: Raster, log: seq<Record>, start: int, i: nat)
    requires i < |log| && (log[i].code == END || IsHazard(log[i].code))
    requires forall c :: c in Writes(log, i) ==> Inside(s.grid, start, c)
    ensures var t := RecordEffect(s, log, start, i);
      && SameShape(t.grid, s.grid)
      && (forall r, c :: 0 <= r < |s.grid| && 0 <= c < |s.grid[r]| && Pos(c - start, r) !in Writes(log, i) ==>
            t.grid[r][c] == s.grid[r][c])
      && CellIs(t.grid, start, Cursor(log, i), if log[i].code == END then END_CELL
                                               else if log[i].code == MAGNETIC then MAGNETIC_CELL else IR_CELL)
      && (IsHazard(log[i].code) ==>
            var p := Cursor(log, i);
            t.hazards == s.hazards + [Hazard(if log[i].code == MAGNETIC then MagneticSource else HeatSource,
                                             log[i].value.Floor, (start + p.x) * UNIT_LENGTH, p.y * UNIT_LENGTH)])
      && (!IsHazard(log[i].code) ==> t.hazards == s.hazards)
  {
    var p := Cursor(log, i);
    assert Writes(log, i) == [p];
    assert Inside(s.grid, start, p);
  }

  /** What one record does: a leg of d cells marks exactly its d cells (the first
      with START when it follows START), END marks the cursor cell 4, a magnetic
      hazard marks it 3 and an IR hazard 2, each hazard adding one row with the
      floor of its value and the cell's coordinates times the unit length; no
      other cell changes and only hazard records add rows. */
  lemma RecordEffectSpec(s: Raster, log: seq<Record>, start: int, i: nat)
    requires i < |log|
    requires forall c :: c in Writes(log, i) ==> Inside(s.grid, start, c)
    ensures var t := RecordEffect(s, log, start, i);
      && SameShape(t.grid, s.grid)
      && (forall r, c :: 0 <= r < |s.grid| && 0 <= c < |s.grid[r]| && Pos(c - start, r) !in Writes(log, i) ==>
            t.grid[r][c] == s.grid[r][c])
      && (IsLeg(log[i].code) ==>
            |Writes(log, i)| == (if Cells(log[i]) <= 0 then 0 else Cells(log[i])) &&
            forall k :: 0 <= k < |Writes(log, i)| ==>
              CellIs(t.grid, start, Writes(log, i)[k], if k == 0 && AfterStart(log, i) then START_CELL else PATH))
      && (log[i].code in {END, MAGNETIC, IR} ==>
            CellIs(t.grid, start, Cursor(log, i), if log[i].code == END then END_CELL
                                                  else if log[i].code == MAGNETIC then MAGNETIC_CELL else IR_CELL))
      && (IsHazard(log[i].code) ==>
            var p := Cursor(log, i);
            t.hazards == s.hazards + [Hazard(if log[i].code == MAGNETIC then MagneticSource else HeatSource,
                                             log[i].value.Floor, (start + p.x) * UNIT_LENGTH, p.y * UNIT_LENGTH)])
      && (!IsHazard(log[i].code) ==> t.hazards == s.hazards)
  {
    var code := log[i].code;
    if IsLeg(code) {
      LegRecordEffect(s, log, start, i);
    } else if code == END || IsHazard(code) {
      MarkRecordEffect(s, log, start, i);
    } else {
      assert RecordEffect(s, log, start, i) == s;
    }
  }
}
