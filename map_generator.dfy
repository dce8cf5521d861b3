/** The map builder (`Map_Generator`): sizes the grid, replays the move log into it,
    renders it north row first and exports its rows. */
module MapGen {
  import opened MoveLog
  import opened MapDimension
  import opened MapRaster
  import opened MapRender

  /** `create_matrix(x, y)`: y rows of x zeros (no rows, or empty rows, when a count is negative). */
  function CreateMatrix(x: int, y: int): (m: seq<seq<int>>)
    ensures |m| == (if y < 0 then 0 else y)
    ensures forall r :: 0 <= r < |m| ==> |m[r]| == (if x < 0 then 0 else x)
    ensures forall r, c :: 0 <= r < |m| && 0 <= c < |m[r]| ==> m[r][c] == EMPTY
  {
    seq(if y < 0 then 0 else y, _ => seq(if x < 0 then 0 else x, _ => EMPTY))
  }

  /** `convert_to_matrix`: replays the log over `matrix`, stepping the cursor one cell
      at a time, and returns the grid and the hazard rows. The log is changed in place:
      a START record is rewritten to NORTH when the leg after it marks its first cell. */
  method ConvertToMatrix(log: array<Record>, start: int, matrix: seq<seq<int>>)
    returns (grid: seq<seq<int>>, hazards: seq<Hazard>)
    requires LegsWhole(log[..]) && NoWrapRead(log[..]) && WritesInside(log[..], start, matrix)
    modifies log
    ensures Raster(grid, hazards) == Rasterize(old(log[..]), start, matrix, log.Length)
    ensures log[..] == Consumed(old(log[..]))
  {
    ghost var orig := log[..];
    var x, y := 0, -1;
    grid, hazards := matrix, [];
    var i := 0;
    while i < log.Length
      invariant 0 <= i <= log.Length
      invariant ReplayState(log[..], orig, i, start, matrix, grid, hazards, x, y)
    {
      var node := log[i];
      if 0 <= node.code <= 3 {
        grid, x, y, i := ReplayLeg(log, orig, i, start, matrix, grid, hazards, x, y);
      } else {
        grid, hazards, i := MarkCursor(log, orig, i, start, matrix, grid, hazards, x, y);
      }
    }
  }

  /** The replay's loop state before record i: the grid and hazards so far, the cursor,
      and the log rewritten up to the record before the previous one. */
  ghost predicate ReplayState(log: seq<Record>, orig: seq<Record>, i: nat, start: int, matrix: seq<seq<int>>,
                              grid: seq<seq<int>>, hazards: seq<Hazard>, x: int, y: int)
  {
    && |log| == |orig| && i <= |orig|
    && Raster(grid, hazards) == Rasterize(orig, start, matrix, i)
    && Pos(x, y) == Cursor(orig, i)
    && SameShape(grid, matrix)
    && forall j :: 0 <= j < |log| ==> log[j] == if j + 1 < i then Consumed(orig)[j] else orig[j]
  }

  /** Record i of the replay is a leg: step through its cells. */
  method ReplayLeg(log: array<Record>, ghost orig: seq<Record>, i: nat, start: int, matrix: seq<seq<int>>,
                   g: seq<seq<int>>, hazards: seq<Hazard>, x0: int, y0: int)
    returns (grid: seq<seq<int>>, x: int, y: int, i1: nat)
    requires LegsWhole(orig) && NoWrapRead(orig) && WritesInside(orig, start, matrix)
    requires i < log.Length && IsLeg(log[i].code)
    requires ReplayState(log[..], orig, i, start, matrix, g, hazards, x0, y0)
    modifies log
    ensures i1 == i + 1 && ReplayState(log[..], orig, i1, start, matrix, grid, hazards, x, y)
  {
    assert log[i] == orig[i] && (i > 0 ==> log[i - 1] == orig[i - 1]);
    LegFacts(orig, start, matrix, i);
    grid, x, y := StepLeg(log, i, start, matrix, g, x0, y0);
    i1 := i + 1;
    forall j | 0 <= j < log.Length
      ensures log[j] == if j + 1 < i1 then Consumed(orig)[j] else orig[j]
    {
      if j == i - 1 {
        assert Consumed(orig)[j] == log[j];
      }
    }
  }

  /** Record i of the replay is not a leg: END and the two hazards mark the cursor cell,
      each hazard adding its row; any other record changes nothing. */
  method MarkCursor(log: array<Record>, ghost orig: seq<Record>, i: nat, start: int, matrix: seq<seq<int>>,
                    g: seq<seq<int>>, h: seq<Hazard>, x: int, y: int)
    returns (grid: seq<seq<int>>, hazards: seq<Hazard>, i1: nat)
    requires WritesInside(orig, start, matrix)
    requires i < log.Length && !IsLeg(log[i].code)
    requires ReplayState(log[..], orig, i, start, matrix, g, h, x, y)
    ensures i1 == i + 1 && ReplayState(log[..], orig, i1, start, matrix, grid, hazards, x, y)
  {
    var node := log[i];
    assert node == orig[i];
    grid, hazards := g, h;
    if node.code == END {
      assert Pos(x, y) in Writes(orig, i) && Inside(matrix, start, Pos(x, y));
      grid := grid[y := grid[y][start + x := END_CELL]];
    } else if node.code == MAGNETIC {
      assert Pos(x, y) in Writes(orig, i) && Inside(matrix, start, Pos(x, y));
      grid := grid[y := grid[y][start + x := MAGNETIC_CELL]];
      hazards := hazards + [Hazard(MagneticSource, node.value.Floor, (start + x) * UNIT_LENGTH, y * UNIT_LENGTH)];
    } else if node.code == IR {
      assert Pos(x, y) in Writes(orig, i) && Inside(matrix, start, Pos(x, y));
      grid := grid[y := grid[y][start + x := IR_CELL]];
      hazards := hazards + [Hazard(HeatSource, node.value.Floor, (start + x) * UNIT_LENGTH, y * UNIT_LENGTH)];
    }
    i1 := i + 1;
  }

  /** The inner loop of `convert_to_matrix` for leg i: `node[1]` steps, each moving the
      cursor one cell and marking it. The first step marks START, and rewrites the
      record before the leg to NORTH, when that record is START; every other step
      marks PATH. */
  method StepLeg(log: array<Record>, i: nat, start: int, matrix: seq<seq<int>>,
                 g0: seq<seq<int>>, x0: int, y0: int)
    returns (grid: seq<seq<int>>, x: int, y: int)
    requires i < log.Length && IsLeg(log[i].code)
    requires forall k :: 1 <= k <= log[i].value.Floor ==> Inside(matrix, start, Shift(Pos(x0, y0), log[i].code, k))
    requires SameShape(g0, matrix)
    requires i == 0 ==> log[i].value.Floor <= 0
    modifies log
    ensures grid == PaintLeg(g0, start, LegCells(Pos(x0, y0), old(log[i]).code, old(log[i]).value.Floor),
                             if i > 0 && old(log[i - 1]).code == START then START_CELL else PATH)
    ensures Pos(x, y) == Shift(Pos(x0, y0), old(log[i]).code, Steps(old(log[i]).value.Floor))
    ensures SameShape(grid, matrix)
    ensures forall j :: 0 <= j < log.Length && j != i - 1 ==> log[j] == old(log[j])
    ensures i > 0 ==> log[i - 1] == (if old(log[i - 1]).code == START && old(log[i]).value.Floor > 0
                                    then old(log[i - 1]).(code := NORTH) else old(log[i - 1]))
  {
    var code := log[i].code;
    var n := log[i].value.Floor;
    ghost var p0 := Pos(x0, y0);
    ghost var first := if i > 0 && log[i - 1].code == START then START_CELL else PATH;
    ghost var target := PaintLeg(g0, start, LegCells(p0, code, n), first);
    ghost var prev := if i > 0 then log[i - 1] else log[0];
    grid, x, y := g0, x0, y0;
    var k := 0;
    while k < n
      invariant 0 <= k <= Steps(n)
      invariant PaintLeg(grid, start, LegCells(Pos(x, y), code, n - k), if k == 0 then first else PATH) == target
      invariant Pos(x, y) == Shift(p0, code, k)
      invariant SameShape(grid, matrix)
      invariant forall j :: 0 <= j < log.Length && j != i - 1 ==> log[j] == old(log[j])
      invariant i > 0 ==> log[i - 1] == if k > 0 && prev.code == START then prev.(code := NORTH) else prev
    {
      grid, x, y, k := LegCell(log, i, start, matrix, grid, x, y, p0, code, n, k, if k == 0 then first else PATH, target);
    }
  }

  /** One step of leg i: move the cursor, take the mark (rewriting a START before the leg
      to NORTH) and write it into the new cell; the rest of the leg is painted as before. */
  method LegCell(log: array<Record>, i: nat, start: int, matrix: seq<seq<int>>,
                 g: seq<seq<int>>, x0: int, y0: int, ghost p0: Pos, code: int, n: int, k: nat,
                 ghost mark: int, ghost target: seq<seq<int>>)
    returns (grid: seq<seq<int>>, x: int, y: int, k1: nat)
    requires 0 < i < log.Length && IsLeg(code) && k < n && SameShape(g, matrix)
    requires Pos(x0, y0) == Shift(p0, code, k) && Inside(matrix, start, Shift(p0, code, k + 1))
    requires PaintLeg(g, start, LegCells(Pos(x0, y0), code, n - k), mark) == target
    requires mark == (if log[i - 1].code == START then START_CELL else PATH)
    modifies log
    ensures k1 == k + 1 && Pos(x, y) == Shift(p0, code, k1) && SameShape(grid, matrix)
    ensures PaintLeg(grid, start, LegCells(Pos(x, y), code, n - k1), PATH) == target
    ensures log[i - 1] == (if old(log[i - 1]).code == START then old(log[i - 1]).(code := NORTH) else old(log[i - 1]))
    ensures forall m :: 0 <= m < log.Length && m != i - 1 ==> log[m] == old(log[m])
  {
    x, y := Move(code, x0, y0);
    assert Pos(x, y) == Shift(p0, code, k + 1);
    var m := MarkFor(log, i - 1);
    LegAdvance(g, matrix, start, p0, code, n, k, m, target, x, y);
    grid := g[y := g[y][start + x := m]];
    k1 := k + 1;
  }

  /** One step of the cursor in the leg's direction: north and south move the row,
      east and west the column. */
  method Move(code: int, x0: int, y0: int) returns (x: int, y: int)
    requires IsLeg(code)
    ensures Pos(x, y) == Shift(Pos(x0, y0), code, 1)
  {
    x, y := x0, y0;
    if code == NORTH {
      y := y + 1;
    } else if code == EAST {
      x := x + 1;
    } else if code == SOUTH {
      y := y - 1;
    } else {
      x := x - 1;
    }
  }

  /** The mark of one step: START_CELL when the record before the leg is START, which
      is then rewritten to NORTH, else PATH. Only that record changes. */
  method MarkFor(log: array<Record>, j: nat) returns (mark: int)
    requires j < log.Length
    modifies log
    ensures mark == (if old(log[j]).code == START then START_CELL else PATH)
    ensures log[j] == (if old(log[j]).code == START then old(log[j]).(code := NORTH) else old(log[j]))
    ensures forall m :: 0 <= m < log.Length && m != j ==> log[m] == old(log[m])
  {
    if log[j].code == START {
      mark := START_CELL;
      log[j] := log[j].(code := NORTH);
    } else {
      mark := PATH;
    }
  }

  /** The number of steps a leg of length n takes: none when n is not positive. */
  function Steps(n: int): nat {
    if n < 0 then 0 else n
  }

  /** The facts about leg i that `StepLeg` needs: each cell it steps onto is in the grid,
      the cells are those of `Writes`, and the cursor ends where `Cursor` says. */
  lemma LegFacts(log: seq<Record>, start: int, matrix: seq<seq<int>>, i: nat)
    requires i < |log| && IsLeg(log[i].code) && WritesInside(log, start, matrix)
    ensures var p := Cursor(log, i);
      forall k :: 1 <= k <= log[i].value.Floor ==> Inside(matrix, start, Shift(p, log[i].code, k))
    ensures Cursor(log, i + 1) == Shift(Cursor(log, i), log[i].code, Steps(log[i].value.Floor))
  {
    var p := Cursor(log, i);
    var code := log[i].code;
    var n := log[i].value.Floor;
    LegCellsAt(p, code, n);
    WalkIsShift(p, code, Steps(n));
    forall k | 1 <= k <= n
      ensures Inside(matrix, start, Shift(p, code, k))
    {
      assert Writes(log, i)[k - 1] == Shift(p, code, k);
      assert Writes(log, i)[k - 1] in Writes(log, i);
    }
  }

  /** Stepping from the k-th to the (k+1)-th cell of a leg of n cells keeps the grid's
      shape and leaves the same remaining painting to do. */
  lemma LegAdvance(g: seq<seq<int>>, matrix: seq<seq<int>>, start: int, p0: Pos, code: int, n: int, k: nat,
                   mark: int, target: seq<seq<int>>, x: int, y: int)
    requires IsLeg(code) && k < n && SameShape(g, matrix)
    requires Pos(x, y) == Shift(p0, code, k + 1) && Inside(matrix, start, Pos(x, y))
    requires PaintLeg(g, start, LegCells(Shift(p0, code, k), code, n - k), mark) == target
    ensures 0 <= y < |g| && 0 <= start + x < |g[y]|
    ensures SameShape(g[y := g[y][start + x := mark]], matrix)
    ensures PaintLeg(g[y := g[y][start + x := mark]], start, LegCells(Pos(x, y), code, n - (k + 1)), PATH) == target
  {
    var p := Shift(p0, code, k);
    assert Next(p, code) == Pos(x, y);
    LegStep(g, start, p, code, n - k, mark);
  }

  /** One step of a leg: paint its first cell, and the rest of the leg follows. */
  lemma LegStep(g: seq<seq<int>>, start: int, p: Pos, code: int, m: int, mark: int)
    requires IsLeg(code) && m >= 1
    ensures PaintLeg(g, start, LegCells(p, code, m), mark)
         == PaintLeg(Paint(g, start, Next(p, code), mark), start, LegCells(Next(p, code), code, m - 1), PATH)
  {
    var rest := LegCells(Next(p, code), code, m - 1);
    assert LegCells(p, code, m) == [Next(p, code)] + rest;
    assert ([Next(p, code)] + rest)[1..] == rest;
  }

  /** `print_map`: reverses the rows (the caller's matrix is reversed in place, so the
      north row comes first) and returns the lines it prints. The border is grown by
      one " #" per cell while the first row is drawn, and printed before that row and
      after the last. */
  method PrintMap(m: seq<seq<int>>) returns (reversed: seq<seq<int>>, lines: seq<string>)
    requires KnownCodes(m)
    ensures reversed == Reversed(m)
    ensures lines == RenderLines(reversed)
  {
    reversed := Reversed(m);
    assert KnownCodes(reversed) by {
      forall r, c | 0 <= r < |reversed| && 0 <= c < |reversed[r]|
        ensures EMPTY <= reversed[r][c] <= START_CELL
      {
        assert reversed[r] == m[|m| - 1 - r];
      }
    }
    var border := ["#", " #"];
    var borderCounter := 0;
    lines := [];
    var k := 0;
    while k < |reversed|
      invariant 0 <= k <= |reversed|
      invariant borderCounter == if k == 0 then 0 else 1
      invariant k == 0 ==> border == ["#", " #"] && lines == []
      invariant k > 0 ==> border == BorderTokens(|reversed[0]|)
      invariant k > 0 ==> lines == [Join(border)] + seq(k, j requires 0 <= j < k => Join(RowTokens(reversed[j])))
    {
      var list := reversed[k];
      var row := ["#"];
      var j := 0;
      while j < |list|
        invariant 0 <= j <= |list|
        invariant row == ["#"] + GlyphTokens(list[..j])
        invariant borderCounter == 0 ==> border == ["#", " #"] + seq(j, _ => " #")
        invariant borderCounter != 0 ==> border == BorderTokens(|reversed[0]|)
      {
        row := row + [Glyph(list[j])];
        if borderCounter == 0 {
          border := border + [" #"];
        }
        assert list[..j + 1] == list[..j] + [list[j]];
        j := j + 1;
      }
      assert list[..j] == list;
      if borderCounter == 0 {
        lines := lines + [Join(border)];
        borderCounter := borderCounter + 1;
      }
      row := row + [" #"];
      lines := lines + [Join(row)];
      k := k + 1;
    }
    lines := lines + [Join(border)];
  }

  /** `export_map`, its rows only: for each row the first `len(map[1])` cells, each
      followed by a comma, then a newline. */
  method ExportMap(m: seq<seq<int>>) returns (rows: seq<string>)
    requires |m| >= 2 && forall y :: 0 <= y < |m| ==> |m[1]| <= |m[y]|
    ensures rows == ExportLines(m, |m[1]|)
  {
    var width := |m[1]|;
    var height := |m|;
    rows := [];
    var y := 0;
    while y < height
      invariant 0 <= y <= height
      invariant rows == seq(y, r requires 0 <= r < y => CsvCells(m[r], width) + "\n")
    {
      var line := CsvRow(m[y], width);
      rows := rows + [line + "\n"];
      y := y + 1;
    }
  }

  /** The inner loop of `export_map`: the first `width` cells of a row, each followed
      by a comma. */
  method CsvRow(row: seq<int>, width: nat) returns (line: string)
    requires width <= |row|
    ensures line == CsvCells(row, width)
  {
    line := "";
    var x := 0;
    while x < width
      invariant 0 <= x <= width
      invariant line == CsvCells(row, x)
    {
      line := line + IntToString(row[x]) + ",";
      x := x + 1;
    }
  }

  /** A log the controller writes replays inside the matrix `create_matrix` makes
      for its dimensions. */
  lemma FreshMatrixFits(log: seq<Record>)
    requires WellFormed(log) && RowsNonNegative(log)
    ensures Sizable(log) && LegsWhole(log)
    ensures var d := DimensionOf(log); WritesInside(log, d.start, CreateMatrix(d.width, d.height))
  {
    WritesWithinDimension(log);
    assert LegsWhole(log) by {
      forall i | 0 <= i < |log| && IsLeg(log[i].code) ensures Whole(log[i].value) {
        assert RecordOk(log[i]);
      }
    }
  }

  /** Reversing the rows keeps every row's length. */
  lemma ReversedKeepsWidth(g: seq<seq<int>>, w: int)
    requires forall y :: 0 <= y < |g| ==> |g[y]| == w
    ensures forall y :: 0 <= y < |Reversed(g)| ==> |Reversed(g)[y]| == w
  {
    forall y | 0 <= y < |g| ensures |Reversed(g)[y]| == w {
      assert Reversed(g)[y] == g[|g| - 1 - y];
    }
  }

  /** `Map_Generator`: building one sizes the grid from the log, replays the log into a
      fresh matrix, prints it (reversing its rows in place) and exports the reversed rows. */
  class MapGenerator {
    var mapNum: int
    var distanceConst: int
    var width: int
    var height: int
    var start: int
    var endX: int
    var endY: int
    var mapMatrix: seq<seq<int>>
    /** The rows the replay writes to the hazard file. */
    var hazards: seq<Hazard>
    /** The lines `print_map` prints. */
    var printed: seq<string>
    /** The rows `export_map` writes to the map file. */
    var exported: seq<string>

    /** The replay reads `array[-1]` for a leading leg, indexes rows by the cursor and
        exports `map[1]`: the log is one the controller writes, its cursor never goes
        below row 0, and the map has at least two rows. */
    constructor (inputArray: array<Record>, mapNum: int)
      requires WellFormed(inputArray[..]) && NoWrapRead(inputArray[..]) && RowsNonNegative(inputArray[..])
      requires DimensionOf(inputArray[..]).height >= 2
      modifies inputArray
      ensures var d := DimensionOf(old(inputArray[..]));
        && this.mapNum == mapNum && distanceConst == 1
        && width == d.width && height == d.height && start == d.start && endX == d.endX && endY == d.endY
      ensures var r := Rasterize(old(inputArray[..]), start, CreateMatrix(width, height), inputArray.Length);
        && KnownCodes(r.grid)
        && mapMatrix == Reversed(r.grid) && hazards == r.hazards
      ensures printed == RenderLines(mapMatrix)
      ensures |mapMatrix| == height && width >= 1 && forall y :: 0 <= y < |mapMatrix| ==> |mapMatrix[y]| == width
      ensures exported == ExportLines(mapMatrix, width)
      ensures inputArray[..] == Consumed(old(inputArray[..]))
    {
      ghost var log := inputArray[..];
      FreshMatrixFits(log);
      this.mapNum := mapNum;
      distanceConst := 1;
      var dim := CalculateDimension(inputArray[..]);
      width, height, start, endX, endY := dim.width, dim.height, dim.start, dim.endX, dim.endY;
      var matrix := CreateMatrix(dim.width, dim.height);
      var grid, hz := ConvertToMatrix(inputArray, dim.start, matrix);
      RasterizeKeepsCodes(log, dim.start, matrix, |log|);
      var rev, lines := PrintMap(grid);
      ReversedKeepsWidth(grid, dim.width);
      var rows := ExportMap(rev);
      mapMatrix, hazards, printed, exported := rev, hz, lines, rows;
    }
  }
}
