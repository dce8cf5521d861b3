/** The bounding-box pass of the map builder (`calculate_dimension`):
    one walk over the move log that sizes the grid before it is allocated. */
module MapDimension {
  import opened MoveLog

  /** Accumulators of the pass: position, column range and running height. */
  datatype Extent = Extent(x: int, y: int, xMin: int, xMax: int, height: int)

  /** What the pass returns: grid width and height, origin column and end position. */
  datatype Dimension = Dimension(width: int, height: int, start: int, endX: int, endY: int)

  /** END and the two hazard kinds do not move the pass. */
  predicate Skipped(code: int) {
    code == END || code == MAGNETIC || code == IR
  }

  /** Every record the pass adds up carries a whole value (a fractional one would
      make the width or height a float, which the allocation rejects). */
  predicate Sizable(moves: seq<Record>) {
    forall i :: 0 <= i < |moves| ==> Skipped(moves[i].code) || Whole(moves[i].value)
  }

  /** One record of the pass: even codes move y by (1 - code) * value,
      odd codes move x by (2 - code) * value. */
  function Advance(e: Extent, r: Record): Extent
    requires Skipped(r.code) || Whole(r.value)
  {
    if Skipped(r.code) then e
    else if r.code % 2 == 0 then
      var y := e.y + (1 - r.code) * r.value.Floor;
      e.(y := y, height := if y > e.height then y else e.height)
    else
      var x := e.x + (2 - r.code) * r.value.Floor;
      if x > e.xMax then e.(x := x, xMax := x)
      else if x < e.xMin then e.(x := x, xMin := x)
      else e.(x := x)
  }

  /** For a well-formed record, the step of the pass in plain terms: a leg moves its
      own axis by its length, every other record leaves the position alone. */
  lemma AdvanceByCode(e: Extent, r: Record)
    requires RecordOk(r)
    ensures Skipped(r.code) || Whole(r.value)
    ensures Advance(e, r).x == e.x + (if r.code == EAST then Cells(r) else if r.code == WEST then -Cells(r) else 0)
    ensures Advance(e, r).y == e.y + (if r.code == NORTH then Cells(r) else if r.code == SOUTH then -Cells(r) else 0)
  {
    var d := r.value.Floor;
    if r.code == NORTH {
      assert (1 - r.code) * d == d;
    } else if r.code == SOUTH {
      assert (1 - r.code) * d == -d;
    } else if r.code == EAST {
      assert (2 - r.code) * d == d;
    } else if r.code == WEST {
      assert (2 - r.code) * d == -d;
    } else if r.code == START {
      assert d == 0;
    }
  }

  /** One step of the pass keeps its box: END and the hazards change nothing, the
      column range only widens and the height only grows, each new bound is the old
      one or the new position, and a position inside the box stays inside it. */
  lemma AdvanceKeepsBox(e: Extent, r: Record)
    requires Skipped(r.code) || Whole(r.value)
    ensures var a := Advance(e, r);
      && (Skipped(r.code) ==> a == e)
      && a.xMin <= e.xMin && e.xMax <= a.xMax && e.height <= a.height
      && (a.height == e.height || a.height == a.y)
      && (a.xMin == e.xMin || a.xMin == a.x) && (a.xMax == e.xMax || a.xMax == a.x)
      && (e.xMin <= e.x <= e.xMax ==> a.xMin <= a.x <= a.xMax)
      && (e.y <= e.height ==> a.y <= a.height)
  {
  }

  /** The accumulators after the first n records. */
  function Scan(moves: seq<Record>, n: nat): Extent
    requires Sizable(moves) && n <= |moves|
  {
    if n == 0 then Extent(0, 0, 0, 0, 0)
    else Advance(Scan(moves, n - 1), moves[n - 1])
  }

  function DimensionOf(moves: seq<Record>): Dimension
    requires Sizable(moves)
  {
    var e := Scan(moves, |moves|);
    Dimension(e.xMax - e.xMin + 1, e.height, -e.xMin, e.x, e.y)
  }

  /** Sum of the lengths of the first n records with the given code. */
  function Total(moves: seq<Record>, n: nat, code: int): int
    requires n <= |moves|
  {
    if n == 0 then 0
    else Total(moves, n - 1, code) + (if moves[n - 1].code == code then Cells(moves[n - 1]) else 0)
  }

  /** The pass keeps its column range around both the origin and the position,
      and its height above both 0 and the current y. */
  lemma {:induction false} ScanBounds(moves: seq<Record>, n: nat)
    requires Sizable(moves) && n <= |moves|
    ensures var e := Scan(moves, n);
      e.xMin <= 0 <= e.xMax && e.xMin <= e.x <= e.xMax && 0 <= e.height && e.y <= e.height
  {
    if n > 0 {
      ScanBounds(moves, n - 1);
    }
  }

  /** The column range only widens and the height only grows as the log is replayed. */
  lemma {:induction false} ScanMonotone(moves: seq<Record>, n: nat, m: nat)
    requires Sizable(moves) && n <= m <= |moves|
    ensures Scan(moves, m).xMin <= Scan(moves, n).xMin
    ensures Scan(moves, n).xMax <= Scan(moves, m).xMax
    ensures Scan(moves, n).height <= Scan(moves, m).height
  {
    if n < m {
      ScanMonotone(moves, n, m - 1);
      ScanBounds(moves, m - 1);
    }
  }

  /** The position the pass reaches is the net signed displacement: NORTH minus SOUTH
      on y, EAST minus WEST on x, and START counted with factor -5 on x. */
  lemma {:induction false} NetDisplacement(moves: seq<Record>, n: nat)
    requires Sizable(moves) && n <= |moves|
    requires forall i :: 0 <= i < |moves| ==> 0 <= moves[i].code <= 7
    ensures Scan(moves, n).y == Total(moves, n, NORTH) - Total(moves, n, SOUTH)
    ensures Scan(moves, n).x == Total(moves, n, EAST) - Total(moves, n, WEST) - 5 * Total(moves, n, START)
  {
    if n > 0 {
      NetDisplacement(moves, n - 1);
    }
  }

  /** The bounds the pass keeps are the extremes it reached: the height is the largest
      y of any prefix (0 for the origin), and x_min and x_max are the smallest and the
      largest x of any prefix. */
  lemma {:induction false} ScanReaches(moves: seq<Record>, n: nat)
    requires Sizable(moves) && n <= |moves|
    ensures forall k :: 0 <= k <= n ==>
      Scan(moves, n).xMin <= Scan(moves, k).x <= Scan(moves, n).xMax && Scan(moves, k).y <= Scan(moves, n).height
    ensures exists k :: 0 <= k <= n && Scan(moves, k).y == Scan(moves, n).height
    ensures exists k :: 0 <= k <= n && Scan(moves, k).x == Scan(moves, n).xMin
    ensures exists k :: 0 <= k <= n && Scan(moves, k).x == Scan(moves, n).xMax
  {
    forall k | 0 <= k <= n
      ensures Scan(moves, n).xMin <= Scan(moves, k).x <= Scan(moves, n).xMax && Scan(moves, k).y <= Scan(moves, n).height
    {
      ScanBounds(moves, k);
      ScanMonotone(moves, k, n);
    }
    if n == 0 {
      assert Scan(moves, 0) == Extent(0, 0, 0, 0, 0);
    } else {
      ScanReaches(moves, n - 1);
      var e0, e1 := Scan(moves, n - 1), Scan(moves, n);
      assert e1 == Advance(e0, moves[n - 1]);
      if e1.height != e0.height {
        assert Scan(moves, n).y == e1.height;
      }
      if e1.xMin != e0.xMin {
        assert Scan(moves, n).x == e1.xMin;
      }
      if e1.xMax != e0.xMax {
        assert Scan(moves, n).x == e1.xMax;
      }
    }
  }

  /** A well-formed log can be sized: its legs are whole. */
  lemma WellFormedSizable(moves: seq<Record>)
    requires WellFormed(moves)
    ensures Sizable(moves)
  {
    forall i | 0 <= i < |moves| ensures Skipped(moves[i].code) || Whole(moves[i].value) {
      assert RecordOk(moves[i]);
    }
  }

  /** In a well-formed log every START carries 0, so it adds nothing to x. */
  lemma {:induction false} StartAddsNothing(moves: seq<Record>, n: nat)
    requires WellFormed(moves) && n <= |moves|
    ensures Total(moves, n, START) == 0
  {
    if n > 0 {
      StartAddsNothing(moves, n - 1);
      assert RecordOk(moves[n - 1]);
    }
  }

  // ---------------------------------------------------------------------------
  // Sizing that also covers rows below the first one

  /** The lowest grid row record r writes when the pass stands at e (0 when it writes
      none). The replay's cursor row is the pass's y minus one: a north leg writes from
      row y up, a south leg down to its end row, an east or west leg on row y - 1, and
      END or a hazard on the cursor's own row. */
  function RowFloor(e: Extent, r: Record): int {
    if Skipped(r.code) then e.y - 1
    else if IsLeg(r.code) && r.value.Floor >= 1 then
      if r.code == NORTH then e.y
      else if r.code == SOUTH then e.y - r.value.Floor - 1
      else e.y - 1
    else 0
  }

  /** The lowest row written by the first n records, or 0: the y counterpart of x_min
      that `calculate_dimension` does not keep. */
  function LowestRow(moves: seq<Record>, n: nat): (low: int)
    requires Sizable(moves) && n <= |moves|
    ensures low <= 0
  {
    if n == 0 then 0
    else
      var f := RowFloor(Scan(moves, n - 1), moves[n - 1]);
      var low := LowestRow(moves, n - 1);
      if f < low then f else low
  }

  /** The sizing the map needs: rows from the lowest row written up to the height,
      and `base`, the matrix row of grid row 0. */
  datatype Frame = Frame(width: int, rows: int, start: int, base: int)

  /** `calculate_dimension` with a y minimum kept like x_min: it adds as many rows
      below row 0 as the replay writes there, and changes nothing else. */
  function FrameOf(moves: seq<Record>): (f: Frame)
    requires Sizable(moves)
    ensures f.base >= 0 && f.rows == DimensionOf(moves).height + f.base
    ensures f.width == DimensionOf(moves).width && f.start == DimensionOf(moves).start
  {
    var d := DimensionOf(moves);
    var low := LowestRow(moves, |moves|);
    Frame(d.width, d.height - low, d.start, -low)
  }

  /** Every prefix's lowest row bounds the rows of every later record from below. */
  lemma {:induction false} LowestRowBelow(moves: seq<Record>, i: nat, n: nat)
    requires Sizable(moves) && i < n <= |moves|
    ensures LowestRow(moves, n) <= RowFloor(Scan(moves, i), moves[i])
    decreases n
  {
    assert LowestRow(moves, n) <= LowestRow(moves, n - 1);
    if i < n - 1 {
      LowestRowBelow(moves, i, n - 1);
    }
  }

  /** `calculate_dimension`: width = x_max - x_min + 1, origin column = -x_min,
      height = largest y reached, end = final position. */
  method CalculateDimension(moves: seq<Record>) returns (dim: Dimension)
    requires Sizable(moves)
    ensures dim == DimensionOf(moves)
    ensures dim.width >= 1 && 0 <= dim.start < dim.width && dim.height >= 0
    ensures forall n :: 0 <= n <= |moves| ==> Scan(moves, n).y <= dim.height
    ensures forall n :: 0 <= n <= |moves| ==> Scan(moves, n).height <= dim.height
    ensures exists n :: 0 <= n <= |moves| && Scan(moves, n).y == dim.height
    ensures forall n :: 0 <= n <= |moves| ==> -dim.start <= Scan(moves, n).x <= dim.width - 1 - dim.start
    ensures exists n :: 0 <= n <= |moves| && Scan(moves, n).x == -dim.start
    ensures exists n :: 0 <= n <= |moves| && Scan(moves, n).x == dim.width - 1 - dim.start
    ensures WellFormed(moves) ==>
      dim.endX == Total(moves, |moves|, EAST) - Total(moves, |moves|, WEST) &&
      dim.endY == Total(moves, |moves|, NORTH) - Total(moves, |moves|, SOUTH)
  {
    var x, y, xMin, xMax, height := 0, 0, 0, 0, 0;
    var i := 0;
    while i < |moves|
      invariant 0 <= i <= |moves|
      invariant Extent(x, y, xMin, xMax, height) == Scan(moves, i)
      invariant xMin <= 0 <= xMax && 0 <= height
      invariant forall n :: 0 <= n <= i ==> Scan(moves, n).y <= height && Scan(moves, n).height <= height
    {
      var move := moves[i];
      if move.code == END || move.code == MAGNETIC || move.code == IR {
      } else if move.code % 2 == 0 {
        y := y + (1 - move.code) * move.value.Floor;
        if y > height {
          height := y;
        }
      } else {
        x := x + (2 - move.code) * move.value.Floor;
        if x > xMax {
          xMax := xMax + (x - xMax);
        } else if x < xMin {
          xMin := xMin + (x - xMin);
        }
      }
      i := i + 1;
    }
    dim := Dimension(xMax - xMin + 1, height, -xMin, x, y);
    ScanReaches(moves, |moves|);
    if WellFormed(moves) {
      NetDisplacement(moves, |moves|);
      StartAddsNothing(moves, |moves|);
    }
  }
}
