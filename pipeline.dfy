/** How the two halves meet: the log the robot hands over at the interrupt is one the
    map builder accepts, and the worked example the map builder's own main runs. */
module Pipeline {
  import opened MoveLog
  import opened MapDimension
  import opened MapRaster
  import opened MapGen
  import Gears

  /** A finished log is well formed for the map builder: START first, every closed leg
      a whole non-negative number of cells, hazards and END with their own codes, and
      no leg first (so the replay never reads `array[-1]`). */
  lemma FinishedLogAccepted(log: seq<Record>)
    requires Gears.FinishedLog(log)
    ensures WellFormed(log) && NoWrapRead(log) && LegsWhole(log) && Sizable(log)
  {
    forall j | 0 <= j < |log| ensures RecordOk(log[j]) {
      if 1 <= j < |log| - 1 {
        assert Gears.Logged(log[j]);
      }
    }
    assert Sizable(log) by {
      forall j | 0 <= j < |log| ensures Skipped(log[j].code) || Whole(log[j].value) {
        assert RecordOk(log[j]);
      }
    }
  }

  /** Whatever the readings, the log of a traversal started from the constructor's
      controller state satisfies every precondition of `MapGenerator` that is about
      the log's records; what is left is the map's own shape (the cursor stays at or
      above row 0 and there are two rows to export), which a traversal does not
      guarantee (`IdleRunBreaksMap`, `SouthRunWrapsRows`). */
  lemma TraversalFeedsMap(readings: seq<Gears.Reading>)
    ensures var log := Gears.TraversalLog(Gears.Pid(0.0, 0.0), readings);
      WellFormed(log) && NoWrapRead(log) && log[0].code == START && log[|log| - 1].code == END
  {
    FinishedLogAccepted(Gears.TraversalLog(Gears.Pid(0.0, 0.0), readings));
  }

  // ---------------------------------------------------------------------------
  // The example in map_generator.py's main

  /** start; north 4; east 3; south 1; IR hazard; west 0; north 5; end. */
  function Example(): seq<Record> {
    [Record(START, 0.0), Record(NORTH, 4.0), Record(EAST, 3.0), Record(SOUTH, 1.0),
     Record(IR, 0.0), Record(WEST, 0.0), Record(NORTH, 5.0), Record(END, 0.0)]
  }

  /** Every record of the example is one the map builder accepts. */
  lemma ExampleRecordsOk()
    ensures WellFormed(Example()) && Sizable(Example())
  {
    var e := Example();
    forall j | 0 <= j < |e| ensures RecordOk(e[j]) && (Skipped(e[j].code) || Whole(e[j].value)) {
      if j == 1 {
        assert e[j] == Record(NORTH, 4.0);
      } else if j == 2 {
        assert e[j] == Record(EAST, 3.0);
      } else if j == 3 {
        assert e[j] == Record(SOUTH, 1.0);
      } else if j == 6 {
        assert e[j] == Record(NORTH, 5.0);
      } else {
        assert e[j].value == 0.0;
      }
    }
  }

  /** The example's records one by one, with the cell count of every leg. */
  lemma ExampleRecords(e: seq<Record>)
    requires e == Example()
    ensures |e| == 8
    ensures e[0] == Record(START, 0.0) && e[1] == Record(NORTH, 4.0) && e[2] == Record(EAST, 3.0)
    ensures e[3] == Record(SOUTH, 1.0) && e[4] == Record(IR, 0.0) && e[5] == Record(WEST, 0.0)
    ensures e[6] == Record(NORTH, 5.0) && e[7] == Record(END, 0.0)
    ensures Cells(e[1]) == 4 && Cells(e[2]) == 3 && Cells(e[3]) == 1 && Cells(e[5]) == 0
    ensures Cells(e[6]) == 5 && e[4].value.Floor == 0
  {
  }

  /** The first half of the sizing pass over the example: up 4, right 3, down 1. */
  lemma ExampleScanFirstHalf(e: seq<Record>)
    requires e == Example() && Sizable(e)
    ensures Scan(e, 4) == Extent(3, 3, 0, 3, 4)
  {
    ExampleRecords(e);
    assert Scan(e, 1) == Extent(0, 0, 0, 0, 0);
    assert Scan(e, 2) == Extent(0, 4, 0, 0, 4);
    assert Scan(e, 3) == Extent(3, 4, 0, 3, 4);
  }

  /** The second half: no move for the hazard and the zero-length west leg, then up 5. */
  lemma ExampleScanSecondHalf(e: seq<Record>)
    requires e == Example() && Sizable(e)
    ensures Scan(e, 8) == Extent(3, 8, 0, 3, 8)
  {
    ExampleRecords(e);
    ExampleScanFirstHalf(e);
    assert Scan(e, 5) == Extent(3, 3, 0, 3, 4);
    assert Scan(e, 6) == Extent(3, 3, 0, 3, 4);
    assert Scan(e, 7) == Extent(3, 8, 0, 3, 8);
  }

  /** The example's grid is 4 wide and 8 high with the origin in column 0, and the robot
      ends 3 east and 8 north of where it started. */
  lemma ExampleDimension()
    ensures WellFormed(Example()) && Sizable(Example())
    ensures DimensionOf(Example()) == Dimension(4, 8, 0, 3, 8)
  {
    ExampleRecordsOk();
    ExampleScanSecondHalf(Example());
  }

  /** The example's cursor after each record: it starts below row 0, ends the first leg
      in row 3, the east leg in column 3, steps down to (3, 2), stays there for the
      hazard and the zero-length west leg, and ends at (3, 7). */
  lemma ExampleCursor(e: seq<Record>)
    requires e == Example()
    ensures Cursor(e, 1) == Pos(0, -1) && Cursor(e, 2) == Pos(0, 3) && Cursor(e, 3) == Pos(3, 3)
    ensures Cursor(e, 4) == Pos(3, 2) && Cursor(e, 5) == Pos(3, 2) && Cursor(e, 6) == Pos(3, 2)
    ensures Cursor(e, 7) == Pos(3, 7)
  {
    ExampleRecords(e);
    WalkIsShift(Pos(0, -1), NORTH, 4);
    WalkIsShift(Pos(0, 3), EAST, 3);
    WalkIsShift(Pos(3, 3), SOUTH, 1);
    WalkIsShift(Pos(3, 2), WEST, 0);
    WalkIsShift(Pos(3, 2), NORTH, 5);
    assert Cursor(e, 1) == Pos(0, -1);
    assert Cursor(e, 2) == Pos(0, 3);
    assert Cursor(e, 3) == Pos(3, 3);
    assert Cursor(e, 4) == Pos(3, 2);
    assert Cursor(e, 5) == Pos(3, 2);
    assert Cursor(e, 6) == Pos(3, 2);
    assert Cursor(e, 7) == Pos(3, 7);
  }

  /** The cells each record of the example writes: column 0 from the bottom row up, the
      rest of row 3, the step back down to (3, 2) where the IR hazard is marked, nothing
      for the zero-length west leg, column 3 from row 3 to row 7, and END at (3, 7). */
  lemma ExampleWrites(e: seq<Record>)
    requires e == Example()
    ensures Writes(e, 0) == [] && Writes(e, 5) == []
    ensures Writes(e, 1) == [Pos(0, 0), Pos(0, 1), Pos(0, 2), Pos(0, 3)]
    ensures Writes(e, 2) == [Pos(1, 3), Pos(2, 3), Pos(3, 3)]
    ensures Writes(e, 3) == [Pos(3, 2)] && Writes(e, 4) == [Pos(3, 2)]
    ensures Writes(e, 6) == [Pos(3, 3), Pos(3, 4), Pos(3, 5), Pos(3, 6), Pos(3, 7)]
    ensures Writes(e, 7) == [Pos(3, 7)]
  {
    ExampleRecords(e);
    ExampleCursor(e);
  }

  /** Whatever grid the replay paints, the example's one hazard is the heat source in
      cell (3, 2), reported at 15 cm east and 10 cm north with its reading floored. */
  lemma ExampleHazards(e: seq<Record>, g0: seq<seq<int>>)
    requires e == Example()
    ensures Rasterize(e, 0, g0, 8).hazards == [Hazard(HeatSource, 0, 15, 10)]
  {
    ExampleRecords(e);
    assert Rasterize(e, 0, g0, 4).hazards == [] by {
      assert Rasterize(e, 0, g0, 1).hazards == [];
      assert Rasterize(e, 0, g0, 2).hazards == [];
      assert Rasterize(e, 0, g0, 3).hazards == [];
    }
    assert Cursor(e, 4) == Pos(3, 2) by { ExampleCursor(e); }
    assert Rasterize(e, 0, g0, 5).hazards == [Hazard(HeatSource, 0, 15, 10)];
    assert Rasterize(e, 0, g0, 6).hazards == [Hazard(HeatSource, 0, 15, 10)];
    assert Rasterize(e, 0, g0, 7).hazards == [Hazard(HeatSource, 0, 15, 10)];
  }

  // ---------------------------------------------------------------------------
  // A second replay of the same log

  /** No cell carries the START mark. */
  predicate NoStartCell(g: seq<seq<int>>) {
    forall r, c :: 0 <= r < |g| && 0 <= c < |g[r]| ==> g[r][c] != START_CELL
  }

  /** After the replay, no START record is left in front of a leg that moves. */
  lemma ConsumedHasNoLiveStart(log: seq<Record>)
    requires WellFormed(log)
    ensures forall j :: 0 < j < |log| && Moves(Consumed(log), j) ==> Consumed(log)[j - 1].code != START
  {
    var c := Consumed(log);
    forall j | 0 < j < |log| && Moves(c, j)
      ensures c[j - 1].code != START
    {
      assert RecordOk(log[j]);
      assert Moves(log, j);
    }
  }

  lemma {:induction false} PaintLegNoStart(g: seq<seq<int>>, start: int, cells: seq<Pos>, first: int)
    requires NoStartCell(g) && first != START_CELL
    ensures NoStartCell(PaintLeg(g, start, cells, first))
    decreases |cells|
  {
    if cells != [] {
      PaintLegNoStart(Paint(g, start, cells[0], first), start, cells[1..], PATH);
    }
  }

  /** Replaying a log with no START in front of a moving leg marks no cell START. */
  lemma {:induction false} ReplayMarksNoStart(log: seq<Record>, start: int, g0: seq<seq<int>>, n: nat)
    requires n <= |log| && NoStartCell(g0)
    requires forall j :: 0 < j < |log| && Moves(log, j) ==> log[j - 1].code != START
    ensures NoStartCell(Rasterize(log, start, g0, n).grid)
  {
    if n > 0 {
      ReplayMarksNoStart(log, start, g0, n - 1);
      var g := Rasterize(log, start, g0, n - 1).grid;
      var i := n - 1;
      if IsLeg(log[i].code) {
        if AfterStart(log, i) {
          assert !Moves(log, i);
          assert Writes(log, i) == [];
        } else {
          PaintLegNoStart(g, start, Writes(log, i), PATH);
        }
      }
    }
  }

  /** The log START; north 2; END, which fills a 1-wide, 2-high matrix. */
  function Short(): seq<Record> {
    [Record(START, 0.0), Record(NORTH, 2.0), Record(END, 0.0)]
  }

  /** Replaying the short log over a 1 x 2 grid: `first` marks row 0, PATH row 1, then
      END overwrites row 1. */
  lemma ShortReplay(s: seq<Record>, g0: seq<seq<int>>, first: int)
    requires |s| == 3 && s[0].code in {START, NORTH} && s[0].value == 0.0
    requires s[1] == Record(NORTH, 2.0) && s[2] == Record(END, 0.0)
    requires first == (if s[0].code == START then START_CELL else PATH)
    requires g0 == [[EMPTY], [EMPTY]]
    ensures Rasterize(s, 0, g0, 3).grid == [[first], [END_CELL]]
  {
    assert Cells(s[1]) == 2 && Cells(s[0]) == 0;
    assert Rasterize(s, 0, g0, 1).grid == g0;
    assert Cursor(s, 1) == Pos(0, -1);
    assert Writes(s, 1) == [Pos(0, 0), Pos(0, 1)];
    var g1 := Paint(g0, 0, Pos(0, 0), first);
    assert g1[0] == [first] && g1[1] == [EMPTY];
    var g2 := Paint(g1, 0, Pos(0, 1), PATH);
    assert g2[0] == [first] && g2[1] == [PATH];
    assert PaintLeg(g1, 0, [Pos(0, 1)], PATH) == g2;
    assert PaintLeg(g0, 0, [Pos(0, 0), Pos(0, 1)], first) == g2;
    assert Rasterize(s, 0, g0, 2).grid == g2;
    assert Cursor(s, 2) == Pos(0, 1);
    var g3 := Paint(g2, 0, Pos(0, 1), END_CELL);
    assert g3[0] == [first] && g3[1] == [END_CELL];
  }

  /** Replaying a log is not repeatable: the replay rewrites the log's START, so a second
      replay of the same log object over a fresh matrix loses the START mark. */
  lemma ReplayNotRepeatable(s: seq<Record>, g0: seq<seq<int>>)
    requires s == Short() && g0 == CreateMatrix(1, 2)
    ensures DimensionOf(s) == Dimension(1, 2, 0, 0, 2)
    ensures Rasterize(s, 0, g0, 3).grid == [[START_CELL], [END_CELL]]
    ensures Rasterize(Consumed(s), 0, g0, 3).grid == [[PATH], [END_CELL]]
  {
    assert Cells(s[1]) == 2 && Whole(s[0].value) && Whole(s[1].value);
    assert Sizable(s) by {
      forall j | 0 <= j < |s| ensures Skipped(s[j].code) || Whole(s[j].value) {}
    }
    assert Scan(s, 1) == Extent(0, 0, 0, 0, 0);
    assert Scan(s, 2) == Extent(0, 2, 0, 0, 2);
    assert g0[0] == [EMPTY] && g0[1] == [EMPTY];
    ShortReplay(s, g0, START_CELL);
    var c := Consumed(s);
    assert c[0] == Record(NORTH, 0.0) && c[1] == s[1] && c[2] == s[2];
    ShortReplay(c, g0, PATH);
  }

  // ---------------------------------------------------------------------------
  // Rows below the first one

  /** The log of a traversal interrupted before its first tick is START; north 0; END.
      `calculate_dimension` sizes it 1 wide and 0 high, so `create_matrix` returns no
      rows, while END is written on row -1: the map builder fails on this log. The
      corrected sizing gives it one row, with END on it. */
  lemma IdleRunBreaksMap(pid: Gears.Pid, readings: seq<Gears.Reading>, log: seq<Record>)
    requires pid == Gears.Pid(0.0, 0.0) && |readings| == 0 && log == Gears.TraversalLog(pid, readings)
    ensures log == [Record(START, 0.0), Record(NORTH, 0.0), Record(END, 0.0)]
    ensures WellFormed(log) && DimensionOf(log) == Dimension(1, 0, 0, 0, 0)
    ensures CreateMatrix(DimensionOf(log).width, DimensionOf(log).height) == []
    ensures Writes(log, 2) == [Pos(0, -1)] && !RowsNonNegative(log)
    ensures FrameOf(log) == Frame(1, 1, 0, 1)
  {
    assert Gears.Run(Gears.Initial(pid), readings) == Gears.Initial(pid);
    assert log == Gears.Finish(Gears.Initial(pid));
    IdleLogMap(log);
    assert Pos(0, -1) in Writes(log, 2);
  }

  lemma IdleLogMap(log: seq<Record>)
    requires log == [Record(START, 0.0), Record(NORTH, 0.0), Record(END, 0.0)]
    ensures WellFormed(log) && Sizable(log) && DimensionOf(log) == Dimension(1, 0, 0, 0, 0)
    ensures Writes(log, 2) == [Pos(0, -1)] && LowestRow(log, |log|) == -1
  {
    assert forall j :: 0 <= j < |log| ==> RecordOk(log[j]);
    assert Sizable(log) by {
      forall j | 0 <= j < |log| ensures Skipped(log[j].code) || Whole(log[j].value) {}
    }
    IdleLogScan(log);
    IdleLogRows(log);
  }

  lemma IdleLogScan(log: seq<Record>)
    requires log == [Record(START, 0.0), Record(NORTH, 0.0), Record(END, 0.0)] && Sizable(log)
    ensures Scan(log, 2) == Extent(0, 0, 0, 0, 0) && Scan(log, 3) == Extent(0, 0, 0, 0, 0)
  {
    assert Scan(log, 1) == Extent(0, 0, 0, 0, 0);
    assert Scan(log, 2) == Extent(0, 0, 0, 0, 0);
  }

  lemma IdleLogRows(log: seq<Record>)
    requires log == [Record(START, 0.0), Record(NORTH, 0.0), Record(END, 0.0)] && Sizable(log)
    requires Scan(log, 2) == Extent(0, 0, 0, 0, 0)
    ensures Writes(log, 2) == [Pos(0, -1)] && LowestRow(log, |log|) == -1
  {
    assert Cells(log[1]) == 0;
    assert Cursor(log, 1) == Pos(0, -1);
    assert Cursor(log, 2) == Pos(0, -1);
    assert RowFloor(Scan(log, 0), log[0]) == 0 && RowFloor(Scan(log, 1), log[1]) == 0;
    assert RowFloor(Scan(log, 2), log[2]) == -1;
    assert LowestRow(log, 1) == 0;
    assert LowestRow(log, 2) == 0;
  }

  /** START; north 2; west 0; south 3; END: the robot follows a wall north for two
      cells, turns left twice and goes three cells south. The legs are quarter turns,
      so the controller can hand this log over. The pass sizes 1 x 2, but the south leg
      writes rows 0, -1 and -2 and END row -2: Python reads rows -1 and -2 as rows 1
      and 0, so the south leg overwrites the north leg's cells, START included, without
      an error. The corrected sizing gives 4 rows with grid row 0 on matrix row 2. */
  lemma SouthRunWrapsRows(w: seq<Record>)
    requires w == [Record(START, 0.0), Record(NORTH, 2.0), Record(WEST, 0.0), Record(SOUTH, 3.0), Record(END, 0.0)]
    ensures Gears.FinishedLog(w) && WellFormed(w)
    ensures DimensionOf(w) == Dimension(1, 2, 0, 0, -1)
    ensures Writes(w, 1) == [Pos(0, 0), Pos(0, 1)]
    ensures Writes(w, 3) == [Pos(0, 0), Pos(0, -1), Pos(0, -2)] && Writes(w, 4) == [Pos(0, -2)]
    ensures FrameOf(w) == Frame(1, 4, 0, 2)
  {
    SouthLogFinished(w);
    FinishedLogAccepted(w);
    SouthLogScan(w);
    SouthLogWrites(w);
    SouthLogRows(w);
  }

  lemma SouthLogFinished(w: seq<Record>)
    requires w == [Record(START, 0.0), Record(NORTH, 2.0), Record(WEST, 0.0), Record(SOUTH, 3.0), Record(END, 0.0)]
    ensures Gears.FinishedLog(w)
  {
    assert Gears.Codes(w[..4]) == [START, NORTH, WEST, SOUTH];
    assert Gears.Logged(w[1]) && Gears.Logged(w[2]) && Gears.Logged(w[3]);
  }

  lemma SouthLogScan(w: seq<Record>)
    requires w == [Record(START, 0.0), Record(NORTH, 2.0), Record(WEST, 0.0), Record(SOUTH, 3.0), Record(END, 0.0)]
    requires Sizable(w)
    ensures Scan(w, 2) == Extent(0, 2, 0, 0, 2) && Scan(w, 3) == Extent(0, 2, 0, 0, 2)
    ensures Scan(w, 4) == Extent(0, -1, 0, 0, 2) && Scan(w, 5) == Extent(0, -1, 0, 0, 2)
  {
    assert Cells(w[1]) == 2 && Cells(w[2]) == 0 && Cells(w[3]) == 3;
    assert Scan(w, 1) == Extent(0, 0, 0, 0, 0);
    assert Scan(w, 2) == Extent(0, 2, 0, 0, 2);
    assert Scan(w, 3) == Extent(0, 2, 0, 0, 2);
    assert Scan(w, 4) == Extent(0, -1, 0, 0, 2);
  }

  lemma SouthLogWrites(w: seq<Record>)
    requires w == [Record(START, 0.0), Record(NORTH, 2.0), Record(WEST, 0.0), Record(SOUTH, 3.0), Record(END, 0.0)]
    ensures Writes(w, 1) == [Pos(0, 0), Pos(0, 1)]
    ensures Writes(w, 3) == [Pos(0, 0), Pos(0, -1), Pos(0, -2)] && Writes(w, 4) == [Pos(0, -2)]
  {
    assert Cells(w[1]) == 2 && Cells(w[2]) == 0 && Cells(w[3]) == 3;
    assert Cursor(w, 1) == Pos(0, -1);
    assert LegCells(Pos(0, -1), NORTH, 2) == [Pos(0, 0)] + LegCells(Pos(0, 0), NORTH, 1);
    WalkIsShift(Pos(0, -1), NORTH, 2);
    assert Cursor(w, 2) == Pos(0, 1);
    assert Cursor(w, 3) == Pos(0, 1);
    assert LegCells(Pos(0, 1), SOUTH, 3) == [Pos(0, 0)] + LegCells(Pos(0, 0), SOUTH, 2);
    assert LegCells(Pos(0, 0), SOUTH, 2) == [Pos(0, -1)] + LegCells(Pos(0, -1), SOUTH, 1);
    WalkIsShift(Pos(0, 1), SOUTH, 3);
    assert Cursor(w, 4) == Pos(0, -2);
  }

  lemma SouthLogRows(w: seq<Record>)
    requires w == [Record(START, 0.0), Record(NORTH, 2.0), Record(WEST, 0.0), Record(SOUTH, 3.0), Record(END, 0.0)]
    requires Sizable(w)
    requires Scan(w, 2) == Extent(0, 2, 0, 0, 2) && Scan(w, 3) == Extent(0, 2, 0, 0, 2)
    requires Scan(w, 4) == Extent(0, -1, 0, 0, 2) && Scan(w, 5) == Extent(0, -1, 0, 0, 2)
    ensures FrameOf(w) == Frame(1, 4, 0, 2)
  {
    assert Cells(w[1]) == 2 && Cells(w[2]) == 0 && Cells(w[3]) == 3;
    assert RowFloor(Scan(w, 0), w[0]) == 0 && RowFloor(Scan(w, 2), w[2]) == 0;
    assert Scan(w, 1) == Extent(0, 0, 0, 0, 0);
    assert RowFloor(Scan(w, 1), w[1]) == 0;
    assert RowFloor(Scan(w, 3), w[3]) == -2 && RowFloor(Scan(w, 4), w[4]) == -2;
    assert LowestRow(w, 1) == 0;
    assert LowestRow(w, 2) == 0;
    assert LowestRow(w, 3) == 0;
    assert LowestRow(w, 4) == -2;
    assert LowestRow(w, 5) == -2;
  }
}
