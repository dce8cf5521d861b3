/** The wall-following robot (`GEARS`): each tick of `traverse_maze` reads the sensors,
    picks one of four rules (hazard, left turn, straight, open space) and extends the
    move log; the interrupt that ends the run closes the last leg and appends END.
    The motors are reduced to the commands a tick issues. */
module Gears {
  import opened MoveLog

  // Thresholds and increments of `traverse_maze`.
  const MAX_RIGHT: real := 20.0
  const MAX_FRONT: real := 15.0
  const SPEED: real := 180.0
  const MAGNETIC_LIMIT: real := 100.0
  const IR_LIMIT: real := 9.0
  /** Distance added per straight tick, per corner and after a corner, in cells. */
  const STRAIGHT_STEP: real := 0.25641
  const CORNER_STEP: real := 4.10256
  const RECOVER_STEP: real := 1.28205

  // The gains of `straight_control` and the tick length its derivative divides by.
  const KP: real := 3.0
  const KD: real := 2.0
  const KI: real := 1.5
  const TICK: real := 0.1
  /** The right-wall distance the controller holds. */
  const TARGET: real := 6.0
  /** Beyond this distance the wall is taken as lost and the error is pinned. */
  const WALL_RANGE: real := 11.0

  // ---------------------------------------------------------------------------
  // Heading

  /** `direction += -3 if direction == 3 else 1`. */
  function RightOf(h: int): (r: int)
    ensures 0 <= h <= 3 ==> r == (h + 1) % 4
  {
    if h == 3 then h - 3 else h + 1
  }

  /** `direction += 3 if direction == 0 else -1`. */
  function LeftOf(h: int): (r: int)
    ensures 0 <= h <= 3 ==> r == (h + 3) % 4
  {
    if h == 0 then h + 3 else h - 1
  }

  /** A left turn undoes a right turn and the other way round, and four right turns
      come back to the start. */
  lemma TurnsCancel(h: int)
    requires 0 <= h <= 3
    ensures LeftOf(RightOf(h)) == h && RightOf(LeftOf(h)) == h
    ensures RightOf(RightOf(RightOf(RightOf(h)))) == h
  {
  }

  // ---------------------------------------------------------------------------
  // straight_control

  datatype Pid = Pid(iError: real, prevErr: real)

  /** The two wheel factors and the new controller state of one `straight_control` call. */
  datatype Steering = Steering(pid: Pid, rChange: real, lChange: real)

  /** `error = (6 - right_dist) if right_dist < 11 else -6`: positive when the robot is
      closer to the right wall than the target. */
  function TrackingError(right: real): (e: real)
    ensures e == 0.0 <==> right == TARGET
    ensures e > 0.0 <==> right < TARGET
    ensures -6.0 <= e
    ensures right >= WALL_RANGE ==> e == -6.0
  {
    if right < WALL_RANGE then TARGET - right else -6.0
  }

  /** The "integral" term only ever accumulates KI * 0.5 = 0.75 times the change of the
      error, so it stays 0.75 times the last error once it starts from 0/0. */
  predicate Balanced(p: Pid) {
    p.iError == 0.75 * p.prevErr
  }

  /** `straight_control` without the motors. */
  function PidControl(p: Pid, right: real): (s: Steering)
    ensures s.rChange + s.lChange == 2.0
    ensures s.pid.prevErr == TrackingError(right)
    ensures s.pid.iError - p.iError == 0.75 * (s.pid.prevErr - p.prevErr)
    ensures Balanced(p) ==> Balanced(s.pid)
  {
    var error := TrackingError(right);
    var pError := KP * error;
    var dError := KD * (error - p.prevErr) / TICK;
    var iError := p.iError + KI * (error - p.prevErr) * 0.5;
    var rChange := 1.0 + (pError + dError + iError) / 100.0;
    Steering(Pid(iError, error), rChange, 2.0 - rChange)
  }

  /** Consecutive `straight_control` calls with these right-wall readings. */
  function PidRun(p: Pid, rights: seq<real>): Pid
    decreases |rights|
  {
    if rights == [] then p else PidRun(PidControl(p, rights[0]).pid, rights[1..])
  }

  /** The integral telescopes: over any run it grows by 0.75 times the net change of the error. */
  lemma {:induction false} PidTelescopes(p: Pid, rights: seq<real>)
    ensures PidRun(p, rights).iError - p.iError == 0.75 * (PidRun(p, rights).prevErr - p.prevErr)
    decreases |rights|
  {
    if rights != [] {
      PidTelescopes(PidControl(p, rights[0]).pid, rights[1..]);
    }
  }

  /** From the reset state 0/0 (the constructor's, and every turn's), after any run the
      integral is 0.75 times the last error. */
  lemma FromResetBalanced(rights: seq<real>)
    ensures Balanced(PidRun(Pid(0.0, 0.0), rights))
  {
    PidTelescopes(Pid(0.0, 0.0), rights);
  }

  /** Holding a steady distance, the controller speeds the right wheel up exactly when
      the robot is closer than the target (turning it away from the wall), slows it when
      farther, and drives both wheels equally at the target. */
  lemma SteadySteering(p: Pid, right: real)
    requires Balanced(p) && p.prevErr == TrackingError(right)
    ensures PidControl(p, right).rChange > 1.0 <==> right < TARGET
    ensures PidControl(p, right).rChange == 1.0 <==> right == TARGET
    ensures PidControl(p, right).lChange > 1.0 <==> right > TARGET
  {
    var e := TrackingError(right);
    assert PidControl(p, right).rChange == 1.0 + 3.75 * e / 100.0;
  }

  // ---------------------------------------------------------------------------
  // One tick of traverse_maze

  /** One sensor snapshot: the two ultrasonic distances, the magnitude of the magnetic
      field and the mean of the two IR channels. */
  datatype Reading = Reading(front: real, right: real, magnetic: real, ir: real)

  /** The motor commands a tick issues, in order (the sleeps between them are not modelled). */
  datatype Motion =
    | SpinRight                                // turn_right
    | SpinLeft                                 // turn_left
    | TimedSpinRight(seconds: real)            // turn_right_PID(t)
    | Drive(rightDps: real, leftDps: real)     // straight / straight_control

  /** The loop's locals between ticks, with the controller state. */
  datatype Nav = Nav(direction: int, distance: real, justTurned: bool, moves: seq<Record>, pid: Pid)

  datatype Outcome = Outcome(next: Nav, motions: seq<Motion>)

  /** The state `traverse_maze` starts from: heading north, no distance, a log holding
      START and an open north leg. The controller state is whatever the object holds. */
  function Initial(pid: Pid): (s: Nav)
    ensures s.direction == NORTH && s.distance == 0.0 && !s.justTurned && s.pid == pid
    ensures s.moves == [Record(START, 0.0), Record(s.direction, 0.0)]
  {
    Nav(NORTH, 0.0, false, [Record(START, 0.0), Record(NORTH, 0.0)], pid)
  }

  /** `moves[-1][1] = m.floor(d)`. */
  function CloseLeg(moves: seq<Record>, d: real): (r: seq<Record>)
    requires |moves| > 0
    ensures |r| == |moves| && r[..|r| - 1] == moves[..|moves| - 1]
    ensures r[|r| - 1].code == moves[|moves| - 1].code && r[|r| - 1].value == d.Floor as real
  {
    moves[..|moves| - 1] + [moves[|moves| - 1].(value := d.Floor as real)]
  }

  predicate HazardSeen(rd: Reading) {
    rd.magnetic > MAGNETIC_LIMIT || rd.ir > IR_LIMIT
  }

  predicate FollowingWall(s: Nav, rd: Reading) {
    rd.right < MAX_RIGHT || s.justTurned
  }

  /** The body of the `while True` loop for one reading. A tick never rewrites the
      log's past: it keeps every record before the open leg, keeps that leg's
      heading, appends at most two records, and always drives a motor. */
  function Step(s: Nav, rd: Reading): (o: Outcome)
    requires |s.moves| > 0
    ensures |s.moves| <= |o.next.moves| <= |s.moves| + 2
    ensures o.next.moves[..|s.moves| - 1] == s.moves[..|s.moves| - 1]
    ensures o.next.moves[|s.moves| - 1].code == s.moves[|s.moves| - 1].code
    ensures o.motions != []
  {
    if rd.magnetic > MAGNETIC_LIMIT || rd.ir > IR_LIMIT then
      var dir := RightOf(s.direction);
      var hazard := if rd.magnetic > MAGNETIC_LIMIT then Record(MAGNETIC, rd.magnetic) else Record(IR, rd.ir);
      Outcome(Nav(dir, 0.0, s.justTurned, CloseLeg(s.moves, s.distance) + [hazard, Record(dir, 0.0)], Pid(0.0, 0.0)),
              [SpinRight])
    else if rd.right < MAX_RIGHT || s.justTurned then
      if rd.front < MAX_FRONT then
        var dir := LeftOf(s.direction);
        Outcome(Nav(dir, 0.0, rd.right >= MAX_RIGHT, CloseLeg(s.moves, s.distance) + [Record(dir, 0.0)], Pid(0.0, 0.0)),
                [SpinLeft])
      else
        var c := PidControl(s.pid, rd.right);
        Outcome(Nav(s.direction, s.distance + STRAIGHT_STEP, rd.right >= MAX_RIGHT, s.moves, c.pid),
                [Drive(SPEED * c.rChange, SPEED * c.lChange)])
    else
      var dir := RightOf(s.direction);
      var closed := CloseLeg(s.moves, s.distance + CORNER_STEP) + [Record(dir, 0.0)];
      if rd.front > MAX_FRONT then
        Outcome(Nav(dir, 0.0 + RECOVER_STEP, true, closed, Pid(0.0, 0.0)),
                [Drive(SPEED, SPEED), TimedSpinRight(1.2), Drive(SPEED, SPEED)])
      else
        Outcome(Nav(dir, 0.0 + RECOVER_STEP, s.justTurned, closed, Pid(0.0, 0.0)),
                [SpinRight, Drive(SPEED, SPEED)])
  }

  /** What each branch of a tick does to the log, the heading, the distance, the
      controller and `just_turned`. */
  lemma StepBranches(s: Nav, rd: Reading)
    requires |s.moves| > 0
    // Hazard: close the leg, turn right, log the hazard and a new leg; magnetic wins.
    ensures var n := Step(s, rd).next; HazardSeen(rd) ==>
      && |n.moves| == |s.moves| + 2
      && n.moves[..|s.moves|] == CloseLeg(s.moves, s.distance)
      && n.moves[|s.moves|] ==
           (if rd.magnetic > MAGNETIC_LIMIT then Record(MAGNETIC, rd.magnetic) else Record(IR, rd.ir))
      && n.direction == RightOf(s.direction)
      && n.moves[|s.moves| + 1] == Record(n.direction, 0.0)
      && n.distance == 0.0 && n.pid == Pid(0.0, 0.0) && n.justTurned == s.justTurned
      && Step(s, rd).motions == [SpinRight]
    // Left turn: close the leg, turn left, open a new leg.
    ensures var n := Step(s, rd).next; !HazardSeen(rd) && FollowingWall(s, rd) && rd.front < MAX_FRONT ==>
      && n.moves == CloseLeg(s.moves, s.distance) + [Record(LeftOf(s.direction), 0.0)]
      && n.direction == LeftOf(s.direction)
      && n.distance == 0.0 && n.pid == Pid(0.0, 0.0)
      && n.justTurned == (rd.right >= MAX_RIGHT)
      && Step(s, rd).motions == [SpinLeft]
    // Straight: the log is untouched, the distance grows and the controller steers.
    ensures var n := Step(s, rd).next; !HazardSeen(rd) && FollowingWall(s, rd) && rd.front >= MAX_FRONT ==>
      && n.moves == s.moves && n.direction == s.direction
      && n.distance == s.distance + STRAIGHT_STEP
      && n.pid == PidControl(s.pid, rd.right).pid
      && n.justTurned == (rd.right >= MAX_RIGHT)
      && Step(s, rd).motions ==
           [Drive(SPEED * PidControl(s.pid, rd.right).rChange, SPEED * PidControl(s.pid, rd.right).lChange)]
    // Open space: the leg is closed 4.10256 cells longer, the robot turns right and
    // starts the new leg 1.28205 cells in; it counts as just turned when it pivoted.
    ensures var n := Step(s, rd).next; !HazardSeen(rd) && !FollowingWall(s, rd) ==>
      && n.moves == CloseLeg(s.moves, s.distance + CORNER_STEP) + [Record(RightOf(s.direction), 0.0)]
      && n.direction == RightOf(s.direction)
      && n.distance == RECOVER_STEP && n.pid == Pid(0.0, 0.0)
      && n.justTurned == (rd.front > MAX_FRONT)
      && Step(s, rd).motions == if rd.front > MAX_FRONT
                                then [Drive(SPEED, SPEED), TimedSpinRight(1.2), Drive(SPEED, SPEED)]
                                else [SpinRight, Drive(SPEED, SPEED)]
  {
    if HazardSeen(rd) {
      HazardOutcome(s, rd);
    } else if FollowingWall(s, rd) && rd.front < MAX_FRONT {
      LeftTurnOutcome(s, rd);
    } else if FollowingWall(s, rd) {
      StraightOutcome(s, rd);
    } else {
      OpenSpaceOutcome(s, rd);
    }
  }

  /** The ticks of a run, one per reading. */
  function Run(s: Nav, readings: seq<Reading>): Nav
    requires |s.moves| > 0
    decreases |readings|
  {
    if readings == [] then s
    else
      var t := Step(s, readings[0]).next;
      assert |t.moves| > 0;
      Run(t, readings[1..])
  }

  /** The `KeyboardInterrupt` handler: close the open leg and append END. */
  function Finish(s: Nav): (log: seq<Record>)
    requires |s.moves| > 0
    ensures |log| == |s.moves| + 1
    ensures log[..|s.moves|] == CloseLeg(s.moves, s.distance)
    ensures log[|log| - 1] == Record(END, 0.0)
  {
    CloseLeg(s.moves, s.distance) + [Record(END, 0.0)]
  }

  // ---------------------------------------------------------------------------
  // What every tick keeps

  /** Records after the first are legs or hazards; a hazard holds the reading that
      tripped it. */
  predicate Logged(r: Record) {
    || (IsLeg(r.code) && Whole(r.value) && r.value >= 0.0)
    || (r.code == MAGNETIC && r.value > MAGNETIC_LIMIT)
    || (r.code == IR && r.value > IR_LIMIT)
  }

  function Codes(moves: seq<Record>): (c: seq<int>)
    ensures |c| == |moves| && forall j :: 0 <= j < |moves| ==> c[j] == moves[j].code
  {
    seq(|moves|, j requires 0 <= j < |moves| => moves[j].code)
  }

  /** Two legs in a row differ by a quarter turn either way. */
  predicate LegTurn(a: int, b: int) {
    IsLeg(a) && IsLeg(b) ==> b == RightOf(a) || b == LeftOf(a)
  }

  /** Around a hazard: a leg before, and after it the leg to that one's right. */
  predicate Detour(a: int, c: int) {
    IsLeg(a) && IsLeg(c) && c == RightOf(a)
  }

  /** How the codes after START follow each other. */
  predicate QuarterTurns(codes: seq<int>) {
    && (forall j :: 1 <= j < |codes| - 1 ==> LegTurn(codes[j], codes[j + 1]))
    && (forall j :: 1 <= j < |codes| - 1 ==> IsHazard(codes[j]) ==> Detour(codes[j - 1], codes[j + 1]))
  }

  /** The invariant of the traversal loop. */
  predicate Traversing(s: Nav) {
    && 0 <= s.direction <= 3
    && s.distance >= 0.0
    && |s.moves| >= 2
    && s.moves[0] == Record(START, 0.0)
    && s.moves[|s.moves| - 1] == Record(s.direction, 0.0)
    && IsLeg(s.moves[1].code)
    && (forall j :: 1 <= j < |s.moves| ==> Logged(s.moves[j]))
    && QuarterTurns(Codes(s.moves))
    && Balanced(s.pid)
  }

  /** A log as the interrupt hands it over. */
  predicate FinishedLog(log: seq<Record>) {
    && |log| >= 3
    && log[0] == Record(START, 0.0)
    && log[|log| - 1] == Record(END, 0.0)
    && IsLeg(log[1].code)
    && IsLeg(log[|log| - 2].code)
    && (forall j :: 1 <= j < |log| - 1 ==> Logged(log[j]))
    && QuarterTurns(Codes(log[..|log| - 1]))
  }

  lemma InitialTraversing(pid: Pid)
    requires Balanced(pid)
    ensures Traversing(Initial(pid))
  {
  }

  /** Closing the open leg keeps every record's code, and a non-negative distance
      gives it a whole non-negative length. */
  lemma CloseLegKeeps(moves: seq<Record>, d: real)
    requires |moves| >= 2 && d >= 0.0 && IsLeg(moves[|moves| - 1].code)
    requires forall j :: 1 <= j < |moves| ==> Logged(moves[j])
    ensures forall j :: 1 <= j < |moves| ==> Logged(CloseLeg(moves, d)[j])
    ensures Codes(CloseLeg(moves, d)) == Codes(moves)
    ensures CloseLeg(moves, d)[0] == moves[0]
  {
    var r := CloseLeg(moves, d);
    assert d.Floor >= 0;
    forall j | 0 <= j < |moves| - 1 ensures r[j] == moves[j] {
      assert r[j] == r[..|r| - 1][j];
    }
  }

  /** Appending a leg after a leg, or a hazard and the leg to the right, keeps the
      quarter-turn structure. */
  lemma AppendKeepsTurns(codes: seq<int>, added: seq<int>)
    requires |codes| >= 2 && QuarterTurns(codes) && IsLeg(codes[|codes| - 1])
    requires |added| == 1 ==> LegTurn(codes[|codes| - 1], added[0]) && IsLeg(added[0])
    requires |added| == 2 ==> IsHazard(added[0]) && Detour(codes[|codes| - 1], added[1])
    requires 1 <= |added| <= 2
    ensures QuarterTurns(codes + added)
  {
    var m := codes + added;
    forall j | 1 <= j < |m| - 1
      ensures LegTurn(m[j], m[j + 1]) && (IsHazard(m[j]) ==> Detour(m[j - 1], m[j + 1]))
    {
      if j + 1 < |codes| {
        assert m[j - 1] == codes[j - 1] && m[j] == codes[j] && m[j + 1] == codes[j + 1];
      }
    }
  }

  /** Closing the open leg and appending a turned leg, or a hazard and the leg to the
      right, keeps the loop invariant. */
  lemma ExtendKeeps(s: Nav, t: Nav, d: real, added: seq<Record>)
    requires Traversing(s) && d >= 0.0
    requires t.moves == CloseLeg(s.moves, d) + added
    requires 0 <= t.direction <= 3 && t.distance >= 0.0 && Balanced(t.pid)
    requires 1 <= |added| <= 2 && added[|added| - 1] == Record(t.direction, 0.0)
    requires |added| == 1 ==> LegTurn(s.direction, t.direction)
    requires |added| == 2 ==> Logged(added[0]) && IsHazard(added[0].code) && Detour(s.direction, t.direction)
    ensures Traversing(t)
  {
    var closed := CloseLeg(s.moves, d);
    CloseLegKeeps(s.moves, d);
    assert Codes(t.moves) == Codes(closed) + Codes(added);
    AppendKeepsTurns(Codes(closed), Codes(added));
    assert t.moves[1] == closed[1];
    forall j | 1 <= j < |t.moves| ensures Logged(t.moves[j]) {
      if j < |closed| {
        assert t.moves[j] == closed[j];
      } else {
        assert t.moves[j] == added[j - |closed|];
      }
    }
  }

  /** Every tick keeps the loop invariant. */
  lemma StepKeepsTraversing(s: Nav, rd: Reading)
    requires Traversing(s)
    ensures Traversing(Step(s, rd).next)
  {
    if HazardSeen(rd) {
      HazardKeeps(s, rd);
    } else if FollowingWall(s, rd) {
      WallKeeps(s, rd);
    } else {
      OpenSpaceKeeps(s, rd);
    }
  }

  lemma WallKeeps(s: Nav, rd: Reading)
    requires Traversing(s) && !HazardSeen(rd) && FollowingWall(s, rd)
    ensures Traversing(Step(s, rd).next)
  {
    if rd.front < MAX_FRONT {
      var dir := LeftOf(s.direction);
      var t := Nav(dir, 0.0, rd.right >= MAX_RIGHT, CloseLeg(s.moves, s.distance) + [Record(dir, 0.0)], Pid(0.0, 0.0));
      assert Step(s, rd).next == t;
      ExtendKeeps(s, t, s.distance, [Record(dir, 0.0)]);
    } else {
      var c := PidControl(s.pid, rd.right);
      assert Step(s, rd).next == Nav(s.direction, s.distance + STRAIGHT_STEP, rd.right >= MAX_RIGHT, s.moves, c.pid);
    }
  }

  lemma OpenSpaceKeeps(s: Nav, rd: Reading)
    requires Traversing(s) && !HazardSeen(rd) && !FollowingWall(s, rd)
    ensures Traversing(Step(s, rd).next)
  {
    var dir := RightOf(s.direction);
    var moves := CloseLeg(s.moves, s.distance + CORNER_STEP) + [Record(dir, 0.0)];
    var t := Nav(dir, RECOVER_STEP, rd.front > MAX_FRONT, moves, Pid(0.0, 0.0));
    assert Step(s, rd).next == t;
    ExtendKeeps(s, t, s.distance + CORNER_STEP, [Record(dir, 0.0)]);
  }

  lemma HazardKeeps(s: Nav, rd: Reading)
    requires Traversing(s) && HazardSeen(rd)
    ensures Traversing(Step(s, rd).next)
  {
    var dir := RightOf(s.direction);
    var hazard := if rd.magnetic > MAGNETIC_LIMIT then Record(MAGNETIC, rd.magnetic) else Record(IR, rd.ir);
    var added := [hazard, Record(dir, 0.0)];
    var t := Nav(dir, 0.0, s.justTurned, CloseLeg(s.moves, s.distance) + added, Pid(0.0, 0.0));
    assert Step(s, rd).next == t;
    ExtendKeeps(s, t, s.distance, added);
  }

  // Proof helpers: the outcome of each branch of `Step` unfolded, for `StepBranches`
  // and the branch methods of `Robot`.

  lemma HazardOutcome(s: Nav, rd: Reading)
    requires |s.moves| > 0 && HazardSeen(rd)
    ensures var dir := RightOf(s.direction);
      Step(s, rd) == Outcome(Nav(dir, 0.0, s.justTurned, CloseLeg(s.moves, s.distance)
                                   + [if rd.magnetic > MAGNETIC_LIMIT then Record(MAGNETIC, rd.magnetic) else Record(IR, rd.ir),
                                      Record(dir, 0.0)], Pid(0.0, 0.0)),
                             [SpinRight])
  {
  }

  lemma LeftTurnOutcome(s: Nav, rd: Reading)
    requires |s.moves| > 0 && !HazardSeen(rd) && FollowingWall(s, rd) && rd.front < MAX_FRONT
    ensures var dir := LeftOf(s.direction);
      Step(s, rd) == Outcome(Nav(dir, 0.0, rd.right >= MAX_RIGHT, CloseLeg(s.moves, s.distance) + [Record(dir, 0.0)],
                                 Pid(0.0, 0.0)),
                             [SpinLeft])
  {
  }

  lemma StraightOutcome(s: Nav, rd: Reading)
    requires |s.moves| > 0 && !HazardSeen(rd) && FollowingWall(s, rd) && rd.front >= MAX_FRONT
    ensures var c := PidControl(s.pid, rd.right);
      Step(s, rd) == Outcome(Nav(s.direction, s.distance + STRAIGHT_STEP, rd.right >= MAX_RIGHT, s.moves, c.pid),
                             [Drive(SPEED * c.rChange, SPEED * c.lChange)])
  {
  }

  lemma OpenSpaceOutcome(s: Nav, rd: Reading)
    requires |s.moves| > 0 && !HazardSeen(rd) && !FollowingWall(s, rd)
    ensures var dir := RightOf(s.direction);
      Step(s, rd) == Outcome(Nav(dir, RECOVER_STEP, rd.front > MAX_FRONT,
                                 CloseLeg(s.moves, s.distance + CORNER_STEP) + [Record(dir, 0.0)], Pid(0.0, 0.0)),
                             if rd.front > MAX_FRONT then [Drive(SPEED, SPEED), TimedSpinRight(1.2), Drive(SPEED, SPEED)]
                             else [SpinRight, Drive(SPEED, SPEED)])
  {
  }

  /** Every run of ticks keeps the loop invariant. */
  lemma {:induction false} RunKeepsTraversing(s: Nav, readings: seq<Reading>)
    requires Traversing(s)
    ensures Traversing(Run(s, readings))
    decreases |readings|
  {
    if readings != [] {
      StepKeepsTraversing(s, readings[0]);
      RunKeepsTraversing(Step(s, readings[0]).next, readings[1..]);
    }
  }

  /** The interrupt turns a traversing state into a finished log. */
  lemma FinishIsFinished(s: Nav)
    requires Traversing(s)
    ensures FinishedLog(Finish(s))
  {
    var log := Finish(s);
    CloseLegKeeps(s.moves, s.distance);
    assert log[..|log| - 1] == CloseLeg(s.moves, s.distance);
    assert log[1] == CloseLeg(s.moves, s.distance)[1];
  }

  /** The log of a whole traversal: the ticks, then the interrupt. */
  function TraversalLog(pid: Pid, readings: seq<Reading>): (log: seq<Record>)
    requires Balanced(pid)
    ensures FinishedLog(log)
  {
    InitialTraversing(pid);
    RunKeepsTraversing(Initial(pid), readings);
    FinishIsFinished(Run(Initial(pid), readings));
    Finish(Run(Initial(pid), readings))
  }

  // ---------------------------------------------------------------------------
  // The robot object

  /** `GEARS`: the controller state lives in fields; the state of `traverse_maze`'s
      loop is kept in fields too, so that a tick can be taken one at a time. */
  class Robot {
    const kP: real
    const kD: real
    const kI: real
    var iError: real
    var prevErr: real
    var outArray: seq<Record>
    var direction: int
    var distance: real
    var justTurned: bool
    var moves: seq<Record>

    function PidState(): Pid
      reads this
    {
      Pid(iError, prevErr)
    }

    function State(): Nav
      reads this
    {
      Nav(direction, distance, justTurned, moves, PidState())
    }

    constructor ()
      ensures kP == KP && kD == KD && kI == KI
      ensures PidState() == Pid(0.0, 0.0) && outArray == []
    {
      kP, kD, kI := KP, KD, KI;
      iError, prevErr := 0.0, 0.0;
      outArray := [];
      direction, distance, justTurned, moves := NORTH, 0.0, false, [];
    }

    /** `straight_control(dps, right_dist)`: updates the controller fields and returns
        the right and left wheel speeds. */
    method StraightControl(dps: real, rightDist: real) returns (rightDps: real, leftDps: real)
      requires kP == KP && kD == KD && kI == KI
      modifies this
      ensures PidState() == PidControl(old(PidState()), rightDist).pid
      ensures rightDps == dps * PidControl(old(PidState()), rightDist).rChange
      ensures leftDps == dps * PidControl(old(PidState()), rightDist).lChange
      ensures outArray == old(outArray) && moves == old(moves) && direction == old(direction)
      ensures distance == old(distance) && justTurned == old(justTurned)
    {
      var error := if rightDist < WALL_RANGE then TARGET - rightDist else -6.0;
      var pError := kP * error;
      var dError := kD * (error - prevErr) / TICK;
      iError := iError + kI * (error - prevErr) * 0.5;
      prevErr := error;
      var rChange := 1.0 + (pError + dError + iError) / 100.0;
      var lChange := 2.0 - rChange;
      rightDps, leftDps := dps * rChange, dps * lChange;
    }

    /** The locals `traverse_maze` sets up before its loop. */
    method BeginTraversal()
      modifies this
      ensures State() == Initial(old(PidState()))
      ensures outArray == old(outArray)
    {
      justTurned := false;
      direction := NORTH;
      distance := 0.0;
      moves := [Record(START, 0.0), Record(NORTH, 0.0)];
    }

    /** One pass of the loop body for one sensor snapshot. */
    method Tick(rd: Reading) returns (motions: seq<Motion>)
      requires kP == KP && kD == KD && kI == KI && |moves| > 0
      modifies this
      ensures State() == Step(old(State()), rd).next
      ensures motions == Step(old(State()), rd).motions
      ensures outArray == old(outArray)
    {
      if rd.magnetic > MAGNETIC_LIMIT || rd.ir > IR_LIMIT {
        motions := AvoidHazard(rd);
      } else if rd.right < MAX_RIGHT || justTurned {
        if rd.front < MAX_FRONT {
          motions := TurnLeft(rd);
        } else {
          motions := FollowWall(rd);
        }
      } else {
        motions := TurnIntoOpening(rd);
      }
    }

    /** A hazard ahead: close the leg, turn right, log the hazard and open a new leg. */
    method AvoidHazard(rd: Reading) returns (motions: seq<Motion>)
      requires |moves| > 0 && HazardSeen(rd)
      modifies this
      ensures State() == Step(old(State()), rd).next && motions == Step(old(State()), rd).motions
      ensures outArray == old(outArray)
    {
      HazardOutcome(State(), rd);
      motions := [SpinRight];
      iError, prevErr := 0.0, 0.0;
      moves := moves[..|moves| - 1] + [moves[|moves| - 1].(value := distance.Floor as real)];
      direction := direction + if direction == 3 then -3 else 1;
      distance := 0.0;
      if rd.magnetic > MAGNETIC_LIMIT {
        moves := moves + [Record(MAGNETIC, rd.magnetic)];
      } else {
        moves := moves + [Record(IR, rd.ir)];
      }
      moves := moves + [Record(direction, 0.0)];
    }

    /** A wall ahead while following the right wall: close the leg and turn left. */
    method TurnLeft(rd: Reading) returns (motions: seq<Motion>)
      requires |moves| > 0 && !HazardSeen(rd) && FollowingWall(State(), rd) && rd.front < MAX_FRONT
      modifies this
      ensures State() == Step(old(State()), rd).next && motions == Step(old(State()), rd).motions
      ensures outArray == old(outArray)
    {
      LeftTurnOutcome(State(), rd);
      motions := [SpinLeft];
      iError, prevErr := 0.0, 0.0;
      moves := moves[..|moves| - 1] + [moves[|moves| - 1].(value := distance.Floor as real)];
      direction := direction + if direction == 0 then 3 else -1;
      moves := moves + [Record(direction, 0.0)];
      distance := 0.0;
      justTurned := rd.right >= MAX_RIGHT;
    }

    /** The way ahead is clear: drive on under the wall-following controller. */
    method FollowWall(rd: Reading) returns (motions: seq<Motion>)
      requires kP == KP && kD == KD && kI == KI
      requires |moves| > 0 && !HazardSeen(rd) && FollowingWall(State(), rd) && rd.front >= MAX_FRONT
      modifies this
      ensures State() == Step(old(State()), rd).next && motions == Step(old(State()), rd).motions
      ensures outArray == old(outArray)
    {
      StraightOutcome(State(), rd);
      var r, l := StraightControl(SPEED, rd.right);
      motions := [Drive(r, l)];
      distance := distance + STRAIGHT_STEP;
      justTurned := rd.right >= MAX_RIGHT;
    }

    /** The right wall has gone: close the leg a corner longer, turn right and start
        the new leg past the corner. */
    method TurnIntoOpening(rd: Reading) returns (motions: seq<Motion>)
      requires |moves| > 0 && !HazardSeen(rd) && !FollowingWall(State(), rd)
      modifies this
      ensures State() == Step(old(State()), rd).next && motions == Step(old(State()), rd).motions
      ensures outArray == old(outArray)
    {
      OpenSpaceOutcome(State(), rd);
      var turned := justTurned;
      if rd.front > MAX_FRONT {
        motions := [Drive(SPEED, SPEED), TimedSpinRight(1.2)];
        turned := true;
      } else {
        motions := [SpinRight];
      }
      var dist := distance + CORNER_STEP;
      var log := moves[..|moves| - 1] + [moves[|moves| - 1].(value := dist.Floor as real)];
      assert log == CloseLeg(moves, distance + CORNER_STEP);
      var dir := direction + if direction == 3 then -3 else 1;
      log := log + [Record(dir, 0.0)];
      dist := 0.0;
      motions := motions + [Drive(SPEED, SPEED)];
      dist := dist + RECOVER_STEP;
      iError, prevErr := 0.0, 0.0;
      direction, distance, justTurned, moves := dir, dist, turned, log;
    }

    /** The `KeyboardInterrupt` handler: the finished log becomes `out_array`. */
    method Finalize() returns (log: seq<Record>)
      requires |moves| > 0
      modifies this
      ensures log == Finish(old(State())) && outArray == log
      ensures State() == old(State()).(moves := log)
    {
      moves := moves[..|moves| - 1] + [moves[|moves| - 1].(value := distance.Floor as real)];
      moves := moves + [Record(END, 0.0)];
      outArray := moves;
      log := outArray;
    }

    /** `traverse_maze`, with the interrupt arriving after the given snapshots: the
        returned log is the finished log of those ticks. */
    method TraverseMaze(readings: seq<Reading>) returns (log: seq<Record>)
      requires kP == KP && kD == KD && kI == KI && Balanced(PidState())
      modifies this
      ensures log == TraversalLog(old(PidState()), readings) && outArray == log
      ensures FinishedLog(log)
      ensures State() == Run(Initial(old(PidState())), readings).(moves := log)
    {
      ghost var pid0 := PidState();
      BeginTraversal();
      var k := 0;
      while k < |readings|
        invariant 0 <= k <= |readings|
        invariant kP == KP && kD == KD && kI == KI
        invariant |moves| > 0 && State() == Run(Initial(pid0), readings[..k])
      {
        RunAppend(Initial(pid0), readings[..k], readings[k]);
        assert readings[..k + 1] == readings[..k] + [readings[k]];
        var _ := Tick(readings[k]);
        k := k + 1;
      }
      assert readings[..k] == readings;
      log := Finalize();
    }
  }

  /** A run over one more reading is one more tick. */
  lemma {:induction false} RunAppend(s: Nav, readings: seq<Reading>, rd: Reading)
    requires |s.moves| > 0
    ensures |Run(s, readings).moves| > 0
    ensures Run(s, readings + [rd]) == Step(Run(s, readings), rd).next
    decreases |readings|
  {
    if readings == [] {
      assert [rd][1..] == [];
    } else {
      assert (readings + [rd])[1..] == readings[1..] + [rd];
      RunAppend(Step(s, readings[0]).next, readings[1..], rd);
    }
  }
}
