/** The move log shared by the navigation controller and the map builder:
    an ordered list of `(code, value)` records. */
module MoveLog {

  // Record codes (files_from_demo/map_generator.py:5-12).
  const NORTH := 0
  const EAST := 1
  const SOUTH := 2
  const WEST := 3
  const END := 4
  const MAGNETIC := 5
  const IR := 6
  const START := 7

  /** One record. A directional leg carries its whole number of cells as a real,
      a hazard carries the raw sensor value that triggered it. */
  datatype Record = Record(code: int, value: real)

  /** NORTH, EAST, SOUTH or WEST: a directional leg. */
  predicate IsLeg(code: int) {
    0 <= code <= 3
  }

  predicate IsHazard(code: int) {
    code == MAGNETIC || code == IR
  }

  /** The value has no fractional part (the source stores `math.floor` results there). */
  predicate Whole(v: real) {
    v == v.Floor as real
  }

  /** Number of cells a leg record covers. */
  function Cells(r: Record): int {
    r.value.Floor
  }

  /** A record the map builder can size and replay consistently: a known code,
      a whole non-negative length on every leg, and a START that carries 0. */
  predicate RecordOk(r: Record) {
    && 0 <= r.code <= 7
    && (IsLeg(r.code) ==> Whole(r.value) && r.value >= 0.0)
    && (r.code == START ==> r.value == 0.0)
  }

  predicate WellFormed(log: seq<Record>) {
    forall i :: 0 <= i < |log| ==> RecordOk(log[i])
  }

  /** Every leg has a whole length: `range(node[1])` in the replay needs an integer. */
  predicate LegsWhole(log: seq<Record>) {
    forall i :: 0 <= i < |log| ==> IsLeg(log[i].code) ==> Whole(log[i].value)
  }

  /** The replay never looks at `array[-1]`: a leg that moves is never the first record. */
  predicate NoWrapRead(log: seq<Record>) {
    |log| == 0 || !IsLeg(log[0].code) || Cells(log[0]) <= 0
  }
}
