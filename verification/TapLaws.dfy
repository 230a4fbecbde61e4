/** Laws of the TAP controller alone. */
module TapLaws {
  import opened TapController

  datatype Column = DR | IR

  /** The states of a column from capture up to, and not including, update. */
  predicate InLoop(column: Column, s: TapState) {
    match column
    case DR => s.CaptureDr? || s.ShiftDr? || s.Exit1Dr? || s.PauseDr? || s.Exit2Dr?
    case IR => s.CaptureIr? || s.ShiftIr? || s.Exit1Ir? || s.PauseIr? || s.Exit2Ir?
  }

  function Capture(column: Column): TapState {
    if column.DR? then CaptureDr else CaptureIr
  }

  function Update(column: Column): TapState {
    if column.DR? then UpdateDr else UpdateIr
  }

  /** How often a series of rising edges enters a state. */
  function Entries(s: TapState, tms: seq<bool>, target: TapState): nat
    decreases |tms|
  {
    if tms == [] then 0
    else (if Next(s, tms[0]) == target then 1 else 0) + Entries(Next(s, tms[0]), tms[1..], target)
  }

  /** Captures and updates of a column alternate: between a capture and the next update the
      controller is in the column, and nowhere else. */
  lemma {:induction false} CapturesMinusUpdates(column: Column, s: TapState, tms: seq<bool>)
    ensures Entries(s, tms, Capture(column)) - Entries(s, tms, Update(column)) ==
            (if InLoop(column, NextAll(s, tms)) then 1 else 0) - (if InLoop(column, s) then 1 else 0)
    decreases |tms|
  {
    if tms != [] {
      CapturesMinusUpdates(column, Next(s, tms[0]), tms[1..]);
    }
  }

  /** How many rising edges with TMS = 1 lead to Test-Logic-Reset. */
  function Distance(s: TapState): nat {
    match s
    case TestLogicReset => 0
    case SelectIrScan => 1
    case SelectDrScan => 2
    case RunTestIdle | UpdateDr | UpdateIr => 3
    case Exit1Dr | Exit1Ir | Exit2Dr | Exit2Ir => 4
    case _ => 5
  }

  lemma OneStepCloser(s: TapState)
    ensures Distance(s) <= 5
    ensures Distance(Next(s, true)) == if Distance(s) == 0 then 0 else Distance(s) - 1
    ensures Distance(s) == 0 <==> s == TestLogicReset
  {
  }

  lemma ZeroKeeps(s: TapState)
    ensures Next(s, false) == s <==>
            s == RunTestIdle || s == ShiftDr || s == ShiftIr || s == PauseDr || s == PauseIr
  {
  }

  /** Where a TAP that is only clocked with TMS = 0 comes to rest. */
  function Settled(s: TapState): TapState {
    match s
    case TestLogicReset | RunTestIdle | UpdateDr | UpdateIr => RunTestIdle
    case SelectDrScan | CaptureDr | ShiftDr | Exit2Dr => ShiftDr
    case SelectIrScan | CaptureIr | ShiftIr | Exit2Ir => ShiftIr
    case Exit1Dr | PauseDr => PauseDr
    case Exit1Ir | PauseIr => PauseIr
  }

  function Lows(n: nat): seq<bool> {
    seq(n, i => false)
  }

  /** Clocks with TMS = 0 settle after one, or from a Select state after the capture, and then stay for
      good: idle, shifting or pausing. */
  lemma {:induction false} ZerosSettle(s: TapState, n: nat)
    requires n >= 1
    ensures NextAll(s, Lows(n)) ==
            if n == 1 && s == SelectDrScan then CaptureDr
            else if n == 1 && s == SelectIrScan then CaptureIr
            else Settled(s)
    decreases n
  {
    assert Lows(n)[1..] == Lows(n - 1);
    if n > 1 {
      ZerosSettle(Next(s, false), n - 1);
    }
  }

  function ShiftOf(column: Column): TapState {
    if column.DR? then ShiftDr else ShiftIr
  }

  function PauseOf(column: Column): TapState {
    if column.DR? then PauseDr else PauseIr
  }

  lemma {:induction false} NextAllConcat(s: TapState, a: seq<bool>, b: seq<bool>)
    ensures NextAll(s, a + b) == NextAll(NextAll(s, a), b)
    decreases |a|
  {
    if a == [] {
      assert a + b == b;
    } else {
      assert (a + b)[1..] == a[1..] + b;
      NextAllConcat(Next(s, a[0]), a[1..], b);
    }
  }

  /** From a capture or a shift state TMS = 1, 0 leads to the pause state of the column, any number of
      zeros stays there, and 1, 0 leads (back) to the shift state; 1, 1 leads from all three to the update. */
  lemma PauseLaw(column: Column, s: TapState, n: nat)
    requires s == ShiftOf(column) || s == Capture(column)
    ensures var paused := [true, false] + Lows(n);
            NextAll(s, paused) == PauseOf(column) &&
            NextAll(s, paused + [true, false]) == ShiftOf(column) &&
            NextAll(s, paused + [true, true]) == Update(column) && NextAll(s, [true, true]) == Update(column)
  {
    hide Next;
    var paused := [true, false] + Lows(n);
    TwoMoves(s, true, false);
    TwoMoves(s, true, true);
    TwoMoves(PauseOf(column), true, false);
    TwoMoves(PauseOf(column), true, true);
    NextAllConcat(s, [true, false], Lows(n));
    ColumnMoves(column);
    if n > 0 {
      ZerosSettle(PauseOf(column), n);
    }
    NextAllConcat(s, paused, [true, false]);
    NextAllConcat(s, paused, [true, true]);
  }

  lemma TwoMoves(s: TapState, a: bool, b: bool)
    ensures NextAll(s, [a, b]) == Next(Next(s, a), b)
  {
    hide Next;
    assert [a, b][1..] == [b] && [b][1..] == [];
    assert NextAll(Next(s, a), [b]) == NextAll(Next(Next(s, a), b), []);
  }

  lemma ColumnMoves(column: Column)
    ensures forall s :: s == ShiftOf(column) || s == Capture(column) ==>
              Next(Next(s, true), false) == PauseOf(column) && Next(Next(s, true), true) == Update(column)
    ensures Next(Next(PauseOf(column), true), false) == ShiftOf(column)
    ensures Next(Next(PauseOf(column), true), true) == Update(column)
  {
  }
}
