/** Shift registers as delay lines: what any stream of commands does between a capture and an update. */
module DelayLine {
  import opened Words
  import opened TapController
  import opened TapLaws
  import opened Transactions
  import opened Target
  import opened StreamLaws

  // ---------------------------------------------------------------- the register the IR selects

  function Width(ir: Byte): nat {
    if ir == IR_DMI then 41 else 32
  }

  function ShiftRegister(m: Machine): nat {
    if m.ir == IR_IDCODE then m.idcodeShift else if m.ir == IR_DTMCS then m.dtmcsShift else m.dmiShift
  }

  function Container(m: Machine): nat {
    if m.ir == IR_IDCODE then m.idcode else if m.ir == IR_DTMCS then m.dtmcs else m.core.dmi
  }

  /** The bits of the selected shift register, next one out first. */
  function Line(m: Machine): (s: seq<bool>)
    ensures |s| == Width(m.ir)
  {
    ToBits(ShiftRegister(m), Width(m.ir))
  }

  predicate ShiftOk(m: Machine) {
    Selects(m.ir) && m.dmiShift < 0x200_0000_0000 && !m.quit
  }

  /** One falling edge in Shift-DR. */
  lemma EdgeShiftsLine(m: Machine)
    requires ShiftOk(m)
    ensures var n := ShiftDrEdge(m);
            ShiftOk(n) && n.tap == m.tap && Commit(n) == Commit(m) &&
            n.shiftAmount == (m.shiftAmount + 1) % 0x100 &&
            if m.shiftAmount == 0 then Line(n) == Line(m) && n.tdo == (m.ir != IR_DMI && m.tdo)
            else Line(n) == Line(m)[1..] + [m.tdi] && n.tdo == Line(m)[0]
  {
    hide ShiftIn, Pow2, ToBits;
    Weights();
    FirstBit(ShiftRegister(m), Width(m.ir));
    ShiftInBits(ShiftRegister(m), Width(m.ir), m.tdi);
  }

  // ---------------------------------------------------------------- streams that stay in a loop

  /** The stream neither quits nor leaves these states. */
  predicate StaysIn(column: Column, tap: TapState, cs: string)
    decreases |cs|
  {
    InLoop(column, tap) && (cs != [] ==> cs[0] != 'Q' && StaysIn(column, TapAfter(tap, cs[0]), cs[1..]))
  }

  /** The TDI bits at the falling edges in the given state. */
  function Edges(shift: TapState, tap: TapState, cs: string): seq<bool>
    decreases |cs|
  {
    if cs == [] then []
    else
      (if tap == shift && IsFallingWrite(cs[0]) then [Tdi(cs[0])] else []) +
      Edges(shift, TapAfter(tap, cs[0]), cs[1..])
  }

  /** The edges that shift: those whose index is not a multiple of 256, as the first index is n. */
  function Effective(n: nat, edges: seq<bool>): seq<bool>
    decreases |edges|
  {
    if edges == [] then []
    else (if n % 0x100 == 0 then [] else [edges[0]]) + Effective(n + 1, edges[1..])
  }

  lemma {:induction false} EffectiveCount(n: nat, edges: seq<bool>)
    ensures |Effective(n, edges)| == |edges| - (n + |edges| + 255) / 0x100 + (n + 255) / 0x100
    decreases |edges|
  {
    if edges != [] {
      EffectiveCount(n + 1, edges[1..]);
    }
  }

  lemma {:induction false} LastEdgeCounts(n: nat, edges: seq<bool>)
    requires edges != [] && (n + |edges| - 1) % 0x100 != 0
    ensures Effective(n, edges) != []
    decreases |edges|
  {
    if |edges| > 1 {
      LastEdgeCounts(n + 1, edges[1..]);
    }
  }

  /** TDO after the edges: the bit the delay line gave out last. An edge that does not shift clears TDO
      if the DMI register is selected, and otherwise leaves it. */
  function TdoAfter(ir: Byte, tdo: bool, line: seq<bool>, n: nat, edges: seq<bool>): bool
    requires line != []
  {
    var e := Effective(n, edges);
    if edges != [] && (n + |edges| - 1) % 0x100 == 0 && ir == IR_DMI then false
    else if e == [] then tdo
    else (line + e)[|e| - 1]
  }

  lemma TdoStep(ir: Byte, tdo: bool, line: seq<bool>, n: nat, b: bool, rest: seq<bool>)
    requires line != []
    ensures var swallowed := n % 0x100 == 0;
            TdoAfter(ir, if swallowed then ir != IR_DMI && tdo else line[0],
                     if swallowed then line else line[1..] + [b], n + 1, rest) ==
            TdoAfter(ir, tdo, line, n, [b] + rest)
  {
    var e0 := if n % 0x100 == 0 then [] else [b];
    var e1 := Effective(n + 1, rest);
    assert ([b] + rest)[1..] == rest;
    assert Effective(n, [b] + rest) == e0 + e1;
    if rest != [] && (n + |rest|) % 0x100 != 0 {
      LastEdgeCounts(n + 1, rest);
    }
    if e1 != [] && e0 != [] {
      assert (line[1..] + [b]) + e1 == (line + (e0 + e1))[1..];
    }
  }

  lemma LineStep(line: seq<bool>, b: bool, e: seq<bool>)
    requires line != []
    ensures ((line[1..] + [b]) + e)[|e|..] == (line + ([b] + e))[1 + |e|..]
  {
    assert (line[1..] + [b]) + e == (line + ([b] + e))[1..];
  }

  /** A command that does not move the shift line. */
  lemma OtherCommands(env: Env, m: Machine, c: char)
    requires ShiftOk(m) && InLoop(DR, m.tap) && InLoop(DR, TapAfter(m.tap, c)) && c != 'Q'
    requires !(m.tap == ShiftDr && IsFallingWrite(c))
    ensures var n := Execute(env, m, c).machine;
            ShiftOk(n) && n.tap == TapAfter(m.tap, c) && Commit(n) == Commit(m) &&
            n.shiftAmount == m.shiftAmount && n.tdo == m.tdo && Line(n) == Line(m)
  {
    hide Execute, UpdateDrRegister, CaptureDrRegister, ToBits, Tms, Tdi;
    if IsFallingWrite(c) {
      FallingWrite(env, m, c);
    } else if IsWrite(c) {
      RisingWrite(env, m, c);
    } else {
      NoWrite(env, m, c);
    }
  }

  lemma NoEdges(ir: Byte, tdo: bool, line: seq<bool>, n: nat)
    requires line != []
    ensures TdoAfter(ir, tdo, line, n, []) == tdo
  {
  }

  /** o is m after edges, numbered from n, went through a delay line. */
  predicate IsDelayed(m: Machine, n: nat, edges: seq<bool>, o: Machine) {
    var e := Effective(n, edges);
    ShiftOk(o) && Commit(o) == Commit(m) &&
    o.shiftAmount == (n + |edges|) % 0x100 &&
    Line(o) == (Line(m) + e)[|e|..] &&
    o.tdo == TdoAfter(m.ir, m.tdo, Line(m), n, edges)
  }

  lemma NothingDelayed(m: Machine, n: nat)
    requires ShiftOk(m) && m.shiftAmount == n % 0x100
    ensures IsDelayed(m, n, [], m)
  {
    hide ToBits;
    NoEdges(m.ir, m.tdo, Line(m), n);
    assert (Line(m) + [])[0..] == Line(m);
  }

  lemma SameDelayed(m: Machine, k: Machine, n: nat, edges: seq<bool>, o: Machine)
    requires IsDelayed(k, n, edges, o)
    requires Commit(k) == Commit(m) && k.tdo == m.tdo && Line(k) == Line(m)
    ensures IsDelayed(m, n, edges, o)
  {
    hide ToBits, TdoAfter;
  }

  lemma EdgeDelayed(m: Machine, n: nat, rest: seq<bool>, o: Machine)
    requires ShiftOk(m) && m.shiftAmount == n % 0x100
    requires IsDelayed(ShiftDrEdge(m), n + 1, rest, o)
    ensures IsDelayed(m, n, [m.tdi] + rest, o)
  {
    hide ShiftDrEdge, ToBits, TdoAfter;
    EdgeShiftsLine(m);
    assert ([m.tdi] + rest)[1..] == rest;
    TdoStep(m.ir, m.tdo, Line(m), n, m.tdi, rest);
    LineStep(Line(m), m.tdi, Effective(n + 1, rest));
  }

  /** The data registers under any stream between Capture-DR and Update-DR, with any pauses and any
      other commands in between: a delay line of the register's width that is fed the effective
      edges. n counts the edges since the capture. */
  lemma {:induction false} DelayLineLaw(env: Env, m: Machine, cs: string, n: nat)
    requires ShiftOk(m) && StaysIn(DR, m.tap, cs) && m.shiftAmount == n % 0x100
    ensures IsDelayed(m, n, Edges(ShiftDr, m.tap, cs), Run(env, m, cs).machine)
    decreases |cs|
  {
    hide Execute, ShiftDrEdge, IsDelayed, Line, Effective, InLoop, Tms, Tdi, Next;
    if cs == [] {
      NothingDelayed(m, n);
    } else if m.tap == ShiftDr && IsFallingWrite(cs[0]) {
      var pinned := m.(tck := false, tms := Tms(cs[0]), tdi := Tdi(cs[0]));
      FallingWrite(env, m, cs[0]);
      SameLine(m, pinned);
      EdgeShiftsLine(pinned);
      DelayLineLaw(env, ShiftDrEdge(pinned), cs[1..], n + 1);
      EdgeDelayed(pinned, n, Edges(ShiftDr, m.tap, cs[1..]), Run(env, m, cs).machine);
      SameDelayed(m, pinned, n, Edges(ShiftDr, m.tap, cs), Run(env, m, cs).machine);
    } else {
      OtherCommands(env, m, cs[0]);
      var next := Execute(env, m, cs[0]).machine;
      DelayLineLaw(env, next, cs[1..], n);
      assert Edges(ShiftDr, m.tap, cs) == Edges(ShiftDr, next.tap, cs[1..]);
      SameDelayed(m, next, n, Edges(ShiftDr, m.tap, cs), Run(env, m, cs).machine);
    }
  }

  lemma SameLine(m: Machine, pinned: Machine)
    requires pinned == m.(tck := pinned.tck, tms := pinned.tms, tdi := pinned.tdi)
    ensures Line(pinned) == Line(m)
  {
  }

  /** The law from the capture on: the line starts as the container, all but the edges number 0, 256,
      512, ... shift, and the edge counter wraps at 256. */
  lemma DelayLineAfterCapture(env: Env, m: Machine, capture: char, cs: string)
    requires ShiftOk(m) && m.core.dmi < 0x200_0000_0000 && m.tap == SelectDrScan
    requires IsWrite(capture) && Tck(capture) && !Tms(capture) && StaysIn(DR, CaptureDr, cs)
    ensures var o := Run(env, m, [capture] + cs).machine;
            var line, edges := ToBits(Container(m), Width(m.ir)), Edges(ShiftDr, CaptureDr, cs);
            var e := Effective(0, edges);
            |e| == |edges| - (|edges| + 255) / 0x100 && o.shiftAmount == |edges| % 0x100 &&
            Line(o) == (line + e)[|e|..] && o.tdo == TdoAfter(m.ir, m.tdo, line, 0, edges)
  {
    hide Transact, ToBits, Effective, TdoAfter;
    RunCons(env, m, capture, cs);
    var captured := Execute(env, m, capture).machine;
    DelayLineLaw(env, captured, cs, 0);
    EffectiveCount(0, Edges(ShiftDr, CaptureDr, cs));
  }

  // ---------------------------------------------------------------- the instruction register

  function IrLine(m: Machine): (s: seq<bool>)
    ensures |s| == 5
  {
    ToBits(m.irShift, 5)
  }

  lemma EdgeShiftsIr(m: Machine)
    requires m.irShift < 0x20
    ensures var n := ShiftIrEdge(m);
            n.irShift < 0x20 && IrLine(n) == IrLine(m)[1..] + [m.tdi] && n.tdo == IrLine(m)[0]
  {
    hide ShiftIn, Pow2;
    Weights();
    ShiftInBits(m.irShift, 5, m.tdi);
  }

  lemma OtherIrCommands(env: Env, m: Machine, c: char)
    requires InLoop(IR, m.tap) && InLoop(IR, TapAfter(m.tap, c)) && c != 'Q'
    requires !(m.tap == ShiftIr && IsFallingWrite(c))
    ensures var n := Execute(env, m, c).machine;
            n.quit == m.quit && n.tap == TapAfter(m.tap, c) && Commit(n) == Commit(m) && n.irShift == m.irShift &&
            n.dmiShift == m.dmiShift
  {
    hide Execute, UpdateDrRegister, CaptureDrRegister, Tms, Tdi;
    if IsFallingWrite(c) {
      FallingWrite(env, m, c);
    } else if IsWrite(c) {
      RisingWrite(env, m, c);
    } else {
      NoWrite(env, m, c);
    }
  }

  lemma IrEdgeKeeps(m: Machine)
    ensures var n := ShiftIrEdge(m);
            n.tap == m.tap && n.quit == m.quit && Commit(n) == Commit(m) && n.dmiShift == m.dmiShift
  {
  }

  /** o is m after edges went through the instruction line. */
  predicate IsIrDelayed(m: Machine, edges: seq<bool>, o: Machine) {
    !o.quit && o.irShift < 0x20 && Commit(o) == Commit(m) && o.dmiShift == m.dmiShift &&
    IrLine(o) == (IrLine(m) + edges)[|edges|..]
  }

  lemma IrEdgeDelayed(m: Machine, rest: seq<bool>, o: Machine)
    requires m.irShift < 0x20 && IsIrDelayed(ShiftIrEdge(m), rest, o)
    ensures IsIrDelayed(m, [m.tdi] + rest, o)
  {
    hide ShiftIrEdge, ToBits;
    EdgeShiftsIr(m);
    IrEdgeKeeps(m);
    LineStep(IrLine(m), m.tdi, rest);
  }

  lemma NothingIrDelayed(m: Machine)
    requires !m.quit && m.irShift < 0x20
    ensures IsIrDelayed(m, [], m)
  {
    hide ToBits;
    assert (IrLine(m) + [])[0..] == IrLine(m);
  }

  lemma SameIrDelayed(m: Machine, k: Machine, edges: seq<bool>, o: Machine)
    requires IsIrDelayed(k, edges, o)
    requires Commit(k) == Commit(m) && k.irShift == m.irShift && k.dmiShift == m.dmiShift
    ensures IsIrDelayed(m, edges, o)
  {
    hide ToBits;
  }

  /** Between Capture-IR and Update-IR every falling edge in Shift-IR shifts, the first included. */
  lemma {:induction false} IrLineLaw(env: Env, m: Machine, cs: string)
    requires !m.quit && m.irShift < 0x20 && StaysIn(IR, m.tap, cs)
    ensures IsIrDelayed(m, Edges(ShiftIr, m.tap, cs), Run(env, m, cs).machine)
    decreases |cs|
  {
    hide Execute, ShiftIrEdge, IsIrDelayed, InLoop, Tms, Tdi, Next;
    if cs == [] {
      NothingIrDelayed(m);
    } else if m.tap == ShiftIr && IsFallingWrite(cs[0]) {
      var pinned := m.(tck := false, tms := Tms(cs[0]), tdi := Tdi(cs[0]));
      FallingWrite(env, m, cs[0]);
      EdgeShiftsIr(pinned);
      IrEdgeKeeps(pinned);
      IrLineLaw(env, ShiftIrEdge(pinned), cs[1..]);
      IrEdgeDelayed(pinned, Edges(ShiftIr, m.tap, cs[1..]), Run(env, m, cs).machine);
      SameIrDelayed(m, pinned, Edges(ShiftIr, m.tap, cs), Run(env, m, cs).machine);
    } else {
      OtherIrCommands(env, m, cs[0]);
      var next := Execute(env, m, cs[0]).machine;
      IrLineLaw(env, next, cs[1..]);
      assert Edges(ShiftIr, m.tap, cs) == Edges(ShiftIr, next.tap, cs[1..]);
      SameIrDelayed(m, next, Edges(ShiftIr, m.tap, cs), Run(env, m, cs).machine);
    }
  }

  /** Five or more edges load the instruction register with the last five TDI bits, whatever was
      captured and however the scan was paused. */
  lemma IrLoad(env: Env, m: Machine, cs: string, update: char)
    requires !m.quit && m.irShift < 0x20 && StaysIn(IR, m.tap, cs)
    requires |Edges(ShiftIr, m.tap, cs)| >= 5
    requires IsRisingWrite(update) && Next(Run(env, m, cs).machine.tap, Tms(update)) == UpdateIr
    ensures var o := Run(env, m, cs + [update]).machine;
            var edges := Edges(ShiftIr, m.tap, cs);
            o.tap == UpdateIr && !o.quit && o.dmiShift == m.dmiShift && o.ir < 0x20 &&
            o.ir == FromBits(edges[|edges| - 5..]) &&
            Commit(o) == Commit(m).(ir := o.ir)
  {
    hide ToBits, FromBits, Transact, Run, Execute, Edges, StaysIn, Next, Tms, Tdi;
    IrLineLaw(env, m, cs);
    RunConcat(env, m, cs, [update]);
    var before, edges := Run(env, m, cs).machine, Edges(ShiftIr, m.tap, cs);
    RunOne(env, before, update);
    RisingWrite(env, before, update);
    Weights();
    FromToBits(before.irShift, 5);
    assert (IrLine(m) + edges)[|edges|..] == edges[|edges| - 5..];
  }

  lemma {:induction false} ZeroBits(w: nat)
    ensures ToBits(0, w) == seq(w, i => false)
  {
    if w > 0 {
      ZeroBits(w - 1);
    }
  }

  /** A target that wakes up in a shift state has empty lines, and its first edge on the data line only
      counts, as after a capture. */
  lemma PowerOnLines(tap: TapState, tdo: bool, cpu: Cpu)
    ensures var m := PowerOn(tap, tdo, cpu);
            ShiftOk(m) && m.shiftAmount == 0 && Line(m) == seq(32, i => false) && IrLine(m) == seq(5, i => false)
  {
    hide ToBits, InitialCore;
    ZeroBits(32);
    ZeroBits(5);
  }
}
