/** Laws of command streams: what any sequence of characters can and cannot do. */
module StreamLaws {
  import opened Words
  import opened TapController
  import opened TapLaws
  import opened Transactions
  import opened DmiLaws
  import opened Target

  // ---------------------------------------------------------------- one command

  predicate IsFallingWrite(c: char) {
    IsWrite(c) && !Tck(c)
  }

  predicate IsRisingWrite(c: char) {
    IsWrite(c) && Tck(c)
  }

  function TapAfter(tap: TapState, c: char): TapState {
    if IsRisingWrite(c) then Next(tap, Tms(c)) else if c == 'r' then TestLogicReset else tap
  }

  lemma FallingWrite(env: Env, m: Machine, c: char)
    requires IsFallingWrite(c)
    ensures Execute(env, m, c) == Outcome(FallingEdge(m.(tck := false, tms := Tms(c), tdi := Tdi(c))), "")
  {
  }

  lemma RisingWrite(env: Env, m: Machine, c: char)
    requires IsRisingWrite(c)
    ensures Execute(env, m, c) ==
            Outcome(OnEntry(env, m.(tck := true, tms := Tms(c), tdi := Tdi(c), tap := Next(m.tap, Tms(c)))), "")
  {
    hide OnEntry;
  }

  lemma NoWrite(env: Env, m: Machine, c: char)
    requires !IsWrite(c) && c != 'r' && c != 'Q'
    ensures Execute(env, m, c).machine == m
  {
  }

  /** m and n differ at most in the pins, the shift registers and the edge counter. */
  predicate OnlyShifted(m: Machine, n: Machine) {
    n.tap == m.tap && n.quit == m.quit && Commit(n) == Commit(m)
  }

  lemma DrEdgeKeeps(m: Machine)
    ensures OnlyShifted(m, ShiftDrEdge(m))
  {
    hide ShiftIn;
    // one case for each register that can shift
    if Selects(m.ir) && m.shiftAmount > 0 {
      if m.ir == IR_IDCODE {
      } else if m.ir == IR_DTMCS {
      } else {
      }
    }
  }

  lemma EdgeKeeps(m: Machine)
    ensures OnlyShifted(m, FallingEdge(m))
  {
    hide ShiftIn, ShiftDrEdge;
    DrEdgeKeeps(m);
  }

  /** n has the pins, the TAP state and the dtmcs container of m. */
  predicate SamePins(m: Machine, n: Machine) {
    n.tap == m.tap && n.tck == m.tck && n.tms == m.tms && n.tdi == m.tdi && n.tdo == m.tdo &&
    n.quit == m.quit && n.dtmcs == m.dtmcs
  }

  lemma CaptureKeeps(m: Machine)
    ensures SamePins(m, CaptureDrRegister(m))
  {
  }

  lemma EntryKeeps(env: Env, m: Machine)
    ensures SamePins(m, OnEntry(env, m))
  {
    hide Transact, CaptureDrRegister;
    CaptureKeeps(m);
  }

  lemma TapFollows(env: Env, m: Machine, c: char)
    ensures Execute(env, m, c).machine.tap == TapAfter(m.tap, c)
    ensures Execute(env, m, c).machine.quit == (m.quit || c == 'Q')
  {
    hide Execute, OnEntry, FallingEdge, Tms, Tdi, Tck;
    if IsFallingWrite(c) {
      FallingWrite(env, m, c);
      EdgeKeeps(m.(tck := false, tms := Tms(c), tdi := Tdi(c)));
    } else if IsRisingWrite(c) {
      RisingWrite(env, m, c);
      EntryKeeps(env, m.(tck := true, tms := Tms(c), tdi := Tdi(c), tap := Next(m.tap, Tms(c))));
    } else if c == 'r' {
      ResetCommand(env, m);
      EntryKeeps(env, m.(tap := TestLogicReset));
    } else if c == 'Q' {
      QuitCommand(env, m);
    } else {
      NoWrite(env, m, c);
    }
  }

  lemma ResetCommand(env: Env, m: Machine)
    ensures Execute(env, m, 'r') == Outcome(m.(tap := TestLogicReset, ir := IR_IDCODE), "")
    ensures Execute(env, m, 'r').machine == OnEntry(env, m.(tap := TestLogicReset))
  {
  }

  lemma QuitCommand(env: Env, m: Machine)
    ensures Execute(env, m, 'Q') == Outcome(m.(quit := true), "")
  {
  }

  lemma RunOne(env: Env, m: Machine, c: char)
    requires !m.quit
    ensures Run(env, m, [c]) == Execute(env, m, c)
  {
    hide Execute;
    RunCons(env, m, c, []);
    assert [c] + [] == [c];
    assert Run(env, Execute(env, m, c).machine, []).replies == [];
  }

  // ---------------------------------------------------------------- the TAP state over a stream

  /** TMS at the writes with tck = 1. */
  function RisingTms(cs: string): seq<bool>
    decreases |cs|
  {
    if cs == [] then []
    else (if IsRisingWrite(cs[0]) then [Tms(cs[0])] else []) + RisingTms(cs[1..])
  }

  /** Without a reset command the TAP state depends on the TMS values of the tck = 1 writes alone,
      whatever tck was before each of them. */
  lemma {:induction false} TapRun(env: Env, m: Machine, cs: string)
    requires !m.quit && 'r' !in cs && 'Q' !in cs
    ensures Run(env, m, cs).machine.tap == NextAll(m.tap, RisingTms(cs))
    decreases |cs|
  {
    hide Execute, Tms, Tck;
    if cs != [] {
      TapFollows(env, m, cs[0]);
      TapRun(env, Execute(env, m, cs[0]).machine, cs[1..]);
      var rest := RisingTms(cs[1..]);
      assert ([Tms(cs[0])] + rest)[1..] == rest && [] + rest == rest;
    }
  }

  /** Rising edges with TMS = 1 lead towards Test-Logic-Reset, whatever stands between them. */
  lemma {:induction false} OnesApproachReset(env: Env, m: Machine, cs: string)
    requires !m.quit && 'Q' !in cs && false !in RisingTms(cs)
    ensures Distance(Run(env, m, cs).machine.tap) + |RisingTms(cs)| <=
            if Distance(m.tap) >= |RisingTms(cs)| then Distance(m.tap) else |RisingTms(cs)|
    decreases |cs|
  {
    hide Execute, Tms, Tck, Distance;
    if cs != [] {
      TapFollows(env, m, cs[0]);
      OneStepCloser(m.tap);
      OneStepCloser(TestLogicReset);
      var rest := RisingTms(cs[1..]);
      assert [] + rest == rest && (IsRisingWrite(cs[0]) ==> RisingTms(cs)[0] == Tms(cs[0]));
      OnesApproachReset(env, Execute(env, m, cs[0]).machine, cs[1..]);
    }
  }

  // ---------------------------------------------------------------- the invariant of every run

  predicate MachineOk(m: Machine) {
    m.ir < 0x20 && m.irShift < 0x20 && m.dmiShift < 0x200_0000_0000 && m.dtmcs == DTMCS_VALUE &&
    (m.tap == TestLogicReset ==> m.ir == IR_IDCODE) && CoreOk(m.core)
  }

  lemma PowerOnOk(tap: TapState, tdo: bool, cpu: Cpu)
    ensures MachineOk(PowerOn(tap, tdo, cpu))
  {
    hide CoreOk, InitialCore;
    InitialCoreOk(cpu);
  }

  lemma ShiftInBound(x: nat, top: nat, b: bool)
    requires top > 0 && x < 2 * top
    ensures ShiftIn(x, top, b) < 2 * top
  {
  }

  lemma EdgeKeepsOk(m: Machine)
    requires MachineOk(m)
    ensures MachineOk(FallingEdge(m))
  {
    hide CoreOk, ShiftIn;
    ShiftInBound(m.dmiShift, 0x100_0000_0000, m.tdi);
    ShiftInBound(m.irShift, 0x10, m.tdi);
  }

  lemma EntryKeepsOk(env: Env, m: Machine, tap: TapState)
    requires MachineOk(m)
    ensures MachineOk(OnEntry(env, m.(tap := tap)))
  {
    hide CoreOk, Transact;
    TransactKeepsCoreOk(env, m.core, m.dmiShift);
    assert CoreOk(m.core) ==> m.core.dmi < 0x200_0000_0000 by { CoreOkBound(m.core); }
  }

  lemma CoreOkBound(c: Core)
    ensures CoreOk(c) ==> c.dmi < 0x200_0000_0000
  {
  }

  lemma ExecuteKeepsOk(env: Env, m: Machine, c: char)
    requires MachineOk(m)
    ensures MachineOk(Execute(env, m, c).machine)
  {
    hide Execute, OnEntry, FallingEdge, Tms, Tdi, Tck, CoreOk;
    if IsFallingWrite(c) {
      FallingWrite(env, m, c);
      EdgeKeepsOk(m.(tck := false, tms := Tms(c), tdi := Tdi(c)));
    } else if IsRisingWrite(c) {
      RisingWrite(env, m, c);
      EntryKeepsOk(env, m.(tck := true, tms := Tms(c), tdi := Tdi(c)), Next(m.tap, Tms(c)));
    } else if c == 'r' {
      ResetCommand(env, m);
    } else if c == 'Q' {
      QuitCommand(env, m);
    } else {
      NoWrite(env, m, c);
    }
  }

  /** Every state that commands can reach from power-on is within its register widths. */
  lemma {:induction false} RunKeepsOk(env: Env, m: Machine, cs: string)
    requires MachineOk(m)
    ensures MachineOk(Run(env, m, cs).machine)
    decreases |cs|
  {
    hide Execute, MachineOk;
    if cs != [] && !m.quit {
      ExecuteKeepsOk(env, m, cs[0]);
      RunKeepsOk(env, Execute(env, m, cs[0]).machine, cs[1..]);
    }
  }

  /** Five rising edges with TMS = 1, with anything but a tck = 1 write or Q between them, end in
      Test-Logic-Reset with IDCODE selected, from every reachable state. */
  lemma FiveOnesReset(env: Env, m: Machine, cs: string)
    requires MachineOk(m) && !m.quit && 'Q' !in cs
    requires |RisingTms(cs)| >= 5 && false !in RisingTms(cs)
    ensures var o := Run(env, m, cs).machine; o.tap == TestLogicReset && o.ir == IR_IDCODE
  {
    hide Run, CoreOk, RisingTms, Distance;
    OnesApproachReset(env, m, cs);
    OneStepCloser(m.tap);
    OneStepCloser(Run(env, m, cs).machine.tap);
    RunKeepsOk(env, m, cs);
  }

  // ---------------------------------------------------------------- every run is a transaction run

  /** The values that a run hands to the DMI: the shift register at each Update-DR with DMI selected. */
  function DmiUpdates(env: Env, m: Machine, cs: string): seq<DWord>
    decreases |cs|
  {
    if cs == [] || m.quit then []
    else
      (if IsRisingWrite(cs[0]) && TapAfter(m.tap, cs[0]) == UpdateDr && m.ir == IR_DMI then [m.dmiShift] else []) +
      DmiUpdates(env, Execute(env, m, cs[0]).machine, cs[1..])
  }

  lemma CoreFollows(env: Env, m: Machine, c: char)
    ensures Execute(env, m, c).machine.core ==
            if IsRisingWrite(c) && TapAfter(m.tap, c) == UpdateDr && m.ir == IR_DMI
            then Transact(env, m.core, m.dmiShift) else m.core
  {
    hide Execute, FallingEdge, Transact, Tms, Tdi, Tck;
    if IsFallingWrite(c) {
      FallingWrite(env, m, c);
      EdgeKeeps(m.(tck := false, tms := Tms(c), tdi := Tdi(c)));
    } else if IsRisingWrite(c) {
      RisingWrite(env, m, c);
    } else if c == 'r' {
      ResetCommand(env, m);
    } else if c == 'Q' {
      QuitCommand(env, m);
    } else {
      NoWrite(env, m, c);
    }
  }

  /** On every command stream the debug module, the hart and the memory are those after a series of
      DMI transactions, so every law of transactions is a law of streams. */
  lemma {:induction false} RunIsTransactions(env: Env, m: Machine, cs: string)
    ensures Run(env, m, cs).machine.core == TransactAll(env, m.core, DmiUpdates(env, m, cs))
    decreases |cs|
  {
    hide Execute, Transact, Tck, Tms;
    if cs != [] && !m.quit {
      var next := Execute(env, m, cs[0]).machine;
      CoreFollows(env, m, cs[0]);
      RunIsTransactions(env, next, cs[1..]);
      var rest := DmiUpdates(env, next, cs[1..]);
      assert ([m.dmiShift] + rest)[1..] == rest;
      assert [] + rest == rest;
    }
  }

  // ---------------------------------------------------------------- commit isolation

  /** What only Update and Test-Logic-Reset may change. */
  datatype Committed = Committed(ir: Byte, idcode: Word, dtmcs: Word, core: Core)

  function Commit(m: Machine): Committed {
    Committed(m.ir, m.idcode, m.dtmcs, m.core)
  }

  predicate IsCommitState(s: TapState) {
    s.UpdateDr? || s.UpdateIr? || s.TestLogicReset?
  }

  /** The stream enters none of Update-DR, Update-IR and Test-Logic-Reset. */
  predicate CommitsNothing(tap: TapState, cs: string)
    decreases |cs|
  {
    cs != [] ==>
      (IsRisingWrite(cs[0]) || cs[0] == 'r' ==> !IsCommitState(TapAfter(tap, cs[0]))) &&
      CommitsNothing(TapAfter(tap, cs[0]), cs[1..])
  }

  lemma {:induction false} CommitIsolation(env: Env, m: Machine, cs: string)
    requires CommitsNothing(m.tap, cs)
    ensures Commit(Run(env, m, cs).machine) == Commit(m)
    decreases |cs|
  {
    hide Execute, FallingEdge, Tck, Tms, Tdi;
    if cs != [] && !m.quit {
      var c, next := cs[0], Execute(env, m, cs[0]).machine;
      TapFollows(env, m, c);
      if IsFallingWrite(c) {
        FallingWrite(env, m, c);
        EdgeKeeps(m.(tck := false, tms := Tms(c), tdi := Tdi(c)));
      } else if IsRisingWrite(c) {
        RisingWrite(env, m, c);
      } else if c == 'Q' {
        QuitCommand(env, m);
      } else {
        NoWrite(env, m, c);
      }
      CommitIsolation(env, next, cs[1..]);
    }
  }

  /** Update-DR changes only the container that the instruction register selects. */
  lemma UpdateIsSelective(env: Env, m: Machine)
    requires m.tap == UpdateDr
    ensures var n := OnEntry(env, m);
            Commit(n) == Commit(m).(idcode := n.idcode, core := n.core) &&
            (m.ir != IR_IDCODE ==> n.idcode == m.idcode) && (m.ir != IR_DMI ==> n.core == m.core)
  {
    hide Transact;
  }

  /** The stream stays away from the instruction column and Test-Logic-Reset. */
  predicate StaysWithData(tap: TapState, cs: string)
    decreases |cs|
  {
    !InLoop(IR, tap) && !tap.UpdateIr? && !tap.TestLogicReset? &&
    (cs != [] ==> cs[0] != 'Q' && StaysWithData(TapAfter(tap, cs[0]), cs[1..]))
  }

  /** With an instruction that selects no register, data scans of any length do nothing at all: only
      the pins and the TAP state change, not even TDO. */
  lemma {:induction false} UnselectedScansDoNothing(env: Env, m: Machine, cs: string)
    requires !Selects(m.ir) && !m.quit && StaysWithData(m.tap, cs)
    ensures var o := Run(env, m, cs).machine;
            o == m.(tck := o.tck, tms := o.tms, tdi := o.tdi, tap := o.tap)
    decreases |cs|
  {
    hide Execute, Tck, Tms, Tdi;
    if cs != [] {
      var c, next := cs[0], Execute(env, m, cs[0]).machine;
      if IsFallingWrite(c) {
        FallingWrite(env, m, c);
      } else if IsRisingWrite(c) {
        RisingWrite(env, m, c);
      } else {
        NoWrite(env, m, c);
      }
      UnselectedScansDoNothing(env, next, cs[1..]);
    }
  }

  // ---------------------------------------------------------------- erasure

  predicate IsInert(c: char) {
    c !in "01234567rRQ"
  }

  lemma DigitIsNotInert(c: char)
    requires IsWrite(c)
    ensures !IsInert(c)
  {
    assert c == "01234567rRQ"[c as int - '0' as int];
  }

  lemma InertCommand(env: Env, m: Machine, c: char)
    requires IsInert(c)
    ensures Execute(env, m, c) == Outcome(m, "")
  {
    if IsWrite(c) {
      DigitIsNotInert(c);
    }
  }

  function EraseInert(cs: string): string
    decreases |cs|
  {
    if cs == [] then [] else (if IsInert(cs[0]) then [] else [cs[0]]) + EraseInert(cs[1..])
  }

  /** Blink, SWD and unsupported commands, that is everything but eleven characters, can be deleted from
      any stream. */
  lemma {:induction false} InertCommandsErase(env: Env, m: Machine, cs: string)
    ensures Run(env, m, EraseInert(cs)) == Run(env, m, cs)
    decreases |cs|
  {
    hide SetPins, Enter;
    if cs != [] && !m.quit {
      var rest := EraseInert(cs[1..]);
      if IsInert(cs[0]) {
        InertCommand(env, m, cs[0]);
        InertCommandsErase(env, m, cs[1..]);
        assert [] + rest == rest;
      } else {
        InertCommandsErase(env, Execute(env, m, cs[0]).machine, cs[1..]);
        assert ([cs[0]] + rest)[1..] == rest;
      }
    }
  }

  /** Deleting an R deletes exactly its reply, which is TDO at that point. */
  lemma ReadErases(env: Env, m: Machine, a: string, b: string)
    requires !Run(env, m, a).machine.quit
    ensures var first := Run(env, m, a);
            var rest := Run(env, first.machine, b).replies;
            Run(env, m, a + b) == Outcome(Run(env, m, a + "R" + b).machine, first.replies + rest) &&
            Run(env, m, a + "R" + b).replies == first.replies + (if first.machine.tdo then "1" else "0") + rest
  {
    hide SetPins, Enter, Run;
    RunConcat(env, m, a, b);
    RunConcat(env, m, a, "R" + b);
    assert a + "R" + b == a + ("R" + b);
    RunCons(env, Run(env, m, a).machine, 'R', b);
  }

  // ---------------------------------------------------------------- replies and quitting

  lemma ReplyIsBit(env: Env, m: Machine, c: char)
    ensures Execute(env, m, c).replies == if c == 'R' then (if m.tdo then "1" else "0") else ""
  {
    hide SetPins, Enter;
  }

  /** Whatever a client sends, it receives one character for each R, and only the characters 0 and 1. */
  lemma {:induction false} RepliesAreBits(env: Env, m: Machine, cs: string)
    requires !m.quit && 'Q' !in cs
    ensures var r := Run(env, m, cs).replies;
            |r| == multiset(cs)['R'] && forall i :: 0 <= i < |r| ==> r[i] in "01"
    decreases |cs|
  {
    hide Execute;
    if cs != [] {
      ReplyIsBit(env, m, cs[0]);
      TapFollows(env, m, cs[0]);
      RepliesAreBits(env, Execute(env, m, cs[0]).machine, cs[1..]);
      assert cs == [cs[0]] + cs[1..];
    }
  }

  /** Nothing behind a Q is carried out or answered, and the Q itself changes nothing else. */
  lemma QuitEndsStream(env: Env, m: Machine, a: string, b: string)
    ensures Run(env, m, a + "Q" + b) == Outcome(Run(env, m, a).machine.(quit := true), Run(env, m, a).replies)
  {
    hide SetPins, Enter;
    var first := Run(env, m, a);
    RunConcat(env, m, a, "Q" + b);
    assert a + "Q" + b == a + ("Q" + b);
    assert first.replies + "" == first.replies;
    if !first.machine.quit {
      RunCons(env, first.machine, 'Q', b);
      assert Run(env, first.machine.(quit := true), b) == Outcome(first.machine.(quit := true), "");
    }
  }
}
