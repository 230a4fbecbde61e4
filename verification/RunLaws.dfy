/** Laws of arbitrary command streams from power-on, driver-shaped or not: every stream is a run of
    DMI transactions, so the transaction laws hold at the end of all of them. */
module RunLaws {
  import opened Words
  import opened TapController
  import opened Transactions
  import opened DmiLaws
  import opened RegisterLaws
  import opened MemoryLaws
  import opened Target
  import opened StreamLaws
  import opened ScanLaws
  import opened WireLaws
  import opened SpelledLaws

  lemma {:induction false} UpdatesAreRequests(env: Env, m: Machine, cs: string)
    requires MachineOk(m)
    ensures forall i :: 0 <= i < |DmiUpdates(env, m, cs)| ==> DmiUpdates(env, m, cs)[i] < 0x200_0000_0000
    decreases |cs|
  {
    hide Execute, CoreOk, TapAfter;
    if cs != [] && !m.quit {
      ExecuteKeepsOk(env, m, cs[0]);
      UpdatesAreRequests(env, Execute(env, m, cs[0]).machine, cs[1..]);
    }
  }

  /** dpc is 0x40000000 and the hart untouched until the first step, and the pc from then on. */
  lemma DpcOnStreams(env: Env, tap: TapState, tdo: bool, cpu: Cpu, cs: string)
    ensures var m := PowerOn(tap, tdo, cpu);
            var core := Run(env, m, cs).machine.core;
            if Resumes(env, m.core, DmiUpdates(env, m, cs)) == 0
            then core.dm.dpc == DPC_INITIAL && core.cpu.reg == cpu.reg && core.cpu.pc == cpu.pc &&
                 Extends(cpu.segments, core.cpu.segments)
            else core.dm.dpc == core.cpu.pc
  {
    hide Run, DmiUpdates, TransactAll, Resumes;
    var m := PowerOn(tap, tdo, cpu);
    RunIsTransactions(env, m, cs);
    StepHistory(env, m.core, DmiUpdates(env, m, cs));
  }

  /** cmderr is 2 after an unsupported register access and 0 after any other command or none. */
  lemma CmdErrOnStreams(env: Env, tap: TapState, tdo: bool, cpu: Cpu, cs: string)
    ensures var m := PowerOn(tap, tdo, cpu);
            Run(env, m, cs).machine.core.dm.abstractcs.cmderr ==
            if IsUnsupported(LastCommand(env, m.core, DmiUpdates(env, m, cs), NoCommand)) then 2 else 0
  {
    hide Run, DmiUpdates, TransactAll, LastCommand, CmdType, AarSize, Control, InitialCore, CoreOk;
    var m := PowerOn(tap, tdo, cpu);
    InitialCoreOk(cpu);
    RunIsTransactions(env, m, cs);
    CmdErrHistory(env, m.core, DmiUpdates(env, m, cs), NoCommand);
  }

  /** Whatever stream a client sent, short of Q, the next client that resets the TAP, selects the DMI
      register and reads abstractcs is shown 2 in cmderr if the last command was unsupported, 0 if not,
      and zero in every other field. */
  lemma AbstractCsOnStreams(env: Env, tap: TapState, tdo: bool, cpu: Cpu, cs: string)
    requires !Run(env, PowerOn(tap, tdo, cpu), cs).machine.quit
    ensures var m := PowerOn(tap, tdo, cpu);
            var last := LastCommand(env, m.core, DmiUpdates(env, m, cs), NoCommand);
            var r := Run(env, m, cs + Session([ReadOf(ABSTRACTCS), 0])).replies;
            |r| >= 41 &&
            r[|r| - 41..] == Frame(0x16, if IsUnsupported(last) then 0x200 else 0, 0)
  {
    hide Run, DmiUpdates, LastCommand, IsUnsupported, CoreOk, InitialCore, Transact, Session, Packet, Responses,
         IrReply, Frame;
    var m := PowerOn(tap, tdo, cpu);
    var n := Run(env, m, cs).machine;
    var updates := DmiUpdates(env, m, cs);
    PowerOnOk(tap, tdo, cpu);
    RunKeepsOk(env, m, cs);
    UpdatesAreRequests(env, m, cs);
    RunIsTransactions(env, m, cs);
    AbstractCsReadBack(env, cpu, updates);
    TransactAllSnoc(env, m.core, updates, ReadOf(ABSTRACTCS));
    PacketFields(ABSTRACTCS, 0, READ);
    RunConcat(env, m, cs, Session([ReadOf(ABSTRACTCS), 0]));
    SessionFromAnywhere(env, n, [ReadOf(ABSTRACTCS), 0]);
    TransactAllSnoc(env, n.core, [], ReadOf(ABSTRACTCS));
    assert [] + [ReadOf(ABSTRACTCS)] == [ReadOf(ABSTRACTCS)];
    assert [ReadOf(ABSTRACTCS)] + [0] == [ReadOf(ABSTRACTCS), 0];
    var last := LastCommand(env, m.core, updates, NoCommand);
    LastResponse(env, n.core, [ReadOf(ABSTRACTCS)], 0, ABSTRACTCS, if IsUnsupported(last) then 0x200 else 0, 0);
  }

  /** After every stream, an all-zero DMI scan changes nothing if and only if the state is quiescent. */
  lemma NopOnStreams(env: Env, tap: TapState, tdo: bool, cpu: Cpu, cs: string)
    ensures var core := Run(env, PowerOn(tap, tdo, cpu), cs).machine.core;
            Transact(env, core, 0) == core <==> Quiescent(env, core)
  {
    hide Run, DmiUpdates, TransactAll, Transact, Quiescent;
    var m := PowerOn(tap, tdo, cpu);
    RunIsTransactions(env, m, cs);
    NopScanExact(env, cpu, DmiUpdates(env, m, cs));
  }

  // ---------------------------------------------------------------- inputs on which expected laws fail

  lemma BlockCommandStays(env: Env, c: Core, w: Word)
    requires IsBlockCommand(w)
    ensures var d := Transact(env, c, WriteOf(COMMAND, w));
            d.dmi == WriteOf(COMMAND, w) && Transact(env, d, 0) == Transact(env, d, WriteOf(COMMAND, w)) &&
            d.dm.data[1] == (c.dm.data[1] as int + 4) % 0x1_0000_0000_0000_0000
  {
    hide Packet, Address, Op, Data, Command, CmdType, AamSize, PostIncrement;
    PacketFields(COMMAND, w, WRITE);
    CommandKeepsContainer(env, c.(dmi := WriteOf(COMMAND, w)), w);
    assert Pow2(2) == 4;
    MemoryCommandEffect(env, c, w);
  }

  /** A no-operation scan is not always one: after a 32-bit memory command with post-increment, n
      all-zero scans run it n more times. NopScanExact says when they are harmless. */
  lemma {:induction false} NopsRepeatBlockCommand(env: Env, c: Core, w: Word, n: nat)
    requires IsBlockCommand(w)
    ensures TransactAll(env, Transact(env, c, WriteOf(COMMAND, w)), Zeros(n)).dm.data[1] ==
            (c.dm.data[1] as int + 4 * (n + 1)) % 0x1_0000_0000_0000_0000
    decreases n
  {
    hide Transact, IsBlockCommand, WriteOf;
    var d := Transact(env, c, WriteOf(COMMAND, w));
    BlockCommandStays(env, c, w);
    if n > 0 {
      assert Zeros(n)[1..] == Zeros(n - 1);
      NopsRepeatBlockCommand(env, d, w, n - 1);
    }
  }

  /** A resume request to an inactive module steps again with the next all-zero scan. ResumeSteps says
      when a request steps exactly once. */
  lemma ResumeStepsTwice(env: Env, c: Core)
    ensures TransactAll(env, c, [WriteOf(DMCONTROL, 0x4000_0000)] + Zeros(1)).cpu == env.step(env.step(c.cpu))
  {
    hide Packet, Transact;
    ResumeSteps(env, c, 0x4000_0000, 1);
    assert Iterate(env.step, 2, c.cpu) == Iterate(env.step, 1, env.step(c.cpu));
    assert Iterate(env.step, 1, env.step(c.cpu)) == Iterate(env.step, 0, env.step(env.step(c.cpu)));
  }
}
