/** Laws of DMI transactions: what a scan can change, which scans a no-operation scan repeats, and
    when the hart steps. */
module DmiLaws {
  import opened Words
  import opened Transactions
  import opened Target

  predicate IsWriteTo(dmi: nat, a: Address7) {
    Address(dmi) == a && Op(dmi) == WRITE
  }

  predicate HasBit(w: Word, weight: nat)
    requires weight > 0
  {
    w / weight % 2 == 1
  }

  /** A dmcontrol write with resumereq, bit 30, set. */
  predicate IsResume(dmi: nat) {
    IsWriteTo(dmi, DMCONTROL) && HasBit(Data(dmi), 0x4000_0000)
  }

  lemma ControlBits(w: Word)
    ensures UnpackDmControl(w).resumereq == (if HasBit(w, 0x4000_0000) then 1 else 0)
    ensures UnpackDmControl(w).hasel == (if HasBit(w, 0x400_0000) then 1 else 0)
    ensures UnpackDmControl(w).dmactive == (if HasBit(w, 1) then 1 else 0)
  {
  }

  /** An Access Memory command whose address operand is data1, which the command itself overwrites. */
  predicate IsDirectMemoryCommand(dmi: nat) {
    IsWriteTo(dmi, COMMAND) && CmdType(Data(dmi)) == 2 && AamSize(Data(dmi)) == 2
  }

  /** Memory n contains memory m: same words, possibly more segments. */
  predicate Extends(m: Segments, n: Segments) {
    forall k :: k in m ==> k in n && n[k] == m[k]
  }

  function Zeros(n: nat): seq<DWord> {
    seq(n, i => 0)
  }

  lemma TransactAllSnoc(env: Env, c: Core, scans: seq<DWord>, last: DWord)
    ensures TransactAll(env, c, scans + [last]) == Transact(env, TransactAll(env, c, scans), last)
  {
    hide Transact;
    TransactAllConcat(env, c, scans, [last]);
    var d := TransactAll(env, c, scans);
    assert TransactAll(env, d, [last]) == TransactAll(env, Transact(env, d, last), []);
  }

  // ---------------------------------------------------------------- one transaction

  /** The container keeps the request, or holds an answer: same address, operation 0. */
  lemma ProcessContainer(env: Env, c: Core)
    ensures var d := Process(env, c);
            d.dmi == c.dmi ||
            (Address(d.dmi) == Address(c.dmi) && Op(d.dmi) == NOP && d.dmi < 0x200_0000_0000)
    ensures IsWriteTo(Process(env, c).dmi, DMCONTROL) ==> Process(env, c).dmi == c.dmi
  {
    hide UnpackDmControl, PackDmControl, PackAbstractCs, Command, Packet, Address, Op, Data;
    var a := Address(c.dmi);
    forall w: Word {
      PacketFields(a, w, NOP);
    }
    CommandKeepsContainer(env, c, Data(c.dmi));
  }

  lemma CommandKeepsContainer(env: Env, c: Core, w: Word)
    ensures var d := Command(env, c, w);
            d.dmi == c.dmi && d.dm.dmcontrol == c.dm.dmcontrol && d.dm.dpc == c.dm.dpc
    ensures forall i :: 2 <= i < 12 ==> Command(env, c, w).dm.data[i] == c.dm.data[i]
    ensures Command(env, c, w).cpu.reg == c.cpu.reg && Command(env, c, w).cpu.pc == c.cpu.pc
    ensures Extends(c.cpu.segments, Command(env, c, w).cpu.segments)
  {
    hide SegmentKey, WordIndex, AddressIncrement, AddressOperand, GprOffset, RegNo, AarSize, CmdType, Control,
         IsCommandWrite, PostIncrement;
  }

  /** Only a resume request steps the hart; nothing else changes a register, the pc, dpc or a word of
      existing memory. */
  lemma StepsOnlyOnResume(env: Env, c: Core)
    ensures var d := Process(env, c);
            if IsResume(c.dmi) then d.cpu == env.step(c.cpu) && d.dm.dpc == d.cpu.pc
            else d.cpu.reg == c.cpu.reg && d.cpu.pc == c.cpu.pc && d.dm.dpc == c.dm.dpc &&
                 Extends(c.cpu.segments, d.cpu.segments)
  {
    hide UnpackDmControl, HasBit, PackDmControl, PackAbstractCs, Command, Packet, Address, Op, Data;
    CommandKeepsContainer(env, c, Data(c.dmi));
    ControlBits(Data(c.dmi));
  }

  // ---------------------------------------------------------------- the invariant of every run

  predicate CoreOk(c: Core) {
    c.dmi < 0x200_0000_0000 &&
    (Address(c.dmi) == DMSTATUS ==> c.dmi == Packet(DMSTATUS, DMSTATUS_VALUE, NOP)) &&
    c.dm.abstractcs.(cmderr := 0) == ABSTRACTCS_INITIAL &&
    c.dm.abstractcs.cmderr in {0, 2} && c.dm.abstractcsContainer in {0, 0x200}
  }

  lemma InitialCoreOk(cpu: Cpu)
    ensures CoreOk(InitialCore(cpu)) && InitialCore(cpu).dm.abstractcs.cmderr == 0
  {
    hide Address, Op, Data, Packet;
    PacketFields(DMCONTROL, 1, NOP);
  }

  lemma CommandKeepsAbstractCs(env: Env, c: Core, w: Word)
    ensures var a := Command(env, c, w).dm.abstractcs;
            a.(cmderr := 0) == c.dm.abstractcs.(cmderr := 0) &&
            a.cmderr == if CmdType(w) == 0 && AarSize(Control(w)) in {3, 4} then 2 else 0
  {
    hide SegmentKey, WordIndex, AddressIncrement, AddressOperand, GprOffset, RegNo, AarSize, CmdType, Control,
         IsCommandWrite, PostIncrement;
  }

  lemma CommandKeepsAbstractCsContainer(env: Env, c: Core, w: Word)
    ensures Command(env, c, w).dm.abstractcsContainer == c.dm.abstractcsContainer
  {
    hide SegmentKey, WordIndex, AddressIncrement, AddressOperand, GprOffset, RegNo, AarSize, CmdType, Control,
         IsCommandWrite, PostIncrement;
  }

  lemma PackedCmdErr(a: AbstractCs)
    requires a.(cmderr := 0) == ABSTRACTCS_INITIAL
    ensures PackAbstractCs(a) == a.cmderr * 0x100
  {
    assert a == ABSTRACTCS_INITIAL.(cmderr := a.cmderr);
  }

  lemma TransactKeepsCoreOk(env: Env, c: Core, scan: DWord)
    requires CoreOk(c) && scan < 0x200_0000_0000
    ensures CoreOk(Transact(env, c, scan))
  {
    hide UnpackDmControl, PackDmControl, PackAbstractCs, Command, Packet, Address, Op, Data;
    var d := c.(dmi := Loaded(c, scan));
    ProcessContainer(env, d);
    CommandKeepsAbstractCs(env, d, Data(d.dmi));
    CommandKeepsAbstractCsContainer(env, d, Data(d.dmi));
    PackedCmdErr(d.dm.abstractcs);
    PacketFields(DMSTATUS, DMSTATUS_VALUE, NOP);
  }

  lemma {:induction false} TransactAllKeepsCoreOk(env: Env, c: Core, scans: seq<DWord>)
    requires CoreOk(c) && forall i :: 0 <= i < |scans| ==> scans[i] < 0x200_0000_0000
    ensures CoreOk(TransactAll(env, c, scans))
    decreases |scans|
  {
    hide Transact, CoreOk;
    if scans != [] {
      TransactKeepsCoreOk(env, c, scans[0]);
      TransactAllKeepsCoreOk(env, Transact(env, c, scans[0]), scans[1..]);
    }
  }

  // ---------------------------------------------------------------- no-operation scans

  /** Whether an all-zero scan changes nothing. It repeats the request in the container, so a resume
      request that was not answered steps again, and a memory command that takes its address from
      data1 runs again with the address it left there. */
  predicate Quiescent(env: Env, c: Core) {
    if IsResume(c.dmi) then env.step(c.cpu) == c.cpu
    else if IsDirectMemoryCommand(c.dmi) then !PostIncrement(Data(c.dmi)) && c.dm.arg1 == c.dm.data[1]
    else true
  }

  lemma AnswerIsIdle(env: Env, c: Core)
    requires Op(c.dmi) == NOP && (Address(c.dmi) == DMSTATUS ==> c.dmi == Packet(DMSTATUS, DMSTATUS_VALUE, NOP))
    ensures Process(env, c) == c
  {
  }

  lemma RepeatDmControl(env: Env, c: Core)
    requires IsWriteTo(c.dmi, DMCONTROL)
    ensures var d := Process(env, c); Process(env, d) == d <==> Quiescent(env, d)
  {
    hide UnpackDmControl, HasBit, PackDmControl, Packet, Address, Op, Data;
    ControlBits(Data(c.dmi));
    forall w: Word {
      PacketFields(DMCONTROL, w, NOP);
    }
  }

  lemma RepeatAccessRegister(c: Core, control: Word)
    ensures AccessRegister(WithCmdErr(AccessRegister(WithCmdErr(c, 0), control), 0), control) ==
            AccessRegister(WithCmdErr(c, 0), control)
  {
    hide GprOffset, RegNo, AarSize, IsCommandWrite;
    var d := AccessRegister(WithCmdErr(c, 0), control);
    assert d.dm.data[0 := d.dm.data[0]] == d.dm.data;
  }

  lemma RepeatAccessMemory(env: Env, c: Core, w: Word)
    ensures var d := AccessMemory(env, WithCmdErr(c, 0), w);
            AccessMemory(env, WithCmdErr(d, 0), w) == d <==>
            (AamSize(w) == 2 ==> !PostIncrement(w) && d.dm.arg1 == d.dm.data[1])
  {
    hide SegmentKey, WordIndex, IsCommandWrite, PostIncrement, AamSize;
    var d := AccessMemory(env, WithCmdErr(c, 0), w);
    var e := AccessMemory(env, WithCmdErr(d, 0), w);
    assert d.dm.data[0 := d.dm.data[0]] == d.dm.data;
    assert d.dm.data[1 := d.dm.data[1]] == d.dm.data;
    if e.dm.data == d.dm.data {
      assert e.dm.data[1] == d.dm.data[1];
    }
  }

  lemma RepeatCommand(env: Env, c: Core)
    requires Address(c.dmi) == COMMAND
    ensures var d := Process(env, c); Process(env, d) == d <==> Quiescent(env, d)
  {
    hide RegNo, Control, CmdType, AamSize, PostIncrement, Address, Op, Data, AccessRegister, AccessMemory;
    var w := Data(c.dmi);
    CommandKeepsContainer(env, c, w);
    RepeatAccessRegister(c, Control(w));
    RepeatAccessMemory(env, c, w);
    assert c.dm.data[0 := MISA][0 := MISA] == c.dm.data[0 := MISA];
  }

  /** Processing a container twice is the same as processing it once exactly in quiescent states. */
  lemma RepeatIsExact(env: Env, c: Core)
    ensures var d := Process(env, c); Process(env, d) == d <==> Quiescent(env, d)
  {
    hide HasBit, PackDmControl, UnpackDmControl, PackAbstractCs, Command, Packet, Address, Op, Data;
    var a, w := Address(c.dmi), Data(c.dmi);
    ProcessContainer(env, c);
    if a == DMCONTROL && Op(c.dmi) == WRITE {
      RepeatDmControl(env, c);
    } else if a == COMMAND {
      RepeatCommand(env, c);
    } else {
      PacketFields(DMSTATUS, DMSTATUS_VALUE, NOP);
      if IsData(a) {
        PacketFields(a, c.dm.data[a - 4] % 0x1_0000_0000, NOP);
        assert c.dm.data[a - 4 := w][a - 4 := w] == c.dm.data[a - 4 := w];
      }
      PacketFields(DMCONTROL, PackDmControl(c.dm.dmcontrol), NOP);
      PacketFields(HARTINFO, 0, NOP);
      PacketFields(ABSTRACTCS, PackAbstractCs(c.dm.abstractcs), NOP);
    }
  }

  /** In every state that scans can reach from power-on, an all-zero scan changes nothing if and only
      if the state is quiescent. */
  lemma NopScanExact(env: Env, cpu: Cpu, scans: seq<DWord>)
    ensures var c := TransactAll(env, InitialCore(cpu), scans);
            Transact(env, c, 0) == c <==> Quiescent(env, c)
  {
    hide UnpackDmControl, Process, Packet, Address, Op, Data;
    if scans == [] {
      PacketFields(DMCONTROL, 1, NOP);
      AnswerIsIdle(env, InitialCore(cpu));
    } else {
      var before := TransactAll(env, InitialCore(cpu), scans[..|scans| - 1]);
      assert scans == scans[..|scans| - 1] + [scans[|scans| - 1]];
      TransactAllSnoc(env, InitialCore(cpu), scans[..|scans| - 1], scans[|scans| - 1]);
      RepeatIsExact(env, before.(dmi := Loaded(before, scans[|scans| - 1])));
    }
  }

  lemma {:induction false} NopScansStable(env: Env, c: Core, n: nat)
    requires Transact(env, c, 0) == c
    ensures TransactAll(env, c, Zeros(n)) == c
  {
    hide Transact;
    if n > 0 {
      assert Zeros(n)[1..] == Zeros(n - 1);
      NopScansStable(env, c, n - 1);
    }
  }

  // ---------------------------------------------------------------- exactly-once stepping

  function Iterate(f: Cpu -> Cpu, n: nat, cpu: Cpu): Cpu
    decreases n
  {
    if n == 0 then cpu else Iterate(f, n - 1, f(cpu))
  }

  lemma {:induction false} UnansweredResumes(env: Env, c: Core, n: nat)
    requires IsResume(c.dmi) && !HasBit(Data(c.dmi), 0x400_0000) && !HasBit(Data(c.dmi), 1)
    ensures TransactAll(env, c, Zeros(n)).cpu == Iterate(env.step, n, c.cpu)
    decreases n
  {
    hide UnpackDmControl, HasBit, PackDmControl, Packet, Address, Op, Data;
    ControlBits(Data(c.dmi));
    if n > 0 {
      assert Zeros(n)[1..] == Zeros(n - 1);
      UnansweredResumes(env, Transact(env, c, 0), n - 1);
    }
  }

  /** A resume request followed by any number of all-zero scans steps the hart exactly once if the
      request has hasel (bit 26) or dmactive (bit 0) set, and once more with every scan otherwise. */
  lemma ResumeSteps(env: Env, c: Core, w: Word, n: nat)
    requires HasBit(w, 0x4000_0000)
    ensures TransactAll(env, c, [Packet(DMCONTROL, w, WRITE)] + Zeros(n)).cpu ==
            Iterate(env.step, if HasBit(w, 0x400_0000) || HasBit(w, 1) then 1 else 1 + n, c.cpu)
  {
    hide UnpackDmControl, HasBit, PackDmControl, Packet, Address, Op, Data;
    var request := Packet(DMCONTROL, w, WRITE);
    PacketFields(DMCONTROL, w, WRITE);
    ControlBits(w);
    var d := Transact(env, c, request);
    assert ([request] + Zeros(n))[1..] == Zeros(n);
    if HasBit(w, 0x400_0000) || HasBit(w, 1) {
      forall v: Word ensures Address(Packet(DMCONTROL, v, NOP)) == DMCONTROL && Op(Packet(DMCONTROL, v, NOP)) == NOP {
        PacketFields(DMCONTROL, v, NOP);
      }
      AnswerIsIdle(env, d);
      NopScansStable(env, d, n);
      assert Iterate(env.step, 1, c.cpu) == Iterate(env.step, 0, env.step(c.cpu));
    } else {
      UnansweredResumes(env, d, n);
    }
  }

  /** The resume requests that a series of scans makes the debug module process. */
  function Resumes(env: Env, c: Core, scans: seq<DWord>): nat
    decreases |scans|
  {
    if scans == [] then 0
    else (if IsResume(Loaded(c, scans[0])) then 1 else 0) + Resumes(env, Transact(env, c, scans[0]), scans[1..])
  }

  /** Without a resume request no register and no existing word changes, and dpc keeps its value;
      after one, dpc is the pc. */
  lemma {:induction false} StepHistory(env: Env, c: Core, scans: seq<DWord>)
    ensures var d := TransactAll(env, c, scans);
            if Resumes(env, c, scans) == 0 then
              d.cpu.reg == c.cpu.reg && d.cpu.pc == c.cpu.pc && d.dm.dpc == c.dm.dpc &&
              Extends(c.cpu.segments, d.cpu.segments)
            else d.dm.dpc == d.cpu.pc
    decreases |scans|
  {
    hide Process, IsResume;
    if scans != [] {
      StepsOnlyOnResume(env, c.(dmi := Loaded(c, scans[0])));
      StepHistory(env, Transact(env, c, scans[0]), scans[1..]);
    }
  }

  /** Same registers, memory possibly grown. */
  predicate Grown(a: Cpu, b: Cpu) {
    b.reg == a.reg && b.pc == a.pc && Extends(a.segments, b.segments)
  }

  /** The hart gets from a to b by exactly n single steps, with only memory growth between them. */
  ghost predicate HartRun(env: Env, n: nat, a: Cpu, b: Cpu)
    decreases n
  {
    if n == 0 then Grown(a, b)
    else exists m: Cpu :: Grown(a, m) && HartRun(env, n - 1, env.step(m), b)
  }

  lemma GrownThenRun(env: Env, n: nat, a: Cpu, m: Cpu, b: Cpu)
    requires Grown(a, m) && HartRun(env, n, m, b)
    ensures HartRun(env, n, a, b)
  {
    if n > 0 {
      var k: Cpu :| Grown(m, k) && HartRun(env, n - 1, env.step(k), b);
      assert Grown(a, k);
    }
  }

  /** Over every run the hart makes exactly as many steps as resume requests are processed. */
  lemma {:induction false} StepCount(env: Env, c: Core, scans: seq<DWord>)
    ensures HartRun(env, Resumes(env, c, scans), c.cpu, TransactAll(env, c, scans).cpu)
    decreases |scans|
  {
    hide Process, IsResume;
    if scans != [] {
      var d := Transact(env, c, scans[0]);
      StepsOnlyOnResume(env, c.(dmi := Loaded(c, scans[0])));
      StepCount(env, d, scans[1..]);
      if IsResume(Loaded(c, scans[0])) {
        assert Grown(c.cpu, c.cpu);
      } else {
        GrownThenRun(env, Resumes(env, d, scans[1..]), c.cpu, d.cpu, TransactAll(env, d, scans[1..]).cpu);
      }
    }
  }
}
