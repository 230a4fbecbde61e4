/** What a debugger reads back: dmcontrol, the data registers, hart registers and the error code. */
module RegisterLaws {
  import opened Words
  import opened Transactions
  import opened Target
  import opened DmiLaws
  import opened DmControlFields

  function ReadOf(a: Address7): DWord {
    Packet(a, 0, READ)
  }

  function WriteOf(a: Address7, w: Word): DWord {
    Packet(a, w, WRITE)
  }

  // ---------------------------------------------------------------- dmcontrol over runs

  /** The module holds the fields of w, and a write request still in the container would store them
      again. */
  predicate HoldsDmControl(c: Core, w: Word) {
    c.dm.dmcontrol == UnpackDmControl(w) &&
    (IsWriteTo(c.dmi, DMCONTROL) ==> Legal(Data(c.dmi)) == w)
  }

  lemma WriteHoldsDmControl(env: Env, c: Core)
    requires IsWriteTo(c.dmi, DMCONTROL)
    ensures HoldsDmControl(Process(env, c), Legal(Data(c.dmi)))
  {
    hide PackDmControl, UnpackDmControl, Packet, Address, Op, Data, Legal;
    LegalFields(Data(c.dmi));
    ProcessContainer(env, c);
  }

  lemma ScanKeepsDmControl(env: Env, c: Core, w: Word, scan: DWord)
    requires HoldsDmControl(c, w) && !IsWriteTo(scan, DMCONTROL)
    ensures HoldsDmControl(Transact(env, c, scan), w)
  {
    hide PackDmControl, UnpackDmControl, Packet, Address, Op, Data, Legal, Command, PackAbstractCs;
    var d := c.(dmi := Loaded(c, scan));
    ProcessContainer(env, d);
    if IsWriteTo(d.dmi, DMCONTROL) {
      WriteHoldsDmControl(env, d);
    } else {
      CommandKeepsContainer(env, d, Data(d.dmi));
    }
  }

  lemma {:induction false} ScansKeepDmControl(env: Env, c: Core, w: Word, scans: seq<DWord>)
    requires HoldsDmControl(c, w) && forall i :: 0 <= i < |scans| ==> !IsWriteTo(scans[i], DMCONTROL)
    ensures HoldsDmControl(TransactAll(env, c, scans), w)
    decreases |scans|
  {
    hide HoldsDmControl, Transact, IsWriteTo;
    if scans != [] {
      ScanKeepsDmControl(env, c, w, scans[0]);
      ScansKeepDmControl(env, Transact(env, c, scans[0]), w, scans[1..]);
    }
  }

  /** After a dmcontrol write and any scans that do not write dmcontrol, a read answers the legalised
      word. */
  lemma DmControlReadBack(env: Env, c: Core, w: Word, scans: seq<DWord>)
    requires forall i :: 0 <= i < |scans| ==> !IsWriteTo(scans[i], DMCONTROL)
    ensures TransactAll(env, c, [WriteOf(DMCONTROL, w)] + scans + [ReadOf(DMCONTROL)]).dmi ==
            Packet(DMCONTROL, Legal(w), NOP)
  {
    hide UnpackDmControl, PackDmControl, Packet, Address, Op, Data, Legal;
    PacketFields(DMCONTROL, w, WRITE);
    PacketFields(DMCONTROL, 0, READ);
    var d := Transact(env, c, WriteOf(DMCONTROL, w));
    WriteHoldsDmControl(env, c.(dmi := WriteOf(DMCONTROL, w)));
    ScansKeepDmControl(env, d, Legal(w), scans);
    var rest := scans + [ReadOf(DMCONTROL)];
    assert [WriteOf(DMCONTROL, w)] + scans + [ReadOf(DMCONTROL)] == [WriteOf(DMCONTROL, w)] + rest;
    TransactAllSnoc(env, d, scans, ReadOf(DMCONTROL));
    assert ([WriteOf(DMCONTROL, w)] + rest)[1..] == rest;
    PackUnpack(Legal(w));
  }

  // ---------------------------------------------------------------- data registers

  /** The register numbers that Access Register can read into data0. */
  predicate IsDebugRegister(regno: Word) {
    0x1000 <= regno <= 0x101f || regno == 0x301 || regno == 0x7b1
  }

  /** An abstract command, in a container or scan, that stores into data_i: register and memory reads
      into data0, memory commands into data1, and nothing into data2..data11. */
  predicate CommandStores(dmi: nat, i: nat) {
    var w := Data(dmi);
    Address(dmi) == COMMAND &&
    ((i == 0 && Op(dmi) == READ && RegNo(Control(w)) == 0x301) ||
     (i == 0 && Op(dmi) == WRITE && CmdType(w) == 0 && !IsCommandWrite(Control(w)) &&
      IsDebugRegister(RegNo(Control(w)))) ||
     (i == 0 && Op(dmi) == WRITE && CmdType(w) == 2 && !IsCommandWrite(w)) ||
     (i == 1 && Op(dmi) == WRITE && CmdType(w) == 2))
  }

  /** A request that can change data_i. */
  predicate Stores(dmi: nat, i: nat)
    requires i < 12
  {
    IsWriteTo(dmi, 4 + i) || CommandStores(dmi, i)
  }

  /** data_i holds w, and processing the container again would keep it. */
  predicate HoldsData(c: Core, i: nat, w: Word)
    requires i < 12
  {
    c.dm.data[i] == w && !CommandStores(c.dmi, i) && (IsWriteTo(c.dmi, 4 + i) ==> Data(c.dmi) == w)
  }

  lemma CommandKeepsData(env: Env, c: Core, i: nat)
    requires i < 12 && Address(c.dmi) == COMMAND && !CommandStores(c.dmi, i)
    ensures Process(env, c).dm.data[i] == c.dm.data[i]
  {
    hide Address, Op, Data, CmdType, RegNo, Control, IsCommandWrite, GprOffset, AddressOperand, SegmentKey, WordIndex;
    GprOffsetExact(RegNo(Control(Data(c.dmi)))) by { RegNoBound(Control(Data(c.dmi))); }
  }

  lemma RegNoBound(control: Word)
    ensures RegNo(control) < 0x1_0000
  {
  }

  lemma ScanKeepsData(env: Env, c: Core, i: nat, w: Word, scan: DWord)
    requires i < 12 && HoldsData(c, i, w) && !Stores(scan, i)
    ensures HoldsData(Transact(env, c, scan), i, w)
  {
    hide PackDmControl, UnpackDmControl, Packet, Address, Op, Data, ProcessCommand, PackAbstractCs, CmdType, RegNo,
         Control, IsCommandWrite;
    var d := c.(dmi := Loaded(c, scan));
    ProcessContainer(env, d);
    if Address(d.dmi) == COMMAND {
      CommandKeepsData(env, d, i);
    }
  }

  lemma {:induction false} ScansKeepData(env: Env, c: Core, i: nat, w: Word, scans: seq<DWord>)
    requires i < 12 && HoldsData(c, i, w)
    requires forall k :: 0 <= k < |scans| ==> !Stores(scans[k], i)
    ensures HoldsData(TransactAll(env, c, scans), i, w)
    decreases |scans|
  {
    hide HoldsData, Transact, Stores;
    if scans != [] {
      ScanKeepsData(env, c, i, w, scans[0]);
      ScansKeepData(env, Transact(env, c, scans[0]), i, w, scans[1..]);
    }
  }

  lemma ReadAnswersData(env: Env, c: Core, a: Address7)
    requires IsData(a)
    ensures Transact(env, c, ReadOf(a)) == c.(dmi := Packet(a, c.dm.data[a - 4] % 0x1_0000_0000, NOP))
  {
    hide Packet, Address, Op, Data;
    PacketFields(a, 0, READ);
  }

  /** A data register reads back what was last written to it, whatever requests come in between that do
      not store into that register; for data2..data11 these include all abstract commands. */
  lemma DataReadBack(env: Env, c: Core, i: nat, w: Word, scans: seq<DWord>)
    requires i < 12
    requires forall k :: 0 <= k < |scans| ==> !Stores(scans[k], i)
    ensures TransactAll(env, c, [WriteOf(4 + i, w)] + scans + [ReadOf(4 + i)]).dmi == Packet(4 + i, w, NOP)
  {
    hide Packet, Address, Op, Data, CmdType, RegNo, Control, IsCommandWrite;
    PacketFields(4 + i, w, WRITE);
    var d := Transact(env, c, WriteOf(4 + i, w));
    assert d.dm.data[i] == w;
    ScansKeepData(env, d, i, w, scans);
    var rest := scans + [ReadOf(4 + i)];
    assert [WriteOf(4 + i, w)] + scans + [ReadOf(4 + i)] == [WriteOf(4 + i, w)] + rest;
    assert ([WriteOf(4 + i, w)] + rest)[1..] == rest;
    TransactAllSnoc(env, d, scans, ReadOf(4 + i));
    ReadAnswersData(env, TransactAll(env, d, scans), 4 + i);
  }

  // ---------------------------------------------------------------- Access Register

  /** regno - 0x1000 on 32-bit unsigned integers is at most 31 exactly for the 32 hart registers. */
  lemma GprOffsetExact(regno: Word)
    requires regno < 0x1_0000
    ensures GprOffset(regno) <= 31 <==> 0x1000 <= regno <= 0x101f
    ensures 0x1000 <= regno ==> GprOffset(regno) == regno - 0x1000
  {
  }

  /** An Access Register read of a register number, of any size and with any other option bits. */
  predicate IsRegisterRead(w: Word, regno: Word) {
    CmdType(w) == 0 && !IsCommandWrite(Control(w)) && RegNo(Control(w)) == regno
  }

  /** What a debugger finds in a register: the 32 hart registers at 0x1000, misa and dpc. Any other
      number shows the old data0. */
  function DebugRegister(c: Core, regno: Word): Word
    requires regno < 0x1_0000
  {
    if 0x1000 <= regno <= 0x101f then c.cpu.reg[regno - 0x1000]
    else if regno == 0x301 then MISA
    else if regno == 0x7b1 then c.dm.dpc
    else c.dm.data[0]
  }

  /** Reading a register: the command, then a read of data0. The hart is left alone. */
  lemma RegisterReadBack(env: Env, c: Core, w: Word, regno: Word)
    requires regno < 0x1_0000 && IsRegisterRead(w, regno)
    ensures var d := TransactAll(env, c, [WriteOf(COMMAND, w), ReadOf(4)]);
            d.dmi == Packet(4, DebugRegister(c, regno), NOP) && d.cpu == c.cpu
  {
    hide Packet, Address, Op, Data, CmdType, RegNo, Control, IsCommandWrite, GprOffset;
    PacketFields(COMMAND, w, WRITE);
    GprOffsetExact(regno);
    var d := Transact(env, c, WriteOf(COMMAND, w));
    ReadAnswersData(env, d, 4);
    assert [WriteOf(COMMAND, w), ReadOf(4)][1..] == [ReadOf(4)];
    TransactAllSnoc(env, d, [], ReadOf(4));
    assert [] + [ReadOf(4)] == [ReadOf(4)];
  }

  /** An Access Register write changes the error code and nothing else. */
  lemma RegisterWriteIsDropped(env: Env, c: Core, w: Word)
    requires CmdType(w) == 0 && IsCommandWrite(Control(w))
    ensures var d := Transact(env, c, WriteOf(COMMAND, w));
            d == c.(dmi := WriteOf(COMMAND, w), dm := d.dm) &&
            d.dm == c.dm.(abstractcs := c.dm.abstractcs.(cmderr := d.dm.abstractcs.cmderr))
  {
    hide Packet, Address, Op, Data, CmdType, RegNo, Control, IsCommandWrite, GprOffset, AarSize;
    PacketFields(COMMAND, w, WRITE);
  }

  // ---------------------------------------------------------------- which reads are answered

  predicate IsReadable(a: Address7) {
    IsData(a) || a in {DMCONTROL, DMSTATUS, HARTINFO, ABSTRACTCS}
  }

  /** A read is answered, operation 0 from the same address, exactly for the readable registers, and
      then changes neither the module nor the hart; hartinfo reads zero. Any other read request stays
      in the container. */
  lemma ReadsAreAnswered(env: Env, c: Core, a: Address7)
    ensures var d := Transact(env, c, ReadOf(a));
            Address(d.dmi) == a && (Op(d.dmi) == NOP <==> IsReadable(a)) &&
            (if IsReadable(a) then d == c.(dmi := d.dmi) else d.dmi == ReadOf(a)) &&
            (a == HARTINFO ==> Data(d.dmi) == 0) && (a == DMSTATUS ==> Data(d.dmi) == DMSTATUS_VALUE)
  {
    hide Packet, Address, Op, Data, PackDmControl, PackAbstractCs, RegNo, Control;
    PacketFields(a, 0, READ);
    PacketFields(a, 0, NOP);
    PacketFields(a, DMSTATUS_VALUE, NOP);
    PacketFields(a, PackDmControl(c.dm.dmcontrol), NOP);
    PacketFields(a, PackAbstractCs(c.dm.abstractcs), NOP);
    if IsData(a) {
      PacketFields(a, c.dm.data[a - 4] % 0x1_0000_0000, NOP);
    }
  }

  // ---------------------------------------------------------------- the error code

  datatype CommandHistory = NoCommand | Last(word: Word)

  /** The command word of the last command write among the processed containers. */
  function LastCommand(env: Env, c: Core, scans: seq<DWord>, start: CommandHistory): CommandHistory
    decreases |scans|
  {
    if scans == [] then start
    else
      var x := Loaded(c, scans[0]);
      LastCommand(env, Transact(env, c, scans[0]), scans[1..], if IsWriteTo(x, COMMAND) then Last(Data(x)) else start)
  }

  /** The last command was an Access Register of 64 or 128 bits. */
  predicate IsUnsupported(h: CommandHistory) {
    h.Last? && CmdType(h.word) == 0 && AarSize(Control(h.word)) in {3, 4}
  }

  lemma TransactCmdErr(env: Env, c: Core, scan: DWord)
    ensures var x := Loaded(c, scan);
            Transact(env, c, scan).dm.abstractcs.cmderr ==
            if IsWriteTo(x, COMMAND) then (if IsUnsupported(Last(Data(x))) then 2 else 0)
            else c.dm.abstractcs.cmderr
  {
    hide PackDmControl, UnpackDmControl, PackAbstractCs, Command, Packet, Address, Op, Data, CmdType, AarSize, Control;
    var d := c.(dmi := Loaded(c, scan));
    CommandKeepsAbstractCs(env, d, Data(d.dmi));
  }

  lemma {:induction false} CmdErrHistory(env: Env, c: Core, scans: seq<DWord>, start: CommandHistory)
    requires c.dm.abstractcs.cmderr == if IsUnsupported(start) then 2 else 0
    ensures TransactAll(env, c, scans).dm.abstractcs.cmderr ==
            if IsUnsupported(LastCommand(env, c, scans, start)) then 2 else 0
    decreases |scans|
  {
    hide Transact, IsUnsupported, IsWriteTo, Data;
    if scans != [] {
      var x := Loaded(c, scans[0]);
      TransactCmdErr(env, c, scans[0]);
      var next := if IsWriteTo(x, COMMAND) then Last(Data(x)) else start;
      CmdErrHistory(env, Transact(env, c, scans[0]), scans[1..], next);
    }
  }

  lemma ReadAnswersAbstractCs(env: Env, c: Core)
    requires CoreOk(c)
    ensures Transact(env, c, ReadOf(ABSTRACTCS)).dmi == Packet(ABSTRACTCS, c.dm.abstractcs.cmderr * 0x100, NOP)
  {
    hide Packet, Address, Op, Data;
    PacketFields(ABSTRACTCS, 0, READ);
    assert c.dm.abstractcs == ABSTRACTCS_INITIAL.(cmderr := c.dm.abstractcs.cmderr);
  }

  /** On every run from power-on, reading abstractcs answers 2 in cmderr if the last command was an
      unsupported register access, 0 if not, and zero in every other field. */
  lemma AbstractCsReadBack(env: Env, cpu: Cpu, scans: seq<DWord>)
    requires forall i :: 0 <= i < |scans| ==> scans[i] < 0x200_0000_0000
    ensures var last := LastCommand(env, InitialCore(cpu), scans, NoCommand);
            TransactAll(env, InitialCore(cpu), scans + [ReadOf(ABSTRACTCS)]).dmi ==
            Packet(ABSTRACTCS, if IsUnsupported(last) then 0x200 else 0, NOP)
  {
    hide Packet, CmdType, AarSize, Control, Transact, InitialCore, CoreOk, ReadOf;
    var c := InitialCore(cpu);
    InitialCoreOk(cpu);
    CmdErrHistory(env, c, scans, NoCommand);
    TransactAllKeepsCoreOk(env, c, scans);
    TransactAllSnoc(env, c, scans, ReadOf(ABSTRACTCS));
    ReadAnswersAbstractCs(env, TransactAll(env, c, scans));
  }
}
