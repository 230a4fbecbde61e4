/** Transaction level of the target: the DMI container register, the debug module behind it, and
    the hart. One DMI scan that reaches Update-DR is one call of Transact. */
module Transactions {
  import opened Words

  // ---------------------------------------------------------------- the hart and its memory

  /** A memory segment: 65536 bytes as 16384 words. */
  type Block = b: seq<Word> | |b| == 0x4000 witness seq(0x4000, i => 0)

  /** Memory blocks by segment address; segment addresses are multiples of 65536. */
  type Segments = m: map<Word, Block> | forall k :: k in m ==> k % 0x1_0000 == 0 witness map[]

  type Registers = r: seq<Word> | |r| == 32 witness seq(32, i => 0)

  datatype Cpu = Cpu(reg: Registers, pc: Word, segments: Segments)

  /** What the target does not determine itself: the CPU emulator's single step, the contents of a
      freshly allocated block, and the result of the out-of-range shift 2 << (0u - 1). */
  datatype Env = Env(step: Cpu -> Cpu, alloc: (Segments, Word) -> Block, oversizedShift: DWord)

  // ---------------------------------------------------------------- the debug module

  type TenBits = x: int | 0 <= x < 0x400

  datatype DmControl = DmControl(
    haltreq: Bit, resumereq: Bit, hartreset: Bit, ackhavereset: Bit, ackunavail: Bit, hasel: Bit,
    hartsello: TenBits, hartselhi: TenBits, setkeepalive: Bit, clrkeepalive: Bit,
    setresethaltreq: Bit, clrresethaltreq: Bit, ndmreset: Bit, dmactive: Bit)

  type FiveBits = x: int | 0 <= x < 0x20
  type ThreeBits = x: int | 0 <= x < 8
  type FourBits = x: int | 0 <= x < 0x10

  datatype AbstractCs = AbstractCs(
    progbufsize: FiveBits, busy: Bit, relaxedpriv: Bit, cmderr: ThreeBits, datacount: FourBits)

  /** data0..data11. All are 64 bits wide in the program, but only data1 can exceed 32 bits. */
  type DataRegisters = s: seq<DWord> | |s| == 12 && forall i :: 0 <= i < 12 && i != 1 ==> s[i] < 0x1_0000_0000
    witness seq(12, i => 0)

  datatype DebugModule = DebugModule(
    dmcontrol: DmControl,
    abstractcs: AbstractCs,
    abstractcsContainer: Word,
    data: DataRegisters,
    arg1: DWord,
    dpc: Word)

  datatype Core = Core(dmi: DWord, dm: DebugModule, cpu: Cpu)

  // ---------------------------------------------------------------- DMI register layout

  type Address7 = x: int | 0 <= x < 0x80
  type Op2 = x: int | 0 <= x < 4

  const NOP: Op2 := 0
  const READ: Op2 := 1
  const WRITE: Op2 := 2

  const DMCONTROL: Address7 := 0x10
  const DMSTATUS: Address7 := 0x11
  const HARTINFO: Address7 := 0x12
  const ABSTRACTCS: Address7 := 0x16
  const COMMAND: Address7 := 0x17

  function Address(dmi: nat): Address7 {
    dmi / 0x4_0000_0000 % 0x80
  }

  function Data(dmi: nat): Word {
    dmi / 4 % 0x1_0000_0000
  }

  function Op(dmi: nat): Op2 {
    dmi % 4
  }

  function Packet(address: Address7, data: Word, op: Op2): DWord {
    address * 0x4_0000_0000 + data * 4 + op
  }

  lemma PacketFields(a: Address7, w: Word, op: Op2)
    ensures Packet(a, w, op) < 0x200_0000_0000
    ensures Address(Packet(a, w, op)) == a && Data(Packet(a, w, op)) == w && Op(Packet(a, w, op)) == op
    ensures Packet(a, w, op) == 0 <==> a == 0 && w == 0 && op == 0
  {
    PacketAddress(a, w, op);
    PacketDataAndOp(a, w, op);
    hide Address, Data, Op;
  }

  lemma PacketAddress(a: Address7, w: Word, op: Op2)
    ensures Address(Packet(a, w, op)) == a
  {
    Peel(Packet(a, w, op), 0x4_0000_0000, a, w * 4 + op);
  }

  lemma PacketDataAndOp(a: Address7, w: Word, op: Op2)
    ensures Data(Packet(a, w, op)) == w && Op(Packet(a, w, op)) == op
  {
    var quotient := a * 0x1_0000_0000 + w;
    Peel(Packet(a, w, op), 4, quotient, op);
    Peel(quotient, 0x1_0000_0000, a, w);
  }

  predicate IsData(a: Address7) {
    0x04 <= a <= 0x0f
  }

  // ---------------------------------------------------------------- dmcontrol and dmstatus

  function UnpackDmControl(w: Word): DmControl {
    DmControl(
      Shr(w, 0x8000_0000) % 2, Shr(w, 0x4000_0000) % 2, Shr(w, 0x2000_0000) % 2, Shr(w, 0x1000_0000) % 2,
      Shr(w, 0x800_0000) % 2, Shr(w, 0x400_0000) % 2, Shr(w, 0x1_0000) % 0x400, Shr(w, 0x40) % 0x400,
      Shr(w, 0x20) % 2, Shr(w, 0x10) % 2, Shr(w, 8) % 2, Shr(w, 4) % 2, Shr(w, 2) % 2, w % 2)
  }

  function PackDmControl(f: DmControl): Word {
    f.haltreq * 0x8000_0000 + f.resumereq * 0x4000_0000 + f.hartreset * 0x2000_0000 +
    f.ackhavereset * 0x1000_0000 + f.ackunavail * 0x800_0000 + f.hasel * 0x400_0000 +
    f.hartsello * 0x1_0000 + f.hartselhi * 0x40 + f.setkeepalive * 0x20 + f.clrkeepalive * 0x10 +
    f.setresethaltreq * 8 + f.clrresethaltreq * 4 + f.ndmreset * 2 + f.dmactive
  }

  /** allresumeack, allhalted, authenticated, version 3 */
  const DMSTATUS_VALUE: Word := 0x2_0000 + 0x200 + 0x80 + 3

  function PackAbstractCs(f: AbstractCs): Word {
    f.progbufsize * 0x100_0000 + f.busy * 0x1000 + f.relaxedpriv * 0x800 + f.cmderr * 0x100 + f.datacount
  }

  /** A write to dmcontrol: unpack the fields, single-step if resumereq is set, answer. */
  function WriteDmControl(env: Env, c: Core, w: Word): Core {
    var d := WithDmControl(c, UnpackDmControl(w));
    Acknowledge(if d.dm.dmcontrol.resumereq == 1 then Step(env, d) else d)
  }

  /** Hart selection leaves hart 0 of an active module selected. An inactive module (hasel and
      dmactive both 0) does not answer: the container keeps the write request. */
  function Acknowledge(c: Core): Core {
    var f := c.dm.dmcontrol;
    if f.hasel == 0 && f.dmactive == 1 then Respond(c, DMCONTROL, PackDmControl(f))
    else if f.hasel == 1 then
      var g := f.(dmactive := 1, hartsello := 0, hartselhi := 0);
      Respond(WithDmControl(c, g), DMCONTROL, PackDmControl(g))
    else c
  }

  function WithDmControl(c: Core, f: DmControl): Core {
    c.(dm := c.dm.(dmcontrol := f))
  }

  function Respond(c: Core, a: Address7, w: Word): Core {
    c.(dmi := Packet(a, w, NOP))
  }

  function Step(env: Env, c: Core): Core {
    var cpu := env.step(c.cpu);
    c.(cpu := cpu, dm := c.dm.(dpc := cpu.pc))
  }

  // ---------------------------------------------------------------- abstract commands

  const MISA: Word := 0x4000_0128

  function CmdType(w: Word): Byte { w / 0x100_0000 }
  function Control(w: Word): Word { w % 0x100_0000 }
  function RegNo(control: Word): Word { control % 0x1_0000 }
  predicate IsCommandWrite(w: Word) { w / 0x1_0000 % 2 == 1 }
  function AarSize(control: Word): ThreeBits { control / 0x10_0000 % 8 }
  function AamSize(w: Word): ThreeBits { w / 0x10_0000 % 8 }
  predicate PostIncrement(w: Word) { w / 0x8_0000 % 2 == 1 }

  function WithData(c: Core, i: nat, v: DWord): Core
    requires i < 12 && (i != 1 ==> v < 0x1_0000_0000)
  {
    c.(dm := c.dm.(data := c.dm.data[i := v]))
  }

  function WithCmdErr(c: Core, e: ThreeBits): Core {
    c.(dm := c.dm.(abstractcs := c.dm.abstractcs.(cmderr := e)))
  }

  /** A write to the command register. */
  function Command(env: Env, c: Core, w: Word): Core {
    var d := WithCmdErr(c, 0);
    if CmdType(w) == 0 then AccessRegister(d, Control(w))
    else if CmdType(w) == 2 then AccessMemory(env, d, w)
    else d
  }

  /** The register that regno - 0x1000, computed on uint32_t, selects if it is at most 31. */
  function GprOffset(regno: Word): Word {
    (regno + 0xFFFF_F000) % 0x1_0000_0000
  }

  /** Access Register reports an unsupported size but goes on; a write changes no register. */
  function AccessRegister(c: Core, control: Word): Core {
    var d := if AarSize(control) == 3 || AarSize(control) == 4 then WithCmdErr(c, 2) else c;
    if IsCommandWrite(control) then d
    else if GprOffset(RegNo(control)) <= 31 then WithData(d, 0, d.cpu.reg[GprOffset(RegNo(control))])
    else if RegNo(control) == 0x301 then WithData(d, 0, MISA)
    else if RegNo(control) == 0x7b1 then WithData(d, 0, d.dm.dpc)
    else d
  }

  function SegmentKey(address: nat): Word {
    address / 0x1_0000 % 0x1_0000 * 0x1_0000
  }

  function WordIndex(address: nat): nat {
    address % 0x1_0000 / 4
  }

  /** The word at a byte address of an existing segment; the two low address bits are ignored. */
  function WordAt(m: Segments, address: nat): Word
    requires SegmentKey(address) in m
  {
    m[SegmentKey(address)][WordIndex(address)]
  }

  /** Finds or creates a segment. */
  function Touch(env: Env, m: Segments, key: Word): Segments
    requires key % 0x1_0000 == 0
  {
    if key in m then m else m[key := env.alloc(m, key)]
  }

  /** The address operand; sizes other than 2 and 3 reuse the one of the last command. */
  function AddressOperand(dm: DebugModule, w: Word): DWord {
    if AamSize(w) == 2 then dm.data[1]
    else if AamSize(w) == 3 then dm.data[2] * 0x1_0000_0000 + dm.data[3]
    else dm.arg1
  }

  function AddressIncrement(env: Env, w: Word): DWord {
    match AamSize(w)
    case 0 => env.oversizedShift
    case 1 => 2
    case 2 => 4
    case 3 => 8
    case 4 => 16
    case 5 => 32
    case 6 => 64
    case _ => 128
  }

  function FetchWord(env: Env, c: Core, address: DWord): Core {
    var m := Touch(env, c.cpu.segments, SegmentKey(address));
    WithData(c.(cpu := c.cpu.(segments := m)), 0, WordAt(m, address))
  }

  /** Access Memory. A write stores nothing. data1 always changes: to the incremented address, or
      without post-increment to the command word itself. */
  function AccessMemory(env: Env, c: Core, w: Word): Core {
    var arg1 := AddressOperand(c.dm, w);
    var d := c.(dm := c.dm.(arg1 := arg1));
    var e := if IsCommandWrite(w) then d else FetchWord(env, d, arg1);
    WithData(e, 1, if PostIncrement(w) then (arg1 + AddressIncrement(env, w)) % 0x1_0000_0000_0000_0000 else w)
  }

  // ---------------------------------------------------------------- one DMI transaction

  function ProcessData(c: Core, a: Address7, w: Word, op: Op2): Core
    requires IsData(a)
  {
    if op == READ then Respond(c, a, c.dm.data[a - 4] % 0x1_0000_0000)
    else if op == WRITE then WithData(c, a - 4, w)
    else c
  }

  function ProcessDmControl(env: Env, c: Core, w: Word, op: Op2): Core {
    if op == READ then Respond(c, DMCONTROL, PackDmControl(c.dm.dmcontrol))
    else if op == WRITE then WriteDmControl(env, c, w)
    else c
  }

  function ProcessAbstractCs(c: Core, op: Op2): Core {
    if op == READ then Respond(c, ABSTRACTCS, PackAbstractCs(c.dm.abstractcs))
    else if op == WRITE then c.(dm := c.dm.(abstractcsContainer := PackAbstractCs(c.dm.abstractcs)))
    else c
  }

  /** Reading the command register answers nothing; it loads misa into data0 if that is selected. */
  function ProcessCommand(env: Env, c: Core, w: Word, op: Op2): Core {
    if op == READ then (if RegNo(Control(w)) == 0x301 then WithData(c, 0, MISA) else c)
    else if op == WRITE then Command(env, c, w)
    else c
  }

  /** Carries out the request in the DMI container. */
  function Process(env: Env, c: Core): Core {
    var a, w, op := Address(c.dmi), Data(c.dmi), Op(c.dmi);
    if IsData(a) then ProcessData(c, a, w, op)
    else if a == DMCONTROL then ProcessDmControl(env, c, w, op)
    else if a == DMSTATUS then Respond(c, DMSTATUS, DMSTATUS_VALUE)
    else if a == HARTINFO then (if op == READ then Respond(c, HARTINFO, 0) else c)
    else if a == ABSTRACTCS then ProcessAbstractCs(c, op)
    else if a == COMMAND then ProcessCommand(env, c, w, op)
    else c
  }

  /** The container that a scan leaves to be processed: an all-zero scan does not replace it. */
  function Loaded(c: Core, scan: DWord): DWord {
    if scan != 0 then scan else c.dmi
  }

  /** Update-DR with the DMI register selected. */
  function Transact(env: Env, c: Core, scan: DWord): Core {
    Process(env, c.(dmi := Loaded(c, scan)))
  }

  /** A series of DMI scans. */
  function TransactAll(env: Env, c: Core, scans: seq<DWord>): Core
    decreases |scans|
  {
    if scans == [] then c else TransactAll(env, Transact(env, c, scans[0]), scans[1..])
  }

  lemma {:induction false} TransactAllConcat(env: Env, c: Core, a: seq<DWord>, b: seq<DWord>)
    ensures TransactAll(env, c, a + b) == TransactAll(env, TransactAll(env, c, a), b)
    decreases |a|
  {
    if a == [] {
      assert a + b == b;
    } else {
      assert (a + b)[1..] == a[1..] + b;
      TransactAllConcat(env, Transact(env, c, a[0]), a[1..], b);
    }
  }
}
