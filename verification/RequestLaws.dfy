/** Single DMI requests spelled out in numbers: addresses, operations, register numbers and the layout of
    the command word are written as the debug specification draws them, so that the statements name none
    of the getters that carry a request out. */
module RequestLaws {
  import opened Words
  import opened Transactions
  import opened DmiLaws
  import opened DmControlFields
  import opened RegisterLaws
  import opened MemoryLaws
  import opened Target

  // ---------------------------------------------------------------- the command word

  type Half = x: int | 0 <= x < 0x1_0000

  /** The fields of an abstract command, highest first. Access Memory has its address size and its
      post-increment bit at the positions where Access Register has the register size and its own. */
  datatype CommandFields = CommandFields(
    cmdtype: Byte, virt: Bit, size: ThreeBits, post: Bit, postexec: Bit, transfer: Bit, write: Bit, regno: Half)

  function CommandWord(f: CommandFields): Word {
    f.cmdtype * 0x100_0000 + f.virt * 0x80_0000 + f.size * 0x10_0000 + f.post * 0x8_0000 +
    f.postexec * 0x4_0000 + f.transfer * 0x2_0000 + f.write * 0x1_0000 + f.regno
  }

  function OptionBits(f: CommandFields): (x: nat)
    ensures x < 0x10
  {
    f.post * 8 + f.postexec * 4 + f.transfer * 2 + f.write
  }

  /** The bits above the low 16, 17, 19 and 20 of a command word. */
  lemma CommandQuotients(f: CommandFields)
    ensures var w, h := CommandWord(f), f.cmdtype * 0x10 + f.virt * 8 + f.size;
            w / 0x1_0000 == h * 0x10 + OptionBits(f) && w % 0x1_0000 == f.regno &&
            w / 0x8_0000 == h * 2 + f.post && w / 0x10_0000 == h && w / 0x100_0000 == f.cmdtype
  {
    var w, h := CommandWord(f), f.cmdtype * 0x10 + f.virt * 8 + f.size;
    var low := OptionBits(f) - f.post * 8;
    Peel(w, 0x1_0000, h * 0x10 + OptionBits(f), f.regno);
    Peel(w, 0x8_0000, h * 2 + f.post, low * 0x1_0000 + f.regno);
    Peel(w, 0x10_0000, h, OptionBits(f) * 0x1_0000 + f.regno);
    Peel(w, 0x100_0000, f.cmdtype, (f.virt * 8 + f.size) * 0x10_0000 + OptionBits(f) * 0x1_0000 + f.regno);
  }

  /** The low 24 bits, which carry out Access Register, are the same word with command type 0. */
  lemma ControlOfWord(f: CommandFields)
    ensures Control(CommandWord(f)) == CommandWord(f.(cmdtype := 0))
  {
    Peel(CommandWord(f), 0x100_0000, f.cmdtype, CommandWord(f.(cmdtype := 0)));
  }

  lemma OptionDigits(f: CommandFields, h: nat)
    ensures (h * 0x10 + OptionBits(f)) % 2 == f.write && (h * 2 + f.post) % 2 == f.post
    ensures (f.cmdtype * 0x10 + f.virt * 8 + f.size) % 8 == f.size
  {
    hide OptionBits;
    assert OptionBits(f) == 2 * (f.post * 4 + f.postexec * 2 + f.transfer) + f.write by { OptionSum(f); }
    Peel(h * 0x10 + OptionBits(f), 2, h * 8 + f.post * 4 + f.postexec * 2 + f.transfer, f.write);
    Peel(h * 2 + f.post, 2, h, f.post);
    Peel(f.cmdtype * 0x10 + f.virt * 8 + f.size, 8, f.cmdtype * 2 + f.virt, f.size);
  }

  lemma OptionSum(f: CommandFields)
    ensures OptionBits(f) == 2 * (f.post * 4 + f.postexec * 2 + f.transfer) + f.write
  {
  }

  /** The getters find the fields where the layout puts them. */
  lemma CommandWordFields(f: CommandFields)
    ensures var w := CommandWord(f);
            CmdType(w) == f.cmdtype && AamSize(w) == f.size && AarSize(Control(w)) == f.size &&
            (PostIncrement(w) <==> f.post == 1) && RegNo(Control(w)) == f.regno &&
            (IsCommandWrite(w) <==> f.write == 1) && (IsCommandWrite(Control(w)) <==> f.write == 1)
  {
    hide CommandWord, OptionBits, Control;
    var g := f.(cmdtype := 0);
    CommandQuotients(f);
    CommandQuotients(g);
    ControlOfWord(f);
    OptionDigits(f, f.cmdtype * 0x10 + f.virt * 8 + f.size);
    OptionDigits(g, g.virt * 8 + g.size);
    assert OptionBits(g) == OptionBits(f) by { SameOptions(f, g); }
  }

  lemma SameOptions(f: CommandFields, g: CommandFields)
    requires g == f.(cmdtype := 0)
    ensures OptionBits(g) == OptionBits(f)
  {
  }

  /** Every word is a command word, so the laws below leave none out. */
  lemma EveryCommandWord(w: Word) returns (f: CommandFields)
    ensures CommandWord(f) == w
  {
    var q0, regno := Split(w, 0x1_0000);
    var q1, write := Split(q0, 2);
    var q2, transfer := Split(q1, 2);
    var q3, postexec := Split(q2, 2);
    var q4, post := Split(q3, 2);
    var q5, size := Split(q4, 8);
    var cmdtype, virt := Split(q5, 2);
    f := CommandFields(cmdtype, virt, size, post, postexec, transfer, write, regno);
  }

  // ---------------------------------------------------------------- abstract commands

  /** Access Register: a read loads data0 with the hart register, misa or dpc that the number selects, a
      write and any other number leave it; cmderr becomes 2 for 64 and 128 bits and 0 for every other size,
      and nothing else changes. */
  lemma RegisterCommand(env: Env, c: Core, f: CommandFields)
    requires f.cmdtype == 0
    ensures var request := Packet(0x17, CommandWord(f), 2);
            var d := Transact(env, c, request);
            d == c.(dmi := request, dm := d.dm) &&
            d.dm == c.dm.(abstractcs := c.dm.abstractcs.(cmderr := if f.size == 3 || f.size == 4 then 2 else 0),
                          data := c.dm.data[0 := d.dm.data[0]]) &&
            d.dm.data[0] == (if f.write == 1 then c.dm.data[0]
                             else if 0x1000 <= f.regno <= 0x101f then c.cpu.reg[f.regno - 0x1000]
                             else if f.regno == 0x301 then 0x4000_0128
                             else if f.regno == 0x7b1 then c.dm.dpc
                             else c.dm.data[0])
  {
    hide Packet, Address, Op, Data, CmdType, RegNo, Control, IsCommandWrite, GprOffset, AarSize, CommandWord;
    PacketFields(0x17, CommandWord(f), 2);
    CommandWordFields(f);
    GprOffsetExact(f.regno);
    assert c.dm.data[0 := c.dm.data[0]] == c.dm.data;
  }

  /** What the debugger is then shown in data0, whatever data its read carries. */
  lemma RegisterCommandShown(env: Env, c: Core, f: CommandFields, v: Word)
    requires f.cmdtype == 0 && f.write == 0
    ensures var d := TransactAll(env, c, [Packet(0x17, CommandWord(f), 2), Packet(4, v, 1)]);
            d.cpu == c.cpu &&
            d.dmi == Packet(4, if 0x1000 <= f.regno <= 0x101f then c.cpu.reg[f.regno - 0x1000]
                               else if f.regno == 0x301 then 0x4000_0128
                               else if f.regno == 0x7b1 then c.dm.dpc
                               else c.dm.data[0], 0)
  {
    hide Packet, Transact, CommandWord;
    RegisterCommand(env, c, f);
    var d := Transact(env, c, Packet(0x17, CommandWord(f), 2));
    DataRead(env, d, 0, v);
    TwoScans(env, c, Packet(0x17, CommandWord(f), 2), Packet(4, v, 1));
  }

  lemma TwoScans(env: Env, c: Core, a: DWord, b: DWord)
    ensures TransactAll(env, c, [a, b]) == Transact(env, Transact(env, c, a), b)
  {
    hide Transact;
    assert [a, b][1..] == [b];
    assert [b][1..] == [];
    var d := Transact(env, c, a);
    assert TransactAll(env, d, [b]) == TransactAll(env, Transact(env, d, b), []);
  }

  /** Access Memory at the address that 32-bit commands take from data1, 64-bit commands from data2 (high)
      and data3 (low), and all other sizes from the last command. The low 32 bits of the address select a
      64-KiB segment, created if it is missing, and a word in it. */
  lemma MemoryCommand(env: Env, c: Core, f: CommandFields, address: DWord, high: nat, key: Word, index: nat, low: nat)
    requires f.cmdtype == 2
    requires address == if f.size == 2 then c.dm.data[1]
                        else if f.size == 3 then c.dm.data[2] * 0x1_0000_0000 + c.dm.data[3]
                        else c.dm.arg1
    requires address == 0x1_0000_0000 * high + key + 4 * index + low
    requires key % 0x1_0000 == 0 && index < 0x4000 && low < 4
    ensures var w, m := CommandWord(f), c.cpu.segments;
            var d := Transact(env, c, Packet(0x17, w, 2));
            d == c.(dmi := Packet(0x17, w, 2), dm := d.dm, cpu := d.cpu) &&
            d.dm == c.dm.(abstractcs := c.dm.abstractcs.(cmderr := 0), arg1 := address,
                          data := c.dm.data[0 := d.dm.data[0]][1 := d.dm.data[1]]) &&
            d.cpu == c.cpu.(segments := if f.write == 1 || key in m then m else m[key := env.alloc(m, key)]) &&
            (if f.write == 1 then d.dm.data[0] == c.dm.data[0]
             else key in d.cpu.segments && d.dm.data[0] == d.cpu.segments[key][index]) &&
            d.dm.data[1] == if f.post == 0 then w else Increased(address, Increment(env, f.size))
  {
    hide Packet, Address, Op, Data, CmdType, AamSize, PostIncrement, IsCommandWrite, SegmentKey, WordIndex, CommandWord;
    PacketFields(0x17, CommandWord(f), 2);
    CommandWordFields(f);
    SegmentOf(high, key, index, low);
    assert c.dm.data[0 := c.dm.data[0]] == c.dm.data;
  }

  /** The access size in bytes. */
  function Increment(env: Env, size: ThreeBits): DWord {
    [env.oversizedShift, 2, 4, 8, 16, 32, 64, 128][size]
  }

  function Increased(address: DWord, bytes: DWord): DWord {
    (address + bytes) % 0x1_0000_0000_0000_0000
  }

  lemma SegmentOf(high: nat, key: Word, index: nat, low: nat)
    requires key % 0x1_0000 == 0 && index < 0x4000 && low < 4
    ensures var address := 0x1_0000_0000 * high + key + 4 * index + low;
            SegmentKey(address) == key && WordIndex(address) == index
  {
    var page, zero := Split(key, 0x1_0000);
    Peel(key, 0x1_0000, page, zero);
    var address := 0x1_0000_0000 * high + key + 4 * index + low;
    Peel(address, 0x1_0000, 0x1_0000 * high + page, 4 * index + low);
    Peel(0x1_0000 * high + page, 0x1_0000, high, page);
    Peel(4 * index + low, 4, index, low);
  }

  /** Every address has such parts. */
  lemma AddressParts(address: DWord) returns (high: nat, key: Word, index: nat, low: nat)
    ensures address == 0x1_0000_0000 * high + key + 4 * index + low
    ensures key % 0x1_0000 == 0 && index < 0x4000 && low < 4
  {
    var words, pages, page: nat;
    words, low := Split(address, 4);
    pages, index := Split(words, 0x4000);
    high, page := Split(pages, 0x1_0000);
    key := 0x1_0000 * page;
    Peel(key, 0x1_0000, page, 0);
  }

  /** How a debugger reads a word of memory: the address into data1, a 32-bit command, then data0; with
      post-increment data1 then shows the next address. */
  lemma MemoryReadShown(env: Env, c: Core, f: CommandFields, key: Word, index: nat, low: nat, v: Word)
    requires f.cmdtype == 2 && f.size == 2 && f.write == 0
    requires key % 0x1_0000 == 0 && index < 0x4000 && low < 4
    ensures var d := TransactAll(env, c, [Packet(5, key + 4 * index + low, 2), Packet(0x17, CommandWord(f), 2)]);
            key in d.cpu.segments && Extends(c.cpu.segments, d.cpu.segments) && d.cpu.reg == c.cpu.reg &&
            Transact(env, d, Packet(4, v, 1)).dmi == Packet(4, d.cpu.segments[key][index], 0) &&
            (f.post == 1 ==>
               Transact(env, d, Packet(5, v, 1)).dmi == Packet(5, (key + 4 * index + low + 4) % 0x1_0000_0000, 0))
  {
    hide Packet, Transact, CommandWord;
    var a := key + 4 * index + low;
    DataWrite(env, c, 1, a);
    var e := Transact(env, c, Packet(5, a, 2));
    MemoryCommand(env, e, f, a, 0, key, index, low);
    TwoScans(env, c, Packet(5, a, 2), Packet(0x17, CommandWord(f), 2));
    var d := Transact(env, e, Packet(0x17, CommandWord(f), 2));
    DataRead(env, d, 0, v);
    DataRead(env, d, 1, v);
  }

  /** Every other command type clears cmderr and does nothing else. */
  lemma OtherCommand(env: Env, c: Core, f: CommandFields)
    requires f.cmdtype != 0 && f.cmdtype != 2
    ensures var request := Packet(0x17, CommandWord(f), 2);
            Transact(env, c, request) ==
            c.(dmi := request, dm := c.dm.(abstractcs := c.dm.abstractcs.(cmderr := 0)))
  {
    hide Packet, Address, Op, Data, CmdType, AccessRegister, AccessMemory, CommandWord;
    PacketFields(0x17, CommandWord(f), 2);
    CommandWordFields(f);
  }

  // ---------------------------------------------------------------- all other requests

  /** The requests that do nothing but replace the container: operations 0 and 3 everywhere but at
      dmstatus, every operation at an unimplemented address, a write to hartinfo, and a read of the command
      register that does not select misa. */
  predicate IsInert(a: Address7, w: Word, op: Op2) {
    a != 0x11 &&
    (op == 0 || op == 3 || !(0x04 <= a <= 0x0f || a == 0x10 || a == 0x12 || a == 0x16 || a == 0x17) ||
     (a == 0x12 && op == 2) || (a == 0x17 && op == 1 && w % 0x1_0000 != 0x301))
  }

  lemma InertRequest(env: Env, c: Core, a: Address7, w: Word, op: Op2)
    requires IsInert(a, w, op) && Packet(a, w, op) != 0
    ensures Transact(env, c, Packet(a, w, op)) == c.(dmi := Packet(a, w, op))
  {
    hide Packet, Address, Op, Data;
    PacketFields(a, w, op);
    Peel(w, 0x100_0000, w / 0x100_0000, w % 0x100_0000);
    LowHalf(w);
  }

  lemma LowHalf(w: Word)
    ensures RegNo(Control(w)) == w % 0x1_0000
  {
    var f := EveryCommandWord(w);
    CommandWordFields(f);
    CommandQuotients(f);
  }

  /** Data registers: a read of data_i answers its low 32 bits, whatever data the read carries, and a write
      stores the word. */
  lemma DataRead(env: Env, c: Core, i: nat, v: Word)
    requires i < 12
    ensures Transact(env, c, Packet(4 + i, v, 1)) == c.(dmi := Packet(4 + i, c.dm.data[i] % 0x1_0000_0000, 0))
  {
    hide Packet, Address, Op, Data;
    PacketFields(4 + i, v, 1);
  }

  lemma DataWrite(env: Env, c: Core, i: nat, w: Word)
    requires i < 12
    ensures Transact(env, c, Packet(4 + i, w, 2)) ==
            c.(dmi := Packet(4 + i, w, 2), dm := c.dm.(data := c.dm.data[i := w]))
  {
    hide Packet, Address, Op, Data;
    PacketFields(4 + i, w, 2);
  }

  /** A write to dmcontrol is answered with the word it leaves (see Legal) if hasel, bit 26, or dmactive,
      bit 0, is set, and otherwise stays in the container. It steps the hart if resumereq, bit 30, is set. */
  lemma DmControlWrite(env: Env, c: Core, w: Word)
    ensures var d := Transact(env, c, Packet(0x10, w, 2));
            d.dmi == (if w / 0x400_0000 % 2 == 1 || w % 2 == 1 then Packet(0x10, Legal(w), 0)
                      else Packet(0x10, w, 2)) &&
            d.cpu == (if w / 0x4000_0000 % 2 == 1 then env.step(c.cpu) else c.cpu) &&
            d.dm == c.dm.(dmcontrol := UnpackDmControl(Legal(w)),
                          dpc := if w / 0x4000_0000 % 2 == 1 then d.cpu.pc else c.dm.dpc)
  {
    hide Packet, Address, Op, Data, PackDmControl, UnpackDmControl, Legal;
    PacketFields(0x10, w, 2);
    ControlBits(w);
    LegalFields(w);
    LegalWord(w);
  }

  /** Packing what a write leaves gives the legalised word. */
  lemma LegalWord(w: Word)
    ensures var f := UnpackDmControl(w); PackDmControl(if f.hasel == 1 then SelectHart0(f) else f) == Legal(w)
  {
    hide PackDmControl, UnpackDmControl, Legal;
    LegalFields(w);
    PackUnpack(Legal(w));
  }

  lemma DmControlRead(env: Env, c: Core, v: Word)
    ensures Transact(env, c, Packet(0x10, v, 1)) == c.(dmi := Packet(0x10, PackDmControl(c.dm.dmcontrol), 0))
  {
    hide Packet, Address, Op, Data, PackDmControl;
    PacketFields(0x10, v, 1);
  }

  /** A read of dmcontrol right after it, whatever data the read carries. */
  lemma DmControlShown(env: Env, c: Core, w: Word, v: Word)
    ensures TransactAll(env, c, [Packet(0x10, w, 2), Packet(0x10, v, 1)]).dmi == Packet(0x10, Legal(w), 0)
  {
    hide Packet, Transact, PackDmControl, UnpackDmControl, Legal;
    DmControlWrite(env, c, w);
    DmControlRead(env, Transact(env, c, Packet(0x10, w, 2)), v);
    PackUnpack(Legal(w));
    TwoScans(env, c, Packet(0x10, w, 2), Packet(0x10, v, 1));
  }

  /** dmstatus answers every operation: allresumeack (bit 17), allhalted (bit 9), authenticated (bit 7) and
      version 3. */
  lemma StatusRequest(env: Env, c: Core, w: Word, op: Op2)
    ensures Transact(env, c, Packet(0x11, w, op)) == c.(dmi := Packet(0x11, 0x2_0283, 0))
  {
    hide Packet, Address, Op, Data;
    PacketFields(0x11, w, op);
  }

  lemma HartInfoRead(env: Env, c: Core, w: Word)
    ensures Transact(env, c, Packet(0x12, w, 1)) == c.(dmi := Packet(0x12, 0, 0))
  {
    hide Packet, Address, Op, Data;
    PacketFields(0x12, w, 1);
  }

  /** In every reachable state abstractcs holds the error code at bit 8 and zeros. A read answers it; a write
      stores it in a register that nothing reads. */
  lemma AbstractCsRequest(env: Env, c: Core, w: Word)
    requires CoreOk(c)
    ensures var v := c.dm.abstractcs.cmderr * 0x100;
            Transact(env, c, Packet(0x16, w, 1)) == c.(dmi := Packet(0x16, v, 0)) &&
            Transact(env, c, Packet(0x16, w, 2)) ==
            c.(dmi := Packet(0x16, w, 2), dm := c.dm.(abstractcsContainer := v))
  {
    hide Packet, Address, Op, Data;
    PacketFields(0x16, w, 1);
    PacketFields(0x16, w, 2);
    PackedCmdErr(c.dm.abstractcs);
  }

  /** A read of the command register answers nothing; the one of misa loads data0. */
  lemma CommandRead(env: Env, c: Core, w: Word)
    requires w % 0x1_0000 == 0x301
    ensures Transact(env, c, Packet(0x17, w, 1)) ==
            c.(dmi := Packet(0x17, w, 1), dm := c.dm.(data := c.dm.data[0 := 0x4000_0128]))
  {
    hide Packet, Address, Op, Data, RegNo, Control;
    PacketFields(0x17, w, 1);
    LowHalf(w);
  }

  /** An all-zero scan is a second scan of whatever is in the container. */
  lemma ZeroScan(env: Env, c: Core)
    ensures Transact(env, c, 0) == Transact(env, c, c.dmi)
  {
    hide Process;
  }

  /** At power-on the container answers dmcontrol with dmactive set, while dmcontrol itself and the data
      registers read zero, dpc is 0x40000000 and the address of the last memory command 0. */
  lemma PowerOnReads(env: Env, cpu: Cpu, i: nat, f: CommandFields)
    requires i < 12 && f.cmdtype == 0 && f.write == 0 && f.regno == 0x7b1
    ensures var c := InitialCore(cpu);
            c.dmi == Packet(0x10, 1, 0) && c.dm.arg1 == 0 &&
            Transact(env, c, Packet(0x10, 0, 1)).dmi == Packet(0x10, 0, 0) &&
            Transact(env, c, Packet(4 + i, 0, 1)).dmi == Packet(4 + i, 0, 0) &&
            TransactAll(env, c, [Packet(0x17, CommandWord(f), 2), Packet(4, 0, 1)]).dmi == Packet(4, 0x4000_0000, 0)
  {
    hide Packet, Transact, CommandWord, InitialCore, PackDmControl;
    var c := InitialCore(cpu);
    InitialContainer(cpu);
    InitialDmControl(cpu);
    InitialData(cpu, i);
    DmControlRead(env, c, 0);
    DataRead(env, c, i, 0);
    RegisterCommandShown(env, c, f, 0);
  }

  lemma InitialContainer(cpu: Cpu)
    ensures InitialCore(cpu).dmi == Packet(0x10, 1, 0) && InitialCore(cpu).dm.dpc == 0x4000_0000
    ensures InitialCore(cpu).dm.arg1 == 0
  {
    hide Packet;
  }

  lemma InitialDmControl(cpu: Cpu)
    ensures PackDmControl(InitialCore(cpu).dm.dmcontrol) == 0
  {
    hide Packet;
  }

  lemma InitialData(cpu: Cpu, i: nat)
    requires i < 12
    ensures InitialCore(cpu).dm.data[i] == 0
  {
    hide Packet;
  }
}
