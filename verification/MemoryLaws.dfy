/** Abstract memory accesses: the segmented memory is a flat one, and a block transfer walks it. */
module MemoryLaws {
  import opened Words
  import opened Transactions
  import opened DmiLaws
  import opened RegisterLaws

  /** Segment and index split the word-aligned low 32 bits of an address without loss. */
  lemma AddressSplit(address: nat)
    ensures SegmentKey(address) % 0x1_0000 == 0 && WordIndex(address) < 0x4000
    ensures SegmentKey(address) + 4 * WordIndex(address) == address % 0x1_0000_0000 / 4 * 4
  {
    var q, r := address / 0x1_0000, address % 0x1_0000;
    Peel(address, 0x1_0000_0000, q / 0x1_0000, q % 0x1_0000 * 0x1_0000 + r);
    Peel(q % 0x1_0000 * 0x1_0000 + r, 4, q % 0x1_0000 * 0x4000 + r / 4, r % 4);
  }

  /** Addresses of one word select the same segment and index. */
  lemma SameWord(x: nat, y: nat)
    requires x % 0x1_0000_0000 / 4 == y % 0x1_0000_0000 / 4
    ensures SegmentKey(x) == SegmentKey(y) && WordIndex(x) == WordIndex(y)
  {
    hide SegmentKey, WordIndex;
    AddressSplit(x);
    AddressSplit(y);
  }

  lemma LowOfWrapped(x: nat)
    ensures x % 0x1_0000_0000_0000_0000 % 0x1_0000_0000 == x % 0x1_0000_0000
  {
  }

  lemma WrappedSum(x: nat, y: nat)
    ensures (x % 0x1_0000_0000_0000_0000 + y) % 0x1_0000_0000_0000_0000 == (x + y) % 0x1_0000_0000_0000_0000
  {
  }

  lemma WrappedAddress(x: nat)
    ensures SegmentKey(x % 0x1_0000_0000_0000_0000) == SegmentKey(x)
    ensures WordIndex(x % 0x1_0000_0000_0000_0000) == WordIndex(x)
  {
    LowOfWrapped(x);
    SameWord(x % 0x1_0000_0000_0000_0000, x);
  }

  // ---------------------------------------------------------------- reads

  predicate IsMemoryRead(w: Word) {
    CmdType(w) == 2 && !IsCommandWrite(w)
  }

  /** A read loads the word at the address operand, in a memory that contains the old one. */
  lemma MemoryReadLoads(env: Env, c: Core, w: Word)
    requires IsMemoryRead(w)
    ensures var d := Transact(env, c, WriteOf(COMMAND, w));
            var address := AddressOperand(c.dm, w);
            SegmentKey(address) in d.cpu.segments && d.dm.data[0] == WordAt(d.cpu.segments, address) &&
            Extends(c.cpu.segments, d.cpu.segments)
  {
    hide Packet, Address, Op, Data, CmdType, AamSize, IsCommandWrite, SegmentKey, WordIndex;
    PacketFields(COMMAND, w, WRITE);
    AddressSplit(AddressOperand(c.dm, w));
  }

  /** Every memory command overwrites data1: with the next address, an access size further, or without
      post-increment with the command word. A write changes neither memory nor data0. */
  lemma MemoryCommandEffect(env: Env, c: Core, w: Word)
    requires CmdType(w) == 2
    ensures var d := Transact(env, c, WriteOf(COMMAND, w));
            var address: nat := AddressOperand(c.dm, w);
            d.dm.arg1 == address &&
            (!PostIncrement(w) ==> d.dm.data[1] == w) &&
            (PostIncrement(w) && AamSize(w) > 0 ==>
               d.dm.data[1] == (address + Pow2(AamSize(w))) % 0x1_0000_0000_0000_0000) &&
            (IsCommandWrite(w) ==> d.cpu == c.cpu && d.dm.data[0] == c.dm.data[0])
  {
    hide Packet, Address, Op, Data, CmdType, AamSize, PostIncrement, IsCommandWrite, SegmentKey, WordIndex;
    PacketFields(COMMAND, w, WRITE);
    assert Pow2(1) == 2 && Pow2(2) == 4 && Pow2(3) == 8 && Pow2(4) == 16 && Pow2(5) == 32 && Pow2(6) == 64;
  }

  /** Two reads of one word agree, whatever the contents of a created segment, as long as no resume
      request comes between them. */
  lemma ReadsAgree(env: Env, c: Core, w: Word, scans: seq<DWord>, v: Word)
    requires IsMemoryRead(w) && IsMemoryRead(v)
    ensures var first := Transact(env, c, WriteOf(COMMAND, w));
            var d := TransactAll(env, first, scans);
            Resumes(env, first, scans) == 0 &&
            AddressOperand(d.dm, v) % 0x1_0000_0000 / 4 == AddressOperand(c.dm, w) % 0x1_0000_0000 / 4 ==>
              Transact(env, d, WriteOf(COMMAND, v)).dm.data[0] == first.dm.data[0]
  {
    hide Transact, IsMemoryRead, AddressOperand, SegmentKey, WordIndex;
    var first := Transact(env, c, WriteOf(COMMAND, w));
    var d := TransactAll(env, first, scans);
    MemoryReadLoads(env, c, w);
    StepHistory(env, first, scans);
    MemoryReadLoads(env, d, v);
    if AddressOperand(d.dm, v) % 0x1_0000_0000 / 4 == AddressOperand(c.dm, w) % 0x1_0000_0000 / 4 {
      SameWord(AddressOperand(d.dm, v), AddressOperand(c.dm, w));
    }
  }

  // ---------------------------------------------------------------- block transfers

  /** A 32-bit access that increments its address. */
  predicate IsBlockCommand(w: Word) {
    CmdType(w) == 2 && AamSize(w) == 2 && PostIncrement(w)
  }

  /** The scans of a block transfer: each command, and after it a read of data0. */
  function BlockScans(ws: seq<Word>): seq<DWord>
    decreases |ws|
  {
    if ws == [] then []
    else BlockScans(ws[..|ws| - 1]) + [WriteOf(COMMAND, ws[|ws| - 1]), ReadOf(4)]
  }

  lemma BlockStep(env: Env, c: Core, w: Word)
    requires IsBlockCommand(w)
    ensures var d := TransactAll(env, c, [WriteOf(COMMAND, w), ReadOf(4)]);
            var address: nat := c.dm.data[1];
            d.dm.data[1] == (address + 4) % 0x1_0000_0000_0000_0000 &&
            d.cpu.reg == c.cpu.reg && d.cpu.pc == c.cpu.pc && Extends(c.cpu.segments, d.cpu.segments) &&
            (!IsCommandWrite(w) ==> SegmentKey(address) in d.cpu.segments &&
                                    d.dmi == Packet(4, WordAt(d.cpu.segments, address), NOP)) &&
            (IsCommandWrite(w) ==> d.cpu == c.cpu && d.dmi == Packet(4, c.dm.data[0] % 0x1_0000_0000, NOP))
  {
    hide Packet, Address, Op, Data, CmdType, AamSize, PostIncrement, IsCommandWrite, SegmentKey, WordIndex;
    PacketFields(COMMAND, w, WRITE);
    var d := Transact(env, c, WriteOf(COMMAND, w));
    AddressSplit(c.dm.data[1]);
    assert [WriteOf(COMMAND, w), ReadOf(4)] == [WriteOf(COMMAND, w)] + [ReadOf(4)];
    assert TransactAll(env, c, [WriteOf(COMMAND, w)]) == d by { TransactAllSnoc(env, c, [], WriteOf(COMMAND, w)); }
    TransactAllSnoc(env, c, [WriteOf(COMMAND, w)], ReadOf(4));
    ReadAnswersData(env, d, 4);
  }

  /** A block transfer of n commands from address a in data1, reads and writes mixed, leaves a + 4n
      in data1 and changes no register and no existing word; its last command, if a read, answers
      the word at a + 4(n - 1). */
  lemma {:induction false} BlockEnd(env: Env, c: Core, ws: seq<Word>)
    requires forall i :: 0 <= i < |ws| ==> IsBlockCommand(ws[i])
    ensures var d := TransactAll(env, c, BlockScans(ws));
            var n := |ws|;
            d.dm.data[1] == (c.dm.data[1] as int + 4 * n) % 0x1_0000_0000_0000_0000 &&
            d.cpu.reg == c.cpu.reg && d.cpu.pc == c.cpu.pc && Extends(c.cpu.segments, d.cpu.segments) &&
            (n > 0 && !IsCommandWrite(ws[n - 1]) ==>
               var address: nat := c.dm.data[1] + 4 * (n - 1);
               SegmentKey(address) in d.cpu.segments && d.dmi == Packet(4, WordAt(d.cpu.segments, address), NOP))
    decreases |ws|
  {
    hide Transact, Packet, IsBlockCommand, IsCommandWrite, SegmentKey, WordIndex, WriteOf, ReadOf;
    if ws != [] {
      var n := |ws| - 1;
      BlockEnd(env, c, ws[..n]);
      TransactAllConcat(env, c, BlockScans(ws[..n]), [WriteOf(COMMAND, ws[n]), ReadOf(4)]);
      BlockStep(env, TransactAll(env, c, BlockScans(ws[..n])), ws[n]);
      WrappedAddress(c.dm.data[1] + 4 * n);
      WrappedSum(c.dm.data[1] + 4 * n, 4);
    }
  }

  lemma {:induction false} BlockMemoryGrows(env: Env, c: Core, ws: seq<Word>, k: nat)
    requires k <= |ws| && forall i :: 0 <= i < |ws| ==> IsBlockCommand(ws[i])
    ensures Extends(TransactAll(env, c, BlockScans(ws[..k])).cpu.segments,
                    TransactAll(env, c, BlockScans(ws)).cpu.segments)
    decreases |ws|
  {
    hide Transact, Packet, IsBlockCommand, IsCommandWrite, SegmentKey, WordIndex, WriteOf, ReadOf;
    var n := |ws| - 1;
    if k <= n {
      BlockMemoryGrows(env, c, ws[..n], k);
      assert ws[..n][..k] == ws[..k];
      TransactAllConcat(env, c, BlockScans(ws[..n]), [WriteOf(COMMAND, ws[n]), ReadOf(4)]);
      BlockStep(env, TransactAll(env, c, BlockScans(ws[..n])), ws[n]);
    } else {
      assert ws[..k] == ws;
    }
  }

  /** The k-th command of a block transfer, if a read, answers the word that the memory holds at
      a + 4k (mod 2^32) when the whole transfer is over. */
  lemma BlockTransfer(env: Env, c: Core, ws: seq<Word>, k: nat)
    requires k < |ws| && forall i :: 0 <= i < |ws| ==> IsBlockCommand(ws[i])
    requires !IsCommandWrite(ws[k])
    ensures var m := TransactAll(env, c, BlockScans(ws)).cpu.segments;
            var address: nat := c.dm.data[1] + 4 * k;
            SegmentKey(address) in m &&
            TransactAll(env, c, BlockScans(ws[..k + 1])).dmi == Packet(4, WordAt(m, address), NOP)
  {
    hide Transact, Packet, IsBlockCommand, IsCommandWrite, SegmentKey, WordIndex, BlockScans, TransactAll;
    BlockEnd(env, c, ws[..k + 1]);
    BlockMemoryGrows(env, c, ws, k + 1);
  }

  /** After a block transfer, reading data1 answers a + 4n (mod 2^32). */
  lemma BlockAddressReadBack(env: Env, c: Core, ws: seq<Word>)
    requires forall i :: 0 <= i < |ws| ==> IsBlockCommand(ws[i])
    ensures TransactAll(env, c, BlockScans(ws) + [ReadOf(5)]).dmi ==
            Packet(5, (c.dm.data[1] as int + 4 * |ws|) % 0x1_0000_0000, NOP)
  {
    hide Transact, Packet, IsBlockCommand, BlockScans, ReadOf, WriteOf, SegmentKey, WordIndex, IsCommandWrite, Extends;
    BlockEnd(env, c, ws);
    TransactAllSnoc(env, c, BlockScans(ws), ReadOf(5));
    ReadAnswersData(env, TransactAll(env, c, BlockScans(ws)), 5);
    var x: nat := c.dm.data[1] as int + 4 * |ws|;
    LowOfWrapped(x);
  }
}
