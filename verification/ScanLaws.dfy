/** Whole scans as the client sends them: bits in, bits out, and one update of the committed state. */
module ScanLaws {
  import opened Words
  import opened TapController
  import opened Transactions
  import opened DmiLaws
  import opened Target
  import opened StreamLaws
  import opened DelayLine

  // ---------------------------------------------------------------- what the client sends

  /** The character that writes three pin levels. */
  function Write(tck: bool, tms: bool, tdi: bool): char {
    "01234567"[(if tck then 4 else 0) + (if tms then 2 else 0) + BitValue(tdi)]
  }

  lemma WriteLevels(tck: bool, tms: bool, tdi: bool)
    ensures var c := Write(tck, tms, tdi); IsWrite(c) && Tck(c) == tck && Tms(c) == tms && Tdi(c) == tdi
  {
  }

  /** A clock cycle that only moves the TAP. */
  function Clock(tms: bool): string {
    [Write(false, tms, false), Write(true, tms, false)]
  }

  /** A clock cycle that shifts one bit and reads TDO after the falling edge. */
  function BitClock(b: bool, last: bool): string {
    [Write(false, last, b), 'R', Write(true, last, b)]
  }

  /** n clock cycles with TMS = 0. */
  function Clocks(n: nat): string {
    if n == 0 then [] else Clock(false) + Clocks(n - 1)
  }

  /** From Exit1 through n cycles in Pause back to the shift state. */
  function PauseClocks(n: nat): string {
    Clocks(n) + Clock(true) + Clock(false)
  }

  /** One bit of a scan. The last one leaves the shift state for good, and any other one may leave it for
      a pause. */
  function BitStep(b: bool, last: bool, pause: nat): string {
    BitClock(b, last || pause > 0) + (if !last && pause > 0 then PauseClocks(pause) else [])
  }

  /** The bits of a scan, with the length of the pause after each of them. */
  function BitClocks(bits: seq<bool>, pauses: seq<nat>): string
    requires |pauses| == |bits|
    decreases |bits|
  {
    if bits == [] then [] else BitStep(bits[0], |bits| == 1, pauses[0]) + BitClocks(bits[1..], pauses[1..])
  }

  function NoPauses(n: nat): (s: seq<nat>)
    ensures |s| == n
  {
    seq(n, i => 0)
  }

  /** A data scan from and to Run-Test/Idle. Every series of TAP moves ends with an idle falling edge. */
  function DrScan(bits: seq<bool>): string {
    PausedScan(bits, NoPauses(|bits|))
  }

  function PausedScan(bits: seq<bool>, pauses: seq<nat>): string
    requires |pauses| == |bits|
  {
    EnterShift() + BitClocks(bits, pauses) + LeaveShift()
  }

  function EnterShift(): string {
    Clock(true) + Clock(false) + Clock(false) + [Write(false, false, false)]
  }

  /** From Exit1 through Update back to Run-Test/Idle. */
  function LeaveShift(): string {
    Clock(true) + Clock(false) + [Write(false, false, false)]
  }

  function Chars(bits: seq<bool>): (s: string)
    ensures |s| == |bits|
  {
    seq(|bits|, i requires 0 <= i < |bits| => BitChar(bits[i]))
  }

  lemma CharAt(bits: seq<bool>, i: nat)
    requires i < |bits|
    ensures Chars(bits)[i] == BitChar(bits[i])
  {
  }

  // ---------------------------------------------------------------- single clock cycles

  function Pinned(m: Machine, tck: bool, tms: bool, tdi: bool): Machine {
    m.(tck := tck, tms := tms, tdi := tdi)
  }

  lemma RunFalling(env: Env, m: Machine, tms: bool, tdi: bool, rest: string)
    requires !m.quit
    ensures Run(env, m, [Write(false, tms, tdi)] + rest) == Run(env, FallingEdge(Pinned(m, false, tms, tdi)), rest)
  {
    hide Run, FallingEdge;
    WriteLevels(false, tms, tdi);
    RunCons(env, m, Write(false, tms, tdi), rest);
    var n := FallingEdge(Pinned(m, false, tms, tdi));
    FallingWrite(env, m, Write(false, tms, tdi));
    assert "" + Run(env, n, rest).replies == Run(env, n, rest).replies;
  }

  lemma RunRising(env: Env, m: Machine, tms: bool, tdi: bool, rest: string)
    requires !m.quit
    ensures Run(env, m, [Write(true, tms, tdi)] + rest) ==
            Run(env, OnEntry(env, Pinned(m, true, tms, tdi).(tap := Next(m.tap, tms))), rest)
  {
    hide Run, OnEntry;
    WriteLevels(true, tms, tdi);
    RunCons(env, m, Write(true, tms, tdi), rest);
    var n := OnEntry(env, Pinned(m, true, tms, tdi).(tap := Next(m.tap, tms)));
    RisingWrite(env, m, Write(true, tms, tdi));
    assert "" + Run(env, n, rest).replies == Run(env, n, rest).replies;
  }

  /** A TAP move from a state that does not shift. */
  lemma RunClock(env: Env, m: Machine, tms: bool, rest: string)
    requires !m.quit && !m.tap.ShiftDr? && !m.tap.ShiftIr?
    ensures Run(env, m, Clock(tms) + rest) ==
            Run(env, OnEntry(env, Pinned(m, true, tms, false).(tap := Next(m.tap, tms))), rest)
  {
    hide Run, OnEntry, Write, Next;
    assert Clock(tms) + rest == [Write(false, tms, false)] + ([Write(true, tms, false)] + rest);
    RunFalling(env, m, tms, false, [Write(true, tms, false)] + rest);
    RunRising(env, Pinned(m, false, tms, false), tms, false, rest);
  }

  /** Clocks with TMS = 0 in a state that they keep. */
  lemma {:induction false} RunClocks(env: Env, m: Machine, n: nat, rest: string) returns (o: Machine)
    requires !m.quit && (m.tap == RunTestIdle || m.tap == PauseDr || m.tap == PauseIr)
    ensures o == Pinned(m, o.tck, o.tms, o.tdi)
    ensures Run(env, m, Clocks(n) + rest) == Run(env, o, rest)
    decreases n
  {
    hide Run, Clock;
    if n == 0 {
      o := m;
      assert [] + rest == rest;
    } else {
      assert Clocks(n) + rest == Clock(false) + (Clocks(n - 1) + rest);
      RunClock(env, m, false, Clocks(n - 1) + rest);
      o := RunClocks(env, Pinned(m, true, false, false), n - 1, rest);
    }
  }

  /** A pause of any length between two bits changes the pins and nothing else. */
  lemma RunPause(env: Env, m: Machine, n: nat, rest: string) returns (o: Machine)
    requires !m.quit && n > 0 && (m.tap == Exit1Dr || m.tap == Exit1Ir)
    ensures o == Pinned(m, true, false, false).(tap := if m.tap == Exit1Dr then ShiftDr else ShiftIr)
    ensures Run(env, m, PauseClocks(n) + rest) == Run(env, o, rest)
  {
    hide Run, Clock;
    var leave := Clock(true) + (Clock(false) + rest);
    assert PauseClocks(n) + rest == Clock(false) + (Clocks(n - 1) + leave);
    RunClock(env, m, false, Clocks(n - 1) + leave);
    var a := Pinned(m, true, false, false).(tap := if m.tap == Exit1Dr then PauseDr else PauseIr);
    var b := RunClocks(env, a, n - 1, leave);
    RunClock(env, b, true, Clock(false) + rest);
    var c := Pinned(b, true, true, false).(tap := if m.tap == Exit1Dr then Exit2Dr else Exit2Ir);
    RunClock(env, c, false, rest);
    o := Pinned(c, true, false, false).(tap := if m.tap == Exit1Dr then ShiftDr else ShiftIr);
  }

  /** Leaving a shift state for a pause of any length and coming back shifts nothing, commits nothing and
      moves nothing but the pins. */
  lemma PauseAndReturn(env: Env, m: Machine, n: nat)
    requires !m.quit && n > 0 && (m.tap == ShiftDr || m.tap == ShiftIr)
    ensures Run(env, m, "6" + PauseClocks(n)) == Outcome(m.(tck := true, tms := false, tdi := false), "")
  {
    hide Run, PauseClocks;
    assert PauseClocks(n) + "" == PauseClocks(n);
    RunRising(env, m, true, false, PauseClocks(n));
    var a := Pinned(m, true, true, false).(tap := if m.tap == ShiftDr then Exit1Dr else Exit1Ir);
    var o := RunPause(env, a, n, "");
    RunNothing(env, o);
  }

  lemma RunNothing(env: Env, m: Machine)
    ensures Run(env, m, "") == Outcome(m, "")
  {
  }

  // ---------------------------------------------------------------- the bits of a data scan

  lemma RunBit(env: Env, m: Machine, b: bool, last: bool, rest: string) returns (k: Machine)
    requires ShiftOk(m) && m.tap == ShiftDr
    ensures var n := ShiftDrEdge(Pinned(m, false, last, b));
            ShiftOk(k) && k.tap == (if last then Exit1Dr else ShiftDr) && Commit(k) == Commit(m) &&
            Line(k) == Line(n) && k.tdo == n.tdo && k.shiftAmount == n.shiftAmount &&
            Run(env, m, BitClock(b, last) + rest) ==
            Outcome(Run(env, k, rest).machine, [BitChar(k.tdo)] + Run(env, k, rest).replies)
  {
    hide Run, Write, ShiftDrEdge, ToBits, SetPins, Enter;
    var p := Pinned(m, false, last, b);
    var n := ShiftDrEdge(p);
    var up := [Write(true, last, b)] + rest;
    assert BitClock(b, last) + rest == [Write(false, last, b)] + (['R'] + up);
    EdgeShiftsLine(p);
    RunFalling(env, m, last, b, ['R'] + up);
    RunCons(env, n, 'R', up);
    RunRising(env, n, last, b, rest);
    k := Pinned(n, true, last, b).(tap := if last then Exit1Dr else ShiftDr);
    SameLine(n, k.(tap := n.tap));
  }

  /** k is m after one falling edge in Shift-DR, but for the pins and the TAP state. */
  predicate IsAfterEdge(m: Machine, tms: bool, b: bool, k: Machine) {
    var n := ShiftDrEdge(Pinned(m, false, tms, b));
    Commit(k) == Commit(n) && Line(k) == Line(n) && k.tdo == n.tdo && k.shiftAmount == n.shiftAmount
  }

  /** A bit and the pause after it, if any. */
  lemma RunBitStep(env: Env, m: Machine, b: bool, last: bool, pause: nat, rest: string) returns (k: Machine)
    requires ShiftOk(m) && m.tap == ShiftDr
    ensures ShiftOk(k) && k.tap == (if last then Exit1Dr else ShiftDr) && IsAfterEdge(m, last || pause > 0, b, k)
    ensures Run(env, m, BitStep(b, last, pause) + rest) ==
            Outcome(Run(env, k, rest).machine, [BitChar(k.tdo)] + Run(env, k, rest).replies)
  {
    hide Run, BitClock, PauseClocks, ShiftDrEdge, ToBits;
    EdgeShiftsLine(Pinned(m, false, last || pause > 0, b));
    var pauses := if !last && pause > 0 then PauseClocks(pause) else [];
    assert BitStep(b, last, pause) + rest == BitClock(b, last || pause > 0) + (pauses + rest);
    k := RunBit(env, m, b, last || pause > 0, pauses + rest);
    if pauses == [] {
      assert pauses + rest == rest;
    }
    if !last && pause > 0 {
      var o := RunPause(env, k, pause, rest);
      SameLine(k, o.(tap := k.tap));
      k := o;
    }
  }

  /** TDO after each of the edges, numbered from n. */
  function TdoHistory(ir: Byte, tdo: bool, line: seq<bool>, n: nat, bits: seq<bool>): (s: string)
    requires line != []
    ensures |s| == |bits|
  {
    seq(|bits|, i requires 0 <= i < |bits| => BitChar(TdoAfter(ir, tdo, line, n, bits[..i + 1])))
  }

  lemma HistoryStep(ir: Byte, tdo: bool, line: seq<bool>, n: nat, bits: seq<bool>)
    requires line != [] && bits != []
    ensures var swallowed := n % 0x100 == 0;
            var tdo1 := if swallowed then ir != IR_DMI && tdo else line[0];
            var line1 := if swallowed then line else line[1..] + [bits[0]];
            TdoHistory(ir, tdo, line, n, bits) == [BitChar(tdo1)] + TdoHistory(ir, tdo1, line1, n + 1, bits[1..])
  {
    hide TdoAfter;
    var swallowed := n % 0x100 == 0;
    var tdo1 := if swallowed then ir != IR_DMI && tdo else line[0];
    var line1 := if swallowed then line else line[1..] + [bits[0]];
    var whole := TdoHistory(ir, tdo, line, n, bits);
    var rest := TdoHistory(ir, tdo1, line1, n + 1, bits[1..]);
    forall i | 0 <= i < |bits|
      ensures whole[i] == ([BitChar(tdo1)] + rest)[i]
    {
      TdoStep(ir, tdo, line, n, bits[0], bits[1..][..i]);
      assert bits[..i + 1] == [bits[0]] + bits[1..][..i];
      if i == 0 {
        NoEdges(ir, tdo1, line1, n + 1);
      }
    }
  }

  /** One bit, then the others: the delay line and the replies. */
  lemma DelayedStep(m: Machine, tms: bool, b: bool, k: Machine, n: nat, rest: seq<bool>, o: Machine)
    requires ShiftOk(m) && m.shiftAmount == n % 0x100
    requires IsAfterEdge(m, tms, b, k) && IsDelayed(k, n + 1, rest, o)
    ensures IsDelayed(m, n, [b] + rest, o)
  {
    hide ShiftDrEdge, IsDelayed, Line;
    var p := Pinned(m, false, tms, b);
    SameLine(m, p);
    SameDelayed(ShiftDrEdge(p), k, n + 1, rest, o);
    EdgeDelayed(p, n, rest, o);
    SameDelayed(m, p, n, [b] + rest, o);
  }

  lemma RepliesStep(m: Machine, tms: bool, k: Machine, n: nat, bits: seq<bool>)
    requires ShiftOk(m) && m.shiftAmount == n % 0x100 && bits != [] && IsAfterEdge(m, tms, bits[0], k)
    ensures k.shiftAmount == (n + 1) % 0x100 && k.ir == m.ir
    ensures TdoHistory(m.ir, m.tdo, Line(m), n, bits) ==
            [BitChar(k.tdo)] + TdoHistory(k.ir, k.tdo, Line(k), n + 1, bits[1..])
  {
    hide ShiftDrEdge, ToBits, TdoHistory;
    EdgeShiftsLine(Pinned(m, false, tms, bits[0]));
    SameLine(m, Pinned(m, false, tms, bits[0]));
    HistoryStep(m.ir, m.tdo, Line(m), n, bits);
  }

  lemma BitClocksStep(bits: seq<bool>, pauses: seq<nat>, rest: string)
    requires |pauses| == |bits| && bits != []
    ensures BitClocks(bits, pauses) + rest ==
            BitStep(bits[0], |bits| == 1, pauses[0]) + (BitClocks(bits[1..], pauses[1..]) + rest)
    ensures |bits| == 1 ==> BitClocks(bits[1..], pauses[1..]) + rest == rest
  {
    hide BitStep;
    var first, more := BitStep(bits[0], |bits| == 1, pauses[0]), BitClocks(bits[1..], pauses[1..]);
    assert (first + more) + rest == first + (more + rest);
    assert [] + rest == rest;
  }

  lemma {:induction false} RunBits(env: Env, m: Machine, bits: seq<bool>, pauses: seq<nat>, n: nat, rest: string)
    returns (k: Machine)
    requires ShiftOk(m) && m.tap == ShiftDr && m.shiftAmount == n % 0x100 && bits != [] && |pauses| == |bits|
    ensures k.tap == Exit1Dr && IsDelayed(m, n, bits, k)
    ensures Run(env, m, BitClocks(bits, pauses) + rest) ==
            Outcome(Run(env, k, rest).machine, TdoHistory(m.ir, m.tdo, Line(m), n, bits) + Run(env, k, rest).replies)
    decreases |bits|
  {
    hide Run, IsAfterEdge, BitStep, BitClocks, TdoHistory, IsDelayed, Line;
    var b, last, more := bits[0], |bits| == 1, BitClocks(bits[1..], pauses[1..]);
    BitClocksStep(bits, pauses, rest);
    var next := RunBitStep(env, m, b, last, pauses[0], more + rest);
    RepliesStep(m, last || pauses[0] > 0, next, n, bits);
    if last {
      k := next;
      assert bits[1..] == [];
      NothingDelayed(next, n + 1);
      NoHistory(next.ir, next.tdo, Line(next), n + 1, bits[1..]);
    } else {
      k := RunBits(env, next, bits[1..], pauses[1..], n + 1, rest);
    }
    DelayedStep(m, last || pauses[0] > 0, b, next, n, bits[1..], k);
    assert [b] + bits[1..] == bits;
  }

  lemma NoHistory(ir: Byte, tdo: bool, line: seq<bool>, n: nat, bits: seq<bool>)
    requires line != [] && bits == []
    ensures TdoHistory(ir, tdo, line, n, bits) == []
  {
  }

  lemma LastOfHistory(ir: Byte, tdo: bool, line: seq<bool>, bits: seq<bool>)
    requires line != [] && bits != []
    ensures TdoHistory(ir, tdo, line, 1, bits)[|bits| - 1] == BitChar(TdoAfter(ir, tdo, line, 1, bits))
  {
    hide TdoAfter;
    assert bits[..|bits|] == bits;
  }

  // ---------------------------------------------------------------- the scan as a whole

  function ContainerOf(k: Committed): nat {
    if k.ir == IR_IDCODE then k.idcode else if k.ir == IR_DTMCS then k.dtmcs else k.core.dmi
  }

  function ContainerBits(k: Committed): (s: seq<bool>)
    ensures |s| == Width(k.ir)
  {
    ToBits(ContainerOf(k), Width(k.ir))
  }

  /** The value that a scan leaves in the shift register: the idle edge was number 0, the bits follow
      from number 1. */
  function ScannedIn(k: Committed, bits: seq<bool>): (v: nat)
    ensures v < 0x200_0000_0000 && (k.ir != IR_DMI ==> v < 0x1_0000_0000)
  {
    var e := Effective(1, bits);
    var s := (ContainerBits(k) + e)[|e|..];
    FromBitsBound(s);
    Weights();
    FromBits(s)
  }

  function ScanReply(k: Committed, bits: seq<bool>): (s: string)
    ensures |s| == |bits|
  {
    TdoHistory(k.ir, false, ContainerBits(k), 1, bits)
  }

  lemma {:induction false} EffectiveShort(n: nat, bits: seq<bool>)
    requires 0 < n && n + |bits| <= 0x100
    ensures Effective(n, bits) == bits
    decreases |bits|
  {
    if bits != [] {
      EffectiveShort(n + 1, bits[1..]);
    }
  }

  /** A scan of up to 255 bits answers the old container, least significant bit first, followed by its
      own bits, and leaves the last of them. */
  lemma ShortScan(k: Committed, bits: seq<bool>)
    requires |bits| <= 255
    ensures Effective(1, bits) == bits
    ensures ScanReply(k, bits) == Chars((ContainerBits(k) + bits)[..|bits|])
  {
    hide ToBits, Effective, TdoHistory, Chars;
    EffectiveShort(1, bits);
    ShortHistory(k.ir, ContainerBits(k), bits);
  }

  lemma ShortHistory(ir: Byte, line: seq<bool>, bits: seq<bool>)
    requires line != [] && |bits| <= 255
    ensures TdoHistory(ir, false, line, 1, bits) == Chars((line + bits)[..|bits|])
  {
    hide TdoHistory, Chars;
    forall i | 0 <= i < |bits|
      ensures TdoHistory(ir, false, line, 1, bits)[i] == Chars((line + bits)[..|bits|])[i]
    {
      ShortReply(ir, line, bits, i);
      CharAt((line + bits)[..|bits|], i);
    }
  }

  /** The first 32 replies of a scan of any length show a 32-bit line. */
  lemma FirstReplies(ir: Byte, line: seq<bool>, bits: seq<bool>)
    requires |line| == 32 <= |bits|
    ensures TdoHistory(ir, false, line, 1, bits)[..32] == Chars(line)
  {
    hide TdoHistory, Chars;
    forall i | 0 <= i < 32
      ensures TdoHistory(ir, false, line, 1, bits)[i] == Chars(line)[i]
    {
      ShortReply(ir, line, bits, i);
      CharAt(line, i);
    }
  }

  lemma ShortReply(ir: Byte, line: seq<bool>, bits: seq<bool>, i: nat)
    requires line != [] && i < |bits| && i < 255
    ensures TdoHistory(ir, false, line, 1, bits)[i] == BitChar((line + bits)[i])
  {
    hide Effective;
    EffectiveShort(1, bits[..i + 1]);
    assert line + bits == (line + bits[..i + 1]) + bits[i + 1..];
  }

  /** What TDO was before the scan does not show. */
  lemma OldTdoIsHidden(ir: Byte, tdo: bool, line: seq<bool>, bits: seq<bool>)
    requires line != []
    ensures TdoHistory(ir, tdo, line, 1, bits) == TdoHistory(ir, false, line, 1, bits)
  {
    var a, b := TdoHistory(ir, tdo, line, 1, bits), TdoHistory(ir, false, line, 1, bits);
    forall i | 0 <= i < |bits|
      ensures a[i] == b[i]
    {
      assert Effective(1, bits[..i + 1]) != [];
    }
  }

  /** The committed state after a scan. */
  function AfterScan(env: Env, k: Committed, bits: seq<bool>): Committed {
    var v := ScannedIn(k, bits);
    if k.ir == IR_IDCODE then k.(idcode := v)
    else if k.ir == IR_DMI then k.(core := Transact(env, k.core, v))
    else k
  }

  predicate IsIdle(m: Machine) {
    m.tap == RunTestIdle && !m.quit && m.dmiShift < 0x200_0000_0000 && m.ir < 0x20 && CoreOk(m.core)
  }

  lemma AfterScanOk(env: Env, k: Committed, bits: seq<bool>)
    requires k.ir < 0x20 && CoreOk(k.core)
    ensures var a := AfterScan(env, k, bits); a.ir == k.ir && CoreOk(a.core)
  {
    hide ScannedIn, Transact, CoreOk;
    TransactKeepsCoreOk(env, k.core, ScannedIn(k, bits));
  }

  /** From Run-Test/Idle to the first shifting edge: the line holds the container. */
  lemma EnterShiftLaw(env: Env, m: Machine, rest: string) returns (k: Machine)
    requires IsIdle(m)
    ensures k.tap == ShiftDr && !k.quit && Commit(k) == Commit(m)
    ensures if Selects(m.ir) then ShiftOk(k) && k.shiftAmount == 1 && Line(k) == ContainerBits(Commit(m))
            else k.dmiShift == m.dmiShift && k.tdo == m.tdo
    ensures Run(env, m, EnterShift() + rest) == Run(env, k, rest)
  {
    hide Run, Write, ToBits, Transact, CoreOk;
    assert CoreOk(m.core) ==> m.core.dmi < 0x200_0000_0000 by { CoreOkBound(m.core); }
    var r3 := [Write(false, false, false)] + rest;
    var r2 := Clock(false) + r3;
    var r1 := Clock(false) + r2;
    assert EnterShift() + rest == Clock(true) + r1;
    var a := OnEntry(env, Pinned(m, true, true, false).(tap := SelectDrScan));
    RunClock(env, m, true, r1);
    var b := OnEntry(env, Pinned(a, true, false, false).(tap := CaptureDr));
    RunClock(env, a, false, r2);
    var c := OnEntry(env, Pinned(b, true, false, false).(tap := ShiftDr));
    RunClock(env, b, false, r3);
    RunFalling(env, c, false, false, rest);
    k := FallingEdge(Pinned(c, false, false, false));
  }

  /** From Exit1-DR through Update-DR back to Run-Test/Idle. */
  lemma LeaveShiftLaw(env: Env, m: Machine, rest: string) returns (o: Machine)
    requires !m.quit && m.tap == Exit1Dr
    ensures o.tap == RunTestIdle && !o.quit && o.dmiShift == m.dmiShift && o.tdo == m.tdo
    ensures Commit(o) == if m.ir == IR_IDCODE then Commit(m).(idcode := m.idcodeShift)
                         else if m.ir == IR_DMI then Commit(m).(core := Transact(env, m.core, m.dmiShift))
                         else Commit(m)
    ensures Run(env, m, LeaveShift() + rest) == Run(env, o, rest)
  {
    hide Run, Write, Transact;
    var r2 := [Write(false, false, false)] + rest;
    assert LeaveShift() + rest == Clock(true) + (Clock(false) + r2);
    var a := OnEntry(env, Pinned(m, true, true, false).(tap := UpdateDr));
    RunClock(env, m, true, Clock(false) + r2);
    var b := OnEntry(env, Pinned(a, true, false, false).(tap := RunTestIdle));
    RunClock(env, a, false, r2);
    RunFalling(env, b, false, false, rest);
    o := Pinned(b, false, false, false);
  }

  lemma LineValue(m: Machine, k: Committed, bits: seq<bool>)
    requires ShiftOk(m) && k.ir == m.ir
    requires var e := Effective(1, bits); Line(m) == (ContainerBits(k) + e)[|e|..]
    ensures ShiftRegister(m) == ScannedIn(k, bits)
  {
    hide ToBits, FromBits, Effective;
    Weights();
    FromToBits(ShiftRegister(m), Width(m.ir));
  }

  /** A data scan of any length, bit by bit on the pins and with any pauses between the bits, is one step
      of the committed state. */
  lemma PausedScanLaw(env: Env, m: Machine, bits: seq<bool>, pauses: seq<nat>, rest: string) returns (o: Machine)
    requires IsIdle(m) && Selects(m.ir) && bits != [] && |pauses| == |bits|
    ensures IsIdle(o) && Commit(o) == AfterScan(env, Commit(m), bits)
    ensures BitChar(o.tdo) == ScanReply(Commit(m), bits)[|bits| - 1]
    ensures Run(env, m, PausedScan(bits, pauses) + rest) ==
            Outcome(Run(env, o, rest).machine, ScanReply(Commit(m), bits) + Run(env, o, rest).replies)
  {
    hide Run, CoreOk, ToBits, ScannedIn, Transact, EnterShift, LeaveShift, BitClocks, TdoHistory, TdoAfter,
         Effective;
    var tail := LeaveShift() + rest;
    assert PausedScan(bits, pauses) + rest == EnterShift() + (BitClocks(bits, pauses) + tail);
    var a := EnterShiftLaw(env, m, BitClocks(bits, pauses) + tail);
    var b := RunBits(env, a, bits, pauses, 1, tail);
    OldTdoIsHidden(a.ir, a.tdo, Line(a), bits);
    LastOfHistory(a.ir, a.tdo, Line(a), bits);
    o := LeaveShiftLaw(env, b, rest);
    LineValue(b, Commit(m), bits);
    AfterScanOk(env, Commit(m), bits);
  }

  /** The scan without pauses. */
  lemma DrScanLaw(env: Env, m: Machine, bits: seq<bool>, rest: string) returns (o: Machine)
    requires IsIdle(m) && Selects(m.ir) && bits != []
    ensures IsIdle(o) && Commit(o) == AfterScan(env, Commit(m), bits)
    ensures BitChar(o.tdo) == ScanReply(Commit(m), bits)[|bits| - 1]
    ensures Run(env, m, DrScan(bits) + rest) ==
            Outcome(Run(env, o, rest).machine, ScanReply(Commit(m), bits) + Run(env, o, rest).replies)
  {
    hide Run, IsIdle, AfterScan, ScanReply, PausedScan;
    o := PausedScanLaw(env, m, bits, NoPauses(|bits|), rest);
  }

  // ---------------------------------------------------------------- scans that select nothing

  /** TDO, over and over. */
  function Stuck(tdo: bool, n: nat): string {
    seq(n, i => BitChar(tdo))
  }

  lemma RunUnselectedBit(env: Env, m: Machine, b: bool, last: bool, rest: string) returns (k: Machine)
    requires !Selects(m.ir) && !m.quit && m.tap == ShiftDr
    ensures k == Pinned(m, true, last, b).(tap := if last then Exit1Dr else ShiftDr)
    ensures Run(env, m, BitClock(b, last) + rest) ==
            Outcome(Run(env, k, rest).machine, [BitChar(m.tdo)] + Run(env, k, rest).replies)
  {
    hide Run, Write, SetPins, Enter;
    var n := Pinned(m, false, last, b);
    var up := [Write(true, last, b)] + rest;
    assert BitClock(b, last) + rest == [Write(false, last, b)] + (['R'] + up);
    RunFalling(env, m, last, b, ['R'] + up);
    RunCons(env, n, 'R', up);
    RunRising(env, n, last, b, rest);
    k := Pinned(n, true, last, b).(tap := if last then Exit1Dr else ShiftDr);
  }

  lemma RunUnselectedStep(env: Env, m: Machine, b: bool, last: bool, pause: nat, rest: string) returns (k: Machine)
    requires !Selects(m.ir) && !m.quit && m.tap == ShiftDr
    ensures k == Pinned(m, k.tck, k.tms, k.tdi).(tap := if last then Exit1Dr else ShiftDr)
    ensures Run(env, m, BitStep(b, last, pause) + rest) ==
            Outcome(Run(env, k, rest).machine, [BitChar(m.tdo)] + Run(env, k, rest).replies)
  {
    hide Run, BitClock, PauseClocks;
    var pauses := if !last && pause > 0 then PauseClocks(pause) else [];
    assert BitStep(b, last, pause) + rest == BitClock(b, last || pause > 0) + (pauses + rest);
    k := RunUnselectedBit(env, m, b, last || pause > 0, pauses + rest);
    if !last && pause > 0 {
      k := RunPause(env, k, pause, rest);
    } else {
      assert pauses + rest == rest;
    }
  }

  lemma {:induction false} RunUnselectedBits(env: Env, m: Machine, bits: seq<bool>, pauses: seq<nat>, rest: string)
    returns (k: Machine)
    requires !Selects(m.ir) && !m.quit && m.tap == ShiftDr && bits != [] && |pauses| == |bits|
    ensures k == Pinned(m, k.tck, k.tms, k.tdi).(tap := Exit1Dr)
    ensures Run(env, m, BitClocks(bits, pauses) + rest) ==
            Outcome(Run(env, k, rest).machine, Stuck(m.tdo, |bits|) + Run(env, k, rest).replies)
    decreases |bits|
  {
    hide Run, BitStep, BitClocks;
    var more := BitClocks(bits[1..], pauses[1..]);
    BitClocksStep(bits, pauses, rest);
    k := RunUnselectedStep(env, m, bits[0], |bits| == 1, pauses[0], more + rest);
    assert Stuck(m.tdo, |bits|) == [BitChar(m.tdo)] + Stuck(m.tdo, |bits| - 1);
    if |bits| > 1 {
      k := RunUnselectedBits(env, k, bits[1..], pauses[1..], rest);
    }
  }

  /** With an instruction that selects no register, a data scan commits nothing and shows TDO as it was. */
  lemma UnselectedScanLaw(env: Env, m: Machine, bits: seq<bool>, pauses: seq<nat>, rest: string)
    returns (o: Machine)
    requires IsIdle(m) && !Selects(m.ir) && bits != [] && |pauses| == |bits|
    ensures IsIdle(o) && Commit(o) == Commit(m) && o.tdo == m.tdo
    ensures Run(env, m, PausedScan(bits, pauses) + rest) ==
            Outcome(Run(env, o, rest).machine, Stuck(m.tdo, |bits|) + Run(env, o, rest).replies)
  {
    hide Run, CoreOk, Transact, EnterShift, LeaveShift, BitClocks, Stuck;
    var tail := LeaveShift() + rest;
    assert PausedScan(bits, pauses) + rest == EnterShift() + (BitClocks(bits, pauses) + tail);
    var a := EnterShiftLaw(env, m, BitClocks(bits, pauses) + tail);
    var b := RunUnselectedBits(env, a, bits, pauses, tail);
    o := LeaveShiftLaw(env, b, rest);
  }
}
