/** The dmcontrol word as its fourteen fields, and what a write makes of it. The bit fields are taken
    apart with Shr, whose definition is hidden so that the solver sees digits rather than divisions by
    large constants. */
module DmControlFields {
  import opened Words
  import opened Transactions

  /** The successive quotients whose remainders are the dmcontrol fields. */
  lemma Quotients(w: Word)
    ensures Shr(w, 2) == w / 2 && Shr(w, 4) == Shr(w, 2) / 2 && Shr(w, 8) == Shr(w, 4) / 2
    ensures Shr(w, 0x10) == Shr(w, 8) / 2 && Shr(w, 0x20) == Shr(w, 0x10) / 2 && Shr(w, 0x40) == Shr(w, 0x20) / 2
    ensures Shr(w, 0x1_0000) == Shr(w, 0x40) / 0x400 && Shr(w, 0x400_0000) == Shr(w, 0x1_0000) / 0x400
    ensures Shr(w, 0x800_0000) == Shr(w, 0x400_0000) / 2 && Shr(w, 0x1000_0000) == Shr(w, 0x800_0000) / 2
    ensures Shr(w, 0x2000_0000) == Shr(w, 0x1000_0000) / 2 && Shr(w, 0x4000_0000) == Shr(w, 0x2000_0000) / 2
    ensures Shr(w, 0x8000_0000) == Shr(w, 0x4000_0000) / 2 && Shr(w, 0x8000_0000) / 2 == 0
  {
    DivDiv(w, 2, 2);
    DivDiv(w, 4, 2);
    DivDiv(w, 8, 2);
    DivDiv(w, 0x10, 2);
    DivDiv(w, 0x20, 2);
    DivDiv(w, 0x40, 0x400);
    DivDiv(w, 0x1_0000, 0x400);
    DivDiv(w, 0x400_0000, 2);
    DivDiv(w, 0x800_0000, 2);
    DivDiv(w, 0x1000_0000, 2);
    DivDiv(w, 0x2000_0000, 2);
    DivDiv(w, 0x4000_0000, 2);
    DivDiv(w, 0x8000_0000, 2);
  }

  /** Six binary digits of q0, given as successive halves. */
  lemma SixDigits(q0: nat, q1: nat, q2: nat, q3: nat, q4: nat, q5: nat)
    requires q1 == q0 / 2 && q2 == q1 / 2 && q3 == q2 / 2 && q4 == q3 / 2 && q5 == q4 / 2
    ensures q5 / 2 * 0x40 + q5 % 2 * 0x20 + q4 % 2 * 0x10 + q3 % 2 * 8 + q2 % 2 * 4 + q1 % 2 * 2 + q0 % 2 == q0
  {
  }

  function LowPart(f: DmControl): (x: nat)
    ensures x < 0x40
  {
    f.setkeepalive * 0x20 + f.clrkeepalive * 0x10 + f.setresethaltreq * 8 + f.clrresethaltreq * 4 +
    f.ndmreset * 2 + f.dmactive
  }

  function HighPart(f: DmControl): (x: nat)
    ensures x < 0x40
  {
    f.haltreq * 0x20 + f.resumereq * 0x10 + f.hartreset * 8 + f.ackhavereset * 4 + f.ackunavail * 2 + f.hasel
  }

  lemma PackedParts(f: DmControl)
    ensures PackDmControl(f) == HighPart(f) * 0x400_0000 + f.hartsello * 0x1_0000 + f.hartselhi * 0x40 + LowPart(f)
  {
  }

  lemma PackUnpack(w: Word)
    ensures PackDmControl(UnpackDmControl(w)) == w
  {
    hide Shr;
    Quotients(w);
    SixDigits(w, w / 2, Shr(w, 4), Shr(w, 8), Shr(w, 0x10), Shr(w, 0x20));
    SixDigits(Shr(w, 0x400_0000), Shr(w, 0x800_0000), Shr(w, 0x1000_0000),
              Shr(w, 0x2000_0000), Shr(w, 0x4000_0000), Shr(w, 0x8000_0000));
  }

  lemma SixBits(h: nat, b5: Bit, b4: Bit, b3: Bit, b2: Bit, b1: Bit, b0: Bit)
    ensures var x := 0x40 * h + 0x20 * b5 + 0x10 * b4 + 8 * b3 + 4 * b2 + 2 * b1 + b0;
            x / 2 / 2 / 2 / 2 / 2 / 2 == h && x / 2 / 2 / 2 / 2 / 2 % 2 == b5 && x / 2 / 2 / 2 / 2 % 2 == b4 &&
            x / 2 / 2 / 2 % 2 == b3 && x / 2 / 2 % 2 == b2 && x / 2 % 2 == b1 && x % 2 == b0
  {
  }

  lemma LowBits(f: DmControl, h: nat)
    ensures var x := 0x40 * h + LowPart(f);
            x / 2 / 2 / 2 / 2 / 2 / 2 == h && x / 2 / 2 / 2 / 2 / 2 % 2 == f.setkeepalive &&
            x / 2 / 2 / 2 / 2 % 2 == f.clrkeepalive && x / 2 / 2 / 2 % 2 == f.setresethaltreq &&
            x / 2 / 2 % 2 == f.clrresethaltreq && x / 2 % 2 == f.ndmreset && x % 2 == f.dmactive
  {
    SixBits(h, f.setkeepalive, f.clrkeepalive, f.setresethaltreq, f.clrresethaltreq, f.ndmreset, f.dmactive);
  }

  lemma HighBits(f: DmControl)
    ensures var x := HighPart(f);
            x / 2 / 2 / 2 / 2 / 2 % 2 == f.haltreq && x / 2 / 2 / 2 / 2 % 2 == f.resumereq &&
            x / 2 / 2 / 2 % 2 == f.hartreset && x / 2 / 2 % 2 == f.ackhavereset && x / 2 % 2 == f.ackunavail &&
            x % 2 == f.hasel
  {
    SixBits(0, f.haltreq, f.resumereq, f.hartreset, f.ackhavereset, f.ackunavail, f.hasel);
  }

  lemma UnpackPack(f: DmControl)
    ensures UnpackDmControl(PackDmControl(f)) == f
  {
    hide Shr, PackDmControl, HighPart, LowPart;
    var w, high := PackDmControl(f), HighPart(f);
    PackedParts(f);
    Quotients(w);
    LowBits(f, high * 0x10_0000 + f.hartsello * 0x400 + f.hartselhi);
    Peel(Shr(w, 0x40), 0x400, high * 0x400 + f.hartsello, f.hartselhi);
    Peel(Shr(w, 0x1_0000), 0x400, high, f.hartsello);
    HighBits(f);
  }

  /** What a dmcontrol write leaves: selecting harts (bit 26) keeps hart 0 selected, so it clears
      bits 25..6, and activates the module, bit 0. */
  function Legal(w: Word): Word {
    if w / 0x400_0000 % 2 == 1 then w / 0x400_0000 * 0x400_0000 + w % 0x40 / 2 * 2 + 1 else w
  }

  lemma WordParts(w: Word)
    ensures var f := UnpackDmControl(w);
            w / 0x400_0000 == HighPart(f) && w % 0x40 == LowPart(f) &&
            w / 0x400_0000 % 2 == f.hasel && w % 2 == f.dmactive
  {
    hide Shr, PackDmControl, HighPart, LowPart;
    var f := UnpackDmControl(w);
    PackUnpack(w);
    PackedParts(f);
    HighBits(f);
    LowBits(f, 0);
    Peel(w, 0x400_0000, HighPart(f), f.hartsello * 0x1_0000 + f.hartselhi * 0x40 + LowPart(f));
    Peel(w, 0x40, HighPart(f) * 0x10_0000 + f.hartsello * 0x400 + f.hartselhi, LowPart(f));
  }

  function SelectHart0(f: DmControl): DmControl {
    f.(dmactive := 1, hartsello := 0, hartselhi := 0)
  }

  lemma SelectedPartValues(f: DmControl)
    ensures HighPart(SelectHart0(f)) == HighPart(f) && LowPart(SelectHart0(f)) == LowPart(f) - f.dmactive + 1
  {
  }

  lemma SelectedParts(f: DmControl)
    ensures PackDmControl(SelectHart0(f)) == HighPart(f) * 0x400_0000 + LowPart(f) / 2 * 2 + 1
  {
    hide PackDmControl, HighPart, LowPart;
    PackedParts(SelectHart0(f));
    SelectedPartValues(f);
    LowBits(f, 0);
  }

  /** A write stores the fields of the legalised word; writing that word again changes nothing. */
  lemma LegalFields(w: Word)
    ensures var f := UnpackDmControl(w);
            UnpackDmControl(Legal(w)) == if f.hasel == 1 then SelectHart0(f) else f
    ensures Legal(Legal(w)) == Legal(w)
  {
    hide PackDmControl, UnpackDmControl, HighPart, LowPart;
    var f := UnpackDmControl(w);
    WordParts(w);
    if f.hasel == 1 {
      SelectedParts(f);
      UnpackPack(SelectHart0(f));
      assert Legal(w) / 0x400_0000 == w / 0x400_0000;
    }
  }
}
