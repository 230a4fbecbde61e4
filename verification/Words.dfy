/** Fixed-width words of the target, and their view as bit sequences (least significant bit first).
    C++ unsigned types become subset types of int; wrap-around is written out where it happens. */
module Words {

  type Bit = x: int | 0 <= x < 2
  type Byte = x: int | 0 <= x < 0x100
  type Word = x: int | 0 <= x < 0x1_0000_0000
  type DWord = x: int | 0 <= x < 0x1_0000_0000_0000_0000

  function Pow2(n: nat): (p: nat)
    ensures p > 0
  {
    if n == 0 then 1 else 2 * Pow2(n - 1)
  }

  function BitValue(b: bool): nat {
    if b then 1 else 0
  }

  /** The low w bits of x. */
  function ToBits(x: nat, w: nat): (s: seq<bool>)
    ensures |s| == w
  {
    if w == 0 then [] else [x % 2 == 1] + ToBits(x / 2, w - 1)
  }

  lemma FirstBit(x: nat, w: nat)
    requires w > 0
    ensures ToBits(x, w)[0] == (x % 2 == 1)
  {
  }

  function FromBits(s: seq<bool>): nat {
    if s == [] then 0 else BitValue(s[0]) + 2 * FromBits(s[1..])
  }

  /** x >> k, for weight = 2^k. */
  function Shr(x: nat, weight: nat): nat
    requires weight > 0
  {
    x / weight
  }

  /** One step of a shift register: x >> 1, then OR b into the bit of weight top. */
  function ShiftIn(x: nat, top: nat, b: bool): (y: nat)
    requires top > 0
    ensures x / 2 <= y <= x / 2 + top
  {
    if b && x / 2 / top % 2 == 0 then x / 2 + top else x / 2
  }

  lemma {:induction false} FromBitsBound(s: seq<bool>)
    ensures FromBits(s) < Pow2(|s|)
  {
    if s != [] {
      FromBitsBound(s[1..]);
    }
  }

  lemma {:induction false} FromToBits(x: nat, w: nat)
    requires x < Pow2(w)
    ensures FromBits(ToBits(x, w)) == x
  {
    if w > 0 {
      FromToBits(x / 2, w - 1);
      assert ToBits(x, w)[1..] == ToBits(x / 2, w - 1);
    }
  }

  lemma {:induction false} ToFromBits(s: seq<bool>)
    ensures ToBits(FromBits(s), |s|) == s
  {
    if s != [] {
      ToFromBits(s[1..]);
    }
  }

  lemma {:induction false} ToBitsAppend(y: nat, w: nat, b: bool)
    requires y < Pow2(w)
    ensures ToBits(y + BitValue(b) * Pow2(w), w + 1) == ToBits(y, w) + [b]
  {
    var x := y + BitValue(b) * Pow2(w);
    if w > 0 {
      assert BitValue(b) * Pow2(w) == 2 * (BitValue(b) * Pow2(w - 1));
      ToBitsAppend(y / 2, w - 1, b);
    } else {
      assert ToBits(x / 2, 0) == [];
    }
  }

  lemma {:induction false} ToBitsConcat(low: nat, high: nat, w: nat, v: nat)
    requires low < Pow2(w)
    ensures ToBits(low + Pow2(w) * high, w + v) == ToBits(low, w) + ToBits(high, v)
  {
    if w == 0 {
      assert ToBits(low, 0) + ToBits(high, v) == ToBits(high, v);
    } else {
      var x := low + Pow2(w) * high;
      assert Pow2(w) * high == 2 * (Pow2(w - 1) * high);
      assert x % 2 == low % 2 && x / 2 == low / 2 + Pow2(w - 1) * high;
      ToBitsConcat(low / 2, high, w - 1, v);
    }
  }

  /** A w-bit register that shifts is a w-deep delay line: the oldest bit leaves, b enters. */
  lemma ShiftInBits(x: nat, w: nat, b: bool)
    requires w > 0 && x < Pow2(w)
    ensures ShiftIn(x, Pow2(w - 1), b) < Pow2(w)
    ensures ToBits(ShiftIn(x, Pow2(w - 1), b), w) == ToBits(x, w)[1..] + [b]
  {
    var y, top := x / 2, Pow2(w - 1);
    assert y < top;
    assert y / top == 0;
    ToBitsAppend(y, w - 1, b);
  }

  lemma Weights()
    ensures Pow2(4) == 0x10 && Pow2(5) == 0x20
    ensures Pow2(31) == 0x8000_0000 && Pow2(32) == 0x1_0000_0000
    ensures Pow2(40) == 0x100_0000_0000 && Pow2(41) == 0x200_0000_0000
  {
    assert Pow2(8) == 0x100;
    assert Pow2(16) == 0x1_0000;
    assert Pow2(24) == 0x100_0000;
  }

  // ---------------------------------------------------------------- division by constants

  lemma DivDiv(x: nat, p: nat, q: nat)
    requires p > 0 && q > 0
    ensures x / p / q == x / (p * q)
  {
    var z, r := x / p / q, p * (x / p % q) + x % p;
    assert p * (x / p % q) <= p * (q - 1);
    assert x == p * (q * z + x / p % q) + x % p == (p * q) * z + r;
    Unique(p * q, x / (p * q), x % (p * q), z, r);
  }

  lemma Unique(d: nat, q: int, r: int, z: int, t: int)
    requires d * q + r == d * z + t && 0 <= r < d && 0 <= t < d
    ensures q == z
  {
    assert d * (q - z) == t - r;
    if q > z {
      Multiple(d, q - z);
    } else if z > q {
      assert d * (z - q) == r - t;
      Multiple(d, z - q);
    }
  }

  lemma {:induction false} Multiple(d: nat, k: nat)
    ensures k > 0 ==> d * k >= d
  {
    if k > 0 {
      Multiple(d, k - 1);
    }
  }

  lemma Peel(x: nat, base: nat, h: nat, digit: nat)
    requires x == base * h + digit && digit < base
    ensures x / base == h && x % base == digit
  {
    Unique(base, x / base, x % base, h, digit);
  }

  lemma Split(x: nat, base: nat) returns (h: nat, digit: nat)
    requires base > 0
    ensures x == base * h + digit && digit < base
  {
    h, digit := x / base, x % base;
  }
}
