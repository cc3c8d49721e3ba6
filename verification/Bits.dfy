/** Bitwise operations on natural numbers, and bit fields packed into one word. */
module Bits {

  function Pow2(k: nat): (r: nat)
    ensures r > 0
  {
    if k == 0 then 1 else 2 * Pow2(k - 1)
  }

  function BitOr(a: nat, b: nat): nat {
    if a == 0 && b == 0 then 0
    else 2 * BitOr(a / 2, b / 2) + (if a % 2 == 1 || b % 2 == 1 then 1 else 0)
  }

  function BitAnd(a: nat, b: nat): nat {
    if a == 0 || b == 0 then 0
    else 2 * BitAnd(a / 2, b / 2) + (if a % 2 == 1 && b % 2 == 1 then 1 else 0)
  }

  function Shl(a: nat, k: nat): nat {
    if k == 0 then a else 2 * Shl(a, k - 1)
  }

  function Shr(a: nat, k: nat): nat {
    if k == 0 then a else Shr(a / 2, k - 1)
  }

  lemma {:induction false} OrHalves(a: nat, b: nat)
    ensures BitOr(a, b) / 2 == BitOr(a / 2, b / 2)
    ensures BitOr(a, b) % 2 == if a % 2 == 1 || b % 2 == 1 then 1 else 0
  {
  }

  lemma {:induction false} AndHalves(a: nat, b: nat)
    ensures BitAnd(a, b) / 2 == BitAnd(a / 2, b / 2)
    ensures BitAnd(a, b) % 2 == if a % 2 == 1 && b % 2 == 1 then 1 else 0
  {
    if a == 0 || b == 0 { assert a / 2 == 0 || b / 2 == 0; }
  }

  lemma {:induction false} OrZero(b: nat)
    ensures BitOr(0, b) == b && BitOr(b, 0) == b
  {
    if b > 0 { OrZero(b / 2); }
  }

  lemma {:induction false} OrCommutes(a: nat, b: nat)
    ensures BitOr(a, b) == BitOr(b, a)
  {
    if a > 0 || b > 0 { OrCommutes(a / 2, b / 2); }
  }

  lemma {:induction false} AndOverOr(a: nat, b: nat, m: nat)
    ensures BitAnd(BitOr(a, b), m) == BitOr(BitAnd(a, m), BitAnd(b, m))
    decreases m
  {
    if m > 0 {
      AndOverOr(a / 2, b / 2, m / 2);
      OrHalves(a, b);
      AndHalves(a, m);
      AndHalves(b, m);
      AndHalves(BitOr(a, b), m);
      OrHalves(BitAnd(a, m), BitAnd(b, m));
    }
  }

  lemma {:induction false} ShrOverOr(a: nat, b: nat, k: nat)
    ensures Shr(BitOr(a, b), k) == BitOr(Shr(a, k), Shr(b, k))
  {
    if k > 0 {
      OrHalves(a, b);
      ShrOverOr(a / 2, b / 2, k - 1);
    }
  }

  /** Shifting left by `k` and then right by `j`. */
  lemma {:induction false} ShlShr(a: nat, k: nat, j: nat)
    ensures j <= k ==> Shr(Shl(a, k), j) == Shl(a, k - j)
    ensures j >= k ==> Shr(Shl(a, k), j) == Shr(a, j - k)
  {
    if k > 0 && j > 0 {
      ShlShr(a, k - 1, j - 1);
      assert Shl(a, k) / 2 == Shl(a, k - 1);
    }
  }

  lemma {:induction false} ShrSmall(a: nat, b: nat, k: nat)
    requires a < Pow2(b) && b <= k
    ensures Shr(a, k) == 0
  {
    if k > 0 {
      if b == 0 {
        ShrSmall(0, 0, k - 1);
      } else {
        ShrSmall(a / 2, b - 1, k - 1);
      }
    }
  }

  lemma {:induction false} AndMaskAll(a: nat, b: nat)
    requires a < Pow2(b)
    ensures BitAnd(a, Pow2(b) - 1) == a
  {
    if b > 0 { AndMaskAll(a / 2, b - 1); }
  }

  /** Masking with 2p - 1 keeps the lowest bit and masks the rest with p - 1. */
  lemma MaskDoubled(a: nat, p: nat)
    requires p > 0
    ensures BitAnd(a, 2 * p - 1) == 2 * BitAnd(a / 2, p - 1) + a % 2
  {
    AndHalves(a, 2 * p - 1);
    assert (2 * p - 1) / 2 == p - 1 && (2 * p - 1) % 2 == 1;
  }

  lemma {:induction false} AndMaskNone(a: nat, d: nat, b: nat)
    requires d >= b
    ensures BitAnd(Shl(a, d), Pow2(b) - 1) == 0
  {
    if b > 0 {
      AndMaskNone(a, d - 1, b - 1);
      MaskDoubled(Shl(a, d), Pow2(b - 1));
      assert Shl(a, d) == 2 * Shl(a, d - 1);
    }
  }

  /** A number below 2^k and one shifted by `k` share no bit: or is addition. */
  lemma {:induction false} OrIsSum(a: nat, b: nat, k: nat)
    requires a < Pow2(k)
    ensures BitOr(a, Shl(b, k)) == a + Shl(b, k)
  {
    if k == 0 {
      OrZero(b);
    } else {
      OrIsSum(a / 2, b, k - 1);
    }
  }

  lemma {:induction false} ShlValue(a: nat, k: nat)
    ensures Shl(a, k) == a * Pow2(k)
  {
    if k > 0 { ShlValue(a, k - 1); }
  }

  lemma {:induction false} ShrValue(a: nat, k: nat)
    ensures Shr(a, k) == a / Pow2(k)
  {
    if k > 0 {
      ShrValue(a / 2, k - 1);
      DivTwice(a, Pow2(k - 1));
    }
  }

  lemma DivTwice(a: nat, p: nat)
    requires p > 0
    ensures a / 2 / p == a / (2 * p)
    ensures a % (2 * p) == 2 * (a / 2 % p) + a % 2
  {
    var q, r := a / 2 / p, a / 2 % p;
    assert a / 2 == p * q + r;
    assert a == (2 * p) * q + (2 * r + a % 2);
    QuotientUnique(a, 2 * p, q, 2 * r + a % 2);
  }

  lemma QuotientUnique(a: nat, p: nat, q: nat, r: nat)
    requires p > 0 && a == p * q + r && r < p
    ensures a / p == q && a % p == r
  {
    var x := a / p;
    if x > q {
      ScaleMonotone(p, q + 1, x);
    } else if x < q {
      ScaleMonotone(p, x + 1, q);
    }
  }

  lemma ScaleMonotone(p: nat, a: nat, b: nat)
    requires a <= b
    ensures p * a <= p * b
  {
  }

  /** Masking with 2^b - 1 is the remainder modulo 2^b. */
  lemma {:induction false} AndMaskMod(a: nat, b: nat)
    ensures BitAnd(a, Pow2(b) - 1) == a % Pow2(b)
  {
    if b > 0 {
      AndMaskMod(a / 2, b - 1);
      DivTwice(a, Pow2(b - 1));
      MaskDoubled(a, Pow2(b - 1));
    }
  }

  // ---- bit fields ----

  /** A field of `bits` bits that starts at bit `pos` of a 32-bit word. */
  datatype BitGeo = BitGeo(bits: nat, pos: nat) {

    /** The field that follows this one. */
    function Next(width: nat): BitGeo
      requires width <= 31 && pos + bits + width <= 32
    {
      BitGeo(width, pos + bits)
    }

    function Mask(): nat { Pow2(bits) - 1 }

    function Encode(val: nat): nat
      requires val < Pow2(bits)
    {
      Shl(val, pos)
    }

    function Decode(word: nat): nat {
      BitAnd(Shr(word, pos), Mask())
    }
  }

  /** Fields as `new` and repeated `next` build them: each starts where the one before ends. */
  ghost predicate IsChain(geos: seq<BitGeo>) {
    && (geos != [] ==> geos[0].pos == 0 && geos[0].bits <= 31)
    && forall i :: 0 < i < |geos| ==>
         && geos[i].bits <= 31
         && geos[i - 1].pos + geos[i - 1].bits + geos[i].bits <= 32
         && geos[i] == geos[i - 1].Next(geos[i].bits)
  }

  lemma {:induction false} ChainAscends(geos: seq<BitGeo>, i: nat, j: nat)
    requires IsChain(geos) && i < j < |geos|
    ensures geos[i].pos + geos[i].bits <= geos[j].pos
  {
    if i + 1 < j {
      ChainAscends(geos, i, j - 1);
    }
    assert geos[j] == geos[j - 1].Next(geos[j].bits);
  }

  lemma OtherFieldInvisible(geos: seq<BitGeo>, i: nat, j: nat, val: nat)
    requires IsChain(geos) && i < |geos| && j < |geos| && i != j && val < Pow2(geos[j].bits)
    ensures geos[i].Decode(geos[j].Encode(val)) == 0
  {
    var a, b := geos[i], geos[j];
    ShlShr(val, b.pos, a.pos);
    if i < j {
      ChainAscends(geos, i, j);
      AndMaskNone(val, b.pos - a.pos, a.bits);
    } else {
      ChainAscends(geos, j, i);
      ShrSmall(val, b.bits, a.pos - b.pos);
    }
  }

  lemma OwnFieldVisible(geo: BitGeo, val: nat)
    requires val < Pow2(geo.bits)
    ensures geo.Decode(geo.Encode(val)) == val
  {
    ShlShr(val, geo.pos, geo.pos);
    AndMaskAll(val, geo.bits);
  }

  lemma DecodeOverOr(geo: BitGeo, a: nat, b: nat)
    ensures geo.Decode(BitOr(a, b)) == BitOr(geo.Decode(a), geo.Decode(b))
  {
    ShrOverOr(a, b, geo.pos);
    AndOverOr(Shr(a, geo.pos), Shr(b, geo.pos), geo.Mask());
  }

  predicate InRange(geos: seq<BitGeo>, vals: seq<nat>) {
    |vals| == |geos| && forall i :: 0 <= i < |vals| ==> vals[i] < Pow2(geos[i].bits)
  }

  /** Fields, named by position, encoded and or-ed together in any order. */
  function Pack(geos: seq<BitGeo>, vals: seq<nat>, order: seq<nat>): nat
    requires InRange(geos, vals)
    requires forall i :: 0 <= i < |order| ==> order[i] < |geos|
  {
    if order == [] then 0
    else
      var n := |order| - 1;
      BitOr(Pack(geos, vals, order[..n]), geos[order[n]].Encode(vals[order[n]]))
  }

  /**
   Whatever chain of fields and whatever order of or-ing: decoding a field gives its value
   if the field was or-ed in, and zero otherwise.
   */
  lemma {:induction false} ChainRoundTrip(geos: seq<BitGeo>, vals: seq<nat>, order: seq<nat>, i: nat)
    requires IsChain(geos) && InRange(geos, vals) && i < |geos|
    requires forall k :: 0 <= k < |order| ==> order[k] < |geos|
    ensures geos[i].Decode(Pack(geos, vals, order)) == if i in order then vals[i] else 0
  {
    if order == [] {
      ZeroDecodes(geos[i]);
    } else {
      var n := |order| - 1;
      var j := order[n];
      ChainRoundTrip(geos, vals, order[..n], i);
      DecodeOverOr(geos[i], Pack(geos, vals, order[..n]), geos[j].Encode(vals[j]));
      OrZero(vals[i]);
      OrSame(vals[i]);
      assert i in order <==> i in order[..n] || i == j;
      if i == j { OwnFieldVisible(geos[i], vals[i]); } else { OtherFieldInvisible(geos, i, j, vals[j]); }
    }
  }

  lemma {:induction false} OrSame(a: nat)
    ensures BitOr(a, a) == a
  {
    if a > 0 { OrSame(a / 2); }
  }

  lemma ZeroDecodes(geo: BitGeo)
    ensures geo.Decode(0) == 0
  {
    ShrSmall(0, 0, geo.pos);
  }

  /** The masks of two fields of a chain never overlap, and fields end within 32 bits. */
  lemma {:induction false} ChainDisjoint(geos: seq<BitGeo>, i: nat, j: nat)
    requires IsChain(geos) && i < j < |geos|
    ensures BitAnd(Shl(geos[i].Mask(), geos[i].pos), Shl(geos[j].Mask(), geos[j].pos)) == 0
    ensures geos[j].pos + geos[j].bits <= 32
  {
    ChainAscends(geos, i, j);
    assert geos[j] == geos[j - 1].Next(geos[j].bits);
    ShiftedMasks(geos[i].bits, geos[i].pos, geos[j].Mask(), geos[j].pos);
  }

  lemma {:induction false} ShiftedMasks(bits: nat, lo: nat, mask: nat, hi: nat)
    requires lo + bits <= hi
    ensures BitAnd(Shl(Pow2(bits) - 1, lo), Shl(mask, hi)) == 0
  {
    if lo > 0 {
      ShiftedMasks(bits, lo - 1, mask, hi - 1);
      AndHalves(Shl(Pow2(bits) - 1, lo), Shl(mask, hi));
    } else {
      AndMaskNone(mask, hi, bits);
      AndCommutes(Pow2(bits) - 1, Shl(mask, hi));
    }
  }

  lemma {:induction false} AndCommutes(a: nat, b: nat)
    ensures BitAnd(a, b) == BitAnd(b, a)
    decreases a + b
  {
    if a > 0 && b > 0 { AndCommutes(a / 2, b / 2); }
  }
}
