/**
 File flags on the wire.  The protocol's flag words are kept byte-swapped in memory, and the
 bit operations work on the swapped words directly.
 */
module RequestFlags {
  import opened Base
  import opened Endian
  import opened Bits

  // ---- bit operations on swapped words ----

  function Op2(and: bool, a: nat, b: nat): nat { if and then BitAnd(a, b) else BitOr(a, b) }

  lemma Op2Halves(and: bool, a: nat, b: nat)
    ensures Op2(and, a, b) == 2 * Op2(and, a / 2, b / 2) + Op2(and, a % 2, b % 2)
    ensures Op2(and, a % 2, b % 2) < 2
  {
    AndHalves(a, b);
    OrHalves(a, b);
    AndHalves(a % 2, b % 2);
    OrHalves(a % 2, b % 2);
    assert BitAnd(0, 0) == 0 && BitOr(0, 0) == 0;
  }

  /** The operation on words is the operation on their upper and lower parts. */
  lemma {:induction false} Op2Parts(and: bool, x: nat, u: nat, y: nat, v: nat, k: nat)
    requires u < Pow2(k) && v < Pow2(k)
    ensures Op2(and, Pow2(k) * x + u, Pow2(k) * y + v) == Pow2(k) * Op2(and, x, y) + Op2(and, u, v)
    ensures Op2(and, u, v) < Pow2(k)
  {
    if k == 0 {
      assert BitAnd(0, 0) == 0 && BitOr(0, 0) == 0;
    } else {
      Op2Parts(and, x, u / 2, y, v / 2, k - 1);
      Op2Step(and, Pow2(k - 1), x, u, y, v);
      Op2Halves(and, u, v);
    }
  }

  lemma Op2Step(and: bool, p: nat, x: nat, u: nat, y: nat, v: nat)
    requires Op2(and, p * x + u / 2, p * y + v / 2) == p * Op2(and, x, y) + Op2(and, u / 2, v / 2)
    ensures Op2(and, 2 * p * x + u, 2 * p * y + v) == 2 * p * Op2(and, x, y) + Op2(and, u, v)
  {
    Twice(p, x);
    Twice(p, y);
    Twice(p, Op2(and, x, y));
    Op2Doubled(and, p * x, u, p * y, v, p * Op2(and, x, y));
  }

  lemma Op2Doubled(and: bool, a: nat, u: nat, b: nat, v: nat, o: nat)
    requires Op2(and, a + u / 2, b + v / 2) == o + Op2(and, u / 2, v / 2)
    ensures Op2(and, 2 * a + u, 2 * b + v) == 2 * o + Op2(and, u, v)
  {
    Op2Twice(and, a, u, b, v);
    Op2Twice(and, 0, u, 0, v);
  }

  lemma Op2Twice(and: bool, a: nat, u: nat, b: nat, v: nat)
    ensures Op2(and, 2 * a + u, 2 * b + v) == 2 * Op2(and, a + u / 2, b + v / 2) + Op2(and, u % 2, v % 2)
  {
    assert (2 * a + u) / 2 == a + u / 2 && (2 * b + v) / 2 == b + v / 2;
    assert (2 * a + u) % 2 == u % 2 && (2 * b + v) % 2 == v % 2;
    Op2Halves(and, 2 * a + u, 2 * b + v);
  }

  lemma Twice(p: nat, x: nat)
    ensures 2 * p * x == 2 * (p * x)
  {
  }

  function Zip(and: bool, s: seq<byte>, t: seq<byte>): (r: seq<byte>)
    requires |s| == |t|
    ensures |r| == |s| && forall i :: 0 <= i < |r| ==> r[i] == ByteOp(and, s[i], t[i])
  {
    seq(|s|, i requires 0 <= i < |s| => ByteOp(and, s[i], t[i]))
  }

  function ByteOp(and: bool, a: byte, b: byte): byte {
    EightBits();
    Op2Parts(and, 0, a, 0, b, 8);
    Op2(and, a, b)
  }

  lemma EightBits()
    ensures Pow2(8) == 256
  {
    assert Pow2(4) == 16;
    assert Pow2(6) == 64;
  }

  lemma {:induction false} ZipNumber(and: bool, s: seq<byte>, t: seq<byte>)
    requires |s| == |t|
    ensures Number(Zip(and, s, t)) == Op2(and, Number(s), Number(t))
  {
    var z := Zip(and, s, t);
    if s == [] {
      assert BitAnd(0, 0) == 0 && BitOr(0, 0) == 0;
    } else {
      var n := |s| - 1;
      ZipNumber(and, s[..n], t[..n]);
      assert z[..n] == Zip(and, s[..n], t[..n]);
      EightBits();
      Op2Parts(and, Number(s[..n]), s[n], Number(t[..n]), t[n], 8);
    }
  }

  lemma ZipReverse(and: bool, s: seq<byte>, t: seq<byte>)
    requires |s| == |t|
    ensures Reverse(Zip(and, s, t)) == Zip(and, Reverse(s), Reverse(t))
  {
    var z, u, v, n := Zip(and, s, t), Reverse(s), Reverse(t), |s|;
    var r, w := Reverse(z), Zip(and, u, v);
    forall i | 0 <= i < n ensures r[i] == w[i] {
      assert r[i] == z[n - 1 - i] && u[i] == s[n - 1 - i] && v[i] == t[n - 1 - i];
    }
  }

  /** Operating on the stored words and converting back is operating on the values. */
  lemma StoredOp(h: Host, and: bool, a: nat, b: nat, k: nat)
    requires a < Pow256(k) && b < Pow256(k)
    ensures ToBe(h, Op2(and, ToBe(h, a, k), ToBe(h, b, k)), k) == Op2(and, a, b)
    ensures Op2(and, a, b) < Pow256(k)
  {
    var s, t := BigEndian(a, k), BigEndian(b, k);
    var z := Zip(and, s, t);
    NumberOfBytes(a, k);
    NumberOfBytes(b, k);
    ZipNumber(and, s, t);
    NumberBound(z);
    if h.Little? {
      ZipNumber(and, Reverse(s), Reverse(t));
      ZipReverse(and, s, t);
      BytesOfNumber(Reverse(z));
      ReverseTwice(z);
    }
  }

  // ---- file flags ----

  const O_NONBLOCK: nat := 0x800
  const O_RDONLY: nat := 0
  const O_WRONLY: nat := 1
  const O_RDWR: nat := 2

  const RD: nat := 1
  const WR: nat := 2
  const NONBLOCK: nat := 4

  predicate Bit(v: nat, p: nat)
    requires p > 0
  {
    v / p % 2 == 1
  }

  /** The flags as numbers: bit 0 readable, bit 1 writable, bit 2 non-blocking. */
  function WireFlags(f: nat): nat {
    (if f % 4 == 0 || f % 4 == 2 then RD else 0)
    + (if f % 4 == 1 || f % 4 == 2 then WR else 0)
    + (if Bit(f, O_NONBLOCK) then NONBLOCK else 0)
  }

  function OpenFlags(w: nat): nat {
    (if Bit(w, NONBLOCK) then O_NONBLOCK else 0)
    + (if Bit(w, RD) && Bit(w, WR) then O_RDWR else if Bit(w, WR) then O_WRONLY else O_RDONLY)
  }

  lemma Words()
    ensures Pow256(4) == 0x1_0000_0000
  {
    Widths();
  }

  /** Two different single bits or two words without common bits are or-ed by adding. */
  lemma SmallOr()
    ensures BitOr(0, 4) == 4 && BitOr(0, 1) == 1 && BitOr(4, 1) == 5
    ensures BitOr(0, 2) == 2 && BitOr(4, 2) == 6 && BitOr(1, 2) == 3 && BitOr(5, 2) == 7
  {
    OrZero(4);
    OrZero(1);
    OrZero(2);
    assert BitOr(2, 0) == 2 && BitOr(1, 0) == 1;
    assert BitOr(4, 1) == 5;
    assert BitOr(2, 1) == 3;
    assert BitOr(4, 2) == 6;
    assert BitOr(1, 2) == 3;
    assert BitOr(5, 2) == 7;
  }

  /** Or-s a flag into a stored word. */
  method Include(h: Host, word: nat, ghost value: nat, flag: nat) returns (r: nat)
    requires value < 8 && flag < 8 && word == ToBe(h, value, 4)
    ensures r == ToBe(h, BitOr(value, flag), 4)
  {
    Words();
    r := BitOr(word, ToBe(h, flag, 4));
    StoredOp(h, false, value, flag, 4);
    StoredBack(h, value, flag);
  }

  lemma StoredBack(h: Host, a: nat, b: nat)
    requires a < Pow256(4) && b < Pow256(4)
    ensures BitOr(ToBe(h, a, 4), ToBe(h, b, 4)) == ToBe(h, BitOr(a, b), 4)
  {
    BeValueKept(h, a, 4);
    BeValueKept(h, b, 4);
    StoredOp(h, false, ToBe(h, a, 4), ToBe(h, b, 4), 4);
    var stored := BitOr(ToBe(h, a, 4), ToBe(h, b, 4));
    StoredOp(h, false, a, b, 4);
    BeValueKept(h, stored, 4);
  }

  /** The stored flag word for the kernel's open flags. */
  method FromCuse(h: Host, flags: u32) returns (res: nat)
    ensures res == ToBe(h, WireFlags(flags), 4)
  {
    SmallOr();
    ghost var v := 0;
    res := ToBe(h, 0, 4);
    if flags / O_NONBLOCK % 2 == 1 {
      res := Include(h, res, v, NONBLOCK);
      v := 4;
    }
    if flags % 4 == 0 || flags % 4 == 2 {
      res := Include(h, res, v, RD);
      v := v + 1;
    }
    if flags % 4 == 1 || flags % 4 == 2 {
      res := Include(h, res, v, WR);
      v := v + 2;
    }
  }

  lemma AndBit(v: nat)
    ensures BitAnd(v, 1) != 0 <==> Bit(v, 1)
    ensures BitAnd(v, 2) != 0 <==> Bit(v, 2)
    ensures BitAnd(v, 4) != 0 <==> Bit(v, 4)
  {
    assert BitAnd(v / 2 / 2 / 2, 0) == 0 && BitAnd(v / 2 / 2, 0) == 0 && BitAnd(v / 2, 0) == 0;
    assert BitAnd(v / 2 / 2, 1) == v / 2 / 2 % 2;
    assert BitAnd(v / 2, 1) == v / 2 % 2;
    assert BitAnd(v / 2, 2) == 2 * BitAnd(v / 2 / 2, 1);
    assert v / 4 == v / 2 / 2;
  }

  /** Whether a stored word has a flag. */
  method Intersects(h: Host, word: nat, flag: nat) returns (r: bool)
    requires word < Pow256(4) && (flag == RD || flag == WR || flag == NONBLOCK)
    ensures r <==> Bit(ToBe(h, word, 4), flag)
  {
    Words();
    BeValueKept(h, word, 4);
    StoredOp(h, true, ToBe(h, word, 4), flag, 4);
    AndBit(ToBe(h, word, 4));
    r := ToBe(h, BitAnd(word, ToBe(h, flag, 4)), 4) != 0;
  }

  /** The flags that the server opens the device with. */
  method AsFfi(h: Host, word: nat) returns (res: nat)
    requires word < Pow256(4)
    ensures res == OpenFlags(ToBe(h, word, 4))
  {
    res := 0;
    var nonblock := Intersects(h, word, NONBLOCK);
    if nonblock {
      res := res + O_NONBLOCK;
    }
    var rd := Intersects(h, word, RD);
    var wr := Intersects(h, word, WR);
    if rd && wr {
      res := res + O_RDWR;
    } else if wr {
      res := res + O_WRONLY;
    } else if rd {
      res := res + O_RDONLY;
    }
  }

  /** Through the wire, the non-blocking flag is kept, and the access mode exactly if it is a valid one. */
  lemma FlagsKept(f: nat)
    ensures Bit(OpenFlags(WireFlags(f)), O_NONBLOCK) <==> Bit(f, O_NONBLOCK)
    ensures OpenFlags(WireFlags(f)) % 4 == f % 4 <==> f % 4 != 3
    ensures f % 4 == 3 ==> OpenFlags(WireFlags(f)) % 4 == O_RDONLY
    ensures Bit(WireFlags(f), NONBLOCK) <==> Bit(f, O_NONBLOCK)
  {
  }
}
