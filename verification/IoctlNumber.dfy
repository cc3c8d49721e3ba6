/**
 ioctl command numbers: the field layout of asm-generic/ioctl.h, the terminal commands, and
 the fix-up table for historic commands whose numbers carry neither direction nor size.
 */
module IoctlNumber {
  import opened Base
  import opened Bits

  const NR: BitGeo := BitGeo(8, 0)
  const TYPE: BitGeo := NR.Next(8)
  const SIZE: BitGeo := TYPE.Next(14)
  const DIR: BitGeo := SIZE.Next(2)
  const LAYOUT: seq<BitGeo> := [NR, TYPE, SIZE, DIR]

  const DIR_NONE: nat := 0
  const DIR_WRITE: nat := 1
  const DIR_READ: nat := 2

  const TERMIOS_SZ: nat := 36
  const TERMIOS2_SZ: nat := 44
  const INT_SZ: nat := 4

  predicate Encodable(dir: nat, tp: nat, nr: nat, sz: nat) {
    dir < 4 && tp < 0x100 && nr < 0x100 && sz < 0x4000
  }

  lemma LayoutWidths()
    ensures Pow2(2) == 4 && Pow2(8) == 0x100 && Pow2(14) == 0x4000 && Pow2(16) == 0x1_0000
    ensures Pow2(30) == 0x4000_0000 && Pow2(32) == 0x1_0000_0000
    ensures IsChain(LAYOUT)
  {
    assert Pow2(10) == 0x400 && Pow2(20) == 0x10_0000;
  }

  /** The four fields encoded and or-ed, as the source composes a number. */
  function OredIoc(dir: nat, tp: nat, nr: nat, sz: nat): nat
    requires Encodable(dir, tp, nr, sz)
  {
    LayoutWidths();
    BitOr(BitOr(BitOr(DIR.Encode(dir), TYPE.Encode(tp)), NR.Encode(nr)), SIZE.Encode(sz))
  }

  /** The same number as a sum; `IocIsOred` shows that both agree. */
  function IOC(dir: nat, tp: nat, nr: nat, sz: nat): nat {
    dir * 0x4000_0000 + sz * 0x1_0000 + tp * 0x100 + nr
  }

  // Accessors by division; `FieldsAreDecoded` shows that they are the bit-field decoders.
  function GetType(cmd: nat): nat { cmd / 0x100 % 0x100 }
  function GetNr(cmd: nat): nat { cmd % 0x100 }
  function GetSize(cmd: nat): nat { cmd / 0x1_0000 % 0x4000 }
  function GetDir(cmd: nat): nat { cmd / 0x4000_0000 % 4 }

  /** A command number taken apart. */
  datatype Fields = Fields(dir: nat, size: nat, tp: nat, nr: nat) {
    predicate IsRead() { dir >= 2 }
    predicate IsWrite() { dir % 2 == 1 }
  }

  function Split(cmd: nat): Fields {
    Fields(GetDir(cmd), GetSize(cmd), GetType(cmd), GetNr(cmd))
  }

  lemma ShrByDivision(a: nat, k: nat, p: nat)
    requires p == Pow2(k)
    ensures Shr(a, k) == a / p
  {
    ShrValue(a, k);
  }

  /** For every number the accessors are what the bit fields of the layout decode. */
  lemma FieldsAreDecoded(cmd: nat)
    ensures GetType(cmd) == TYPE.Decode(cmd) && GetNr(cmd) == NR.Decode(cmd)
    ensures GetSize(cmd) == SIZE.Decode(cmd) && GetDir(cmd) == DIR.Decode(cmd)
    ensures Split(cmd).IsRead() <==> BitAnd(DIR.Decode(cmd), DIR_READ) != 0
    ensures Split(cmd).IsWrite() <==> BitAnd(DIR.Decode(cmd), DIR_WRITE) != 0
  {
    LayoutWidths();
    ShrByDivision(cmd, 8, 0x100);
    ShrByDivision(cmd, 16, 0x1_0000);
    ShrByDivision(cmd, 30, 0x4000_0000);
    AndMaskMod(cmd, 8);
    AndMaskMod(cmd / 0x100, 8);
    AndMaskMod(cmd / 0x1_0000, 14);
    AndMaskMod(cmd / 0x4000_0000, 2);
    DirectionBits(GetDir(cmd));
  }

  /** Every field of a composed number reads back as given: by the layout, through the or. */
  lemma OredFields(dir: nat, tp: nat, nr: nat, sz: nat)
    requires Encodable(dir, tp, nr, sz)
    ensures var c := OredIoc(dir, tp, nr, sz);
            TYPE.Decode(c) == tp && NR.Decode(c) == nr && SIZE.Decode(c) == sz && DIR.Decode(c) == dir
  {
    LayoutWidths();
    var vals := [nr, tp, sz, dir];
    var order := [3, 1, 0, 2];
    PackIsIoc(dir, tp, nr, sz);
    ChainRoundTrip(LAYOUT, vals, order, 0);
    ChainRoundTrip(LAYOUT, vals, order, 1);
    ChainRoundTrip(LAYOUT, vals, order, 2);
    ChainRoundTrip(LAYOUT, vals, order, 3);
    assert order[2] == 0 && order[1] == 1 && order[3] == 2 && order[0] == 3;
  }

  lemma PackSnoc(vals: seq<nat>, order: seq<nat>, j: nat)
    requires InRange(LAYOUT, vals) && j < |LAYOUT|
    requires forall i :: 0 <= i < |order| ==> order[i] < |LAYOUT|
    ensures Pack(LAYOUT, vals, order + [j]) == BitOr(Pack(LAYOUT, vals, order), LAYOUT[j].Encode(vals[j]))
  {
    assert (order + [j])[..|order|] == order;
  }

  lemma PackFour(vals: seq<nat>, a: nat, b: nat, c: nat, d: nat)
    requires InRange(LAYOUT, vals) && a < |LAYOUT| && b < |LAYOUT| && c < |LAYOUT| && d < |LAYOUT|
    ensures Pack(LAYOUT, vals, [a, b, c, d])
            == BitOr(BitOr(BitOr(LAYOUT[a].Encode(vals[a]), LAYOUT[b].Encode(vals[b])),
                           LAYOUT[c].Encode(vals[c])),
                     LAYOUT[d].Encode(vals[d]))
  {
    PackSnoc(vals, [], a);
    OrZero(LAYOUT[a].Encode(vals[a]));
    assert [] + [a] == [a];
    PackSnoc(vals, [a], b);
    PackSnoc(vals, [a, b], c);
    PackSnoc(vals, [a, b, c], d);
    assert [a] + [b] == [a, b] && [a, b] + [c] == [a, b, c] && [a, b, c] + [d] == [a, b, c, d];
  }

  lemma PackIsIoc(dir: nat, tp: nat, nr: nat, sz: nat)
    requires Encodable(dir, tp, nr, sz)
    ensures InRange(LAYOUT, [nr, tp, sz, dir])
    ensures Pack(LAYOUT, [nr, tp, sz, dir], [3, 1, 0, 2]) == OredIoc(dir, tp, nr, sz)
  {
    LayoutWidths();
    PackFour([nr, tp, sz, dir], 3, 1, 0, 2);
  }

  lemma DirectionBits(dir: nat)
    requires dir < 4
    ensures BitAnd(dir, DIR_READ) != 0 <==> dir >= 2
    ensures BitAnd(dir, DIR_WRITE) != 0 <==> dir % 2 == 1
  {
    assert dir == 0 || dir == 1 || dir == 2 || dir == 3;
    assert BitAnd(1, 1) == 1;
    assert BitAnd(2, 2) == 2;
    assert BitAnd(3, 2) == 2;
    assert BitAnd(1, 2) == 0;
  }

  /** Or-ing the encoded fields is adding them. */
  lemma IocIsOred(dir: nat, tp: nat, nr: nat, sz: nat)
    requires Encodable(dir, tp, nr, sz)
    ensures IOC(dir, tp, nr, sz) == OredIoc(dir, tp, nr, sz)
  {
    LayoutWidths();
    var d, t, s := Shl(dir, 30), Shl(tp, 8), Shl(sz, 16);
    ShlValue(dir, 30);
    ShlValue(tp, 8);
    ShlValue(sz, 16);
    OrIsSum(t, dir, 30);
    OrCommutes(d, t);
    var high := dir * 0x40_0000 + tp;
    ShlValue(high, 8);
    OrIsSum(nr, high, 8);
    OrCommutes(d + t, nr);
    assert BitOr(BitOr(d, t), nr) == d + t + nr;
    OrMiddle(t + nr, sz, dir);
  }

  /** Or-ing a field between a low part and a high part. */
  lemma OrMiddle(low: nat, sz: nat, dir: nat)
    requires low < 0x1_0000 && sz < 0x4000
    ensures BitOr(low + Shl(dir, 30), Shl(sz, 16)) == low + Shl(sz, 16) + Shl(dir, 30)
  {
    LayoutWidths();
    ShlValue(dir, 30);
    ShlValue(sz, 16);
    ShlValue(dir, 14);
    ShlSplit(dir, 14, 16);
    OrSumLow(low, Shl(dir, 14), sz, 16);
    OrIsSum(sz, dir, 14);
    OrCommutes(Shl(dir, 14), sz);
    ShlSum(sz, Shl(dir, 14), 16);
  }

  lemma {:induction false} ShlSplit(a: nat, j: nat, k: nat)
    ensures Shl(Shl(a, j), k) == Shl(a, j + k)
  {
    if k > 0 { ShlSplit(a, j, k - 1); }
  }

  lemma {:induction false} ShlSum(a: nat, b: nat, k: nat)
    ensures Shl(a + b, k) == Shl(a, k) + Shl(b, k)
  {
    if k > 0 { ShlSum(a, b, k - 1); }
  }

  lemma {:induction false} OrSumLow(low: nat, a: nat, b: nat, k: nat)
    requires low < Pow2(k)
    ensures BitOr(low + Shl(a, k), Shl(b, k)) == low + Shl(BitOr(a, b), k)
  {
    if k > 0 {
      OrSumLow(low / 2, a, b, k - 1);
      var x, y := low + Shl(a, k), Shl(b, k);
      assert x / 2 == low / 2 + Shl(a, k - 1) && y / 2 == Shl(b, k - 1);
      OrHalves(x, y);
    }
  }

  // ---- terminal commands ----

  const TCGETS: u32 := 0x5401
  const TCSETS: u32 := 0x5402
  const TCSETSW: u32 := 0x5403
  const TCSETSF: u32 := 0x5404
  const TCFLSH: u32 := 0x540B
  const TIOCGWINSZ: u32 := 0x5413
  const TIOCSWINSZ: u32 := 0x5414
  const TIOCMGET: u32 := 0x5415
  const TIOCMBIS: u32 := 0x5416
  const TIOCMBIC: u32 := 0x5417
  const TIOCMSET: u32 := 0x5418
  const TIOCGSOFTCAR: u32 := 0x5419
  const TIOCSSOFTCAR: u32 := 0x541A
  const TIOCINQ: u32 := 0x541B
  const TIOCGLCKTRMIOS: u32 := 0x5456
  const TIOCSLCKTRMIOS: u32 := 0x5457
  const TCGETS2: u32 := 0x802C_542A
  const TCSETS2: u32 := 0x402C_542B
  const TCSETSW2: u32 := 0x402C_542C
  const TCSETSF2: u32 := 0x402C_542D

  /** Direction and size that the table gives to a historic command. */
  function Fix(cmd: u32): (r: Option<(nat, nat)>)
    ensures r.Some? ==> r.value.0 <= DIR_READ && r.value.1 <= TERMIOS_SZ
  {
    if cmd == TCGETS || cmd == TIOCGLCKTRMIOS then Some((DIR_READ, TERMIOS_SZ))
    else if cmd == TCSETS || cmd == TCSETSW || cmd == TCSETSF || cmd == TIOCSLCKTRMIOS then
      Some((DIR_WRITE, TERMIOS_SZ))
    else if cmd == TIOCGSOFTCAR || cmd == TIOCMGET || cmd == TIOCINQ then Some((DIR_READ, INT_SZ))
    else if cmd == TIOCSSOFTCAR || cmd == TIOCMBIS || cmd == TIOCMBIC || cmd == TIOCMSET then
      Some((DIR_WRITE, INT_SZ))
    else if cmd == TCFLSH then Some((DIR_NONE, 0))
    else None
  }

  /** A command together with the fields it is treated by: its own, or repaired ones. */
  datatype BadIoctl = BadIoctl(native: u32, good: Fields)

  function Repaired(cmd: u32): BadIoctl {
    match Fix(cmd)
    case None => BadIoctl(cmd, Split(cmd))
    case Some((dir, sz)) => BadIoctl(cmd, Fields(dir, sz, GetType(cmd), GetNr(cmd)))
  }

  /** A number composed from fields splits into these fields. */
  lemma SplitIoc(dir: nat, tp: nat, nr: nat, sz: nat)
    requires Encodable(dir, tp, nr, sz)
    ensures Split(IOC(dir, tp, nr, sz)) == Fields(dir, sz, tp, nr)
  {
    var c := IOC(dir, tp, nr, sz);
    var upper := dir * 0x4000 + sz;
    QuotientUnique(c, 0x100, upper * 0x100 + tp, nr);
    QuotientUnique(upper * 0x100 + tp, 0x100, upper, tp);
    QuotientUnique(c, 0x1_0000, upper, tp * 0x100 + nr);
    QuotientUnique(upper, 0x4000, dir, sz);
    QuotientUnique(c, 0x4000_0000, dir, sz * 0x1_0000 + tp * 0x100 + nr);
  }

  /**
   For every command: the native command is kept, type and number are kept, and the repaired
   fields are those of a number that the or of bit fields composes.
   */
  lemma RepairExact(cmd: u32)
    ensures var c := Repaired(cmd);
            && c.native == cmd && c.good.tp == GetType(cmd) && c.good.nr == GetNr(cmd)
            && (match Fix(cmd)
                case None => c.good == Split(cmd)
                case Some((dir, sz)) =>
                  && Encodable(dir, GetType(cmd), GetNr(cmd), sz)
                  && c.good == Split(OredIoc(dir, GetType(cmd), GetNr(cmd), sz)))
  {
    match Fix(cmd)
    case None =>
    case Some((dir, sz)) =>
      SplitIoc(dir, GetType(cmd), GetNr(cmd), sz);
      IocIsOred(dir, GetType(cmd), GetNr(cmd), sz);
  }

  /** A command outside the table is treated by the fields its number is composed of. */
  lemma Unlisted(cmd: u32, dir: nat, tp: nat, nr: nat, sz: nat)
    requires Fix(cmd).None? && Encodable(dir, tp, nr, sz) && cmd == IOC(dir, tp, nr, sz)
    ensures Repaired(cmd).good == Fields(dir, sz, tp, nr)
  {
    SplitIoc(dir, tp, nr, sz);
  }

  /** The termios2 setters carry their own direction and size. */
  lemma Termios2Commands(cmd: u32)
    requires cmd == TCSETS2 || cmd == TCSETSW2 || cmd == TCSETSF2
    ensures Repaired(cmd).good == Fields(DIR_WRITE, TERMIOS2_SZ, 0x54, cmd - 0x402C_5400)
  {
    Unlisted(cmd, DIR_WRITE, 0x54, cmd - 0x402C_5400, TERMIOS2_SZ);
  }

  lemma WindowSizeCommand(cmd: u32)
    requires cmd == TIOCGWINSZ || cmd == TIOCSWINSZ
    ensures Repaired(cmd).good == Fields(DIR_NONE, 0, 0x54, cmd - 0x5400)
  {
    Unlisted(cmd, DIR_NONE, 0x54, cmd - 0x5400, 0);
  }

  lemma Termios2Getter(cmd: u32)
    requires cmd == TCGETS2
    ensures Repaired(cmd).good == Fields(DIR_READ, TERMIOS2_SZ, 0x54, 0x2a)
  {
    Unlisted(cmd, DIR_READ, 0x54, 0x2a, TERMIOS2_SZ);
  }
}
