/**
 Terminal settings in three forms: the bytes an application or the device sees, the numbers
 they stand for on a host, and the 64-byte big-endian record that travels over the network.
 */
module Termios {
  import opened Base
  import opened Endian
  import opened Records

  const NCCS: nat := 19
  const WIRE_CCS: nat := 31
  const WIRE_SZ: nat := 64
  const HEAD: seq<nat> := [4, 4, 4, 4, 1]
  const SPEEDS: seq<nat> := [4, 4]
  const TAIL: seq<nat> := [4, 4, 8]

  /** The flag words and the line discipline. */
  datatype Flags = Flags(iflag: nat, oflag: nat, cflag: nat, lflag: nat, line: nat) {
    function Vals(): seq<nat> { [iflag, oflag, cflag, lflag, line] }
    ghost predicate Valid() { InRange(HEAD, Vals()) }
  }

  /** `termios`, and `termios2` with its two speeds. */
  datatype OsTermios = OsTermios(flags: Flags, cc: seq<byte>) {
    ghost predicate Valid() { flags.Valid() && |cc| == NCCS }
  }
  datatype OsTermios2 = OsTermios2(base: OsTermios, ispeed: nat, ospeed: nat) {
    ghost predicate Valid() { base.Valid() && InRange(SPEEDS, [ispeed, ospeed]) }
  }

  /** The protocol record. */
  datatype TermIOs = TermIOs(flags: Flags, cc: seq<byte>, ispeed: nat, ospeed: nat) {
    ghost predicate Valid() {
      flags.Valid() && |cc| == WIRE_CCS && InRange(SPEEDS, [ispeed, ospeed])
    }
  }

  lemma Sizes()
    ensures Size(HEAD) == 17 && Size(SPEEDS) == 8 && Size(TAIL) == 16
  {
    assert HEAD[1..] == [4, 4, 4, 1] && SPEEDS[1..] == [4] && TAIL[1..] == [4, 8];
    assert [4, 4, 4, 1][1..] == [4, 4, 1] && [4, 4, 1][1..] == [4, 1] && [4, 1][1..] == [1];
    assert [4, 8][1..] == [8];
    assert Size([1]) == 1 && Size([4]) == 4 && Size([8]) == 8;
    assert Size([4, 1]) == 5 && Size([4, 4, 1]) == 9 && Size([4, 4, 4, 1]) == 13 && Size([4, 8]) == 12;
  }

  // ---- host memory ----

  function ReadFlags(h: Host, raw: seq<byte>): Flags
    requires |raw| >= 17
  {
    Sizes();
    var f := Get(h, HEAD, raw);
    Flags(f[0], f[1], f[2], f[3], f[4])
  }

  function WriteFlags(h: Host, f: Flags): (r: seq<byte>)
    ensures |r| == 17
  {
    Sizes();
    Put(h, HEAD, f.Vals())
  }

  function ReadTermios(h: Host, raw: seq<byte>): OsTermios
    requires |raw| >= 36
  {
    OsTermios(ReadFlags(h, raw), raw[17..36])
  }

  function WriteTermios(h: Host, t: OsTermios): (r: seq<byte>)
    ensures |t.cc| == NCCS ==> |r| == 36
  {
    WriteFlags(h, t.flags) + t.cc
  }

  function ReadTermios2(h: Host, raw: seq<byte>): OsTermios2
    requires |raw| >= 44
  {
    Sizes();
    var s := Get(h, SPEEDS, raw[36..]);
    OsTermios2(ReadTermios(h, raw), s[0], s[1])
  }

  function WriteTermios2(h: Host, t: OsTermios2): (r: seq<byte>)
    ensures |t.base.cc| == NCCS ==> |r| == 44
  {
    Sizes();
    WriteTermios(h, t.base) + Put(h, SPEEDS, [t.ispeed, t.ospeed])
  }

  lemma FlagsBytesBack(h: Host, raw: seq<byte>)
    requires |raw| >= 17
    ensures ReadFlags(h, raw).Valid() && WriteFlags(h, ReadFlags(h, raw)) == raw[..17]
  {
    Sizes();
    PutGet(h, HEAD, raw);
    assert ReadFlags(h, raw).Vals() == Get(h, HEAD, raw);
  }

  lemma FlagsValuesBack(h: Host, f: Flags, rest: seq<byte>)
    requires f.Valid()
    ensures ReadFlags(h, WriteFlags(h, f) + rest) == f
  {
    GetPut(h, HEAD, f.Vals(), rest);
  }

  /** Reading settings from memory and writing them back changes no byte. */
  lemma TermiosBytesBack(h: Host, raw: seq<byte>)
    requires |raw| >= 36
    ensures ReadTermios(h, raw).Valid() && WriteTermios(h, ReadTermios(h, raw)) == raw[..36]
  {
    FlagsBytesBack(h, raw);
    assert raw[..17] + raw[17..36] == raw[..36];
  }

  lemma TermiosValuesBack(h: Host, t: OsTermios, rest: seq<byte>)
    requires t.Valid()
    ensures ReadTermios(h, WriteTermios(h, t) + rest) == t
  {
    var raw := WriteFlags(h, t.flags) + (t.cc + rest);
    assert WriteTermios(h, t) + rest == raw;
    FlagsValuesBack(h, t.flags, t.cc + rest);
    assert raw[17..36] == t.cc;
  }

  lemma Termios2BytesBack(h: Host, raw: seq<byte>)
    requires |raw| >= 44
    ensures ReadTermios2(h, raw).Valid() && WriteTermios2(h, ReadTermios2(h, raw)) == raw[..44]
  {
    Sizes();
    TermiosBytesBack(h, raw);
    PutGet(h, SPEEDS, raw[36..]);
    var t := ReadTermios2(h, raw);
    assert [t.ispeed, t.ospeed] == Get(h, SPEEDS, raw[36..]);
    assert raw[..36] + raw[36..][..8] == raw[..44];
  }

  lemma Termios2ValuesBack(h: Host, t: OsTermios2)
    requires t.Valid()
    ensures ReadTermios2(h, WriteTermios2(h, t)) == t
  {
    var speeds := Put(h, SPEEDS, [t.ispeed, t.ospeed]);
    TermiosValuesBack(h, t.base, speeds);
    assert (WriteTermios(h, t.base) + speeds)[36..] == speeds + [];
    GetPut(h, SPEEDS, [t.ispeed, t.ospeed], []);
  }

  // ---- conversion between host and protocol ----

  function Zeros(n: nat): (r: seq<byte>)
    ensures |r| == n
  {
    seq(n, _ => 0)
  }

  function FromOs(p: OsTermios): TermIOs
    requires |p.cc| == NCCS
  {
    TermIOs(p.flags, p.cc + Zeros(WIRE_CCS - NCCS), 0, 0)
  }

  function FromOs2(p: OsTermios2): TermIOs
    requires |p.base.cc| == NCCS
  {
    TermIOs(p.base.flags, p.base.cc + Zeros(WIRE_CCS - NCCS), p.ispeed, p.ospeed)
  }

  function IntoOs(t: TermIOs): OsTermios
    requires |t.cc| == WIRE_CCS
  {
    OsTermios(t.flags, t.cc[..NCCS])
  }

  function IntoOs2(t: TermIOs): OsTermios2
    requires |t.cc| == WIRE_CCS
  {
    OsTermios2(IntoOs(t), t.ispeed, t.ospeed)
  }

  lemma ConversionBack(p: OsTermios2)
    requires |p.base.cc| == NCCS
    ensures IntoOs(FromOs(p.base)) == p.base
    ensures IntoOs2(FromOs2(p)) == p
  {
  }

  /** The control characters are copied one by one into the zeroed record. */
  method CopyIntoRecord(cc: seq<byte>) returns (res: array<byte>)
    requires |cc| == NCCS
    ensures fresh(res) && res[..] == cc + Zeros(WIRE_CCS - NCCS)
  {
    res := new byte[WIRE_CCS](_ => 0);
    var i := 0;
    while i < |cc|
      invariant 0 <= i <= |cc|
      invariant forall k :: 0 <= k < WIRE_CCS ==> res[k] == if k < i then cc[k] else 0
    {
      res[i] := cc[i];
      i := i + 1;
    }
  }

  method CopyFromRecord(cc: seq<byte>) returns (res: array<byte>)
    requires |cc| == WIRE_CCS
    ensures fresh(res) && res[..] == cc[..NCCS]
  {
    res := new byte[NCCS](_ => 0);
    var i := 0;
    while i < res.Length
      invariant 0 <= i <= res.Length
      invariant forall k :: 0 <= k < i ==> res[k] == cc[k]
    {
      res[i] := cc[i];
      i := i + 1;
    }
  }

  /** `try_from_os` and `from_os2` after the length check. */
  method ConvertFromOs(p: OsTermios, ispeed: nat, ospeed: nat) returns (res: TermIOs)
    requires |p.cc| == NCCS
    ensures res == FromOs2(OsTermios2(p, ispeed, ospeed))
    ensures ispeed == 0 && ospeed == 0 ==> res == FromOs(p)
  {
    var cc := CopyIntoRecord(p.cc);
    res := TermIOs(p.flags, cc[..], ispeed, ospeed);
  }

  method ConvertIntoOs(t: TermIOs) returns (res: OsTermios2)
    requires |t.cc| == WIRE_CCS
    ensures res == IntoOs2(t) && res.base == IntoOs(t)
  {
    var cc := CopyFromRecord(t.cc);
    res := OsTermios2(OsTermios(t.flags, cc[..]), t.ispeed, t.ospeed);
  }

  // ---- the wire ----

  function ToWire(t: TermIOs): (r: seq<byte>)
    requires |t.cc| == WIRE_CCS
    ensures |r| == WIRE_SZ
  {
    Sizes();
    WriteFlags(Big, t.flags) + t.cc + Put(Big, TAIL, [t.ispeed, t.ospeed, 0])
  }

  function FromWire(raw: seq<byte>): TermIOs
    requires |raw| >= WIRE_SZ
  {
    Sizes();
    var s := Get(Big, TAIL, raw[48..]);
    TermIOs(ReadFlags(Big, raw), raw[17..48], s[0], s[1])
  }

  lemma WireBack(t: TermIOs)
    requires t.Valid()
    ensures FromWire(ToWire(t)) == t
  {
    Sizes();
    Widths();
    var tail := Put(Big, TAIL, [t.ispeed, t.ospeed, 0]);
    var raw := WriteFlags(Big, t.flags) + (t.cc + tail);
    assert ToWire(t) == raw;
    FlagsValuesBack(Big, t.flags, t.cc + tail);
    assert raw[17..48] == t.cc;
    assert raw[48..] == tail + [];
    assert InRange(TAIL, [t.ispeed, t.ospeed, 0]) by {
      assert InRange(SPEEDS, [t.ispeed, t.ospeed]);
      assert [t.ispeed, t.ospeed][0] < Pow256(SPEEDS[0]) && [t.ispeed, t.ospeed][1] < Pow256(SPEEDS[1]);
    }
    GetPut(Big, TAIL, [t.ispeed, t.ospeed, 0], []);
  }
}
