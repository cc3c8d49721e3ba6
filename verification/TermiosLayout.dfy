/** Terminal settings in the memory of two hosts, byte by byte. */
module TermiosLayout {
  import opened Base
  import opened Endian
  import opened Positions
  import opened IoctlNumber
  import opened IoctlArg
  import opened Termios
  import I = IoctlProperties
  import W = WireLayout

  /** Four flag words, the line discipline, 19 control characters. */
  predicate FlagsLaid(h: Host, raw: seq<byte>, f: Flags)
    requires |raw| >= 17
  {
    && At(h, raw, 0, 4) == f.iflag && At(h, raw, 4, 4) == f.oflag && At(h, raw, 8, 4) == f.cflag
    && At(h, raw, 12, 4) == f.lflag && At(h, raw, 16, 1) == f.line
  }

  lemma FlagsAt(h: Host, raw: seq<byte>)
    requires |raw| >= 17
    ensures FlagsLaid(h, raw, ReadFlags(h, raw))
  {
    Sizes();
    var at := [0, 4, 8, 12, 16];
    FieldsAt(h, HEAD, at, raw);
    assert at[0] == 0 && at[1] == 4 && at[2] == 8 && at[3] == 12 && at[4] == 16;
  }

  lemma SpeedsAt(h: Host, raw: seq<byte>)
    requires |raw| >= 44
    ensures var t := ReadTermios2(h, raw); At(h, raw, 36, 4) == t.ispeed && At(h, raw, 40, 4) == t.ospeed
  {
    Sizes();
    var at := [0, 4];
    FieldsAt(h, SPEEDS, at, raw[36..]);
    assert at[0] == 0 && at[1] == 4;
    AtDropped(h, raw, 36, 0, 4);
    AtDropped(h, raw, 36, 4, 4);
  }

  lemma OneByte(h: Host, raw: seq<byte>, at: nat)
    requires at < |raw|
    ensures At(h, raw, at, 1) == raw[at]
  {
    var s := raw[at..at + 1];
    assert s == [raw[at]] && Reverse(s) == s && s[..0] == [];
    assert Number([]) == 0 && Number(s) == raw[at];
  }

  /** The same settings in two byte orders. */
  predicate SameSettings(h: Host, a: seq<byte>, g: Host, b: seq<byte>)
    requires |a| >= 36 && |b| >= 36
  {
    && At(h, a, 0, 4) == At(g, b, 0, 4) && At(h, a, 4, 4) == At(g, b, 4, 4)
    && At(h, a, 8, 4) == At(g, b, 8, 4) && At(h, a, 12, 4) == At(g, b, 12, 4)
    && a[16] == b[16] && a[17..36] == b[17..36]
  }

  predicate SameSpeeds(h: Host, a: seq<byte>, g: Host, b: seq<byte>)
    requires |a| >= 44 && |b| >= 44
  {
    At(h, a, 36, 4) == At(g, b, 36, 4) && At(h, a, 40, 4) == At(g, b, 40, 4)
  }

  lemma SettingsByByte(h: Host, a: seq<byte>, g: Host, b: seq<byte>)
    requires |a| >= 36 && |b| >= 36 && ReadTermios(h, a) == ReadTermios(g, b)
    ensures SameSettings(h, a, g, b)
  {
    FlagsAt(h, a);
    FlagsAt(g, b);
    OneByte(h, a, 16);
    OneByte(g, b, 16);
  }

  /** What the device is given, word by word in its own byte order, is what the application passed. */
  lemma DeliveredBytes(hc: Host, hs: Host, cmd: u32, arg: u64, app: seq<byte>, op: Operand)
    requires |app| >= I.NeededIn(cmd) && I.Delivered(hc, hs, cmd, arg, app, op)
    ensures cmd in {0x5402, 0x5403, 0x5404, 0x5457} ==>
              |app| >= 36 && op.Filled? && |op.bytes| == 36 && SameSettings(hs, op.bytes, hc, app)
    ensures cmd in {0x402C_542B, 0x402C_542C, 0x402C_542D} ==>
              && |app| >= 44 && op.Filled? && |op.bytes| == 44
              && SameSettings(hs, op.bytes, hc, app) && SameSpeeds(hs, op.bytes, hc, app)
    ensures cmd in {0x5416, 0x5417, 0x5418, 0x541A} ==>
              |app| >= 4 && op.Filled? && |op.bytes| == 4 && At(hs, op.bytes, 0, 4) == At(hc, app, 0, 4)
    ensures cmd == 0x540B ==> op == Plain(arg)
    ensures cmd in {0x5401, 0x5456} ==> op == Scratch(36)
    ensures cmd in {0x5415, 0x541B} ==> op == Scratch(4)
  {
    if SetsTermios(cmd) {
      SettingsByByte(hs, op.bytes, hc, app);
    } else if SetsTermios2(cmd) {
      SettingsByByte(hs, op.bytes, hc, app);
      SpeedsAt(hs, op.bytes);
      SpeedsAt(hc, app);
    } else if SetsInt(cmd) {
      assert op.bytes[0..4] == op.bytes && app[0..4] == app[..4];
    }
  }

  /** What the application gets, word by word in its own byte order, is what the device left. */
  lemma ReturnedBytes(hc: Host, hs: Host, cmd: u32, dev: seq<byte>, out: Option<seq<byte>>)
    requires I.Returned(hc, hs, cmd, dev, out)
    ensures cmd in {0x5401, 0x5456} ==>
              out.Some? && |out.value| == |dev| == 36 && SameSettings(hc, out.value, hs, dev)
    ensures cmd == 0x541B ==> out.Some? && |out.value| == |dev| == 4 && At(hc, out.value, 0, 4) == At(hs, dev, 0, 4)
    ensures cmd == 0x5415 ==> out == Some(dev)
    ensures cmd in {0x5402, 0x5403, 0x5404, 0x5457, 0x402C_542B, 0x402C_542C, 0x402C_542D} ==> out == None
    ensures cmd in {0x5416, 0x5417, 0x5418, 0x541A, 0x540B} ==> out == None
  {
    if GetsTermios(cmd) {
      SettingsByByte(hc, out.value, hs, dev);
    } else if cmd == TIOCINQ {
      assert out.value[0..4] == out.value && dev[0..4] == dev;
    }
  }

  /** The record on the network, compared with settings in a host's memory. */
  ghost predicate OnWire(h: Host, raw: seq<byte>, wire: seq<byte>)
    requires |raw| >= 36
  {
    && |wire| == 64
    && W.Be(wire, 0, 4) == At(h, raw, 0, 4) && W.Be(wire, 4, 4) == At(h, raw, 4, 4)
    && W.Be(wire, 8, 4) == At(h, raw, 8, 4) && W.Be(wire, 12, 4) == At(h, raw, 12, 4)
    && W.Be(wire, 16, 1) == raw[16] && wire[17..36] == raw[17..36] && W.Zero(wire, 36, 12) && W.Zero(wire, 56, 8)
  }

  lemma PaddedSlices(wire: seq<byte>, cc: seq<byte>)
    requires |wire| == 64 && |cc| == NCCS && wire[17..48] == cc + Zeros(12)
    ensures wire[17..36] == cc && W.Zero(wire, 36, 12)
  {
    assert wire[17..36] == wire[17..48][..19];
    forall i | 36 <= i < 48 ensures wire[i] == 0 { assert wire[17..48][i - 17] == wire[i]; }
  }

  lemma RecordOnWire(h: Host, raw: seq<byte>, t: TermIOs)
    requires |raw| >= 36 && t.Valid() && t.flags == ReadFlags(h, raw) && t.cc == raw[17..36] + Zeros(12)
    ensures OnWire(h, raw, ToWire(t)) && W.Be(ToWire(t), 48, 4) == t.ispeed && W.Be(ToWire(t), 52, 4) == t.ospeed
  {
    FlagsAt(h, raw);
    OneByte(h, raw, 16);
    W.SettingsLaid(t);
    PaddedSlices(ToWire(t), raw[17..36]);
  }

  /** `termios` in memory becomes the record: words, line and control characters, no speeds, the rest zero. */
  lemma TermiosOnWire(h: Host, raw: seq<byte>)
    requires |raw| >= 36
    ensures var wire := ToWire(FromOs(ReadTermios(h, raw)));
            OnWire(h, raw, wire) && W.Be(wire, 48, 4) == 0 && W.Be(wire, 52, 4) == 0
  {
    FromOsValid(h, raw);
    RecordOnWire(h, raw, FromOs(ReadTermios(h, raw)));
  }

  /** `termios2` in memory becomes the record, with its two speeds. */
  lemma Termios2OnWire(h: Host, raw: seq<byte>)
    requires |raw| >= 44
    ensures var wire := ToWire(FromOs2(ReadTermios2(h, raw)));
            OnWire(h, raw, wire) && W.Be(wire, 48, 4) == At(h, raw, 36, 4) && W.Be(wire, 52, 4) == At(h, raw, 40, 4)
  {
    FromOs2Valid(h, raw);
    SpeedsAt(h, raw);
    RecordOnWire(h, raw, FromOs2(ReadTermios2(h, raw)));
  }
}
