/** What an ioctl means at both ends of the connection. */
module IoctlProperties {
  import opened Base
  import opened Endian
  import opened IoctlNumber
  import opened IoctlArg
  import opened Termios

  /** Commands for which both directions are defined. */
  predicate Supported(cmd: u32) {
    || SetsTermios(cmd) || SetsTermios2(cmd) || GetsTermios(cmd) || SetsInt(cmd)
    || cmd == TIOCMGET || cmd == TIOCINQ || cmd == TCFLSH
  }

  /** Bytes that decoding a request needs from the application. */
  function NeededIn(cmd: u32): nat {
    if SetsTermios(cmd) then TERMIOS_SZ
    else if SetsTermios2(cmd) then TERMIOS2_SZ
    else if SetsInt(cmd) then INT_SZ
    else 0
  }

  /** Bytes that a supported command reads back from the device. */
  function ReadsBack(cmd: u32): nat {
    if GetsTermios(cmd) then TERMIOS_SZ
    else if cmd == TIOCMGET || cmd == TIOCINQ then INT_SZ
    else 0
  }

  /** Direction and size of the supported commands: what is read, what is written, how much. */
  lemma SupportedSizes(cmd: u32)
    requires Supported(cmd)
    ensures var good := Repaired(cmd).good;
            && (good.IsWrite() <==> NeededIn(cmd) > 0)
            && (good.IsWrite() ==> good.size == NeededIn(cmd) && !good.IsRead())
            && (good.IsRead() <==> ReadsBack(cmd) > 0)
            && (good.IsRead() ==> good.size == ReadsBack(cmd))
  {
    if SetsTermios2(cmd) { Termios2Commands(cmd); }
  }

  // ---- the request: application to device ----

  /** `dev` on host `hs` means what `app` means on host `hc`. */
  ghost predicate SameMeaning(cmd: u32, hc: Host, app: seq<byte>, hs: Host, dev: seq<byte>)
    requires |app| >= NeededIn(cmd)
  {
    if SetsTermios(cmd) then |dev| == TERMIOS_SZ && ReadTermios(hs, dev) == ReadTermios(hc, app)
    else if SetsTermios2(cmd) then |dev| == TERMIOS2_SZ && ReadTermios2(hs, dev) == ReadTermios2(hc, app)
    else if SetsInt(cmd) then |dev| == INT_SZ && NativeNumber(hs, dev) == NativeNumber(hc, app[..INT_SZ])
    else true
  }

  lemma TermiosCrosses(hc: Host, app: seq<byte>, hs: Host)
    requires |app| >= TERMIOS_SZ
    ensures var dev := WriteTermios(hs, IntoOs(FromOs(ReadTermios(hc, app))));
            && |dev| == TERMIOS_SZ && ReadTermios(hs, dev) == ReadTermios(hc, app)
            && (hs == hc ==> dev == app[..TERMIOS_SZ])
  {
    var t := ReadTermios(hc, app);
    TermiosBytesBack(hc, app);
    ConversionBack(OsTermios2(t, 0, 0));
    TermiosValuesBack(hs, t, []);
    assert WriteTermios(hs, t) + [] == WriteTermios(hs, t);
  }

  lemma Termios2Crosses(hc: Host, app: seq<byte>, hs: Host)
    requires |app| >= TERMIOS2_SZ
    ensures var dev := WriteTermios2(hs, IntoOs2(FromOs2(ReadTermios2(hc, app))));
            && |dev| == TERMIOS2_SZ && ReadTermios2(hs, dev) == ReadTermios2(hc, app)
            && (hs == hc ==> dev == app[..TERMIOS2_SZ])
  {
    var t := ReadTermios2(hc, app);
    Termios2BytesBack(hc, app);
    ConversionBack(t);
    Termios2ValuesBack(hs, t);
  }

  lemma IntCrosses(hc: Host, app: seq<byte>, hs: Host)
    requires |app| == INT_SZ
    ensures var dev := NativeBytes(hs, NativeNumber(hc, app), INT_SZ);
            && NativeNumber(hs, dev) == NativeNumber(hc, app)
            && (hs == hc ==> dev == app)
  {
    NativeBytesBack(hc, app);
    NativeRoundTrip(hs, NativeNumber(hc, app), INT_SZ);
  }

  /** What ioctl(2) is given on the server, compared with what the application passed. */
  ghost predicate Delivered(hc: Host, hs: Host, cmd: u32, arg: u64, app: seq<byte>, op: Operand)
    requires |app| >= NeededIn(cmd)
  {
    if NeededIn(cmd) > 0 then
      && op.Filled? && SameMeaning(cmd, hc, app, hs, op.bytes)
      && (hs == hc ==> op.bytes == app[..NeededIn(cmd)])
    else if cmd == TCFLSH then op == Plain(arg)
    else op == Scratch(ReadsBack(cmd))
  }

  /** The whole way of a request: decode, send, receive, encode. */
  ghost predicate RequestOk(hc: Host, hs: Host, c: BadIoctl, arg: u64, app: seq<byte>)
    requires |app| >= NeededIn(c.native)
  {
    var d := Decode(hc, c, arg, app, Cuse);
    && d.Success? && d.value.Formed() && !d.value.IsRaw()
    && FromRaw(Code(d.value), ToBytes(d.value)) == d
    && var e := Encode(hs, c, d.value);
    && e.Success? && e.value.0 == c.native && Delivered(hc, hs, c.native, arg, app, e.value.1)
  }

  /** An argument that was decoded, can be sent, and is encoded as `op`. */
  lemma RequestBy(hc: Host, hs: Host, c: BadIoctl, arg: u64, app: seq<byte>, a: Arg, op: Operand)
    requires |app| >= NeededIn(c.native)
    requires Decode(hc, c, arg, app, Cuse) == Success(a) && a.Valid() && a.Formed() && !a.IsRaw()
    requires Encode(hs, c, a) == Success((c.native, op)) && Delivered(hc, hs, c.native, arg, app, op)
    ensures RequestOk(hc, hs, c, arg, app)
  {
    WireRoundTrip(a);
  }

  lemma TermiosRequest(hc: Host, hs: Host, c: BadIoctl, arg: u64, app: seq<byte>)
    requires SetsTermios(c.native) && |app| >= TERMIOS_SZ
    ensures RequestOk(hc, hs, c, arg, app)
  {
    var t := FromOs(ReadTermios(hc, app));
    var dev := WriteTermios(hs, IntoOs(t));
    FromOsValid(hc, app);
    TermiosCrosses(hc, app, hs);
    RequestBy(hc, hs, c, arg, app, Ios(t), Filled(dev));
  }

  lemma Termios2Request(hc: Host, hs: Host, c: BadIoctl, arg: u64, app: seq<byte>)
    requires SetsTermios2(c.native) && |app| >= TERMIOS2_SZ
    ensures RequestOk(hc, hs, c, arg, app)
  {
    var t := FromOs2(ReadTermios2(hc, app));
    var dev := WriteTermios2(hs, IntoOs2(t));
    FromOs2Valid(hc, app);
    Termios2Crosses(hc, app, hs);
    RequestBy(hc, hs, c, arg, app, Ios(t), Filled(dev));
  }

  lemma IntRequest(hc: Host, hs: Host, c: BadIoctl, arg: u64, app: seq<byte>)
    requires SetsInt(c.native) && c.good.IsWrite() && |app| >= INT_SZ
    ensures RequestOk(hc, hs, c, arg, app)
  {
    var n := NativeNumber(hc, app[..INT_SZ]);
    var dev := NativeBytes(hs, n, INT_SZ);
    AsIntValid(hc, app);
    IntCrosses(hc, app[..INT_SZ], hs);
    RequestBy(hc, hs, c, arg, app, Int(n), Filled(dev));
  }

  lemma ReadRequest(hc: Host, hs: Host, c: BadIoctl, arg: u64, app: seq<byte>)
    requires ReadsBack(c.native) > 0 && c.good.IsRead() && !c.good.IsWrite()
    ensures RequestOk(hc, hs, c, arg, app)
  {
    WireRoundTrip(NoArg);
  }

  lemma FlushRequest(hc: Host, hs: Host, c: BadIoctl, arg: u64, app: seq<byte>)
    requires c.native == TCFLSH && !c.good.IsWrite()
    ensures RequestOk(hc, hs, c, arg, app)
  {
    Widths();
    WireRoundTrip(Scalar(arg));
  }

  /**
   The request half.  For every supported command the argument survives the network and the
   device is given the same command with the same meaning, for any two byte orders; with
   equal byte orders it is given the very same bytes.  Reading commands get a buffer of
   exactly the command's size, TCFLSH gets its number.
   */
  lemma RequestKeepsMeaning(hc: Host, hs: Host, cmd: u32, arg: u64, app: seq<byte>)
    requires Supported(cmd) && |app| >= NeededIn(cmd)
    ensures RequestOk(hc, hs, Repaired(cmd), arg, app)
  {
    SupportedSizes(cmd);
    if SetsTermios(cmd) {
      TermiosRequest(hc, hs, Repaired(cmd), arg, app);
    } else if SetsTermios2(cmd) {
      Termios2Request(hc, hs, Repaired(cmd), arg, app);
    } else if SetsInt(cmd) {
      IntRequest(hc, hs, Repaired(cmd), arg, app);
    } else if cmd == TCFLSH {
      FlushRequest(hc, hs, Repaired(cmd), arg, app);
    } else {
      ReadRequest(hc, hs, Repaired(cmd), arg, app);
    }
  }

  // ---- the reply: device to application ----

  /** What the application gets, compared with what the device left in its buffer. */
  ghost predicate Returned(hc: Host, hs: Host, cmd: u32, dev: seq<byte>, out: Option<seq<byte>>) {
    if GetsTermios(cmd) then
      && out.Some? && |out.value| == |dev| == TERMIOS_SZ
      && ReadTermios(hc, out.value) == ReadTermios(hs, dev)
      && (hc == hs ==> out.value == dev)
    else if cmd == TIOCINQ then
      && out.Some? && |out.value| == |dev| == INT_SZ
      && NativeNumber(hc, out.value) == NativeNumber(hs, dev)
      && (hc == hs ==> out.value == dev)
    else if cmd == TIOCMGET then out == Some(dev)
    else out == None
  }

  /** The whole way of a reply: decode, send, receive, hand to the kernel. */
  ghost predicate ReplyOk(hc: Host, hs: Host, c: BadIoctl, arg: u64, dev: seq<byte>) {
    var d := Decode(hs, c, arg, dev, Device);
    && d.Success? && d.value.Formed()
    && FromRaw(Code(d.value), ToBytes(d.value)) == d
    && var r := CuseResponse(hc, c, d.value);
    && r.Success? && Returned(hc, hs, c.native, dev, r.value)
  }

  lemma ReplyBy(hc: Host, hs: Host, c: BadIoctl, arg: u64, dev: seq<byte>, a: Arg, out: Option<seq<byte>>)
    requires Decode(hs, c, arg, dev, Device) == Success(a) && a.Valid() && a.Formed()
    requires CuseResponse(hc, c, a) == Success(out) && Returned(hc, hs, c.native, dev, out)
    ensures ReplyOk(hc, hs, c, arg, dev)
  {
    WireRoundTrip(a);
  }

  lemma TermiosReply(hc: Host, hs: Host, c: BadIoctl, arg: u64, dev: seq<byte>)
    requires GetsTermios(c.native) && |dev| == TERMIOS_SZ
    ensures ReplyOk(hc, hs, c, arg, dev)
  {
    var t := FromOs(ReadTermios(hs, dev));
    var out := WriteTermios(hc, IntoOs(t));
    FromOsValid(hs, dev);
    TermiosCrosses(hs, dev, hc);
    assert dev[..TERMIOS_SZ] == dev;
    ReplyBy(hc, hs, c, arg, dev, Ios(t), Some(out));
  }

  lemma InQueueReply(hc: Host, hs: Host, c: BadIoctl, arg: u64, dev: seq<byte>)
    requires c.native == TIOCINQ && c.good.IsRead() && |dev| == INT_SZ
    ensures ReplyOk(hc, hs, c, arg, dev)
  {
    assert dev[..INT_SZ] == dev;
    var n := NativeNumber(hs, dev);
    AsIntValid(hs, dev);
    IntCrosses(hs, dev, hc);
    ReplyBy(hc, hs, c, arg, dev, Int(n), Some(NativeBytes(hc, n, INT_SZ)));
  }

  lemma ModemReply(hc: Host, hs: Host, c: BadIoctl, arg: u64, dev: seq<byte>)
    requires c.native == TIOCMGET && c.good.IsRead() && !c.good.IsWrite()
    ensures ReplyOk(hc, hs, c, arg, dev)
    ensures CuseResponse(hc, c, Decode(hs, c, arg, dev, Device).value) == Success(Some(dev))
  {
    WireRoundTrip(Raw(dev));
  }

  lemma SilentReply(hc: Host, hs: Host, c: BadIoctl, arg: u64, dev: seq<byte>)
    requires NeededIn(c.native) > 0 || c.native == TCFLSH
    requires !c.good.IsRead()
    ensures ReplyOk(hc, hs, c, arg, dev)
  {
    WireRoundTrip(NoArg);
  }

  /**
   The reply half.  What the device left in its buffer survives the network and reaches the
   application with exactly the command's size: the same numbers for any byte orders except
   for TIOCMGET, whose bytes travel unconverted, and the same bytes for equal byte orders.
   Commands that read nothing return nothing.
   */
  lemma ReplyKeepsMeaning(hc: Host, hs: Host, cmd: u32, arg: u64, dev: seq<byte>)
    requires Supported(cmd) && (ReadsBack(cmd) > 0 ==> |dev| == ReadsBack(cmd))
    ensures ReplyOk(hc, hs, Repaired(cmd), arg, dev)
  {
    SupportedSizes(cmd);
    if GetsTermios(cmd) {
      TermiosReply(hc, hs, Repaired(cmd), arg, dev);
    } else if cmd == TIOCINQ {
      InQueueReply(hc, hs, Repaired(cmd), arg, dev);
    } else if cmd == TIOCMGET {
      ModemReply(hc, hs, Repaired(cmd), arg, dev);
    } else {
      SilentReply(hc, hs, Repaired(cmd), arg, dev);
    }
  }

  lemma ReverseSame(s: seq<byte>)
    ensures Number(Reverse(s)) == Number(s) <==> Reverse(s) == s
  {
    if Number(Reverse(s)) == Number(s) {
      BytesOfNumber(s);
      BytesOfNumber(Reverse(s));
    }
  }

  /**
   The modem lines of TIOCMGET arrive as the same number exactly if both hosts use the same
   byte order or the four bytes read the same backwards.
   */
  lemma ModemLinesExactly(hc: Host, hs: Host, arg: u64, dev: seq<byte>)
    requires |dev| == INT_SZ
    ensures ReplyOk(hc, hs, Repaired(TIOCMGET), arg, dev)
    ensures CuseResponse(hc, Repaired(TIOCMGET), Decode(hs, Repaired(TIOCMGET), arg, dev, Device).value) == Success(Some(dev))
    ensures NativeNumber(hc, dev) == NativeNumber(hs, dev) <==> hc == hs || Reverse(dev) == dev
  {
    var cmd := TIOCMGET;
    SupportedSizes(cmd);
    ModemReply(hc, hs, Repaired(cmd), arg, dev);
    ReverseSame(dev);
  }

  /** A modem line that one host reports as 2 reads as 0x02000000 on the other. */
  lemma ModemLinesCounterexample()
    ensures NativeNumber(Little, [2, 0, 0, 0]) == 2
    ensures NativeNumber(Big, [2, 0, 0, 0]) == 0x0200_0000
  {
    var s: seq<byte> := [2, 0, 0, 0];
    assert s[..3] == [2, 0, 0] && s[..3][..2] == [2, 0] && s[..3][..2][..1] == [2];
    assert Number([2]) == 2 && Number([2, 0]) == 0x200 && Number([2, 0, 0]) == 0x2_0000;
    var r := Reverse(s);
    assert r == [0, 0, 0, 2];
    assert r[..3] == [0, 0, 0] && r[..3][..2] == [0, 0] && r[..3][..2][..1] == [0];
    assert Number([0]) == 0 && Number([0, 0]) == 0 && Number([0, 0, 0]) == 0;
  }

  // ---- every command ----

  datatype Outcome =
    | Panics            // `todo!` in the client
    | Rejected          // EINVAL from the client, nothing sent
    | Refused           // EPERM from the server
    | Aborts            // the server's main loop ends with an error
    | Issued            // the device is given the command

  /** What becomes of an ioctl request on its way to the device. */
  function OutcomeOf(hc: Host, hs: Host, cmd: u32, arg: u64, app: seq<byte>): Outcome {
    var c := Repaired(cmd);
    match Decode(hc, c, arg, app, Cuse)
    case Failure(Todo) => Panics
    case Failure(_) => Rejected
    case Success(a) =>
      DecodeValid(hc, c, arg, app, Cuse);
      if a.IsRaw() then Refused
      else if Encode(hs, c, a).Success? then Issued
      else Aborts
  }

  /** Read-only commands without an encoder, and TIOCGWINSZ. */
  predicate EndsServer(cmd: u32) {
    cmd == TIOCGWINSZ || (!Supported(cmd) && Repaired(cmd).good.IsRead() && !Repaired(cmd).good.IsWrite())
  }

  /**
   A complete account over all commands and all buffers: exactly the supported commands with
   enough data reach the device; the unknown read-only ones end the server's main loop.
   */
  lemma OutcomeExactly(hc: Host, hs: Host, cmd: u32, arg: u64, app: seq<byte>)
    ensures var o := OutcomeOf(hc, hs, cmd, arg, app);
            && (o.Issued? <==> Supported(cmd) && |app| >= NeededIn(cmd))
            && (o.Rejected? <==> Supported(cmd) && |app| < NeededIn(cmd))
            && (o.Panics? <==> cmd == TIOCSWINSZ)
            && (o.Aborts? <==> EndsServer(cmd))
            && (o.Refused? <==> !Supported(cmd) && cmd != TIOCSWINSZ && !EndsServer(cmd))
  {
    if Supported(cmd) {
      SupportedOutcome(hc, hs, cmd, arg, app);
    } else {
      UnsupportedOutcome(hc, hs, cmd, arg, app);
    }
  }

  lemma SupportedOutcome(hc: Host, hs: Host, cmd: u32, arg: u64, app: seq<byte>)
    requires Supported(cmd)
    ensures OutcomeOf(hc, hs, cmd, arg, app) == if |app| >= NeededIn(cmd) then Issued else Rejected
  {
    if |app| >= NeededIn(cmd) {
      RequestKeepsMeaning(hc, hs, cmd, arg, app);
    }
  }

  lemma UnsupportedOutcome(hc: Host, hs: Host, cmd: u32, arg: u64, app: seq<byte>)
    requires !Supported(cmd)
    ensures OutcomeOf(hc, hs, cmd, arg, app)
            == if cmd == TIOCSWINSZ then Panics else if EndsServer(cmd) then Aborts else Refused
  {
    if cmd == TIOCSWINSZ || cmd == TIOCGWINSZ {
      WindowSizeCommand(cmd);
    } else if cmd == TCGETS2 {
      Termios2Getter(cmd);
    }
  }

  /** What the server refuses was sent as it came: the bytes if the command writes, the argument otherwise. */
  lemma RefusedCarries(hc: Host, hs: Host, cmd: u32, arg: u64, app: seq<byte>)
    requires OutcomeOf(hc, hs, cmd, arg, app).Refused?
    ensures Decode(hc, Repaired(cmd), arg, app, Cuse)
            == Success(if Repaired(cmd).good.IsWrite() then Raw(app) else RawScalar(arg))
  {
  }

  // ---- unrestricted ioctls ----

  datatype Iovec = Iovec(base: u64, len: nat)
  datatype Completion = Proceed | Retry(input: Option<Iovec>, output: Option<Iovec>)

  /** Whether the kernel must be asked to call again with the buffers of the command. */
  function Complete(unrestricted: bool, cmd: u32, arg: u64, inSize: nat, outSize: nat): Completion {
    if !unrestricted then Proceed
    else if inSize > 0 || outSize > 0 then Proceed
    else
      var good := Repaired(cmd).good;
      var vec := Some(Iovec(arg, good.size));
      var input := if good.IsWrite() then vec else None;
      var output := if good.IsRead() then vec else None;
      if input.None? && output.None? then Proceed else Retry(input, output)
  }

  /**
   A retry is asked for exactly if the caller is unrestricted, has passed no buffer and the
   command transfers data; each buffer is at the caller's address and has the command's size.
   */
  lemma RetryVectors(unrestricted: bool, cmd: u32, arg: u64, inSize: nat, outSize: nat)
    ensures var c, good := Complete(unrestricted, cmd, arg, inSize, outSize), Repaired(cmd).good;
            && (c.Retry? <==> unrestricted && inSize == 0 && outSize == 0 && (good.IsWrite() || good.IsRead()))
            && (c.Retry? ==>
                  && (c.input.Some? <==> good.IsWrite()) && (c.output.Some? <==> good.IsRead())
                  && forall v :: v in OptSeq(c.input) + OptSeq(c.output) ==> v == Iovec(arg, good.size))
  {
  }

  /** The answer to an unrestricted caller without buffers, by the command's number. */
  function Buffers(cmd: u32, arg: u64): Completion {
    if cmd in {0x5401, 0x5456} then Retry(None, Some(Iovec(arg, 36)))
    else if cmd in {0x5402, 0x5403, 0x5404, 0x5457} then Retry(Some(Iovec(arg, 36)), None)
    else if cmd in {0x5415, 0x5419, 0x541B} then Retry(None, Some(Iovec(arg, 4)))
    else if cmd in {0x5416, 0x5417, 0x5418, 0x541A} then Retry(Some(Iovec(arg, 4)), None)
    else
      var vec := Some(Iovec(arg, cmd / 0x1_0000 % 0x4000));
      match cmd / 0x4000_0000
      case 0 => Proceed
      case 1 => Retry(vec, None)
      case 2 => Retry(None, vec)
      case _ => Retry(vec, vec)
  }

  /** The historic commands are given the sizes of their C types, every other one what its number says. */
  lemma BuffersExact(cmd: u32, arg: u64)
    ensures Complete(true, cmd, arg, 0, 0) == Buffers(cmd, arg)
  {
    assert cmd / 0x4000_0000 < 4;
  }

  function Len(v: Option<Iovec>): nat { match v case None => 0 case Some(i) => i.len }

  /** The kernel repeats the request with the buffers it was asked for. */
  function Again(c: Completion, cmd: u32, arg: u64): Completion
    requires c.Retry?
  {
    Complete(true, cmd, arg, Len(c.input), Len(c.output))
  }

  /** A retried request is retried a second time, and so forever, exactly if its size is zero. */
  lemma RetriedOnceExactly(cmd: u32, arg: u64)
    requires Complete(true, cmd, arg, 0, 0).Retry?
    ensures var c := Complete(true, cmd, arg, 0, 0);
            && (Again(c, cmd, arg) == Proceed <==> Repaired(cmd).good.size != 0)
            && (Repaired(cmd).good.size == 0 ==> Again(c, cmd, arg) == c)
  {
  }

  /** The answer to the n-th repetition of a request. */
  function Repeated(c: Completion, cmd: u32, arg: u64, n: nat): Completion
    decreases n
  {
    if n == 0 || c.Proceed? then c else Repeated(Again(c, cmd, arg), cmd, arg, n - 1)
  }

  /** A command that writes but has size zero is answered with the same retry, however often it is repeated. */
  lemma {:induction false} RetriedForever(arg: u64, n: nat)
    ensures var cmd := 0x4000_5400;
            && Complete(true, cmd, arg, 0, 0) == Retry(Some(Iovec(arg, 0)), None)
            && Repeated(Complete(true, cmd, arg, 0, 0), cmd, arg, n).Retry?
  {
    Unlisted(0x4000_5400, DIR_WRITE, 0x54, 0, 0);
    if n > 0 { RetriedForever(arg, n - 1); }
  }

  /**
   Every supported command passes: the first call either proceeds at once or asks for exactly
   the buffers the command needs, the repeated call proceeds, and the data it then carries
   reaches the device.
   */
  lemma SupportedCompletes(hc: Host, hs: Host, cmd: u32, arg: u64, app: seq<byte>)
    requires Supported(cmd)
    requires var c := Complete(true, cmd, arg, 0, 0); |app| == if c.Retry? then Len(c.input) else 0
    ensures var c := Complete(true, cmd, arg, 0, 0);
            && (c.Retry? ==>
                  Again(c, cmd, arg) == Proceed && Len(c.input) == NeededIn(cmd) && Len(c.output) == ReadsBack(cmd))
            && (c.Proceed? ==> cmd == TCFLSH)
            && OutcomeOf(hc, hs, cmd, arg, app) == Issued
  {
    SupportedSizes(cmd);
    OutcomeExactly(hc, hs, cmd, arg, app);
  }
}
