/** The network protocol byte by byte: where each field of a message stands, in big-endian order. */
module WireLayout {
  import opened Base
  import opened Endian
  import opened Records
  import opened Positions
  import opened IoctlArg
  import Termios
  import P = Protocol
  import R = Responses

  /** The big-endian number in the `w` bytes from `at` on. */
  function Be(s: seq<byte>, at: nat, w: nat): nat
    requires at + w <= |s|
  {
    Number(s[at..at + w])
  }

  predicate Zero(s: seq<byte>, at: nat, w: nat)
    requires at + w <= |s|
  {
    forall i :: at <= i < at + w ==> s[i] == 0
  }

  lemma ZeroAt(s: seq<byte>, at: nat, w: nat)
    requires at + w <= |s| && At(Big, s, at, w) == 0
    ensures Zero(s, at, w)
  {
    var z := s[at..at + w];
    ZeroBytes(Big, z);
    forall i | at <= i < at + w ensures s[i] == 0 { assert z[i - at] == s[i]; }
  }

  // ---- headers ----

  function RequestCode(r: P.Request): nat {
    match r
    case Open(_, _) => 1
    case Release(_) => 2
    case Write(_, _, _, _) => 3
    case Read(_, _, _, _) => 4
    case Ioctl(_, _, _) => 5
    case Poll(_, _, _, _) => 6
    case Interrupt(_) => 7
  }

  lemma RequestVals(r: P.Request)
    requires P.Valid(r) && P.PayloadLen(r) < Pow256(4)
    ensures InRange(P.REQ_HEADER, [P.Op(r), 0, P.PayloadLen(r), r.sequence])
  {
    Widths();
    var vals := [P.Op(r), 0, P.PayloadLen(r), r.sequence];
    assert vals[1] < Pow256(3);
  }

  /** Operation, three zero bytes, length of the payload, sequence number; then the payload. */
  lemma RequestHeaderAt(r: P.Request)
    requires P.Valid(r) && P.PayloadLen(r) < Pow256(4)
    ensures var s := P.RequestBytes(r);
            && |s| == 16 + P.PayloadLen(r) && Be(s, 0, 1) == RequestCode(r) && Zero(s, 1, 3)
            && Be(s, 4, 4) == |s| - 16 && Be(s, 8, 8) == r.sequence
  {
    RequestVals(r);
    RequestFieldsAt(P.Op(r), P.PayloadLen(r), r.sequence, P.Fixed(r) + P.Data(r));
  }

  lemma RequestFieldsAt(op: nat, len: nat, q: nat, rest: seq<byte>)
    requires InRange(P.REQ_HEADER, [op, 0, len, q])
    ensures var s := Put(Big, P.REQ_HEADER, [op, 0, len, q]) + rest;
            && |s| == 16 + |rest| && Be(s, 0, 1) == op && Zero(s, 1, 3) && Be(s, 4, 4) == len && Be(s, 8, 8) == q
  {
    var at := [0, 1, 4, 8];
    Placed(Big, P.REQ_HEADER, at, [op, 0, len, q], rest);
    assert at[0] == 0 && at[1] == 1 && at[2] == 4 && at[3] == 8;
    ZeroAt(Put(Big, P.REQ_HEADER, [op, 0, len, q]) + rest, 1, 3);
  }

  /** A payload field behind the 16 bytes of the header. */
  lemma FieldBehind(head: seq<byte>, widths: seq<nat>, vals: seq<nat>, rest: seq<byte>, k: nat)
    requires |head| == 16 && InRange(widths, vals) && k < |widths|
    ensures var s := head + (Put(Big, widths, vals) + rest);
            && 16 + Offset(widths, k) + widths[k] <= |s|
            && Be(s, 16 + Offset(widths, k), widths[k]) == vals[k]
  {
    PutAt(Big, widths, vals, rest, k);
    BeBehind(head, Put(Big, widths, vals) + rest, Offset(widths, k), widths[k]);
  }

  lemma BeBehind(head: seq<byte>, body: seq<byte>, at: nat, w: nat)
    requires |head| == 16 && at + w <= |body|
    ensures Be(head + body, 16 + at, w) == At(Big, body, at, w)
  {
    AtBehind(Big, head, body, at, w);
  }

  lemma Behind(head: seq<byte>, fixed: seq<byte>, rest: seq<byte>)
    ensures (head + (fixed + rest))[|head| + |fixed|..] == rest
  {
  }

  lemma TripleAt(head: seq<byte>, a: nat, b: nat, c: nat, rest: seq<byte>)
    requires |head| == 16 && a < Pow256(8) && b < Pow256(4) && c < Pow256(4)
    ensures var s := head + (Put(Big, P.W_TRIPLE, [a, b, c]) + rest);
            && |s| == 32 + |rest| && Be(s, 16, 8) == a && Be(s, 24, 4) == b && Be(s, 28, 4) == c && s[32..] == rest
  {
    P.BodySizes();
    var vals := [a, b, c];
    Behind(head, Put(Big, P.W_TRIPLE, vals), rest);
    FieldBehind(head, P.W_TRIPLE, vals, rest, 0);
    FieldBehind(head, P.W_TRIPLE, vals, rest, 1);
    FieldBehind(head, P.W_TRIPLE, vals, rest, 2);
  }

  lemma IoctlHeadAt(head: seq<byte>, cmd: nat, code: byte, rest: seq<byte>)
    requires |head| == 16 && cmd < Pow256(4)
    ensures var s := head + (Put(Big, P.W_IOCTL, [cmd, code, 0]) + rest);
            && |s| == 24 + |rest| && Be(s, 16, 4) == cmd && Be(s, 20, 1) == code && s[24..] == rest
  {
    P.BodySizes();
    Widths();
    var vals := [cmd, code as nat, 0];
    assert vals[2] < Pow256(3);
    Behind(head, Put(Big, P.W_IOCTL, vals), rest);
    FieldBehind(head, P.W_IOCTL, vals, rest, 0);
    FieldBehind(head, P.W_IOCTL, vals, rest, 1);
  }

  lemma OpenAt(head: seq<byte>, flags: nat, rest: seq<byte>)
    requires |head| == 16 && flags < Pow256(4)
    ensures var s := head + (Put(Big, P.W_OPEN, [flags, 0]) + rest);
            |s| == 24 + |rest| && Be(s, 16, 4) == flags && Be(s, 20, 4) == 0
  {
    P.BodySizes();
    Widths();
    var vals := [flags, 0];
    FieldBehind(head, P.W_OPEN, vals, rest, 0);
    FieldBehind(head, P.W_OPEN, vals, rest, 1);
  }

  /** The fields of a request behind its header. */
  ghost predicate RequestLaid(r: P.Request, s: seq<byte>)
    requires P.Formed(r)
  {
    match r
    case Open(_, flags) => |s| == 24 && Be(s, 16, 4) == flags && Be(s, 20, 4) == 0
    case Write(_, offset, flags, data) =>
      |s| >= 32 && Be(s, 16, 8) == offset && Be(s, 24, 4) == flags && Be(s, 28, 4) == 0 && s[32..] == data
    case Read(_, offset, size, flags) =>
      |s| == 32 && Be(s, 16, 8) == offset && Be(s, 24, 4) == size && Be(s, 28, 4) == flags
    case Ioctl(_, cmd, arg) =>
      |s| >= 24 && Be(s, 16, 4) == cmd && Be(s, 20, 1) == ArgCode(arg) && ArgLaid(arg, s[24..])
    case Poll(_, kh, flags, events) =>
      |s| == 32 && Be(s, 16, 8) == kh && Be(s, 24, 4) == flags && Be(s, 28, 4) == events
    case _ => |s| == 16
  }

  function ArgCode(a: Arg): nat {
    match a
    case NoArg => 0
    case Scalar(_) => 1
    case Raw(_) => 2
    case RawScalar(_) => 3
    case Ios(_) => 4
    case Int(_) => 5
    case UInt(_) => 6
  }

  /** The bytes of an argument. */
  ghost predicate ArgLaid(a: Arg, s: seq<byte>) {
    match a
    case NoArg => s == []
    case Scalar(n) => |s| == 8 && Be(s, 0, 8) == n
    case Raw(raw) => s == raw
    case RawScalar(n) => |s| == 8 && Be(s, 0, 8) == n
    case Ios(t) =>
      && |s| == 64 && Be(s, 0, 4) == t.flags.iflag && Be(s, 4, 4) == t.flags.oflag
      && Be(s, 8, 4) == t.flags.cflag && Be(s, 12, 4) == t.flags.lflag && Be(s, 16, 1) == t.flags.line
      && s[17..48] == t.cc && Be(s, 48, 4) == t.ispeed && Be(s, 52, 4) == t.ospeed && Zero(s, 56, 8)
    case Int(n) => |s| == 4 && Be(s, 0, 4) == n
    case UInt(n) => |s| == 4 && Be(s, 0, 4) == n
  }

  lemma WholeNumber(n: nat, k: nat)
    requires n < Pow256(k)
    ensures Be(BigEndian(n, k), 0, k) == n
  {
    NumberOfBytes(n, k);
    assert BigEndian(n, k)[0..k] == BigEndian(n, k);
  }

  lemma FlagWordsAt(h: Host, f: Termios.Flags, rest: seq<byte>)
    requires f.Valid()
    ensures var s := Termios.WriteFlags(h, f) + rest;
            && At(h, s, 0, 4) == f.iflag && At(h, s, 4, 4) == f.oflag && At(h, s, 8, 4) == f.cflag
            && At(h, s, 12, 4) == f.lflag && At(h, s, 16, 1) == f.line
  {
    var at := [0, 4, 8, 12, 16];
    Placed(h, Termios.HEAD, at, f.Vals(), rest);
    assert at[0] == 0 && at[1] == 4 && at[2] == 8 && at[3] == 12 && at[4] == 16;
  }

  lemma TailInRange(t: Termios.TermIOs)
    requires t.Valid()
    ensures InRange(Termios.TAIL, [t.ispeed, t.ospeed, 0])
  {
    Widths();
    assert InRange(Termios.SPEEDS, [t.ispeed, t.ospeed]);
    assert [t.ispeed, t.ospeed][0] < Pow256(Termios.SPEEDS[0]) && [t.ispeed, t.ospeed][1] < Pow256(Termios.SPEEDS[1]);
  }

  lemma TailAt(front: seq<byte>, t: Termios.TermIOs)
    requires |front| == 48 && t.Valid()
    ensures var s := front + Put(Big, Termios.TAIL, [t.ispeed, t.ospeed, 0]);
            |s| == 64 && Be(s, 48, 4) == t.ispeed && Be(s, 52, 4) == t.ospeed && Zero(s, 56, 8)
  {
    Termios.Sizes();
    TailInRange(t);
    var vals := [t.ispeed, t.ospeed, 0];
    var tail := Put(Big, Termios.TAIL, vals);
    assert tail + [] == tail;
    PutAt(Big, Termios.TAIL, vals, [], 0);
    PutAt(Big, Termios.TAIL, vals, [], 1);
    PutAt(Big, Termios.TAIL, vals, [], 2);
    AtBehind(Big, front, tail, 0, 4);
    AtBehind(Big, front, tail, 4, 4);
    AtBehind(Big, front, tail, 8, 8);
    ZeroAt(front + tail, 56, 8);
  }

  lemma SettingsLaid(t: Termios.TermIOs)
    requires t.Valid()
    ensures ArgLaid(Ios(t), Termios.ToWire(t))
  {
    Termios.Sizes();
    var head, tail := Termios.WriteFlags(Big, t.flags), Put(Big, Termios.TAIL, [t.ispeed, t.ospeed, 0]);
    var s := Termios.ToWire(t);
    assert s == head + (t.cc + tail);
    FlagWordsAt(Big, t.flags, t.cc + tail);
    TailAt(head + t.cc, t);
    assert s[17..48] == t.cc;
  }

  lemma ArgumentLaid(a: Arg)
    requires a.Valid() && a.Formed()
    ensures ArgLaid(a, ToBytes(a)) && Code(a) == ArgCode(a)
  {
    match a
    case NoArg =>
    case Scalar(n) => WholeNumber(n, 8);
    case Raw(_) =>
    case RawScalar(n) => WholeNumber(n, 8);
    case Ios(t) => SettingsLaid(t);
    case Int(n) => WholeNumber(n, 4);
    case UInt(n) => WholeNumber(n, 4);
  }

  /** Every field of every request stands at its place, and the payload is as long as the header says. */
  lemma RequestAt(r: P.Request)
    requires P.Valid(r) && P.PayloadLen(r) < Pow256(4)
    ensures RequestLaid(r, P.RequestBytes(r))
  {
    var head := P.RequestHeader(r);
    Widths();
    if r.Open? {
      OpenAt(head, r.flags, []);
    } else if r.Write? {
      TripleAt(head, r.offset, r.flags, 0, r.data);
    } else if r.Read? {
      TripleAt(head, r.offset, r.size, r.flags, []);
    } else if r.Ioctl? {
      ArgumentLaid(r.arg);
      IoctlHeadAt(head, r.cmd, Code(r.arg), ToBytes(r.arg));
    } else if r.Poll? {
      TripleAt(head, r.kh, r.flags, r.events, []);
    }
  }

  // ---- responses ----

  function ResponseCode(b: R.Response): nat {
    match b
    case Done => 1
    case Failed(_) => 1
    case Wrote(_) => 2
    case Bytes(_) => 3
    case IoctlDone(_, _) => 4
    case Polled(_) => 5
    case Wakeups(_) => 6
    case Wakeup(_) => 7
  }

  lemma ResponseVals(f: R.Frame)
    requires R.Valid(f) && |R.Payload(f.body)| < Pow256(4)
    ensures InRange(P.RSP_HEADER, [R.Op(f.body), 0, R.Errno(f.body), |R.Payload(f.body)|, f.sequence])
  {
    Widths();
  }

  /** Operation, a zero byte, the error, the length of the payload, sequence number; then the payload. */
  lemma ResponseHeaderAt(f: R.Frame)
    requires R.Valid(f) && |R.Payload(f.body)| < Pow256(4)
    ensures var s := R.FrameBytes(f);
            && |s| >= 16 && Be(s, 0, 1) == ResponseCode(f.body) && s[1] == 0
            && Be(s, 2, 2) == (if f.body.Failed? then f.body.errno else 0)
            && Be(s, 4, 4) == |s| - 16 && Be(s, 8, 8) == f.sequence && s[16..] == R.Payload(f.body)
  {
    var rest := R.Payload(f.body);
    ResponseVals(f);
    HeaderFieldsAt(R.Op(f.body), R.Errno(f.body), |rest|, f.sequence, rest);
  }

  lemma HeaderFieldsAt(op: nat, err: nat, len: nat, q: nat, rest: seq<byte>)
    requires InRange(P.RSP_HEADER, [op, 0, err, len, q])
    ensures var s := R.Header(op, err, len, q) + rest;
            && |s| == 16 + |rest| && Be(s, 0, 1) == op && s[1] == 0 && Be(s, 2, 2) == err && Be(s, 4, 4) == len
            && Be(s, 8, 8) == q && s[16..] == rest
  {
    var at := [0, 1, 2, 4, 8];
    Placed(Big, P.RSP_HEADER, at, [op, 0, err, len, q], rest);
    assert at[0] == 0 && at[1] == 1 && at[2] == 2 && at[3] == 4 && at[4] == 8;
    ZeroAt(R.Header(op, err, len, q) + rest, 1, 1);
  }

  /** The payload of a response. */
  ghost predicate ResponseLaid(b: R.Response, s: seq<byte>) {
    match b
    case Done => s == []
    case Failed(_) => s == []
    case Wrote(n) => |s| == 4 && Be(s, 0, 4) == n
    case Bytes(data) => s == data
    case IoctlDone(rc, arg) =>
      |s| >= 16 && Be(s, 0, 8) == rc && Be(s, 8, 1) == ArgCode(arg) && Zero(s, 9, 7) && ArgLaid(arg, s[16..])
    case Polled(n) => |s| == 4 && Be(s, 0, 4) == n
    case Wakeups(khs) => |s| == 8 * |khs| && forall i :: 0 <= i < |khs| ==> Be(s, 8 * i, 8) == khs[i]
    case Wakeup(kh) => |s| == 8 && Be(s, 0, 8) == kh
  }

  lemma {:induction false} WordAt(khs: seq<nat>, i: nat)
    requires i < |khs| && forall k :: 0 <= k < |khs| ==> khs[k] < Pow256(8)
    ensures Be(R.Words(khs), 8 * i, 8) == khs[i]
  {
    var w, rest := BigEndian(khs[0], 8), R.Words(khs[1..]);
    assert R.Words(khs) == w + rest;
    if i == 0 {
      NumberOfBytes(khs[0], 8);
      assert (w + rest)[0..8] == w;
    } else {
      WordAt(khs[1..], i - 1);
      assert (w + rest)[8 * i..8 * i + 8] == rest[8 * (i - 1)..8 * (i - 1) + 8];
    }
  }

  lemma WordsAt(khs: seq<nat>)
    requires forall k :: 0 <= k < |khs| ==> khs[k] < Pow256(8)
    ensures ResponseLaid(R.Wakeups(khs), R.Words(khs))
  {
    forall i | 0 <= i < |khs| ensures Be(R.Words(khs), 8 * i, 8) == khs[i] { WordAt(khs, i); }
  }

  lemma ResultAt(rc: nat, code: byte, rest: seq<byte>)
    requires rc < Pow256(8)
    ensures var s := R.ResultHead(rc, code) + rest;
            |s| == 16 + |rest| && Be(s, 0, 8) == rc && Be(s, 8, 1) == code && Zero(s, 9, 7) && s[16..] == rest
  {
    P.BodySizes();
    Widths();
    var vals := [rc, code as nat, 0];
    assert vals[2] < Pow256(7);
    PutAt(Big, P.W_RESULT, vals, rest, 0);
    PutAt(Big, P.W_RESULT, vals, rest, 1);
    PutAt(Big, P.W_RESULT, vals, rest, 2);
    ZeroAt(R.ResultHead(rc, code) + rest, 9, 7);
  }

  /** Every field of every response stands at its place. */
  lemma ResponseAt(f: R.Frame)
    requires R.Valid(f)
    ensures ResponseLaid(f.body, R.Payload(f.body))
  {
    match f.body
    case Done =>
    case Failed(_) =>
    case Wrote(n) => WholeNumber(n, 4);
    case Bytes(_) =>
    case IoctlDone(rc, arg) =>
      ArgumentLaid(arg);
      ResultAt(rc, Code(arg), ToBytes(arg));
    case Polled(n) => WholeNumber(n, 4);
    case Wakeups(khs) => WordsAt(khs);
    case Wakeup(kh) => WholeNumber(kh, 8);
  }

  /** The message that wakes handles: none for none, the short form for one, the long one for more. */
  lemma WakeupAt(khs: seq<u64>)
    requires |khs| <= 8192
    ensures var fs := R.WakeupFrames(khs);
            if khs == [] then fs == []
            else
              && |fs| == 1 && R.Formed(fs[0].body)
              && var s := R.FrameBytes(fs[0]);
                 && |s| == 16 + 8 * |khs| && Be(s, 0, 1) == (if |khs| == 1 then 7 else 6)
                 && Be(s, 2, 2) == 0 && Be(s, 8, 8) == 0
                 && forall i :: 0 <= i < |khs| ==> Be(s, 16 + 8 * i, 8) == khs[i]
  {
    Widths();
    R.WakeupFramesValid(khs);
    if khs != [] {
      var f := R.WakeupFrames(khs)[0];
      ResponseHeaderAt(f);
      ResponseAt(f);
      WakeupWords(f, khs);
    }
  }

  lemma WakeupWords(f: R.Frame, khs: seq<u64>)
    requires R.Formed(f.body) && |R.FrameBytes(f)| >= 16 && R.FrameBytes(f)[16..] == R.Payload(f.body)
    requires |R.Payload(f.body)| == 8 * |khs| && ResponseLaid(f.body, R.Payload(f.body))
    requires f.body == R.Wakeups(khs) || (|khs| == 1 && f.body == R.Wakeup(khs[0]))
    ensures forall i :: 0 <= i < |khs| ==> Be(R.FrameBytes(f), 16 + 8 * i, 8) == khs[i]
  {
    var s, p := R.FrameBytes(f), R.Payload(f.body);
    forall i | 0 <= i < |khs| ensures Be(s, 16 + 8 * i, 8) == khs[i] {
      assert s[16 + 8 * i..16 + 8 * i + 8] == p[8 * i..8 * i + 8];
      assert Be(p, 8 * i, 8) == khs[i];
    }
  }
}
