/** Responses of the server and their frames. */
module Responses {
  import opened Base
  import opened Endian
  import opened Records
  import opened IoctlArg
  import opened Protocol

  /** `Failed` is a header with an error code; `Done` the plain success. */
  datatype Response =
    | Done
    | Failed(errno: nat)
    | Wrote(size: nat)
    | Bytes(data: seq<byte>)
    | IoctlDone(retval: nat, arg: Arg)
    | Polled(events: nat)
    | Wakeups(khs: seq<nat>)
    | Wakeup(kh: nat)

  /** A response on the wire; sequence number zero marks an event. */
  datatype Frame = Frame(sequence: nat, body: Response)

  function Op(r: Response): nat {
    match r
    case Done => 1 case Failed(_) => 1 case Wrote(_) => 2 case Bytes(_) => 3 case IoctlDone(_, _) => 4
    case Polled(_) => 5 case Wakeups(_) => 6 case Wakeup(_) => 7
  }

  predicate Formed(r: Response) { r.IoctlDone? ==> r.arg.Formed() }

  ghost predicate Valid(f: Frame) {
    && f.sequence < Pow256(8) && Formed(f.body)
    && match f.body
       case Failed(e) => 0 < e < Pow256(2)
       case Wrote(n) => n < Pow256(4)
       case IoctlDone(rc, arg) => rc < Pow256(8) && arg.Valid()
       case Polled(ev) => ev < Pow256(4)
       case Wakeups(khs) => forall i :: 0 <= i < |khs| ==> khs[i] < Pow256(8)
       case Wakeup(kh) => kh < Pow256(8)
       case _ => true
  }

  function Words(khs: seq<nat>): (r: seq<byte>)
    ensures |r| == 8 * |khs|
  {
    if khs == [] then [] else BigEndian(khs[0], 8) + Words(khs[1..])
  }

  function FromWords(raw: seq<byte>): seq<nat>
    requires |raw| % 8 == 0
  {
    if raw == [] then [] else [Number(raw[..8])] + FromWords(raw[8..])
  }

  lemma {:induction false} WordsBack(khs: seq<nat>)
    requires forall i :: 0 <= i < |khs| ==> khs[i] < Pow256(8)
    ensures FromWords(Words(khs)) == khs
  {
    if khs != [] {
      var w, rest := BigEndian(khs[0], 8), Words(khs[1..]);
      NumberOfBytes(khs[0], 8);
      assert (w + rest)[..8] == w && (w + rest)[8..] == rest;
      WordsBack(khs[1..]);
    }
  }

  function ResultHead(rc: nat, code: byte): (r: seq<byte>)
    ensures |r| == 16
  {
    BodySizes();
    Put(Big, W_RESULT, [rc, code, 0])
  }

  function Payload(r: Response): seq<byte>
    requires Formed(r)
  {
    match r
    case Done => []
    case Failed(_) => []
    case Wrote(n) => BigEndian(n, 4)
    case Bytes(data) => data
    case IoctlDone(rc, arg) => ResultHead(rc, Code(arg)) + ToBytes(arg)
    case Polled(ev) => BigEndian(ev, 4)
    case Wakeups(khs) => Words(khs)
    case Wakeup(kh) => BigEndian(kh, 8)
  }

  /** The length of the payload as a number. */
  function WireLen(r: Response): nat {
    match r
    case Done => 0
    case Failed(_) => 0
    case Wrote(_) => 4
    case Bytes(data) => |data|
    case IoctlDone(_, arg) => 16 + ArgLen(arg)
    case Polled(_) => 4
    case Wakeups(khs) => 8 * |khs|
    case Wakeup(_) => 8
  }

  lemma WireLenExact(r: Response)
    requires Formed(r)
    ensures WireLen(r) == |Payload(r)|
  {
    if r.IoctlDone? { ArgLenExact(r.arg); }
  }

  function Errno(r: Response): nat { if r.Failed? then r.errno else 0 }

  function Header(op: nat, err: nat, len: nat, q: nat): (h: seq<byte>)
    ensures |h| == HEADER_SZ
  {
    HeaderSizes();
    Put(Big, RSP_HEADER, [op, 0, err, len, q])
  }

  function FrameBytes(f: Frame): seq<byte>
    requires Formed(f.body)
  {
    Header(Op(f.body), Errno(f.body), |Payload(f.body)|, f.sequence) + Payload(f.body)
  }

  function ParsePayload(op: nat, len: nat, s: seq<byte>): Result<(Response, seq<byte>), Error>
    requires 1 <= op <= 7
  {
    BodySizes();
    match op
    case 1 => if len == 0 then Success((Done, s)) else Failure(BadResponse)
    case 2 => var (b, s1, _) :- Take(s, len, 4); Success((Wrote(Number(b)), s1))
    case 3 => var (b, s1, _) :- Take(s, len, len); Success((Bytes(b), s1))
    case 4 =>
      var (b, s1, l1) :- Take(s, len, 16);
      var f := Get(Big, W_RESULT, b);
      var (raw, s2, _) :- Take(s1, l1, l1);
      (match FromRaw(f[1] % 0x100, raw)
       case Failure(e) => Failure(BadArg(e))
       case Success(arg) => Success((IoctlDone(f[0], arg), s2)))
    case 5 => var (b, s1, _) :- Take(s, len, 4); Success((Polled(Number(b)), s1))
    case 6 =>
      if len % 8 != 0 then Failure(UnalignedLength(len, 8))
      else var (b, s1, _) :- Take(s, len, len); Success((Wakeups(FromWords(b)), s1))
    case _ => var (b, s1, _) :- Take(s, len, 8); Success((Wakeup(Number(b)), s1))
  }

  /** What follows once the header fields are known. */
  function AfterHeader(op: nat, err: nat, len: nat, q: nat, s: seq<byte>): Result<(Frame, seq<byte>), Error> {
    if len > MAX_SZ then Failure(PayloadTooLarge(len))
    else if !(1 <= op <= 7) then Failure(BadOp(op))
    else if err != 0 then Success((Frame(q, Failed(err)), s))
    else
      var (body, rest) :- ParsePayload(op, len, s);
      Success((Frame(q, body), rest))
  }

  /** One response and the stream behind it; an error code is reported with its sequence number. */
  function ParseResponse(s: seq<byte>): Result<(Frame, seq<byte>), Error> {
    if |s| < HEADER_SZ then Failure(Io(EPIPE))
    else
      HeaderSizes();
      var f := Get(Big, RSP_HEADER, s[..HEADER_SZ]);
      AfterHeader(f[0], f[2], f[3], f[4], s[HEADER_SZ..])
  }

  lemma ParseHeader(h: seq<byte>, s: seq<byte>, op: nat, pad: nat, err: nat, len: nat, q: nat)
    requires |h| == HEADER_SZ && |h| >= Size(RSP_HEADER) && Get(Big, RSP_HEADER, h) == [op, pad, err, len, q]
    ensures ParseResponse(h + s) == AfterHeader(op, err, len, q, s)
  {
    assert (h + s)[..HEADER_SZ] == h && (h + s)[HEADER_SZ..] == s;
  }

  lemma HeaderBack(op: nat, err: nat, len: nat, q: nat)
    requires op < Pow256(1) && err < Pow256(2) && len < Pow256(4) && q < Pow256(8)
    ensures HEADER_SZ >= Size(RSP_HEADER) && Get(Big, RSP_HEADER, Header(op, err, len, q)) == [op, 0, err, len, q]
  {
    Widths();
    HeaderSizes();
    RecordBack(RSP_HEADER, [op, 0, err, len, q]);
  }

  lemma WordBack(n: nat, k: nat, rest: seq<byte>)
    requires n < Pow256(k)
    ensures Take(BigEndian(n, k) + rest, k, k) == Success((BigEndian(n, k), rest, 0))
    ensures Number(BigEndian(n, k)) == n
  {
    NumberOfBytes(n, k);
    TakeAll(BigEndian(n, k), rest, k);
  }

  lemma ParseIoctl(head: seq<byte>, data: seq<byte>, rest: seq<byte>, rc: nat, code: byte, pad: nat)
    requires |head| == 16 && |head| >= Size(W_RESULT) && Get(Big, W_RESULT, head) == [rc, code, pad]
    requires FromRaw(code, data).Success?
    ensures ParsePayload(4, 16 + |data|, head + data + rest)
            == Success((IoctlDone(rc, FromRaw(code, data).value), rest))
  {
    assert head + data + rest == head + (data + rest);
    TakeAll(head, data + rest, 16 + |data|);
    TakeAll(data, rest, |data|);
  }

  lemma ResultHeadBack(rc: nat, code: byte)
    requires rc < Pow256(8)
    ensures 16 >= Size(W_RESULT) && Get(Big, W_RESULT, ResultHead(rc, code)) == [rc, code, 0]
  {
    Widths();
    BodySizes();
    var vals := [rc, code, 0];
    assert vals[2] < Pow256(7);
    RecordBack(W_RESULT, vals);
  }

  lemma IoctlPayloadBack(rc: nat, arg: Arg, rest: seq<byte>)
    requires rc < Pow256(8) && arg.Valid() && arg.Formed()
    ensures var r := IoctlDone(rc, arg);
            ParsePayload(4, |Payload(r)|, Payload(r) + rest) == Success((r, rest))
  {
    ResultHeadBack(rc, Code(arg));
    WireRoundTrip(arg);
    ParseIoctl(ResultHead(rc, Code(arg)), ToBytes(arg), rest, rc, Code(arg), 0);
  }

  lemma PayloadBack(f: Frame, rest: seq<byte>)
    requires Valid(f) && !f.body.Failed?
    ensures ParsePayload(Op(f.body), |Payload(f.body)|, Payload(f.body) + rest) == Success((f.body, rest))
  {
    match f.body
    case Done => assert [] + rest == rest;
    case Wrote(n) => WordBack(n, 4, rest);
    case Bytes(data) => TakeAll(data, rest, |data|);
    case IoctlDone(rc, arg) => IoctlPayloadBack(rc, arg, rest);
    case Polled(ev) => WordBack(ev, 4, rest);
    case Wakeups(khs) =>
      WordsBack(khs);
      TakeAll(Words(khs), rest, |Words(khs)|);
    case Wakeup(kh) => WordBack(kh, 8, rest);
  }

  lemma BodyBack(f: Frame, rest: seq<byte>)
    requires Valid(f) && |Payload(f.body)| <= MAX_SZ
    ensures AfterHeader(Op(f.body), Errno(f.body), |Payload(f.body)|, f.sequence, Payload(f.body) + rest)
            == Success((f, rest))
  {
    if f.body.Failed? {
      assert [] + rest == rest;
    } else {
      PayloadBack(f, rest);
    }
  }

  /** A sent response is received unchanged exactly if its payload has at most 0x10000 bytes. */
  lemma ResponseRoundTrip(f: Frame, rest: seq<byte>)
    requires Valid(f) && |Payload(f.body)| < Pow256(4)
    ensures var n := |Payload(f.body)|;
            ParseResponse(FrameBytes(f) + rest)
            == if n <= MAX_SZ then Success((f, rest)) else Failure(PayloadTooLarge(n))
  {
    var p := Payload(f.body);
    var h := Header(Op(f.body), Errno(f.body), |p|, f.sequence);
    Widths();
    HeaderBack(Op(f.body), Errno(f.body), |p|, f.sequence);
    assert FrameBytes(f) + rest == h + (p + rest);
    ParseHeader(h, p + rest, Op(f.body), 0, Errno(f.body), |p|, f.sequence);
    if |p| <= MAX_SZ { BodyBack(f, rest); }
  }

  /** An error code of zero is not an error on the wire: the frame is that of plain success. */
  lemma ErrorZeroIsSuccess(q: nat)
    ensures FrameBytes(Frame(q, Failed(0))) == FrameBytes(Frame(q, Done))
  {
  }

  function SentFrames(fs: seq<Frame>): seq<byte>
    requires forall i :: 0 <= i < |fs| ==> Formed(fs[i].body)
  {
    if fs == [] then [] else FrameBytes(fs[0]) + SentFrames(fs[1..])
  }

  lemma PayloadShrinks(op: nat, len: nat, s: seq<byte>)
    requires 1 <= op <= 7
    ensures var p := ParsePayload(op, len, s); p.Success? ==> |p.value.1| <= |s|
  {
  }

  lemma ParseProgress(s: seq<byte>)
    ensures ParseResponse(s).Success? ==> |ParseResponse(s).value.1| < |s|
  {
    if |s| >= HEADER_SZ {
      HeaderSizes();
      var f := Get(Big, RSP_HEADER, s[..HEADER_SZ]);
      if 1 <= f[0] <= 7 { PayloadShrinks(f[0], f[3], s[HEADER_SZ..]); }
    }
  }

  function ReceiveFrames(s: seq<byte>): (seq<Frame>, Option<Error>)
    decreases |s|
  {
    if s == [] then ([], None)
    else
      match ParseResponse(s)
      case Failure(e) => ([], Some(e))
      case Success((f, rest)) =>
        ParseProgress(s);
        var (more, e) := ReceiveFrames(rest);
        ([f] + more, e)
  }

  lemma ReceiveOne(f: Frame, rest: seq<byte>)
    requires Valid(f) && |Payload(f.body)| <= MAX_SZ
    ensures var (more, e) := ReceiveFrames(rest);
            ReceiveFrames(FrameBytes(f) + rest) == ([f] + more, e)
  {
    Widths();
    ResponseRoundTrip(f, rest);
  }

  /** Any list of responses and events arrives as that list, and nothing is left over. */
  lemma {:induction false} ResponseStream(fs: seq<Frame>)
    requires forall i :: 0 <= i < |fs| ==>
               Formed(fs[i].body) && Valid(fs[i]) && |Payload(fs[i].body)| <= MAX_SZ
    ensures ReceiveFrames(SentFrames(fs)) == (fs, None)
  {
    if fs != [] {
      ReceiveOne(fs[0], SentFrames(fs[1..]));
      ResponseStream(fs[1..]);
      assert fs == [fs[0]] + fs[1..];
    }
  }

  // ---- poll wake-ups ----

  /** The frames that announce a list of woken handles: none, the short form, or the long one. */
  function WakeupFrames(khs: seq<nat>): seq<Frame> {
    if |khs| == 0 then []
    else if |khs| == 1 then [Frame(0, Wakeup(khs[0]))]
    else [Frame(0, Wakeups(khs))]
  }

  lemma WakeupFramesShape(khs: seq<nat>)
    ensures |WakeupFrames(khs)| <= 1
    ensures forall i :: 0 <= i < |WakeupFrames(khs)| ==> WakeupFrames(khs)[i].sequence == 0
  {
  }

  /** The notifications that the client hands to the kernel for one received event. */
  function Notifications(r: Response): seq<nat> {
    match r
    case Wakeups(khs) => khs
    case Wakeup(kh) => [kh]
    case _ => []
  }

  function AllNotifications(fs: seq<Frame>): seq<nat> {
    if fs == [] then [] else Notifications(fs[0].body) + AllNotifications(fs[1..])
  }

  lemma WakeupFramesValid(khs: seq<nat>)
    requires forall i :: 0 <= i < |khs| ==> khs[i] < Pow256(8)
    requires |khs| <= 8192
    ensures forall i :: 0 <= i < |WakeupFrames(khs)| ==>
              var f := WakeupFrames(khs)[i]; Formed(f.body) && Valid(f) && |Payload(f.body)| <= MAX_SZ
  {
    Widths();
  }

  lemma WakeupFramesName(khs: seq<nat>)
    ensures AllNotifications(WakeupFrames(khs)) == khs
  {
    var fs := WakeupFrames(khs);
    if fs != [] {
      assert fs[1..] == [];
      assert AllNotifications(fs) == Notifications(fs[0].body) + AllNotifications([]);
      if |khs| == 1 { assert khs == [khs[0]]; }
    }
  }

  /**
   Through frames, bytes and parsing, the client notifies exactly the handles the server woke,
   in the server's order and whichever form was used, as long as at most 8192 are woken at once.
   */
  lemma WakeupsArrive(khs: seq<nat>)
    requires forall i :: 0 <= i < |khs| ==> khs[i] < Pow256(8)
    requires |khs| <= 8192
    ensures forall i :: 0 <= i < |WakeupFrames(khs)| ==> Formed(WakeupFrames(khs)[i].body)
    ensures var (fs, e) := ReceiveFrames(SentFrames(WakeupFrames(khs)));
            e == None && AllNotifications(fs) == khs
  {
    WakeupFramesValid(khs);
    ResponseStream(WakeupFrames(khs));
    WakeupFramesName(khs);
  }

  /** One handle more, and the client cannot receive the message. */
  lemma TooManyWakeups(khs: seq<nat>, rest: seq<byte>)
    requires forall i :: 0 <= i < |khs| ==> khs[i] < Pow256(8)
    requires 8192 < |khs| < 0x1000_0000
    ensures ParseResponse(FrameBytes(WakeupFrames(khs)[0]) + rest) == Failure(PayloadTooLarge(8 * |khs|))
  {
    Widths();
    ResponseRoundTrip(Frame(0, Wakeups(khs)), rest);
  }
}
