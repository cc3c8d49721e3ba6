/** Messages of the network protocol and their frames: a 16-byte header, then the payload. */
module Protocol {
  import opened Base
  import opened Endian
  import opened Records
  import opened IoctlArg

  const MAX_SZ: nat := 0x1_0000
  const HEADER_SZ: nat := 16

  const EPIPE: nat := 32
  const EPROTO: nat := 71
  const ETIMEDOUT: nat := 110

  datatype Error =
    | Io(errno: nat)
    | PayloadTooLarge(len: nat)
    | BadOp(op: nat)
    | BadSequence
    | BadLength
    | BadResponse
    | UnalignedLength(len: nat, unit: nat)
    | BadArg(e: ArgError)

  datatype Request =
    | Open(sequence: nat, flags: nat)
    | Release(sequence: nat)
    | Write(sequence: nat, offset: nat, flags: nat, data: seq<byte>)
    | Read(sequence: nat, offset: nat, size: nat, flags: nat)
    | Ioctl(sequence: nat, cmd: nat, arg: Arg)
    | Poll(sequence: nat, kh: nat, flags: nat, events: nat)
    | Interrupt(sequence: nat)

  // Field widths of headers and fixed parts.
  const REQ_HEADER: seq<nat> := [1, 3, 4, 8]       // op, padding, len, seq
  const RSP_HEADER: seq<nat> := [1, 1, 2, 4, 8]    // op, padding, err, len, seq
  const W_OPEN: seq<nat> := [4, 4]
  const W_TRIPLE: seq<nat> := [8, 4, 4]            // write, read and poll
  const W_IOCTL: seq<nat> := [4, 1, 3]
  const W_RESULT: seq<nat> := [8, 1, 7]            // ioctl reply

  lemma HeaderSizes()
    ensures Size(REQ_HEADER) == 16 && Size(RSP_HEADER) == 16
  {
    assert REQ_HEADER[1..] == [3, 4, 8] && [3, 4, 8][1..] == [4, 8] && [4, 8][1..] == [8];
    assert RSP_HEADER[1..] == [1, 2, 4, 8] && [1, 2, 4, 8][1..] == [2, 4, 8] && [2, 4, 8][1..] == [4, 8];
    assert Size([8]) == 8 && Size([4, 8]) == 12 && Size([3, 4, 8]) == 15;
    assert Size([2, 4, 8]) == 14 && Size([1, 2, 4, 8]) == 15;
  }

  lemma BodySizes()
    ensures Size(W_OPEN) == 8 && Size(W_TRIPLE) == 16 && Size(W_IOCTL) == 8 && Size(W_RESULT) == 16
  {
    assert W_OPEN[1..] == [4] && W_TRIPLE[1..] == [4, 4] && [4, 4][1..] == [4];
    assert W_IOCTL[1..] == [1, 3] && [1, 3][1..] == [3];
    assert W_RESULT[1..] == [1, 7] && [1, 7][1..] == [7];
    assert Size([4]) == 4 && Size([3]) == 3 && Size([7]) == 7;
    assert Size([4, 4]) == 8 && Size([1, 3]) == 4 && Size([1, 7]) == 8;
  }

  // ---- receiving with a length budget ----

  /** The next `n` bytes of a frame that still has `avail` bytes. */
  function Take(rest: seq<byte>, avail: nat, n: nat): (r: Result<(seq<byte>, seq<byte>, nat), Error>)
    ensures r.Success? ==> |r.value.0| == n && r.value.0 + r.value.1 == rest && r.value.2 == avail - n
  {
    if avail < n then Failure(Io(EPROTO))
    else if |rest| < n then Failure(Io(EPIPE))
    else Success((rest[..n], rest[n..], avail - n))
  }

  lemma TakeAll(a: seq<byte>, b: seq<byte>, avail: nat)
    requires avail >= |a|
    ensures Take(a + b, avail, |a|) == Success((a, b, avail - |a|))
  {
    assert (a + b)[..|a|] == a && (a + b)[|a|..] == b;
  }

  // ---- requests ----

  function Op(r: Request): nat {
    match r
    case Open(_, _) => 1 case Release(_) => 2 case Write(_, _, _, _) => 3 case Read(_, _, _, _) => 4
    case Ioctl(_, _, _) => 5 case Poll(_, _, _, _) => 6 case Interrupt(_) => 7
  }

  predicate Formed(r: Request) { r.Ioctl? ==> r.arg.Formed() }

  ghost predicate Valid(r: Request) {
    && Formed(r)
    && 0 < r.sequence < Pow256(8)
    && match r
       case Open(_, flags) => flags < Pow256(4)
       case Write(_, offset, flags, _) => offset < Pow256(8) && flags < Pow256(4)
       case Read(_, offset, size, flags) => offset < Pow256(8) && size < Pow256(4) && flags < Pow256(4)
       case Ioctl(_, cmd, arg) => cmd < Pow256(4) && arg.Valid()
       case Poll(_, kh, flags, events) => kh < Pow256(8) && flags < Pow256(4) && events < Pow256(4)
       case _ => true
  }

  /** The fixed part of the payload. */
  function Fixed(r: Request): seq<byte> {
    match r
    case Open(_, flags) => Put(Big, W_OPEN, [flags, 0])
    case Write(_, offset, flags, _) => Put(Big, W_TRIPLE, [offset, flags, 0])
    case Read(_, offset, size, flags) => Put(Big, W_TRIPLE, [offset, size, flags])
    case Ioctl(_, cmd, arg) => Put(Big, W_IOCTL, [cmd, Code(arg), 0])
    case Poll(_, kh, flags, events) => Put(Big, W_TRIPLE, [kh, flags, events])
    case _ => []
  }

  /** The variable part of the payload. */
  function Data(r: Request): seq<byte>
    requires Formed(r)
  {
    match r
    case Write(_, _, _, data) => data
    case Ioctl(_, _, arg) => ToBytes(arg)
    case _ => []
  }

  function PayloadLen(r: Request): nat
    requires Formed(r)
  {
    |Fixed(r)| + |Data(r)|
  }

  /** The length of the payload as a number. */
  function WireLen(r: Request): nat {
    match r
    case Open(_, _) => 8
    case Write(_, _, _, data) => 16 + |data|
    case Read(_, _, _, _) => 16
    case Ioctl(_, _, arg) => 8 + ArgLen(arg)
    case Poll(_, _, _, _) => 16
    case _ => 0
  }

  lemma WireLenExact(r: Request)
    requires Formed(r)
    ensures WireLen(r) == PayloadLen(r)
  {
    BodySizes();
    if r.Ioctl? { ArgLenExact(r.arg); }
  }

  function RequestHeader(r: Request): (h: seq<byte>)
    requires Formed(r)
    ensures |h| == HEADER_SZ
  {
    HeaderSizes();
    Put(Big, REQ_HEADER, [Op(r), 0, PayloadLen(r), r.sequence])
  }

  /** The bytes of one vectored send. */
  function RequestBytes(r: Request): seq<byte>
    requires Formed(r)
  {
    RequestHeader(r) + (Fixed(r) + Data(r))
  }

  /** Command, argument code and argument bytes of an ioctl, and what follows them. */
  function IoctlParts(s: seq<byte>, len: nat): Result<(nat, nat, seq<byte>, seq<byte>, nat), Error> {
    BodySizes();
    var (b, s1, l1) :- Take(s, len, 8);
    var f := Get(Big, W_IOCTL, b);
    var (raw, s2, l2) :- Take(s1, l1, l1);
    Success((f[0], f[1], raw, s2, l2))
  }

  /** The payload of a request with operation `op` and sequence number `q`. */
  function ParsePayload(op: nat, q: nat, s: seq<byte>, len: nat)
    : Result<(Request, seq<byte>, nat), Error>
    requires 1 <= op <= 7
  {
    BodySizes();
    match op
    case 1 =>
      var (b, s1, l1) :- Take(s, len, 8);
      Success((Open(q, Get(Big, W_OPEN, b)[0]), s1, l1))
    case 2 => Success((Release(q), s, len))
    case 3 =>
      var (b, s1, l1) :- Take(s, len, 16);
      var f := Get(Big, W_TRIPLE, b);
      var (data, s2, l2) :- Take(s1, l1, l1);
      Success((Write(q, f[0], f[1], data), s2, l2))
    case 4 =>
      var (b, s1, l1) :- Take(s, len, 16);
      var f := Get(Big, W_TRIPLE, b);
      Success((Read(q, f[0], f[1], f[2]), s1, l1))
    case 5 =>
      var (cmd, code, raw, s2, l2) :- IoctlParts(s, len);
      (match FromRaw(code % 0x100, raw)
       case Failure(e) => Failure(BadArg(e))
       case Success(arg) => Success((Ioctl(q, cmd, arg), s2, l2)))
    case 6 =>
      var (b, s1, l1) :- Take(s, len, 16);
      var f := Get(Big, W_TRIPLE, b);
      Success((Poll(q, f[0], f[1], f[2]), s1, l1))
    case _ => Success((Interrupt(q), s, len))
  }

  /** What follows once the header fields are known. */
  function AfterHeader(op: nat, len: nat, q: nat, s: seq<byte>): Result<(Request, seq<byte>), Error> {
    if len > MAX_SZ then Failure(PayloadTooLarge(len))
    else if !(1 <= op <= 7) then Failure(BadOp(op))
    else if q == 0 then Failure(BadSequence)
    else
      var (r, rest, left) :- ParsePayload(op, q, s, len);
      if left == 0 then Success((r, rest)) else Failure(BadLength)
  }

  /** One request and the stream behind it. */
  function ParseRequest(s: seq<byte>): Result<(Request, seq<byte>), Error> {
    if |s| < HEADER_SZ then Failure(Io(EPIPE))
    else
      HeaderSizes();
      var f := Get(Big, REQ_HEADER, s[..HEADER_SZ]);
      AfterHeader(f[0], f[2], f[3], s[HEADER_SZ..])
  }

  lemma ParseHeader(h: seq<byte>, s: seq<byte>, op: nat, pad: nat, len: nat, q: nat)
    requires |h| == HEADER_SZ && |h| >= Size(REQ_HEADER) && Get(Big, REQ_HEADER, h) == [op, pad, len, q]
    ensures ParseRequest(h + s) == AfterHeader(op, len, q, s)
  {
    assert (h + s)[..HEADER_SZ] == h && (h + s)[HEADER_SZ..] == s;
  }

  lemma HeaderBack(r: Request)
    requires Valid(r) && PayloadLen(r) < Pow256(4)
    ensures |RequestHeader(r)| >= Size(REQ_HEADER)
    ensures Get(Big, REQ_HEADER, RequestHeader(r)) == [Op(r), 0, PayloadLen(r), r.sequence]
  {
    Widths();
    HeaderSizes();
    var vals := [Op(r), 0, PayloadLen(r), r.sequence];
    assert vals[1] < Pow256(3);
    GetPut(Big, REQ_HEADER, vals, []);
    assert RequestHeader(r) + [] == RequestHeader(r);
  }

  lemma RecordBack(widths: seq<nat>, vals: seq<nat>)
    requires InRange(widths, vals)
    ensures Get(Big, widths, Put(Big, widths, vals)) == vals
  {
    GetPut(Big, widths, vals, []);
    assert Put(Big, widths, vals) + [] == Put(Big, widths, vals);
  }

  lemma FixedBack(r: Request)
    requires Valid(r)
    ensures match r
            case Open(_, flags) => |Fixed(r)| == 8 && Get(Big, W_OPEN, Fixed(r)) == [flags, 0]
            case Write(_, offset, flags, _) => |Fixed(r)| == 16 && Get(Big, W_TRIPLE, Fixed(r)) == [offset, flags, 0]
            case Read(_, offset, size, flags) => |Fixed(r)| == 16 && Get(Big, W_TRIPLE, Fixed(r)) == [offset, size, flags]
            case Ioctl(_, cmd, arg) => |Fixed(r)| == 8 && Get(Big, W_IOCTL, Fixed(r)) == [cmd, Code(arg), 0]
            case Poll(_, kh, flags, events) => |Fixed(r)| == 16 && Get(Big, W_TRIPLE, Fixed(r)) == [kh, flags, events]
            case _ => Fixed(r) == []
  {
    Widths();
    BodySizes();
    match r
    case Open(_, flags) => RecordBack(W_OPEN, [flags, 0]);
    case Write(_, offset, flags, _) => RecordBack(W_TRIPLE, [offset, flags, 0]);
    case Read(_, offset, size, flags) => RecordBack(W_TRIPLE, [offset, size, flags]);
    case Ioctl(_, cmd, arg) =>
      assert [cmd, Code(arg) as nat, 0][2] < Pow256(3);
      RecordBack(W_IOCTL, [cmd, Code(arg), 0]);
    case Poll(_, kh, flags, events) => RecordBack(W_TRIPLE, [kh, flags, events]);
    case _ =>
  }

  lemma FixedPayloadBack(r: Request, rest: seq<byte>)
    requires Valid(r) && !r.Write? && !r.Ioctl?
    ensures ParsePayload(Op(r), r.sequence, Fixed(r) + rest, |Fixed(r)|) == Success((r, rest, 0))
  {
    FixedBack(r);
    TakeAll(Fixed(r), rest, |Fixed(r)|);
    assert Fixed(r) == [] ==> Fixed(r) + rest == rest;
  }

  lemma WriteBack(q: nat, head: seq<byte>, offset: nat, flags: nat, pad: nat, data: seq<byte>, rest: seq<byte>)
    requires |head| == 16 && |head| >= Size(W_TRIPLE) && Get(Big, W_TRIPLE, head) == [offset, flags, pad]
    ensures ParsePayload(3, q, head + (data + rest), 16 + |data|) == Success((Write(q, offset, flags, data), rest, 0))
  {
    TakeAll(head, data + rest, 16 + |data|);
    TakeAll(data, rest, |data|);
  }

  lemma IoctlPartsBack(head: seq<byte>, cmd: nat, code: nat, pad: nat, data: seq<byte>, rest: seq<byte>)
    requires |head| == 8 && |head| >= Size(W_IOCTL) && Get(Big, W_IOCTL, head) == [cmd, code, pad]
    ensures IoctlParts(head + (data + rest), 8 + |data|) == Success((cmd, code, data, rest, 0))
  {
    TakeAll(head, data + rest, 8 + |data|);
    TakeAll(data, rest, |data|);
  }

  lemma IoctlBack(q: nat, cmd: nat, arg: Arg, rest: seq<byte>)
    requires cmd < Pow256(4) && arg.Valid() && arg.Formed()
    ensures ParsePayload(5, q, Put(Big, W_IOCTL, [cmd, Code(arg), 0]) + (ToBytes(arg) + rest), 8 + |ToBytes(arg)|)
            == Success((Ioctl(q, cmd, arg), rest, 0))
  {
    BodySizes();
    Widths();
    var vals := [cmd, Code(arg) as nat, 0];
    assert vals[2] < Pow256(3);
    RecordBack(W_IOCTL, vals);
    IoctlPartsBack(Put(Big, W_IOCTL, vals), cmd, Code(arg), 0, ToBytes(arg), rest);
    WireRoundTrip(arg);
  }

  lemma DataPayloadBack(r: Request, rest: seq<byte>)
    requires Valid(r) && (r.Write? || r.Ioctl?)
    ensures ParsePayload(Op(r), r.sequence, Fixed(r) + (Data(r) + rest), PayloadLen(r)) == Success((r, rest, 0))
  {
    BodySizes();
    FixedBack(r);
    if r.Write? {
      WriteBack(r.sequence, Fixed(r), r.offset, r.flags, 0, r.data, rest);
    } else {
      IoctlBack(r.sequence, r.cmd, r.arg, rest);
    }
  }

  lemma PayloadBack(r: Request, rest: seq<byte>)
    requires Valid(r)
    ensures ParsePayload(Op(r), r.sequence, Fixed(r) + (Data(r) + rest), PayloadLen(r)) == Success((r, rest, 0))
  {
    if r.Write? || r.Ioctl? {
      DataPayloadBack(r, rest);
    } else {
      Associate(Fixed(r), Data(r), rest);
      FixedPayloadBack(r, rest);
    }
  }

  /**
   A sent request is received unchanged, with its sequence number and nothing of the stream
   behind it, exactly if its payload has at most 0x10000 bytes; a larger one is an error.
   */
  lemma RequestRoundTrip(r: Request, rest: seq<byte>)
    requires Valid(r) && PayloadLen(r) < Pow256(4)
    ensures ParseRequest(RequestBytes(r) + rest)
            == if PayloadLen(r) <= MAX_SZ then Success((r, rest)) else Failure(PayloadTooLarge(PayloadLen(r)))
  {
    var h, fixed, data := RequestHeader(r), Fixed(r), Data(r);
    Associate(h, fixed + data, rest);
    Associate(fixed, data, rest);
    HeaderBack(r);
    ParseHeader(h, fixed + (data + rest), Op(r), 0, PayloadLen(r), r.sequence);
    PayloadBack(r, rest);
  }

  function SentRequests(rs: seq<Request>): seq<byte>
    requires forall i :: 0 <= i < |rs| ==> Formed(rs[i])
  {
    if rs == [] then [] else RequestBytes(rs[0]) + SentRequests(rs[1..])
  }

  lemma ParseProgress(s: seq<byte>)
    ensures ParseRequest(s).Success? ==> |ParseRequest(s).value.1| < |s|
  {
    if ParseRequest(s).Success? {
      var f := HeaderOf(s);
      PayloadShrinks(f[0], f[3], s[HEADER_SZ..], f[2]);
    }
  }

  function HeaderOf(s: seq<byte>): (f: seq<nat>)
    requires |s| >= HEADER_SZ
    ensures |f| == 4
  {
    HeaderSizes();
    Get(Big, REQ_HEADER, s[..HEADER_SZ])
  }

  lemma PayloadShrinks(op: nat, q: nat, s: seq<byte>, len: nat)
    requires 1 <= op <= 7
    ensures var p := ParsePayload(op, q, s, len); p.Success? ==> |p.value.1| <= |s|
  {
  }

  /** Requests received one after the other until the stream ends, and how it ends. */
  function ReceiveRequests(s: seq<byte>): (seq<Request>, Option<Error>)
    decreases |s|
  {
    if s == [] then ([], None)
    else
      match ParseRequest(s)
      case Failure(e) => ([], Some(e))
      case Success((r, rest)) =>
        ParseProgress(s);
        var (more, e) := ReceiveRequests(rest);
        ([r] + more, e)
  }

  lemma ReceiveOne(r: Request, rest: seq<byte>)
    requires Valid(r) && PayloadLen(r) <= MAX_SZ
    ensures var (more, e) := ReceiveRequests(rest);
            ReceiveRequests(RequestBytes(r) + rest) == ([r] + more, e)
  {
    Widths();
    RequestRoundTrip(r, rest);
  }

  /** Any list of requests arrives as that list, and nothing is left over. */
  lemma {:induction false} RequestStream(rs: seq<Request>)
    requires forall i :: 0 <= i < |rs| ==> Formed(rs[i]) && Valid(rs[i]) && PayloadLen(rs[i]) <= MAX_SZ
    ensures ReceiveRequests(SentRequests(rs)) == (rs, None)
  {
    if rs != [] {
      ReceiveOne(rs[0], SentRequests(rs[1..]));
      RequestStream(rs[1..]);
      assert rs == [rs[0]] + rs[1..];
    }
  }

  /** What the client announces to the kernel as the largest write. */
  const MAX_WRITE: nat := 0x2_0000 - 0x1000

  /** Not every write the client announces can be sent: beyond 0xFFF0 bytes the server errs. */
  lemma WriteLimitExactly(r: Request, rest: seq<byte>)
    requires Valid(r) && r.Write? && |r.data| <= MAX_WRITE
    ensures ParseRequest(RequestBytes(r) + rest) == Success((r, rest)) <==> |r.data| <= 0xFFF0
  {
    Widths();
    FixedBack(r);
    RequestRoundTrip(r, rest);
  }
}
