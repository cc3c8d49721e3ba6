/**
 Messages from the kernel (protocol version 7 of linux/fuse.h): a header that carries the
 length of the whole message, one record per operation, and for some operations a payload.
 */
module CuseMessages {
  import opened Base
  import opened Endian
  import opened Records

  datatype Error = Eof | Alignment(n: nat) | BadSize(n: nat) | BadTruncate(pos: nat, consumed: nat)

  const FUSE_OPEN: nat := 14
  const FUSE_READ: nat := 15
  const FUSE_WRITE: nat := 16
  const FUSE_RELEASE: nat := 18
  const FUSE_INTERRUPT: nat := 36
  const FUSE_IOCTL: nat := 39
  const FUSE_POLL: nat := 40
  const CUSE_INIT: nat := 4096

  const W_HEADER: seq<nat> := [4, 4, 8, 8, 4, 4, 4, 4]     // len, opcode, unique, nodeid, uid, gid, pid, padding

  datatype Info = Info(opcode: nat, unique: nat, nodeid: nat, uid: nat, gid: nat, pid: nat)

  datatype Op =
    | Unknown
    | Init(major: nat, minor: nat, initFlags: nat)
    | Open(flags: nat, openFlags: nat)
    | Release(fh: nat, flags: nat, releaseFlags: nat, lockOwner: nat)
    | Write(fh: nat, offset: nat, writeFlags: nat, lockOwner: nat, flags: nat, data: seq<byte>)
    | Read(fh: nat, offset: nat, size: nat, readFlags: nat, lockOwner: nat, flags: nat)
    | Interrupt(unique: nat)
    | Ioctl(fh: nat, flags: nat, cmd: nat, arg: nat, outSize: nat, data: seq<byte>)
    | Poll(fh: nat, kh: nat, flags: nat, events: nat)

  // ---- records ----

  predicate Listed(opcode: nat) {
    opcode == FUSE_OPEN || opcode == FUSE_READ || opcode == FUSE_WRITE || opcode == FUSE_RELEASE
    || opcode == FUSE_INTERRUPT || opcode == FUSE_IOCTL || opcode == FUSE_POLL || opcode == CUSE_INIT
  }

  /** Field widths of the operation's record. */
  function Layout(opcode: nat): seq<nat>
    requires Listed(opcode)
  {
    if opcode == CUSE_INIT then [4, 4, 4, 4]
    else if opcode == FUSE_OPEN then [4, 4]
    else if opcode == FUSE_RELEASE then [8, 4, 4, 8]
    else if opcode == FUSE_WRITE || opcode == FUSE_READ then [8, 8, 4, 4, 8, 4, 4]
    else if opcode == FUSE_INTERRUPT then [8]
    else if opcode == FUSE_IOCTL then [8, 4, 4, 8, 4, 4]
    else [8, 8, 4, 4]
  }

  function Align(opcode: nat): nat {
    if opcode == CUSE_INIT || opcode == FUSE_OPEN then 4 else 8
  }

  /** How many payload bytes the record announces. */
  function PayloadLen(opcode: nat, vals: seq<nat>): nat
    requires Listed(opcode) && |vals| == |Layout(opcode)|
  {
    if opcode == FUSE_WRITE then vals[2] else if opcode == FUSE_IOCTL then vals[4] else 0
  }

  function OpOf(opcode: nat, vals: seq<nat>, data: seq<byte>): Op
    requires Listed(opcode) && |vals| == |Layout(opcode)|
  {
    if opcode == CUSE_INIT then Init(vals[0], vals[1], vals[3])
    else if opcode == FUSE_OPEN then Open(vals[0], vals[1])
    else if opcode == FUSE_RELEASE then Release(vals[0], vals[1], vals[2], vals[3])
    else if opcode == FUSE_WRITE then Write(vals[0], vals[1], vals[3], vals[4], vals[5], data)
    else if opcode == FUSE_READ then Read(vals[0], vals[1], vals[2], vals[3], vals[4], vals[5])
    else if opcode == FUSE_INTERRUPT then Interrupt(vals[0])
    else if opcode == FUSE_IOCTL then Ioctl(vals[0], vals[1], vals[2], vals[3], vals[5], data)
    else Poll(vals[0], vals[1], vals[2], vals[3])
  }

  function InfoOf(hdr: seq<nat>): Info
    requires |hdr| == |W_HEADER|
  {
    Info(hdr[1], hdr[2], hdr[3], hdr[4], hdr[5], hdr[6])
  }

  /** The fields of a record at the start of what is left. */
  function Fields(h: Host, w: seq<nat>, buf: seq<byte>): Result<seq<nat>, Error> {
    if buf == [] then Failure(Eof)
    else if |buf| < Size(w) then Failure(BadSize(|buf|))
    else Success(Get(h, w, buf))
  }

  function Taken(n: nat, buf: seq<byte>): Result<seq<byte>, Error> {
    if n == 0 then Success([])
    else if buf == [] then Failure(Eof)
    else if |buf| < n then Failure(BadSize(0))
    else Success(buf[..n])
  }

  /** What reading a message gives, with the errors in the order in which they are found. */
  function Parse(h: Host, msg: seq<byte>): Result<(Info, Op), Error> {
    ParseWith(h, W_HEADER, msg)
  }

  /** A message whose header has fields of widths `w`. */
  function ParseWith(h: Host, w: seq<nat>, msg: seq<byte>): Result<(Info, Op), Error>
    requires |w| == |W_HEADER|
  {
    match Fields(h, w, msg)
    case Failure(e) => Failure(e)
    case Success(hdr) => Within(h, hdr, Size(w), msg)
  }

  /** The rest of a message whose header of `used` bytes was read. */
  function Within(h: Host, hdr: seq<nat>, used: nat, msg: seq<byte>): Result<(Info, Op), Error>
    requires |hdr| == |W_HEADER|
  {
    if hdr[0] < used then Failure(BadTruncate(hdr[0], used))
    else if hdr[0] > |msg| then Failure(BadSize(hdr[0] - |msg|))
    else
      match ParseBody(h, hdr[1], msg[used..hdr[0]])
      case Failure(e) => Failure(e)
      case Success(op) => Success((InfoOf(hdr), op))
  }

  function ParseBody(h: Host, opcode: nat, body: seq<byte>): Result<Op, Error> {
    if !Listed(opcode) then Success(Unknown) else ParseRecord(h, opcode, Layout(opcode), body)
  }

  /** A record with fields of widths `w`, and its payload. */
  function ParseRecord(h: Host, opcode: nat, w: seq<nat>, body: seq<byte>): Result<Op, Error>
    requires Listed(opcode) && |w| == |Layout(opcode)|
  {
    match Fields(h, w, body)
    case Failure(e) => Failure(e)
    case Success(vals) =>
      match Taken(PayloadLen(opcode, vals), body[Size(w)..])
      case Failure(e) => Failure(e)
      case Success(data) => Success(OpOf(opcode, vals, data))
  }

  // ---- the iterator ----

  /** Bytes up to the next aligned position of a buffer that starts aligned. */
  function Skew(consumed: nat, align: nat): nat
    requires align > 0
  {
    (align - consumed % align) % align
  }

  class ReadBufIter {
    var buf: seq<byte>
    var consumed: nat

    constructor (message: seq<byte>)
      ensures buf == message && consumed == 0
    {
      buf, consumed := message, 0;
    }

    /** Takes one record of a given size and alignment; nothing is taken on failure or at the end. */
    method Next(size: nat, align: nat) returns (r: Result<Option<seq<byte>>, Error>)
      requires size > 0 && align > 0
      modifies this
      ensures r == Success(None) <==> old(buf) == []
      ensures r.Success? && r.value.Some? <==> Skew(old(consumed), align) == 0 && |old(buf)| >= size
      ensures r.Success? && r.value.Some? ==>
                |r.value.value| == size && r.value.value + buf == old(buf) && consumed == old(consumed) + size
      ensures r.Failure? || r.value.None? ==> buf == old(buf) && consumed == old(consumed)
      ensures r.Failure? && Skew(old(consumed), align) == 0 ==> r.error == BadSize(|old(buf)|)
    {
      if buf == [] {
        return Success(None);
      }
      var head := Min(Skew(consumed, align), |buf|);
      if head != 0 {
        return Failure(Alignment(head));
      }
      if |buf| < size {
        return Failure(BadSize(|buf|));
      }
      r := Success(Some(buf[..size]));
      assert buf[..size] + buf[size..] == buf;
      buf, consumed := buf[size..], consumed + size;
    }

    /** Takes `cnt` elements of a given size and alignment. */
    method NextSlice(cnt: nat, size: nat, align: nat) returns (r: Result<Option<seq<byte>>, Error>)
      requires size > 0 && align > 0
      modifies this
      ensures r == Success(None) <==> cnt != 0 && old(buf) == []
      ensures r.Success? && r.value.Some? <==>
                cnt == 0 || (old(buf) != [] && Skew(old(consumed), align) == 0 && |old(buf)| / size >= cnt)
      ensures r.Success? && r.value.Some? ==>
                && |r.value.value| == size * cnt && r.value.value + buf == old(buf)
                && consumed == old(consumed) + size * cnt
      ensures r.Failure? || r.value.None? ==> buf == old(buf) && consumed == old(consumed)
      ensures r.Failure? && Skew(old(consumed), align) == 0 ==> r.error == BadSize(|old(buf)| % size)
    {
      if cnt == 0 {
        assert [] + buf == buf;
        return Success(Some([]));
      }
      if buf == [] {
        return Success(None);
      }
      var head := Min(Skew(consumed, align), |buf|);
      if head != 0 {
        return Failure(Alignment(head));
      }
      if |buf| / size < cnt {
        return Failure(BadSize(|buf| % size));
      }
      WholeElements(|buf|, size, cnt);
      var sz := size * cnt;
      r := Success(Some(buf[..sz]));
      assert buf[..sz] + buf[sz..] == buf;
      buf, consumed := buf[sz..], consumed + sz;
    }

    /** Forgets everything from position `pos` of the message on. */
    method Truncate(pos: nat) returns (r: Result<nat, Error>)
      modifies this
      ensures r.Success? <==> old(consumed) <= pos <= old(consumed) + |old(buf)|
      ensures r.Success? ==> consumed + |buf| == pos && buf <= old(buf) && r.value == |old(buf)| - |buf|
      ensures consumed == old(consumed) && (r.Failure? ==> buf == old(buf))
      ensures r.Failure? ==> r.error == if pos < consumed then BadTruncate(pos, consumed)
                                        else BadSize(pos - consumed - |buf|)
    {
      if pos < consumed {
        return Failure(BadTruncate(pos, consumed));
      }
      var left := pos - consumed;
      if left > |buf| {
        return Failure(BadSize(left - |buf|));
      }
      r := Success(|buf| - left);
      buf := buf[..left];
    }
  }

  lemma WholeElements(len: nat, size: nat, cnt: nat)
    requires size > 0 && len / size >= cnt
    ensures size * cnt <= len
  {
    assert len == size * (len / size) + len % size;
    assert size * (len / size) >= size * cnt;
  }

  lemma HeaderSize()
    ensures Size(W_HEADER) == 40
  {
    assert Size([4, 4, 4, 4]) == 16;
    assert W_HEADER[4..] == [4, 4, 4, 4];
    assert W_HEADER[3..][1..] == W_HEADER[4..] && W_HEADER[2..][1..] == W_HEADER[3..];
    assert W_HEADER[1..][1..] == W_HEADER[2..];
  }

  lemma RecordSize(opcode: nat)
    requires Listed(opcode)
    ensures Size(Layout(opcode)) > 0
  {
  }

  lemma RecordAligned(opcode: nat)
    ensures Align(opcode) > 0 && Skew(40, Align(opcode)) == 0
  {
  }

  lemma DropTwice(s: seq<byte>, a: nat, b: nat)
    requires a + b <= |s|
    ensures s[a..][b..] == s[a + b..]
  {
  }

  /**
   Reads one message.  Afterwards the iterator stands behind what was used, and what was used
   together with what is left is exactly the length that the header announced.
   */
  method ReadOp(h: Host, iter: ReadBufIter) returns (r: Result<(Info, Op), Error>)
    requires iter.consumed == 0
    modifies iter
    ensures r == Parse(h, old(iter.buf))
    ensures r.Success? ==>
              var len := Get(h, W_HEADER, old(iter.buf))[0];
              iter.consumed <= len <= |old(iter.buf)| && iter.buf == old(iter.buf)[iter.consumed..len]
  {
    ghost var msg := iter.buf;
    HeaderSize();
    var hdr :- ReadFields(h, W_HEADER, 8, iter);
    var cut :- iter.Truncate(hdr[0]);
    assert iter.buf == msg[Size(W_HEADER)..hdr[0]];
    var op :- ReadRecord(h, hdr[1], iter);
    assert msg[Size(W_HEADER)..hdr[0]][iter.consumed - 40..] == msg[iter.consumed..hdr[0]];
    return Success((InfoOf(hdr), op));
  }

  /** Reads the fields of one record. */
  method ReadFields(h: Host, w: seq<nat>, align: nat, iter: ReadBufIter) returns (r: Result<seq<nat>, Error>)
    requires Size(w) > 0 && align > 0 && Skew(iter.consumed, align) == 0
    modifies iter
    ensures r == Fields(h, w, old(iter.buf))
    ensures r.Success? ==> iter.consumed == old(iter.consumed) + Size(w) && iter.buf == old(iter.buf)[Size(w)..]
    ensures r.Failure? ==> iter.consumed == old(iter.consumed) && iter.buf == old(iter.buf)
  {
    ghost var body := iter.buf;
    var raw := iter.Next(Size(w), align);
    if raw.Failure? { return Failure(raw.error); }
    if raw.value.None? { return Failure(Eof); }
    GetPrefix(h, w, body, raw.value.value);
    assert iter.buf == body[Size(w)..];
    return Success(Get(h, w, raw.value.value));
  }

  /** Reads a payload of `n` bytes. */
  method ReadPayload(n: nat, iter: ReadBufIter) returns (r: Result<seq<byte>, Error>)
    modifies iter
    ensures r == Taken(n, old(iter.buf))
    ensures r.Success? ==> iter.consumed == old(iter.consumed) + n && iter.buf == old(iter.buf)[n..]
    ensures r.Failure? ==> iter.consumed == old(iter.consumed) && iter.buf == old(iter.buf)
  {
    ghost var body := iter.buf;
    var data := iter.NextSlice(n, 1, 1);
    if data.Failure? { return Failure(data.error); }
    if data.value.None? { return Failure(Eof); }
    assert data.value.value == body[..n] && iter.buf == body[n..];
    return Success(data.value.value);
  }

  method ReadRecord(h: Host, opcode: nat, iter: ReadBufIter) returns (r: Result<Op, Error>)
    requires iter.consumed == 40
    modifies iter
    ensures r == ParseBody(h, opcode, old(iter.buf))
    ensures 40 <= iter.consumed <= 40 + |old(iter.buf)| && iter.buf == old(iter.buf)[iter.consumed - 40..]
  {
    ghost var body := iter.buf;
    if !Listed(opcode) { return Success(Unknown); }
    var w := Layout(opcode);
    RecordSize(opcode);
    RecordAligned(opcode);
    var vals :- ReadFields(h, w, Align(opcode), iter);
    var n := PayloadLen(opcode, vals);
    var data :- ReadPayload(n, iter);
    DropTwice(body, Size(w), n);
    return Success(OpOf(opcode, vals, data));
  }

  /** The fields of a record depend on its own bytes only. */
  lemma {:induction false} GetPrefix(h: Host, widths: seq<nat>, raw: seq<byte>, own: seq<byte>)
    requires Size(widths) <= |own| <= |raw| && own == raw[..|own|]
    ensures Get(h, widths, raw) == Get(h, widths, own)
  {
    if widths != [] {
      var w := widths[0];
      assert raw[..w] == own[..w];
      assert own[w..] == raw[w..][..|own| - w];
      GetPrefix(h, widths[1..], raw[w..], own[w..]);
    }
  }

  // ---- what parsing means ----

  /** A body behind a header that counts it. */
  function Framing(h: Host, info: Info, body: seq<byte>): seq<byte> {
    Put(h, W_HEADER, HeaderVals(info, Size(W_HEADER) + |body|)) + body
  }

  /** The message as the kernel lays it out; `extra` are further bytes that the header counts. */
  function Message(h: Host, info: Info, op: Op, extra: seq<byte>): seq<byte> {
    Framing(h, info, Body(h, op) + extra)
  }

  function HeaderVals(info: Info, len: nat): (r: seq<nat>)
    ensures |r| == |W_HEADER|
  {
    [len, info.opcode, info.unique, info.nodeid, info.uid, info.gid, info.pid, 0]
  }

  function Opcode(op: Op): nat {
    match op
    case Unknown => 0
    case Init(_, _, _) => CUSE_INIT
    case Open(_, _) => FUSE_OPEN
    case Release(_, _, _, _) => FUSE_RELEASE
    case Write(_, _, _, _, _, _) => FUSE_WRITE
    case Read(_, _, _, _, _, _) => FUSE_READ
    case Interrupt(_) => FUSE_INTERRUPT
    case Ioctl(_, _, _, _, _, _) => FUSE_IOCTL
    case Poll(_, _, _, _) => FUSE_POLL
  }

  function Payload(op: Op): seq<byte> {
    if op.Write? || op.Ioctl? then op.data else []
  }

  function Vals(op: Op): (r: seq<nat>)
    requires !op.Unknown?
    ensures |r| == |Layout(Opcode(op))|
  {
    match op
    case Init(major, minor, flags) => [major, minor, 0, flags]
    case Open(flags, openFlags) => [flags, openFlags]
    case Release(fh, flags, releaseFlags, owner) => [fh, flags, releaseFlags, owner]
    case Write(fh, offset, writeFlags, owner, flags, data) => [fh, offset, |data|, writeFlags, owner, flags, 0]
    case Read(fh, offset, size, readFlags, owner, flags) => [fh, offset, size, readFlags, owner, flags, 0]
    case Interrupt(unique) => [unique]
    case Ioctl(fh, flags, cmd, arg, outSize, data) => [fh, flags, cmd, arg, |data|, outSize]
    case Poll(fh, kh, flags, events) => [fh, kh, flags, events]
  }

  /** A record and its payload. */
  function Laid(h: Host, opcode: nat, vals: seq<nat>, data: seq<byte>): seq<byte>
    requires Listed(opcode) && |vals| == |Layout(opcode)|
  {
    Put(h, Layout(opcode), vals) + data
  }

  function Body(h: Host, op: Op): seq<byte> {
    if op.Unknown? then [] else Laid(h, Opcode(op), Vals(op), Payload(op))
  }

  /** The operation and its record fit their fields. */
  predicate Formed(info: Info, op: Op) {
    if op.Unknown? then !Listed(info.opcode)
    else info.opcode == Opcode(op) && InRange(Layout(Opcode(op)), Vals(op))
  }

  lemma OpBack(op: Op)
    requires !op.Unknown?
    ensures Listed(Opcode(op))
    ensures PayloadLen(Opcode(op), Vals(op)) == |Payload(op)|
    ensures OpOf(Opcode(op), Vals(op), Payload(op)) == op
  {
  }

  lemma FieldsBack(h: Host, w: seq<nat>, vals: seq<nat>, rest: seq<byte>)
    requires InRange(w, vals) && Size(w) > 0
    ensures Fields(h, w, Put(h, w, vals) + rest) == Success(vals)
    ensures (Put(h, w, vals) + rest)[Size(w)..] == rest
  {
    GetPut(h, w, vals, rest);
  }

  lemma RecordBack(h: Host, opcode: nat, vals: seq<nat>, data: seq<byte>, extra: seq<byte>)
    requires Listed(opcode) && InRange(Layout(opcode), vals) && PayloadLen(opcode, vals) == |data|
    ensures ParseBody(h, opcode, Laid(h, opcode, vals, data) + extra) == Success(OpOf(opcode, vals, data))
  {
    RecordSize(opcode);
    Associate(Put(h, Layout(opcode), vals), data, extra);
    WidthsBack(h, opcode, Layout(opcode), vals, data, extra);
  }

  lemma WidthsBack(h: Host, opcode: nat, w: seq<nat>, vals: seq<nat>, data: seq<byte>, extra: seq<byte>)
    requires Listed(opcode) && |w| == |Layout(opcode)| && InRange(w, vals) && Size(w) > 0
    requires PayloadLen(opcode, vals) == |data|
    ensures ParseRecord(h, opcode, w, Put(h, w, vals) + (data + extra)) == Success(OpOf(opcode, vals, data))
  {
    PartsBack(h, w, vals, data, extra);
  }

  lemma PartsBack(h: Host, w: seq<nat>, vals: seq<nat>, data: seq<byte>, extra: seq<byte>)
    requires InRange(w, vals) && Size(w) > 0
    ensures var body := Put(h, w, vals) + (data + extra);
            Fields(h, w, body) == Success(vals) && Taken(|data|, body[Size(w)..]) == Success(data)
  {
    FieldsBack(h, w, vals, data + extra);
    TakenBack(data, extra);
  }

  lemma TakenBack(data: seq<byte>, extra: seq<byte>)
    ensures Taken(|data|, data + extra) == Success(data)
  {
  }

  lemma BodyBack(h: Host, op: Op, extra: seq<byte>)
    requires !op.Unknown? && InRange(Layout(Opcode(op)), Vals(op))
    ensures ParseBody(h, Opcode(op), Laid(h, Opcode(op), Vals(op), Payload(op)) + extra) == Success(op)
  {
    OpBack(op);
    RecordBack(h, Opcode(op), Vals(op), Payload(op), extra);
  }

  /** A header is read back, and the body it announces is what is parsed. */
  lemma HeaderBack(h: Host, w: seq<nat>, hdr: seq<nat>, body: seq<byte>, junk: seq<byte>)
    requires |w| == |W_HEADER| && InRange(w, hdr) && Size(w) > 0 && hdr[0] == Size(w) + |body|
    ensures ParseWith(h, w, Put(h, w, hdr) + (body + junk)) == match ParseBody(h, hdr[1], body)
                                                               case Failure(e) => Failure(e)
                                                               case Success(op) => Success((InfoOf(hdr), op))
  {
    FieldsBack(h, w, hdr, body + junk);
    WithinBack(h, hdr, Size(w), Put(h, w, hdr) + (body + junk), body, junk);
  }

  lemma WithinBack(h: Host, hdr: seq<nat>, used: nat, msg: seq<byte>, body: seq<byte>, junk: seq<byte>)
    requires |hdr| == |W_HEADER| && used <= |msg| && msg[used..] == body + junk && hdr[0] == used + |body|
    ensures Within(h, hdr, used, msg) == match ParseBody(h, hdr[1], body)
                                         case Failure(e) => Failure(e)
                                         case Success(op) => Success((InfoOf(hdr), op))
  {
    SliceBack(msg, used, body, junk);
  }

  lemma SliceBack(msg: seq<byte>, n: nat, body: seq<byte>, junk: seq<byte>)
    requires n <= |msg| && msg[n..] == body + junk
    ensures n + |body| <= |msg| && msg[n..n + |body|] == body
  {
    assert msg[n..][..|body|] == msg[n..n + |body|];
  }

  /** Every message is read back as sent, whatever follows it in the buffer. */
  lemma MessageRoundTrip(h: Host, info: Info, op: Op, extra: seq<byte>, junk: seq<byte>)
    requires Formed(info, op)
    requires InRange(W_HEADER, HeaderVals(info, Size(W_HEADER) + |Body(h, op) + extra|))
    ensures Parse(h, Message(h, info, op, extra) + junk) == Success((info, op))
  {
    FormedBack(h, info, op, extra);
    Framed(h, info, op, Body(h, op) + extra, junk);
  }

  lemma FormedBack(h: Host, info: Info, op: Op, extra: seq<byte>)
    requires Formed(info, op)
    ensures ParseBody(h, info.opcode, Body(h, op) + extra) == Success(op)
  {
    if !op.Unknown? { BodyBack(h, op, extra); }
  }

  lemma Framed(h: Host, info: Info, op: Op, body: seq<byte>, junk: seq<byte>)
    requires InRange(W_HEADER, HeaderVals(info, Size(W_HEADER) + |body|))
    requires ParseBody(h, info.opcode, body) == Success(op)
    ensures Parse(h, Framing(h, info, body) + junk) == Success((info, op))
  {
    var vals := HeaderVals(info, Size(W_HEADER) + |body|);
    HeaderSize();
    Associate(Put(h, W_HEADER, vals), body, junk);
    HeaderBack(h, W_HEADER, vals, body, junk);
  }

  /** The bytes that a message of this operation must have behind its header. */
  function Needed(h: Host, opcode: nat, body: seq<byte>): nat {
    if !Listed(opcode) then 0
    else
      var w := Layout(opcode);
      if |body| < Size(w) then Size(w) else Size(w) + PayloadLen(opcode, Get(h, w, body))
  }

  lemma BodyExactly(h: Host, opcode: nat, body: seq<byte>)
    ensures ParseBody(h, opcode, body).Success? <==> Needed(h, opcode, body) <= |body|
    ensures ParseBody(h, opcode, body).Success? && Listed(opcode) ==>
              var op, w := ParseBody(h, opcode, body).value, Layout(opcode);
              && !op.Unknown? && Opcode(op) == opcode
              && (op.Write? || op.Ioctl? ==> Payload(op) == body[Size(w)..Needed(h, opcode, body)])
  {
    if Listed(opcode) && |body| >= Size(Layout(opcode)) {
      var w := Layout(opcode);
      RecordSize(opcode);
      var n := PayloadLen(opcode, Get(h, w, body));
      if Size(w) + n <= |body| {
        assert body[Size(w)..][..n] == body[Size(w)..Size(w) + n];
      }
    }
  }

  /**
   Parsing succeeds exactly if the header is complete, announces no more than was read, and
   leaves room for the record and its payload; the payload is what follows the record.
   */
  lemma ParseExactly(h: Host, msg: seq<byte>)
    ensures Parse(h, msg).Success? <==>
              && |msg| >= Size(W_HEADER)
              && var hdr := Get(h, W_HEADER, msg);
                 && Size(W_HEADER) <= hdr[0] <= |msg|
                 && Size(W_HEADER) + Needed(h, hdr[1], msg[Size(W_HEADER)..hdr[0]]) <= hdr[0]
  {
    HeaderSize();
    if |msg| >= Size(W_HEADER) {
      var hdr := Get(h, W_HEADER, msg);
      if Size(W_HEADER) <= hdr[0] <= |msg| {
        BodyExactly(h, hdr[1], msg[Size(W_HEADER)..hdr[0]]);
      }
    }
  }

  /** No byte beyond the announced length matters. */
  lemma ParseLocal(h: Host, msg: seq<byte>, other: seq<byte>)
    requires |msg| >= Size(W_HEADER)
    requires Size(W_HEADER) <= Get(h, W_HEADER, msg)[0] <= |msg|
    requires Get(h, W_HEADER, msg)[0] <= |other| && other[..Get(h, W_HEADER, msg)[0]] == msg[..Get(h, W_HEADER, msg)[0]]
    ensures Parse(h, other) == Parse(h, msg)
  {
    HeaderSize();
    var len := Get(h, W_HEADER, msg)[0];
    GetPrefix(h, W_HEADER, msg, msg[..len]);
    GetPrefix(h, W_HEADER, other, other[..len]);
    assert msg[Size(W_HEADER)..len] == msg[..len][Size(W_HEADER)..];
    assert other[Size(W_HEADER)..len] == other[..len][Size(W_HEADER)..];
  }
}
