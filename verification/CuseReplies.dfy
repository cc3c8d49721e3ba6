/** Messages to the kernel: a header with the length of the whole message, then the parts of a reply. */
module CuseReplies {
  import opened Base
  import opened Endian
  import opened Records
  import Bits
  import IoctlNumber
  import C = Client
  import I = IoctlProperties

  const W_OUT: seq<nat> := [4, 4, 8]            // len, error, unique
  const W_PAIR: seq<nat> := [4, 4]              // write and poll replies: value, padding
  const W_IOCTL_OUT: seq<nat> := [4, 4, 4, 4]   // result, flags, in_iovs, out_iovs

  const W_IOVEC: seq<nat> := [8, 8]             // base, len
  const W_NOTIFY: seq<nat> := [8]               // kh

  const UNRESTRICTED: nat := 2
  const RETRY: nat := 4
  const FUSE_NOTIFY_POLL: nat := 1

  datatype Error = BadSend(sent: nat, total: nat)

  /** The 32-bit word that holds a negated error number. */
  function Negated(errno: nat): nat { if errno == 0 then 0 else 0x1_0000_0000 - Min(errno, 0x1_0000_0000) }

  /** The record of an ioctl reply. */
  function IoctlOut(h: Host, result: nat, flags: nat, inputs: nat, outputs: nat): seq<byte> {
    Put(h, W_IOCTL_OUT, [result, flags, inputs, outputs])
  }

  function Vector(h: Host, base: nat, len: nat): seq<byte> { Put(h, W_IOVEC, [base, len]) }

  /** The parts of a reply behind the header. */
  function Parts(h: Host, what: C.KernelReply): seq<seq<byte>> {
    match what
    case KError(_) => []
    case KWritten(n) => [Put(h, W_PAIR, [n, 0])]
    case KData(bytes) => [bytes]
    case KIoctlOut(data) => [IoctlOut(h, 0, UNRESTRICTED, 0, 1)] + OptSeq(data)
    case KPolled(events) => [Put(h, W_PAIR, [events, 0])]
  }

  function VectorParts(h: Host, v: Option<I.Iovec>): seq<seq<byte>> {
    match v case None => [] case Some(i) => [Vector(h, i.base, i.len)]
  }

  /** The parts that ask the kernel to call again with buffers. */
  function RetryParts(h: Host, flags: u32, c: I.Completion): seq<seq<byte>>
    requires c.Retry?
  {
    [IoctlOut(h, 0, Bits.BitOr(flags, RETRY), |OptSeq(c.input)|, |OptSeq(c.output)|)]
    + VectorParts(h, c.input) + VectorParts(h, c.output)
  }

  function OutHeader(h: Host, len: nat, error: nat, unique: nat): (r: seq<byte>)
    ensures |r| == Size(W_OUT)
  {
    Put(h, W_OUT, [len, error, unique])
  }

  function ErrorBytes(h: Host, unique: nat, errno: nat): seq<byte> {
    OutHeader(h, Size(W_OUT), Negated(errno), unique)
  }

  function ResponseBytes(h: Host, unique: nat, parts: seq<seq<byte>>): seq<byte> {
    OutHeader(h, (Size(W_OUT) + |Flatten(parts)|) % 0x1_0000_0000, 0, unique) + Flatten(parts)
  }

  /** What the kernel reads when a reply is written. */
  function ReplyBytes(h: Host, r: C.Reply): seq<byte> {
    if r.what.KError? then ErrorBytes(h, r.unique, r.what.errno)
    else ResponseBytes(h, r.unique, Parts(h, r.what))
  }

  function NotifyBytes(h: Host, kh: nat): seq<byte> {
    OutHeader(h, Size(W_OUT) + Size(W_NOTIFY), FUSE_NOTIFY_POLL, 0) + Put(h, W_NOTIFY, [kh])
  }

  lemma FlattenSnoc(chunks: seq<seq<byte>>, c: seq<byte>)
    ensures Flatten(chunks + [c]) == Flatten(chunks) + c
  {
    assert (chunks + [c])[..|chunks|] == chunks;
  }

  /** The length of a message whose header has `start` bytes. */
  method TotalLen(start: nat, data: seq<seq<byte>>) returns (len: nat)
    ensures len == start + |Flatten(data)|
  {
    len := start;
    var i := 0;
    while i < |data|
      invariant i <= |data| && len == start + |Flatten(data[..i])|
    {
      FlattenSnoc(data[..i], data[i]);
      assert data[..i + 1] == data[..i] + [data[i]];
      len := len + |data[i]|;
      i := i + 1;
    }
    assert data[..i] == data;
  }

  /** The pieces handed to one vectored write: the header, then every part in order. */
  method Gather(hdr: seq<byte>, data: seq<seq<byte>>) returns (iov: seq<seq<byte>>)
    ensures Flatten(iov) == hdr + Flatten(data)
  {
    iov := [hdr];
    FlattenSnoc([], hdr);
    assert [] + [hdr] == iov && Flatten([]) + hdr == hdr;
    var i := 0;
    while i < |data|
      invariant i <= |data| && Flatten(iov) == hdr + Flatten(data[..i])
    {
      FlattenSnoc(iov, data[i]);
      FlattenSnoc(data[..i], data[i]);
      assert data[..i + 1] == data[..i] + [data[i]];
      assert hdr + (Flatten(data[..i]) + data[i]) == hdr + Flatten(data[..i]) + data[i];
      iov := iov + [data[i]];
      i := i + 1;
    }
    assert data[..i] == data;
  }

  /** The kernel takes `accepted` bytes of a message. */
  method Send(total: nat, accepted: nat) returns (res: Result<(), Error>)
    ensures res == if accepted == total then Success(()) else Failure(BadSend(accepted, total))
  {
    if accepted != total {
      return Failure(BadSend(accepted, total));
    }
    return Success(());
  }

  method SendError(h: Host, unique: nat, errno: nat, accepted: nat) returns (out: seq<byte>, res: Result<(), Error>)
    ensures out == ErrorBytes(h, unique, errno)
    ensures res.Success? <==> accepted == |out|
  {
    out := OutHeader(h, Size(W_OUT), Negated(errno), unique);
    res := Send(Size(W_OUT), accepted);
  }

  method SendResponse(h: Host, unique: nat, data: seq<seq<byte>>, accepted: nat)
    returns (out: seq<byte>, res: Result<(), Error>)
    ensures out == ResponseBytes(h, unique, data)
    ensures res.Success? <==> accepted == |out|
  {
    var len := TotalLen(Size(W_OUT), data);
    var iov := Gather(OutHeader(h, len % 0x1_0000_0000, 0, unique), data);
    out := Flatten(iov);
    res := Send(len, accepted);
  }

  /** Writes the reply that the client decided on. */
  method SendReply(h: Host, r: C.Reply, accepted: nat) returns (out: seq<byte>, res: Result<(), Error>)
    ensures out == ReplyBytes(h, r)
    ensures res.Success? <==> accepted == |out|
  {
    if r.what.KError? {
      out, res := SendError(h, r.unique, r.what.errno, accepted);
    } else {
      out, res := SendResponse(h, r.unique, Parts(h, r.what), accepted);
    }
  }

  /** The buffers that a command needs of its caller. */
  method VectorsOf(cmd: u32, arg: u64) returns (input: Option<I.Iovec>, output: Option<I.Iovec>)
    ensures I.Complete(true, cmd, arg, 0, 0) == if input.None? && output.None? then I.Proceed else I.Retry(input, output)
  {
    var good := IoctlNumber.Repaired(cmd).good;
    input := if good.IsWrite() then Some(I.Iovec(arg, good.size)) else None;
    output := if good.IsRead() then Some(I.Iovec(arg, good.size)) else None;
  }

  /** Lets an ioctl proceed, or asks the kernel for the buffers it needs. */
  method CompleteIoctl(h: Host, unique: nat, flags: u32, cmd: u32, arg: u64, inSize: nat, outSize: nat, accepted: nat)
    returns (proceed: bool, out: seq<byte>, res: Result<(), Error>)
    ensures var c := I.Complete(Bits.BitAnd(flags, UNRESTRICTED) != 0, cmd, arg, inSize, outSize);
            && (proceed <==> c.Proceed?)
            && (proceed ==> out == [] && res.Success?)
            && (!proceed ==>
                  out == ResponseBytes(h, unique, RetryParts(h, flags, c)) && (res.Success? <==> accepted == |out|))
  {
    var unrestricted := Bits.BitAnd(flags, UNRESTRICTED) != 0;
    if !unrestricted || inSize > 0 || outSize > 0 {
      return true, [], Success(());
    }
    var input, output := VectorsOf(cmd, arg);
    if input.None? && output.None? {
      return true, [], Success(());
    }
    proceed := false;
    out, res := SendResponse(h, unique, RetryParts(h, flags, I.Retry(input, output)), accepted);
  }

  // ---- what the kernel finds in the header ----

  lemma HeaderSeen(h: Host, w: seq<nat>, vals: seq<nat>, body: seq<byte>)
    requires InRange(w, vals)
    ensures var out := Put(h, w, vals) + body;
            |out| == Size(w) + |body| && Get(h, w, out) == vals && out[Size(w)..] == body
  {
    GetPut(h, w, vals, body);
  }

  lemma OutInRange(len: nat, error: nat, unique: nat)
    requires len < 0x1_0000_0000 && error < 0x1_0000_0000 && unique < 0x1_0000_0000_0000_0000
    ensures InRange(W_OUT, [len, error, unique])
  {
    Widths();
  }

  lemma OutHeaderSeen(h: Host, len: nat, error: nat, unique: nat, body: seq<byte>)
    requires len < 0x1_0000_0000 && error < 0x1_0000_0000 && unique < 0x1_0000_0000_0000_0000
    ensures var out := OutHeader(h, len, error, unique) + body;
            |out| == Size(W_OUT) + |body| && Get(h, W_OUT, out) == [len, error, unique] && out[Size(W_OUT)..] == body
  {
    OutInRange(len, error, unique);
    HeaderSeen(h, W_OUT, [len, error, unique], body);
  }

  /** A response announces its own length, no error, the request answered, and carries its parts. */
  lemma ResponseSeen(h: Host, unique: nat, parts: seq<seq<byte>>)
    requires Size(W_OUT) + |Flatten(parts)| < 0x1_0000_0000 && unique < 0x1_0000_0000_0000_0000
    ensures var out := ResponseBytes(h, unique, parts);
            && Get(h, W_OUT, out) == [|out|, 0, unique]
            && out[Size(W_OUT)..] == Flatten(parts)
  {
    HeadedSeen(h, Size(W_OUT) + |Flatten(parts)|, 0, unique, Flatten(parts));
  }

  /** A header that counts what follows it. */
  lemma HeadedSeen(h: Host, len: nat, error: nat, unique: nat, body: seq<byte>)
    requires len == Size(W_OUT) + |body| < 0x1_0000_0000
    requires error < 0x1_0000_0000 && unique < 0x1_0000_0000_0000_0000
    ensures var out := OutHeader(h, len % 0x1_0000_0000, error, unique) + body;
            Get(h, W_OUT, out) == [|out|, error, unique] && out[Size(W_OUT)..] == body
  {
    assert len % 0x1_0000_0000 == len;
    OutHeaderSeen(h, len, error, unique, body);
  }

  /** An error announces the length of a bare header, the negated error and the request answered. */
  lemma ErrorSeen(h: Host, unique: nat, errno: nat)
    requires errno < 0x8000_0000 && unique < 0x1_0000_0000_0000_0000
    ensures var out := ErrorBytes(h, unique, errno);
            && Get(h, W_OUT, out) == [|out|, Negated(errno), unique]
            && (Negated(errno) + errno) % 0x1_0000_0000 == 0
  {
    OutHeaderSeen(h, Size(W_OUT), Negated(errno), unique, []);
    var out := ErrorBytes(h, unique, errno);
    assert out + [] == out;
  }

  /** The data of a read is passed on as it is. */
  lemma DataParts(h: Host, bytes: seq<byte>)
    ensures Flatten(Parts(h, C.KData(bytes))) == bytes
  {
    FlattenSnoc([], bytes);
    assert [] + [bytes] == [bytes] && Flatten([]) + bytes == bytes;
  }

  /** A notification announces its own length and carries the handle. */
  lemma NotificationSeen(h: Host, kh: nat)
    requires kh < 0x1_0000_0000_0000_0000
    ensures var out := NotifyBytes(h, kh);
            && Get(h, W_OUT, out) == [|out|, FUSE_NOTIFY_POLL, 0]
            && |out[Size(W_OUT)..]| == Size(W_NOTIFY) && Get(h, W_NOTIFY, out[Size(W_OUT)..]) == [kh]
  {
    Widths();
    var body := Put(h, W_NOTIFY, [kh]);
    OutHeaderSeen(h, Size(W_OUT) + Size(W_NOTIFY), FUSE_NOTIFY_POLL, 0, body);
    HeaderSeen(h, W_NOTIFY, [kh], []);
    assert body + [] == body;
  }
}
