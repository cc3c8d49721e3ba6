/**
 Receiving and sending on a connection that delivers and accepts bytes in arbitrary pieces.
 `Connection` is the environment: its `events` say what successive calls meet, so a statement
 about every connection is a statement about every pattern of partial transfers.
 */
module Stream {
  import opened Base
  import opened Endian
  import opened Records
  import opened IoctlArg
  import opened Protocol
  import Responses

  const EAGAIN: nat := 11

  /** One receive call: some bytes, nothing yet (with or without data in time), or an error. */
  datatype Event = Chunk(n: nat) | Again(ready: bool) | Fault(errno: nat)

  /** How sending ends early: an error, or a call that takes nothing, at which the program stops. */
  datatype SendError = Errno(e: nat) | NothingTaken

  class Connection {
    var incoming: seq<byte>     // bytes the peer sent and nobody received yet
    var events: seq<Event>      // once used up, calls deliver all they can
    var readable: bool          // what a wait after EAGAIN finds
    var faulted: bool           // a call failed or timed out
    var outgoing: seq<byte>     // bytes accepted for sending
    var accepts: seq<Result<nat, nat>>    // how much successive send calls accept, or how they fail

    constructor (incoming: seq<byte>, events: seq<Event>, accepts: seq<Result<nat, nat>>)
      ensures this.incoming == incoming && this.events == events && this.accepts == accepts
      ensures !faulted && outgoing == []
    {
      this.incoming, this.events, this.accepts := incoming, events, accepts;
      readable, faulted, outgoing := false, false, [];
    }

    /** recv(2) into `buf[pos..]`. */
    method Receive(buf: array<byte>, pos: nat) returns (r: Result<nat, nat>)
      requires pos < buf.Length
      modifies this`incoming, this`events, this`readable, this`faulted, buf
      ensures r.Success? ==>
                && r.value <= |old(incoming)| && pos + r.value <= buf.Length
                && (r.value == 0 <==> old(incoming) == [])
                && incoming == old(incoming)[r.value..]
                && buf[..pos + r.value] == old(buf[..pos]) + old(incoming)[..r.value]
                && faulted == old(faulted)
      ensures r.Failure? ==> incoming == old(incoming) && buf[..pos] == old(buf[..pos])
      ensures r == Failure(EAGAIN) ==> faulted == old(faulted) && old(events) != []
      ensures r.Failure? && r.error != EAGAIN ==> faulted
      ensures |events| < |old(events)| || (old(events) == [] == events && r.Success?)
    {
      var ev := Chunk(buf.Length);
      if events != [] {
        ev := events[0];
        events := events[1..];
      }
      match ev
      case Chunk(n) =>
        var want := if n == 0 then 1 else n;
        var l := Min(Min(want, buf.Length - pos), |incoming|);
        ghost var before := buf[..pos];
        var i := 0;
        while i < l
          invariant 0 <= i <= l && buf[..pos] == before
          invariant forall k :: 0 <= k < i ==> buf[pos + k] == incoming[k]
          invariant incoming == old(incoming) && faulted == old(faulted)
          modifies buf
        {
          buf[pos + i] := incoming[i];
          i := i + 1;
        }
        assert buf[..pos + l] == before + incoming[..l];
        incoming := incoming[l..];
        r := Success(l);
      case Again(ready) =>
        readable := ready;
        r := Failure(EAGAIN);
      case Fault(e) =>
        faulted := true;
        r := Failure(if e == EAGAIN then EPIPE else e);
    }

    /** One attempt with a timeout: an unready socket is waited for and reported as zero bytes. */
    method RecvTimeout(buf: array<byte>, pos: nat) returns (r: Result<nat, Error>)
      requires pos < buf.Length
      modifies this`incoming, this`events, this`readable, this`faulted, buf
      ensures r.Success? ==>
                && r.value <= |old(incoming)| && pos + r.value <= buf.Length
                && incoming == old(incoming)[r.value..]
                && buf[..pos + r.value] == old(buf[..pos]) + old(incoming)[..r.value]
                && faulted == old(faulted)
                && (|events| < |old(events)| || (old(events) == [] == events && r.value > 0))
      ensures r.Failure? && !faulted ==> r.error == Io(EPIPE) && old(incoming) == []
      ensures old(faulted) ==> faulted
    {
      var got := Receive(buf, pos);
      match got
      case Success(l) =>
        r := if l == 0 then Failure(Io(EPIPE)) else Success(l);
      case Failure(e) =>
        if e == EAGAIN {
          if readable {
            r := Success(0);
          } else {
            faulted := true;
            r := Failure(Io(ETIMEDOUT));
          }
        } else {
          r := Failure(Io(e));
        }
    }

    /** The first piece of a message may be awaited without a timeout. */
    method RecvInitial(buf: array<byte>, timeout: bool) returns (r: Result<nat, Error>)
      requires 0 < buf.Length
      modifies this`incoming, this`events, this`readable, this`faulted, buf
      ensures r.Success? ==>
                && r.value <= |old(incoming)| && r.value <= buf.Length
                && incoming == old(incoming)[r.value..]
                && buf[..r.value] == old(incoming)[..r.value]
                && faulted == old(faulted)
      ensures r.Failure? && !faulted ==> r.error == Io(EPIPE) && old(incoming) == []
      ensures old(faulted) ==> faulted
    {
      if timeout {
        r := RecvTimeout(buf, 0);
      } else {
        var got := Receive(buf, 0);
        match got {
          case Success(l) => r := if l == 0 then Failure(Io(EPIPE)) else Success(l);
          case Failure(e) =>
            faulted := true;
            r := Failure(Io(e));
        }
      }
    }

    /**
     Fills `buf` whatever the pieces: on success it holds exactly the next bytes of the stream
     and none beyond was taken; without a fault it fails only if the stream ends too early.
     */
    method RecvExact(buf: array<byte>, timeout: bool) returns (r: Result<(), Error>)
      requires !faulted
      modifies this`incoming, this`events, this`readable, this`faulted, buf
      ensures r.Success? ==> !faulted && buf[..] + incoming == old(incoming)
      ensures r.Failure? && !faulted ==> r.error == Io(EPIPE) && |old(incoming)| < buf.Length
    {
      var pos := 0;
      if 0 < buf.Length {
        var first := RecvInitial(buf, timeout);
        if first.Failure? {
          return Failure(first.error);
        }
        pos := first.value;
      }
      while pos < buf.Length
        invariant 0 <= pos <= buf.Length && pos <= |old(incoming)| && !faulted
        invariant incoming == old(incoming)[pos..] && buf[..pos] == old(incoming)[..pos]
        decreases |events| + (buf.Length - pos)
      {
        var next := RecvTimeout(buf, pos);
        if next.Failure? {
          return Failure(next.error);
        }
        pos := pos + next.value;
      }
      assert buf[..] == buf[..pos];
      r := Success(());
    }

    /** Receives `n` bytes out of a remaining length; `avail` falls by exactly `n`, or not at all. */
    method RecvTo(n: nat, avail: Option<nat>, timeout: bool) returns (r: Result<seq<byte>, Error>, left: Option<nat>)
      requires !faulted
      modifies this`incoming, this`events, this`readable, this`faulted
      ensures r.Success? ==> !faulted && |r.value| == n && r.value + incoming == old(incoming)
      ensures r.Success? ==> left == if avail.Some? then Some(avail.value - n) else None
      ensures r.Success? && avail.Some? ==>
                n <= avail.value && Take(old(incoming), avail.value, n) == Success((r.value, incoming, avail.value - n))
      ensures r.Failure? ==> left == avail
      ensures r.Failure? && !faulted ==>
                if avail.Some? then Take(old(incoming), avail.value, n) == Failure(r.error)
                else r.error == Io(EPIPE) && |old(incoming)| < n
      ensures avail.Some? && avail.value < n ==> r == Failure(Io(EPROTO)) && incoming == old(incoming)
    {
      left := avail;
      if avail.Some? && avail.value < n {
        r := Failure(Io(EPROTO));
        return;
      }
      var buf := new byte[n](_ => 0);
      var got := RecvExact(buf, timeout);
      match got
      case Failure(e) => r := Failure(e);
      case Success(_) =>
        if avail.Some? {
          left := Some(avail.value - n);
        }
        r := Success(buf[..]);
    }

    /** Sends all bytes whatever part of them each call accepts, or a proper part of them if a call fails. */
    method SendAll(b: seq<byte>) returns (r: Result<(), SendError>)
      modifies this`outgoing, this`accepts
      ensures r.Success? ==> outgoing == old(outgoing) + b
      ensures r.Failure? ==> old(outgoing) <= outgoing < old(outgoing) + b
      ensures r.Failure? && r.error.Errno? ==> Failure(r.error.e) in old(accepts)
      ensures r == Failure(NothingTaken) ==> Success(0) in old(accepts)
    {
      var pos := 0;
      while pos < |b|
        invariant 0 <= pos <= |b| && outgoing == old(outgoing) + b[..pos]
        invariant forall a :: a in accepts ==> a in old(accepts)
      {
        var l := |b| - pos;
        if accepts != [] {
          var a := accepts[0];
          accepts := accepts[1..];
          if a.Failure? {
            return Failure(Errno(a.error));
          }
          if a.value == 0 {
            return Failure(NothingTaken);
          }
          l := Min(l, a.value);
        }
        outgoing := outgoing + b[pos..pos + l];
        assert b[..pos] + b[pos..pos + l] == b[..pos + l];
        pos := pos + l;
      }
      assert b[..pos] == b;
      return Success(());
    }
  }

  // ---- whole messages ----

  method RecvPayload(c: Connection, op: nat, q: nat, len: nat)
    returns (r: Result<(Request, nat), Error>)
    requires 1 <= op <= 7 && !c.faulted
    modifies c
    ensures r.Success? ==> !c.faulted
    ensures r.Success? ==>
              ParsePayload(op, q, old(c.incoming), len) == Success((r.value.0, c.incoming, r.value.1))
    ensures r.Failure? && !c.faulted ==> ParsePayload(op, q, old(c.incoming), len) == Failure(r.error)
  {
    BodySizes();
    if op == 2 {
      return Success((Release(q), len));
    } else if op == 7 {
      return Success((Interrupt(q), len));
    }
    var size := if op == 1 || op == 5 then 8 else 16;
    var fixed, left := c.RecvTo(size, Some(len), true);
    if fixed.Failure? {
      return Failure(fixed.error);
    }
    var b, avail := fixed.value, left.value;
    if op == 1 {
      r := Success((Open(q, Get(Big, W_OPEN, b)[0]), avail));
    } else if op == 4 {
      var f := Get(Big, W_TRIPLE, b);
      r := Success((Read(q, f[0], f[1], f[2]), avail));
    } else if op == 6 {
      var f := Get(Big, W_TRIPLE, b);
      r := Success((Poll(q, f[0], f[1], f[2]), avail));
    } else {
      var data, rest := c.RecvTo(avail, Some(avail), true);
      if data.Failure? {
        return Failure(data.error);
      }
      if op == 3 {
        var f := Get(Big, W_TRIPLE, b);
        r := Success((Write(q, f[0], f[1], data.value), rest.value));
      } else {
        var f := Get(Big, W_IOCTL, b);
        match FromRaw(f[1] % 0x100, data.value) {
          case Failure(e) => r := Failure(BadArg(e));
          case Success(arg) => r := Success((Ioctl(q, f[0], arg), rest.value));
        }
      }
    }
  }

  /**
   Receives one request.  However the bytes arrive, the result is what parsing the stream
   gives, and the connection is left exactly behind the request.
   */
  method RecvRequest(c: Connection) returns (r: Result<Request, Error>)
    requires !c.faulted
    modifies c
    ensures r.Success? ==> !c.faulted && ParseRequest(old(c.incoming)) == Success((r.value, c.incoming))
    ensures r.Failure? && !c.faulted ==> ParseRequest(old(c.incoming)) == Failure(r.error)
  {
    HeaderSizes();
    var hdr, _ := c.RecvTo(HEADER_SZ, None, false);
    if hdr.Failure? {
      return Failure(hdr.error);
    }
    assert old(c.incoming)[..HEADER_SZ] == hdr.value && old(c.incoming)[HEADER_SZ..] == c.incoming;
    var f := Get(Big, REQ_HEADER, hdr.value);
    var op, len, q := f[0], f[2], f[3];
    if len > MAX_SZ {
      return Failure(PayloadTooLarge(len));
    }
    if !(1 <= op <= 7) {
      return Failure(BadOp(op));
    }
    if q == 0 {
      return Failure(BadSequence);
    }
    var body := RecvPayload(c, op, q, len);
    match body
    case Failure(e) => r := Failure(e);
    case Success((req, left)) =>
      r := if left == 0 then Success(req) else Failure(BadLength);
  }

  method RecvResponsePayload(c: Connection, op: nat, len: nat) returns (r: Result<Responses.Response, Error>)
    requires 1 <= op <= 7 && !c.faulted
    modifies c
    ensures r.Success? ==> !c.faulted
    ensures r.Success? ==>
              Responses.ParsePayload(op, len, old(c.incoming)) == Success((r.value, c.incoming))
    ensures r.Failure? && !c.faulted ==> Responses.ParsePayload(op, len, old(c.incoming)) == Failure(r.error)
  {
    BodySizes();
    if op == 1 {
      return if len == 0 then Success(Responses.Done) else Failure(BadResponse);
    }
    if op == 6 && len % 8 != 0 {
      return Failure(UnalignedLength(len, 8));
    }
    var size := if op == 2 || op == 5 then 4 else if op == 4 then 16 else if op == 7 then 8 else len;
    var first, left := c.RecvTo(size, Some(len), true);
    if first.Failure? {
      return Failure(first.error);
    }
    var b := first.value;
    if op == 2 {
      r := Success(Responses.Wrote(Number(b)));
    } else if op == 3 {
      r := Success(Responses.Bytes(b));
    } else if op == 5 {
      r := Success(Responses.Polled(Number(b)));
    } else if op == 6 {
      r := Success(Responses.Wakeups(Responses.FromWords(b)));
    } else if op == 7 {
      r := Success(Responses.Wakeup(Number(b)));
    } else {
      var f := Get(Big, W_RESULT, b);
      var raw, _ := c.RecvTo(left.value, left, true);
      if raw.Failure? {
        return Failure(raw.error);
      }
      match FromRaw(f[1] % 0x100, raw.value) {
        case Failure(e) => r := Failure(BadArg(e));
        case Success(arg) => r := Success(Responses.IoctlDone(f[0], arg));
      }
    }
  }

  /** Receives one response; `timeout` is set while the answer to an open is awaited. */
  method RecvResponse(c: Connection, timeout: bool) returns (r: Result<Responses.Frame, Error>)
    requires !c.faulted
    modifies c
    ensures r.Success? ==> !c.faulted && Responses.ParseResponse(old(c.incoming)) == Success((r.value, c.incoming))
    ensures r.Failure? && !c.faulted ==> Responses.ParseResponse(old(c.incoming)) == Failure(r.error)
  {
    HeaderSizes();
    var hdr, _ := c.RecvTo(HEADER_SZ, None, timeout);
    if hdr.Failure? {
      return Failure(hdr.error);
    }
    assert old(c.incoming)[..HEADER_SZ] == hdr.value && old(c.incoming)[HEADER_SZ..] == c.incoming;
    var f := Get(Big, RSP_HEADER, hdr.value);
    var op, err, len, q := f[0], f[2], f[3], f[4];
    if len > MAX_SZ {
      return Failure(PayloadTooLarge(len));
    }
    if !(1 <= op <= 7) {
      return Failure(BadOp(op));
    }
    if err != 0 {
      return Success(Responses.Frame(q, Responses.Failed(err)));
    }
    var body := RecvResponsePayload(c, op, len);
    match body
    case Failure(e) => r := Failure(e);
    case Success(resp) => r := Success(Responses.Frame(q, resp));
  }

  /**
   The server's receive loop.  Whatever pieces the bytes arrive in, it receives the requests that
   the stream holds, in order, until the stream ends or errs; `rest` is what its last call met.
   */
  method RecvAll(c: Connection) returns (rs: seq<Request>, last: Error, ghost rest: seq<byte>)
    requires !c.faulted
    modifies c
    ensures !c.faulted ==>
              ReceiveRequests(old(c.incoming)) == (rs, if rest == [] then Option.None else Some(last))
  {
    rs, rest := [], c.incoming;
    assert rs + ReceiveRequests(rest).0 == ReceiveRequests(rest).0;
    while true
      invariant !c.faulted && rest == c.incoming
      invariant var (more, e) := ReceiveRequests(rest); ReceiveRequests(old(c.incoming)) == (rs + more, e)
      decreases |c.incoming|
    {
      var r := RecvRequest(c);
      if r.Failure? {
        assert rs + [] == rs;
        return rs, r.error, rest;
      }
      ParseProgress(rest);
      assert rs + ([r.value] + ReceiveRequests(c.incoming).0) == rs + [r.value] + ReceiveRequests(c.incoming).0;
      rs, rest := rs + [r.value], c.incoming;
    }
  }
}
