/**
 The server's main thread as an object: one call per request that was received, acting on the
 device, the read queue, the poll map and the connection.  A call performs the steps that the
 composed system takes between receiving a request and receiving the next one.
 */
module RealDevice {
  import opened Base
  import opened Endian
  import opened IoctlNumber
  import opened IoctlArg
  import P = Protocol
  import R = Responses
  import C = Client
  import Spec = ReadSpec
  import Read = ReadScheduler
  import ReadProperties
  import Poll = PollServer
  import opened ReadState
  import opened PollState
  import opened System
  import Events
  import SystemDeeds

  /** System calls on the device. */
  datatype Call =
    | WriteCall(bytes: seq<byte>)
    | PwriteCall(bytes: seq<byte>, offset: nat)
    | ReadCall(len: nat)
    | IoctlCall(cmd: nat, operand: Operand)
    | PollCall(mask: set<Poll.Flag>)

  /** What follows a request: the next one, the end of the loop, or a write to a full pipe. */
  datatype Next = GoOn | Stop | Blocked

  /** An ioctl that cannot be encoded, or whose result cannot be decoded, ends the main loop. */
  predicate Dies(host: Host, r: P.Request, out: Outcome) {
    && r.Ioctl? && r.cmd < 0x1_0000_0000 && r.arg.Formed() && !r.arg.IsRaw()
    && var e := Encode(host, Repaired(r.cmd), r.arg);
       || e.Failure?
       || (&& out.Returns? && |out.dev| == OperandLen(e.value.1)
           && Decode(host, Repaired(r.cmd), 0, out.dev, IoctlArg.Device).Failure?)
  }

  /** The main thread has a request, and the device does `out` with it. */
  predicate Attempts(sv: Server, out: Outcome) {
    && sv.main.Busy? && !sv.read.owed && sv.poll.main.Free?
    && (CanReturn(sv, sv.main.req, out) || Dies(sv.host, sv.main.req, out))
  }

  /** The server after the request: the loop ended, the thread is blocked, or it is ready for the next one. */
  ghost function Settled(sv: Server, out: Outcome): Server
    requires Attempts(sv, out)
  {
    if Dies(sv.host, sv.main.req, out) then sv.(main := Ended)
    else
      var t := Dispatch(sv, out).0;
      if t.main.Syncing? then
        if Read.Enabled(t.read, Read.SyncWrite) then t.(main := Receiving, read := Read.Apply(t.read, Read.SyncWrite))
        else t
      else if t.main.Registering? && t.poll.main.Checked? then
        t.(main := Receiving, poll := Poll.Apply(t.poll, Poll.Register))
      else t
  }

  predicate MainAction(a: Action) { ServerAction(a) && !a.ReadWorker? && !a.PollWorker? }

  ghost predicate ServerLeads(s: State, t: State) {
    exists acts: seq<Action> ::
      IsRun(s, acts) && After(s, acts) == t && forall i :: 0 <= i < |acts| ==> MainAction(acts[i])
  }

  /** The settled server is the one that the main thread's own steps reach in the composed system. */
  lemma SettledReached(s: State, out: Outcome)
    requires Attempts(s.server, out)
    ensures exists t: State :: t.server == Settled(s.server, out) && t.client == s.client && ServerLeads(s, t)
  {
    if Dies(s.server.host, s.server.main.req, out) {
      OneStep(s, ServerEnds);
      assert Apply(s, ServerEnds).server == Settled(s.server, out);
    } else {
      HandledReached(s, out);
    }
  }

  lemma HandledReached(s: State, out: Outcome)
    requires Handles(s.server, out) && !Dies(s.server.host, s.server.main.req, out)
    ensures exists t: State :: t.server == Settled(s.server, out) && t.client == s.client && ServerLeads(s, t)
  {
    var a, t := Handle(out), HandleStep(s, out);
    assert Apply(s, a) == t && t.server == Dispatch(s.server, out).0;
    if t.server.main.Syncing? && Read.Enabled(t.server.read, Read.SyncWrite) {
      TwoSteps(s, a, SyncWrite);
    } else if t.server.main.Registering? && t.server.poll.main.Checked? {
      TwoSteps(s, a, Register);
    } else {
      OneStep(s, a);
    }
  }

  lemma OneStep(s: State, a: Action)
    requires Enabled(s, a) && MainAction(a)
    ensures ServerLeads(s, Apply(s, a))
  {
    var acts := [a];
    assert acts[1..] == [];
    assert IsRun(Apply(s, a), []);
    assert IsRun(s, acts) && After(s, acts) == Apply(s, a);
  }

  lemma TwoSteps(s: State, a: Action, b: Action)
    requires Enabled(s, a) && MainAction(a) && Enabled(Apply(s, a), b) && MainAction(b)
    ensures ServerLeads(s, Apply(Apply(s, a), b))
  {
    var t, acts := Apply(s, a), [a, b];
    assert acts[1..] == [b] && [b][1..] == [];
    assert IsRun(Apply(t, b), []);
    assert IsRun(t, [b]) && After(t, [b]) == Apply(t, b);
    assert IsRun(s, acts) && After(s, acts) == Apply(t, b);
  }

  class Device {
    const host: Host
    const read: ReadInner
    const poll: PollInner
    var conn: seq<R.Frame>       // frames that this thread wrote to the connection
    var calls: seq<Call>         // system calls on the device
    var written: seq<Written>    // what the device took

    constructor (host: Host)
      ensures this.host == host && conn == [] && calls == [] && written == [] && fresh(read) && fresh(poll)
      ensures read.Shows(Read.INIT) && poll.Shows(Poll.INIT)
    {
      this.host, conn, calls, written := host, [], [], [];
      read := new ReadInner();
      poll := new PollInner();
    }

    ghost predicate Shows(sv: Server)
      reads this, read, poll
    {
      sv.host == host && read.Shows(sv.read) && poll.Shows(sv.poll) && sv.written == written
    }

    method Send(q: nat, body: R.Response)
      modifies this`conn
      ensures conn == old(conn) + [R.Frame(q, body)]
    {
      conn := conn + [R.Frame(q, body)];
    }

    /** Writes at the current position, or at an offset if one is given. */
    method Write(r: P.Request, out: Outcome)
      requires r.Write? && (out.Fails? || (out.Counts? && out.n <= |r.data|))
      modifies this`conn, this`calls, this`written
      ensures calls == old(calls) + [if r.offset == 0 then WriteCall(r.data) else PwriteCall(r.data, r.offset)]
      ensures conn == old(conn) + [R.Frame(r.sequence, if out.Fails? then R.Failed(out.errno) else R.Wrote(out.n))]
      ensures written == old(written)
                         + if out.Counts? then [Written(r.sequence, r.offset, r.data[..out.n])] else []
    {
      calls := calls + [if r.offset == 0 then WriteCall(r.data) else PwriteCall(r.data, r.offset)];
      if out.Counts? {
        written := written + [Written(r.sequence, r.offset, r.data[..out.n])];
        Send(r.sequence, R.Wrote(out.n));
      } else {
        Send(r.sequence, R.Failed(out.errno));
      }
    }

    /** Reads at most 4096 bytes at once; `out` is what the system call gives. */
    method ReadNonblock(q: nat, size: nat, out: Outcome)
      requires out.Fails? || (out.Gives? && |out.bytes| <= Min(size, Spec.BUF_SZ))
      modifies this`conn, this`calls
      ensures calls == old(calls) + [ReadCall(if size < 4096 then size else 4096)]
      ensures conn == old(conn) + [R.Frame(q, if out.Fails? then R.Failed(out.errno) else R.Bytes(out.bytes))]
    {
      calls := calls + [ReadCall(Min(size, Spec.BUF_SZ))];
      if out.Gives? { Send(q, R.Bytes(out.bytes)); } else { Send(q, R.Failed(out.errno)); }
    }

    /** An ioctl; false if it ends the loop.  Without an encoded argument there is no system call. */
    method Ioctl(r: P.Request, out: Outcome, ghost sv: Server) returns (alive: bool)
      requires r.Ioctl? && sv.host == host && sv.main == Busy(r) && Attempts(sv, out)
      modifies this`conn, this`calls
      ensures alive <==> !Dies(host, r, out)
      ensures conn == old(conn) + if alive then [R.Frame(r.sequence, DirectReply(sv, r, out).value)] else []
      ensures alive ==> SystemDeeds.Says(host, DeedOf(sv, out), conn[|old(conn)|].body)
      ensures calls == old(calls)
                       + if r.arg.IsRaw() || Encode(host, Repaired(r.cmd), r.arg).Failure? then []
                         else [IoctlCall(r.cmd, Encode(host, Repaired(r.cmd), r.arg).value.1)]
    {
      if !Dies(host, r, out) { SystemDeeds.DirectReplySays(sv, out); }
      if r.arg.IsRaw() {
        Send(r.sequence, R.Failed(EPERM));
        return true;
      }
      var e := Encode(host, Repaired(r.cmd), r.arg);
      if e.Failure? {
        return false;
      }
      calls := calls + [IoctlCall(r.cmd, e.value.1)];
      if out.Fails? {
        Send(r.sequence, R.Failed(out.errno));
        return true;
      }
      var back := Decode(host, Repaired(r.cmd), 0, out.dev, IoctlArg.Device);
      if back.Failure? {
        return false;
      }
      Send(r.sequence, R.IoctlDone(out.rc, back.value));
      return true;
    }

    /** A poll; `ready` is what the device is ready for when the lock is held. */
    method PollFor(r: P.Request, out: Outcome, ready: set<Poll.Flag>, ghost sv: Server)
      requires r.Poll? && sv.main == Busy(r) && Handles(sv, out) && Shows(sv) && ready == sv.poll.ready
      modifies this`conn, this`calls, poll
      ensures poll.Shows(Settled(sv, out).poll)
      ensures conn == old(conn) + [R.Frame(r.sequence, DirectReply(sv, r, out).value)]
      ensures SystemDeeds.Says(host, DeedOf(sv, out), conn[|old(conn)|].body)
      ensures calls == old(calls) + [PollCall(Events.Wanted(r.events))]
    {
      Events.WantedExact(r.events);
      SystemDeeds.DirectReplySays(sv, out);
      var mask := Poll.ProtoToPoll(r.events);
      calls := calls + [PollCall(mask)];
      var hit := Poll.Reported(ready, mask);
      var rc: Result<set<Poll.Flag>, nat> := if out.Fails? then Failure(out.errno) else Success(hit);
      if WantsNotify(r.flags) {
        poll.Poll(r.sequence, r.kh, r.events, rc, sv.poll);
      } else {
        poll.PollOnce(r.sequence, r.events, rc, sv.poll);
      }
      Send(r.sequence, if out.Fails? then R.Failed(out.errno) else R.Polled(FlagBits(hit)));
    }

    /** A blocking read or an interrupt, both of which signal the read worker. */
    method Signalled(r: P.Request, ghost sv: Server) returns (done: bool)
      requires (r.Read? && !IsNonblock(r.flags)) || r.Interrupt?
      requires read.Shows(sv.read) && !sv.read.owed && NoDup(ReadProperties.Sequences(read.readOps))
      modifies read
      ensures done <==> sv.read.tokens < Read.PIPE_CAPACITY
      ensures var t := if r.Read? then Read.Apply(sv.read, Read.Push(Spec.Req(r.sequence, r.size)))
                       else Read.Apply(sv.read, Read.Intr(r.sequence));
              read.Shows(if done then Read.Apply(t, Read.SyncWrite) else t)
    {
      if r.Read? {
        done := read.PushRequest(Spec.Req(r.sequence, r.size), sv.read);
      } else {
        done := read.DoIntr(r.sequence, sv.read);
      }
    }

    /** Requests that touch neither the read queue nor the poll map. */
    method HandlePlain(r: P.Request, out: Outcome, ghost sv: Server) returns (next: Next)
      requires r.Open? || r.Release? || r.Write? || (r.Read? && IsNonblock(r.flags))
      requires sv.main == Busy(r) && Handles(sv, out) && sv.host == host && sv.written == written
      modifies this`conn, this`calls, this`written
      ensures var t := Settled(sv, out);
              && t.host == host && t.read == sv.read && t.poll == sv.poll && t.written == written
              && t.main == if next.Stop? then Ended else Receiving
      ensures !next.Blocked?
      ensures conn == old(conn) + [R.Frame(r.sequence, DirectReply(sv, r, out).value)]
    {
      next := GoOn;
      if r.Open? {
        Send(r.sequence, R.Failed(C.EINVAL));
      } else if r.Release? {
        Send(r.sequence, R.Done);
        next := Stop;
      } else if r.Write? {
        Write(r, out);
      } else {
        ReadNonblock(r.sequence, r.size, out);
      }
    }

    /**
     One round of the main loop: it ends with a release or a failing ioctl, and blocks on a full pipe.
     The reads in the queue have distinct numbers, as in every reachable state.
     */
    method Handle(r: P.Request, out: Outcome, ready: set<Poll.Flag>, ghost sv: Server) returns (next: Next)
      requires sv.main == Busy(r) && Attempts(sv, out) && Shows(sv) && ready == sv.poll.ready
      requires NoDup(ReadProperties.Sequences(read.readOps))
      modifies this`conn, this`calls, this`written, read, poll
      ensures Shows(Settled(sv, out))
      ensures next.Stop? <==> Settled(sv, out).main.Ended?
      ensures next.Blocked? <==> Settled(sv, out).main.Syncing?
      ensures conn == old(conn)
                      + (if Dies(host, r, out) then []
                         else match DirectReply(sv, r, out)
                              case Some(body) => [R.Frame(r.sequence, body)]
                              case None => [])
    {
      if r.Ioctl? {
        var alive := Ioctl(r, out, sv);
        next := if alive then GoOn else Stop;
      } else if r.Poll? {
        PollFor(r, out, ready, sv);
        next := GoOn;
      } else if r.Interrupt? || (r.Read? && !IsNonblock(r.flags)) {
        var done := Signalled(r, sv);
        next := if done then GoOn else Blocked;
      } else {
        next := HandlePlain(r, out, sv);
      }
    }
  }
}
