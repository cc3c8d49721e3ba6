/**
 Messages and bytes joined: what the composed system keeps as lists of messages is what the
 codec makes of the bytes that were sent, and a message is taken exactly if it can be received.
 */
module SystemWire {
  import opened Base
  import opened Endian
  import opened IoctlNumber
  import opened IoctlArg
  import P = Protocol
  import R = Responses
  import C = Client
  import opened System
  import opened SystemFlow
  import opened SystemOrder
  import opened SystemWrites
  import SystemInvariant

  // ---- arguments ----

  ghost predicate SentDecoded(c: C.State) {
    forall i :: 0 <= i < |c.sent| ==> Decoded(c.host, c.sent[i])
  }

  /** Ioctl arguments on either way come from a decoder. */
  ghost predicate FramesDecoded(fs: seq<R.Frame>) {
    forall i :: 0 <= i < |fs| && fs[i].body.IoctlDone? ==> fs[i].body.arg.Valid() && fs[i].body.arg.Formed()
  }

  ghost predicate WireArgs(s: State) {
    SentDecoded(s.client) && FramesDecoded(Outbox(s))
  }

  lemma DirectReplyDecoded(sv: Server, r: P.Request, out: Outcome)
    requires CanReturn(sv, r, out) && DirectReply(sv, r, out).Some? && DirectReply(sv, r, out).value.IoctlDone?
    ensures DirectReply(sv, r, out).value.arg.Valid() && DirectReply(sv, r, out).value.arg.Formed()
  {
    DecodeValid(sv.host, Repaired(r.cmd), 0, out.dev, Device);
  }

  lemma MoreDecoded(s: State, t: State, more: seq<R.Frame>)
    requires WireArgs(s) && t.client == s.client && t.s2c == s.s2c + more && FramesDecoded(more)
    ensures WireArgs(t)
  {
    OutboxMore(s, t, more);
  }

  lemma HandleArgs(s: State, out: Outcome)
    requires WireArgs(s) && Handles(s.server, out)
    ensures WireArgs(HandleStep(s, out))
  {
    var r, t := s.server.main.req, HandleStep(s, out);
    SystemInvariant.HandleFacts(s, out);
    if r.Interrupt? {
      MoreDecoded(s, t, ReadFrames(s.server.read, t.server.read));
    } else if Blocking(r) {
      assert s.s2c + [] == s.s2c;
      MoreDecoded(s, t, []);
    } else {
      var body := DirectReply(s.server, r, out).value;
      if body.IoctlDone? { DirectReplyDecoded(s.server, r, out); }
      MoreDecoded(s, t, [R.Frame(r.sequence, body)]);
    }
  }

  lemma ServerArgs(s: State, a: Action)
    requires WireArgs(s) && ServerAction(a) && ServerEnabled(s, a)
    ensures WireArgs(ServerApply(s, a))
  {
    var t := ServerApply(s, a);
    assert s.s2c + [] == s.s2c;
    if a.Handle? {
      HandleArgs(s, a.out);
    } else if a.ReadWorker? {
      MoreDecoded(s, t, ReadFrames(s.server.read, t.server.read));
    } else if a.PollWorker? && a.p.Signal? {
      MoreDecoded(s, t, R.WakeupFrames(a.p.order));
    } else {
      MoreDecoded(s, t, []);
    }
  }

  lemma HostKept(s: State, a: Action)
    requires !ServerAction(a) && ClientEnabled(s, a)
    ensures ClientApply(s, a).client.host == s.client.host
  {
    if a.RxAnswer? { C.AnswerOnly(s.client); }
  }

  lemma SubmitArgs(s: State, u: nat, r: P.Request, app: C.App)
    requires SentDecoded(s.client) && C.KindOf(r).Some? && FromApplication(s.client, r, app)
    ensures SentDecoded(C.Submit(s.client, u, r, app))
  {
    assert Decoded(s.client.host, r);
  }

  lemma StepKeepsArgs(s: State, a: Action)
    requires WireArgs(s) && Enabled(s, a)
    ensures WireArgs(Apply(s, a))
  {
    if ServerAction(a) {
      ServerArgs(s, a);
    } else {
      SystemInvariant.OutboxKept(s, a);
      HostKept(s, a);
      if a.Submit? {
        SubmitArgs(s, a.unique, a.req, a.app);
      } else if !a.IntrSend? {
        SystemInvariant.OtherSendsNothing(s, a);
      }
    }
  }

  lemma {:induction false} RunKeepsArgs(s: State, acts: seq<Action>)
    requires WireArgs(s) && IsRun(s, acts)
    ensures WireArgs(After(s, acts))
    decreases |acts|
  {
    if acts != [] {
      StepKeepsArgs(s, acts[0]);
      RunKeepsArgs(Apply(s, acts[0]), acts[1..]);
    }
  }

  lemma ReachableArgs(s: State)
    requires Reachable(s)
    ensures WireArgs(s)
  {
    var hc, hs, n, acts :| n > 0 && IsRun(Init(hc, hs, n), acts) && After(Init(hc, hs, n), acts) == s;
    assert WireArgs(Init(hc, hs, n));
    RunKeepsArgs(Init(hc, hs, n), acts);
  }

  // ---- numbers within their fields ----

  ghost predicate RequestInRange(r: P.Request) {
    && 0 < r.sequence < Pow256(8)
    && match r
       case Open(_, flags) => flags < Pow256(4)
       case Write(_, offset, flags, _) => offset < Pow256(8) && flags < Pow256(4)
       case Read(_, offset, size, flags) => offset < Pow256(8) && size < Pow256(4) && flags < Pow256(4)
       case Poll(_, kh, flags, events) => kh < Pow256(8) && flags < Pow256(4) && events < Pow256(4)
       case _ => true
  }

  ghost predicate FrameInRange(f: R.Frame) {
    && f.sequence < Pow256(8)
    && match f.body
       case Failed(e) => 0 < e < Pow256(2)
       case Wrote(n) => n < Pow256(4)
       case IoctlDone(rc, _) => rc < Pow256(8)
       case Polled(ev) => ev < Pow256(4)
       case Wakeups(khs) => forall i :: 0 <= i < |khs| ==> khs[i] < Pow256(8)
       case Wakeup(kh) => kh < Pow256(8)
       case _ => true
  }

  ghost predicate RequestsInRange(rs: seq<P.Request>) {
    forall i :: 0 <= i < |rs| ==> RequestInRange(rs[i])
  }

  ghost predicate FramesInRange(fs: seq<R.Frame>) {
    forall i :: 0 <= i < |fs| ==> FrameInRange(fs[i])
  }

  lemma RequestValid(h: Host, r: P.Request)
    requires RequestInRange(r) && Decoded(h, r)
    ensures P.Valid(r)
  {
    if r.Ioctl? {
      Widths();
      var arg, data :| Decode(h, Repaired(r.cmd), arg, data, Cuse) == Success(r.arg);
      DecodeValid(h, Repaired(r.cmd), arg, data, Cuse);
    }
  }

  lemma RequestsValid(s: State)
    requires Reachable(s) && RequestsInRange(s.client.sent)
    ensures forall i :: 0 <= i < |s.client.sent| ==> P.Valid(s.client.sent[i])
  {
    ReachableArgs(s);
    forall i | 0 <= i < |s.client.sent| ensures P.Valid(s.client.sent[i]) {
      RequestValid(s.client.host, s.client.sent[i]);
    }
  }

  lemma FramesValid(s: State)
    requires Reachable(s) && FramesInRange(Outbox(s))
    ensures forall i :: 0 <= i < |Outbox(s)| ==> R.Valid(Outbox(s)[i])
  {
    ReachableArgs(s);
  }

  // ---- the whole stream ----

  /** The bytes of everything the client sent are received as exactly that. */
  lemma RequestsArrive(s: State)
    requires Reachable(s) && RequestsInRange(s.client.sent)
    requires forall i :: 0 <= i < |s.client.sent| ==> P.WireLen(s.client.sent[i]) <= P.MAX_SZ
    ensures forall i :: 0 <= i < |s.client.sent| ==> P.Formed(s.client.sent[i])
    ensures P.ReceiveRequests(P.SentRequests(s.client.sent)) == (s.client.sent, Option.None)
  {
    var rs := s.client.sent;
    RequestsValid(s);
    forall i | 0 <= i < |rs| ensures P.PayloadLen(rs[i]) <= P.MAX_SZ { P.WireLenExact(rs[i]); }
    P.RequestStream(rs);
  }

  /** The bytes of everything the server sent are received as exactly that. */
  lemma FramesArrive(s: State)
    requires Reachable(s) && FramesInRange(Outbox(s))
    requires forall i :: 0 <= i < |Outbox(s)| ==> R.WireLen(Outbox(s)[i].body) <= P.MAX_SZ
    ensures forall i :: 0 <= i < |Outbox(s)| ==> R.Formed(Outbox(s)[i].body)
    ensures R.ReceiveFrames(R.SentFrames(Outbox(s))) == (Outbox(s), Option.None)
  {
    var fs := Outbox(s);
    FramesValid(s);
    forall i | 0 <= i < |fs| ensures |R.Payload(fs[i].body)| <= P.MAX_SZ { R.WireLenExact(fs[i].body); }
    R.ResponseStream(fs);
  }

  // ---- one message ----

  lemma OnTheWay(s: State, i: nat)
    requires Reachable(s) && i < |s.c2s|
    ensures s.c2s[i] in s.client.sent
  {
    ReachableSent(s);
    var sent := s.client.sent;
    assert s.c2s[i] == sent[|sent| - |s.c2s| + i];
  }

  lemma ReachableSent(s: State)
    requires Reachable(s)
    ensures WasSent(s)
  {
    SystemInvariant.ReachableInv(s);
  }

  lemma ComingValid(s: State)
    requires Reachable(s) && RequestsInRange(s.client.sent)
    ensures forall i :: 0 <= i < |s.c2s| ==> P.Valid(s.c2s[i])
  {
    RequestsValid(s);
    forall i | 0 <= i < |s.c2s| ensures P.Valid(s.c2s[i]) {
      OnTheWay(s, i);
      var k :| 0 <= k < |s.client.sent| && s.client.sent[k] == s.c2s[i];
    }
  }

  /**
   Receiving from the bytes on their way to the server gives the first message and leaves the bytes
   of the others if the main thread may take it, and fails otherwise.
   */
  lemma TakeIsReceive(s: State)
    requires Reachable(s) && RequestsInRange(s.client.sent)
    requires s.c2s != [] && P.WireLen(s.c2s[0]) < Pow256(4) && s.server.main.Receiving?
    ensures forall i :: 0 <= i < |s.c2s| ==> P.Formed(s.c2s[i])
    ensures P.ParseRequest(P.SentRequests(s.c2s))
            == if ServerEnabled(s, Take) then Success((TakeStep(s).server.main.req, P.SentRequests(TakeStep(s).c2s)))
               else Failure(P.PayloadTooLarge(P.WireLen(s.c2s[0])))
  {
    ComingValid(s);
    P.WireLenExact(s.c2s[0]);
    P.RequestRoundTrip(s.c2s[0], P.SentRequests(s.c2s[1..]));
  }

  lemma ArrivingValid(s: State)
    requires Reachable(s) && FramesInRange(Outbox(s))
    ensures forall i :: 0 <= i < |s.s2c| ==> R.Valid(s.s2c[i])
  {
    FramesValid(s);
    forall i | 0 <= i < |s.s2c| ensures R.Valid(s.s2c[i]) {
      assert s.s2c[i] == Outbox(s)[|s.client.got| + i];
    }
  }

  /** The same for the bytes on their way to the client. */
  lemma RecvIsReceive(s: State)
    requires Reachable(s) && FramesInRange(Outbox(s))
    requires s.s2c != [] && R.WireLen(s.s2c[0].body) < Pow256(4) && s.client.rx.RxLoop? && !s.client.closed
    ensures forall i :: 0 <= i < |s.s2c| ==> R.Formed(s.s2c[i].body)
    ensures R.ParseResponse(R.SentFrames(s.s2c))
            == if ClientEnabled(s, RxRecv) then Success((s.s2c[0], R.SentFrames(RecvStep(s).s2c)))
               else Failure(P.PayloadTooLarge(R.WireLen(s.s2c[0].body)))
  {
    ArrivingValid(s);
    R.WireLenExact(s.s2c[0].body);
    R.ResponseRoundTrip(s.s2c[0], R.SentFrames(s.s2c[1..]));
  }
}
