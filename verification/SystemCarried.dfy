/**
 What the connection carries: data that the server read for blocking reads and wake-ups
 that it signalled reach the kernel unchanged, in order, and nothing is added or lost on the way.
 */
module SystemCarried {
  import opened Base
  import opened Endian
  import P = Protocol
  import R = Responses
  import C = Client
  import Spec = ReadSpec
  import Read = ReadScheduler
  import opened System
  import opened SystemFlow
  import opened SystemOrder

  // ---- data ----

  function BodyData(body: R.Response): seq<byte> { if body.Bytes? then body.data else [] }

  function FrameData(f: R.Frame): seq<byte> { if f.sequence == 0 then [] else BodyData(f.body) }

  function FramesData(fs: seq<R.Frame>): seq<byte> {
    if fs == [] then [] else FrameData(fs[0]) + FramesData(fs[1..])
  }

  function RxData(rx: C.Rx): seq<byte> {
    match rx
    case RxGot(f) => FrameData(f)
    case RxReply(_, body) => BodyData(body)
    case _ => []
  }

  function KernelData(what: C.KernelReply): seq<byte> { if what.KData? then what.bytes else [] }

  /** The data handed to the kernel, in the order of the replies. */
  function ReplyData(rs: seq<C.Reply>): seq<byte> {
    if rs == [] then [] else ReplyData(rs[..|rs| - 1]) + KernelData(rs[|rs| - 1].what)
  }

  /** No non-blocking read was ever sent. */
  predicate BlockingOnly(rs: seq<P.Request>) {
    forall i :: 0 <= i < |rs| && rs[i].Read? ==> Blocking(rs[i])
  }

  lemma BlockingPrefix(rs: seq<P.Request>, more: seq<P.Request>)
    requires rs <= more
    ensures BlockingOnly(more) ==> BlockingOnly(rs)
  {
    if BlockingOnly(more) {
      forall i | 0 <= i < |rs| && rs[i].Read? ensures Blocking(rs[i]) {
        assert more[i] == rs[i];
      }
    }
  }

  function Carried(replies: seq<byte>, rx: seq<byte>, wire: seq<byte>): seq<byte> { replies + rx + wire }

  ghost predicate DataInv(s: State) {
    BlockingOnly(s.client.sent) ==>
      Carried(ReplyData(s.client.replies), RxData(s.client.rx), FramesData(s.s2c))
      == Spec.DataBytes(s.server.read.answers)
  }

  lemma {:induction false} FramesDataSnoc(fs: seq<R.Frame>, f: R.Frame)
    ensures FramesData(fs + [f]) == FramesData(fs) + FrameData(f)
  {
    var all := fs + [f];
    if fs == [] {
      assert all[1..] == [] && FramesData(all) == FrameData(f) + [];
      assert FramesData(fs) == [];
    } else {
      assert all[0] == fs[0] && all[1..] == fs[1..] + [f];
      FramesDataSnoc(fs[1..], f);
      assert FramesData(all) == FrameData(fs[0]) + (FramesData(fs[1..]) + FrameData(f));
    }
  }

  lemma ReplyDataSnoc(rs: seq<C.Reply>, r: C.Reply)
    ensures ReplyData(rs + [r]) == ReplyData(rs) + KernelData(r.what)
  {
    assert (rs + [r])[..|rs|] == rs;
  }

  lemma {:induction false} ReplyDataErrors(rs: seq<C.Reply>, more: seq<C.Reply>)
    requires forall i :: 0 <= i < |more| ==> more[i].what.KError?
    ensures ReplyData(rs + more) == ReplyData(rs)
  {
    if more == [] {
      assert rs + more == rs;
    } else {
      var n := |more| - 1;
      assert rs + more == (rs + more[..n]) + [more[n]];
      ReplyDataSnoc(rs + more[..n], more[n]);
      ReplyDataErrors(rs, more[..n]);
    }
  }

  /** A kernel reply has data exactly if the response has. */
  lemma ConvertKinds(h: Host, kind: C.Kind, body: R.Response)
    requires C.Convert(h, kind, body).Some?
    ensures C.Convert(h, kind, body).value.KData? <==> body.Bytes?
    ensures C.Convert(h, kind, body).value.KWritten? <==> body.Wrote?
    ensures body.Wrote? ==> C.Convert(h, kind, body).value.size == body.size
  {
  }

  /** A converted response carries the same data. */
  lemma ConvertData(h: Host, kind: C.Kind, body: R.Response)
    requires C.Convert(h, kind, body).Some?
    ensures KernelData(C.Convert(h, kind, body).value) == BodyData(body)
    ensures R.Notifications(body) == []
  {
  }

  lemma RecvData(s: State)
    requires DataInv(s) && s.s2c != [] && s.client.rx.RxLoop?
    ensures DataInv(RecvStep(s))
  {
    var a, b, c := ReplyData(s.client.replies), FrameData(s.s2c[0]), FramesData(s.s2c[1..]);
    ReceivedData(s.client, s.s2c[0]);
    assert FramesData(s.s2c) == b + c;
    assert Carried(a, [], b + c) == Carried(a, b, c);
  }

  lemma ReceivedData(c: C.State, f: R.Frame)
    requires c.rx.RxLoop?
    ensures var c' := C.Receive(c, f);
            && RxData(c.rx) == [] && RxData(c'.rx) == FrameData(f)
            && c'.replies == c.replies && c'.sent == c.sent
  {
  }

  lemma RemoveData(s: State)
    requires DataInv(s) && s.client.rx.RxGot? && s.client.rx.frame.sequence in s.client.table
    requires s.client.rx.frame.sequence != 0
    ensures DataInv(s.(client := C.TakeOut(s.client)))
  {
  }

  /** The request in hand is answered with its data. */
  lemma ReplyCarries(s: State, t: State, r: C.Reply)
    requires DataInv(s) && t.server == s.server && t.s2c == s.s2c && t.client.sent == s.client.sent
    requires t.client.replies == s.client.replies + [r]
    requires RxData(s.client.rx) == KernelData(r.what) && RxData(t.client.rx) == []
    ensures DataInv(t)
  {
    ReplyDataSnoc(s.client.replies, r);
    var a, b, c := ReplyData(s.client.replies), KernelData(r.what), FramesData(s.s2c);
    assert a + b + [] + c == a + b + c;
  }

  lemma AnswerData(s: State)
    requires DataInv(s) && s.client.rx.RxReply? && RxExpected(s.client.table, s.client.host, s.client.rx)
    ensures DataInv(s.(client := C.HandleResponse(s.client)))
  {
    var c, e, body := s.client, s.client.rx.entry, s.client.rx.body;
    if !(e.kind.KRelease? && body.Done?) {
      ConvertData(c.host, e.kind, body);
      ReplyCarries(s, s.(client := C.HandleResponse(c)), C.Reply(e.unique, C.Convert(c.host, e.kind, body).value));
    }
  }

  /** Steps that answer with errors only and move nothing. */
  lemma ErrorsData(s: State, t: State, more: seq<C.Reply>)
    requires DataInv(s) && t.server.read.answers == s.server.read.answers && t.s2c == s.s2c
    requires s.client.sent <= t.client.sent
    requires t.client.replies == s.client.replies + more && forall i :: 0 <= i < |more| ==> more[i].what.KError?
    requires RxData(t.client.rx) == RxData(s.client.rx)
    ensures DataInv(t)
  {
    ReplyDataErrors(s.client.replies, more);
    BlockingPrefix(s.client.sent, t.client.sent);
  }

  lemma QuietData(s: State, t: State)
    requires DataInv(s) && t.server.read.answers == s.server.read.answers && t.s2c == s.s2c
    requires s.client.sent <= t.client.sent && t.client.replies == s.client.replies
    requires RxData(t.client.rx) == RxData(s.client.rx)
    ensures DataInv(t)
  {
    assert s.client.replies + [] == s.client.replies;
    ErrorsData(s, t, []);
  }

  /** The server sends a frame, and the scheduler's log grows by the same data. */
  lemma SendData(s: State, t: State, f: R.Frame)
    requires DataInv(s) && t.client == s.client && t.s2c == s.s2c + [f]
    requires BlockingOnly(s.client.sent) ==>
               Spec.DataBytes(t.server.read.answers) == Spec.DataBytes(s.server.read.answers) + FrameData(f)
    ensures DataInv(t)
  {
    FramesDataSnoc(s.s2c, f);
    var a, b, c := ReplyData(s.client.replies), RxData(s.client.rx), FramesData(s.s2c);
    assert a + b + (c + FrameData(f)) == a + b + c + FrameData(f);
  }

  // ---- the scheduler's answers ----

  /** At most one waiting read is answered, and none arrives. */
  ghost predicate AnswersOne(before: Spec.State, after: Spec.State) {
    && after.arrived == before.arrived
    && (|| after.answers == before.answers
        || exists x: Spec.Answer :: x.req in before.waiting && after.answers == before.answers + [x])
  }

  lemma SpecAnswersOne(before: Spec.State, e: Spec.Event)
    requires Spec.Allowed(before, e) && !e.Arrive?
    ensures AnswersOne(before, Spec.Next(before, e))
  {
    if e.Serve? {
      assert Spec.Next(before, e).answers == before.answers + [Spec.Answer(before.waiting[0], e.reply)];
    } else if e.Cancel? {
      var x := Spec.Answer(before.waiting[e.pos], Spec.Error(Spec.EINTR));
      assert Spec.Next(before, e).answers == before.answers + [x];
    }
  }

  lemma AnswersGrow(read: Read.State, a: Read.Action)
    requires Read.Reachable(read) && Read.Enabled(read, a) && !a.Push?
    ensures AnswersOne(Read.Abs(read), Read.Abs(Read.Apply(read, a)))
  {
    Read.ReachableInv(read);
    Read.Refines(read, a);
    SpecAnswersOne(Read.Abs(read), Read.EventOf(read, a));
  }

  lemma WaitingPositive(s: State, r: Read.Req)
    requires Flow(s) && r in Read.Waiting(s.server.read)
    ensures r.sequence > 0
  {
    var w := Read.Waiting(s.server.read);
    var i :| 0 <= i < |w| && w[i] == r;
    assert WaitSeqs(s.server.read)[i] == r.sequence;
  }

  lemma SchedulerData(s: State, t: State, a: Read.Action)
    requires Flow(s) && Read.Reachable(s.server.read) && Read.Enabled(s.server.read, a) && !a.Push?
    requires DataInv(s) && t.client == s.client && t.server.read == Read.Apply(s.server.read, a)
    requires t.s2c == s.s2c + ReadFrames(s.server.read, t.server.read)
    ensures DataInv(t) && t.server.read.arrivals == s.server.read.arrivals
  {
    var read, after := s.server.read, t.server.read;
    AnswersGrow(read, a);
    if after.answers == read.answers {
      assert s.s2c + [] == s.s2c;
      QuietData(s, t);
    } else {
      var x: Spec.Answer :| x.req in Read.Waiting(read) && after.answers == read.answers + [x];
      WaitingPositive(s, x.req);
      AnsweredData(s, t, x);
    }
  }

  lemma AnsweredData(s: State, t: State, x: Spec.Answer)
    requires DataInv(s) && t.client == s.client && x.req.sequence > 0
    requires t.server.read.answers == s.server.read.answers + [x]
    requires t.s2c == s.s2c + ReadFrames(s.server.read, t.server.read)
    ensures DataInv(t)
  {
    assert ReadFrames(s.server.read, t.server.read) == [FrameOf(x)];
    Spec.AnsweredSnoc(s.server.read.answers, x);
    SendData(s, t, FrameOf(x));
  }

  // ---- wake-ups ----

  ghost predicate NoticeInv(s: State) {
    s.client.notified + R.AllNotifications(s.s2c) == s.server.poll.woken
  }

  lemma {:induction false} NotificationsSnoc(fs: seq<R.Frame>, f: R.Frame)
    ensures R.AllNotifications(fs + [f]) == R.AllNotifications(fs) + R.Notifications(f.body)
  {
    var all := fs + [f];
    if fs == [] {
      assert all[1..] == [] && R.AllNotifications(all) == R.Notifications(f.body) + [];
      assert R.AllNotifications(fs) == [];
    } else {
      assert all[0] == fs[0] && all[1..] == fs[1..] + [f];
      NotificationsSnoc(fs[1..], f);
      assert R.AllNotifications(all)
          == R.Notifications(fs[0].body) + (R.AllNotifications(fs[1..]) + R.Notifications(f.body));
    }
  }

  lemma RecvNotices(s: State)
    requires NoticeInv(s) && FramesExpected(s.client.table, s.client.host, s.s2c) && s.s2c != []
    ensures NoticeInv(RecvStep(s))
  {
    var f := s.s2c[0];
    var a, b, c := s.client.notified, R.Notifications(f.body), R.AllNotifications(s.s2c[1..]);
    assert a + (b + c) == a + b + c;
    if f.sequence != 0 {
      assert Expected(s.client.table, s.client.host, f);
      ConvertData(s.client.host, s.client.table[f.sequence].kind, f.body);
      assert a + [] == a;
    }
  }

  /** The server sends a frame that announces nothing. */
  lemma OtherNotices(s: State, t: State, f: R.Frame)
    requires NoticeInv(s) && t.client == s.client && t.s2c == s.s2c + [f]
    requires R.Notifications(f.body) == [] && t.server.poll.woken == s.server.poll.woken
    ensures NoticeInv(t)
  {
    NotificationsSnoc(s.s2c, f);
    assert R.AllNotifications(s.s2c) + [] == R.AllNotifications(s.s2c);
  }

  lemma QuietNotices(s: State, t: State)
    requires NoticeInv(s) && t.client.notified == s.client.notified && t.s2c == s.s2c
    requires t.server.poll.woken == s.server.poll.woken
    ensures NoticeInv(t)
  {
  }

  lemma SignalNotices(s: State, t: State, order: seq<nat>)
    requires NoticeInv(s) && t.client == s.client && t.s2c == s.s2c + R.WakeupFrames(order)
    requires t.server.poll.woken == s.server.poll.woken + order
    ensures NoticeInv(t)
  {
    var a, b := s.client.notified, R.AllNotifications(s.s2c);
    assert a + (b + order) == a + b + order;
    if order == [] {
      assert s.s2c + [] == s.s2c && b + order == b;
    } else {
      var f := R.WakeupFrames(order)[0];
      assert R.Notifications(f.body) == order;
      NotificationsSnoc(s.s2c, f);
    }
  }

  lemma SchedulerNotices(s: State, t: State)
    requires NoticeInv(s) && t.client == s.client && t.server.poll == s.server.poll
    requires t.s2c == s.s2c + ReadFrames(s.server.read, t.server.read)
    ensures NoticeInv(t)
  {
    var frames := ReadFrames(s.server.read, t.server.read);
    if frames == [] {
      assert s.s2c + [] == s.s2c;
    } else {
      OtherNotices(s, t, frames[0]);
    }
  }
}
