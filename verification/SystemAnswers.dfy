/**
 What the kernel is told about a request is what the device did for it, stated in terms of the
 request, the application's data and the device only.
 */
module SystemAnswers {
  import opened Base
  import opened Endian
  import opened IoctlNumber
  import opened IoctlArg
  import opened Events
  import R = Responses
  import C = Client
  import L = ClientLedger
  import Spec = ReadSpec
  import Read = ReadScheduler
  import ReadProperties
  import Poll = PollServer
  import IoctlProperties
  import opened System
  import opened SystemFlow
  import opened SystemOrder
  import opened SystemCarried
  import opened SystemDeeds
  import opened SystemSteps
  import SystemInvariant
  import SystemProperties
  import SystemRuns

  // ---- the kernel's view ----

  /** The read was answered by the scheduler, with data or with an error. */
  ghost predicate ReadTold(answers: seq<Spec.Answer>, q: nat, size: nat, what: C.KernelReply) {
    exists i :: 0 <= i < |answers| && answers[i].req == Spec.Req(q, size) && AnswerTold(answers[i].reply, what)
  }

  predicate AnswerTold(reply: Spec.Reply, what: C.KernelReply) {
    match reply
    case Data(bytes) => what == C.KData(bytes)
    case Error(e) => what == C.KError(e)
  }

  /** The device got what the application passed, and the application gets what the device left. */
  ghost predicate IoctlTold(hc: Host, hs: Host, cmd: nat, app: C.App, d: Deed, what: C.KernelReply) {
    && cmd < 0x1_0000_0000 && IoctlProperties.Supported(cmd) && |app.data| >= IoctlProperties.NeededIn(cmd)
    && d.out.Returns? && d.operand.Some? && |d.out.dev| == OperandLen(d.operand.value)
    && IoctlProperties.Delivered(hc, hs, cmd, app.arg, app.data, d.operand.value)
    && what.KIoctlOut? && IoctlProperties.Returned(hc, hs, cmd, d.out.dev, what.data)
  }

  /** What is told about a request that the main thread dealt with. */
  ghost predicate Told(hc: Host, sv: Server, app: C.App, d: Deed, what: C.KernelReply) {
    match d.req
    case Release(_) => what == C.KError(0)
    case Write(_, _, _, data) =>
      if d.out.Fails? then what == C.KError(d.out.errno)
      else d.out.Counts? && d.out.n <= |data| && what == C.KWritten(d.out.n)
    case Read(q, _, size, flags) =>
      if Waits(flags) then ReadTold(sv.read.answers, q, size, what)
      else if d.out.Fails? then what == C.KError(d.out.errno)
      else d.out.Gives? && |d.out.bytes| <= size && |d.out.bytes| <= 4096 && what == C.KData(d.out.bytes)
    case Ioctl(_, cmd, arg) =>
      if d.out.Fails? then what == C.KError(d.out.errno)
      else if arg.IsRaw() then what == C.KError(1)
      else IoctlTold(hc, sv.host, cmd, app, d, what)
    case Poll(_, _, _, events) =>
      if d.out.Fails? then what == C.KError(d.out.errno)
      else d.out.Polls? && what.KPolled? && Reports(d.ready, events, what.events)
    case _ => false
  }

  // ---- from a response to the kernel ----

  /** A failure is passed on with its own number, whatever the request. */
  lemma FailureTold(h: Host, kind: C.Kind, errno: nat)
    ensures C.Convert(h, kind, R.Failed(errno)) == Some(C.KError(errno))
  {
  }

  lemma PlainTold(h: Host, kind: C.Kind, body: R.Response)
    requires C.Convert(h, kind, body).Some?
    ensures body.Done? ==> C.Convert(h, kind, body).value == C.KError(0)
    ensures body.Wrote? ==> C.Convert(h, kind, body).value == C.KWritten(body.size)
    ensures body.Bytes? ==> C.Convert(h, kind, body).value == C.KData(body.data)
    ensures body.Polled? ==> C.Convert(h, kind, body).value == C.KPolled(body.events)
  {
  }

  lemma IoctlMeaning(hc: Host, hs: Host, cmd: u32, app: C.App, d: Deed, body: R.Response, what: C.KernelReply)
    requires d.req.Ioctl? && d.req.cmd == cmd && !d.req.arg.IsRaw() && !d.out.Fails? && Says(hs, d, body)
    requires Decode(hc, Repaired(cmd), app.arg, app.data, Cuse) == Success(d.req.arg)
    requires C.Convert(hc, C.KIoctl(cmd), body) == Some(what)
    ensures IoctlTold(hc, hs, cmd, app, d, what)
  {
    IoctlProperties.OutcomeExactly(hc, hs, cmd, app.arg, app.data);
    assert IoctlProperties.OutcomeOf(hc, hs, cmd, app.arg, app.data).Issued?;
    IoctlProperties.RequestKeepsMeaning(hc, hs, cmd, app.arg, app.data);
    BackLength(hc, hs, cmd, app.arg, app.data, d.operand.value);
    IoctlProperties.ReplyKeepsMeaning(hc, hs, cmd, 0, d.out.dev);
  }

  /** A response of the main thread is told as what the device did. */
  lemma MainTold(hc: Host, sv: Server, app: C.App, d: Deed, body: R.Response, what: C.KernelReply)
    requires Says(sv.host, d, body) && C.KindOf(d.req).Some?
    requires C.Convert(hc, C.KindOf(d.req).value, body) == Some(what)
    requires d.req.Ioctl? ==> Decode(hc, Repaired(d.req.cmd), app.arg, app.data, Cuse) == Success(d.req.arg)
    requires !(d.req.Read? && Waits(d.req.flags))
    ensures Told(hc, sv, app, d, what)
  {
    var kind := C.KindOf(d.req).value;
    if body.Failed? {
      FailureTold(hc, kind, body.errno);
    } else if d.req.Ioctl? {
      IoctlMeaning(hc, sv.host, d.req.cmd, app, d, body, what);
    } else {
      PlainTold(hc, kind, body);
    }
  }

  // ---- one deed, one answer per number ----

  lemma DeedsDistinct(s: State, i: nat, j: nat)
    requires Reachable(s) && i < |s.server.deeds| && j < |s.server.deeds|
    requires s.server.deeds[i].req.sequence == s.server.deeds[j].req.sequence
    ensures i == j
  {
    ReachableDeeds(s);
    var qs := DeedSeqs(s.server.deeds);
    NotedIncreases(IsData, qs, s);
    assert qs[i] == qs[j];
  }

  lemma {:induction false} QueuedFrom(ds: seq<Deed>, r: Read.Req) returns (i: nat)
    requires r in QueuedReads(ds)
    ensures i < |ds| && QueuedRead(ds[i]) == [r]
  {
    var n := |ds| - 1;
    if r in QueuedRead(ds[n]) {
      i := n;
    } else {
      i := QueuedFrom(ds[..n], r);
    }
  }

  /** What the scheduler answered was a read that the main thread queued. */
  lemma AnswerFromDeed(s: State, k: nat) returns (i: nat)
    requires Reachable(s) && k < |s.server.read.answers|
    ensures i < |s.server.deeds| && QueuedRead(s.server.deeds[i]) == [s.server.read.answers[k].req]
  {
    ReachableDeeds(s);
    var read, r := s.server.read, s.server.read.answers[k].req;
    SystemProperties.ReadsDistinct(s);
    ReadProperties.AnsweredArrived(read, k);
    i := QueuedFrom(s.server.deeds, r);
  }

  lemma AnswersDistinct(s: State, i: nat, j: nat)
    requires Reachable(s) && i < |s.server.read.answers| && j < |s.server.read.answers|
    requires s.server.read.answers[i].req.sequence == s.server.read.answers[j].req.sequence
    ensures i == j
  {
    SystemProperties.ReadsDistinct(s);
    if i < j {
      ReadProperties.AnsweredOnce(s.server.read, i, j);
    } else if j < i {
      ReadProperties.AnsweredOnce(s.server.read, j, i);
    }
  }

  // ---- the theorems ----

  /** The request was sent, the main thread dealt with it, and this is what the kernel is told about it. */
  ghost predicate ToldByDeed(s: State, q: nat, i: nat, what: C.KernelReply) {
    && q in s.client.asked && i < |s.server.deeds| && s.server.deeds[i].req == s.client.asked[q].req
    && s.server.deeds[i].req.sequence == q
    && Told(s.client.host, s.server, s.client.asked[q].app, s.server.deeds[i], what)
  }

  lemma AskedFacts(s: State, q: nat)
    requires Reachable(s) && q in s.client.asked
    ensures var ask, c := s.client.asked[q], s.client;
            && ask.req.sequence == q && q != 0 && C.KindOf(ask.req).Some?
            && FromApplication(c, ask.req, ask.app)
  {
    SystemInvariant.ReachableInv(s);
    ReachableApps(s);
  }

  /** Ioctls were sent with what decoding the application's data gave. */
  ghost predicate AppsDecoded(c: C.State) {
    forall q :: q in c.asked ==> q != 0 && FromApplication(c, c.asked[q].req, c.asked[q].app)
  }

  lemma StepKeepsApps(s: State, a: Action)
    requires AppsDecoded(s.client) && Enabled(s, a)
    ensures AppsDecoded(Apply(s, a).client)
  {
    if ServerAction(a) {
      SystemInvariant.ServerKeepsClient(s, a);
    } else {
      HostStays(s, a);
      if !a.Submit? { SystemInvariant.AskedKept(s, a); }
    }
  }

  lemma HostStays(s: State, a: Action)
    requires !ServerAction(a) && ClientEnabled(s, a)
    ensures ClientApply(s, a).client.host == s.client.host
  {
    if a.RxAnswer? { C.AnswerOnly(s.client); }
  }

  lemma {:induction false} RunKeepsApps(s: State, acts: seq<Action>)
    requires AppsDecoded(s.client) && IsRun(s, acts)
    ensures AppsDecoded(After(s, acts).client)
    decreases |acts|
  {
    if acts != [] {
      StepKeepsApps(s, acts[0]);
      RunKeepsApps(Apply(s, acts[0]), acts[1..]);
    }
  }

  lemma ReachableApps(s: State)
    requires Reachable(s)
    ensures AppsDecoded(s.client)
  {
    var hc, hs, n, acts :| n > 0 && IsRun(Init(hc, hs, n), acts) && After(Init(hc, hs, n), acts) == s;
    RunKeepsApps(Init(hc, hs, n), acts);
  }

  /** What the server said about a request, as it is told to the kernel. */
  lemma FrameTold(s: State, f: R.Frame, what: C.KernelReply) returns (i: nat)
    requires Reachable(s) && f in s.client.got && f.sequence in s.client.asked
    requires C.KindOf(s.client.asked[f.sequence].req).Some?
    requires C.Convert(s.client.host, C.KindOf(s.client.asked[f.sequence].req).value, f.body) == Some(what)
    ensures ToldByDeed(s, f.sequence, i, what)
  {
    var c, sv, q := s.client, s.server, f.sequence;
    AskedFacts(s, q);
    GotSaid(s, f);
    if SaidByMain(sv, f) {
      i :| 0 <= i < |sv.deeds| && sv.deeds[i].req.sequence == f.sequence && Says(sv.host, sv.deeds[i], f.body);
      DeedAsked(s, i);
      MainFrameTold(s, f, what, i);
    } else {
      var k :| 0 <= k < |sv.read.answers| && sv.read.answers[k].req.sequence == q && AnswerSays(sv.read.answers[k], f.body);
      i := AnswerFromDeed(s, k);
      DeedAsked(s, i);
      ReaderTold(s, f, what, i, k);
    }
  }

  lemma GotSaid(s: State, f: R.Frame)
    requires Reachable(s) && f in s.client.got
    ensures Said(s.server, f)
  {
    ReachableDeeds(s);
    var k :| 0 <= k < |s.client.got| && s.client.got[k] == f;
    assert Outbox(s)[k] == f;
  }

  lemma DeedAsked(s: State, i: nat)
    requires Reachable(s) && i < |s.server.deeds|
    ensures var r := s.server.deeds[i].req; r.sequence in s.client.asked && s.client.asked[r.sequence].req == r
  {
    ReachableDeeds(s);
  }

  /** A read that waits is not answered by the main thread, unless it fails at once. */
  lemma MainFrameTold(s: State, f: R.Frame, what: C.KernelReply, i: nat)
    requires Reachable(s) && f.sequence in s.client.asked && i < |s.server.deeds|
    requires s.server.deeds[i].req == s.client.asked[f.sequence].req && s.server.deeds[i].req.sequence == f.sequence
    requires Says(s.server.host, s.server.deeds[i], f.body)
    requires C.KindOf(s.client.asked[f.sequence].req).Some?
    requires C.Convert(s.client.host, C.KindOf(s.client.asked[f.sequence].req).value, f.body) == Some(what)
    ensures ToldByDeed(s, f.sequence, i, what)
  {
    AskedFacts(s, f.sequence);
    ReachableOutcomes(s, i);
    MainTold(s.client.host, s.server, s.client.asked[f.sequence].app, s.server.deeds[i], f.body, what);
  }

  lemma ReaderTold(s: State, f: R.Frame, what: C.KernelReply, i: nat, k: nat)
    requires Reachable(s) && f.sequence in s.client.asked && i < |s.server.deeds| && k < |s.server.read.answers|
    requires s.server.read.answers[k].req.sequence == f.sequence && AnswerSays(s.server.read.answers[k], f.body)
    requires QueuedRead(s.server.deeds[i]) == [s.server.read.answers[k].req]
    requires s.server.deeds[i].req == s.client.asked[f.sequence].req
    requires C.KindOf(s.client.asked[f.sequence].req).Some?
    requires C.Convert(s.client.host, C.KindOf(s.client.asked[f.sequence].req).value, f.body) == Some(what)
    ensures ToldByDeed(s, f.sequence, i, what)
  {
    var kind, x := C.KindOf(s.client.asked[f.sequence].req).value, s.server.read.answers[k];
    if f.body.Failed? { FailureTold(s.client.host, kind, f.body.errno); } else { PlainTold(s.client.host, kind, f.body); }
    assert AnswerTold(x.reply, what);
  }

  /** Reads that wait are dealt with without a system call. */
  ghost predicate OutcomesFit(ds: seq<Deed>) {
    forall i :: 0 <= i < |ds| && ds[i].req.Read? && Waits(ds[i].req.flags) ==> ds[i].out.None?
  }

  lemma StepKeepsOutcomes(s: State, a: Action)
    requires OutcomesFit(s.server.deeds) && Enabled(s, a)
    ensures OutcomesFit(Apply(s, a).server.deeds)
  {
    if !ServerAction(a) {
      ClientKeepsServer(s, a);
    } else if a.Handle? {
      SystemInvariant.HandleFacts(s, a.out);
      BlockingWaits(s.server.main.req);
    }
  }

  lemma {:induction false} RunKeepsOutcomes(s: State, acts: seq<Action>)
    requires OutcomesFit(s.server.deeds) && IsRun(s, acts)
    ensures OutcomesFit(After(s, acts).server.deeds)
    decreases |acts|
  {
    if acts != [] {
      StepKeepsOutcomes(s, acts[0]);
      RunKeepsOutcomes(Apply(s, acts[0]), acts[1..]);
    }
  }

  lemma ReachableOutcomes(s: State, i: nat)
    requires Reachable(s) && i < |s.server.deeds|
    ensures var d := s.server.deeds[i]; d.req.Read? && Waits(d.req.flags) ==> d.out.None?
  {
    var hc, hs, n, acts :| n > 0 && IsRun(Init(hc, hs, n), acts) && After(Init(hc, hs, n), acts) == s;
    RunKeepsOutcomes(Init(hc, hs, n), acts);
  }

  /** The reply was given because the receiving thread ended before an answer came. */
  ghost predicate Abandoned(s: State, r: C.Reply) {
    r.what == C.KError(4) && L.LeftOver(s.client, r.unique)
  }

  /**
   Every reply to a request that was sent tells what the device did for that very request, or is
   the EINTR of teardown.
   */
  lemma ReplyTells(s: State, k: nat, q: nat)
    requires Reachable(s) && k < |s.client.replies|
    requires q in s.client.asked && s.client.asked[q].unique == s.client.replies[k].unique
    ensures Abandoned(s, s.client.replies[k]) || exists i :: ToldByDeed(s, q, i, s.client.replies[k].what)
  {
    var c, r := s.client, s.client.replies[k];
    SystemProperties.ReplyOrigin(s, k);
    assert SystemProperties.WasAsked(c, r.unique);
    if L.FromServer(c, r.unique, r.what) {
      var f :| f in c.got && L.FromFrame(c, f, r.unique, r.what);
      SystemProperties.AskedUnder(s, f.sequence, q);
      var i := FrameTold(s, f, r.what);
    }
  }

  /** The reply to a request that the main thread dealt with tells that deed and no other. */
  lemma DeedTold(s: State, i: nat, k: nat)
    requires Reachable(s) && i < |s.server.deeds| && k < |s.client.replies|
    ensures var d, q := s.server.deeds[i], s.server.deeds[i].req.sequence;
            q in s.client.asked && (s.client.asked[q].unique == s.client.replies[k].unique ==>
              || Abandoned(s, s.client.replies[k])
              || Told(s.client.host, s.server, s.client.asked[q].app, d, s.client.replies[k].what))
  {
    var q, r := s.server.deeds[i].req.sequence, s.client.replies[k];
    DeedAsked(s, i);
    if s.client.asked[q].unique == r.unique {
      ReplyTells(s, k, q);
      if !Abandoned(s, r) {
        var j :| ToldByDeed(s, q, j, r.what);
        DeedsDistinct(s, i, j);
      }
    }
  }

  /** An error that a system call of the main thread gave is what the kernel is told. */
  lemma DeviceErrorTold(s: State, i: nat, k: nat)
    requires Reachable(s) && i < |s.server.deeds| && k < |s.client.replies| && s.server.deeds[i].out.Fails?
    requires var q := s.server.deeds[i].req.sequence;
             q in s.client.asked && s.client.asked[q].unique == s.client.replies[k].unique
    ensures s.client.replies[k].what == C.KError(s.server.deeds[i].out.errno) || Abandoned(s, s.client.replies[k])
  {
    DeedTold(s, i, k);
    ReachableFailures(s, i);
    ReachableOutcomes(s, i);
  }

  /** Only requests that need a system call fail. */
  lemma ReachableFailures(s: State, i: nat)
    requires Reachable(s) && i < |s.server.deeds| && s.server.deeds[i].out.Fails?
    ensures !s.server.deeds[i].req.Release?
  {
    var hc, hs, n, acts :| n > 0 && IsRun(Init(hc, hs, n), acts) && After(Init(hc, hs, n), acts) == s;
    RunKeepsReleases(Init(hc, hs, n), acts);
  }

  ghost predicate ReleasesFit(ds: seq<Deed>) {
    forall i :: 0 <= i < |ds| && ds[i].req.Release? ==> ds[i].out.None?
  }

  lemma StepKeepsReleases(s: State, a: Action)
    requires ReleasesFit(s.server.deeds) && Enabled(s, a)
    ensures ReleasesFit(Apply(s, a).server.deeds)
  {
    if !ServerAction(a) {
      ClientKeepsServer(s, a);
    } else if a.Handle? {
      SystemInvariant.HandleFacts(s, a.out);
    }
  }

  lemma {:induction false} RunKeepsReleases(s: State, acts: seq<Action>)
    requires ReleasesFit(s.server.deeds) && IsRun(s, acts)
    ensures ReleasesFit(After(s, acts).server.deeds)
    decreases |acts|
  {
    if acts != [] {
      StepKeepsReleases(s, acts[0]);
      RunKeepsReleases(Apply(s, acts[0]), acts[1..]);
    }
  }

  /** What the scheduler answered to a read is what the kernel is told: its data, or its error. */
  lemma ScheduledTold(s: State, j: nat, k: nat)
    requires Reachable(s) && j < |s.server.read.answers| && k < |s.client.replies|
    requires var q := s.server.read.answers[j].req.sequence;
             q in s.client.asked && s.client.asked[q].unique == s.client.replies[k].unique
    ensures AnswerTold(s.server.read.answers[j].reply, s.client.replies[k].what) || Abandoned(s, s.client.replies[k])
  {
    var x, r := s.server.read.answers[j], s.client.replies[k];
    var i := AnswerFromDeed(s, j);
    DeedTold(s, i, k);
    if !Abandoned(s, r) {
      var answers := s.server.read.answers;
      var m :| 0 <= m < |answers| && answers[m].req == x.req && AnswerTold(answers[m].reply, r.what);
      AnswersDistinct(s, j, m);
    }
  }

  // ---- the worker's own system calls ----

  /** What a step of the system does to the scheduler. */
  lemma SchedulerStep(s: State, a: Action)
    requires Enabled(s, a)
    ensures var read, t := s.server.read, Apply(s, a).server.read;
            t == read || exists b :: Read.Enabled(read, b) && t == Read.Apply(read, b)
  {
    if !ServerAction(a) {
      ClientKeepsServer(s, a);
    } else if a.Handle? {
      var r := s.server.main.req;
      SystemInvariant.HandleFacts(s, a.out);
      if r.Interrupt? {
        assert Read.Enabled(s.server.read, Read.Intr(r.sequence));
      } else if Blocking(r) {
        assert Read.Enabled(s.server.read, Read.Push(Spec.Req(r.sequence, r.size)));
      }
    } else if a.SyncWrite? {
      assert Read.Enabled(s.server.read, Read.SyncWrite);
    }
  }

  lemma {:induction false} RunKeepsBound(s: State, acts: seq<Action>, r: Read.Req, reply: Spec.Reply)
    requires ReadProperties.Bound(s.server.read, r, reply) && IsRun(s, acts)
    ensures ReadProperties.Bound(After(s, acts).server.read, r, reply)
    decreases |acts|
  {
    if acts != [] {
      var read, t := s.server.read, Apply(s, acts[0]);
      SchedulerStep(s, acts[0]);
      if t.server.read != read {
        var b :| Read.Enabled(read, b) && t.server.read == Read.Apply(read, b);
        ReadProperties.BoundStep(read, b, r, reply);
      }
      RunKeepsBound(t, acts[1..], r, reply);
    }
  }

  lemma {:induction false} RunKeepsParked(s: State, acts: seq<Action>, r: Read.Req, e: nat)
    requires ReadProperties.BoundParked(s.server.read, r, e) && IsRun(s, acts)
    ensures ReadProperties.BoundParked(After(s, acts).server.read, r, e)
    decreases |acts|
  {
    if acts != [] {
      var read, t := s.server.read, Apply(s, acts[0]);
      SchedulerStep(s, acts[0]);
      if t.server.read != read {
        var b :| Read.Enabled(read, b) && t.server.read == Read.Apply(read, b);
        ReadProperties.ParkedStep(read, b, r, e);
      }
      RunKeepsParked(t, acts[1..], r, e);
    }
  }

  /** A reply to a read that waits was given because of an answer of the worker. */
  lemma ReaderAnswered(s: State, r: Read.Req, k: nat) returns (m: nat)
    requires Reachable(s) && r in s.server.read.arrivals && k < |s.client.replies| && r.sequence in s.client.asked
    requires s.client.asked[r.sequence].unique == s.client.replies[k].unique && !Abandoned(s, s.client.replies[k])
    ensures m < |s.server.read.answers| && s.server.read.answers[m].req == r
    ensures AnswerTold(s.server.read.answers[m].reply, s.client.replies[k].what)
  {
    ReachableDeeds(s);
    var i := QueuedFrom(s.server.deeds, r);
    DeedTold(s, i, k);
    var answers, what := s.server.read.answers, s.client.replies[k].what;
    m :| 0 <= m < |answers| && answers[m].req == r && AnswerTold(answers[m].reply, what);
  }

  /** A read that the worker holds is not answered yet. */
  lemma HandNotAnswered(s: State, r: Read.Req, m: nat)
    requires Reachable(s) && m < |s.server.read.answers| && s.server.read.answers[m].req == r
    ensures r !in Read.Hand(s.server.read.worker) && s.server.read.pending != Some(r) && r in s.server.read.arrivals
  {
    SystemProperties.ReadsDistinct(s);
    var read := s.server.read;
    ReadProperties.AnsweredArrived(read, m);
    SystemProperties.BlockingReadOnce(s, r);
    var done := Spec.Answered(read.answers);
    assert done[m] in multiset(done);
    assert r in Read.Hand(read.worker) <==> r in multiset(Read.Hand(read.worker));
    assert read.pending == Some(r) <==> r in multiset(OptSeq(read.pending));
  }

  lemma HeldArrived(s: State, r: Read.Req)
    requires Reachable(s) && (r in Read.Hand(s.server.read.worker) || s.server.read.pending == Some(r))
    ensures r in s.server.read.arrivals
  {
    SystemProperties.ReadsDistinct(s);
    var read := s.server.read;
    ReadProperties.PlacesCountArrivals(read, r);
    if r in Read.Hand(read.worker) {
      assert r in multiset(Read.Hand(read.worker));
    } else {
      assert r in multiset(OptSeq(read.pending));
    }
    assert r in multiset(read.arrivals);
  }

  lemma AnswerAt(s: State, x: Spec.Answer) returns (j: nat)
    requires Reachable(s) && x in s.server.read.answers
    ensures j < |s.server.read.answers| && s.server.read.answers[j] == x && x.req in s.server.read.arrivals
  {
    j :| 0 <= j < |s.server.read.answers| && s.server.read.answers[j] == x;
    SystemProperties.ReadsDistinct(s);
    ReadProperties.AnsweredArrived(s.server.read, j);
  }

  /** The one answer that a bound read can have. */
  lemma BoundTold(s: State, r: Read.Req, reply: Spec.Reply, k: nat)
    requires Reachable(s) && ReadProperties.Bound(s.server.read, r, reply)
    requires k < |s.client.replies| && r.sequence in s.client.asked
    requires s.client.asked[r.sequence].unique == s.client.replies[k].unique && !Abandoned(s, s.client.replies[k])
    ensures AnswerTold(reply, s.client.replies[k].what)
  {
    var read, x := s.server.read, Spec.Answer(r, reply);
    if x in read.answers {
      var j := AnswerAt(s, x);
      var m := ReaderAnswered(s, r, k);
      AnswersDistinct(s, j, m);
    } else {
      assert r in Read.Hand(read.worker);
      HeldArrived(s, r);
      var m := ReaderAnswered(s, r, k);
      HandNotAnswered(s, r, m);
    }
  }

  /**
   Once the worker read from the device, or failed to, on every run from there a reply to that read
   carries exactly these bytes, or that error, unless teardown came first.
   */
  lemma ReadOutcomeTold(s: State, a: Read.Action, acts: seq<Action>, k: nat)
    requires Reachable(s) && Enabled(s, ReadWorker(a)) && (a.ReadOk? || a.ReadErr?)
    requires IsRun(Apply(s, ReadWorker(a)), acts)
    requires var t, q := After(Apply(s, ReadWorker(a)), acts), s.server.read.worker.req.sequence;
             k < |t.client.replies| && q in t.client.asked && t.client.asked[q].unique == t.client.replies[k].unique
    ensures var t := After(Apply(s, ReadWorker(a)), acts);
            || Abandoned(t, t.client.replies[k])
            || t.client.replies[k].what == if a.ReadOk? then C.KData(a.bytes) else C.KError(a.errno)
  {
    var r, u := s.server.read.worker.req, Apply(s, ReadWorker(a));
    var t, reply := After(u, acts), if a.ReadOk? then Spec.Data(a.bytes) else Spec.Error(a.errno);
    SystemRuns.ReachableStep(s, ReadWorker(a));
    SystemRuns.ReachableRun(u, acts);
    ReadProperties.ReadBinds(s.server.read, a);
    RunKeepsBound(u, acts, r, reply);
    if !Abandoned(t, t.client.replies[k]) { BoundTold(t, r, reply, k); }
  }

  /** If poll fails while a read is parked, a reply to that read has the error of poll, or EINTR. */
  lemma PollFailureTold(s: State, a: Read.Action, acts: seq<Action>, k: nat)
    requires Reachable(s) && Enabled(s, ReadWorker(a)) && a.PollReturn? && a.err.Some? && s.server.read.pending.Some?
    requires IsRun(Apply(s, ReadWorker(a)), acts)
    requires var t, q := After(Apply(s, ReadWorker(a)), acts), s.server.read.pending.value.sequence;
             k < |t.client.replies| && q in t.client.asked && t.client.asked[q].unique == t.client.replies[k].unique
    ensures var t := After(Apply(s, ReadWorker(a)), acts);
            t.client.replies[k].what == C.KError(a.err.value) || t.client.replies[k].what == C.KError(4)
  {
    var r, e, u := s.server.read.pending.value, a.err.value, Apply(s, ReadWorker(a));
    var t := After(u, acts);
    SystemRuns.ReachableStep(s, ReadWorker(a));
    SystemRuns.ReachableRun(u, acts);
    ReadProperties.PollBinds(s.server.read, a);
    RunKeepsParked(u, acts, r, e);
    if !Abandoned(t, t.client.replies[k]) { ParkedTold(t, r, e, k); }
  }

  lemma ParkedTold(s: State, r: Read.Req, e: nat, k: nat)
    requires Reachable(s) && ReadProperties.BoundParked(s.server.read, r, e)
    requires k < |s.client.replies| && r.sequence in s.client.asked
    requires s.client.asked[r.sequence].unique == s.client.replies[k].unique && !Abandoned(s, s.client.replies[k])
    ensures s.client.replies[k].what == C.KError(e) || s.client.replies[k].what == C.KError(4)
  {
    var read := s.server.read;
    if ReadProperties.Bound(read, r, Spec.Error(e)) {
      BoundTold(s, r, Spec.Error(e), k);
    } else if Spec.Answer(r, Spec.Error(4)) in read.answers {
      assert ReadProperties.Bound(read, r, Spec.Error(4));
      BoundTold(s, r, Spec.Error(4), k);
    } else {
      HeldArrived(s, r);
      var m := ReaderAnswered(s, r, k);
      HandNotAnswered(s, r, m);
    }
  }

  // ---- polls and registration ----

  /**
   A poll that the main thread dealt with: it is registered with exactly the events it asks for if it
   wants to be notified of some and nothing is ready; if it asks for none, the handle is forgotten; in
   every other case registrations stay as they were.
   */
  lemma PollRegistered(s: State, out: Outcome)
    requires Parts(s) && Handles(s.server, out) && s.server.main.req.Poll?
    ensures var r, p, t := s.server.main.req, s.server.poll, HandleStep(s, out);
            if out.Polls? && Notify(r.flags) && NothingReady(p.ready, r.events) then
              && ServerEnabled(t, Register)
              && var after := ServerApply(t, Register).server;
                 && after.main.Receiving?
                 && after.poll.khs == (if Wanted(r.events) == {} then p.khs - {r.kh} else p.khs[r.kh := Wanted(r.events)])
                 && after.poll.registered == p.registered + (if Wanted(r.events) == {} then [] else [r.kh])
            else
              t.server.main.Receiving? && t.server.poll.khs == p.khs && t.server.poll.registered == p.registered
  {
    var r, p, t := s.server.main.req, s.server.poll, HandleStep(s, out);
    SystemInvariant.HandleFacts(s, out);
    PollLeaves(p, r, out);
    PollMain(s, out);
    WantedExact(r.events);
    assert Poll.PollToEpoll(Wanted(r.events)) == Wanted(r.events);
    assert p.registered + [] == p.registered;
  }

  lemma PollMain(s: State, out: Outcome)
    requires Handles(s.server, out) && s.server.main.req.Poll?
    ensures var t := HandleStep(s, out);
            t.server.main == if t.server.poll.main.Checked? then Registering else Receiving
  {
  }

  // ---- interrupts ----

  /** An interrupt is answered with EINTR at once exactly if its read is parked or queued. */
  lemma InterruptAnswered(s: State, out: Outcome)
    requires Reachable(s) && Handles(s.server, out) && s.server.main.req.Interrupt?
    ensures var q, read, t := s.server.main.req.sequence, s.server.read, HandleStep(s, out);
            t.s2c == s.s2c + if ReadProperties.Holds(OptSeq(read.pending) + read.queue, q) then [R.Frame(q, R.Failed(4))]
                             else []
  {
    var q, read := s.server.main.req.sequence, s.server.read;
    SystemProperties.ReadsDistinct(s);
    SystemInvariant.HandleFacts(s, out);
    ReadProperties.InterruptExactly(read, q);
    var after := Read.Apply(read, Read.Intr(q));
    if after.answers != read.answers {
      var r: Read.Req :| r.sequence == q && r in Read.Waiting(read) && after.answers == read.answers + [Read.Interrupted(r)];
      assert after.answers[|read.answers|] == Read.Interrupted(r);
    }
  }

  // ---- closing ----

  /** Between two messages the device is closed exactly if the answer to a release was received. */
  lemma ClosedExactly(s: State)
    requires Reachable(s) && s.client.rx.RxLoop?
    ensures s.client.closed <==> exists f :: f in s.client.got && f.body.Done?
  {
    ReachableDeeds(s);
    var c := s.client;
    forall f | f in c.got && f.body.Done? ensures c.closed {
      GotSaid(s, f);
    }
  }

  lemma ClosedStep(s: State, a: Action)
    requires s.client.closed && Enabled(s, a)
    ensures Apply(s, a).client.closed && Apply(s, a).client.got == s.client.got
  {
    if ServerAction(a) {
      SystemInvariant.ServerKeepsClient(s, a);
    } else if a.RxAnswer? {
      C.AnswerOnly(s.client);
      ClosedStays(s.client);
    }
  }

  lemma ClosedStays(c: C.State)
    requires c.closed && c.rx.RxReply?
    ensures C.HandleResponse(c).closed
  {
  }

  /** Once the device is closed, nothing more is received. */
  lemma {:induction false} ClosedReceivesNothing(s: State, acts: seq<Action>)
    requires s.client.closed && IsRun(s, acts)
    ensures After(s, acts).client.closed && After(s, acts).client.got == s.client.got
    decreases |acts|
  {
    if acts != [] {
      ClosedStep(s, acts[0]);
      ClosedReceivesNothing(Apply(s, acts[0]), acts[1..]);
    }
  }
}
