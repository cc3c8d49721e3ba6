/**
 What the server's frames say.  Every frame is about one thing the device did for one request,
 and the log of the main thread tells which requests were queued and which polls were registered.
 */
module SystemDeeds {
  import opened Base
  import opened Endian
  import opened Bits
  import opened IoctlNumber
  import opened IoctlArg
  import opened Events
  import P = Protocol
  import R = Responses
  import C = Client
  import L = ClientLedger
  import Spec = ReadSpec
  import Read = ReadScheduler
  import Poll = PollServer
  import opened System
  import opened SystemFlow
  import opened SystemOrder
  import opened SystemCarried
  import opened SystemWrites
  import opened SystemSteps
  import SystemInvariant

  // ---- what a frame says ----

  /** The third bit of the flags of a read asks not to wait. */
  predicate Waits(flags: nat) { BitAnd(flags, 4) == 0 }

  /** The first bit of the flags of a poll asks to be notified. */
  predicate Notify(flags: nat) { BitAnd(flags, 1) != 0 }

  /** The response to a request that the main thread answers itself. */
  ghost predicate Says(h: Host, d: Deed, body: R.Response) {
    if d.out.Fails? then body == R.Failed(d.out.errno) && !d.req.Open? && !d.req.Release? && !d.req.Interrupt?
    else match d.req
      case Open(_, _) => body == R.Failed(22)
      case Release(_) => body == R.Done
      case Write(_, _, _, data) => d.out.Counts? && d.out.n <= |data| && body == R.Wrote(d.out.n)
      case Read(_, _, size, flags) =>
        && !Waits(flags) && d.out.Gives? && |d.out.bytes| <= size && |d.out.bytes| <= 4096
        && body == R.Bytes(d.out.bytes)
      case Ioctl(_, cmd, arg) =>
        if arg.IsRaw() then d.operand.None? && body == R.Failed(1)
        else
          && d.out.Returns? && cmd < 0x1_0000_0000 && arg.Formed()
          && d.operand.Some? && Encode(h, Repaired(cmd), arg) == Success((cmd, d.operand.value))
          && |d.out.dev| == OperandLen(d.operand.value)
          && body.IoctlDone? && body.retval == d.out.rc
          && Decode(h, Repaired(cmd), 0, d.out.dev, Device) == Success(body.arg)
      case Poll(_, _, _, events) => d.out.Polls? && body.Polled? && Reports(d.ready, events, body.events)
      case Interrupt(_) => false
  }

  /** The response to a read that the scheduler answered. */
  ghost predicate AnswerSays(x: Spec.Answer, body: R.Response) {
    match x.reply
    case Data(bytes) => body == R.Bytes(bytes)
    case Error(e) => body == R.Failed(e)
  }

  ghost predicate SaidByMain(sv: Server, f: R.Frame) {
    exists i :: 0 <= i < |sv.deeds| && sv.deeds[i].req.sequence == f.sequence && Says(sv.host, sv.deeds[i], f.body)
  }

  ghost predicate SaidByReader(sv: Server, f: R.Frame) {
    exists i :: 0 <= i < |sv.read.answers| && sv.read.answers[i].req.sequence == f.sequence
                && AnswerSays(sv.read.answers[i], f.body)
  }

  /** A frame with a number is about that request; one without is a wake-up. */
  ghost predicate Said(sv: Server, f: R.Frame) {
    if f.sequence == 0 then f.body.Wakeup? || f.body.Wakeups? else SaidByMain(sv, f) || SaidByReader(sv, f)
  }

  ghost predicate AllSaid(sv: Server, fs: seq<R.Frame>) {
    forall i :: 0 <= i < |fs| ==> Said(sv, fs[i])
  }

  // ---- what the log tells ----

  predicate IsData(r: P.Request) { !r.Interrupt? }

  function DeedSeqs(ds: seq<Deed>): (qs: seq<nat>)
    ensures |qs| == |ds| && forall i :: 0 <= i < |ds| ==> qs[i] == ds[i].req.sequence
  {
    seq(|ds|, i requires 0 <= i < |ds| => ds[i].req.sequence)
  }

  /** The main thread only deals with what the client sent. */
  ghost predicate DeedsAsked(c: C.State, ds: seq<Deed>) {
    forall i :: 0 <= i < |ds| ==>
      ds[i].req.sequence in c.asked && c.asked[ds[i].req.sequence].req == ds[i].req
  }

  function QueuedRead(d: Deed): seq<Read.Req> {
    if d.req.Read? && Waits(d.req.flags) then [Spec.Req(d.req.sequence, d.req.size)] else []
  }

  function QueuedReads(ds: seq<Deed>): seq<Read.Req> {
    if ds == [] then [] else QueuedReads(ds[..|ds| - 1]) + QueuedRead(ds[|ds| - 1])
  }

  /** A poll that asks to be notified of some event, and was told that nothing is ready. */
  predicate WaitingPoll(d: Deed) {
    && d.req.Poll? && d.out.Polls? && Notify(d.req.flags)
    && Wanted(d.req.events) != {} && NothingReady(d.ready, d.req.events)
  }

  function PolledHandle(d: Deed): seq<nat> { if WaitingPoll(d) then [d.req.kh] else [] }

  /** The handles of these polls. */
  function PolledHandles(ds: seq<Deed>): seq<nat> {
    if ds == [] then [] else PolledHandles(ds[..|ds| - 1]) + PolledHandle(ds[|ds| - 1])
  }

  /** The handle that is about to be registered. */
  function Upcoming(p: Poll.State): seq<nat> {
    if p.main.Checked? && p.main.mask != {} then [p.main.kh] else []
  }

  ghost predicate LineInv(s: State) {
    InLine(IsData, DeedSeqs(s.server.deeds), s) && DeedsAsked(s.client, s.server.deeds)
  }

  ghost predicate SaidInv(s: State) { AllSaid(s.server, Outbox(s)) }

  ghost predicate QueueInv(sv: Server) { QueuedReads(sv.deeds) == sv.read.arrivals }

  ghost predicate PollInv(sv: Server) { PolledHandles(sv.deeds) == sv.poll.registered + Upcoming(sv.poll) }

  /** The device is closed once the answer to a release was dealt with. */
  ghost predicate CloseInv(c: C.State) {
    && (c.closed ==> exists f :: f in c.got && f.body.Done?)
    && (forall f :: f in c.got && f.body.Done? && f.sequence != 0 ==>
          c.closed || c.rx == C.RxGot(f) || (c.rx.RxReply? && c.rx.body.Done?))
  }

  ghost predicate DeedInv(s: State) {
    LineInv(s) && SaidInv(s) && QueueInv(s.server) && PollInv(s.server) && CloseInv(s.client)
  }

  // ---- appending to the logs ----

  lemma QueuedSnoc(ds: seq<Deed>, d: Deed)
    ensures QueuedReads(ds + [d]) == QueuedReads(ds) + QueuedRead(d)
    ensures PolledHandles(ds + [d]) == PolledHandles(ds) + PolledHandle(d)
  {
    assert (ds + [d])[..|ds|] == ds;
  }

  lemma SaidKept(sv: Server, sv': Server, f: R.Frame)
    requires Said(sv, f) && sv'.host == sv.host && sv.deeds <= sv'.deeds && sv.read.answers <= sv'.read.answers
    ensures Said(sv', f)
  {
    if f.sequence != 0 {
      if SaidByMain(sv, f) {
        var i :| 0 <= i < |sv.deeds| && sv.deeds[i].req.sequence == f.sequence && Says(sv.host, sv.deeds[i], f.body);
        assert sv'.deeds[i] == sv.deeds[i];
      } else {
        var i :| 0 <= i < |sv.read.answers| && sv.read.answers[i].req.sequence == f.sequence
                 && AnswerSays(sv.read.answers[i], f.body);
        assert sv'.read.answers[i] == sv.read.answers[i];
      }
    }
  }

  /** The server sends frames that its logs account for. */
  lemma SaidMore(s: State, t: State, more: seq<R.Frame>)
    requires SaidInv(s) && t.client.got == s.client.got && t.s2c == s.s2c + more && AllSaid(t.server, more)
    requires t.server.host == s.server.host && s.server.deeds <= t.server.deeds
    requires s.server.read.answers <= t.server.read.answers
    ensures SaidInv(t)
  {
    OutboxMore(s, t, more);
    var fs := Outbox(s);
    forall i | 0 <= i < |fs| ensures Said(t.server, fs[i]) { SaidKept(s.server, t.server, fs[i]); }
  }

  lemma DeedsStay(c: C.State, c': C.State, ds: seq<Deed>)
    requires DeedsAsked(c, ds) && forall q :: q in c.asked ==> q in c'.asked && c'.asked[q] == c.asked[q]
    ensures DeedsAsked(c', ds)
  {
  }

  // ---- the main thread's replies ----

  lemma TenBits(a: nat, b: nat, c: nat, d: nat, e: nat, f: nat, g: nat, h: nat, i: nat, j: nat)
    requires a <= 1 && b <= 1 && c <= 1 && d <= 1 && e <= 1 && f <= 1 && g <= 1 && h <= 1 && i <= 1 && j <= 1
    ensures var n := a + 2 * b + 4 * c + 8 * d + 0x10 * e + 0x20 * f + 0x40 * g + 0x80 * h + 0x100 * i + 0x200 * j;
            && n < 0x400 && n / 1 % 2 == a && n / 2 % 2 == b && n / 4 % 2 == c && n / 8 % 2 == d && n / 0x10 % 2 == e
            && n / 0x20 % 2 == f && n / 0x40 % 2 == g && n / 0x80 % 2 == h && n / 0x100 % 2 == i && n / 0x200 % 2 == j
  {
    var n := a + 2 * b + 4 * c + 8 * d + 0x10 * e + 0x20 * f + 0x40 * g + 0x80 * h + 0x100 * i + 0x200 * j;
    var n1 := b + 2 * c + 4 * d + 8 * e + 0x10 * f + 0x20 * g + 0x40 * h + 0x80 * i + 0x100 * j;
    var n4 := e + 2 * f + 4 * g + 8 * h + 0x10 * i + 0x20 * j;
    assert n / 2 == n1;
    assert n / 4 == c + 2 * d + 4 * n4;
    assert n / 8 == d + 2 * n4;
    assert n / 0x10 == n4;
    assert n / 0x20 == f + 2 * g + 4 * h + 8 * i + 0x10 * j;
    assert n / 0x40 == g + 2 * h + 4 * i + 8 * j;
    assert n / 0x80 == h + 2 * i + 4 * j;
    assert n / 0x100 == i + 2 * j;
    assert n / 0x200 == j;
  }

  /** The number of a set of events has exactly their bits. */
  lemma FlagBitsExact(fs: set<Poll.Flag>, f: Poll.Flag)
    ensures FlagBits(fs) < 0x400 && (HasMask(FlagBits(fs), f) <==> f in fs)
  {
    FlagBitsDivided(fs, f);
    MaskIsBit(FlagBits(fs), f);
  }

  lemma FlagBitsDivided(fs: set<Poll.Flag>, f: Poll.Flag)
    ensures FlagBits(fs) < 0x400 && FlagBits(fs) / Poll.Bit(f) % 2 == One(fs, f)
  {
    TenBits(One(fs, Poll.In), One(fs, Poll.Pri), One(fs, Poll.Out), One(fs, Poll.Err), One(fs, Poll.Hup),
            One(fs, Poll.Nval), One(fs, Poll.RdNorm), One(fs, Poll.RdBand), One(fs, Poll.WrNorm), One(fs, Poll.WrBand));
    FlagBitsSum(fs);
  }

  lemma FlagBitsSum(fs: set<Poll.Flag>)
    ensures FlagBits(fs)
            == One(fs, Poll.In) + 2 * One(fs, Poll.Pri) + 4 * One(fs, Poll.Out) + 8 * One(fs, Poll.Err)
               + 0x10 * One(fs, Poll.Hup) + 0x20 * One(fs, Poll.Nval) + 0x40 * One(fs, Poll.RdNorm)
               + 0x80 * One(fs, Poll.RdBand) + 0x100 * One(fs, Poll.WrNorm) + 0x200 * One(fs, Poll.WrBand)
  {
  }

  lemma ReportedNumber(ready: set<Poll.Flag>, events: nat)
    ensures Reports(ready, events, FlagBits(Poll.Reported(ready, Poll.ProtoToPoll(events))))
  {
    var hit := Poll.Reported(ready, Poll.ProtoToPoll(events));
    WantedExact(events);
    forall f ensures FlagBits(hit) < 0x400 && (HasMask(FlagBits(hit), f) <==> f in hit) { FlagBitsExact(hit, f); }
  }

  /** The command that is issued is the one that was asked for. */
  lemma EncodedCommand(h: Host, cmd: u32, arg: Arg)
    requires arg.Formed() && Encode(h, Repaired(cmd), arg).Success?
    ensures Encode(h, Repaired(cmd), arg).value.0 == cmd
  {
  }

  /** What the main thread replies is what the device did. */
  lemma DirectReplySays(sv: Server, out: Outcome)
    requires Handles(sv, out) && DirectReply(sv, sv.main.req, out).Some?
    ensures Says(sv.host, DeedOf(sv, out), DirectReply(sv, sv.main.req, out).value)
  {
    var r := sv.main.req;
    if !out.Fails? {
      if r.Read? { MaskOne(r.flags); }
      if r.Poll? { ReportedNumber(sv.poll.ready, r.events); }
      if r.Ioctl? && !r.arg.IsRaw() { EncodedCommand(sv.host, r.cmd, r.arg); }
    }
  }

  lemma BlockingWaits(r: P.Request)
    ensures Blocking(r) <==> r.Read? && Waits(r.flags)
  {
    if r.Read? { MaskOne(r.flags); }
  }

  // ---- the steps ----

  lemma HandleQueue(s: State, out: Outcome)
    requires QueueInv(s.server) && Parts(s) && Handles(s.server, out)
    ensures QueueInv(HandleStep(s, out).server)
  {
    var sv, r, t := s.server, s.server.main.req, HandleStep(s, out);
    SystemInvariant.HandleFacts(s, out);
    BlockingWaits(r);
    if r.Interrupt? {
      AnswersGrow(sv.read, Read.Intr(r.sequence));
    } else {
      QueuedSnoc(sv.deeds, DeedOf(sv, out));
      assert sv.read.arrivals + [] == sv.read.arrivals;
    }
  }

  /** A poll that is dealt with, and what it leaves to be registered. */
  lemma PollLeaves(p: Poll.State, r: P.Request, out: Outcome)
    requires r.Poll? && p.main.Free? && (out.Fails? || out.Polls?)
    ensures var t := Poll.Apply(p, PollAction(r, out));
            && t.registered == p.registered && t.khs == p.khs
            && Upcoming(t) == PolledHandle(Deed(r, out, p.ready, Option.None))
            && (t.main.Checked? <==> out.Polls? && Notify(r.flags) && NothingReady(p.ready, r.events))
            && (t.main.Checked? ==> t.main == Poll.Checked(r.kh, Wanted(r.events)))
  {
    MaskOne(r.flags);
    WantedExact(r.events);
  }

  lemma HandlePolls(s: State, out: Outcome)
    requires PollInv(s.server) && Handles(s.server, out)
    ensures PollInv(HandleStep(s, out).server)
  {
    var sv, r, t := s.server, s.server.main.req, HandleStep(s, out);
    SystemInvariant.HandleFacts(s, out);
    assert sv.poll.registered + [] == sv.poll.registered;
    if !r.Interrupt? {
      QueuedSnoc(sv.deeds, DeedOf(sv, out));
      if r.Poll? { PollLeaves(sv.poll, r, out); }
    }
  }

  lemma ReaderFrames(read: Read.State, a: Read.Action)
    requires Read.Reachable(read) && Read.Enabled(read, a) && !a.Push?
    ensures var t := Read.Apply(read, a);
            && t.arrivals == read.arrivals && read.answers <= t.answers
            && (t.answers == read.answers ==> ReadFrames(read, t) == [])
            && (t.answers != read.answers ==>
                  exists x :: t.answers == read.answers + [x] && x.req in Read.Waiting(read)
                              && ReadFrames(read, t) == [FrameOf(x)])
  {
    AnswersGrow(read, a);
    var t := Read.Apply(read, a);
    if t.answers != read.answers {
      var x: Spec.Answer :| x.req in Read.Waiting(read) && t.answers == read.answers + [x];
      assert t.answers[|read.answers|] == x;
    }
  }

  lemma ReaderSays(s: State, t: State, a: Read.Action)
    requires Flow(s) && Read.Reachable(s.server.read) && Read.Enabled(s.server.read, a) && !a.Push?
    requires SaidInv(s) && t.client.got == s.client.got && t.server.read == Read.Apply(s.server.read, a)
    requires t.s2c == s.s2c + ReadFrames(s.server.read, t.server.read)
    requires t.server.host == s.server.host && t.server.deeds == s.server.deeds
    ensures SaidInv(t)
  {
    var read, after := s.server.read, t.server.read;
    ReaderFrames(read, a);
    if after.answers != read.answers {
      var x :| after.answers == read.answers + [x] && x.req in Read.Waiting(read)
               && ReadFrames(read, after) == [FrameOf(x)];
      WaitingPositive(s, x.req);
      var f := FrameOf(x);
      assert after.answers[|read.answers|] == x && AnswerSays(x, f.body);
      assert SaidByReader(t.server, f);
    }
    SaidMore(s, t, ReadFrames(read, after));
  }

  lemma HandleSaid(s: State, out: Outcome)
    requires Flow(s) && Parts(s) && SaidInv(s) && Handles(s.server, out)
    ensures SaidInv(HandleStep(s, out))
  {
    var sv, r, t := s.server, s.server.main.req, HandleStep(s, out);
    SystemInvariant.HandleFacts(s, out);
    if r.Interrupt? {
      ReaderSays(s, t, Read.Intr(r.sequence));
    } else if Blocking(r) {
      assert s.s2c + [] == s.s2c;
      SaidMore(s, t, []);
    } else {
      DirectSaid(s, t, out);
    }
  }

  lemma DirectSaid(s: State, t: State, out: Outcome)
    requires Flow(s) && SaidInv(s) && Handles(s.server, out) && !s.server.main.req.Interrupt?
    requires DirectReply(s.server, s.server.main.req, out).Some?
    requires t.client == s.client && t.server.host == s.server.host && t.server.read == s.server.read
    requires t.server.deeds == s.server.deeds + [DeedOf(s.server, out)]
    requires t.s2c == s.s2c + [R.Frame(s.server.main.req.sequence, DirectReply(s.server, s.server.main.req, out).value)]
    ensures SaidInv(t)
  {
    var sv, r := s.server, s.server.main.req;
    var f := R.Frame(r.sequence, DirectReply(sv, r, out).value);
    DirectReplySays(sv, out);
    assert t.server.deeds[|sv.deeds|] == DeedOf(sv, out);
    assert SaidByMain(t.server, f);
    assert Known(s.client.table, s.client.host, r);
    SaidMore(s, t, [f]);
  }

  lemma HandleLine(s: State, out: Outcome)
    requires LineInv(s) && WasSent(s) && SentAsked(s.client) && Handles(s.server, out)
    ensures LineInv(HandleStep(s, out))
  {
    var sv, r, t := s.server, s.server.main.req, HandleStep(s, out);
    SystemInvariant.HandleFacts(s, out);
    if r.Interrupt? {
      DropLine(IsData, DeedSeqs(sv.deeds), s, t);
    } else {
      NoteLine(IsData, DeedSeqs(sv.deeds), s, t);
      assert DeedSeqs(t.server.deeds) == DeedSeqs(sv.deeds) + [r.sequence];
      BusyAsked(s, r);
    }
  }

  /** The server's steps other than dealing with a request. */
  lemma OtherServerLine(s: State, a: Action)
    requires LineInv(s) && ServerAction(a) && ServerEnabled(s, a) && !a.Handle?
    ensures LineInv(ServerApply(s, a))
  {
    var t, qs := ServerApply(s, a), DeedSeqs(s.server.deeds);
    if a.Take? {
      TakeLine(IsData, qs, s);
    } else if a.ReadWorker? || a.PollWorker? {
      SameLine(IsData, qs, s, t);
    } else {
      DropLine(IsData, qs, s, t);
    }
  }

  lemma WakeupsSaid(sv: Server, order: seq<nat>)
    ensures AllSaid(sv, R.WakeupFrames(order))
  {
  }

  lemma OtherServerSaid(s: State, a: Action)
    requires Flow(s) && Parts(s) && SaidInv(s) && ServerAction(a) && ServerEnabled(s, a) && !a.Handle?
    ensures SaidInv(ServerApply(s, a))
  {
    var t := ServerApply(s, a);
    assert s.s2c + [] == s.s2c;
    if a.ReadWorker? {
      ReaderSays(s, t, a.r);
    } else if a.PollWorker? && a.p.Signal? {
      WakeupsSaid(t.server, a.p.order);
      SaidMore(s, t, R.WakeupFrames(a.p.order));
    } else if a.Take? {
      assert Outbox(t) == Outbox(s);
      SaidMore(s, t, []);
    } else {
      SaidMore(s, t, []);
    }
  }

  lemma OtherServerLogs(s: State, a: Action)
    requires Parts(s) && QueueInv(s.server) && PollInv(s.server) && ServerAction(a) && ServerEnabled(s, a) && !a.Handle?
    ensures QueueInv(ServerApply(s, a).server) && PollInv(ServerApply(s, a).server)
  {
    var sv := s.server;
    if a.ReadWorker? {
      ReaderFrames(sv.read, a.r);
    } else if a.Register? {
      assert sv.poll.registered + [] == sv.poll.registered;
    }
  }

  lemma ServerDeeds(s: State, a: Action)
    requires SystemInvariant.Inv(s) && DeedInv(s) && ServerAction(a) && ServerEnabled(s, a)
    ensures DeedInv(ServerApply(s, a))
  {
    SystemInvariant.ServerKeepsClient(s, a);
    if a.Handle? {
      HandleLine(s, a.out);
      HandleSaid(s, a.out);
      HandleQueue(s, a.out);
      HandlePolls(s, a.out);
    } else {
      OtherServerLine(s, a);
      OtherServerSaid(s, a);
      OtherServerLogs(s, a);
    }
  }

  lemma SendDeeds(s: State, a: Action)
    requires LineInv(s) && L.AskedWell(s.client) && !ServerAction(a) && ClientEnabled(s, a) && (a.Submit? || a.IntrSend?)
    ensures LineInv(ClientApply(s, a))
  {
    var qs, t := DeedSeqs(s.server.deeds), ClientApply(s, a);
    if a.Submit? {
      SystemInvariant.AskedBefore(s, a.req);
      SendLine(IsData, qs, s, t, a.req);
    } else {
      SendLine(IsData, qs, s, t, P.Interrupt(s.client.looked[a.i]));
    }
    DeedsStay(s.client, t.client, s.server.deeds);
  }

  lemma ClientLine(s: State, a: Action)
    requires LineInv(s) && L.AskedWell(s.client) && !ServerAction(a) && ClientEnabled(s, a)
    ensures LineInv(ClientApply(s, a))
  {
    if a.Submit? || a.IntrSend? {
      SendDeeds(s, a);
    } else {
      SystemInvariant.OtherSendsNothing(s, a);
      SystemInvariant.AskedKept(s, a);
      SameLine(IsData, DeedSeqs(s.server.deeds), s, ClientApply(s, a));
    }
  }

  // ---- closing ----

  lemma ReceiveCloses(c: C.State, f: R.Frame)
    requires CloseInv(c) && c.rx.RxLoop?
    ensures CloseInv(C.Receive(c, f))
  {
    C.ReceiveOnly(c, f);
    var c' := C.Receive(c, f);
    if c.closed {
      var g :| g in c.got && g.body.Done?;
      assert g in c'.got;
    }
  }

  lemma TakeOutCloses(c: C.State)
    requires CloseInv(c) && c.rx.RxGot? && c.rx.frame.sequence in c.table
    ensures CloseInv(C.TakeOut(c))
  {
  }

  lemma AnswerCloses(c: C.State)
    requires CloseInv(c) && L.HandTraced(c) && c.rx.RxReply?
    requires C.Convert(c.host, c.rx.entry.kind, c.rx.body).Some?
    ensures CloseInv(C.HandleResponse(c))
  {
    C.AnswerOnly(c);
    if c.rx.body.Done? { DoneCloses(c); } else { OtherStays(c); }
  }

  /** Only a release is answered with plain success. */
  lemma DoneCloses(c: C.State)
    requires L.HandTraced(c) && c.rx.RxReply? && c.rx.body.Done?
    requires C.Convert(c.host, c.rx.entry.kind, c.rx.body).Some?
    ensures C.HandleResponse(c).closed && exists f :: f in c.got && f.body.Done?
  {
    var e, body := c.rx.entry, c.rx.body;
    var f :| f in c.got && f.body == body && L.EntryFor(c, f.sequence, e);
    assert f in c.got && f.body.Done?;
  }

  lemma OtherStays(c: C.State)
    requires c.rx.RxReply? && !c.rx.body.Done?
    ensures C.HandleResponse(c).closed == c.closed
  {
  }

  lemma ClosingKept(c: C.State, c': C.State)
    requires CloseInv(c) && c'.got == c.got && c'.closed == c.closed
    requires c'.rx == c.rx || (!c.rx.RxGot? && !c.rx.RxReply?)
    ensures CloseInv(c')
  {
  }

  lemma RxCloses(s: State, a: Action)
    requires Fits(s) && L.Traced(s.client) && CloseInv(s.client) && !ServerAction(a) && ClientEnabled(s, a)
    requires a.RxRecv? || a.RxRemove? || a.RxAnswer?
    ensures CloseInv(ClientApply(s, a).client)
  {
    if a.RxRecv? {
      ReceiveCloses(s.client, s.s2c[0]);
    } else if a.RxRemove? {
      TakeOutCloses(s.client);
    } else {
      AnswerCloses(s.client);
    }
  }

  lemma QuietCloses(s: State, a: Action)
    requires !ServerAction(a) && ClientEnabled(s, a) && !a.RxRecv? && !a.RxRemove? && !a.RxAnswer?
    ensures var c, c' := s.client, ClientApply(s, a).client;
            && c'.got == c.got && c'.closed == c.closed
            && (c'.rx == c.rx || (!c.rx.RxGot? && !c.rx.RxReply?))
  {
  }

  lemma ClientCloses(s: State, a: Action)
    requires Fits(s) && L.Traced(s.client) && CloseInv(s.client) && !ServerAction(a) && ClientEnabled(s, a)
    ensures CloseInv(ClientApply(s, a).client)
  {
    if a.RxRecv? || a.RxRemove? || a.RxAnswer? {
      RxCloses(s, a);
    } else {
      QuietCloses(s, a);
      ClosingKept(s.client, ClientApply(s, a).client);
    }
  }

  // ---- every run ----

  lemma StepKeepsDeeds(s: State, a: Action)
    requires SystemInvariant.Inv(s) && DeedInv(s) && Enabled(s, a)
    ensures DeedInv(Apply(s, a))
  {
    if ServerAction(a) {
      ServerDeeds(s, a);
    } else {
      ClientLine(s, a);
      SystemInvariant.OutboxKept(s, a);
      ClientKeepsServer(s, a);
      ClientCloses(s, a);
    }
  }

  lemma {:induction false} RunKeepsDeeds(s: State, acts: seq<Action>)
    requires SystemInvariant.Inv(s) && DeedInv(s) && IsRun(s, acts)
    ensures DeedInv(After(s, acts))
    decreases |acts|
  {
    if acts != [] {
      StepKeepsDeeds(s, acts[0]);
      SystemInvariant.StepKeepsInv(s, acts[0]);
      RunKeepsDeeds(Apply(s, acts[0]), acts[1..]);
    }
  }

  lemma InitDeeds(hc: Host, hs: Host, n: nat)
    ensures DeedInv(Init(hc, hs, n))
  {
  }

  lemma ReachableDeeds(s: State)
    requires Reachable(s)
    ensures DeedInv(s)
  {
    var hc, hs, n, acts :| n > 0 && IsRun(Init(hc, hs, n), acts) && After(Init(hc, hs, n), acts) == s;
    SystemInvariant.InitInv(hc, hs, n);
    InitDeeds(hc, hs, n);
    RunKeepsDeeds(Init(hc, hs, n), acts);
  }
}
