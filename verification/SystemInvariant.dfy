/**
 The invariant of a connection, kept by every step of every thread, whatever the device
 and the kernel do and wherever either side gives up.
 */
module SystemInvariant {
  import opened Base
  import opened Endian
  import P = Protocol
  import R = Responses
  import C = Client
  import L = ClientLedger
  import Spec = ReadSpec
  import Read = ReadScheduler
  import ReadProperties
  import Poll = PollServer
  import PollProperties
  import opened System
  import opened SystemFlow
  import opened SystemSteps
  import opened SystemOrder
  import opened SystemCarried
  import opened SystemWrites
  import opened SystemReplies

  /** Requests, responses and the client's table belong together. */
  ghost predicate Core(s: State) {
    && Flow(s) && Parts(s)
    && L.Ledger(s.client) && L.Traced(s.client) && L.Apart(s.client)
  }

  /** Histories on either side of the connection agree. */
  ghost predicate Logs(s: State) {
    && WireInv(s.client) && ArrivalInv(s) && WasSent(s)
    && DataInv(s) && NoticeInv(s)
    && SentAsked(s.client) && WriteInv(s)
    && AnsweredInOrder(s.client) && ServedInOrder(s) && HandedInOrder(s.client)
  }

  ghost predicate Inv(s: State) {
    Core(s) && Logs(s)
  }

  // ---- which part of the state an action touches ----

  lemma ServerKeepsClient(s: State, a: Action)
    requires ServerAction(a) && ServerEnabled(s, a)
    ensures ServerApply(s, a).client == s.client
  {
  }

  // ---- the client's bookkeeping ----

  lemma CallerLedger(s: State, a: Action)
    requires Numbers(s) && L.Ledger(s.client) && !ServerAction(a) && ClientEnabled(s, a)
    requires a.Submit? || a.SubmitFails? || a.Reject? || a.EioReply?
    ensures L.Ledger(ClientApply(s, a).client)
  {
    var c := s.client;
    if a.Submit? {
      SubmitNumbers(s, a.unique, a.req, a.app);
      L.SubmitLedger(c, a.unique, a.req, a.app);
    } else if a.SubmitFails? {
      L.FailLedger(c, a.unique, a.sequence);
    } else if a.Reject? {
      L.RejectLedger(c, a.unique);
    } else {
      L.EioLedger(c, a.i);
    }
  }

  lemma RxLedger(s: State, a: Action)
    requires RxExpected(s.client.table, s.client.host, s.client.rx) && L.Ledger(s.client) && !ServerAction(a) && ClientEnabled(s, a)
    requires a.RxRemove? || a.RxAnswer? || a.RxClose? || a.RxDrain?
    ensures L.Ledger(ClientApply(s, a).client)
  {
    var c := s.client;
    if a.RxRemove? {
      L.TakeOutLedger(c);
    } else if a.RxAnswer? {
      L.HandleResponseLedger(c);
    } else if a.RxClose? {
      L.ReplyLedger(c, c.rx.entry.unique, C.KError(0));
    } else {
      L.DrainLedger(c, a.order);
    }
  }

  predicate LeavesLedger(a: Action) {
    a.IntrLookup? || a.IntrSend? || a.IntrFails? || a.RxClosed? || a.RxBreak? || a.RxShutdown?
  }

  /** Neither hands in nor answers a request. */
  predicate SameBooks(c: C.State, c': C.State) {
    && c'.handed == c.handed && c'.replies == c.replies && c'.failing == c.failing && c'.table == c.table
    && L.Hand(c'.rx) == L.Hand(c.rx) && (c'.rx.RxDone? <==> c.rx.RxDone?)
    && (c.shut ==> c'.shut) && (c'.rx.RxShut? ==> c.rx.RxShut? || c'.shut)
  }

  lemma OtherLedgerFacts(s: State, a: Action)
    requires !ServerAction(a) && ClientEnabled(s, a) && LeavesLedger(a)
    ensures SameBooks(s.client, ClientApply(s, a).client)
  {
  }

  lemma ReceiveLedger(c: C.State, f: R.Frame)
    requires c.rx.RxLoop?
    ensures SameBooks(c, C.Receive(c, f))
  {
  }

  lemma SameLedger(c: C.State, c': C.State)
    requires L.Ledger(c) && SameBooks(c, c')
    ensures L.Ledger(c')
  {
  }

  lemma LedgerStep(s: State, a: Action)
    requires Flow(s) && L.Ledger(s.client) && Enabled(s, a)
    ensures L.Ledger(Apply(s, a).client)
  {
    if ServerAction(a) {
      ServerKeepsClient(s, a);
    } else if a.Submit? || a.SubmitFails? || a.Reject? || a.EioReply? {
      CallerLedger(s, a);
    } else if a.RxRemove? || a.RxAnswer? || a.RxClose? || a.RxDrain? {
      RxLedger(s, a);
    } else if a.RxRecv? {
      ReceiveLedger(s.client, s.s2c[0]);
      SameLedger(s.client, C.Receive(s.client, s.s2c[0]));
    } else {
      OtherLedgerFacts(s, a);
      SameLedger(s.client, Apply(s, a).client);
    }
  }

  lemma CallerTraced(s: State, a: Action)
    requires L.Traced(s.client) && L.Apart(s.client) && L.Ledger(s.client) && !ServerAction(a) && ClientEnabled(s, a)
    requires a.Submit? || a.Reject? || a.EioReply?
    ensures L.Traced(ClientApply(s, a).client)
  {
    var c := s.client;
    if a.Submit? {
      L.SubmitTraced(c, a.unique, a.req, a.app);
    } else if a.Reject? {
      L.LocalTraced(c, C.Reject(c, a.unique), C.Reply(a.unique, C.KError(C.EINVAL)));
    } else {
      L.EioApart(c, a.i);
      L.LocalTraced(c, C.EioReply(c, a.i), C.Reply(c.failing[a.i], C.KError(C.EIO)));
    }
  }

  lemma RxTraced(s: State, a: Action)
    requires RxExpected(s.client.table, s.client.host, s.client.rx) && L.Traced(s.client)
    requires !ServerAction(a) && ClientEnabled(s, a)
    requires a.RxRecv? || a.RxRemove? || a.RxAnswer? || a.RxClose? || a.RxDrain?
    ensures L.Traced(ClientApply(s, a).client)
  {
    var c := s.client;
    if a.RxRecv? {
      L.ReceiveTraced(c, s.s2c[0]);
    } else if a.RxRemove? {
      L.TakeOutTraced(c);
    } else if a.RxAnswer? {
      L.HandleResponseTraced(c);
    } else if a.RxClose? {
      L.CloseTraced(c);
    } else {
      L.DrainTraced(c, a.order);
    }
  }

  lemma QuietTracedStep(s: State, a: Action)
    requires L.Traced(s.client) && !ServerAction(a) && ClientEnabled(s, a)
    requires a.SubmitFails? || a.IntrLookup? || a.IntrSend? || a.IntrFails? || a.RxClosed? || a.RxBreak? || a.RxShutdown?
    ensures L.Traced(ClientApply(s, a).client)
  {
    L.QuietTraced(s.client, ClientApply(s, a).client);
  }

  lemma TracedStep(s: State, a: Action)
    requires Flow(s) && L.Traced(s.client) && L.Apart(s.client) && L.Ledger(s.client) && Enabled(s, a)
    ensures L.Traced(Apply(s, a).client)
  {
    if ServerAction(a) {
      ServerKeepsClient(s, a);
    } else if a.Submit? || a.Reject? || a.EioReply? {
      CallerTraced(s, a);
    } else if a.RxRecv? || a.RxRemove? || a.RxAnswer? || a.RxClose? || a.RxDrain? {
      RxTraced(s, a);
    } else {
      QuietTracedStep(s, a);
    }
  }

  lemma ApartStep(s: State, a: Action)
    requires L.Apart(s.client) && Enabled(s, a)
    ensures L.Apart(Apply(s, a).client)
  {
    var c := s.client;
    if ServerAction(a) {
      ServerKeepsClient(s, a);
    } else if a.Submit? {
      L.SubmitApart(c, a.unique, a.req, a.app);
    } else if a.SubmitFails? {
      L.FailApart(c, a.unique, a.sequence);
    } else if a.Reject? {
      L.RejectApart(c, a.unique);
    } else if a.EioReply? {
      L.EioApart(c, a.i);
    } else {
      RestFacts(s, a);
      L.SameApart(c, Apply(s, a).client);
    }
  }

  /** Steps that neither take a request from the kernel nor answer a failed one. */
  lemma RestFacts(s: State, a: Action)
    requires !ServerAction(a) && ClientEnabled(s, a)
    requires !a.Submit? && !a.SubmitFails? && !a.Reject? && !a.EioReply?
    ensures var c, c' := s.client, ClientApply(s, a).client;
            && c'.handed == c.handed && c'.asked == c.asked && c'.failing == c.failing
            && c'.failed == c.failed && c'.rejected == c.rejected
  {
    if a.RxAnswer? { C.AnswerOnly(s.client); }
  }

  // ---- order ----

  lemma RemovedLooked(c: C.State, i: nat)
    requires i < |c.looked|
    ensures forall k :: 0 <= k < |c.looked| - 1 ==> Remove(c.looked, i)[k] in c.looked
  {
  }

  lemma LookWire(s: State, a: Action)
    requires WireInv(s.client) && !ServerAction(a) && ClientEnabled(s, a) && (a.IntrLookup? || a.IntrFails?)
    ensures WireInv(ClientApply(s, a).client)
  {
    if a.IntrFails? { RemovedLooked(s.client, a.i); }
    SilentWire(s.client, ClientApply(s, a).client);
  }

  /** Steps that send nothing and look nothing up. */
  lemma SilentFacts(s: State, a: Action)
    requires !ServerAction(a) && ClientEnabled(s, a) && QuietAction(a) && !a.IntrLookup? && !a.IntrFails?
    ensures var c, c' := s.client, ClientApply(s, a).client;
            && c'.sent == c.sent && c'.nextSeq >= c.nextSeq && c'.looked == c.looked && c'.table == c.table && c'.asked == c.asked
  {
  }

  lemma WireStep(s: State, a: Action)
    requires WireInv(s.client) && Enabled(s, a)
    ensures WireInv(Apply(s, a).client)
  {
    if ServerAction(a) {
      ServerKeepsClient(s, a);
    } else if a.Submit? {
      SubmitWire(s.client, a.unique, a.req, a.app);
    } else if a.IntrSend? {
      IntrSendWire(s, a.i);
    } else if a.IntrLookup? || a.IntrFails? {
      LookWire(s, a);
    } else if a.RxRemove? || a.RxRecv? || a.RxAnswer? {
      RxWire(s, a);
    } else {
      QuietWire(s, a);
    }
  }

  lemma QuietWire(s: State, a: Action)
    requires WireInv(s.client) && !ServerAction(a) && ClientEnabled(s, a)
    requires QuietAction(a) && !a.IntrLookup? && !a.IntrFails?
    ensures WireInv(ClientApply(s, a).client)
  {
    SilentFacts(s, a);
    SilentWire(s.client, ClientApply(s, a).client);
  }

  lemma RxWire(s: State, a: Action)
    requires WireInv(s.client) && !ServerAction(a) && ClientEnabled(s, a)
    requires a.RxRemove? || a.RxRecv? || a.RxAnswer?
    ensures WireInv(ClientApply(s, a).client)
  {
    if a.RxRemove? {
      SilentWire(s.client, C.TakeOut(s.client));
    } else if a.RxRecv? {
      C.ReceiveOnly(s.client, s.s2c[0]);
      SilentWire(s.client, C.Receive(s.client, s.s2c[0]));
    } else {
      C.AnswerOnly(s.client);
      SilentWire(s.client, C.HandleResponse(s.client));
    }
  }

  /** What the main thread does with its request, whichever it is. */
  lemma HandleFacts(s: State, out: Outcome)
    requires Handles(s.server, out)
    ensures var sv, r, t := s.server, s.server.main.req, HandleStep(s, out);
            && ServerOnly(s, t) && !t.server.main.Busy? && t.server.host == sv.host
            && t.server.poll == (if r.Poll? then Poll.Apply(sv.poll, PollAction(r, out)) else sv.poll)
            && t.server.poll.woken == sv.poll.woken
            && t.server.deeds == sv.deeds + (if r.Interrupt? then [] else [DeedOf(sv, out)])
            && t.server.written == sv.written
               + (if r.Write? && out.Counts? then [Written(r.sequence, r.offset, r.data[..out.n])] else [])
            && (r.Interrupt? ==>
                  && t.server.read == Read.Apply(sv.read, Read.Intr(r.sequence))
                  && t.s2c == s.s2c + ReadFrames(sv.read, t.server.read))
            && (Blocking(r) ==>
                  && t.server.read == Read.Apply(sv.read, Read.Push(Spec.Req(r.sequence, r.size)))
                  && t.s2c == s.s2c)
            && (!r.Interrupt? && !Blocking(r) ==>
                  && t.server.read == sv.read && DirectReply(sv, r, out).Some?
                  && t.s2c == s.s2c + [R.Frame(r.sequence, DirectReply(sv, r, out).value)])
  {
    assert s.s2c + [] == s.s2c && s.server.written + [] == s.server.written;
    assert s.server.deeds + [] == s.server.deeds;
  }

  lemma DirectReplyPlain(sv: Server, r: P.Request, out: Outcome)
    requires CanReturn(sv, r, out) && DirectReply(sv, r, out).Some?
    ensures R.Notifications(DirectReply(sv, r, out).value) == []
    ensures !r.Read? ==> !DirectReply(sv, r, out).value.Bytes?
    ensures DirectReply(sv, r, out).value.Wrote? <==> r.Write? && out.Counts?
    ensures r.Write? && out.Counts? ==> DirectReply(sv, r, out).value == R.Wrote(out.n)
  {
  }

  lemma HandleArrival(s: State, out: Outcome)
    requires Parts(s) && ArrivalInv(s) && Handles(s.server, out)
    ensures ArrivalInv(HandleStep(s, out))
  {
    var r, t := s.server.main.req, HandleStep(s, out);
    HandleFacts(s, out);
    if Blocking(r) {
      NoteLine(Blocking, Arrived(s), s, t);
      assert Arrived(t) == Arrived(s) + [r.sequence];
    } else {
      if r.Interrupt? { AnswersGrow(s.server.read, Read.Intr(r.sequence)); }
      DropLine(Blocking, Arrived(s), s, t);
    }
  }

  lemma SendArrivalStep(s: State, a: Action)
    requires ArrivalInv(s) && !ServerAction(a) && ClientEnabled(s, a) && (a.Submit? || a.IntrSend?)
    ensures ArrivalInv(ClientApply(s, a))
  {
    SendLine(Blocking, Arrived(s), s, ClientApply(s, a), if a.Submit? then a.req else P.Interrupt(s.client.looked[a.i]));
  }

  lemma ServerArrivalStep(s: State, a: Action)
    requires Parts(s) && ArrivalInv(s) && ServerAction(a) && ServerEnabled(s, a)
    ensures ArrivalInv(ServerApply(s, a))
  {
    var t := ServerApply(s, a);
    if a.Take? {
      TakeLine(Blocking, Arrived(s), s);
    } else if a.Handle? {
      HandleArrival(s, a.out);
    } else if a.ServerEnds? || a.Register? {
      DropLine(Blocking, Arrived(s), s, t);
    } else if a.SyncWrite? {
      AnswersGrow(s.server.read, Read.SyncWrite);
      DropLine(Blocking, Arrived(s), s, t);
    } else {
      if a.ReadWorker? { AnswersGrow(s.server.read, a.r); }
      SameLine(Blocking, Arrived(s), s, t);
    }
  }

  lemma OtherSendsNothing(s: State, a: Action)
    requires !ServerAction(a) && ClientEnabled(s, a) && !a.Submit? && !a.IntrSend?
    ensures ClientApply(s, a).c2s == s.c2s && ClientApply(s, a).server == s.server
    ensures ClientApply(s, a).client.nextSeq >= s.client.nextSeq && ClientApply(s, a).client.sent == s.client.sent
  {
    if a.RxAnswer? { C.AnswerOnly(s.client); }
  }

  lemma ArrivalStep(s: State, a: Action)
    requires Parts(s) && ArrivalInv(s) && Enabled(s, a)
    ensures ArrivalInv(Apply(s, a))
  {
    if a.Submit? || a.IntrSend? {
      SendArrivalStep(s, a);
    } else if ServerAction(a) {
      ServerArrivalStep(s, a);
    } else {
      OtherSendsNothing(s, a);
      SameLine(Blocking, Arrived(s), s, Apply(s, a));
    }
  }

  lemma WasSentStep(s: State, a: Action)
    requires WasSent(s) && Enabled(s, a)
    ensures WasSent(Apply(s, a))
  {
    if ServerAction(a) {
      ServerWasSent(s, a);
    } else if a.Submit? {
      SendWas(s, SubmitStep(s, a.unique, a.req, a.app), a.req);
    } else if a.IntrSend? {
      SendWas(s, IntrSendStep(s, a.i), P.Interrupt(s.client.looked[a.i]));
    } else {
      OtherSendsNothing(s, a);
    }
  }

  lemma ServerWasSent(s: State, a: Action)
    requires WasSent(s) && ServerAction(a) && ServerEnabled(s, a)
    ensures WasSent(ServerApply(s, a))
  {
    if a.Take? {
      TakeWas(s);
    } else if a.Handle? {
      HandleFacts(s, a.out);
    }
  }

  // ---- data and wake-ups ----

  lemma HandleData(s: State, out: Outcome)
    requires Flow(s) && Parts(s) && WasSent(s) && DataInv(s) && Handles(s.server, out)
    ensures DataInv(HandleStep(s, out))
  {
    var r, t := s.server.main.req, HandleStep(s, out);
    HandleFacts(s, out);
    if r.Interrupt? {
      SchedulerData(s, t, Read.Intr(r.sequence));
    } else if Blocking(r) {
      DispatchPushes(s, out);
      QuietData(s, t);
    } else {
      DirectReplyPlain(s.server, r, out);
      SystemCarried.SendData(s, t, R.Frame(r.sequence, DirectReply(s.server, r, out).value));
    }
  }

  lemma RxDataStep(s: State, a: Action)
    requires Flow(s) && DataInv(s) && !ServerAction(a) && ClientEnabled(s, a)
    requires a.RxRecv? || a.RxRemove? || a.RxAnswer? || a.RxClose? || a.RxDrain?
    ensures DataInv(ClientApply(s, a))
  {
    var c, t := s.client, ClientApply(s, a);
    if a.RxRecv? {
      RecvData(s);
    } else if a.RxRemove? {
      RemoveData(s);
    } else if a.RxAnswer? {
      AnswerData(s);
    } else if a.RxClose? {
      ErrorsData(s, t, [C.Reply(c.rx.entry.unique, C.KError(0))]);
    } else {
      ErrorsData(s, t, C.Drained(c.table, a.order));
    }
  }

  lemma ServerDataStep(s: State, a: Action)
    requires Flow(s) && Parts(s) && WasSent(s) && DataInv(s) && ServerAction(a) && ServerEnabled(s, a)
    requires a.Handle? || a.ReadWorker? || (a.PollWorker? && a.p.Signal?)
    ensures DataInv(ServerApply(s, a))
  {
    if a.Handle? {
      HandleData(s, a.out);
    } else if a.ReadWorker? {
      SchedulerData(s, ServerApply(s, a), a.r);
    } else {
      SignalData(s, ServerApply(s, a), a.p.order);
    }
  }

  lemma OtherDataStep(s: State, a: Action)
    requires DataInv(s) && Enabled(s, a)
    requires !(a.RxRecv? || a.RxRemove? || a.RxAnswer? || a.RxClose? || a.RxDrain?)
    requires !(a.Handle? || a.ReadWorker? || (a.PollWorker? && a.p.Signal?))
    ensures DataInv(Apply(s, a))
  {
    var t := Apply(s, a);
    if a.Reject? {
      ErrorsData(s, t, [C.Reply(a.unique, C.KError(C.EINVAL))]);
    } else if a.EioReply? {
      ErrorsData(s, t, [C.Reply(s.client.failing[a.i], C.KError(C.EIO))]);
    } else {
      QuietDataFacts(s, a);
      QuietData(s, t);
    }
  }

  lemma QuietDataFacts(s: State, a: Action)
    requires Enabled(s, a) && !a.Reject? && !a.EioReply?
    requires !(a.RxRecv? || a.RxRemove? || a.RxAnswer? || a.RxClose? || a.RxDrain?)
    requires !(a.Handle? || a.ReadWorker? || (a.PollWorker? && a.p.Signal?))
    ensures var t := Apply(s, a);
            && t.server.read.answers == s.server.read.answers && t.s2c == s.s2c
            && s.client.sent <= t.client.sent && t.client.replies == s.client.replies
            && RxData(t.client.rx) == RxData(s.client.rx)
  {
  }

  lemma DataStep(s: State, a: Action)
    requires Flow(s) && Parts(s) && WasSent(s) && DataInv(s) && Enabled(s, a)
    ensures DataInv(Apply(s, a))
  {
    if a.RxRecv? || a.RxRemove? || a.RxAnswer? || a.RxClose? || a.RxDrain? {
      RxDataStep(s, a);
    } else if a.Handle? || a.ReadWorker? || (a.PollWorker? && a.p.Signal?) {
      ServerDataStep(s, a);
    } else {
      OtherDataStep(s, a);
    }
  }

  lemma SignalData(s: State, t: State, order: seq<nat>)
    requires DataInv(s) && t.client == s.client && t.server.read == s.server.read
    requires t.s2c == s.s2c + R.WakeupFrames(order)
    ensures DataInv(t)
  {
    if order == [] {
      assert s.s2c + [] == s.s2c;
    } else {
      var f := R.WakeupFrames(order)[0];
      var b := Spec.DataBytes(s.server.read.answers);
      assert b + [] == b;
      SystemCarried.SendData(s, t, f);
    }
  }

  lemma HandleNotices(s: State, out: Outcome)
    requires NoticeInv(s) && Handles(s.server, out)
    ensures NoticeInv(HandleStep(s, out))
  {
    var r, t := s.server.main.req, HandleStep(s, out);
    HandleFacts(s, out);
    if r.Interrupt? {
      InterruptNotices(s, out);
    } else if Blocking(r) {
      DispatchPushes(s, out);
      QuietNotices(s, t);
    } else {
      DirectReplyPlain(s.server, r, out);
      OtherNotices(s, t, R.Frame(r.sequence, DirectReply(s.server, r, out).value));
    }
  }

  lemma InterruptNotices(s: State, out: Outcome)
    requires NoticeInv(s) && Handles(s.server, out) && s.server.main.req.Interrupt?
    ensures NoticeInv(HandleStep(s, out))
  {
    SchedulerNotices(s, HandleStep(s, out));
  }

  lemma NoticeStep(s: State, a: Action)
    requires Flow(s) && NoticeInv(s) && Enabled(s, a)
    ensures NoticeInv(Apply(s, a))
  {
    if ServerAction(a) {
      ServerNotices(s, a);
    } else if a.RxRecv? {
      RecvNotices(s);
    } else {
      NotifiedKept(s, a);
      QuietNotices(s, ClientApply(s, a));
    }
  }

  lemma NotifiedKept(s: State, a: Action)
    requires !ServerAction(a) && ClientEnabled(s, a) && !a.RxRecv?
    ensures var t := ClientApply(s, a);
            t.client.notified == s.client.notified && t.s2c == s.s2c && t.server == s.server
  {
    if a.RxAnswer? { C.AnswerOnly(s.client); }
  }

  lemma ServerNotices(s: State, a: Action)
    requires NoticeInv(s) && ServerAction(a) && ServerEnabled(s, a)
    ensures NoticeInv(ServerApply(s, a))
  {
    var t := ServerApply(s, a);
    if a.Handle? {
      HandleNotices(s, a.out);
    } else if a.ReadWorker? {
      SchedulerNotices(s, t);
    } else if a.PollWorker? && a.p.Signal? {
      SignalNotices(s, t, a.p.order);
    } else {
      assert s.s2c + [] == s.s2c;
      QuietNotices(s, t);
    }
  }

  // ---- what the client asked ----

  lemma AskedBefore(s: State, r: P.Request)
    requires L.AskedWell(s.client) && s.client.nextSeq <= r.sequence
    ensures r.sequence !in s.client.asked
  {
  }

  lemma AskedKept(s: State, a: Action)
    requires !ServerAction(a) && ClientEnabled(s, a) && !a.Submit?
    ensures ClientApply(s, a).client.asked == s.client.asked
  {
    if a.RxAnswer? { C.AnswerOnly(s.client); }
  }

  lemma OutboxKept(s: State, a: Action)
    requires !ServerAction(a) && ClientEnabled(s, a)
    ensures Outbox(ClientApply(s, a)) == Outbox(s)
  {
    if a.RxRecv? {
      OutboxReceived(s);
    } else if a.RxAnswer? {
      C.AnswerOnly(s.client);
    }
  }

  lemma AskedStep(s: State, a: Action)
    requires SentAsked(s.client) && L.AskedWell(s.client) && Enabled(s, a)
    ensures SentAsked(Apply(s, a).client)
  {
    if ServerAction(a) {
      ServerKeepsClient(s, a);
    } else if a.Submit? {
      AskedBefore(s, a.req);
      SubmitAsked(s.client, a.unique, a.req, a.app);
    } else {
      AskedKept(s, a);
      if !a.IntrSend? { OtherSendsNothing(s, a); }
    }
  }

  // ---- writes ----

  lemma HandleWrites(s: State, out: Outcome)
    requires WriteInv(s) && WasSent(s) && SentAsked(s.client) && Handles(s.server, out)
    ensures WriteInv(HandleStep(s, out))
  {
    var r, t := s.server.main.req, HandleStep(s, out);
    HandleFacts(s, out);
    if r.Interrupt? {
      ServerWrites(s, t, ReadFrames(s.server.read, t.server.read));
    } else if Blocking(r) {
      assert s.s2c + [] == s.s2c;
      ServerWrites(s, t, []);
    } else {
      DirectReplyPlain(s.server, r, out);
      if r.Write? && out.Counts? {
        NoteWrites(s, t, r, out.n);
      } else {
        ServerWrites(s, t, [R.Frame(r.sequence, DirectReply(s.server, r, out).value)]);
      }
    }
  }

  lemma ServerWriteStep(s: State, a: Action)
    requires WriteInv(s) && WasSent(s) && SentAsked(s.client) && ServerAction(a) && ServerEnabled(s, a)
    ensures WriteInv(ServerApply(s, a))
  {
    var t := ServerApply(s, a);
    assert s.s2c + [] == s.s2c;
    if a.Take? {
      TakeWrites(s);
    } else if a.Handle? {
      HandleWrites(s, a.out);
    } else if a.ReadWorker? {
      ServerWrites(s, t, ReadFrames(s.server.read, t.server.read));
    } else if a.PollWorker? && a.p.Signal? {
      ServerWrites(s, t, R.WakeupFrames(a.p.order));
    } else {
      ServerWrites(s, t, []);
    }
  }

  lemma SendWriteStep(s: State, a: Action)
    requires WriteInv(s) && L.AskedWell(s.client)
    requires !ServerAction(a) && ClientEnabled(s, a) && (a.Submit? || a.IntrSend?)
    ensures WriteInv(ClientApply(s, a))
  {
    if a.Submit? {
      AskedBefore(s, a.req);
      SendWrites(s, SubmitStep(s, a.unique, a.req, a.app), a.req);
    } else {
      SendWrites(s, IntrSendStep(s, a.i), P.Interrupt(s.client.looked[a.i]));
    }
  }

  lemma WriteStep(s: State, a: Action)
    requires WriteInv(s) && WasSent(s) && SentAsked(s.client) && L.AskedWell(s.client) && Enabled(s, a)
    ensures WriteInv(Apply(s, a))
  {
    if ServerAction(a) {
      ServerWriteStep(s, a);
    } else if a.Submit? || a.IntrSend? {
      SendWriteStep(s, a);
    } else {
      OtherSendsNothing(s, a);
      AskedKept(s, a);
      OutboxKept(s, a);
      ClientWrites(s, ClientApply(s, a));
    }
  }

  // ---- the order of replies ----

  /** What the receiving thread holds was asked. */
  lemma HandAsked(s: State)
    requires Fits(s) && L.AskedWell(s.client)
    ensures s.client.rx.RxGot? ==> s.client.rx.frame.sequence in s.client.asked
  {
    var c := s.client;
    if c.rx.RxGot? { assert L.EntryFor(c, c.rx.frame.sequence, c.table[c.rx.frame.sequence]); }
  }

  lemma FrameAsked(s: State)
    requires Fits(s) && L.AskedWell(s.client) && s.s2c != []
    ensures s.s2c[0].sequence != 0 ==> s.s2c[0].sequence in s.client.asked
  {
    var c, f := s.client, s.s2c[0];
    assert Expected(c.table, c.host, f);
    if f.sequence != 0 { assert L.EntryFor(c, f.sequence, c.table[f.sequence]); }
  }

  lemma ReplyOrderStep(s: State, a: Action)
    requires Fits(s) && L.Traced(s.client) && AnsweredInOrder(s.client) && !ServerAction(a) && ClientEnabled(s, a)
    requires a.Submit? || a.RxRecv? || a.RxRemove? || a.RxAnswer? || a.RxClose? || a.RxDrain?
    ensures AnsweredInOrder(ClientApply(s, a).client)
  {
    var c := s.client;
    if a.Submit? {
      AskedBefore(s, a.req);
      HandAsked(s);
      SubmitAnswered(c, a.unique, a.req, a.app);
    } else if a.RxRecv? {
      FrameAsked(s);
      ReceiveAnswered(c, s.s2c[0]);
    } else if a.RxRemove? {
      TakeOutAnswered(c);
    } else if a.RxAnswer? {
      HandleResponseAnswered(c);
    } else if a.RxClose? {
      ReplyAnswered(c, c.rx.entry.unique, C.KError(0));
    } else {
      ErrorsAnswered(c, C.Drain(c, a.order), C.Drained(c.table, a.order));
    }
  }

  lemma QuietOrderFacts(s: State, a: Action)
    requires !ServerAction(a) && ClientEnabled(s, a)
    requires !(a.Submit? || a.RxRecv? || a.RxRemove? || a.RxAnswer? || a.RxClose? || a.RxDrain?)
    requires !a.Reject? && !a.EioReply?
    ensures var c, c' := s.client, ClientApply(s, a).client;
            && c'.got == c.got && c'.asked == c.asked && c'.replies == c.replies
            && HeldFor(c'.asked, c'.rx) == HeldFor(c.asked, c.rx)
  {
  }

  lemma AnsweredStep(s: State, a: Action)
    requires Fits(s) && L.Traced(s.client) && AnsweredInOrder(s.client) && Enabled(s, a)
    ensures AnsweredInOrder(Apply(s, a).client)
  {
    var c := s.client;
    if ServerAction(a) {
      ServerKeepsClient(s, a);
    } else if a.Submit? || a.RxRecv? || a.RxRemove? || a.RxAnswer? || a.RxClose? || a.RxDrain? {
      ReplyOrderStep(s, a);
    } else if a.Reject? {
      ErrorsAnswered(c, C.Reject(c, a.unique), [C.Reply(a.unique, C.KError(C.EINVAL))]);
    } else if a.EioReply? {
      ErrorsAnswered(c, C.EioReply(c, a.i), [C.Reply(c.failing[a.i], C.KError(C.EIO))]);
    } else {
      QuietOrderFacts(s, a);
      assert c.replies + [] == c.replies;
      ErrorsAnswered(c, ClientApply(s, a).client, []);
    }
  }

  lemma HandleServed(s: State, out: Outcome)
    requires Flow(s) && Parts(s) && WasSent(s) && ServedInOrder(s) && Handles(s.server, out)
    ensures ServedInOrder(HandleStep(s, out))
  {
    var r, t := s.server.main.req, HandleStep(s, out);
    HandleFacts(s, out);
    if r.Interrupt? {
      SchedulerServed(s, t, Read.Intr(r.sequence));
    } else if Blocking(r) {
      SameServed(s, t);
    } else {
      DirectReplyPlain(s.server, r, out);
      DirectServed(s, t, R.Frame(r.sequence, DirectReply(s.server, r, out).value));
    }
  }

  lemma DirectServed(s: State, t: State, f: R.Frame)
    requires WasSent(s) && ServedInOrder(s) && t.client == s.client && t.s2c == s.s2c + [f]
    requires t.server.read == s.server.read && s.server.main.Busy?
    requires !Blocking(s.server.main.req) && (!s.server.main.req.Read? ==> !f.body.Bytes?)
    ensures ServedInOrder(t)
  {
    var qs := ReadProperties.Sequences(Spec.Served(s.server.read.answers));
    assert qs + [] == qs;
    SendServed(s, t, f);
  }

  lemma SignalServed(s: State, t: State, order: seq<nat>)
    requires ServedInOrder(s) && t.client == s.client && t.server.read == s.server.read
    requires t.s2c == s.s2c + R.WakeupFrames(order)
    ensures ServedInOrder(t)
  {
    if order == [] {
      assert s.s2c + [] == s.s2c;
    } else {
      var qs := ReadProperties.Sequences(Spec.Served(s.server.read.answers));
      assert qs + [] == qs;
      SendServed(s, t, R.WakeupFrames(order)[0]);
    }
  }

  lemma ServerServedStep(s: State, a: Action)
    requires Flow(s) && Parts(s) && WasSent(s) && ServedInOrder(s) && ServerAction(a) && ServerEnabled(s, a)
    ensures ServedInOrder(ServerApply(s, a))
  {
    if a.Handle? {
      HandleServed(s, a.out);
    } else if a.ReadWorker? {
      SchedulerServed(s, ServerApply(s, a), a.r);
    } else if a.PollWorker? && a.p.Signal? {
      SignalServed(s, ServerApply(s, a), a.p.order);
    } else {
      assert s.s2c + [] == s.s2c;
      SameServed(s, ServerApply(s, a));
    }
  }

  lemma SentGrows(s: State, a: Action)
    requires !ServerAction(a) && ClientEnabled(s, a)
    ensures s.client.sent <= ClientApply(s, a).client.sent
  {
    if !a.Submit? && !a.IntrSend? { OtherSendsNothing(s, a); }
  }

  lemma ServedStep(s: State, a: Action)
    requires Flow(s) && Parts(s) && WasSent(s) && ServedInOrder(s) && Enabled(s, a)
    ensures ServedInOrder(Apply(s, a))
  {
    if ServerAction(a) {
      ServerServedStep(s, a);
    } else {
      OutboxKept(s, a);
      SentGrows(s, a);
      ClientKeepsServer(s, a);
      SameServed(s, ClientApply(s, a));
    }
  }

  lemma HandedStep(s: State, a: Action)
    requires HandedInOrder(s.client) && L.AskedWell(s.client) && Enabled(s, a)
    ensures HandedInOrder(Apply(s, a).client)
  {
    var c := s.client;
    if ServerAction(a) {
      ServerKeepsClient(s, a);
    } else if a.Submit? {
      AskedBefore(s, a.req);
      SubmitHanded(c, a.unique, a.req, a.app);
    } else if a.IntrSend? {
      DataSeqsSnoc(c.sent, P.Interrupt(c.looked[a.i]));
      assert DataSeqs(c.sent) + [] == DataSeqs(c.sent);
      MoreHanded(c, IntrSendStep(s, a.i).client);
    } else {
      AskedKept(s, a);
      OtherSendsNothing(s, a);
      HandedGrows(s, a);
      MoreHanded(c, ClientApply(s, a).client);
    }
  }

  lemma HandedGrows(s: State, a: Action)
    requires !ServerAction(a) && ClientEnabled(s, a)
    ensures var c, c' := s.client, ClientApply(s, a).client;
            c'.handed == c.handed || exists u :: c'.handed == c.handed + [u]
  {
    if a.RxAnswer? { C.AnswerOnly(s.client); }
  }

  // ---- every run ----

  lemma StepKeepsCore(s: State, a: Action)
    requires Core(s) && Enabled(s, a)
    ensures Core(Apply(s, a))
  {
    StepKeepsFlow(s, a);
    StepKeepsParts(s, a);
    LedgerStep(s, a);
    TracedStep(s, a);
    ApartStep(s, a);
  }

  lemma StepKeepsLogs(s: State, a: Action)
    requires Core(s) && Logs(s) && Enabled(s, a)
    ensures Logs(Apply(s, a))
  {
    WireStep(s, a);
    ArrivalStep(s, a);
    WasSentStep(s, a);
    DataStep(s, a);
    NoticeStep(s, a);
    AskedStep(s, a);
    WriteStep(s, a);
    AnsweredStep(s, a);
    ServedStep(s, a);
    HandedStep(s, a);
  }

  lemma StepKeepsInv(s: State, a: Action)
    requires Inv(s) && Enabled(s, a)
    ensures Inv(Apply(s, a))
  {
    StepKeepsCore(s, a);
    StepKeepsLogs(s, a);
  }

  lemma InitFlow(hc: Host, hs: Host, n: nat)
    requires n > 0
    ensures Flow(Init(hc, hs, n)) && Parts(Init(hc, hs, n))
  {
    var s := Init(hc, hs, n);
    assert Read.Waiting(s.server.read) == [];
    assert InFlight(s) == multiset{};
    ReadProperties.InitReachable();
    PollProperties.InitReachable();
  }

  lemma InitLogs(hc: Host, hs: Host, n: nat)
    ensures var s := Init(hc, hs, n);
            && WireInv(s.client) && ArrivalInv(s) && WasSent(s) && DataInv(s) && NoticeInv(s)
  {
  }

  lemma InitOrders(hc: Host, hs: Host, n: nat)
    ensures var s := Init(hc, hs, n);
            && SentAsked(s.client) && WriteInv(s)
            && AnsweredInOrder(s.client) && ServedInOrder(s) && HandedInOrder(s.client)
  {
  }

  lemma InitBooks(hc: Host, hs: Host, n: nat)
    ensures var c := Init(hc, hs, n).client; L.Ledger(c) && L.Traced(c) && L.Apart(c)
  {
  }

  lemma InitInv(hc: Host, hs: Host, n: nat)
    requires n > 0
    ensures Inv(Init(hc, hs, n))
  {
    InitBooks(hc, hs, n);
    InitFlow(hc, hs, n);
    InitLogs(hc, hs, n);
    InitOrders(hc, hs, n);
  }

  lemma {:induction false} RunKeepsInv(s: State, acts: seq<Action>)
    requires Inv(s) && IsRun(s, acts)
    ensures Inv(After(s, acts))
    decreases |acts|
  {
    if acts != [] {
      StepKeepsInv(s, acts[0]);
      RunKeepsInv(Apply(s, acts[0]), acts[1..]);
    }
  }

  lemma ReachableInv(s: State)
    requires Reachable(s)
    ensures Inv(s)
  {
    var hc, hs, n, acts :| n > 0 && IsRun(Init(hc, hs, n), acts) && After(Init(hc, hs, n), acts) == s;
    InitInv(hc, hs, n);
    RunKeepsInv(Init(hc, hs, n), acts);
  }
}
