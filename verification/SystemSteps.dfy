/** Every step of a connection keeps the flow of sequence numbers. */
module SystemSteps {
  import opened Base
  import opened Endian
  import opened IoctlNumber
  import opened IoctlArg
  import IoctlProperties
  import P = Protocol
  import R = Responses
  import C = Client
  import Spec = ReadSpec
  import Read = ReadScheduler
  import ReadProperties
  import Poll = PollServer
  import PollProperties
  import opened System
  import opened SystemFlow

  // ---- the client's steps ----

  lemma SubmitNumbers(s: State, u: nat, r: P.Request, app: C.App)
    requires Numbers(s) && C.KindOf(r).Some? && s.client.nextSeq <= r.sequence
    ensures Numbers(SubmitStep(s, u, r, app))
    ensures r.sequence !in s.client.table
  {
    SubmitInFlight(s, SubmitStep(s, u, r, app), r);
  }

  lemma SubmitInFlight(s: State, t: State, r: P.Request)
    requires Numbers(s) && C.KindOf(r).Some? && r.sequence !in s.client.table
    requires t.client.table.Keys == s.client.table.Keys + {r.sequence} && t.client.rx == s.client.rx
    requires t.c2s == s.c2s + [r] && t.s2c == s.s2c && t.server == s.server
    ensures InFlight(t) <= multiset(t.client.table.Keys)
  {
    var q, qs := r.sequence, DataSeqs(s.c2s);
    DataSeqsSnoc(s.c2s, r);
    BagSnoc(qs, q);
    BagEnters(multiset(qs), multiset(BusySeqs(s.server.main)), multiset(WaitSeqs(s.server.read)),
              multiset(FrameSeqs(s.s2c)), multiset(RxSeqs(s.client.rx)), s.client.table.Keys, q);
  }

  lemma SubmitFits(s: State, u: nat, r: P.Request, app: C.App)
    requires Fits(s) && C.KindOf(r).Some? && Decoded(s.client.host, r) && r.sequence !in s.client.table
    ensures Fits(SubmitStep(s, u, r, app))
  {
    var c, t := s.client, SubmitStep(s, u, r, app);
    var table' := t.client.table;
    assert Agree(c.table, table', Listed(s));
    TableMove(s, table');
    assert Known(table', c.host, r);
    if c.rx.RxGot? { assert Expected(c.table, c.host, c.rx.frame); }
  }

  lemma RecvSeqs(c: C.State, fs: seq<R.Frame>)
    requires fs != [] && c.rx.RxLoop?
    ensures var q, c' := fs[0].sequence, C.Receive(c, fs[0]);
            && c'.table == c.table && c'.nextSeq == c.nextSeq
            && if q == 0 then RxSeqs(c'.rx) == RxSeqs(c.rx) && FrameSeqs(fs) == FrameSeqs(fs[1..])
               else RxSeqs(c.rx) == [] && RxSeqs(c'.rx) == [q] && FrameSeqs(fs) == [q] + FrameSeqs(fs[1..])
  {
  }

  lemma RecvNumbers(s: State)
    requires Numbers(s) && s.s2c != [] && s.client.rx.RxLoop?
    ensures Numbers(RecvStep(s))
  {
    var t, q := RecvStep(s), s.s2c[0].sequence;
    RecvSeqs(s.client, s.s2c);
    if q != 0 {
      BagCons(q, FrameSeqs(t.s2c));
      BagReceived(multiset(DataSeqs(s.c2s)), multiset(BusySeqs(s.server.main)), multiset(WaitSeqs(s.server.read)),
                  multiset(FrameSeqs(t.s2c)), q);
    }
  }

  lemma RecvFits(s: State)
    requires Fits(s) && s.s2c != [] && s.client.rx.RxLoop?
    ensures Fits(RecvStep(s))
  {
    var t := RecvStep(s);
    assert Expected(s.client.table, s.client.host, s.s2c[0]);
    forall i | 0 <= i < |t.s2c| ensures Expected(s.client.table, s.client.host, t.s2c[i]) {
      assert t.s2c[i] == s.s2c[i + 1];
    }
  }

  function RemoveStep(s: State): State
    requires s.client.rx.RxGot?
  {
    s.(client := C.TakeOut(s.client))
  }

  lemma RemoveNumbers(s: State)
    requires Numbers(s) && s.client.rx.RxGot? && s.client.rx.frame.sequence in s.client.table
    ensures Numbers(RemoveStep(s))
    ensures Agree(s.client.table, RemoveStep(s).client.table, Listed(s))
  {
    var c, t := s.client, RemoveStep(s);
    var q := c.rx.frame.sequence;
    forall x | x in Listed(s) ensures x != q {
      ListedInFlight(s, x);
      assert multiset(c.table.Keys)[x] <= 1;
    }
    assert t.client.table.Keys == c.table.Keys - {q};
    assert multiset(RxSeqs(c.rx)) == multiset{q} && multiset(RxSeqs(t.client.rx)) == multiset{};
    BagLeaves(InFlight(s), InFlight(t), c.table.Keys, q);
  }

  lemma RemoveFits(s: State)
    requires Fits(s) && s.client.rx.RxGot?
    requires Agree(s.client.table, RemoveStep(s).client.table, Listed(s))
    ensures Fits(RemoveStep(s))
  {
    TableMove(s, RemoveStep(s).client.table);
  }

  lemma AnswerKeeps(s: State)
    requires Flow(s) && s.client.rx.RxReply?
    ensures Flow(s.(client := C.HandleResponse(s.client)))
  {
    C.AnswerOnly(s.client);
    ClientKeeps(s, C.HandleResponse(s.client));
  }

  /** Steps of the client that change neither the table nor what is under way. */
  lemma ClientKeeps(s: State, c: C.State)
    requires Flow(s)
    requires c.table == s.client.table && c.host == s.client.host && c.lost == s.client.lost
    requires c.nextSeq >= s.client.nextSeq
    requires c.rx == s.client.rx || (!s.client.rx.RxGot? && !c.rx.RxGot? && !c.rx.RxReply?)
    ensures Flow(s.(client := c))
  {
    assert InFlight(s.(client := c)) == InFlight(s);
  }

  lemma IntrSendKeeps(s: State, i: nat)
    requires Flow(s) && i < |s.client.looked|
    ensures Flow(IntrSendStep(s, i))
  {
    var t := IntrSendStep(s, i);
    DataSeqsSnoc(s.c2s, P.Interrupt(s.client.looked[i]));
    assert DataSeqs(s.c2s) + [] == DataSeqs(s.c2s);
    assert InFlight(t) == InFlight(s);
  }

  // ---- the server's main thread ----

  lemma TakeNumbers(s: State)
    requires Numbers(s) && s.c2s != [] && s.server.main.Receiving?
    ensures Numbers(TakeStep(s))
  {
    var t := TakeStep(s);
    assert DataSeqs(s.c2s) == BusySeqs(t.server.main) + DataSeqs(t.c2s);
    assert InFlight(t) == InFlight(s);
  }

  lemma TakeFits(s: State)
    requires Fits(s) && s.c2s != []
    ensures Fits(TakeStep(s))
  {
    var t := TakeStep(s);
    assert Known(s.client.table, s.client.host, s.c2s[0]);
    forall i | 0 <= i < |t.c2s| ensures Known(s.client.table, s.client.host, t.c2s[i]) {
      assert t.c2s[i] == s.c2s[i + 1];
    }
  }

  lemma EndKeeps(s: State)
    requires Flow(s)
    ensures Flow(s.(server := s.server.(main := Ended)))
  {
    assert InFlight(s.(server := s.server.(main := Ended))) <= InFlight(s);
  }

  /** Numbers held by the server's threads. */
  function Held(sv: Server): multiset<nat> {
    multiset(BusySeqs(sv.main)) + multiset(WaitSeqs(sv.read))
  }

  /** Only the server and what it sends change. */
  predicate ServerOnly(s: State, t: State) {
    t.client == s.client && t.c2s == s.c2s
  }

  lemma LeaveNumbers(s: State, t: State, f: R.Frame)
    requires Numbers(s) && ServerOnly(s, t) && t.s2c == s.s2c + [f] && f.sequence != 0
    requires Held(t.server) + multiset{f.sequence} == Held(s.server)
    ensures Numbers(t)
  {
    var q, fs := f.sequence, FrameSeqs(s.s2c);
    FrameSeqsSnoc(s.s2c, f);
    BagSnoc(fs, q);
    BagAnswered(multiset(DataSeqs(s.c2s)), multiset(BusySeqs(s.server.main)), multiset(WaitSeqs(s.server.read)),
                multiset(fs), multiset(RxSeqs(s.client.rx)),
                multiset(BusySeqs(t.server.main)), multiset(WaitSeqs(t.server.read)), q);
  }

  lemma LeaveFits(s: State, t: State, f: R.Frame)
    requires Fits(s) && ServerOnly(s, t) && t.s2c == s.s2c + [f]
    requires Expected(s.client.table, s.client.host, f)
    requires BusyKnown(s.client.table, s.client.host, t.server.main)
    requires WaitingKnown(s.client.table, WaitSeqs(t.server.read))
    ensures Fits(t)
  {
  }

  lemma StayNumbers(s: State, t: State)
    requires Numbers(s) && ServerOnly(s, t) && t.s2c == s.s2c && Held(t.server) == Held(s.server)
    ensures Numbers(t)
  {
    BagHeld(multiset(DataSeqs(s.c2s)), multiset(BusySeqs(s.server.main)), multiset(WaitSeqs(s.server.read)),
            multiset(FrameSeqs(s.s2c)), multiset(RxSeqs(s.client.rx)),
            multiset(BusySeqs(t.server.main)), multiset(WaitSeqs(t.server.read)));
  }

  /** An ioctl whose argument came from an application is answered so that the client can convert it. */
  lemma IoctlReplyConverts(hc: Host, hs: Host, r: P.Request, rc: nat, dev: seq<byte>)
    requires r.Ioctl? && Decoded(hc, r) && r.arg.Formed() && !r.arg.IsRaw()
    requires Encode(hs, Repaired(r.cmd), r.arg).Success?
    requires |dev| == OperandLen(Encode(hs, Repaired(r.cmd), r.arg).value.1)
    ensures Decode(hs, Repaired(r.cmd), 0, dev, Device).Success?
    ensures C.Convert(hc, C.KIoctl(r.cmd), R.IoctlDone(rc, Decode(hs, Repaired(r.cmd), 0, dev, Device).value)).Some?
  {
    var cmd: u32 := r.cmd;
    var arg, data :| Decode(hc, Repaired(cmd), arg, data, Cuse) == Success(r.arg);
    IoctlProperties.OutcomeExactly(hc, hs, cmd, arg, data);
    assert IoctlProperties.OutcomeOf(hc, hs, cmd, arg, data).Issued?;
    IoctlProperties.RequestKeepsMeaning(hc, hs, cmd, arg, data);
    BackLength(hc, hs, cmd, arg, data, Encode(hs, Repaired(cmd), r.arg).value.1);
    IoctlProperties.ReplyKeepsMeaning(hc, hs, cmd, 0, dev);
  }

  lemma BackLength(hc: Host, hs: Host, cmd: u32, arg: u64, data: seq<byte>, op: Operand)
    requires IoctlProperties.Supported(cmd) && |data| >= IoctlProperties.NeededIn(cmd)
    requires IoctlProperties.Delivered(hc, hs, cmd, arg, data, op)
    ensures IoctlProperties.ReadsBack(cmd) > 0 ==> OperandLen(op) == IoctlProperties.ReadsBack(cmd)
  {
  }

  /** The main thread's own reply is of the kind the client waits for. */
  lemma DirectReplyFits(t: Table, h: Host, sv: Server, out: Outcome)
    requires BusyKnown(t, h, sv.main) && Handles(sv, out)
    requires DirectReply(sv, sv.main.req, out).Some?
    ensures !sv.main.req.Interrupt?
    ensures Expected(t, h, R.Frame(sv.main.req.sequence, DirectReply(sv, sv.main.req, out).value))
  {
    var r := sv.main.req;
    assert Known(t, h, r);
    if r.Ioctl? && out.Returns? {
      IoctlReplyConverts(h, sv.host, r, out.rc, out.dev);
    }
  }

  lemma DispatchReplies(s: State, out: Outcome)
    requires Handles(s.server, out) && DirectReply(s.server, s.server.main.req, out).Some?
    requires !s.server.main.req.Interrupt?
    ensures var r := s.server.main.req; var t := HandleStep(s, out);
            && ServerOnly(s, t) && BusySeqs(t.server.main) == [] && BusySeqs(s.server.main) == [r.sequence]
            && !t.server.main.Busy? && t.server.read == s.server.read
            && t.s2c == s.s2c + [R.Frame(r.sequence, DirectReply(s.server, r, out).value)]
  {
  }

  lemma ReplyKeeps(s: State, out: Outcome)
    requires Flow(s) && Handles(s.server, out)
    requires DirectReply(s.server, s.server.main.req, out).Some?
    ensures Flow(HandleStep(s, out))
  {
    var r, t := s.server.main.req, HandleStep(s, out);
    var f := R.Frame(r.sequence, DirectReply(s.server, r, out).value);
    DirectReplyFits(s.client.table, s.client.host, s.server, out);
    DispatchReplies(s, out);
    assert Known(s.client.table, s.client.host, r);
    LeaveNumbers(s, t, f);
    LeaveFits(s, t, f);
  }

  lemma SequencesSnoc(rs: seq<Read.Req>, r: Read.Req)
    ensures ReadProperties.Sequences(rs + [r]) == ReadProperties.Sequences(rs) + [r.sequence]
  {
  }

  lemma PushWaits(read: Read.State, r: Read.Req)
    requires Read.Enabled(read, Read.Push(r))
    ensures WaitSeqs(Read.Apply(read, Read.Push(r))) == WaitSeqs(read) + [r.sequence]
  {
    assert Read.Waiting(Read.Apply(read, Read.Push(r))) == Read.Waiting(read) + [r];
    SequencesSnoc(Read.Waiting(read), r);
  }

  lemma DispatchPushes(s: State, out: Outcome)
    requires Handles(s.server, out)
    requires s.server.main.req.Read? && !IsNonblock(s.server.main.req.flags)
    ensures var r := s.server.main.req; var t := HandleStep(s, out);
            && ServerOnly(s, t) && t.s2c == s.s2c && t.server.main.Syncing?
            && t.server.read == Read.Apply(s.server.read, Read.Push(Spec.Req(r.sequence, r.size)))
  {
    assert s.s2c + [] == s.s2c;
  }

  lemma PushKeeps(s: State, out: Outcome)
    requires Flow(s) && Handles(s.server, out)
    requires s.server.main.req.Read? && !IsNonblock(s.server.main.req.flags)
    ensures Flow(HandleStep(s, out))
  {
    var r, t := s.server.main.req, HandleStep(s, out);
    DispatchPushes(s, out);
    PushWaits(s.server.read, Spec.Req(r.sequence, r.size));
    assert Known(s.client.table, s.client.host, r);
    StayNumbers(s, t);
  }

  // ---- the read scheduler ----

  lemma RemoveSequences(rs: seq<Read.Req>, pos: nat)
    requires pos < |rs|
    ensures ReadProperties.Sequences(Remove(rs, pos)) == Remove(ReadProperties.Sequences(rs), pos)
  {
  }

  /** What a step of the scheduler does to the waiting reads and to the connection. */
  ghost predicate KeepsOrAnswers(before: Read.State, after: Read.State, pos: nat) {
    var frames := ReadFrames(before, after);
    if frames == [] then WaitSeqs(after) == WaitSeqs(before)
    else
      && pos < |WaitSeqs(before)| && WaitSeqs(after) == Remove(WaitSeqs(before), pos)
      && |frames| == 1 && frames[0].sequence == WaitSeqs(before)[pos]
      && (frames[0].body.Bytes? || frames[0].body.Failed?)
  }

  lemma SpecStep(before: Read.State, after: Read.State, e: Spec.Event) returns (pos: nat)
    requires Spec.Allowed(Read.Abs(before), e) && Read.Abs(after) == Spec.Next(Read.Abs(before), e)
    requires !e.Arrive?
    ensures KeepsOrAnswers(before, after, pos)
  {
    var w := Read.Waiting(before);
    pos := if e.Cancel? then e.pos else 0;
    if e.Serve? { assert w[1..] == Remove(w, 0); }
    if !e.Tau? { RemoveSequences(w, pos); }
  }

  /** A step of the scheduler other than a push keeps the waiting reads or answers one of them. */
  lemma SchedulerStep(read: Read.State, a: Read.Action) returns (pos: nat)
    requires Read.Reachable(read) && Read.Enabled(read, a) && !a.Push?
    ensures KeepsOrAnswers(read, Read.Apply(read, a), pos)
  {
    Read.ReachableInv(read);
    Read.Refines(read, a);
    pos := SpecStep(read, Read.Apply(read, a), Read.EventOf(read, a));
  }

  lemma SchedulerKeeps(s: State, t: State, pos: nat)
    requires Flow(s) && ServerOnly(s, t) && KeepsOrAnswers(s.server.read, t.server.read, pos)
    requires t.s2c == s.s2c + ReadFrames(s.server.read, t.server.read)
    requires BusySeqs(t.server.main) == BusySeqs(s.server.main)
    requires BusyKnown(s.client.table, s.client.host, t.server.main)
    ensures Flow(t)
  {
    var frames := ReadFrames(s.server.read, t.server.read);
    if frames == [] {
      assert s.s2c + [] == s.s2c;
      StayNumbers(s, t);
    } else {
      assert frames == [frames[0]];
      ReadAnsweredFits(s, t, frames[0], pos);
      ReadAnsweredNumbers(s, t, frames[0], pos);
    }
  }

  /** The read at a position of the waiting list is answered by a frame. */
  predicate Answers(s: State, t: State, f: R.Frame, pos: nat) {
    var qs := WaitSeqs(s.server.read);
    && ServerOnly(s, t) && t.s2c == s.s2c + [f]
    && pos < |qs| && f.sequence == qs[pos] && WaitSeqs(t.server.read) == Remove(qs, pos)
    && (f.body.Bytes? || f.body.Failed?)
  }

  lemma ReadAnsweredNumbers(s: State, t: State, f: R.Frame, pos: nat)
    requires Numbers(s) && Answers(s, t, f, pos) && f.sequence != 0
    requires BusySeqs(t.server.main) == BusySeqs(s.server.main)
    ensures Numbers(t)
  {
    MultisetRemove(WaitSeqs(s.server.read), pos);
    LeaveNumbers(s, t, f);
  }

  lemma ReadAnsweredFits(s: State, t: State, f: R.Frame, pos: nat)
    requires Fits(s) && Answers(s, t, f, pos)
    requires BusyKnown(s.client.table, s.client.host, t.server.main)
    ensures Fits(t) && f.sequence in s.client.table
  {
    var qs, table := WaitSeqs(s.server.read), s.client.table;
    assert qs[pos] in table && table[qs[pos]].kind.KRead?;
    WaitingRemove(table, qs, pos);
    LeaveFits(s, t, f);
  }

  lemma WaitingRemove(t: Table, qs: seq<nat>, pos: nat)
    requires WaitingKnown(t, qs) && pos < |qs|
    ensures WaitingKnown(t, Remove(qs, pos))
  {
  }

  lemma InterruptKeeps(s: State, out: Outcome)
    requires Flow(s) && Read.Reachable(s.server.read) && Handles(s.server, out) && s.server.main.req.Interrupt?
    ensures Flow(HandleStep(s, out))
  {
    var pos := SchedulerStep(s.server.read, Read.Intr(s.server.main.req.sequence));
    SchedulerKeeps(s, HandleStep(s, out), pos);
  }

  lemma HandleKeeps(s: State, out: Outcome)
    requires Flow(s) && Read.Reachable(s.server.read) && Handles(s.server, out)
    ensures Flow(HandleStep(s, out))
  {
    var r := s.server.main.req;
    if r.Interrupt? {
      InterruptKeeps(s, out);
    } else if r.Read? && !IsNonblock(r.flags) {
      PushKeeps(s, out);
    } else {
      ReplyKeeps(s, out);
    }
  }

  lemma ReadWorkerKeeps(s: State, a: Read.Action)
    requires Flow(s) && Read.Reachable(s.server.read) && Read.Enabled(s.server.read, a) && !a.Push?
    ensures Flow(ReadStep(s, a))
  {
    var pos := SchedulerStep(s.server.read, a);
    SchedulerKeeps(s, ReadStep(s, a), pos);
  }

  lemma SyncKeeps(s: State)
    requires Flow(s) && Read.Enabled(s.server.read, Read.SyncWrite) && s.server.main.Syncing?
    ensures Flow(SyncStep(s))
  {
    var t := SyncStep(s);
    assert Read.Waiting(t.server.read) == Read.Waiting(s.server.read);
    StayNumbers(s, t);
  }

  lemma RegisterKeeps(s: State)
    requires Flow(s) && Poll.Enabled(s.server.poll, Poll.Register) && s.server.main.Registering?
    ensures Flow(RegisterStep(s))
  {
    StayNumbers(s, RegisterStep(s));
  }

  lemma NoticeKeeps(s: State, t: State, frames: seq<R.Frame>)
    requires Flow(s) && ServerOnly(s, t) && t.s2c == s.s2c + frames
    requires t.server.main == s.server.main && t.server.read == s.server.read
    requires |frames| <= 1 && forall i :: 0 <= i < |frames| ==> frames[i].sequence == 0
    ensures Flow(t)
  {
    WakeupsUncounted(s.s2c, frames);
    var table, h := s.client.table, s.client.host;
    forall i | 0 <= i < |t.s2c| ensures Expected(table, h, t.s2c[i]) {
      if i < |s.s2c| { assert Expected(table, h, s.s2c[i]); }
    }
  }

  lemma PollWorkerKeeps(s: State, p: Poll.Action)
    requires Flow(s) && Poll.Enabled(s.server.poll, p)
    ensures Flow(PollStep(s, p))
  {
    if p.Signal? {
      R.WakeupFramesShape(p.order);
      NoticeKeeps(s, PollStep(s, p), R.WakeupFrames(p.order));
    } else {
      NoticeKeeps(s, PollStep(s, p), []);
    }
  }

  lemma WakeupsUncounted(fs: seq<R.Frame>, more: seq<R.Frame>)
    requires |more| <= 1 && forall i :: 0 <= i < |more| ==> more[i].sequence == 0
    ensures FrameSeqs(fs + more) == FrameSeqs(fs)
  {
    if more == [] {
      assert fs + more == fs;
    } else {
      assert more == [more[0]];
      FrameSeqsSnoc(fs, more[0]);
    }
  }

  // ---- all steps ----

  predicate QuietAction(a: Action) {
    a.SubmitFails? || a.Reject? || a.EioReply? || a.IntrLookup? || a.IntrFails?
    || a.RxClose? || a.RxClosed? || a.RxBreak? || a.RxShutdown? || a.RxDrain?
  }

  lemma QuietStep(s: State, a: Action)
    requires !ServerAction(a) && ClientEnabled(s, a) && QuietAction(a)
    ensures var c, t := s.client, ClientApply(s, a);
            && t == s.(client := t.client)
            && t.client.table == c.table && t.client.host == c.host && t.client.lost == c.lost
            && t.client.nextSeq >= c.nextSeq
            && (t.client.rx == c.rx || (!c.rx.RxGot? && !t.client.rx.RxGot? && !t.client.rx.RxReply?))
  {
  }

  lemma ClientStepKeeps(s: State, a: Action)
    requires Flow(s) && !ServerAction(a) && ClientEnabled(s, a)
    requires a.Submit? || a.RxRecv? || a.RxRemove? || a.RxAnswer? || a.IntrSend?
    ensures Flow(ClientApply(s, a))
  {
    if a.Submit? {
      SubmitNumbers(s, a.unique, a.req, a.app);
      SubmitFits(s, a.unique, a.req, a.app);
    } else if a.RxRecv? {
      RecvNumbers(s);
      RecvFits(s);
    } else if a.RxRemove? {
      RemoveNumbers(s);
      RemoveFits(s);
    } else if a.RxAnswer? {
      AnswerKeeps(s);
    } else {
      IntrSendKeeps(s, a.i);
    }
  }

  lemma ServerStepKeeps(s: State, a: Action)
    requires Flow(s) && Parts(s) && ServerAction(a) && ServerEnabled(s, a)
    requires a.Take? || a.ServerEnds? || a.Handle? || a.SyncWrite? || a.Register? || a.ReadWorker? || a.PollWorker?
    ensures Flow(ServerApply(s, a))
  {
    if a.Take? {
      TakeNumbers(s);
      TakeFits(s);
    } else if a.ServerEnds? {
      EndKeeps(s);
    } else if a.Handle? {
      HandleKeeps(s, a.out);
    } else if a.SyncWrite? {
      SyncKeeps(s);
    } else if a.Register? {
      RegisterKeeps(s);
    } else if a.ReadWorker? {
      ReadWorkerKeeps(s, a.r);
    } else {
      PollWorkerKeeps(s, a.p);
    }
  }

  lemma QuietKeeps(s: State, a: Action)
    requires Flow(s) && QuietAction(a) && !ServerAction(a) && ClientEnabled(s, a)
    ensures Flow(ClientApply(s, a))
  {
    QuietStep(s, a);
    ClientKeeps(s, ClientApply(s, a).client);
  }

  lemma ClientSideKeeps(s: State, a: Action)
    requires Flow(s) && !ServerAction(a) && ClientEnabled(s, a)
    ensures Flow(ClientApply(s, a))
  {
    if QuietAction(a) { QuietKeeps(s, a); } else { ClientStepKeeps(s, a); }
  }

  lemma StepKeepsFlow(s: State, a: Action)
    requires Flow(s) && Parts(s) && Enabled(s, a)
    ensures Flow(Apply(s, a))
  {
    if ServerAction(a) { ServerStepKeeps(s, a); } else { ClientSideKeeps(s, a); }
  }

  lemma DispatchParts(s: State, out: Outcome)
    requires Parts(s) && Handles(s.server, out)
    ensures Parts(HandleStep(s, out))
  {
    var sv := s.server;
    var r := sv.main.req;
    if r.Interrupt? {
      ReadProperties.ReachableStep(sv.read, Read.Intr(r.sequence));
    } else if r.Read? && !IsNonblock(r.flags) {
      ReadProperties.ReachableStep(sv.read, Read.Push(Spec.Req(r.sequence, r.size)));
    } else if r.Poll? {
      PollProperties.ReachableStep(sv.poll, PollAction(r, out));
    }
  }

  lemma SchedulerParts(s: State, t: State, a: Read.Action)
    requires Parts(s) && Read.Enabled(s.server.read, a) && t.server.read == Read.Apply(s.server.read, a)
    requires t.server.poll == s.server.poll && t.server.read.owed == t.server.main.Syncing?
    requires t.server.main.Registering? == s.server.main.Registering?
    ensures Parts(t)
  {
    ReadProperties.ReachableStep(s.server.read, a);
  }

  lemma PollParts(s: State, t: State, a: Poll.Action)
    requires Parts(s) && Poll.Enabled(s.server.poll, a) && t.server.poll == Poll.Apply(s.server.poll, a)
    requires t.server.read == s.server.read && t.server.poll.main.Checked? == t.server.main.Registering?
    requires t.server.main.Syncing? == s.server.main.Syncing?
    ensures Parts(t)
  {
    PollProperties.ReachableStep(s.server.poll, a);
  }

  lemma ServerKeepsParts(s: State, a: Action)
    requires Parts(s) && ServerAction(a) && ServerEnabled(s, a)
    ensures Parts(ServerApply(s, a))
  {
    if a.Handle? {
      DispatchParts(s, a.out);
    } else if a.SyncWrite? {
      SchedulerParts(s, SyncStep(s), Read.SyncWrite);
    } else if a.Register? {
      PollParts(s, RegisterStep(s), Poll.Register);
    } else if a.ReadWorker? {
      SchedulerParts(s, ReadStep(s, a.r), a.r);
    } else if a.PollWorker? {
      PollParts(s, PollStep(s, a.p), a.p);
    }
  }

  lemma ClientKeepsServer(s: State, a: Action)
    requires !ServerAction(a) && ClientEnabled(s, a)
    ensures ClientApply(s, a).server == s.server
  {
  }

  lemma StepKeepsParts(s: State, a: Action)
    requires Parts(s) && Enabled(s, a)
    ensures Parts(Apply(s, a))
  {
    if ServerAction(a) { ServerKeepsParts(s, a); } else { ClientKeepsServer(s, a); }
  }
}
