/** What reaches the device and what the kernel is told about it. */
module SystemDelivery {
  import opened Base
  import P = Protocol
  import R = Responses
  import C = Client
  import L = ClientLedger
  import Spec = ReadSpec
  import Read = ReadScheduler
  import ReadProperties
  import opened System
  import opened SystemFlow
  import opened SystemOrder
  import opened SystemCarried
  import opened SystemWrites
  import opened SystemReplies
  import opened SystemRuns
  import SystemInvariant
  import SystemProperties

  /** The largest write that fits into a message. */
  const MAX_DATA: nat := P.MAX_SZ - 16

  // ---- writes ----

  /** The device takes writes in the order in which they were sent, each at most once. */
  lemma WritesInOrder(s: State)
    requires Reachable(s)
    ensures Increasing(WrittenSeqs(s.server.written))
    ensures Subsequence(WrittenSeqs(s.server.written), DataSeqs(s.client.sent))
  {
    SystemInvariant.ReachableInv(s);
    var ws := s.server.written;
    NotedIncreases(IsWrite, WrittenSeqs(ws), s);
    forall i | 0 <= i < |ws| ensures WrittenSeqs(ws)[i] in DataSeqs(s.client.sent) {
      assert TookWell(s.client, ws[i]);
    }
    IncreasingPick(WrittenSeqs(ws), DataSeqs(s.client.sent));
  }

  /** The device took the first `n` bytes of the write that was sent as `q`, at its offset. */
  ghost predicate DeviceTook(s: State, u: nat, q: nat, n: nat) {
    var asked := s.client.asked;
    && q in asked && asked[q].unique == u && asked[q].req.Write? && n <= |asked[q].req.data| <= MAX_DATA
    && Written(q, asked[q].req.offset, asked[q].req.data[..n]) in s.server.written
  }

  /** A count that the kernel is told stands for exactly that many bytes of that very write. */
  lemma WriteDelivered(s: State, i: nat) returns (q: nat)
    requires Reachable(s) && i < |s.client.replies| && s.client.replies[i].what.KWritten?
    ensures DeviceTook(s, s.client.replies[i].unique, q, s.client.replies[i].what.size)
  {
    var c, r := s.client, s.client.replies[i];
    SystemProperties.ReplyOrigin(s, i);
    assert L.FromServer(c, r.unique, r.what);
    var f :| f in c.got && L.FromFrame(c, f, r.unique, r.what);
    q := f.sequence;
    FrameTook(s, f, r.unique, r.what);
  }

  lemma ReachableWrites(s: State)
    requires Reachable(s)
    ensures WriteInv(s)
  {
    SystemInvariant.ReachableInv(s);
  }

  lemma FrameTook(s: State, f: R.Frame, u: nat, what: C.KernelReply)
    requires Reachable(s) && f in s.client.got && L.FromFrame(s.client, f, u, what) && what.KWritten?
    ensures DeviceTook(s, u, f.sequence, what.size)
  {
    var c := s.client;
    ConvertKinds(c.host, C.KindOf(c.asked[f.sequence].req).value, f.body);
    ReachableWrites(s);
    var i :| 0 <= i < |c.got| && c.got[i] == f;
    assert Outbox(s)[i] == f;
    var w := CountNoted(s, f);
    var r := c.asked[f.sequence].req;
    assert w.bytes == r.data[..|w.bytes|];
    assert w == Written(f.sequence, r.offset, r.data[..what.size]);
  }

  // ---- the order of data replies ----

  lemma ServedIncreases(s: State)
    requires Reachable(s)
    ensures Increasing(ReadProperties.Sequences(Spec.Served(s.server.read.answers)))
  {
    SystemProperties.ReadsDistinct(s);
    var read := s.server.read;
    ReadProperties.DataInOrder(read);
    var served, waiting := Spec.Served(read.answers), Read.Waiting(read);
    PrefixSubsequence(served, served + waiting);
    SubsequenceTrans(served, served + waiting, read.arrivals);
    SubsequenceSequences(served, read.arrivals);
    SubsequenceIncreases(ReadProperties.Sequences(served), Arrived(s));
  }

  lemma {:induction false} DataFramesPrefix(a: seq<R.Frame>, b: seq<R.Frame>)
    ensures DataFrames(a) <= DataFrames(a + b)
  {
    if b == [] {
      assert a + b == a;
    } else {
      var n := |b| - 1;
      assert a + b == (a + b[..n]) + [b[n]];
      DataFramesSnoc(a + b[..n], b[n]);
      DataFramesPrefix(a, b[..n]);
    }
  }

  lemma ReceivedIncreases(s: State)
    requires Reachable(s) && BlockingOnly(s.client.sent)
    ensures Increasing(DataFrames(s.client.got))
  {
    SystemInvariant.ReachableInv(s);
    ServedIncreases(s);
    var qs, all := DataFrames(s.client.got), DataFrames(Outbox(s));
    DataFramesPrefix(s.client.got, s.s2c);
    forall i, j | 0 <= i < j < |qs| ensures qs[i] < qs[j] {
      assert qs[i] == all[i] && qs[j] == all[j];
    }
  }

  /** With blocking reads only, data replies are given in the order in which the reads were handed in. */
  lemma DataRepliesInOrder(s: State)
    requires Reachable(s) && BlockingOnly(s.client.sent)
    ensures Subsequence(DataUniques(s.client.replies), s.client.handed)
  {
    SystemInvariant.ReachableInv(s);
    ReceivedIncreases(s);
    RepliesFollowHanded(s.client);
  }

  lemma RepliesFollowHanded(c: C.State)
    requires AnsweredInOrder(c) && HandedInOrder(c) && WireInv(c) && Increasing(DataFrames(c.got))
    ensures Subsequence(DataUniques(c.replies), c.handed)
  {
    var qs, sent, us := DataFrames(c.got), DataSeqs(c.sent), DataUniques(c.replies);
    IncreasingPick(qs, sent);
    SubsequenceAsked(c.asked, qs, sent);
    var answered := AskedBy(c.asked, qs);
    assert us <= answered;
    PrefixSubsequence(us, answered);
    SubsequenceTrans(us, answered, AskedBy(c.asked, sent));
    SubsequenceTrans(us, AskedBy(c.asked, sent), c.handed);
  }

  // ---- answers do come ----

  /** Nothing is under way and every thread is ready for the next message. */
  predicate Quiet(s: State) {
    && s.c2s == [] && s.s2c == [] && s.server.main.Receiving? && !s.server.read.owed && s.server.poll.main.Free?
    && s.client.rx.RxLoop? && !s.client.closed && !s.client.shut
  }

  /** A write that the client sends reaches the main thread. */
  lemma WriteSent(s: State, u: nat, r: P.Request)
    requires Quiet(s) && s.client.nextSeq > 0 && u !in s.client.handed
    requires r.Write? && s.client.nextSeq <= r.sequence && |r.data| <= MAX_DATA
    ensures IsRun(s, [Submit(u, r, C.NO_APP)] + [Take])
    ensures var t := After(s, [Submit(u, r, C.NO_APP)] + [Take]);
            t.client == C.Submit(s.client, u, r, C.NO_APP) && t.s2c == [] && t.server == s.server.(main := Busy(r))
  {
    var a, sent := Submit(u, r, C.NO_APP), SubmitStep(s, u, r, C.NO_APP);
    assert IsRun(s, []) && After(s, []) == s && [] + [a] == [a];
    RunAppend(s, [], a);
    assert sent.c2s == [r];
    RunAppend(s, [a], Take);
  }

  /** The server's answer reaches the receiving thread. */
  lemma WriteHandled(s: State, acts: seq<Action>, r: P.Request, count: nat)
    requires IsRun(s, acts)
    requires var b := After(s, acts);
             && b.server.main == Busy(r) && b.s2c == [] && !b.server.read.owed && b.server.poll.main.Free?
             && b.client.rx.RxLoop? && !b.client.closed
    requires r.Write? && count <= |r.data|
    ensures IsRun(s, acts + [Handle(Counts(count))] + [RxRecv])
    ensures After(s, acts + [Handle(Counts(count))] + [RxRecv]).client
            == C.Receive(After(s, acts).client, R.Frame(r.sequence, R.Wrote(count)))
  {
    var b, a := After(s, acts), Handle(Counts(count));
    RunAppend(s, acts, a);
    var done, f := HandleStep(b, Counts(count)), R.Frame(r.sequence, R.Wrote(count));
    assert done.s2c == [f];
    RunAppend(s, acts + [a], RxRecv);
  }

  lemma CountTold(c: C.State, u: nat, r: P.Request, count: nat)
    requires r.Write? && c.rx.RxLoop? && r.sequence > 0
    ensures var got := C.Receive(C.Submit(c, u, r, C.NO_APP), R.Frame(r.sequence, R.Wrote(count)));
            && got.rx.RxGot?
            && var taken := C.TakeOut(got);
            && taken.rx.RxReply? && C.HandleResponse(taken).replies == c.replies + [C.Reply(u, C.KWritten(count))]
  {
  }

  /** The steps that answer a write with a count. */
  function Answering(u: nat, r: P.Request, count: nat): seq<Action> {
    [Submit(u, r, C.NO_APP)] + [Take] + [Handle(Counts(count))] + [RxRecv] + [RxRemove] + [RxAnswer]
  }

  /** From every quiet state six steps answer a write that fits with any count the device may return. */
  lemma WriteAnswered(s: State, u: nat, r: P.Request, count: nat)
    requires Reachable(s) && Quiet(s) && u !in s.client.handed && r.Write? && s.client.nextSeq <= r.sequence
    requires |r.data| <= MAX_DATA && count <= |r.data|
    ensures |Answering(u, r, count)| == 6 && IsRun(s, Answering(u, r, count))
    ensures After(s, Answering(u, r, count)).client.replies == s.client.replies + [C.Reply(u, C.KWritten(count))]
  {
    NumbersPositive(s);
    WriteSent(s, u, r);
    var sent := [Submit(u, r, C.NO_APP)] + [Take];
    WriteHandled(s, sent, r, count);
    CountTold(s.client, u, r, count);
    var got := sent + [Handle(Counts(count))] + [RxRecv];
    RunAppend(s, got, RxRemove);
    RunAppend(s, got + [RxRemove], RxAnswer);
  }

  lemma {:induction false} AskedStays(s: State, acts: seq<Action>, q: nat)
    requires Reachable(s) && IsRun(s, acts) && q in s.client.asked
    ensures q in After(s, acts).client.asked && After(s, acts).client.asked[q] == s.client.asked[q]
    decreases |acts|
  {
    if acts != [] {
      AskedOnce(s, acts[0], q);
      ReachableStep(s, acts[0]);
      AskedStays(Apply(s, acts[0]), acts[1..], q);
    }
  }

  lemma AskedOnce(s: State, a: Action, q: nat)
    requires Reachable(s) && Enabled(s, a) && q in s.client.asked
    ensures q in Apply(s, a).client.asked && Apply(s, a).client.asked[q] == s.client.asked[q]
  {
    if ServerAction(a) {
      SystemInvariant.ServerKeepsClient(s, a);
    } else if a.Submit? {
      NumbersGrow(s, q);
    } else {
      SystemInvariant.AskedKept(s, a);
    }
  }

  lemma NumbersGrow(s: State, q: nat)
    requires Reachable(s) && q in s.client.asked
    ensures q < s.client.nextSeq
  {
    SystemInvariant.ReachableInv(s);
  }

  /** Some run that starts by sending the write ends with the kernel being told this count. */
  ghost predicate CanBeTold(s: State, u: nat, r: P.Request, count: nat) {
    exists acts :: acts != [] && acts[0] == Submit(u, r, C.NO_APP) && IsRun(s, acts)
                   && C.Reply(u, C.KWritten(count)) in After(s, acts).client.replies
  }

  /** From a quiet state a write can be answered with a count exactly if it fits into a message. */
  lemma WriteAnsweredExactly(s: State, u: nat, r: P.Request, count: nat)
    requires Reachable(s) && Quiet(s) && u !in s.client.handed && r.Write? && s.client.nextSeq <= r.sequence
    requires count <= |r.data|
    ensures CanBeTold(s, u, r, count) <==> |r.data| <= 0xFFF0
  {
    if |r.data| <= MAX_DATA {
      WriteAnswered(s, u, r, count);
      var acts, rs := Answering(u, r, count), s.client.replies;
      assert acts[0] == Submit(u, r, C.NO_APP);
      assert (rs + [C.Reply(u, C.KWritten(count))])[|rs|] == C.Reply(u, C.KWritten(count));
    }
    if CanBeTold(s, u, r, count) {
      var acts :| acts != [] && acts[0] == Submit(u, r, C.NO_APP) && IsRun(s, acts)
                  && C.Reply(u, C.KWritten(count)) in After(s, acts).client.replies;
      ToldFits(s, u, r, count, acts);
    }
  }

  lemma SubmitAsks(s: State, u: nat, r: P.Request)
    requires Reachable(s) && ClientEnabled(s, Submit(u, r, C.NO_APP))
    ensures var t := SubmitStep(s, u, r, C.NO_APP);
            && Reachable(t) && t == ClientApply(s, Submit(u, r, C.NO_APP))
            && r.sequence in t.client.asked && t.client.asked[r.sequence] == C.Ask(u, r, C.NO_APP)
  {
    ReachableStep(s, Submit(u, r, C.NO_APP));
  }

  lemma ToldFits(s: State, u: nat, r: P.Request, count: nat, acts: seq<Action>)
    requires Reachable(s) && r.Write?
    requires acts != [] && acts[0] == Submit(u, r, C.NO_APP) && IsRun(s, acts)
    requires C.Reply(u, C.KWritten(count)) in After(s, acts).client.replies
    ensures |r.data| <= MAX_DATA
  {
    SubmitAsks(s, u, r);
    TookIfTold(SubmitStep(s, u, r, C.NO_APP), acts[1..], u, r, count);
  }

  lemma TookIfTold(s: State, acts: seq<Action>, u: nat, r: P.Request, count: nat)
    requires Reachable(s) && IsRun(s, acts)
    requires r.sequence in s.client.asked && s.client.asked[r.sequence] == C.Ask(u, r, C.NO_APP)
    requires C.Reply(u, C.KWritten(count)) in After(s, acts).client.replies
    ensures r.Write? ==> |r.data| <= MAX_DATA
  {
    var t := After(s, acts);
    AskedStays(s, acts, r.sequence);
    ReachableRun(s, acts);
    var rs := t.client.replies;
    var i :| 0 <= i < |rs| && rs[i] == C.Reply(u, C.KWritten(count));
    var q := WriteDelivered(t, i);
    SystemProperties.AskedUnder(t, q, r.sequence);
  }
}
