/**
 What holds in every reachable state of a connection: for every interleaving of the client's
 callers and receiving thread with the server's main thread, read worker and poll worker.
 */
module SystemProperties {
  import opened Base
  import R = Responses
  import C = Client
  import L = ClientLedger
  import Spec = ReadSpec
  import Read = ReadScheduler
  import ReadProperties
  import PollProperties
  import opened System
  import opened SystemFlow
  import opened SystemOrder
  import opened SystemCarried
  import opened SystemDeeds
  import SystemInvariant

  // ---- responses meet their requests ----

  /**
   A response that the receiving thread holds has its request in the table, that request is
   of the response's kind, and converting the response for the kernel succeeds; no response
   ever took one of the arms for unknown requests, unexpected responses or bad arguments.
   */
  lemma ResponseMeetsRequest(s: State)
    requires Reachable(s)
    ensures !s.client.lost
    ensures var c := s.client; c.rx.RxGot? ==>
              && c.rx.frame.sequence in c.table
              && C.Convert(c.host, c.table[c.rx.frame.sequence].kind, c.rx.frame.body).Some?
    ensures var c := s.client; c.rx.RxReply? ==> C.Convert(c.host, c.rx.entry.kind, c.rx.body).Some?
  {
    SystemInvariant.ReachableInv(s);
  }

  /** At most one entry of the table carries a kernel request number. */
  lemma SingleTableMatch(s: State, p: nat, q: nat)
    requires Reachable(s) && p in s.client.table && q in s.client.table
    requires s.client.table[p].unique == s.client.table[q].unique
    ensures p == q
  {
    SystemInvariant.ReachableInv(s);
  }

  // ---- exactly one reply ----

  /** How often a kernel request is answered, about to fail, in the receiver's hand, or in the table. */
  function Places(c: C.State, u: nat): nat {
    multiset(L.Replied(c.replies))[u] + multiset(c.failing)[u] + multiset(L.Hand(c.rx))[u]
    + multiset(L.Unanswered(c))[u]
  }

  lemma ExactlyOnePlace(s: State, u: nat)
    requires Reachable(s)
    ensures Places(s.client, u) == if u in s.client.handed then 1 else 0
  {
    SystemInvariant.ReachableInv(s);
    var c := s.client;
    assert Places(c, u) == multiset(c.handed)[u];
    NoDupMultiset(c.handed, u);
    assert u in c.handed <==> u in multiset(c.handed);
  }

  lemma AnsweredOnce(s: State, i: nat, j: nat)
    requires Reachable(s) && i < j < |s.client.replies|
    ensures s.client.replies[i].unique != s.client.replies[j].unique
    ensures s.client.replies[i].unique in s.client.handed
  {
    var us := L.Replied(s.client.replies);
    ExactlyOnePlace(s, us[i]);
    assert us[i] in multiset(us);
    if us[i] == us[j] { ReadProperties.TwiceInMultiset(us, i, j); }
  }

  /** The request was sent, as the message with some number. */
  ghost predicate WasAsked(c: C.State, u: nat) {
    exists q :: q in c.asked && c.asked[q].unique == u
  }

  /**
   A request that was sent is answered with what the server answered to that very message, or with
   EINTR because it was left when the receiving thread ended.  A request whose send failed is answered
   with EIO, one that could not be decoded with EINVAL, and every reply is for one of these three.
   */
  lemma ReplyOrigin(s: State, i: nat)
    requires Reachable(s) && i < |s.client.replies|
    ensures var c, r := s.client, s.client.replies[i];
            && (WasAsked(c, r.unique) ==>
                  L.FromServer(c, r.unique, r.what) || (r.what == C.KError(4) && L.LeftOver(c, r.unique)))
            && (r.unique in c.failed ==> r.what == C.KError(5) && !WasAsked(c, r.unique))
            && (r.unique in c.rejected ==> r.what == C.KError(22) && !WasAsked(c, r.unique))
            && (WasAsked(c, r.unique) || r.unique in c.failed || r.unique in c.rejected)
  {
    SystemInvariant.ReachableInv(s);
    L.OriginDecides(s.client, s.client.replies[i]);
  }

  /** A request is sent under one number only. */
  lemma AskedUnder(s: State, p: nat, q: nat)
    requires Reachable(s) && p in s.client.asked && q in s.client.asked
    requires s.client.asked[p].unique == s.client.asked[q].unique
    ensures p == q
  {
    SystemInvariant.ReachableInv(s);
  }

  // ---- teardown ----

  /** When the receiving thread has finished, everything ever handed in is answered or about to get EIO. */
  lemma TeardownComplete(s: State, u: nat)
    requires Reachable(s) && s.client.rx.RxDone? && u in s.client.handed
    ensures u in L.Replied(s.client.replies) <==> u !in s.client.failing
  {
    ExactlyOnePlace(s, u);
    var us, fs := L.Replied(s.client.replies), s.client.failing;
    assert u in us <==> u in multiset(us);
    assert u in fs <==> u in multiset(fs);
  }

  /** Every entry left in the table was answered. */
  lemma TableAnswered(s: State, q: nat)
    requires Reachable(s) && s.client.rx.RxDone? && q in s.client.table
    ensures s.client.table[q].unique in L.Replied(s.client.replies)
  {
    SystemInvariant.ReachableInv(s);
  }

  predicate Refusal(what: C.KernelReply) {
    what == C.KError(5) || what == C.KError(22)
  }

  predicate OnlyRefuses(c: C.State, c': C.State) {
    && c'.rx.RxDone? && c'.shut && c'.table == c.table && c'.sent == c.sent
    && c.replies <= c'.replies
    && forall i :: |c.replies| <= i < |c'.replies| ==> Refusal(c'.replies[i].what)
  }

  lemma RefusesStep(s: State, a: Action)
    requires s.client.rx.RxDone? && s.client.shut && Enabled(s, a)
    ensures OnlyRefuses(s.client, Apply(s, a).client)
  {
    if ServerAction(a) { SystemInvariant.ServerKeepsClient(s, a); }
  }

  /** After the receiving thread has finished, nothing is sent any more and every new request is refused. */
  lemma {:induction false} LaterRequestsFail(s: State, acts: seq<Action>)
    requires s.client.rx.RxDone? && s.client.shut && IsRun(s, acts)
    ensures OnlyRefuses(s.client, After(s, acts).client)
    decreases |acts|
  {
    if acts != [] {
      RefusesStep(s, acts[0]);
      LaterRequestsFail(Apply(s, acts[0]), acts[1..]);
    }
  }

  lemma DoneIsShut(s: State)
    requires Reachable(s) && s.client.rx.RxDone?
    ensures s.client.shut
  {
    SystemInvariant.ReachableInv(s);
  }

  // ---- order ----

  /** Request numbers on the wire strictly increase, and an interrupt names an earlier request. */
  lemma WireOrder(s: State)
    requires Reachable(s)
    ensures Increasing(DataSeqs(s.client.sent))
    ensures NamesEarlier(s.client.sent)
  {
    SystemInvariant.ReachableInv(s);
  }

  lemma ReadsDistinct(s: State)
    requires Reachable(s)
    ensures Read.Reachable(s.server.read)
    ensures Increasing(Arrived(s)) && NoDup(Arrived(s))
  {
    SystemInvariant.ReachableInv(s);
    NotedIncreases(Blocking, Arrived(s), s);
  }

  /** Each blocking read the server took is in exactly one place, and is answered at most once. */
  lemma BlockingReadOnce(s: State, r: Read.Req)
    requires Reachable(s) && r in s.server.read.arrivals
    ensures ReadProperties.Places(s.server.read, r) == 1
  {
    ReadsDistinct(s);
    ReadProperties.ExactlyOnePlace(s.server.read, r);
  }

  /** An interrupt finds at most one queued read. */
  lemma SingleQueueMatch(s: State, i: nat, j: nat)
    requires Reachable(s) && i < j < |s.server.read.queue|
    ensures s.server.read.queue[i].sequence != s.server.read.queue[j].sequence
  {
    ReadsDistinct(s);
    ReadProperties.SingleQueueMatch(s.server.read, i, j);
  }

  /** An interrupt for a read that was answered changes nothing and answers nothing. */
  lemma LateInterrupt(s: State, out: Outcome)
    requires Reachable(s) && Handles(s.server, out) && s.server.main.req.Interrupt?
    requires ReadProperties.Holds(Spec.Answered(s.server.read.answers), s.server.main.req.sequence)
    ensures var t := HandleStep(s, out);
            t.server.read == s.server.read.(owed := true) && t.s2c == s.s2c && t.client == s.client
  {
    ReadsDistinct(s);
    var q := s.server.main.req.sequence;
    ReadProperties.LateInterruptIgnored(s.server.read, q);
    SystemInvariant.HandleFacts(s, out);
    assert ReadFrames(s.server.read, Read.Apply(s.server.read, Read.Intr(q))) == [];
    assert s.s2c + [] == s.s2c;
  }

  // ---- what the connection carries ----

  /**
   Without non-blocking reads, the data given to the kernel, in order of the replies, followed by
   what the receiving thread, the connection and the read worker hold, is what was read from the device.
   */
  lemma BytesDelivered(s: State)
    requires Reachable(s) && BlockingOnly(s.client.sent)
    ensures ReplyData(s.client.replies) + RxData(s.client.rx) + FramesData(s.s2c)
            + Read.InFlight(s.server.read.worker)
            == s.server.read.consumed
    ensures ReplyData(s.client.replies) <= s.server.read.consumed
  {
    SystemInvariant.ReachableInv(s);
    ReadProperties.DataInOrder(s.server.read);
  }

  /**
   Wake-ups arrive exactly as signalled, and the kernel is notified of a handle never more often than
   the handle was polled with a wish to be notified of some event and nothing was ready.
   */
  lemma WakeupsDelivered(s: State, kh: nat)
    requires Reachable(s)
    ensures s.client.notified + R.AllNotifications(s.s2c) == s.server.poll.woken
    ensures multiset(s.client.notified)[kh] <= multiset(PolledHandles(s.server.deeds))[kh]
  {
    SystemInvariant.ReachableInv(s);
    ReachableDeeds(s);
    PollProperties.WakeupsPaid(s.server.poll, kh);
    var a, b, p := s.client.notified, R.AllNotifications(s.s2c), s.server.poll;
    assert multiset(a + b) == multiset(a) + multiset(b);
    assert multiset(p.registered + Upcoming(p)) == multiset(p.registered) + multiset(Upcoming(p));
  }
}
