/**
 The client's bookkeeping.  Every kernel request handed to the client is in exactly one
 place until it gets its one reply, and each reply is either the client's own verdict or
 what the server answered to the very message that request was sent as.
 */
module ClientLedger {
  import opened Base
  import P = Protocol
  import R = Responses
  import opened Client

  type Bag = multiset<Unique>

  // ---- one place per request ----

  function Uniques(t: map<nat, Entry>): set<Unique> {
    set q | q in t :: t[q].unique
  }

  predicate Injective(t: map<nat, Entry>) {
    forall p, q :: p in t && q in t && p != q ==> t[p].unique != t[q].unique
  }

  function Replied(rs: seq<Reply>): (us: seq<Unique>)
    ensures |us| == |rs| && forall i :: 0 <= i < |rs| ==> us[i] == rs[i].unique
  {
    seq(|rs|, i requires 0 <= i < |rs| => rs[i].unique)
  }

  /** The request the receiving thread holds. */
  function Hand(rx: Rx): seq<Unique> {
    match rx
    case RxReply(e, _) => [e.unique]
    case RxClosing(e) => [e.unique]
    case _ => []
  }

  /** Requests in the table that are still to be answered. */
  function Unanswered(c: State): set<Unique> {
    if c.rx.RxDone? then {} else Uniques(c.table)
  }

  function Places(answered: Bag, failing: Bag, hand: Bag, table: Bag): Bag {
    answered + failing + hand + table
  }

  ghost predicate Balanced(c: State) {
    multiset(c.handed)
    == Places(multiset(Replied(c.replies)), multiset(c.failing), multiset(Hand(c.rx)), multiset(Unanswered(c)))
  }

  ghost predicate Ledger(c: State) {
    && NoDup(c.handed) && Injective(c.table) && Balanced(c)
    && (c.rx.RxShut? || c.rx.RxDone? ==> c.shut)
    && (c.rx.RxDone? ==> forall q :: q in c.table ==> c.table[q].unique in Replied(c.replies))
  }

  lemma UniquesInsert(t: map<nat, Entry>, q: nat, e: Entry)
    requires q !in t
    ensures Uniques(t[q := e]) == Uniques(t) + {e.unique}
  {
    var t' := t[q := e];
    forall u | u in Uniques(t) + {e.unique} ensures u in Uniques(t') {
      if u == e.unique {
        assert t'[q].unique == u;
      } else {
        var p :| p in t && t[p].unique == u;
        assert p in t' && t'[p].unique == u;
      }
    }
  }

  lemma UniquesRemove(t: map<nat, Entry>, q: nat)
    requires q in t && Injective(t)
    ensures Uniques(t) == Uniques(t - {q}) + {t[q].unique} && t[q].unique !in Uniques(t - {q})
    ensures Injective(t - {q})
  {
    var t' := t - {q};
    forall u | u in Uniques(t) && u != t[q].unique ensures u in Uniques(t') {
      var p :| p in t && t[p].unique == u;
      assert p in t' && t'[p].unique == u;
    }
  }

  lemma BagOfInsert(s: set<Unique>, u: Unique)
    requires u !in s
    ensures multiset(s + {u}) == multiset(s) + multiset{u}
  {
  }

  lemma RepliedSnoc(rs: seq<Reply>, r: Reply)
    ensures Replied(rs + [r]) == Replied(rs) + [r.unique]
  {
  }

  /** A new number is handed in and takes one of the four places. */
  lemma HandIn(c: State, u: Unique)
    requires NoDup(c.handed) && u !in c.handed
    ensures NoDup(c.handed + [u]) && multiset(c.handed + [u]) == multiset(c.handed) + multiset{u}
  {
  }

  lemma NotInTable(c: State, u: Unique)
    requires Ledger(c) && u !in c.handed && !c.rx.RxDone?
    ensures u !in Uniques(c.table)
  {
    assert multiset(Unanswered(c)) <= multiset(c.handed);
    assert u !in multiset(c.handed);
  }

  lemma SubmitLedger(c: State, u: Unique, r: P.Request, app: App)
    requires Ledger(c) && !c.shut && u !in c.handed && KindOf(r).Some? && r.sequence !in c.table
    ensures Ledger(Submit(c, u, r, app))
  {
    var e := Entry(KindOf(r).value, u);
    var t' := c.table[r.sequence := e];
    HandIn(c, u);
    NotInTable(c, u);
    UniquesInsert(c.table, r.sequence, e);
    BagOfInsert(Uniques(c.table), u);
    forall p, q | p in t' && q in t' && p != q ensures t'[p].unique != t'[q].unique {
      if p != r.sequence { assert t'[p].unique in Uniques(c.table); }
      if q != r.sequence { assert t'[q].unique in Uniques(c.table); }
    }
  }

  lemma FailLedger(c: State, u: Unique, sequence: nat)
    requires Ledger(c) && u !in c.handed
    ensures Ledger(SubmitFails(c, u, sequence))
  {
    HandIn(c, u);
    BagSnoc(c.failing, u);
  }

  lemma RejectLedger(c: State, u: Unique)
    requires Ledger(c) && u !in c.handed
    ensures Ledger(Reject(c, u))
  {
    HandIn(c, u);
    RepliedSnoc(c.replies, Reply(u, KError(EINVAL)));
    BagSnoc(Replied(c.replies), u);
  }

  lemma EioLedger(c: State, i: nat)
    requires Ledger(c) && i < |c.failing|
    ensures Ledger(EioReply(c, i))
  {
    var u := c.failing[i];
    MultisetRemove(c.failing, i);
    RepliedSnoc(c.replies, Reply(u, KError(EIO)));
    BagSnoc(Replied(c.replies), u);
  }

  lemma TakeOutLedger(c: State)
    requires Ledger(c) && c.rx.RxGot? && c.rx.frame.sequence in c.table
    ensures Ledger(TakeOut(c))
  {
    var q := c.rx.frame.sequence;
    UniquesRemove(c.table, q);
    BagOfInsert(Uniques(c.table - {q}), c.table[q].unique);
    assert multiset(Hand(TakeOut(c).rx)) == multiset{c.table[q].unique};
  }

  /** The request in hand gets its reply. */
  lemma ReplyLedger(c: State, u: Unique, what: KernelReply)
    requires Ledger(c) && Hand(c.rx) == [u]
    ensures Ledger(Answer(c.(rx := RxLoop), u, what))
  {
    RepliedSnoc(c.replies, Reply(u, what));
    BagSnoc(Replied(c.replies), u);
    assert multiset([u]) == multiset{u};
    assert !c.rx.RxDone?;
  }

  lemma HandleResponseLedger(c: State)
    requires Ledger(c) && c.rx.RxReply? && Convert(c.host, c.rx.entry.kind, c.rx.body).Some?
    ensures Ledger(HandleResponse(c))
  {
    var e, body := c.rx.entry, c.rx.body;
    if !(e.kind.KRelease? && body.Done?) {
      ReplyLedger(c, e.unique, Convert(c.host, e.kind, body).value);
    }
  }

  lemma {:induction false} BagOfDistinct(us: seq<Unique>, s: set<Unique>)
    requires NoDup(us) && forall u :: u in us <==> u in s
    ensures multiset(us) == multiset(s)
  {
    forall u ensures multiset(us)[u] == multiset(s)[u] {
      NoDupMultiset(us, u);
      assert u in us <==> u in multiset(us);
    }
  }

  /** The final loop answers exactly the requests left in the table. */
  lemma DrainedUniques(t: map<nat, Entry>, order: seq<nat>)
    requires Injective(t) && NoDup(order) && forall q :: q in order <==> q in t
    ensures multiset(Replied(Drained(t, order))) == multiset(Uniques(t))
  {
    var us := Replied(Drained(t, order));
    forall i, j | 0 <= i < j < |us| ensures us[i] != us[j] {
      assert order[i] != order[j] && order[i] in t && order[j] in t;
    }
    forall u | u in Uniques(t) ensures u in us {
      var q :| q in t && t[q].unique == u;
      var i :| 0 <= i < |order| && order[i] == q;
      assert us[i] == u;
    }
    forall u | u in us ensures u in Uniques(t) {
      var i :| 0 <= i < |us| && us[i] == u;
      assert order[i] in t && t[order[i]].unique == u;
    }
    BagOfDistinct(us, Uniques(t));
  }

  lemma DrainedAll(t: map<nat, Entry>, us: seq<Unique>)
    requires multiset(us) == multiset(Uniques(t))
    ensures forall q :: q in t ==> t[q].unique in us
  {
    forall q | q in t ensures t[q].unique in us {
      assert t[q].unique in Uniques(t);
      assert t[q].unique in multiset(us);
    }
  }

  lemma DrainLedger(c: State, order: seq<nat>)
    requires Ledger(c) && c.rx.RxShut? && NoDup(order) && forall q :: q in order <==> q in c.table
    ensures Ledger(Drain(c, order))
  {
    var more := Drained(c.table, order);
    DrainedUniques(c.table, order);
    DrainBalanced(c, more);
    DrainedAll(c.table, Replied(more));
    RepliedConcat(c.replies, more);
  }

  lemma RepliedConcat(rs: seq<Reply>, more: seq<Reply>)
    ensures Replied(rs + more) == Replied(rs) + Replied(more)
  {
  }

  lemma DrainBalanced(c: State, more: seq<Reply>)
    requires Balanced(c) && c.rx.RxShut? && multiset(Replied(more)) == multiset(Uniques(c.table))
    ensures Balanced(c.(rx := RxDone, replies := c.replies + more))
  {
    RepliedConcat(c.replies, more);
    BagMoves(multiset(Replied(c.replies)), multiset(c.failing), multiset(Replied(more)));
  }

  lemma BagMoves(answered: Bag, failing: Bag, table: Bag)
    ensures Places(answered + table, failing, multiset{}, multiset{}) == Places(answered, failing, multiset{}, table)
  {
  }

  // ---- where replies come from ----

  /** The table's entry for a number is the one made when the request was sent. */
  predicate EntryFor(c: State, q: nat, e: Entry) {
    q in c.asked && KindOf(c.asked[q].req) == Some(e.kind) && c.asked[q].unique == e.unique
  }

  /** The server answered the message that carried this request, and `what` is that answer. */
  ghost predicate FromServer(c: State, u: Unique, what: KernelReply) {
    exists f :: f in c.got && FromFrame(c, f, u, what)
  }

  ghost predicate FromFrame(c: State, f: R.Frame, u: Unique, what: KernelReply) {
    && f.sequence in c.asked && KindOf(c.asked[f.sequence].req).Some?
    && c.asked[f.sequence].unique == u
    && Convert(c.host, KindOf(c.asked[f.sequence].req).value, f.body) == Some(what)
  }

  /** A request that was left in the table when the receiving thread ended. */
  ghost predicate LeftOver(c: State, u: Unique) {
    c.rx.RxDone? && exists q :: q in c.table && c.table[q].unique == u
  }

  /** Why a reply was given. */
  ghost predicate Origin(c: State, r: Reply) {
    || FromServer(c, r.unique, r.what)
    || (r.what == KError(EINTR) && LeftOver(c, r.unique))
    || (r.what == KError(EIO) && r.unique in c.failed)
    || (r.what == KError(EINVAL) && r.unique in c.rejected)
  }

  ghost predicate AskedWell(c: State) {
    && (forall q :: q in c.asked ==> q < c.nextSeq && c.asked[q].req.sequence == q && KindOf(c.asked[q].req).Some?)
    && (forall q :: q in c.table ==> EntryFor(c, q, c.table[q]))
  }

  ghost predicate HandTraced(c: State) {
    match c.rx
    case RxGot(f) => f in c.got
    case RxReply(e, body) =>
      exists f :: f in c.got && f.body == body && EntryFor(c, f.sequence, e)
    case RxClosing(e) => FromServer(c, e.unique, KError(0))
    case _ => true
  }

  ghost predicate RepliesTraced(c: State) {
    forall i :: 0 <= i < |c.replies| ==> Origin(c, c.replies[i])
  }

  ghost predicate Traced(c: State) {
    AskedWell(c) && HandTraced(c) && RepliesTraced(c)
  }

  /** Histories only grow, and the table stays once the receiving thread has ended. */
  ghost predicate Grows(c: State, c': State) {
    && c'.host == c.host && c.got <= c'.got && c.failed <= c'.failed && c.rejected <= c'.rejected
    && (c.rx.RxDone? ==> c'.rx.RxDone? && c'.table == c.table)
    && forall q :: q in c.asked ==> q in c'.asked && c'.asked[q] == c.asked[q]
  }

  lemma FromServerKept(c: State, c': State, u: Unique, what: KernelReply)
    requires Grows(c, c') && FromServer(c, u, what)
    ensures FromServer(c', u, what)
  {
    var f :| f in c.got && FromFrame(c, f, u, what);
    assert FromFrame(c', f, u, what);
  }

  lemma OriginKept(c: State, c': State, r: Reply)
    requires Grows(c, c') && Origin(c, r)
    ensures Origin(c', r)
  {
    if FromServer(c, r.unique, r.what) {
      FromServerKept(c, c', r.unique, r.what);
    } else if LeftOver(c, r.unique) && r.what == KError(EINTR) {
      assert LeftOver(c', r.unique);
    }
  }

  lemma NoneReplied(c: State, c': State)
    requires RepliesTraced(c) && Grows(c, c') && c'.replies == c.replies
    ensures RepliesTraced(c')
  {
    forall i | 0 <= i < |c.replies| ensures Origin(c', c.replies[i]) {
      OriginKept(c, c', c.replies[i]);
    }
  }

  lemma OneReplied(c: State, c': State, r: Reply)
    requires RepliesTraced(c) && Grows(c, c') && c'.replies == c.replies + [r] && Origin(c', r)
    ensures RepliesTraced(c')
  {
    forall i | 0 <= i < |c.replies| ensures Origin(c', c.replies[i]) {
      OriginKept(c, c', c.replies[i]);
    }
  }

  lemma HandKept(c: State, c': State)
    requires HandTraced(c) && Grows(c, c') && c'.rx == c.rx
    ensures HandTraced(c')
  {
    if c.rx.RxClosing? { FromServerKept(c, c', c.rx.entry.unique, KError(0)); }
  }

  lemma SubmitTraced(c: State, u: Unique, r: P.Request, app: App)
    requires Traced(c) && KindOf(r).Some? && c.nextSeq <= r.sequence && !c.rx.RxDone?
    ensures Traced(Submit(c, u, r, app))
  {
    var c' := Submit(c, u, r, app);
    assert Grows(c, c');
    NoneReplied(c, c');
    HandKept(c, c');
  }

  lemma ReceiveTraced(c: State, f: R.Frame)
    requires Traced(c) && c.rx.RxLoop?
    ensures Traced(Receive(c, f))
  {
    ReceiveGrows(c, f);
    GotTraced(c, Receive(c, f));
  }

  /** What receiving a frame leaves alone, and where the thread then is. */
  ghost predicate GotOnly(c: State, c': State) {
    && Grows(c, c') && c'.replies == c.replies
    && c'.asked == c.asked && c'.table == c.table && c'.nextSeq == c.nextSeq
    && (c'.rx.RxGot? ==> c'.rx.frame in c'.got) && !c'.rx.RxReply? && !c'.rx.RxClosing?
  }

  lemma ReceiveGrows(c: State, f: R.Frame)
    requires c.rx.RxLoop?
    ensures GotOnly(c, Receive(c, f))
  {
    ReceiveOnly(c, f);
    GotStep(c, f, Receive(c, f).rx, Receive(c, f).notified);
  }

  lemma GotStep(c: State, f: R.Frame, rx: Rx, notified: seq<nat>)
    requires c.rx.RxLoop? && (rx == RxGot(f) || rx.RxLeft? || rx.RxLoop?)
    ensures GotOnly(c, c.(got := c.got + [f], rx := rx, notified := notified))
  {
    assert f == (c.got + [f])[|c.got|];
  }

  lemma GotTraced(c: State, c': State)
    requires Traced(c) && GotOnly(c, c')
    ensures Traced(c')
  {
    NoneReplied(c, c');
  }

  lemma TakeOutTraced(c: State)
    requires Traced(c) && c.rx.RxGot? && c.rx.frame.sequence in c.table
    ensures Traced(TakeOut(c))
  {
    NoneReplied(c, TakeOut(c));
  }

  lemma HandleResponseTraced(c: State)
    requires Traced(c) && c.rx.RxReply? && Convert(c.host, c.rx.entry.kind, c.rx.body).Some?
    ensures Traced(HandleResponse(c))
  {
    var e, body := c.rx.entry, c.rx.body;
    var what := Convert(c.host, e.kind, body).value;
    var f :| f in c.got && f.body == body && EntryFor(c, f.sequence, e);
    assert FromFrame(c, f, e.unique, what);
    if e.kind.KRelease? && body.Done? {
      ClosingTraced(c, e);
    } else {
      AnswerTraced(c, e.unique, what);
    }
  }

  lemma AnswerTraced(c: State, u: Unique, what: KernelReply)
    requires Traced(c) && FromServer(c, u, what) && !c.rx.RxDone?
    ensures Traced(Answer(c.(rx := RxLoop), u, what))
  {
    var c' := Answer(c.(rx := RxLoop), u, what);
    FromServerKept(c, c', u, what);
    OneReplied(c, c', Reply(u, what));
  }

  lemma ClosingTraced(c: State, e: Entry)
    requires Traced(c) && FromServer(c, e.unique, KError(0)) && !c.rx.RxDone?
    ensures Traced(c.(closed := true, rx := RxClosing(e)))
  {
    var c' := c.(closed := true, rx := RxClosing(e));
    FromServerKept(c, c', e.unique, KError(0));
    NoneReplied(c, c');
  }

  lemma CloseTraced(c: State)
    requires Traced(c) && c.rx.RxClosing?
    ensures Traced(Close(c))
  {
    AnswerTraced(c, c.rx.entry.unique, KError(0));
  }

  /** A reply of the client's own. */
  lemma LocalTraced(c: State, c': State, r: Reply)
    requires Traced(c) && Grows(c, c') && c'.rx == c.rx && c'.replies == c.replies + [r]
    requires c'.asked == c.asked && c'.table == c.table && c'.nextSeq == c.nextSeq
    requires (r.what == KError(EIO) && r.unique in c'.failed) || (r.what == KError(EINVAL) && r.unique in c'.rejected)
    ensures Traced(c')
  {
    OneReplied(c, c', r);
    HandKept(c, c');
  }

  /** Steps that answer nothing and ask nothing. */
  lemma QuietTraced(c: State, c': State)
    requires Traced(c) && Grows(c, c') && c'.replies == c.replies
    requires c'.asked == c.asked && c'.table == c.table && c'.nextSeq >= c.nextSeq
    requires c'.rx == c.rx || c'.rx.RxLeft? || c'.rx.RxShut?
    ensures Traced(c')
  {
    NoneReplied(c, c');
    if c'.rx == c.rx { HandKept(c, c'); }
  }

  lemma DrainTraced(c: State, order: seq<nat>)
    requires Traced(c) && c.rx.RxShut? && forall i :: 0 <= i < |order| ==> order[i] in c.table
    ensures Traced(Drain(c, order))
  {
    var c' := Drain(c, order);
    var n := |c.replies|;
    forall i | 0 <= i < |c'.replies| ensures Origin(c', c'.replies[i]) {
      if i < n {
        OriginKept(c, c', c.replies[i]);
      } else {
        assert c'.replies[i] == Reply(c.table[order[i - n]].unique, KError(EINTR));
        assert LeftOver(c', c'.replies[i].unique);
      }
    }
  }

  // ---- sent, failed and rejected requests ----

  /** Every request handed in is sent once, or its send failed, or it was rejected. */
  ghost predicate Apart(c: State) {
    && (forall q :: q in c.asked ==>
          var u := c.asked[q].unique; u in c.handed && u !in c.failed && u !in c.rejected)
    && (forall p, q :: p in c.asked && q in c.asked && p != q ==> c.asked[p].unique != c.asked[q].unique)
    && (forall u :: u in c.failed ==> u in c.handed && u !in c.rejected)
    && (forall u :: u in c.rejected ==> u in c.handed)
    && (forall u :: u in c.failing ==> u in c.failed)
  }

  lemma SubmitApart(c: State, u: Unique, r: P.Request, app: App)
    requires Apart(c) && u !in c.handed && KindOf(r).Some?
    ensures Apart(Submit(c, u, r, app))
  {
    var c' := Submit(c, u, r, app);
    assert u in c'.handed by { assert c'.handed[|c.handed|] == u; }
  }

  lemma FailApart(c: State, u: Unique, sequence: nat)
    requires Apart(c) && u !in c.handed
    ensures Apart(SubmitFails(c, u, sequence))
  {
    var c' := SubmitFails(c, u, sequence);
    assert u in c'.handed by { assert c'.handed[|c.handed|] == u; }
    assert u in c'.failed by { assert c'.failed[|c.failed|] == u; }
  }

  lemma RejectApart(c: State, u: Unique)
    requires Apart(c) && u !in c.handed
    ensures Apart(Reject(c, u))
  {
    var c' := Reject(c, u);
    assert u in c'.handed by { assert c'.handed[|c.handed|] == u; }
  }

  lemma EioApart(c: State, i: nat)
    requires Apart(c) && i < |c.failing|
    ensures Apart(EioReply(c, i)) && c.failing[i] in c.failed
  {
    forall u | u in Remove(c.failing, i) ensures u in c.failing {
      var k :| 0 <= k < |Remove(c.failing, i)| && Remove(c.failing, i)[k] == u;
      assert u == c.failing[if k < i then k else k + 1];
    }
  }

  lemma SameApart(c: State, c': State)
    requires Apart(c)
    requires c'.handed == c.handed && c'.asked == c.asked && c'.failing == c.failing
    requires c'.failed == c.failed && c'.rejected == c.rejected
    ensures Apart(c')
  {
  }

  /** What a reply says about its request: it was sent, its send failed, or it was rejected. */
  lemma OriginDecides(c: State, r: Reply)
    requires Apart(c) && AskedWell(c) && Origin(c, r)
    ensures (exists q :: q in c.asked && c.asked[q].unique == r.unique) ==>
              FromServer(c, r.unique, r.what) || (r.what == KError(EINTR) && LeftOver(c, r.unique))
    ensures r.unique in c.failed ==> r.what == KError(EIO)
    ensures r.unique in c.rejected ==> r.what == KError(EINVAL)
    ensures r.unique in c.failed || r.unique in c.rejected
            || exists q :: q in c.asked && c.asked[q].unique == r.unique
  {
    if FromServer(c, r.unique, r.what) {
      var f :| f in c.got && FromFrame(c, f, r.unique, r.what);
      assert f.sequence in c.asked && c.asked[f.sequence].unique == r.unique;
    } else if r.what == KError(EINTR) && LeftOver(c, r.unique) {
      var q :| q in c.table && c.table[q].unique == r.unique;
      assert EntryFor(c, q, c.table[q]);
    }
  }
}
