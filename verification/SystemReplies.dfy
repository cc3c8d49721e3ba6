/**
 The order of data replies: with blocking reads only, the kernel gets its data replies in the
 order in which it handed the reads in.
 */
module SystemReplies {
  import opened Base
  import P = Protocol
  import R = Responses
  import C = Client
  import L = ClientLedger
  import Spec = ReadSpec
  import Read = ReadScheduler
  import ReadProperties
  import opened System
  import opened SystemFlow
  import opened SystemOrder
  import opened SystemCarried
  import opened SystemWrites

  type Asks = map<nat, C.Ask>

  // ---- frames with data, and what they were asked by ----

  function DataFrame(f: R.Frame): seq<nat> { if f.sequence != 0 && f.body.Bytes? then [f.sequence] else [] }

  function DataFrames(fs: seq<R.Frame>): seq<nat> {
    if fs == [] then [] else DataFrames(fs[..|fs| - 1]) + DataFrame(fs[|fs| - 1])
  }

  /** The requests that were sent with these numbers. */
  function AskedBy(asked: Asks, qs: seq<nat>): (us: seq<nat>)
    ensures |us| == |qs|
    ensures forall i :: 0 <= i < |qs| ==> us[i] == if qs[i] in asked then asked[qs[i]].unique else 0
  {
    seq(|qs|, i requires 0 <= i < |qs| => if qs[i] in asked then asked[qs[i]].unique else 0)
  }

  predicate AllAsked(asked: Asks, qs: seq<nat>) {
    forall i :: 0 <= i < |qs| ==> qs[i] in asked
  }

  /** The requests that got data, in the order of their replies. */
  function DataUniques(rs: seq<C.Reply>): seq<nat> {
    if rs == [] then []
    else DataUniques(rs[..|rs| - 1]) + if rs[|rs| - 1].what.KData? then [rs[|rs| - 1].unique] else []
  }

  /** The request that the receiving thread holds data for. */
  function HeldFor(asked: Asks, rx: C.Rx): seq<nat> {
    match rx
    case RxGot(f) => AskedBy(asked, DataFrame(f))
    case RxReply(e, body) => if body.Bytes? then [e.unique] else []
    case _ => []
  }

  ghost predicate AnsweredInOrder(c: C.State) {
    && AllAsked(c.asked, DataFrames(c.got))
    && AskedBy(c.asked, DataFrames(c.got)) == DataUniques(c.replies) + HeldFor(c.asked, c.rx)
  }

  ghost predicate ServedInOrder(s: State) {
    BlockingOnly(s.client.sent) ==>
      DataFrames(Outbox(s)) == ReadProperties.Sequences(Spec.Served(s.server.read.answers))
  }

  ghost predicate HandedInOrder(c: C.State) {
    AllAsked(c.asked, DataSeqs(c.sent)) && Subsequence(AskedBy(c.asked, DataSeqs(c.sent)), c.handed)
  }

  lemma DataFramesSnoc(fs: seq<R.Frame>, f: R.Frame)
    ensures DataFrames(fs + [f]) == DataFrames(fs) + DataFrame(f)
  {
    assert (fs + [f])[..|fs|] == fs;
  }

  lemma DataUniquesSnoc(rs: seq<C.Reply>, r: C.Reply)
    ensures DataUniques(rs + [r]) == DataUniques(rs) + if r.what.KData? then [r.unique] else []
  {
    assert (rs + [r])[..|rs|] == rs;
  }

  lemma {:induction false} DataUniquesErrors(rs: seq<C.Reply>, more: seq<C.Reply>)
    requires forall i :: 0 <= i < |more| ==> more[i].what.KError?
    ensures DataUniques(rs + more) == DataUniques(rs)
  {
    if more == [] {
      assert rs + more == rs;
    } else {
      var n := |more| - 1;
      assert rs + more == (rs + more[..n]) + [more[n]];
      DataUniquesSnoc(rs + more[..n], more[n]);
      DataUniquesErrors(rs, more[..n]);
    }
  }

  lemma AskedByConcat(asked: Asks, a: seq<nat>, b: seq<nat>)
    ensures AskedBy(asked, a + b) == AskedBy(asked, a) + AskedBy(asked, b)
  {
  }

  lemma AskedByGrows(asked: Asks, asked': Asks, qs: seq<nat>)
    requires AllAsked(asked, qs) && forall q :: q in asked ==> q in asked' && asked'[q] == asked[q]
    ensures AllAsked(asked', qs) && AskedBy(asked', qs) == AskedBy(asked, qs)
  {
  }

  // ---- the client's steps ----

  lemma SubmitAnswered(c: C.State, u: nat, r: P.Request, app: C.App)
    requires AnsweredInOrder(c) && L.HandTraced(c) && C.KindOf(r).Some? && r.sequence !in c.asked
    requires c.rx.RxGot? ==> c.rx.frame.sequence in c.asked
    ensures AnsweredInOrder(C.Submit(c, u, r, app))
  {
    var asked' := C.Submit(c, u, r, app).asked;
    AskedByGrows(c.asked, asked', DataFrames(c.got));
    if c.rx.RxGot? { AskedByGrows(c.asked, asked', DataFrame(c.rx.frame)); }
  }

  lemma ReceiveAnswered(c: C.State, f: R.Frame)
    requires AnsweredInOrder(c) && c.rx.RxLoop? && (f.sequence != 0 ==> f.sequence in c.asked)
    ensures AnsweredInOrder(C.Receive(c, f))
  {
    C.ReceiveOnly(c, f);
    GotMore(c.asked, c.got, f);
    var us := DataUniques(c.replies);
    assert us + [] == us;
  }

  lemma GotMore(asked: Asks, got: seq<R.Frame>, f: R.Frame)
    requires AllAsked(asked, DataFrames(got)) && (f.sequence != 0 ==> f.sequence in asked)
    ensures AllAsked(asked, DataFrames(got + [f]))
    ensures AskedBy(asked, DataFrames(got + [f])) == AskedBy(asked, DataFrames(got)) + AskedBy(asked, DataFrame(f))
    ensures f.sequence == 0 ==> AskedBy(asked, DataFrame(f)) == []
  {
    DataFramesSnoc(got, f);
    AskedByConcat(asked, DataFrames(got), DataFrame(f));
  }

  lemma TakeOutAnswered(c: C.State)
    requires AnsweredInOrder(c) && L.AskedWell(c) && c.rx.RxGot?
    requires c.rx.frame.sequence in c.table && c.rx.frame.sequence != 0
    ensures AnsweredInOrder(C.TakeOut(c))
  {
    var q := c.rx.frame.sequence;
    assert L.EntryFor(c, q, c.table[q]);
  }

  /** The request in hand is answered; with data exactly if its response has data. */
  lemma ReplyAnswered(c: C.State, u: nat, what: C.KernelReply)
    requires AnsweredInOrder(c) && HeldFor(c.asked, c.rx) == if what.KData? then [u] else []
    ensures AnsweredInOrder(C.Answer(c.(rx := C.RxLoop), u, what))
  {
    DataUniquesSnoc(c.replies, C.Reply(u, what));
    var us := DataUniques(c.replies + [C.Reply(u, what)]);
    assert us + [] == us;
  }

  lemma HandleResponseAnswered(c: C.State)
    requires AnsweredInOrder(c) && c.rx.RxReply? && C.Convert(c.host, c.rx.entry.kind, c.rx.body).Some?
    ensures AnsweredInOrder(C.HandleResponse(c))
  {
    var e, body := c.rx.entry, c.rx.body;
    ConvertKinds(c.host, e.kind, body);
    if !(e.kind.KRelease? && body.Done?) {
      ReplyAnswered(c, e.unique, C.Convert(c.host, e.kind, body).value);
    }
  }

  /** Steps that answer with errors only and hold nothing. */
  lemma ErrorsAnswered(c: C.State, c': C.State, more: seq<C.Reply>)
    requires AnsweredInOrder(c) && c'.got == c.got && c'.asked == c.asked && c'.replies == c.replies + more
    requires forall i :: 0 <= i < |more| ==> more[i].what.KError?
    requires HeldFor(c'.asked, c'.rx) == HeldFor(c.asked, c.rx)
    ensures AnsweredInOrder(c')
  {
    DataUniquesErrors(c.replies, more);
  }

  lemma SubmitHanded(c: C.State, u: nat, r: P.Request, app: C.App)
    requires HandedInOrder(c) && C.KindOf(r).Some? && r.sequence !in c.asked
    ensures HandedInOrder(C.Submit(c, u, r, app))
  {
    var c', qs := C.Submit(c, u, r, app), DataSeqs(c.sent);
    DataSeqsSnoc(c.sent, r);
    AskedByGrows(c.asked, c'.asked, qs);
    AskedByConcat(c'.asked, qs, [r.sequence]);
    assert AskedBy(c'.asked, [r.sequence]) == [u];
    SubsequenceExtend(AskedBy(c.asked, qs), c.handed, u);
  }

  lemma MoreHanded(c: C.State, c': C.State)
    requires HandedInOrder(c) && c'.asked == c.asked && DataSeqs(c'.sent) == DataSeqs(c.sent)
    requires c'.handed == c.handed || exists u :: c'.handed == c.handed + [u]
    ensures HandedInOrder(c')
  {
    if c'.handed != c.handed {
      var u :| c'.handed == c.handed + [u];
      assert c'.handed[..|c'.handed| - 1] == c.handed;
    }
  }

  // ---- the server's steps ----

  /** A frame is sent, and the scheduler's log of served reads grows alike. */
  lemma SendServed(s: State, t: State, f: R.Frame)
    requires ServedInOrder(s) && t.client == s.client && t.s2c == s.s2c + [f]
    requires BlockingOnly(s.client.sent) ==>
               ReadProperties.Sequences(Spec.Served(t.server.read.answers))
               == ReadProperties.Sequences(Spec.Served(s.server.read.answers)) + DataFrame(f)
    ensures ServedInOrder(t)
  {
    OutboxMore(s, t, [f]);
    DataFramesSnoc(Outbox(s), f);
  }

  lemma SameServed(s: State, t: State)
    requires ServedInOrder(s) && Outbox(t) == Outbox(s) && s.client.sent <= t.client.sent
    requires t.server.read.answers == s.server.read.answers
    ensures ServedInOrder(t)
  {
    BlockingPrefix(s.client.sent, t.client.sent);
  }

  lemma AnswerServed(s: State, t: State, x: Spec.Answer)
    requires ServedInOrder(s) && t.client == s.client && x.req.sequence > 0
    requires t.server.read.answers == s.server.read.answers + [x]
    requires t.s2c == s.s2c + ReadFrames(s.server.read, t.server.read)
    ensures ServedInOrder(t)
  {
    var answers := s.server.read.answers;
    assert ReadFrames(s.server.read, t.server.read) == [FrameOf(x)];
    Spec.AnsweredSnoc(answers, x);
    var served := Spec.Served(answers);
    if x.reply.Data? {
      assert ReadProperties.Sequences(served + [x.req]) == ReadProperties.Sequences(served) + [x.req.sequence];
    } else {
      assert served + [] == served;
      assert ReadProperties.Sequences(served) + [] == ReadProperties.Sequences(served);
    }
    SendServed(s, t, FrameOf(x));
  }

  lemma SchedulerServed(s: State, t: State, a: Read.Action)
    requires Flow(s) && Read.Reachable(s.server.read) && Read.Enabled(s.server.read, a) && !a.Push?
    requires ServedInOrder(s) && t.client == s.client && t.server.read == Read.Apply(s.server.read, a)
    requires t.s2c == s.s2c + ReadFrames(s.server.read, t.server.read)
    ensures ServedInOrder(t)
  {
    var read, after := s.server.read, t.server.read;
    AnswersGrow(read, a);
    if after.answers == read.answers {
      assert s.s2c + [] == s.s2c;
      SameServed(s, t);
    } else {
      var x: Spec.Answer :| x.req in Read.Waiting(read) && after.answers == read.answers + [x];
      WaitingPositive(s, x.req);
      AnswerServed(s, t, x);
    }
  }

  // ---- increasing numbers and subsequences ----

  lemma {:induction false} IncreasingPick(a: seq<nat>, b: seq<nat>)
    requires Increasing(a) && Increasing(b) && forall i :: 0 <= i < |a| ==> a[i] in b
    ensures Subsequence(a, b)
    decreases |b|
  {
    if a != [] {
      var m, n := |a| - 1, |b| - 1;
      assert a[m] in b;
      var k :| 0 <= k < |b| && b[k] == a[m];
      var b' := b[..n];
      if k == n {
        forall i | 0 <= i < m ensures a[..m][i] in b' {
          assert a[i] in b && a[i] < a[m];
          var j :| 0 <= j < |b| && b[j] == a[i];
          assert j < n && b'[j] == a[i];
        }
        IncreasingPick(a[..m], b');
      } else {
        forall i | 0 <= i < |a| ensures a[i] in b' {
          assert a[i] in b && a[i] <= a[m] < b[n];
          var j :| 0 <= j < |b| && b[j] == a[i];
          assert j < n && b'[j] == a[i];
        }
        IncreasingPick(a, b');
      }
    }
  }

  lemma {:induction false} SubsequenceIncreases(a: seq<nat>, b: seq<nat>)
    requires Subsequence(a, b) && Increasing(b)
    ensures Increasing(a)
    decreases |b|
  {
    if a != [] {
      var m, n := |a| - 1, |b| - 1;
      if Subsequence(a, b[..n]) {
        SubsequenceIncreases(a, b[..n]);
      } else {
        SubsequenceIncreases(a[..m], b[..n]);
        forall i | 0 <= i < m ensures a[i] < a[m] {
          SubsequenceMember(a[..m], b[..n], a[..m][i]);
          var j :| 0 <= j < n && b[..n][j] == a[i];
        }
      }
    }
  }

  lemma {:induction false} SubsequenceAsked(asked: Asks, a: seq<nat>, b: seq<nat>)
    requires Subsequence(a, b)
    ensures Subsequence(AskedBy(asked, a), AskedBy(asked, b))
    decreases |b|
  {
    if a != [] {
      var m, n := |a| - 1, |b| - 1;
      var x, y := AskedBy(asked, a), AskedBy(asked, b);
      assert y[..n] == AskedBy(asked, b[..n]);
      if Subsequence(a, b[..n]) {
        SubsequenceAsked(asked, a, b[..n]);
      } else {
        assert x[..m] == AskedBy(asked, a[..m]);
        SubsequenceAsked(asked, a[..m], b[..n]);
      }
    }
  }

  lemma {:induction false} SubsequenceTrans<T>(a: seq<T>, b: seq<T>, c: seq<T>)
    requires Subsequence(a, b) && Subsequence(b, c)
    ensures Subsequence(a, c)
    decreases |c|
  {
    if a != [] {
      var c' := c[..|c| - 1];
      if Subsequence(b, c') {
        SubsequenceTrans(a, b, c');
      } else {
        var b' := b[..|b| - 1];
        if Subsequence(a, b') {
          SubsequenceTrans(a, b', c');
        } else {
          SubsequenceTrans(a[..|a| - 1], b', c');
        }
      }
    }
  }

  lemma {:induction false} PrefixSubsequence<T>(a: seq<T>, b: seq<T>)
    requires a <= b
    ensures Subsequence(a, b)
    decreases |b|
  {
    if |a| < |b| {
      PrefixSubsequence(a, b[..|b| - 1]);
    } else if a != [] {
      PrefixSubsequence(a[..|a| - 1], b[..|b| - 1]);
    }
  }

  lemma {:induction false} SubsequenceSequences(a: seq<Read.Req>, b: seq<Read.Req>)
    requires Subsequence(a, b)
    ensures Subsequence(ReadProperties.Sequences(a), ReadProperties.Sequences(b))
    decreases |b|
  {
    if a != [] {
      var m, n := |a| - 1, |b| - 1;
      var x, y := ReadProperties.Sequences(a), ReadProperties.Sequences(b);
      assert y[..n] == ReadProperties.Sequences(b[..n]);
      if Subsequence(a, b[..n]) {
        SubsequenceSequences(a, b[..n]);
      } else {
        assert x[..m] == ReadProperties.Sequences(a[..m]);
        SubsequenceSequences(a[..m], b[..n]);
      }
    }
  }
}
