/**
 The flow of sequence numbers through a connection: every number that is under way belongs
 to exactly one entry of the client's table, and what is under way fits that entry.
 */
module SystemFlow {
  import opened Base
  import opened Endian
  import opened IoctlNumber
  import opened IoctlArg
  import P = Protocol
  import R = Responses
  import C = Client
  import Read = ReadScheduler
  import ReadProperties
  import Poll = PollServer
  import opened System

  type Table = map<nat, C.Entry>

  // ---- the numbers under way ----

  function DataSeq(r: P.Request): seq<nat> { if r.Interrupt? then [] else [r.sequence] }

  function DataSeqs(rs: seq<P.Request>): seq<nat> {
    if rs == [] then [] else DataSeq(rs[0]) + DataSeqs(rs[1..])
  }

  function FrameSeq(f: R.Frame): seq<nat> { if f.sequence == 0 then [] else [f.sequence] }

  function FrameSeqs(fs: seq<R.Frame>): seq<nat> {
    if fs == [] then [] else FrameSeq(fs[0]) + FrameSeqs(fs[1..])
  }

  function BusySeqs(m: Main): seq<nat> {
    if m.Busy? && !m.req.Interrupt? then [m.req.sequence] else []
  }

  function RxSeqs(rx: C.Rx): seq<nat> {
    if rx.RxGot? then [rx.frame.sequence] else []
  }

  function WaitSeqs(read: Read.State): seq<nat> {
    ReadProperties.Sequences(Read.Waiting(read))
  }

  type Bag = multiset<nat>

  function Total(a: Bag, b: Bag, c: Bag, d: Bag, e: Bag): Bag { a + b + c + d + e }

  /** Sent but not received, at the main thread, waiting to be read, answered, being looked up. */
  function InFlight(s: State): Bag {
    Total(multiset(DataSeqs(s.c2s)), multiset(BusySeqs(s.server.main)), multiset(WaitSeqs(s.server.read)),
          multiset(FrameSeqs(s.s2c)), multiset(RxSeqs(s.client.rx)))
  }

  // ---- what is under way fits the table ----

  ghost predicate Decoded(h: Host, r: P.Request) {
    r.Ioctl? ==> r.cmd < 0x1_0000_0000
                 && exists arg, data :: Decode(h, Repaired(r.cmd), arg, data, Cuse) == Success(r.arg)
  }

  ghost predicate Known(t: Table, h: Host, r: P.Request) {
    !r.Interrupt? ==>
      r.sequence in t && C.KindOf(r) == Some(t[r.sequence].kind) && Decoded(h, r)
  }

  ghost predicate Expected(t: Table, h: Host, f: R.Frame) {
    f.sequence != 0 ==> f.sequence in t && C.Convert(h, t[f.sequence].kind, f.body).Some?
  }

  ghost predicate RequestsKnown(t: Table, h: Host, rs: seq<P.Request>) {
    forall i :: 0 <= i < |rs| ==> Known(t, h, rs[i])
  }

  ghost predicate BusyKnown(t: Table, h: Host, m: Main) {
    m.Busy? ==> Known(t, h, m.req)
  }

  ghost predicate WaitingKnown(t: Table, qs: seq<nat>) {
    forall i :: 0 <= i < |qs| ==> qs[i] in t && t[qs[i]].kind.KRead?
  }

  ghost predicate FramesExpected(t: Table, h: Host, fs: seq<R.Frame>) {
    forall i :: 0 <= i < |fs| ==> Expected(t, h, fs[i])
  }

  ghost predicate RxExpected(t: Table, h: Host, rx: C.Rx) {
    match rx
    case RxGot(f) => f.sequence != 0 && Expected(t, h, f)
    case RxReply(e, body) => C.Convert(h, e.kind, body).Some?
    case _ => true
  }

  ghost predicate KeysBelow(t: Table, n: nat) {
    forall q :: q in t ==> 0 < q < n
  }

  /** Every number under way is in the table, and under way only once. */
  ghost predicate Numbers(s: State) {
    && InFlight(s) <= multiset(s.client.table.Keys)
    && KeysBelow(s.client.table, s.client.nextSeq) && s.client.nextSeq > 0
  }

  ghost predicate Fits(s: State) {
    var t, h := s.client.table, s.client.host;
    && RequestsKnown(t, h, s.c2s)
    && BusyKnown(t, h, s.server.main)
    && WaitingKnown(t, WaitSeqs(s.server.read))
    && FramesExpected(t, h, s.s2c)
    && RxExpected(t, h, s.client.rx)
    && !s.client.lost
  }

  ghost predicate Flow(s: State) {
    Numbers(s) && Fits(s)
  }

  /** The server's components move only as their own transition systems do. */
  ghost predicate Parts(s: State) {
    var sv := s.server;
    && Read.Reachable(sv.read) && Poll.Reachable(sv.poll)
    && (sv.read.owed <==> sv.main.Syncing?)
    && (sv.poll.main.Checked? <==> sv.main.Registering?)
  }

  // ---- bags ----

  lemma BagCons(q: nat, qs: seq<nat>)
    ensures multiset([q] + qs) == multiset{q} + multiset(qs)
    ensures multiset([q]) == multiset{q}
  {
  }

  /** A number entering with a new key. */
  lemma BagEnters(a: Bag, b: Bag, c: Bag, d: Bag, e: Bag, keys: set<nat>, q: nat)
    requires Total(a, b, c, d, e) <= multiset(keys) && q !in keys
    ensures Total(a + multiset{q}, b, c, d, e) <= multiset(keys + {q})
  {
    var all, more := Total(a, b, c, d, e), Total(a + multiset{q}, b, c, d, e);
    assert more == all + multiset{q};
    forall x ensures more[x] <= multiset(keys + {q})[x] {
      assert all[x] <= multiset(keys)[x];
    }
  }

  /** A number leaving with its key. */
  lemma BagLeaves(all: Bag, rest: Bag, keys: set<nat>, q: nat)
    requires all <= multiset(keys) && all == rest + multiset{q}
    ensures rest <= multiset(keys - {q})
  {
    forall x ensures rest[x] <= multiset(keys - {q})[x] {
      assert all[x] <= multiset(keys)[x];
    }
  }

  /** A number moving from the server's threads to the connection. */
  lemma BagAnswered(a: Bag, b: Bag, c: Bag, d: Bag, e: Bag, b': Bag, c': Bag, q: nat)
    requires b' + c' + multiset{q} == b + c
    ensures Total(a, b', c', d + multiset{q}, e) == Total(a, b, c, d, e)
  {
    assert Total(a, b', c', d + multiset{q}, e) == a + (b' + c' + multiset{q}) + d + e;
    assert Total(a, b, c, d, e) == a + (b + c) + d + e;
  }

  lemma BagHeld(a: Bag, b: Bag, c: Bag, d: Bag, e: Bag, b': Bag, c': Bag)
    requires b' + c' == b + c
    ensures Total(a, b', c', d, e) == Total(a, b, c, d, e)
  {
    assert Total(a, b', c', d, e) == a + (b' + c') + d + e;
    assert Total(a, b, c, d, e) == a + (b + c) + d + e;
  }

  /** A number moving from the connection to the receiving thread. */
  lemma BagReceived(a: Bag, b: Bag, c: Bag, d: Bag, q: nat)
    ensures Total(a, b, c, d, multiset{q}) == Total(a, b, c, multiset{q} + d, multiset{})
  {
  }

  // ---- lists ----

  lemma {:induction false} DataSeqsSnoc(rs: seq<P.Request>, r: P.Request)
    ensures DataSeqs(rs + [r]) == DataSeqs(rs) + DataSeq(r)
  {
    var all := rs + [r];
    if rs == [] {
      assert all[1..] == [] && DataSeqs(all) == DataSeq(r) + [];
      assert DataSeqs(rs) == [];
    } else {
      assert all[0] == rs[0] && all[1..] == rs[1..] + [r];
      DataSeqsSnoc(rs[1..], r);
      assert DataSeqs(all) == DataSeq(rs[0]) + (DataSeqs(rs[1..]) + DataSeq(r));
    }
  }

  lemma {:induction false} FrameSeqsSnoc(fs: seq<R.Frame>, f: R.Frame)
    ensures FrameSeqs(fs + [f]) == FrameSeqs(fs) + FrameSeq(f)
  {
    var all := fs + [f];
    if fs == [] {
      assert all[1..] == [] && FrameSeqs(all) == FrameSeq(f) + [];
      assert FrameSeqs(fs) == [];
    } else {
      assert all[0] == fs[0] && all[1..] == fs[1..] + [f];
      FrameSeqsSnoc(fs[1..], f);
      assert FrameSeqs(all) == FrameSeq(fs[0]) + (FrameSeqs(fs[1..]) + FrameSeq(f));
    }
  }

  lemma {:induction false} DataSeqsHas(rs: seq<P.Request>, i: nat)
    requires i < |rs| && !rs[i].Interrupt?
    ensures rs[i].sequence in DataSeqs(rs)
  {
    if i > 0 { DataSeqsHas(rs[1..], i - 1); }
  }

  lemma {:induction false} FrameSeqsHas(fs: seq<R.Frame>, i: nat)
    requires i < |fs| && fs[i].sequence != 0
    ensures fs[i].sequence in FrameSeqs(fs)
  {
    if i > 0 { FrameSeqsHas(fs[1..], i - 1); }
  }

  // ---- changing the table ----

  /** The tables agree on every number of the list. */
  ghost predicate Agree(t: Table, t': Table, qs: seq<nat>) {
    forall q :: q in qs && q in t ==> q in t' && t'[q] == t[q]
  }

  lemma RequestsMove(t: Table, t': Table, h: Host, rs: seq<P.Request>)
    requires RequestsKnown(t, h, rs) && Agree(t, t', DataSeqs(rs))
    ensures RequestsKnown(t', h, rs)
  {
    forall i | 0 <= i < |rs| ensures Known(t', h, rs[i]) {
      assert Known(t, h, rs[i]);
      if !rs[i].Interrupt? { DataSeqsHas(rs, i); }
    }
  }

  lemma FramesMove(t: Table, t': Table, h: Host, fs: seq<R.Frame>)
    requires FramesExpected(t, h, fs) && Agree(t, t', FrameSeqs(fs))
    ensures FramesExpected(t', h, fs)
  {
    forall i | 0 <= i < |fs| ensures Expected(t', h, fs[i]) {
      assert Expected(t, h, fs[i]);
      if fs[i].sequence != 0 { FrameSeqsHas(fs, i); }
    }
  }

  /** Numbers under way, seen as one list. */
  function Listed(s: State): seq<nat> {
    DataSeqs(s.c2s) + BusySeqs(s.server.main) + WaitSeqs(s.server.read) + FrameSeqs(s.s2c)
  }

  lemma TableMove(s: State, t': Table)
    requires Fits(s) && Agree(s.client.table, t', Listed(s))
    ensures RequestsKnown(t', s.client.host, s.c2s)
    ensures BusyKnown(t', s.client.host, s.server.main)
    ensures WaitingKnown(t', WaitSeqs(s.server.read))
    ensures FramesExpected(t', s.client.host, s.s2c)
  {
    var t, h, all := s.client.table, s.client.host, Listed(s);
    assert forall q :: q in DataSeqs(s.c2s) ==> q in all;
    assert forall q :: q in BusySeqs(s.server.main) ==> q in all;
    assert forall q :: q in WaitSeqs(s.server.read) ==> q in all;
    assert forall q :: q in FrameSeqs(s.s2c) ==> q in all;
    RequestsMove(t, t', h, s.c2s);
    FramesMove(t, t', h, s.s2c);
    var m := s.server.main;
    if m.Busy? && !m.req.Interrupt? { assert m.req.sequence in BusySeqs(m); }
  }

  lemma ListedInFlight(s: State, q: nat)
    requires q in Listed(s)
    ensures InFlight(s)[q] >= 1 + multiset(RxSeqs(s.client.rx))[q]
  {
    var a, b, c, d := DataSeqs(s.c2s), BusySeqs(s.server.main), WaitSeqs(s.server.read), FrameSeqs(s.s2c);
    assert multiset(a + b + c + d) == multiset(a) + multiset(b) + multiset(c) + multiset(d);
    assert q in multiset(a + b + c + d);
  }
}
