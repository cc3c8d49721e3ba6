/**
 Order on one connection: what the client sends, and the order in which the server's read
 scheduler sees blocking reads.
 */
module SystemOrder {
  import P = Protocol
  import C = Client
  import ReadProperties
  import opened System
  import opened SystemFlow

  predicate Increasing(qs: seq<nat>) {
    forall i, j :: 0 <= i < j < |qs| ==> qs[i] < qs[j]
  }

  predicate Below(qs: seq<nat>, n: nat) {
    forall i :: 0 <= i < |qs| ==> qs[i] < n
  }

  lemma IncreasingSnoc(qs: seq<nat>, q: nat)
    requires Increasing(qs) && Below(qs, q)
    ensures Increasing(qs + [q]) && Below(qs + [q], q + 1)
  {
  }

  lemma IncreasingDrop(a: seq<nat>, b: seq<nat>, c: seq<nat>, n: nat)
    requires Increasing(a + b + c) && Below(a + b + c, n)
    ensures Increasing(a + c) && Below(a + c, n)
  {
    var s, t := a + b + c, a + c;
    forall i, j | 0 <= i < j < |t| ensures t[i] < t[j] {
      var i' := if i < |a| then i else i + |b|;
      var j' := if j < |a| then j else j + |b|;
      assert t[i] == s[i'] && t[j] == s[j'];
    }
    forall i | 0 <= i < |t| ensures t[i] < n {
      assert t[i] == s[if i < |a| then i else i + |b|];
    }
  }

  // ---- the client's side of the wire ----

  /** Each interrupt names a request sent before it. */
  predicate NamesEarlier(rs: seq<P.Request>) {
    forall i :: 0 <= i < |rs| && rs[i].Interrupt? ==> rs[i].sequence in DataSeqs(rs[..i])
  }

  ghost predicate WireInv(c: C.State) {
    var qs := DataSeqs(c.sent);
    && Increasing(qs) && Below(qs, c.nextSeq) && NamesEarlier(c.sent)
    && (forall i :: 0 <= i < |c.looked| ==> c.looked[i] in qs)
    && (forall q :: q in c.table ==> q in qs)
    && (forall q :: q in c.asked ==> q in qs)
  }

  lemma NamesEarlierSnoc(rs: seq<P.Request>, r: P.Request)
    requires NamesEarlier(rs) && (r.Interrupt? ==> r.sequence in DataSeqs(rs))
    ensures NamesEarlier(rs + [r])
  {
    var all := rs + [r];
    forall i | 0 <= i < |all| && all[i].Interrupt? ensures all[i].sequence in DataSeqs(all[..i]) {
      assert all[..i] == if i < |rs| then rs[..i] else rs;
    }
  }

  lemma SubmitWire(c: C.State, u: nat, r: P.Request, app: C.App)
    requires WireInv(c) && C.KindOf(r).Some? && c.nextSeq <= r.sequence
    ensures WireInv(C.Submit(c, u, r, app))
  {
    DataSeqsSnoc(c.sent, r);
    IncreasingSnoc(DataSeqs(c.sent), r.sequence);
    NamesEarlierSnoc(c.sent, r);
    assert r.sequence in DataSeqs(c.sent) + [r.sequence];
  }

  lemma IntrSendWire(s: State, i: nat)
    requires WireInv(s.client) && i < |s.client.looked|
    ensures WireInv(IntrSendStep(s, i).client)
  {
    var c := s.client;
    var r := P.Interrupt(c.looked[i]);
    DataSeqsSnoc(c.sent, r);
    assert DataSeqs(c.sent) + [] == DataSeqs(c.sent);
    NamesEarlierSnoc(c.sent, r);
  }

  /** Steps that send nothing, and look up at most a number of the table. */
  lemma SilentWire(c: C.State, c': C.State)
    requires WireInv(c) && c'.sent == c.sent && c'.nextSeq >= c.nextSeq
    requires c'.asked == c.asked && forall q :: q in c'.table ==> q in c.table
    requires forall i :: 0 <= i < |c'.looked| ==> c'.looked[i] in c.looked || c'.looked[i] in c.table
    ensures WireInv(c')
  {
  }

  // ---- requests of one kind on their way to where the server notes them ----

  type Pick = P.Request -> bool

  function PickSeq(pick: Pick, r: P.Request): seq<nat> { if pick(r) then [r.sequence] else [] }

  function PickSeqs(pick: Pick, rs: seq<P.Request>): seq<nat> {
    if rs == [] then [] else PickSeq(pick, rs[0]) + PickSeqs(pick, rs[1..])
  }

  function BusyPick(pick: Pick, m: Main): seq<nat> { if m.Busy? then PickSeq(pick, m.req) else [] }

  /** What is noted, what the main thread holds and what is on its way strictly increases. */
  ghost predicate InLine(pick: Pick, noted: seq<nat>, s: State) {
    var line := noted + BusyPick(pick, s.server.main) + PickSeqs(pick, s.c2s);
    Increasing(line) && Below(line, s.client.nextSeq)
  }

  lemma {:induction false} PickSeqsSnoc(pick: Pick, rs: seq<P.Request>, r: P.Request)
    ensures PickSeqs(pick, rs + [r]) == PickSeqs(pick, rs) + PickSeq(pick, r)
  {
    var all := rs + [r];
    if rs == [] {
      assert all[1..] == [] && PickSeqs(pick, all) == PickSeq(pick, r) + [];
      assert PickSeqs(pick, rs) == [];
    } else {
      assert all[0] == rs[0] && all[1..] == rs[1..] + [r];
      PickSeqsSnoc(pick, rs[1..], r);
      assert PickSeqs(pick, all) == PickSeq(pick, rs[0]) + (PickSeqs(pick, rs[1..]) + PickSeq(pick, r));
    }
  }

  /** Something is sent; a request of the kind takes a fresh number. */
  lemma SendLine(pick: Pick, noted: seq<nat>, s: State, t: State, r: P.Request)
    requires InLine(pick, noted, s)
    requires t.server == s.server && t.c2s == s.c2s + [r] && t.client.nextSeq >= s.client.nextSeq
    requires pick(r) ==> s.client.nextSeq <= r.sequence < t.client.nextSeq
    ensures InLine(pick, noted, t)
  {
    var front := noted + BusyPick(pick, s.server.main);
    PickSeqsSnoc(pick, s.c2s, r);
    assert front + (PickSeqs(pick, s.c2s) + PickSeq(pick, r)) == front + PickSeqs(pick, s.c2s) + PickSeq(pick, r);
    if pick(r) { IncreasingSnoc(front + PickSeqs(pick, s.c2s), r.sequence); }
  }

  lemma TakeLine(pick: Pick, noted: seq<nat>, s: State)
    requires InLine(pick, noted, s) && s.c2s != [] && s.server.main.Receiving?
    ensures InLine(pick, noted, TakeStep(s))
  {
    var b, c := PickSeq(pick, s.c2s[0]), PickSeqs(pick, s.c2s[1..]);
    assert noted + [] + (b + c) == noted + b + c;
  }

  /** The main thread is done with its request without noting it. */
  lemma DropLine(pick: Pick, noted: seq<nat>, s: State, t: State)
    requires InLine(pick, noted, s) && t.client == s.client && t.c2s == s.c2s
    requires BusyPick(pick, t.server.main) == []
    ensures InLine(pick, noted, t)
  {
    var b, c := BusyPick(pick, s.server.main), PickSeqs(pick, s.c2s);
    IncreasingDrop(noted, b, c, s.client.nextSeq);
    assert noted + [] + c == noted + c;
  }

  /** The main thread notes its request. */
  lemma NoteLine(pick: Pick, noted: seq<nat>, s: State, t: State)
    requires InLine(pick, noted, s) && t.client == s.client && t.c2s == s.c2s && !t.server.main.Busy?
    requires s.server.main.Busy? && pick(s.server.main.req)
    ensures InLine(pick, noted + [s.server.main.req.sequence], t)
  {
    var q, c := s.server.main.req.sequence, PickSeqs(pick, s.c2s);
    assert noted + [q] + [] + c == noted + [q] + c;
  }

  lemma SameLine(pick: Pick, noted: seq<nat>, s: State, t: State)
    requires InLine(pick, noted, s) && t.c2s == s.c2s && t.client.nextSeq >= s.client.nextSeq
    requires t.server.main == s.server.main
    ensures InLine(pick, noted, t)
  {
  }

  /** What is noted strictly increases by itself. */
  lemma NotedIncreases(pick: Pick, noted: seq<nat>, s: State)
    requires InLine(pick, noted, s)
    ensures Increasing(noted)
  {
    var line := noted + BusyPick(pick, s.server.main) + PickSeqs(pick, s.c2s);
    forall i, j | 0 <= i < j < |noted| ensures noted[i] < noted[j] {
      assert noted[i] == line[i] && noted[j] == line[j];
    }
  }

  // ---- blocking reads ----

  predicate Blocking(r: P.Request) { r.Read? && !IsNonblock(r.flags) }

  function Arrived(s: State): seq<nat> { ReadProperties.Sequences(s.server.read.arrivals) }

  ghost predicate ArrivalInv(s: State) {
    InLine(Blocking, Arrived(s), s)
  }

  // ---- what reaches the server was sent ----

  ghost predicate WasSent(s: State) {
    var sent, c2s := s.client.sent, s.c2s;
    && |c2s| <= |sent| && c2s == sent[|sent| - |c2s|..]
    && (s.server.main.Busy? ==> s.server.main.req in sent)
  }

  lemma SendWas(s: State, t: State, r: P.Request)
    requires WasSent(s) && t.server == s.server && t.c2s == s.c2s + [r] && t.client.sent == s.client.sent + [r]
    ensures WasSent(t)
  {
    var sent, c2s := s.client.sent, s.c2s;
    assert (sent + [r])[|sent| - |c2s|..] == sent[|sent| - |c2s|..] + [r];
  }

  lemma TakeWas(s: State)
    requires WasSent(s) && s.c2s != []
    ensures WasSent(TakeStep(s))
  {
    var sent, c2s := s.client.sent, s.c2s;
    assert c2s[0] == sent[|sent| - |c2s|];
    assert c2s[1..] == sent[|sent| - |c2s| + 1..];
  }

  /** What was sent for a request is what its history says. */
  ghost predicate SentAsked(c: C.State) {
    forall i :: 0 <= i < |c.sent| && !c.sent[i].Interrupt? ==>
      c.sent[i].sequence in c.asked && c.asked[c.sent[i].sequence].req == c.sent[i]
  }

  lemma SubmitAsked(c: C.State, u: nat, r: P.Request, app: C.App)
    requires SentAsked(c) && C.KindOf(r).Some? && r.sequence !in c.asked
    ensures SentAsked(C.Submit(c, u, r, app))
  {
  }
}
