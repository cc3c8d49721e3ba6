/**
 Writes on one connection: what the device took is noted on the server, in the order and at
 most as often as the client sent it, and every count the client is told stands for a note.
 */
module SystemWrites {
  import opened Base
  import P = Protocol
  import R = Responses
  import C = Client
  import opened System
  import opened SystemOrder

  predicate IsWrite(r: P.Request) { r.Write? }

  function WrittenSeqs(ws: seq<Written>): (qs: seq<nat>)
    ensures |qs| == |ws| && forall i :: 0 <= i < |ws| ==> qs[i] == ws[i].sequence
  {
    seq(|ws|, i requires 0 <= i < |ws| => ws[i].sequence)
  }

  /** A note is about a write that was sent, and holds the bytes that write begins with. */
  ghost predicate TookWell(c: C.State, w: Written) {
    && w.sequence in c.asked && c.asked[w.sequence].req.Write?
    && var r := c.asked[w.sequence].req;
       && w.bytes <= r.data && w.offset == r.offset && P.WireLen(r) <= P.MAX_SZ
  }

  ghost predicate AllTook(c: C.State, ws: seq<Written>) {
    forall i :: 0 <= i < |ws| ==> TookWell(c, ws[i])
  }

  ghost predicate Noted(ws: seq<Written>, q: nat, n: nat) {
    exists i :: 0 <= i < |ws| && ws[i].sequence == q && |ws[i].bytes| == n
  }

  ghost predicate AllNoted(ws: seq<Written>, fs: seq<R.Frame>) {
    forall i :: 0 <= i < |fs| && fs[i].body.Wrote? ==> Noted(ws, fs[i].sequence, fs[i].body.size)
  }

  ghost predicate BusyFits(m: Main) {
    m.Busy? ==> P.WireLen(m.req) <= P.MAX_SZ
  }

  ghost predicate WriteInv(s: State) {
    var ws := s.server.written;
    InLine(IsWrite, WrittenSeqs(ws), s) && AllTook(s.client, ws) && AllNoted(ws, Outbox(s)) && BusyFits(s.server.main)
  }

  lemma NotedMore(ws: seq<Written>, ws': seq<Written>, fs: seq<R.Frame>, more: seq<R.Frame>)
    requires AllNoted(ws, fs) && ws <= ws'
    requires forall i :: 0 <= i < |more| && more[i].body.Wrote? ==> Noted(ws', more[i].sequence, more[i].body.size)
    ensures AllNoted(ws', fs + more)
  {
    var all := fs + more;
    forall i | 0 <= i < |all| && all[i].body.Wrote? ensures Noted(ws', all[i].sequence, all[i].body.size) {
      if i < |fs| {
        assert Noted(ws, fs[i].sequence, fs[i].body.size);
        var k :| 0 <= k < |ws| && ws[k].sequence == fs[i].sequence && |ws[k].bytes| == fs[i].body.size;
        assert ws'[k] == ws[k];
      } else {
        assert all[i] == more[i - |fs|];
      }
    }
  }

  /** What the server sends is appended to everything it sent. */
  lemma OutboxMore(s: State, t: State, more: seq<R.Frame>)
    requires t.client.got == s.client.got && t.s2c == s.s2c + more
    ensures Outbox(t) == Outbox(s) + more
  {
    Associate(s.client.got, s.s2c, more);
  }

  lemma OutboxReceived(s: State)
    requires s.s2c != []
    ensures Outbox(RecvStep(s)) == Outbox(s)
  {
    assert RecvStep(s).client.got == s.client.got + [s.s2c[0]];
    assert s.s2c == [s.s2c[0]] + s.s2c[1..];
    Associate(s.client.got, [s.s2c[0]], s.s2c[1..]);
  }

  lemma TookMore(c: C.State, c': C.State, ws: seq<Written>)
    requires AllTook(c, ws) && forall q :: q in c.asked ==> q in c'.asked && c'.asked[q] == c.asked[q]
    ensures AllTook(c', ws)
  {
    forall i | 0 <= i < |ws| ensures TookWell(c', ws[i]) {
      assert TookWell(c, ws[i]);
    }
  }

  /** A step that sends a request. */
  lemma SendWrites(s: State, t: State, r: P.Request)
    requires WriteInv(s) && t.server == s.server && t.c2s == s.c2s + [r] && t.client.nextSeq >= s.client.nextSeq
    requires t.client.got == s.client.got && t.s2c == s.s2c
    requires r.Write? ==> s.client.nextSeq <= r.sequence < t.client.nextSeq
    requires forall q :: q in s.client.asked ==> q in t.client.asked && t.client.asked[q] == s.client.asked[q]
    ensures WriteInv(t)
  {
    SendLine(IsWrite, WrittenSeqs(s.server.written), s, t, r);
    TookMore(s.client, t.client, s.server.written);
  }

  /** A client step that sends nothing. */
  lemma ClientWrites(s: State, t: State)
    requires WriteInv(s) && t.server == s.server && t.c2s == s.c2s && t.client.nextSeq >= s.client.nextSeq
    requires t.client.asked == s.client.asked && Outbox(t) == Outbox(s)
    ensures WriteInv(t)
  {
    SameLine(IsWrite, WrittenSeqs(s.server.written), s, t);
    TookMore(s.client, t.client, s.server.written);
  }

  lemma TakeWrites(s: State)
    requires WriteInv(s) && s.c2s != [] && s.server.main.Receiving? && P.WireLen(s.c2s[0]) <= P.MAX_SZ
    ensures WriteInv(TakeStep(s))
  {
    TakeLine(IsWrite, WrittenSeqs(s.server.written), s);
  }

  /** The main thread is done without a write to the device, or another thread of the server moved. */
  lemma ServerWrites(s: State, t: State, more: seq<R.Frame>)
    requires WriteInv(s) && t.client == s.client && t.c2s == s.c2s && t.server.written == s.server.written
    requires t.s2c == s.s2c + more && forall i :: 0 <= i < |more| ==> !more[i].body.Wrote?
    requires t.server.main == s.server.main || !t.server.main.Busy?
    ensures WriteInv(t)
  {
    var qs := WrittenSeqs(s.server.written);
    if t.server.main == s.server.main {
      SameLine(IsWrite, qs, s, t);
    } else {
      DropLine(IsWrite, qs, s, t);
    }
    OutboxMore(s, t, more);
    NotedMore(s.server.written, t.server.written, Outbox(s), more);
  }

  /** The main thread wrote to the device. */
  lemma NoteWrites(s: State, t: State, r: P.Request, n: nat)
    requires WriteInv(s) && WasSent(s) && SentAsked(s.client)
    requires s.server.main == Busy(r) && r.Write? && n <= |r.data|
    requires t.client == s.client && t.c2s == s.c2s && !t.server.main.Busy?
    requires t.server.written == s.server.written + [Written(r.sequence, r.offset, r.data[..n])]
    requires t.s2c == s.s2c + [R.Frame(r.sequence, R.Wrote(n))]
    ensures WriteInv(t)
  {
    var ws, w, more := s.server.written, Written(r.sequence, r.offset, r.data[..n]), [R.Frame(r.sequence, R.Wrote(n))];
    NoteLine(IsWrite, WrittenSeqs(ws), s, t);
    assert WrittenSeqs(ws + [w]) == WrittenSeqs(ws) + [r.sequence];
    BusyAsked(s, r);
    assert TookWell(s.client, w);
    OutboxMore(s, t, more);
    assert Noted(ws + [w], r.sequence, n) by { assert (ws + [w])[|ws|] == w; }
    NotedMore(ws, ws + [w], Outbox(s), more);
  }

  lemma BusyAsked(s: State, r: P.Request)
    requires WasSent(s) && SentAsked(s.client) && s.server.main == Busy(r) && !r.Interrupt?
    ensures r.sequence in s.client.asked && s.client.asked[r.sequence].req == r
  {
    var i :| 0 <= i < |s.client.sent| && s.client.sent[i] == r;
  }

  /** A count that the server reported is noted with the bytes of that very request. */
  lemma CountNoted(s: State, f: R.Frame) returns (w: Written)
    requires WriteInv(s) && f in Outbox(s) && f.body.Wrote?
    ensures w in s.server.written && w.sequence == f.sequence && |w.bytes| == f.body.size && TookWell(s.client, w)
  {
    var ws, fs := s.server.written, Outbox(s);
    var i :| 0 <= i < |fs| && fs[i] == f;
    assert Noted(ws, f.sequence, f.body.size);
    var k :| 0 <= k < |ws| && ws[k].sequence == f.sequence && |ws[k].bytes| == f.body.size;
    w := ws[k];
  }
}
