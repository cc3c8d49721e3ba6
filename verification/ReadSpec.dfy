/**
 The simple form of the server's read path: one list of waiting reads.
 Reads enter at the back, are served from the front, and may be cancelled anywhere.
 `ReadScheduler` shows that the queue, the pending slot, the worker thread and the
 wake-up pipe together behave like this list.
 */
module ReadSpec {
  import opened Base

  const BUF_SZ: nat := 4096
  const EINTR: nat := 4

  datatype Req = Req(sequence: nat, size: nat)
  datatype Reply = Data(bytes: seq<byte>) | Error(errno: nat)
  datatype Answer = Answer(req: Req, reply: Reply)

  datatype State = State(arrived: seq<Req>, waiting: seq<Req>, answers: seq<Answer>)
  datatype Event = Tau | Arrive(req: Req) | Serve(reply: Reply) | Cancel(pos: nat)

  predicate WithinLimit(r: Req, reply: Reply) {
    reply.Data? ==> |reply.bytes| <= Min(r.size, BUF_SZ)
  }

  predicate Allowed(s: State, e: Event) {
    match e
    case Tau => true
    case Arrive(_) => true
    case Serve(reply) => s.waiting != [] && WithinLimit(s.waiting[0], reply)
    case Cancel(pos) => pos < |s.waiting|
  }

  function Next(s: State, e: Event): State
    requires Allowed(s, e)
  {
    match e
    case Tau => s
    case Arrive(r) => s.(arrived := s.arrived + [r], waiting := s.waiting + [r])
    case Serve(reply) =>
      s.(waiting := s.waiting[1..], answers := s.answers + [Answer(s.waiting[0], reply)])
    case Cancel(pos) =>
      s.(waiting := Remove(s.waiting, pos),
         answers := s.answers + [Answer(s.waiting[pos], Error(EINTR))])
  }

  /** The requests that were answered, in answering order. */
  function Answered(answers: seq<Answer>): (r: seq<Req>)
    ensures |r| == |answers|
    ensures forall i :: 0 <= i < |r| ==> r[i] == answers[i].req
  {
    if answers == [] then []
    else Answered(answers[..|answers| - 1]) + [answers[|answers| - 1].req]
  }

  /** The requests that were answered with data, in answering order. */
  function Served(answers: seq<Answer>): seq<Req> {
    if answers == [] then []
    else
      var last := answers[|answers| - 1];
      Served(answers[..|answers| - 1]) + if last.reply.Data? then [last.req] else []
  }

  /** All data bytes that were sent, in sending order. */
  function DataBytes(answers: seq<Answer>): seq<byte> {
    if answers == [] then []
    else
      var last := answers[|answers| - 1];
      DataBytes(answers[..|answers| - 1]) + if last.reply.Data? then last.reply.bytes else []
  }

  /** Every arrived read is waiting or answered, as often as it arrived and never both. */
  ghost predicate Conserved(s: State) {
    multiset(s.arrived) == multiset(Answered(s.answers)) + multiset(s.waiting)
  }

  /** Data leaves in arrival order, and the waiting reads continue that order. */
  ghost predicate InOrder(s: State) {
    Subsequence(Served(s.answers) + s.waiting, s.arrived)
  }

  predicate Limited(answers: seq<Answer>) {
    forall i :: 0 <= i < |answers| ==> WithinLimit(answers[i].req, answers[i].reply)
  }

  ghost predicate Inv(s: State) {
    Conserved(s) && InOrder(s) && Limited(s.answers)
  }

  lemma AnsweredSnoc(answers: seq<Answer>, a: Answer)
    ensures Answered(answers + [a]) == Answered(answers) + [a.req]
    ensures Served(answers + [a]) == Served(answers) + if a.reply.Data? then [a.req] else []
    ensures DataBytes(answers + [a]) == DataBytes(answers) + if a.reply.Data? then a.reply.bytes else []
  {
    assert (answers + [a])[..|answers|] == answers;
  }

  /** Taking one read out of the waiting list and answering it. */
  lemma AnswerConserves(s: State, pos: nat, reply: Reply)
    requires Conserved(s) && pos < |s.waiting|
    ensures Conserved(State(s.arrived, Remove(s.waiting, pos), s.answers + [Answer(s.waiting[pos], reply)]))
  {
    var a := Answer(s.waiting[pos], reply);
    AnsweredSnoc(s.answers, a);
    MultisetRemove(s.waiting, pos);
    assert multiset(Answered(s.answers) + [a.req]) == multiset(Answered(s.answers)) + multiset{a.req};
  }

  lemma ErrorKeepsOrder(s: State, pos: nat, errno: nat)
    requires InOrder(s) && pos < |s.waiting|
    ensures InOrder(State(s.arrived, Remove(s.waiting, pos),
                          s.answers + [Answer(s.waiting[pos], Error(errno))]))
  {
    var served := Served(s.answers);
    AnsweredSnoc(s.answers, Answer(s.waiting[pos], Error(errno)));
    SubsequenceRemove(served + s.waiting, |served| + pos, s.arrived);
    assert Remove(served + s.waiting, |served| + pos) == served + Remove(s.waiting, pos);
    assert served + [] == served;
  }

  lemma DataKeepsOrder(s: State, bytes: seq<byte>)
    requires InOrder(s) && s.waiting != []
    ensures InOrder(State(s.arrived, s.waiting[1..], s.answers + [Answer(s.waiting[0], Data(bytes))]))
  {
    var served := Served(s.answers);
    AnsweredSnoc(s.answers, Answer(s.waiting[0], Data(bytes)));
    assert (served + [s.waiting[0]]) + s.waiting[1..] == served + s.waiting;
  }

  lemma ArriveKeepsInv(s: State, r: Req)
    requires Inv(s)
    ensures Inv(Next(s, Arrive(r)))
  {
    var served := Served(s.answers);
    SubsequenceExtend(served + s.waiting, s.arrived, r);
    assert served + (s.waiting + [r]) == served + s.waiting + [r];
  }

  lemma LimitedSnoc(answers: seq<Answer>, a: Answer)
    requires Limited(answers) && WithinLimit(a.req, a.reply)
    ensures Limited(answers + [a])
  {
  }

  lemma ErrorKeepsInv(s: State, pos: nat, errno: nat)
    requires Inv(s) && pos < |s.waiting|
    ensures Inv(State(s.arrived, Remove(s.waiting, pos), s.answers + [Answer(s.waiting[pos], Error(errno))]))
  {
    AnswerConserves(s, pos, Error(errno));
    ErrorKeepsOrder(s, pos, errno);
    LimitedSnoc(s.answers, Answer(s.waiting[pos], Error(errno)));
  }

  lemma DataKeepsInv(s: State, bytes: seq<byte>)
    requires Inv(s) && s.waiting != [] && WithinLimit(s.waiting[0], Data(bytes))
    ensures Inv(State(s.arrived, s.waiting[1..], s.answers + [Answer(s.waiting[0], Data(bytes))]))
  {
    assert s.waiting[1..] == Remove(s.waiting, 0);
    AnswerConserves(s, 0, Data(bytes));
    DataKeepsOrder(s, bytes);
    LimitedSnoc(s.answers, Answer(s.waiting[0], Data(bytes)));
  }

  lemma ServeKeepsInv(s: State, reply: Reply)
    requires Inv(s) && s.waiting != [] && WithinLimit(s.waiting[0], reply)
    ensures Inv(State(s.arrived, s.waiting[1..], s.answers + [Answer(s.waiting[0], reply)]))
  {
    if reply.Data? {
      DataKeepsInv(s, reply.bytes);
    } else {
      assert s.waiting[1..] == Remove(s.waiting, 0);
      ErrorKeepsInv(s, 0, reply.errno);
    }
  }

  lemma NextKeepsInv(s: State, e: Event)
    requires Inv(s) && Allowed(s, e)
    ensures Inv(Next(s, e))
  {
    match e
    case Tau =>
    case Arrive(r) => ArriveKeepsInv(s, r);
    case Serve(reply) => ServeKeepsInv(s, reply);
    case Cancel(pos) => ErrorKeepsInv(s, pos, EINTR);
  }
}
