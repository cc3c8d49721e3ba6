/**
 The client side of one connection: the table of outstanding requests, the callers that
 send and insert under one lock, and the receiving thread with its teardown.
 Each lock-protected section and each kernel write is one function on the state.
 */
module Client {
  import opened Base
  import opened Endian
  import opened IoctlNumber
  import opened IoctlArg
  import P = Protocol
  import R = Responses

  const EINTR: nat := 4
  const EIO: nat := 5
  const EINVAL: nat := 22

  type Unique = nat

  datatype Kind = KRelease | KWrite | KRead | KIoctl(cmd: u32) | KPoll
  datatype Entry = Entry(kind: Kind, unique: Unique)

  /** What an application passed to ioctl(2): its argument, and the bytes the kernel copied from there. */
  datatype App = App(arg: u64, data: seq<byte>)

  const NO_APP: App := App(0, [])

  /** A kernel request, the message it was sent as, and what the application passed. */
  datatype Ask = Ask(unique: Unique, req: P.Request, app: App)

  /** What the kernel is told; `KError(0)` is the plain success of a release. */
  datatype KernelReply =
    | KError(errno: nat)
    | KWritten(size: nat)
    | KData(bytes: seq<byte>)
    | KIoctlOut(data: Option<seq<byte>>)
    | KPolled(events: nat)

  datatype Reply = Reply(unique: Unique, what: KernelReply)

  /** Where the receiving thread is. */
  datatype Rx =
    | RxLoop                                         // about to receive
    | RxGot(frame: R.Frame)                          // about to take the request out of the table
    | RxReply(entry: Entry, body: R.Response)        // about to answer the kernel
    | RxClosing(entry: Entry)                        // marked closed, about to answer the release
    | RxLeft                                         // left the loop, about to shut the socket down
    | RxShut                                         // about to answer everything left
    | RxDone

  /**
   `failing` are requests whose send failed and that are still to be answered with EIO;
   `looked` are sequence numbers an interrupt found in the table and has still to send.
   `handed`, `failed`, `rejected`, `asked`, `sent`, `got`, `replies` and `notified` are histories:
   requests handed in, those whose send failed, those that could not be decoded, those sent, messages
   sent and received, and what the kernel was told.  `lost` says that some response met no request,
   the wrong kind of request, or could not be converted.
   */
  datatype State = State(
    host: Host, closed: bool, table: map<nat, Entry>, nextSeq: nat, shut: bool, rx: Rx,
    failing: seq<Unique>, looked: seq<nat>,
    handed: seq<Unique>, failed: seq<Unique>, rejected: seq<Unique>, asked: map<nat, Ask>, sent: seq<P.Request>, got: seq<R.Frame>,
    replies: seq<Reply>, notified: seq<nat>, lost: bool)

  function Init(host: Host, firstSeq: nat): State {
    State(host, false, map[], firstSeq, false, RxLoop, [], [], [], [], [], map[], [], [], [], [], false)
  }

  function KindOf(r: P.Request): Option<Kind> {
    match r
    case Release(_) => Some(KRelease)
    case Write(_, _, _, _) => Some(KWrite)
    case Read(_, _, _, _) => Some(KRead)
    case Ioctl(_, cmd, _) => if cmd < 0x1_0000_0000 then Some(KIoctl(cmd)) else None
    case Poll(_, _, _, _) => Some(KPoll)
    case _ => None
  }

  /** Send and insert, under the table's lock. */
  function Submit(c: State, unique: Unique, r: P.Request, app: App): State
    requires KindOf(r).Some?
  {
    c.(handed := c.handed + [unique], nextSeq := r.sequence + 1, sent := c.sent + [r],
       asked := c.asked[r.sequence := Ask(unique, r, app)],
       table := c.table[r.sequence := Entry(KindOf(r).value, unique)])
  }

  function SubmitFails(c: State, unique: Unique, sequence: nat): State {
    c.(handed := c.handed + [unique], nextSeq := sequence + 1, failing := c.failing + [unique],
       failed := c.failed + [unique])
  }

  function Answer(c: State, unique: Unique, what: KernelReply): State {
    c.(replies := c.replies + [Reply(unique, what)])
  }

  /** An ioctl that cannot be decoded is answered without being sent. */
  function Reject(c: State, unique: Unique): State {
    Answer(c.(handed := c.handed + [unique], rejected := c.rejected + [unique]), unique, KError(EINVAL))
  }

  function EioReply(c: State, i: nat): State
    requires i < |c.failing|
  {
    Answer(c.(failing := Remove(c.failing, i)), c.failing[i], KError(EIO))
  }

  /** A received frame: an event is handed on, a response is looked up next. */
  function Receive(c: State, f: R.Frame): State {
    var c' := c.(got := c.got + [f]);
    if f.sequence != 0 then c'.(rx := RxGot(f))
    else if f.body.Failed? then c'.(rx := RxLeft)
    else c'.(notified := c.notified + R.Notifications(f.body))
  }

  function TakeOut(c: State): State
    requires c.rx.RxGot?
  {
    var q := c.rx.frame.sequence;
    if q in c.table then c.(table := c.table - {q}, rx := RxReply(c.table[q], c.rx.frame.body))
    else c.(rx := RxLoop, lost := true)
  }

  function ConvertIoctl(host: Host, cmd: u32, arg: Arg): Option<KernelReply> {
    if !arg.Formed() then None
    else match CuseResponse(host, Repaired(cmd), arg)
      case Success(out) => Some(KIoctlOut(out))
      case Failure(_) => None
  }

  /** The reply for a response of the right kind, if there is one. */
  function Convert(host: Host, kind: Kind, body: R.Response): Option<KernelReply> {
    if body.Failed? then Some(KError(body.errno))
    else match kind
      case KRelease => if body.Done? then Some(KError(0)) else None
      case KWrite => if body.Wrote? then Some(KWritten(body.size)) else None
      case KRead => if body.Bytes? then Some(KData(body.data)) else None
      case KIoctl(cmd) => if body.IoctlDone? then ConvertIoctl(host, cmd, body.arg) else None
      case KPoll => if body.Polled? then Some(KPolled(body.events)) else None
  }

  /** Answers the kernel; the reply to a release first marks the device closed. */
  function HandleResponse(c: State): State
    requires c.rx.RxReply?
  {
    var e, body := c.rx.entry, c.rx.body;
    if e.kind.KRelease? && body.Done? then c.(closed := true, rx := RxClosing(e))
    else match Convert(c.host, e.kind, body)
      case Some(what) => Answer(c.(rx := RxLoop), e.unique, what)
      case None => c.(rx := RxLoop, lost := true)
  }

  /** Answering a response changes only where the thread is, what the kernel was told, and the closed flag. */
  lemma AnswerOnly(c: State)
    requires c.rx.RxReply?
    ensures var c' := HandleResponse(c);
            && c' == c.(closed := c'.closed, rx := c'.rx, replies := c'.replies, lost := c'.lost)
            && (c'.rx.RxLoop? || c'.rx.RxClosing?)
            && (c'.lost ==> c.lost || Convert(c.host, c.rx.entry.kind, c.rx.body).None?)
  {
  }

  /** Receiving changes only where the thread is, and what was received and notified. */
  lemma ReceiveOnly(c: State, f: R.Frame)
    ensures var c' := Receive(c, f);
            && c' == c.(got := c.got + [f], rx := c'.rx, notified := c'.notified)
            && c'.rx == if f.sequence != 0 then RxGot(f) else if f.body.Failed? then RxLeft else c.rx
  {
  }

  function Close(c: State): State
    requires c.rx.RxClosing?
  {
    Answer(c.(rx := RxLoop), c.rx.entry.unique, KError(0))
  }

  function Drained(table: map<nat, Entry>, order: seq<nat>): seq<Reply>
    requires forall i :: 0 <= i < |order| ==> order[i] in table
  {
    seq(|order|, i requires 0 <= i < |order| => Reply(table[order[i]].unique, KError(EINTR)))
  }

  /** Answers everything left with EINTR, in whatever order the table yields it. */
  function Drain(c: State, order: seq<nat>): State
    requires forall i :: 0 <= i < |order| ==> order[i] in c.table
  {
    c.(rx := RxDone, replies := c.replies + Drained(c.table, order))
  }
}
