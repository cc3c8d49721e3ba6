/**
 One connection as a whole: client, the two directions of the network as message queues,
 the server's main thread, its read scheduler and its poll side.  A run is any interleaving
 of their steps and of the device's and the kernel's choices.
 */
module System {
  import opened Base
  import opened Endian
  import opened IoctlNumber
  import opened IoctlArg
  import P = Protocol
  import R = Responses
  import C = Client
  import Spec = ReadSpec
  import Read = ReadScheduler
  import Poll = PollServer

  const EPERM: nat := 1

  /** The server's main thread; `Syncing` and `Registering` are the ends of a push and a poll. */
  datatype Main = Receiving | Busy(req: P.Request) | Syncing | Registering | Ended

  /** Bytes of a write request that the device took. */
  datatype Written = Written(sequence: nat, offset: nat, bytes: seq<byte>)

  /**
   A request that the main thread dealt with, what the device answered, what the device was ready for
   then, and the operand that an ioctl was called with.
   */
  datatype Deed = Deed(req: P.Request, out: Outcome, ready: set<Poll.Flag>, operand: Option<Operand>)

  /** `written` is the history of writes to the device, `deeds` that of the main thread. */
  datatype Server = Server(
    host: Host, main: Main, read: Read.State, poll: Poll.State, written: seq<Written>, deeds: seq<Deed>)

  datatype State = State(client: C.State, c2s: seq<P.Request>, s2c: seq<R.Frame>, server: Server)

  /** What a system call on the device returns to the main thread. */
  datatype Outcome =
    | Fails(errno: nat)
    | Counts(n: nat)                            // write
    | Gives(bytes: seq<byte>)                   // non-blocking read
    | Returns(rc: nat, dev: seq<byte>)          // ioctl, with the buffer it left
    | Polls                                     // poll succeeds
    | None                                      // no system call

  datatype Action =
    // callers of the client
    | Submit(unique: nat, req: P.Request, app: C.App)
    | SubmitFails(unique: nat, sequence: nat)
    | Reject(unique: nat) | EioReply(i: nat)
    | IntrLookup(sequence: nat) | IntrSend(i: nat) | IntrFails(i: nat)
    // receiving thread of the client
    | RxRecv | RxRemove | RxAnswer | RxClose | RxClosed | RxBreak | RxShutdown | RxDrain(order: seq<nat>)
    // server
    | Take | ServerEnds | Handle(out: Outcome) | SyncWrite | Register
    | ReadWorker(r: Read.Action) | PollWorker(p: Poll.Action)

  function Init(hc: Host, hs: Host, firstSeq: nat): State {
    State(C.Init(hc, firstSeq), [], [], Server(hs, Receiving, Read.INIT, Poll.INIT, [], []))
  }

  // ---- frames the server sends ----

  function FrameOf(a: Spec.Answer): R.Frame {
    R.Frame(a.req.sequence, match a.reply case Data(b) => R.Bytes(b) case Error(e) => R.Failed(e))
  }

  /** The frame, if any, that a step of the read scheduler sent. */
  function ReadFrames(before: Read.State, after: Read.State): seq<R.Frame> {
    if |after.answers| == |before.answers| + 1 then [FrameOf(after.answers[|before.answers|])] else []
  }

  function One(fs: set<Poll.Flag>, f: Poll.Flag): nat { if f in fs then 1 else 0 }

  function FlagBit(fs: set<Poll.Flag>, f: Poll.Flag): nat { Poll.Bit(f) * One(fs, f) }

  function FlagBits(fs: set<Poll.Flag>): nat {
    FlagBit(fs, Poll.In) + FlagBit(fs, Poll.Pri) + FlagBit(fs, Poll.Out) + FlagBit(fs, Poll.Err)
    + FlagBit(fs, Poll.Hup) + FlagBit(fs, Poll.Nval) + FlagBit(fs, Poll.RdNorm) + FlagBit(fs, Poll.RdBand)
    + FlagBit(fs, Poll.WrNorm) + FlagBit(fs, Poll.WrBand)
  }

  // ---- the server's dispatch ----

  predicate IsNonblock(flags: nat) { flags / 4 % 2 == 1 }
  predicate WantsNotify(flags: nat) { flags % 2 == 1 }

  function OperandLen(op: Operand): nat {
    match op case Plain(_) => 0 case Filled(b) => |b| case Scratch(n) => n
  }

  /** Whether the device can answer the request at hand in this way. */
  predicate CanReturn(sv: Server, r: P.Request, out: Outcome) {
    match r
    case Open(_, _) => out.None?
    case Release(_) => out.None?
    case Write(_, _, _, data) => out.Fails? || (out.Counts? && out.n <= |data|)
    case Read(_, _, size, flags) =>
      if IsNonblock(flags) then out.Fails? || (out.Gives? && |out.bytes| <= Min(size, Spec.BUF_SZ))
      else out.None?
    case Ioctl(_, cmd, arg) =>
      && cmd < 0x1_0000_0000 && arg.Formed()
      && (if arg.IsRaw() then out.None?
          else
            var e := Encode(sv.host, Repaired(cmd), arg);
            && e.Success?
            && (out.Fails?
                || (&& out.Returns? && |out.dev| == OperandLen(e.value.1)
                    && Decode(sv.host, Repaired(cmd), 0, out.dev, Device).Success?)))
    case Poll(_, _, _, _) => out.Fails? || out.Polls?
    case Interrupt(_) => out.None?
  }

  predicate Handles(sv: Server, out: Outcome) {
    sv.main.Busy? && !sv.read.owed && sv.poll.main.Free? && CanReturn(sv, sv.main.req, out)
  }

  /**
   The request's own reply, if the main thread sends it.  For a command that an application's argument
   was decoded for, the address that the result is decoded with does not matter; zero stands for it.
   */
  ghost function DirectReply(sv: Server, r: P.Request, out: Outcome): Option<R.Response>
    requires CanReturn(sv, r, out)
  {
    if out.Fails? then Some(R.Failed(out.errno))
    else match r
      case Open(_, _) => Some(R.Failed(C.EINVAL))
      case Release(_) => Some(R.Done)
      case Write(_, _, _, _) => Some(R.Wrote(out.n))
      case Read(_, _, _, flags) => if IsNonblock(flags) then Some(R.Bytes(out.bytes)) else Option.None
      case Ioctl(_, cmd, arg) =>
        if arg.IsRaw() then Some(R.Failed(EPERM))
        else Some(R.IoctlDone(out.rc, Decode(sv.host, Repaired(cmd), 0, out.dev, Device).value))
      case Poll(_, _, _, events) => Some(R.Polled(FlagBits(Poll.Reported(sv.poll.ready, Poll.ProtoToPoll(events)))))
      case Interrupt(_) => Option.None
  }

  ghost function PollAction(r: P.Request, out: Outcome): Poll.Action
    requires r.Poll?
  {
    if out.Fails? then Poll.PollFails(r.sequence, out.errno)
    else if WantsNotify(r.flags) then Poll.Poll(r.sequence, r.kh, r.events)
    else Poll.PollOnce(r.sequence, r.events)
  }

  function DeedOf(sv: Server, out: Outcome): Deed
    requires Handles(sv, out)
  {
    var r := sv.main.req;
    var operand := if r.Ioctl? && !r.arg.IsRaw() then Some(Encode(sv.host, Repaired(r.cmd), r.arg).value.1)
                   else Option.None;
    Deed(r, out, sv.poll.ready, operand)
  }

  /** The server after the main thread handled its request, and the frames it sent. */
  ghost function Dispatch(sv: Server, out: Outcome): (Server, seq<R.Frame>)
    requires Handles(sv, out)
  {
    var (t, frames) := Effect(sv, out);
    (if sv.main.req.Interrupt? then t else t.(deeds := sv.deeds + [DeedOf(sv, out)]), frames)
  }

  ghost function Effect(sv: Server, out: Outcome): (Server, seq<R.Frame>)
    requires Handles(sv, out)
  {
    var r := sv.main.req;
    var direct := match DirectReply(sv, r, out)
                  case Some(body) => [R.Frame(r.sequence, body)]
                  case None => [];
    match r
    case Release(_) => (sv.(main := Ended), direct)
    case Write(q, offset, _, data) =>
      (sv.(main := Receiving,
           written := sv.written + if out.Counts? then [Written(q, offset, data[..out.n])] else []), direct)
    case Read(q, _, size, flags) =>
      if IsNonblock(flags) then (sv.(main := Receiving), direct)
      else (sv.(main := Syncing, read := Read.Apply(sv.read, Read.Push(Spec.Req(q, size)))), direct)
    case Interrupt(q) =>
      var read := Read.Apply(sv.read, Read.Intr(q));
      (sv.(main := Syncing, read := read), ReadFrames(sv.read, read))
    case Poll(_, _, _, _) =>
      var poll := Poll.Apply(sv.poll, PollAction(r, out));
      (sv.(main := if poll.main.Checked? then Registering else Receiving, poll := poll), direct)
    case _ => (sv.(main := Receiving), direct)
  }

  // ---- actions ----

  predicate WorkerAction(a: Read.Action) { !a.Push? && !a.Intr? && !a.SyncWrite? }

  predicate DeviceAction(a: Poll.Action) { a.Rise? || a.Fall? || a.Wait? || a.Signal? }

  /** An ioctl is sent with the argument that decoding the application's data gave. */
  predicate FromApplication(c: C.State, r: P.Request, app: C.App) {
    r.Ioctl? ==> r.cmd < 0x1_0000_0000 && Decode(c.host, Repaired(r.cmd), app.arg, app.data, Cuse) == Success(r.arg)
  }

  // A message with a larger payload than the receiver accepts is not received: the server's main
  // loop then ends, and so does the client's receiving loop.

  predicate ServerAction(a: Action) {
    a.Take? || a.ServerEnds? || a.Handle? || a.SyncWrite? || a.Register? || a.ReadWorker? || a.PollWorker?
  }

  ghost predicate ClientEnabled(s: State, a: Action)
    requires !ServerAction(a)
  {
    var c := s.client;
    match a
    case Submit(u, r, app) =>
      && !c.shut && u !in c.handed && C.KindOf(r).Some? && 0 < c.nextSeq <= r.sequence
      && FromApplication(c, r, app)
    case SubmitFails(u, q) => u !in c.handed && c.nextSeq <= q
    case Reject(u) => u !in c.handed
    case EioReply(i) => i < |c.failing|
    case IntrLookup(q) => q in c.table
    case IntrSend(i) => i < |c.looked| && !c.shut
    case IntrFails(i) => i < |c.looked|
    case RxRecv => c.rx.RxLoop? && !c.closed && s.s2c != [] && R.WireLen(s.s2c[0].body) <= P.MAX_SZ
    case RxRemove => c.rx.RxGot?
    case RxAnswer => c.rx.RxReply?
    case RxClose => c.rx.RxClosing?
    case RxClosed => c.rx.RxLoop? && c.closed
    case RxBreak => c.rx.RxLoop? && !c.closed
    case RxShutdown => c.rx.RxLeft?
    case RxDrain(order) => c.rx.RxShut? && NoDup(order) && forall q :: q in order <==> q in c.table
  }

  ghost predicate ServerEnabled(s: State, a: Action)
    requires ServerAction(a)
  {
    var sv := s.server;
    match a
    case Take => sv.main.Receiving? && s.c2s != [] && P.WireLen(s.c2s[0]) <= P.MAX_SZ
    case ServerEnds => sv.main.Receiving? || sv.main.Busy?
    case Handle(out) => Handles(sv, out)
    case SyncWrite => sv.main.Syncing? && Read.Enabled(sv.read, Read.SyncWrite)
    case Register => sv.main.Registering? && Poll.Enabled(sv.poll, Poll.Register)
    case ReadWorker(r) => WorkerAction(r) && Read.Enabled(sv.read, r)
    case PollWorker(p) => DeviceAction(p) && Poll.Enabled(sv.poll, p)
  }

  ghost predicate Enabled(s: State, a: Action) {
    if ServerAction(a) then ServerEnabled(s, a) else ClientEnabled(s, a)
  }

  /** Every frame the server ever sent, received or still on its way. */
  function Outbox(s: State): seq<R.Frame> { s.client.got + s.s2c }

  // Steps that change more than the client, each as a function of its own.

  function SubmitStep(s: State, u: nat, r: P.Request, app: C.App): State
    requires C.KindOf(r).Some?
  {
    s.(client := C.Submit(s.client, u, r, app), c2s := s.c2s + [r])
  }

  function IntrSendStep(s: State, i: nat): State
    requires i < |s.client.looked|
  {
    var c := s.client;
    var r := P.Interrupt(c.looked[i]);
    s.(client := c.(looked := Remove(c.looked, i), sent := c.sent + [r]), c2s := s.c2s + [r])
  }

  function RecvStep(s: State): State
    requires s.s2c != []
  {
    s.(client := C.Receive(s.client, s.s2c[0]), s2c := s.s2c[1..])
  }

  function TakeStep(s: State): State
    requires s.c2s != []
  {
    s.(server := s.server.(main := Busy(s.c2s[0])), c2s := s.c2s[1..])
  }

  ghost function HandleStep(s: State, out: Outcome): State
    requires Handles(s.server, out)
  {
    var (sv, frames) := Dispatch(s.server, out);
    s.(server := sv, s2c := s.s2c + frames)
  }

  function SyncStep(s: State): State
    requires Read.Enabled(s.server.read, Read.SyncWrite)
  {
    var sv := s.server;
    s.(server := sv.(main := Receiving, read := Read.Apply(sv.read, Read.SyncWrite)))
  }

  ghost function RegisterStep(s: State): State
    requires Poll.Enabled(s.server.poll, Poll.Register)
  {
    var sv := s.server;
    s.(server := sv.(main := Receiving, poll := Poll.Apply(sv.poll, Poll.Register)))
  }

  function ReadStep(s: State, r: Read.Action): State
    requires Read.Enabled(s.server.read, r)
  {
    var sv := s.server;
    var read := Read.Apply(sv.read, r);
    s.(server := sv.(read := read), s2c := s.s2c + ReadFrames(sv.read, read))
  }

  ghost function PollStep(s: State, p: Poll.Action): State
    requires Poll.Enabled(s.server.poll, p)
  {
    var sv := s.server;
    s.(server := sv.(poll := Poll.Apply(sv.poll, p)),
       s2c := s.s2c + if p.Signal? then R.WakeupFrames(p.order) else [])
  }

  function ClientApply(s: State, a: Action): State
    requires !ServerAction(a) && ClientEnabled(s, a)
  {
    var c := s.client;
    match a
    case Submit(u, r, app) => SubmitStep(s, u, r, app)
    case SubmitFails(u, q) => s.(client := C.SubmitFails(c, u, q))
    case Reject(u) => s.(client := C.Reject(c, u))
    case EioReply(i) => s.(client := C.EioReply(c, i))
    case IntrLookup(q) => s.(client := c.(looked := c.looked + [q]))
    case IntrSend(i) => IntrSendStep(s, i)
    case IntrFails(i) => s.(client := c.(looked := Remove(c.looked, i)))
    case RxRecv => RecvStep(s)
    case RxRemove => s.(client := C.TakeOut(c))
    case RxAnswer => s.(client := C.HandleResponse(c))
    case RxClose => s.(client := C.Close(c))
    case RxClosed => s.(client := c.(rx := C.RxLeft))
    case RxBreak => s.(client := c.(rx := C.RxLeft))
    case RxShutdown => s.(client := c.(rx := C.RxShut, shut := true))
    case RxDrain(order) => s.(client := C.Drain(c, order))
  }

  ghost function ServerApply(s: State, a: Action): State
    requires ServerAction(a) && ServerEnabled(s, a)
  {
    match a
    case Take => TakeStep(s)
    case ServerEnds => s.(server := s.server.(main := Ended))
    case Handle(out) => HandleStep(s, out)
    case SyncWrite => SyncStep(s)
    case Register => RegisterStep(s)
    case ReadWorker(r) => ReadStep(s, r)
    case PollWorker(p) => PollStep(s, p)
  }

  ghost function Apply(s: State, a: Action): State
    requires Enabled(s, a)
  {
    if ServerAction(a) then ServerApply(s, a) else ClientApply(s, a)
  }

  ghost predicate IsRun(s: State, acts: seq<Action>)
    decreases |acts|
  {
    acts == [] || (Enabled(s, acts[0]) && IsRun(Apply(s, acts[0]), acts[1..]))
  }

  ghost function After(s: State, acts: seq<Action>): State
    requires IsRun(s, acts)
    decreases |acts|
  {
    if acts == [] then s else After(Apply(s, acts[0]), acts[1..])
  }

  /** Reachable on a connection between two hosts, whatever number the first request gets. */
  ghost predicate Reachable(s: State) {
    exists hc, hs, n, acts ::
      n > 0 && IsRun(Init(hc, hs, n), acts) && After(Init(hc, hs, n), acts) == s
  }
}
