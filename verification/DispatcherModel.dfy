/** The connection dispatcher as a transition system: one queue, one lock, one thread slot and
    a sink that goes up and down. Every function below that changes the state is one critical
    section of the lock, or one lock-free step of a thread; an interleaving is a list of actions. */
module DispatcherModel {
  import opened Options

  /** What a frame asks for. `hasArgs` is false when the frame carried `args: null`. */
  datatype Job =
    | Event(handle: int, seqNo: int, hasArgs: bool)
    | CleanupCall(handle: int, seqNo: int)
    | Barrier(token: int)

  /** One queue item. `Work` carries two bookkeeping facts the program does not have: whether the
      sink was on the connection when the item was accepted, and its acceptance number. */
  datatype Item =
    | Idle
    | Resume(era: nat)
    | EndOfStream
    | Work(job: Job, armed: bool, no: nat)

  /** The calls one item leads to, in order. `ReleaseEvent` is the attempt, whatever its outcome. */
  datatype Op =
    | Deliver(handle: int, seqNo: int)
    | ReleaseEvent(seqNo: int)
    | RunClosure(handle: int, seqNo: int)
    | Signal(seqNo: int)
    | Unregister(handle: int)
    | Answer(token: int)

  datatype Mode =
    | Live
    | Draining(batch: seq<Item>, ended: bool)
    | Fencing(target: nat)
    | PuttingBack
    | Ending(rest: seq<Item>)
    | Unwinding

  /** A dispatcher thread: where it is, and the calls still owed for the item in its hand. */
  datatype Thread = Thread(mode: Mode, hand: seq<Op>)

  datatype Taken = Taken(item: Item, routed: bool)

  /** The last three fields are history: items accepted, items taken into a thread's hand (and
      whether the live loop took them), and calls made. */
  datatype State = State(
    targets: map<int, int>,
    cleanups: map<int, int>,
    sink: bool,
    era: nat,
    slot: Option<nat>,
    threads: map<nat, Thread>,
    nextTid: nat,
    queue: seq<Item>,
    accepted: seq<Item>,
    taken: seq<Taken>,
    trace: seq<Op>)

  const INIT := State(map[], map[], false, 0, None, map[], 0, [], [], [], [])

  function CleanupOps(handle: int, seqNo: int): seq<Op> {
    [RunClosure(handle, seqNo), ReleaseEvent(seqNo), Signal(seqNo), Unregister(handle)]
  }

  function ReleaseOps(job: Job): seq<Op> {
    if job.Event? && job.hasArgs then [ReleaseEvent(job.seqNo)] else []
  }

  /** The live path: a frame is routed to its target and then released. */
  function LiveOps(job: Job): seq<Op> {
    match job
    case Event(h, n, _) => [Deliver(h, n)] + ReleaseOps(job)
    case CleanupCall(h, n) => CleanupOps(h, n)
    case Barrier(t) => [Answer(t)]
  }

  /** The leftover path: the same, except that a frame is only released. */
  function LeftoverOps(job: Job): seq<Op> {
    match job
    case Event(_, _, _) => ReleaseOps(job)
    case CleanupCall(h, n) => CleanupOps(h, n)
    case Barrier(t) => [Answer(t)]
  }

  function OpsFor(x: Taken): seq<Op> {
    if !x.item.Work? then [] else if x.routed then LiveOps(x.item.job) else LeftoverOps(x.item.job)
  }

  // --- lock sections reached by callers and by the reader -------------------------------------

  function StartThread(s: State): State {
    s.(slot := Some(s.nextTid), threads := s.threads[s.nextTid := Thread(Live, [])], nextTid := s.nextTid + 1)
  }

  function EnsureThread(s: State): State {
    if s.slot.None? then StartThread(s) else s
  }

  function Put(s: State, item: Item): State {
    s.(queue := s.queue + [item])
  }

  function Accept(s: State, job: Job): State {
    var item := Work(job, s.sink, |s.accepted|);
    s.(queue := s.queue + [item], accepted := s.accepted + [item])
  }

  /** One frame from the sink; `None` is the end of the stream. */
  function Enqueue(s: State, frame: Option<Job>): State {
    if s.sink then
      EnsureThread(if frame.None? then Put(s, EndOfStream) else Accept(s, frame.value))
    else if frame.None? then s
    else if s.slot.None? then StartThread(Accept(Put(s, Idle), frame.value))
    else Accept(s, frame.value)
  }

  /** The sink goes up and its marker goes on the queue together. */
  function Install(s: State): State {
    s.(sink := true, era := s.era + 1, queue := s.queue + [Resume(s.era + 1)])
  }

  /** `streamEnded` says that the connection hands the end of the stream straight back. */
  function Arm(s: State, streamEnded: bool): State {
    EnsureThread(
      if s.sink then s else if streamEnded then Enqueue(Install(s), None) else Install(s))
  }

  function Retire(s: State): State {
    s.(sink := false, queue := s.queue + [Idle])
  }

  function ReleaseSinkIfIdle(s: State): State {
    if s.targets != map[] || s.cleanups != map[] || !s.sink then s else Retire(s)
  }

  predicate Refuses(s: State, handle: int, events: int) {
    handle in s.targets && s.targets[handle] != events
  }

  function Attach(s: State, handle: int, events: int, streamEnded: bool): State {
    if Refuses(s, handle, events) then s
    else Arm(s.(targets := s.targets[handle := events]), streamEnded)
  }

  function Detach(s: State, handle: int, events: int): State {
    ReleaseSinkIfIdle(
      if handle in s.targets && s.targets[handle] == events then s.(targets := s.targets - {handle}) else s)
  }

  function RegisterCleanup(s: State, handle: int, fn: int, streamEnded: bool): State {
    Arm(s.(cleanups := s.cleanups[handle := fn]), streamEnded)
  }

  function UnregisterCleanup(s: State, handle: int): State {
    ReleaseSinkIfIdle(s.(cleanups := s.cleanups - {handle}))
  }

  // --- one step of a dispatcher thread --------------------------------------------------------

  function SetThread(s: State, t: nat, th: Thread): State {
    s.(threads := s.threads[t := th])
  }

  function CallHead(s: State, t: nat): State
    requires t in s.threads && s.threads[t].hand != []
  {
    var th := s.threads[t];
    SetThread(s, t, th.(hand := th.hand[1..])).(trace := s.trace + [th.hand[0]])
  }

  /** The next owed call. Only dropping a registration touches the dispatcher's own state. */
  function RunOp(s: State, t: nat): State
    requires t in s.threads && s.threads[t].hand != []
  {
    var op := s.threads[t].hand[0];
    if op.Unregister? then UnregisterCleanup(CallHead(s, t), op.handle) else CallHead(s, t)
  }

  /** Put an item in the thread's hand; a marker or an end of stream leaves the hand empty. */
  function Take(s: State, t: nat, item: Item, routed: bool, next: Mode): State {
    if !item.Work? then SetThread(s, t, Thread(next, []))
    else
      var x := Taken(item, routed);
      SetThread(s, t, Thread(next, OpsFor(x))).(taken := s.taken + [x])
  }

  /** The live loop: a blocking get, then the four items that are the loop's own business. */
  function LiveStep(s: State, t: nat): State {
    if s.queue == [] then s
    else
      var item, s1 := s.queue[0], s.(queue := s.queue[1..]);
      Take(s1, t, item, true,
        if item.EndOfStream? then Ending([]) else if item.Idle? then Draining([], false) else Live)
  }

  /** The drain: handle the batch outside the lock; then, under the lock, stop if the sink is
      back, leave if the queue is empty, or take everything the queue holds. */
  function DrainStep(s: State, t: nat, batch: seq<Item>, ended: bool): State {
    if batch != [] then
      Take(s, t, batch[0], false, Draining(batch[1..], ended || batch[0].EndOfStream?))
    else if ended then SetThread(s, t, Thread(Ending([]), []))
    else if s.sink then SetThread(s, t, Thread(Fencing(s.era), []))
    else if s.queue == [] then SetThread(s, t, Thread(Unwinding, [])).(slot := None)
    else SetThread(s, t, Thread(Draining(s.queue, false), [])).(queue := [])
  }

  /** The fence: consume up to and including the marker of `era`. An end of stream met on the way has to
      go back on the queue, which takes a step of its own. */
  function FenceStep(s: State, t: nat, era: nat): State {
    if s.queue == [] then s
    else
      var item, s1 := s.queue[0], s.(queue := s.queue[1..]);
      if item == Resume(era) then SetThread(s1, t, Thread(Live, []))
      else if item.EndOfStream? then SetThread(s1, t, Thread(PuttingBack, []))
      else Take(s1, t, item, false, Fencing(era))
  }

  /** Neither the get nor the put takes the lock: anything may have been put on the queue in between. */
  function PutBackStep(s: State, t: nat): State {
    SetThread(Put(s, EndOfStream), t, Thread(Live, []))
  }

  /** The end of the stream: the same drain, but nothing interrupts it, and the sink and the slot
      go together once the queue is empty under the lock. */
  function EndStep(s: State, t: nat, batch: seq<Item>): State {
    if batch != [] then Take(s, t, batch[0], false, Ending(batch[1..]))
    else if s.queue == [] then SetThread(s, t, Thread(Unwinding, [])).(sink := false, slot := None)
    else SetThread(s, t, Thread(Ending(s.queue), [])).(queue := [])
  }

  /** The backstop every thread runs on its way out. */
  function Finish(s: State, t: nat): State {
    s.(threads := s.threads - {t}, slot := if s.slot == Some(t) then None else s.slot)
  }

  function ThreadStep(s: State, t: nat): State {
    if t !in s.threads then s
    else
      var th := s.threads[t];
      if th.hand != [] then RunOp(s, t)
      else
        match th.mode
        case Live => LiveStep(s, t)
        case Draining(b, e) => DrainStep(s, t, b, e)
        case Fencing(e) => FenceStep(s, t, e)
        case PuttingBack => PutBackStep(s, t)
        case Ending(b) => EndStep(s, t, b)
        case Unwinding => Finish(s, t)
  }

  // --- interleavings --------------------------------------------------------------------------

  datatype Action =
    | DoAttach(handle: int, events: int, streamEnded: bool)
    | DoDetach(handle: int, events: int)
    | DoRegister(handle: int, fn: int, streamEnded: bool)
    | DoUnregister(handle: int)
    | DoEnqueue(frame: Option<Job>)
    | DoThread(tid: nat)

  function Step(s: State, a: Action): State {
    match a
    case DoAttach(h, e, x) => Attach(s, h, e, x)
    case DoDetach(h, e) => Detach(s, h, e)
    case DoRegister(h, f, x) => RegisterCleanup(s, h, f, x)
    case DoUnregister(h) => UnregisterCleanup(s, h)
    case DoEnqueue(f) => Enqueue(s, f)
    case DoThread(t) => ThreadStep(s, t)
  }

  function Run(s: State, actions: seq<Action>): State
    decreases |actions|
  {
    if actions == [] then s else Run(Step(s, actions[0]), actions[1..])
  }

  lemma {:induction false} RunConcat(s: State, a: seq<Action>, b: seq<Action>)
    ensures Run(s, a + b) == Run(Run(s, a), b)
    decreases |a|
  {
    if a == [] {
      assert a + b == b;
    } else {
      assert (a + b)[1..] == a[1..] + b;
      RunConcat(Step(s, a[0]), a[1..], b);
    }
  }

  // --- several steps of one thread ------------------------------------------------------------

  function Steps(t: nat, n: nat): seq<Action> {
    if n == 0 then [] else [DoThread(t)] + Steps(t, n - 1)
  }

  /** The state after `n` steps of thread `t` with nothing in between. */
  function Stepped(s: State, t: nat, n: nat): State {
    Run(s, Steps(t, n))
  }

  lemma SteppedOnce(s: State, t: nat)
    ensures Stepped(s, t, 0) == s && Stepped(s, t, 1) == ThreadStep(s, t)
  {
    assert Steps(t, 0) == [] && Steps(t, 1) == [DoThread(t)];
    assert Run(s, [DoThread(t)]) == Run(ThreadStep(s, t), [DoThread(t)][1..]);
  }

  lemma {:induction false} SteppedOn(s: State, t: nat, m: nat, n: nat)
    ensures Stepped(Stepped(s, t, m), t, n) == Stepped(s, t, m + n)
    decreases m
  {
    if m > 0 {
      SteppedOn(ThreadStep(s, t), t, m - 1, n);
      assert Steps(t, m)[1..] == Steps(t, m - 1) && Steps(t, m + n)[1..] == Steps(t, m - 1 + n);
    }
  }
}
