/** Which frames can reach a target. A frame accepted while the sink was off must never be routed;
    the exact condition under which the fences guarantee it, over all continuations. */
module DispatcherFate {
  import opened Options
  import opened DispatcherModel
  import opened DispatcherInvariants
  import opened DispatcherFences
  import opened DispatcherRuns

  /** How the thread will treat what it takes next: route it, drop it until some later marker,
      drop it until the marker of one era, or drop everything. */
  datatype Phase = Armed | Retired | Until(era: nat) | Over

  function PhaseOf(m: Mode): Phase {
    match m
    case Live => Armed
    case Draining(b, ended) => if ended || EndOfStream in b then Over else Retired
    case Fencing(e) => Until(e)
    case PuttingBack => Armed
    case _ => Over
  }

  function Advance(p: Phase, x: Item): Phase {
    match p
    case Armed => if x.Idle? then Retired else if x.EndOfStream? then Over else Armed
    case Retired => if x.EndOfStream? then Armed else Retired
    case Until(e) => if x == Resume(e) || x.EndOfStream? then Armed else Until(e)
    case Over => Over
  }

  /** The phase behind `q`, on the assumption that the sink is up again, in a later era than any
      marker of `q`, whenever the thread looks. */
  function Replay(p: Phase, q: seq<Item>): Phase
    decreases |q|
  {
    if q == [] then p else Replay(Advance(p, q[0]), q[1..])
  }

  ghost function Outlook(s: State, q: seq<Item>): Phase {
    Replay(PhaseOf(Worker(s).mode), q)
  }

  lemma {:induction false} ReplayAppend(p: Phase, q: seq<Item>, x: Item)
    ensures Replay(p, q + [x]) == Advance(Replay(p, q), x)
    decreases |q|
  {
    if q != [] {
      assert (q + [x])[1..] == q[1..] + [x];
      ReplayAppend(Advance(p, q[0]), q[1..], x);
    } else {
      assert q + [x] == [x];
    }
  }

  lemma ReplayHead(p: Phase, q: seq<Item>, i: nat)
    requires i < |q|
    ensures Replay(p, q[..i + 1]) == Replay(Advance(p, q[0]), q[1..][..i])
  {
    assert q[..i + 1][1..] == q[1..][..i];
  }

  lemma {:induction false} ReplayOver(q: seq<Item>)
    ensures Replay(Over, q) == Over
  {
    if q != [] {
      ReplayOver(q[1..]);
    }
  }

  /** Retired or fencing: the same outlook on whatever stands in front of the marker. */
  lemma {:induction false} RetiredIsUntil(q: seq<Item>, e: nat)
    requires Resume(e) !in q
    ensures Replay(Retired, q) == Armed <==> Replay(Until(e), q) == Armed
  {
    if q != [] {
      if !q[0].EndOfStream? {
        RetiredIsUntil(q[1..], e);
      }
    }
  }

  // --- a frame the fences hold back -----------------------------------------------------------

  ghost predicate Routed(s: State, no: nat) {
    exists x <- s.taken :: x.item.Work? && x.item.no == no && x.routed
  }

  /** Item `no` is held back: it has not been routed, and wherever it stands on the queue the
      outlook in front of it is not armed. */
  ghost predicate Held(s: State, no: nat) {
    && !Routed(s, no)
    && (forall i | 0 <= i < |s.queue| && s.queue[i].Work? && s.queue[i].no == no :: Outlook(s, s.queue[..i]) != Armed)
  }

  ghost predicate WasOff(s: State, no: nat) {
    no < |s.accepted| && Off(s.accepted[no])
  }

  lemma {:induction false} WorksAreItems(q: seq<Item>, x: Item)
    requires x in q && x.Work?
    ensures x in Works(q)
  {
    if q[0] != x {
      WorksAreItems(q[1..], x);
    }
  }

  /** What stands on the queue is what was accepted under its number. */
  lemma QueuedWasAccepted(s: State, i: nat)
    requires Conserved(s) && i < |s.queue| && s.queue[i].Work?
    ensures s.queue[i].no < |s.accepted| && s.accepted[s.queue[i].no] == s.queue[i]
  {
    var x := s.queue[i];
    assert Flow(s)[|Batch(Worker(s).mode)| + i] == x;
    WorksAreItems(Flow(s), x);
    assert x in s.accepted;
  }

  /** Steps that only append items numbered differently, and leave the thread's phase alone. */
  lemma AppendKeepsHeld(s: State, s': State, more: seq<Item>, no: nat)
    requires Held(s, no) && s'.queue == s.queue + more && s'.taken == s.taken
    requires s.queue != [] ==> PhaseOf(Worker(s').mode) == PhaseOf(Worker(s).mode)
    requires forall x <- more :: x.Work? ==> x.no != no
    ensures Held(s', no)
  {
    forall i | 0 <= i < |s'.queue| && s'.queue[i].Work? && s'.queue[i].no == no
      ensures Outlook(s', s'.queue[..i]) != Armed
    {
      assert i < |s.queue|;
      assert s'.queue[..i] == s.queue[..i];
    }
  }

  /** Steps that take the head of the queue and change the phase as `Advance` says. */
  lemma ConsumeKeepsHeld(s: State, s': State, no: nat)
    requires Held(s, no) && !Routed(s', no) && s.queue != [] && s'.queue == s.queue[1..]
    requires PhaseOf(Worker(s').mode) == Advance(PhaseOf(Worker(s).mode), s.queue[0])
    ensures Held(s', no)
  {
    forall i | 0 <= i < |s'.queue| && s'.queue[i].Work? && s'.queue[i].no == no
      ensures Outlook(s', s'.queue[..i]) != Armed
    {
      assert i < |s.queue| - 1;
      assert s.queue[i + 1] == s'.queue[i];
      ReplayHead(PhaseOf(Worker(s).mode), s.queue, i);
      assert s'.queue[..i] == s.queue[1..][..i];
    }
  }

  lemma EnqueueKeepsHeld(s: State, frame: Option<Job>, no: nat)
    requires OneThread(s) && no < |s.accepted| && Held(s, no)
    ensures Held(Enqueue(s, frame), no)
  {
    var s' := Enqueue(s, frame);
    var last := if frame.None? then EndOfStream else Work(frame.value, s.sink, |s.accepted|);
    if s.sink || frame.Some? {
      AppendKeepsHeld(s, s', (if s.slot.None? && !s.sink then [Idle] else []) + [last], no);
    }
  }

  lemma ArmKeepsHeld(s: State, ended: bool, no: nat)
    requires OneThread(s) && Held(s, no)
    ensures Held(Arm(s, ended), no)
  {
    if !s.sink {
      AppendKeepsHeld(s, Arm(s, ended), [Resume(s.era + 1)] + (if ended then [EndOfStream] else []), no);
    }
  }

  lemma ReleaseKeepsHeld(s: State, no: nat)
    requires OneThread(s) && Held(s, no)
    ensures Held(ReleaseSinkIfIdle(s), no)
  {
    AppendKeepsHeld(s, Retire(s), [Idle], no);
  }

  lemma RegistrationsKeepHeld(s: State, targets: map<int, int>, cleanups: map<int, int>, no: nat)
    requires OneThread(s) && Held(s, no)
    ensures OneThread(s.(targets := targets, cleanups := cleanups))
    ensures Held(s.(targets := targets, cleanups := cleanups), no)
  {
    AppendKeepsHeld(s, s.(targets := targets, cleanups := cleanups), [], no);
  }

  lemma CallersKeepHeld(s: State, a: Action, no: nat)
    requires Inv(s) && WasOff(s, no) && Held(s, no) && !a.DoThread?
    ensures Held(Step(s, a), no)
  {
    hide OneThread, Conserved, Marked, Held, Arm, ReleaseSinkIfIdle, Enqueue;
    match a
    case DoAttach(h, e, x) =>
      RegistrationsKeepHeld(s, s.targets[h := e], s.cleanups, no);
      ArmKeepsHeld(s.(targets := s.targets[h := e]), x, no);
    case DoDetach(h, e) =>
      RegistrationsKeepHeld(s, s.targets - {h}, s.cleanups, no);
      ReleaseKeepsHeld(s.(targets := s.targets - {h}), no);
      ReleaseKeepsHeld(s, no);
    case DoRegister(h, f, x) =>
      RegistrationsKeepHeld(s, s.targets, s.cleanups[h := f], no);
      ArmKeepsHeld(s.(cleanups := s.cleanups[h := f]), x, no);
    case DoUnregister(h) =>
      RegistrationsKeepHeld(s, s.targets, s.cleanups - {h}, no);
      ReleaseKeepsHeld(s.(cleanups := s.cleanups - {h}), no);
    case DoEnqueue(f) => EnqueueKeepsHeld(s, f, no);
  }

  lemma RunOpKeepsHeld(s: State, t: nat, no: nat)
    requires OneThread(s) && Held(s, no) && t in s.threads && s.threads[t].hand != []
    ensures Held(RunOp(s, t), no)
  {
    var s1 := CallHead(s, t);
    AppendKeepsHeld(s, s1, [], no);
    RunOpKeepsOneThread(s, t);
    if s.threads[t].hand[0].Unregister? {
      var s2 := s1.(cleanups := s1.cleanups - {s.threads[t].hand[0].handle});
      AppendKeepsHeld(s1, s2, [], no);
      AppendKeepsHeld(s2, Retire(s2), [Idle], no);
    }
  }

  lemma LiveKeepsHeld(s: State, t: nat, no: nat)
    requires OneThread(s) && Held(s, no) && s.slot == Some(t) && s.threads[t].mode.Live?
    ensures Held(LiveStep(s, t), no)
  {
    if s.queue != [] {
      assert s.queue[0].Work? && s.queue[0].no == no ==> Outlook(s, s.queue[..0]) != Armed;
      ConsumeKeepsHeld(s, LiveStep(s, t), no);
    }
  }

  lemma BatchPhase(batch: seq<Item>, ended: bool)
    requires batch != []
    ensures PhaseOf(Draining(batch[1..], ended || batch[0].EndOfStream?)) == PhaseOf(Draining(batch, ended))
  {
    assert batch == [batch[0]] + batch[1..];
  }

  lemma SamePhaseKeepsHeld(s: State, s': State, no: nat)
    requires Held(s, no) && !Routed(s', no) && s'.queue == s.queue
    requires PhaseOf(Worker(s').mode) == PhaseOf(Worker(s).mode)
    ensures Held(s', no)
  {
  }

  lemma FencingKeepsHeld(s: State, s': State, no: nat)
    requires Conserved(s) && Marked(s) && s.sink && WasOff(s, no) && Held(s, no) && PhaseOf(Worker(s).mode) == Retired
    requires s'.queue == s.queue && s'.taken == s.taken && PhaseOf(Worker(s').mode) == Until(s.era)
    ensures Held(s', no)
  {
    forall i | 0 <= i < |s'.queue| && s'.queue[i].Work? && s'.queue[i].no == no
      ensures Outlook(s', s'.queue[..i]) != Armed
    {
      QueuedWasAccepted(s, i);
      OffIsAheadOfMarker(s.queue, s.era, i);
      RetiredIsUntil(s.queue[..i], s.era);
    }
  }

  lemma BatchKeepsHeld(s: State, t: nat, batch: seq<Item>, ended: bool, no: nat)
    requires Held(s, no) && s.slot == Some(t) && t in s.threads
    requires s.threads[t].mode == Draining(batch, ended) && batch != []
    ensures Held(DrainStep(s, t, batch, ended), no)
  {
    BatchPhase(batch, ended);
    SamePhaseKeepsHeld(s, DrainStep(s, t, batch, ended), no);
  }

  lemma DrainKeepsHeld(s: State, t: nat, batch: seq<Item>, ended: bool, no: nat)
    requires Inv(s) && WasOff(s, no) && Held(s, no)
    requires s.slot == Some(t) && s.threads[t].mode == Draining(batch, ended)
    ensures Held(DrainStep(s, t, batch, ended), no)
  {
    var s' := DrainStep(s, t, batch, ended);
    if batch != [] {
      BatchKeepsHeld(s, t, batch, ended, no);
    } else if ended {
      SamePhaseKeepsHeld(s, s', no);
    } else if s.sink {
      FencingKeepsHeld(s, s', no);
    }
  }

  lemma FenceKeepsHeld(s: State, t: nat, era: nat, no: nat)
    requires OneThread(s) && Held(s, no) && s.slot == Some(t) && s.threads[t].mode == Fencing(era)
    ensures Held(FenceStep(s, t, era), no)
  {
    if s.queue != [] {
      ConsumeKeepsHeld(s, FenceStep(s, t, era), no);
    }
  }

  lemma PutBackKeepsHeld(s: State, t: nat, no: nat)
    requires OneThread(s) && Held(s, no) && s.slot == Some(t) && s.threads[t].mode.PuttingBack?
    ensures Held(PutBackStep(s, t), no)
  {
    AppendKeepsHeld(s, PutBackStep(s, t), [EndOfStream], no);
  }

  lemma EndKeepsHeld(s: State, t: nat, batch: seq<Item>, no: nat)
    requires OneThread(s) && Held(s, no) && s.slot == Some(t) && s.threads[t].mode == Ending(batch)
    ensures Held(EndStep(s, t, batch), no)
  {
  }

  /** Once held back, held back for ever: whatever any thread, caller or reader does next. */
  lemma StepKeepsHeld(s: State, a: Action, no: nat)
    requires Inv(s) && WasOff(s, no) && Held(s, no)
    ensures Held(Step(s, a), no)
  {
    if !a.DoThread? {
      CallersKeepHeld(s, a, no);
    } else if a.tid in s.threads {
      var t, th := a.tid, s.threads[a.tid];
      if th.hand != [] {
        RunOpKeepsHeld(s, t, no);
      } else {
        match th.mode
        case Live => LiveKeepsHeld(s, t, no);
        case Draining(b, e) => DrainKeepsHeld(s, t, b, e, no);
        case Fencing(e) => FenceKeepsHeld(s, t, e, no);
        case PuttingBack => PutBackKeepsHeld(s, t, no);
        case Ending(b) => EndKeepsHeld(s, t, b, no);
        case Unwinding => AppendKeepsHeld(s, Finish(s, t), [], no);
      }
    }
  }

  lemma {:induction false} RunKeepsHeld(s: State, actions: seq<Action>, no: nat)
    requires Inv(s) && WasOff(s, no) && Held(s, no)
    ensures Held(Run(s, actions), no)
    decreases |actions|
  {
    if actions != [] {
      StepKeepsInv(s, actions[0]);
      StepKeepsHeld(s, actions[0], no);
      OnlyFramesAreAccepted(s, actions[0]);
      RunKeepsHeld(Step(s, actions[0]), actions[1..], no);
    }
  }

  // --- a frame the fences let through ---------------------------------------------------------

  /** Item `x` stands at place `i` and the outlook in front of it is armed. */
  ghost predicate Facing(s: State, i: nat, x: Item) {
    && s.slot.Some? && i < |s.queue| && Off(x) && s.queue[i] == x
    && Outlook(s, s.queue[..i]) == Armed
  }

  /** The same with the sink up and a target attached for `h`. */
  ghost predicate Awaiting(s: State, h: int, i: nat, x: Item) {
    Facing(s, i, x) && s.sink && h in s.targets
  }

  /** The live loop has taken `x`, with everything that leads to still to be done, and `h` has a target:
      when `x` is an event of `h`, its delivery to that target is the thread's next call. */
  ghost predicate Reached(s: State, h: int, x: Item) {
    && x.Work? && Taken(x, true) in s.taken && h in s.targets
    && s.slot.Some? && s.slot.value in s.threads && s.threads[s.slot.value].hand == LiveOps(x.job)
  }

  function Rank(m: Mode): nat {
    match m
    case Draining(_, _) => 2
    case Fencing(_) => 1
    case PuttingBack => 1
    case _ => 0
  }

  /** The thread steps that do not take from the queue leave the outlook alone. */
  lemma FacingStays(s: State, s': State, more: seq<Item>, i: nat, x: Item)
    requires Facing(s, i, x) && s'.slot.Some? && s'.queue == s.queue + more
    requires Replay(PhaseOf(Worker(s').mode), s.queue[..i]) == Armed
    ensures Facing(s', i, x)
  {
    assert s'.queue[..i] == s.queue[..i];
  }

  lemma FacingAdvances(s: State, s': State, i: nat, x: Item)
    requires Facing(s, i, x) && i > 0 && s'.slot.Some? && s'.queue == s.queue[1..]
    requires PhaseOf(Worker(s').mode) == Advance(PhaseOf(Worker(s).mode), s.queue[0])
    ensures Facing(s', i - 1, x)
  {
    ReplayHead(PhaseOf(Worker(s).mode), s.queue, i - 1);
    assert s'.queue[..i - 1] == s.queue[1..][..i - 1];
  }

  /** An attach after the end of the stream: the connection hands the end straight back. */
  lemma AttachKeepsFacing(s: State, h: int, e: int, i: nat, x: Item)
    requires Inv(s) && Facing(s, i, x) && !s.sink && !Refuses(s, h, e)
    ensures var s1 := Attach(s, h, e, true);
      s1.slot == s.slot && Worker(s1) == Worker(s) && Awaiting(s1, h, i, x)
  {
    hide Conserved, Marked;
    FacingStays(s, Attach(s, h, e, true), [Resume(s.era + 1), EndOfStream], i, x);
  }

  lemma HandDrives(s: State, h: int, i: nat, x: Item)
    requires Inv(s) && Awaiting(s, h, i, x) && Worker(s).hand != []
    ensures var s' := ThreadStep(s, s.slot.value);
      Awaiting(s', h, i, x) && Worker(s').mode == Worker(s).mode && |Worker(s').hand| < |Worker(s).hand|
  {
    hide Conserved, Marked;
    FacingStays(s, RunOp(s, s.slot.value), [], i, x);
  }

  lemma LiveDrives(s: State, h: int, i: nat, x: Item)
    requires Inv(s) && Awaiting(s, h, i, x) && Worker(s) == Thread(Live, [])
    ensures var s' := ThreadStep(s, s.slot.value);
      if i == 0 then Reached(s', h, x) else Awaiting(s', h, i - 1, x)
  {
    hide Conserved, Marked;
    var s' := LiveStep(s, s.slot.value);
    if i == 0 {
      assert Taken(x, true) in s'.taken;
    } else {
      FacingAdvances(s, s', i, x);
    }
  }

  lemma DrainDrives(s: State, h: int, i: nat, x: Item, batch: seq<Item>, ended: bool)
    requires Inv(s) && Awaiting(s, h, i, x) && Worker(s) == Thread(Draining(batch, ended), [])
    ensures var s' := ThreadStep(s, s.slot.value);
      && Awaiting(s', h, i, x)
      && (if batch == [] then Rank(Worker(s').mode) == 1 && Batch(Worker(s').mode) == []
          else Batch(Worker(s').mode) == batch[1..])
  {
    hide Conserved;
    ReplayOver(s.queue[..i]);
    var s' := DrainStep(s, s.slot.value, batch, ended);
    if batch == [] {
      OffIsAheadOfMarker(s.queue, s.era, i);
      RetiredIsUntil(s.queue[..i], s.era);
    } else {
      BatchPhase(batch, ended);
    }
    FacingStays(s, s', [], i, x);
  }

  lemma FenceDrives(s: State, h: int, i: nat, x: Item, era: nat)
    requires Inv(s) && Awaiting(s, h, i, x) && Worker(s) == Thread(Fencing(era), [])
    ensures i > 0 && Awaiting(ThreadStep(s, s.slot.value), h, i - 1, x)
  {
    hide Conserved;
    FacingAdvances(s, FenceStep(s, s.slot.value, era), i, x);
  }

  lemma PutBackDrives(s: State, h: int, i: nat, x: Item)
    requires Inv(s) && Awaiting(s, h, i, x) && Worker(s) == Thread(PuttingBack, [])
    ensures var s' := ThreadStep(s, s.slot.value);
      Awaiting(s', h, i, x) && Rank(Worker(s').mode) == 0 && Batch(Worker(s').mode) == []
  {
    hide Conserved, Marked;
    FacingStays(s, PutBackStep(s, s.slot.value), [EndOfStream], i, x);
  }

  lemma WorkerDrives(s: State, h: int, i: nat, x: Item) returns (j: nat)
    requires Inv(s) && Awaiting(s, h, i, x)
    ensures var s' := ThreadStep(s, s.slot.value);
      Reached(s', h, x) || (Awaiting(s', h, j, x) && Nearer(s', j, s, i))
  {
    hide OneThread, Conserved, Marked, ThreadStep, Reached;
    j := i;
    ReplayOver(s.queue[..i]);
    if Worker(s).hand != [] {
      HandDrives(s, h, i, x);
    } else {
      match Worker(s).mode
      case Live => LiveDrives(s, h, i, x); j := if i == 0 then 0 else i - 1;
      case Draining(b, e) => DrainDrives(s, h, i, x, b, e);
      case Fencing(e) => FenceDrives(s, h, i, x, e); j := i - 1;
      case PuttingBack => PutBackDrives(s, h, i, x);
      case _ =>
    }
  }

  ghost predicate Nearer(s': State, j: nat, s: State, i: nat) {
    var (b', b) := (|Batch(Worker(s').mode)|, |Batch(Worker(s).mode)|);
    var (r', r) := (Rank(Worker(s').mode), Rank(Worker(s).mode));
    j < i || (j == i && (b' < b || (b' == b && (r' < r || (r' == r && |Worker(s').hand| < |Worker(s).hand|)))))
  }

  /** One step of the thread, which stays in the slot. */
  lemma Round(s: State, h: int, i: nat, x: Item) returns (j: nat)
    requires Inv(s) && Awaiting(s, h, i, x)
    ensures var s' := Step(s, DoThread(s.slot.value));
      && Inv(s') && s'.slot == s.slot
      && (Reached(s', h, x) || (Awaiting(s', h, j, x) && Nearer(s', j, s, i)))
  {
    hide OneThread, Conserved, Marked, ThreadStep, Nearer;
    j := WorkerDrives(s, h, i, x);
    StepKeepsInv(s, DoThread(s.slot.value));
    OwnStepKeeps(s, s.slot.value);
  }

  /** With the target attached nothing but the thread's own steps is needed. */
  lemma {:induction false} Drive(s: State, h: int, i: nat, x: Item) returns (n: nat)
    requires Inv(s) && Awaiting(s, h, i, x)
    ensures Reached(Run(s, Steps(s.slot.value, n)), h, x)
    decreases i, |Batch(Worker(s).mode)|, Rank(Worker(s).mode), |Worker(s).hand|
  {
    hide Inv, ThreadStep, Reached;
    var t := s.slot.value;
    var j := Round(s, h, i, x);
    var s', rest := Step(s, DoThread(t)), 0;
    if !Reached(s', h, x) {
      rest := Drive(s', h, j, x);
    }
    RunOne(s, DoThread(t), Steps(t, rest));
    n := rest + 1;
  }

  // --- the exact condition --------------------------------------------------------------------

  /** What `Enqueue` would find: the sink off, a thread in the slot, and that thread, once it has
      worked through the queue with the sink back up, in its live loop. */
  ghost predicate Exposed(s: State) {
    !s.sink && s.slot.Some? && Outlook(s, s.queue) == Armed
  }

  /** Where the new item stands, and that its number is new. */
  lemma AcceptedLast(s: State, job: Job)
    requires Inv(s) && !s.sink
    ensures var s1, no := Enqueue(s, Some(job)), |s.accepted|;
      && s1.queue == (if s.slot.None? then [Idle] else s.queue) + [Work(job, false, no)]
      && !Routed(s1, no)
      && (forall x <- s1.queue[..|s1.queue| - 1] :: x.Work? ==> x.no != no)
  {
    hide Conserved, Marked;
    var s1, no := Enqueue(s, Some(job)), |s.accepted|;
    forall x <- s1.queue[..|s1.queue| - 1] ensures x.Work? ==> x.no != no {
      if x.Work? {
        var i :| 0 <= i < |s.queue| && s.queue[i] == x;
        QueuedWasAccepted(s, i);
      }
    }
    forall x <- s.taken ensures !(x.item.Work? && x.item.no == no) {
      TakenWasAccepted(s, x);
    }
  }

  lemma AcceptedOff(s: State, job: Job)
    requires Inv(s) && !s.sink
    ensures var s1, x := Enqueue(s, Some(job)), Work(job, false, |s.accepted|);
      && WasOff(s1, x.no)
      && (if Exposed(s) then Facing(s1, |s.queue|, x) else Held(s1, x.no))
  {
    hide Conserved, Marked;
    var s1 := Enqueue(s, Some(job));
    AcceptedLast(s, job);
    var n := |s1.queue| - 1;
    if s.slot.Some? {
      assert s1.queue[..n] == s.queue;
    } else {
      assert s1.queue[..n] == [Idle];
      ReplayAppend(Armed, [], Idle);
      assert [] + [Idle] == [Idle];
    }
  }

  lemma TakenWasAccepted(s: State, x: Taken)
    requires Conserved(s) && x in s.taken
    ensures x.item in s.accepted && x.item.Work? && x.item.no < |s.accepted|
  {
    ItemsLength(s.taken);
    assert x.item in Items(s.taken);
  }

  ghost predicate CanRoute(s: State, no: nat) {
    exists actions :: Routed(Run(s, actions), no)
  }

  /** A continuation that the client can make after the end of the stream: `e` attaches for `h`, and the
      thread runs. */
  ghost predicate Reaches(s: State, h: int, e: int, n: nat, x: Item) {
    && s.slot.Some? && !Refuses(s, h, e)
    && Reached(Run(s, [DoAttach(h, e, true)] + Steps(s.slot.value, n)), h, x)
  }

  ghost predicate CanReach(s: State, h: int, e: int, x: Item) {
    exists n :: Reaches(s, h, e, n, x)
  }

  lemma FacingReaches(s: State, h: int, e: int, i: nat, x: Item)
    requires Inv(s) && !s.sink && Facing(s, i, x) && !Refuses(s, h, e)
    ensures CanReach(s, h, e, x)
  {
    hide Inv, Reached;
    var a := DoAttach(h, e, true);
    StepKeepsInv(s, a);
    AttachKeepsFacing(s, h, e, i, x);
    var n := Drive(Step(s, a), h, i, x);
    RunOne(s, a, Steps(s.slot.value, n));
    assert Reaches(s, h, e, n, x);
  }

  lemma ReachedIsRouted(s: State, h: int, e: int, x: Item)
    requires CanReach(s, h, e, x)
    ensures CanRoute(s, x.no)
  {
    hide Refuses;
    var n :| Reaches(s, h, e, n, x);
    var actions := [DoAttach(h, e, true)] + Steps(s.slot.value, n);
    assert Taken(x, true) in Run(s, actions).taken;
    assert Routed(Run(s, actions), x.no);
  }

  /** Exactly: a frame accepted while the sink was off can still be routed, in any continuation whatever,
      if and only if it was accepted in an exposed state; and then, for any target that can attach now,
      one attach after the end of the stream and the thread's own steps bring the frame in front of it. */
  lemma RoutableIffExposed(s: State, job: Job, h: int, e: int)
    requires Inv(s) && !s.sink
    ensures CanRoute(Enqueue(s, Some(job)), |s.accepted|) <==> Exposed(s)
    ensures !Refuses(s, h, e) ==>
      (CanReach(Enqueue(s, Some(job)), h, e, Work(job, false, |s.accepted|)) <==> Exposed(s))
  {
    hide Inv, Reached;
    var s1, x := Enqueue(s, Some(job)), Work(job, false, |s.accepted|);
    AcceptedOff(s, job);
    EnqueueKeepsInv(s, Some(job));
    if Exposed(s) {
      var e' := if h in s.targets then s.targets[h] else e;
      FacingReaches(s1, h, e', |s.queue|, x);
      ReachedIsRouted(s1, h, e', x);
    } else {
      forall actions ensures !Routed(Run(s1, actions), x.no) {
        RunKeepsHeld(s1, actions, x.no);
      }
      if CanReach(s1, h, e, x) {
        ReachedIsRouted(s1, h, e, x);
      }
    }
  }
}
