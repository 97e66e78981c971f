/** The promise of the two markers, over whole runs: a frame accepted while the connection had no
    registrations is never routed, as long as no frame follows the end of the stream. */
module DispatcherSafety {
  import opened Options
  import opened DispatcherModel
  import opened DispatcherInvariants
  import opened DispatcherFences
  import opened DispatcherRuns
  import opened DispatcherFate

  /** Actions that show that the stream is over. */
  predicate Ends(a: Action) {
    match a
    case DoEnqueue(frame) => frame.None?
    case DoAttach(_, _, ended) => ended
    case DoRegister(_, _, ended) => ended
    case _ => false
  }

  /** No frame is accepted in an exposed state. */
  ghost predicate Guarded(s: State, actions: seq<Action>)
    decreases |actions|
  {
    actions == [] || ((Accepts(actions[0]) ==> !Exposed(s)) && Guarded(Step(s, actions[0]), actions[1..]))
  }

  /** The reader's discipline: the end of the stream is the last thing it delivers. */
  predicate Disciplined(actions: seq<Action>) {
    forall i, j | 0 <= i < j < |actions| && Ends(actions[i]) :: !Accepts(actions[j])
  }

  ghost predicate AllHeld(s: State) {
    forall no | 0 <= no < |s.accepted| && WasOff(s, no) :: Held(s, no)
  }

  lemma StepKeepsAllHeld(s: State, a: Action)
    requires Inv(s) && AllHeld(s) && (Accepts(a) ==> !Exposed(s))
    ensures AllHeld(Step(s, a))
  {
    hide OneThread, Conserved, Marked, Held, Exposed, Outlook, ThreadStep;
    var s' := Step(s, a);
    OnlyFramesAreAccepted(s, a);
    forall no | 0 <= no < |s'.accepted| && WasOff(s', no) ensures Held(s', no) {
      if no < |s.accepted| {
        assert WasOff(s, no);
        StepKeepsHeld(s, a, no);
      } else {
        AcceptedOff(s, a.frame.value);
      }
    }
  }

  lemma {:induction false} RunKeepsAllHeld(s: State, actions: seq<Action>)
    requires Inv(s) && AllHeld(s) && Guarded(s, actions)
    ensures AllHeld(Run(s, actions))
    decreases |actions|
  {
    if actions != [] {
      StepKeepsInv(s, actions[0]);
      StepKeepsAllHeld(s, actions[0]);
      RunKeepsAllHeld(Step(s, actions[0]), actions[1..]);
    }
  }

  /** In every guarded interleaving, with any number of retirements and re-arms, whatever the live
      loop took was accepted while the sink was on. */
  lemma OffFramesAreNeverRouted(actions: seq<Action>)
    requires Guarded(INIT, actions)
    ensures forall x <- Run(INIT, actions).taken :: x.item.Work? && x.routed ==> x.item.armed
  {
    InitInv();
    RunKeepsInv(INIT, actions);
    RunKeepsAllHeld(INIT, actions);
    var s := Run(INIT, actions);
    forall x <- s.taken ensures x.item.Work? && x.routed ==> x.item.armed {
      TakenWasAccepted(s, x);
      if x.item.Work? && !x.item.armed {
        assert WasOff(s, x.item.no);
        assert Held(s, x.item.no);
      }
    }
  }

  // --- before the end of the stream no state is exposed ---------------------------------------

  /** No end of stream is anywhere, and no state like this one is exposed. */
  ghost predicate Calm(s: State) {
    && EndOfStream !in Flow(s)
    && !Worker(s).mode.Ending? && !Worker(s).mode.PuttingBack?
    && (Worker(s).mode.Draining? ==> !Worker(s).mode.ended)
    && !Exposed(s)
  }

  lemma AppendKeepsCalm(s: State, s': State, x: Item)
    requires Calm(s) && s.slot.Some? && s'.slot == s.slot && Worker(s').mode == Worker(s).mode
    requires s'.queue == s.queue + [x] && !x.EndOfStream?
    requires s'.sink || x.Idle? || (!s.sink && x.Work?)
    ensures Calm(s')
  {
    assert Flow(s') == Flow(s) + [x];
    ReplayAppend(PhaseOf(Worker(s).mode), s.queue, x);
  }

  lemma FirstThreadIsCalm(s': State)
    requires s'.slot.Some? && Worker(s').mode.Live?
    requires s'.sink || (|s'.queue| == 2 && s'.queue[0] == Idle && s'.queue[1].Work?)
    requires EndOfStream !in s'.queue
    ensures Calm(s')
  {
    if !s'.sink {
      ReplayAppend(Armed, [Idle], s'.queue[1]);
      ReplayAppend(Armed, [], Idle);
      assert s'.queue == [Idle] + [s'.queue[1]] && [Idle] == [] + [Idle];
    }
  }

  lemma ArmKeepsCalm(s: State)
    requires OneThread(s) && Calm(s)
    ensures Calm(Arm(s, false)) && Calm(ReleaseSinkIfIdle(s))
  {
    if s.slot.Some? {
      if !s.sink {
        AppendKeepsCalm(s, Arm(s, false), Resume(s.era + 1));
      }
      AppendKeepsCalm(s, Retire(s), Idle);
    } else {
      FirstThreadIsCalm(Arm(s, false));
    }
  }

  lemma EnqueueKeepsCalm(s: State, job: Job)
    requires OneThread(s) && Calm(s)
    ensures Calm(Enqueue(s, Some(job)))
  {
    if s.slot.Some? {
      AppendKeepsCalm(s, Enqueue(s, Some(job)), Work(job, s.sink, |s.accepted|));
    } else {
      FirstThreadIsCalm(Enqueue(s, Some(job)));
    }
  }

  lemma ConsumeKeepsCalm(s: State, s': State)
    requires Calm(s) && s.slot.Some? && s'.slot == s.slot && s'.sink == s.sink && s.queue != []
    requires s'.queue == s.queue[1..] && Batch(Worker(s).mode) == Batch(Worker(s').mode) == []
    requires PhaseOf(Worker(s').mode) == Advance(PhaseOf(Worker(s).mode), s.queue[0])
    requires !Worker(s').mode.Ending? && !Worker(s').mode.PuttingBack?
    requires Worker(s').mode.Draining? ==> !Worker(s').mode.ended
    ensures Calm(s')
  {
    assert Flow(s) == [s.queue[0]] + Flow(s');
  }

  lemma RunOpKeepsCalm(s: State, t: nat)
    requires OneThread(s) && Calm(s) && t in s.threads && s.threads[t].hand != []
    ensures Calm(RunOp(s, t))
  {
    var s1 := CallHead(s, t);
    assert Calm(s1);
    RunOpKeepsOneThread(s, t);
    if s.threads[t].hand[0].Unregister? {
      var s2 := s1.(cleanups := s1.cleanups - {s.threads[t].hand[0].handle});
      assert Calm(s2);
      AppendKeepsCalm(s2, Retire(s2), Idle);
    }
  }

  lemma BatchKeepsCalm(s: State, t: nat, batch: seq<Item>)
    requires OneThread(s) && Calm(s) && s.slot == Some(t) && s.threads[t].mode == Draining(batch, false) && batch != []
    ensures Calm(DrainStep(s, t, batch, false))
  {
    var s' := DrainStep(s, t, batch, false);
    assert batch[0] in Flow(s);
    BatchPhase(batch, false);
    assert Flow(s') == batch[1..] + s.queue;
    assert Flow(s) == [batch[0]] + Flow(s');
  }

  lemma DrainKeepsCalm(s: State, t: nat, batch: seq<Item>)
    requires OneThread(s) && Calm(s) && s.slot == Some(t) && s.threads[t].mode == Draining(batch, false)
    ensures Calm(DrainStep(s, t, batch, false))
  {
    if batch != [] {
      BatchKeepsCalm(s, t, batch);
    } else {
      var s' := DrainStep(s, t, batch, false);
      assert Flow(s) == s.queue && (s'.slot.None? || Flow(s') == s.queue);
    }
  }

  lemma LiveKeepsCalm(s: State, t: nat)
    requires OneThread(s) && Calm(s) && s.slot == Some(t) && s.threads[t].mode.Live?
    ensures Calm(LiveStep(s, t))
  {
    if s.queue != [] {
      assert s.queue[0] in Flow(s);
      ConsumeKeepsCalm(s, LiveStep(s, t));
    }
  }

  lemma FenceKeepsCalm(s: State, t: nat, era: nat)
    requires OneThread(s) && Calm(s) && s.slot == Some(t) && s.threads[t].mode == Fencing(era)
    ensures Calm(FenceStep(s, t, era))
  {
    if s.queue != [] {
      assert s.queue[0] in Flow(s);
      ConsumeKeepsCalm(s, FenceStep(s, t, era));
    }
  }

  lemma ThreadKeepsCalm(s: State, t: nat)
    requires OneThread(s) && Calm(s)
    ensures Calm(ThreadStep(s, t))
  {
    if t in s.threads {
      var th := s.threads[t];
      if th.hand != [] {
        RunOpKeepsCalm(s, t);
      } else {
        match th.mode
        case Live => LiveKeepsCalm(s, t);
        case Draining(b, _) => DrainKeepsCalm(s, t, b);
        case Fencing(e) => FenceKeepsCalm(s, t, e);
        case PuttingBack => assert false;
        case Ending(b) => assert false;
        case Unwinding => assert Flow(Finish(s, t)) == Flow(s);
      }
    }
  }

  lemma RegistrationsKeepCalm(s: State, targets: map<int, int>, cleanups: map<int, int>)
    requires OneThread(s) && Calm(s)
    ensures OneThread(s.(targets := targets, cleanups := cleanups))
    ensures Calm(s.(targets := targets, cleanups := cleanups))
  {
  }

  lemma StepKeepsCalm(s: State, a: Action)
    requires Inv(s) && Calm(s) && !Ends(a)
    ensures Calm(Step(s, a))
  {
    hide OneThread, Conserved, Marked, Calm, ThreadStep, Enqueue, ReleaseSinkIfIdle, Arm;
    match a
    case DoAttach(h, e, x) =>
      RegistrationsKeepCalm(s, s.targets[h := e], s.cleanups);
      ArmKeepsCalm(s.(targets := s.targets[h := e]));
    case DoDetach(h, e) =>
      RegistrationsKeepCalm(s, s.targets - {h}, s.cleanups);
      ArmKeepsCalm(s.(targets := s.targets - {h}));
      ArmKeepsCalm(s);
    case DoRegister(h, f, x) =>
      RegistrationsKeepCalm(s, s.targets, s.cleanups[h := f]);
      ArmKeepsCalm(s.(cleanups := s.cleanups[h := f]));
    case DoUnregister(h) =>
      RegistrationsKeepCalm(s, s.targets, s.cleanups - {h});
      ArmKeepsCalm(s.(cleanups := s.cleanups - {h}));
    case DoEnqueue(f) => EnqueueKeepsCalm(s, f.value);
    case DoThread(t) => ThreadKeepsCalm(s, t);
  }

  /** A reader that delivers the end of the stream last never meets an exposed state. */
  lemma {:induction false} DisciplinedIsGuarded(s: State, actions: seq<Action>)
    requires Inv(s) && Disciplined(actions) && (Calm(s) || forall a <- actions :: !Accepts(a))
    ensures Guarded(s, actions)
    decreases |actions|
  {
    if actions != [] {
      var a, rest := actions[0], actions[1..];
      StepKeepsInv(s, a);
      if Calm(s) && !Ends(a) {
        StepKeepsCalm(s, a);
      } else {
        assert forall x <- rest :: !Accepts(x);
      }
      DisciplinedIsGuarded(Step(s, a), rest);
    }
  }

  /** The promise, for every interleaving in which no frame follows the end of the stream. */
  lemma DisciplinedRunsAreSafe(actions: seq<Action>)
    requires Disciplined(actions)
    ensures forall x <- Run(INIT, actions).taken :: x.item.Work? && x.routed ==> x.item.armed
  {
    InitInv();
    DisciplinedIsGuarded(INIT, actions);
    OffFramesAreNeverRouted(actions);
  }

  // --- and after it one can be ----------------------------------------------------------------

  predicate Arms(a: Action) {
    a.DoAttach? || a.DoRegister?
  }

  /** Once the stream has ended, the connection hands the end straight back to whoever comes. */
  predicate Truthful(actions: seq<Action>) {
    forall i, j | 0 <= i < j < |actions| && Ends(actions[i]) && Arms(actions[j]) :: Ends(actions[j])
  }

  /** Every arm finds the stream at its end. */
  predicate Late(actions: seq<Action>) {
    forall a <- actions :: Arms(a) ==> Ends(a)
  }

  /** The one action before the end of the stream: a target attaches. */
  const FIRST := DoAttach(1, 1, false)

  lemma FirstThenLateIsTruthful(rest: seq<Action>)
    requires Late(rest)
    ensures Truthful([FIRST] + rest)
  {
    var all := [FIRST] + rest;
    forall j | 0 < j < |all| ensures Arms(all[j]) ==> Ends(all[j]) {
      assert all[j] == rest[j - 1] && rest[j - 1] in rest;
    }
  }

  lemma RunThen(rest: seq<Action>, a: Action)
    ensures Run(INIT, [FIRST] + (rest + [a])) == Step(Run(INIT, [FIRST] + rest), a)
  {
    assert [FIRST] + (rest + [a]) == ([FIRST] + rest) + [a];
    RunConcat(INIT, [FIRST] + rest, [a]);
    RunOne(Run(INIT, [FIRST] + rest), a, []);
    assert [a] + [] == [a];
  }

  /** Its thread goes live and parks. The target detaches and, the connection having closed by then,
      comes back twice. */
  lemma TwiceBack() returns (rest: seq<Action>)
    ensures Late(rest)
    ensures Run(INIT, [FIRST] + rest) ==
      State(map[1 := 1], map[], true, 3, Some(0), map[0 := Thread(Live, [])], 1,
        [Idle, Resume(2), EndOfStream, Idle, Resume(3), EndOfStream], [], [], [])
  {
    rest := [];
    assert [FIRST] + rest == [FIRST] + [];
    RunOne(INIT, FIRST, []);
    RunThen(rest, DoThread(0));
    rest := rest + [DoThread(0)];
    assert Run(INIT, [FIRST] + rest) ==
      State(map[1 := 1], map[], true, 1, Some(0), map[0 := Thread(Live, [])], 1, [], [], [], []);
    RunThen(rest, DoDetach(1, 1));
    rest := rest + [DoDetach(1, 1)];
    RunThen(rest, DoAttach(1, 1, true));
    rest := rest + [DoAttach(1, 1, true)];
    assert Run(INIT, [FIRST] + rest) ==
      State(map[1 := 1], map[], true, 2, Some(0), map[0 := Thread(Live, [])], 1,
        [Idle, Resume(2), EndOfStream], [], [], []);
    RunThen(rest, DoDetach(1, 1));
    rest := rest + [DoDetach(1, 1)];
    RunThen(rest, DoAttach(1, 1, true));
    rest := rest + [DoAttach(1, 1, true)];
  }

  /** The thread wakes and fences towards era 3. */
  lemma FenceStarts() returns (rest: seq<Action>)
    ensures Late(rest)
    ensures Run(INIT, [FIRST] + rest) ==
      State(map[1 := 1], map[], true, 3, Some(0), map[0 := Thread(Fencing(3), [])], 1,
        [Resume(2), EndOfStream, Idle, Resume(3), EndOfStream], [], [], [])
  {
    rest := TwiceBack();
    RunThen(rest, DoThread(0));
    rest := rest + [DoThread(0)];
    RunThen(rest, DoThread(0));
    rest := rest + [DoThread(0)];
  }

  /** It meets the first end of the stream; before it has put that back, the target detaches once more,
      so it goes on the queue behind the new IDLE. */
  lemma FenceBailsOut() returns (reaching: seq<Action>, rest: seq<Action>)
    ensures Late(rest) && rest == reaching + [DoDetach(1, 1), DoThread(0)]
    ensures Run(INIT, [FIRST] + reaching) ==
      State(map[1 := 1], map[], true, 3, Some(0), map[0 := Thread(PuttingBack, [])], 1,
        [Idle, Resume(3), EndOfStream], [], [], [])
    ensures Run(INIT, [FIRST] + rest) ==
      State(map[], map[], false, 3, Some(0), map[0 := Thread(Live, [])], 1,
        [Idle, Resume(3), EndOfStream, Idle, EndOfStream], [], [], [])
  {
    reaching := FenceStarts();
    RunThen(reaching, DoThread(0));
    reaching := reaching + [DoThread(0)];
    RunThen(reaching, DoThread(0));
    reaching := reaching + [DoThread(0)];
    RunThen(reaching, DoDetach(1, 1));
    rest := reaching + [DoDetach(1, 1)];
    RunThen(rest, DoThread(0));
    rest := rest + [DoThread(0)];
  }

  lemma ReplayFive(q: seq<Item>)
    requires |q| == 5 && q == [Idle, Resume(3), EndOfStream, Idle, EndOfStream]
    ensures Replay(Armed, q) == Armed
  {
    ReplayAppend(Armed, q[..4], q[4]);
    ReplayAppend(Armed, q[..3], q[3]);
    ReplayAppend(Armed, q[..2], q[2]);
    ReplayAppend(Armed, q[..1], q[1]);
    ReplayAppend(Armed, [], q[0]);
    assert q[..4] + [q[4]] == q && q[..3] + [q[3]] == q[..4] && q[..2] + [q[2]] == q[..3] && q[..1] + [q[1]] == q[..2];
    assert [] + [q[0]] == q[..1];
  }

  lemma {:induction false} StepsAreLate(t: nat, n: nat)
    ensures Late(Steps(t, n))
  {
    if n > 0 {
      StepsAreLate(t, n - 1);
    }
  }

  /** The discipline is needed. In a run that the client can make, the reader delivers a frame it was
      still carrying when the stream ended, at a time when nothing is registered; then a target attaches
      for the frame's handle, and the thread's next call delivers that frame to it. */
  lemma LateFrameCanBeRouted(h: int, n: int, e: int) returns (before: seq<Action>, steps: nat)
    ensures var frame, after := DoEnqueue(Some(Event(h, n, true))), [DoAttach(h, e, true)] + Steps(0, steps);
      var (s, end) := (Run(INIT, before), Run(INIT, before + ([frame] + after)));
      && Truthful(before + ([frame] + after))
      && !s.sink && s.targets == map[] && s.cleanups == map[] && Exposed(s)
      && Taken(Work(Event(h, n, true), false, |s.accepted|), true) in end.taken
      && h in end.targets && Worker(end).hand == [Deliver(h, n), ReleaseEvent(n)]
  {
    hide OneThread, Conserved, Marked, Enqueue, Attach, Exposed, Truthful;
    var _, rest := FenceBailsOut();
    before := [FIRST] + rest;
    var s, job := Run(INIT, before), Event(h, n, true);
    InitInv();
    RunKeepsInv(INIT, before);
    BailedOutIsExposed(s);
    RoutableIffExposed(s, job, h, e);
    EnqueueKeepsSlot(s, Some(job));
    var s1, x := Enqueue(s, Some(job)), Work(job, false, |s.accepted|);
    steps :| Reaches(s1, h, e, steps, x);
    LateRun(rest, DoEnqueue(Some(job)), DoAttach(h, e, true), steps, 0);
    assert LiveOps(job) == [Deliver(h, n), ReleaseEvent(n)];
  }

  lemma BailedOutIsExposed(s: State)
    requires s == State(map[], map[], false, 3, Some(0), map[0 := Thread(Live, [])], 1,
      [Idle, Resume(3), EndOfStream, Idle, EndOfStream], [], [], [])
    ensures Exposed(s) && forall h, e :: !Refuses(s, h, e)
  {
    ReplayFive(s.queue);
  }

  lemma EnqueueKeepsSlot(s: State, frame: Option<Job>)
    requires s.slot.Some?
    ensures Enqueue(s, frame).slot == s.slot
  {
  }

  lemma LateRun(rest: seq<Action>, frame: Action, attach: Action, steps: nat, t: nat)
    requires Late(rest) && !Arms(frame) && Ends(attach)
    ensures var after := [attach] + Steps(t, steps);
      && Truthful(([FIRST] + rest) + ([frame] + after))
      && Run(INIT, ([FIRST] + rest) + ([frame] + after)) == Run(Step(Run(INIT, [FIRST] + rest), frame), after)
  {
    var after := [attach] + Steps(t, steps);
    StepsAreLate(t, steps);
    assert ([FIRST] + rest) + ([frame] + after) == [FIRST] + (rest + ([frame] + after));
    FirstThenLateIsTruthful(rest + ([frame] + after));
    RunConcat(INIT, [FIRST] + rest, [frame] + after);
    RunOne(Run(INIT, [FIRST] + rest), frame, after);
  }
}
