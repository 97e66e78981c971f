/** The theorems about whole runs of the dispatcher. */
module DispatcherRuns {
  import opened Options
  import opened DispatcherModel
  import opened DispatcherInvariants
  import opened DispatcherFences

  ghost predicate Inv(s: State) {
    OneThread(s) && Conserved(s) && Marked(s)
  }

  lemma RegistrationsKeepInv(s: State, targets: map<int, int>, cleanups: map<int, int>)
    requires Inv(s)
    ensures Inv(s.(targets := targets, cleanups := cleanups))
  {
    assert Flow(s.(targets := targets, cleanups := cleanups)) == Flow(s);
  }

  lemma ArmKeepsInv(s: State, ended: bool)
    requires Inv(s)
    ensures Inv(Arm(s, ended)) && Inv(ReleaseSinkIfIdle(s))
  {
    CallersKeepOneThread(s, ended);
    CallersKeepConserved(s, None, ended);
    ReleaseSinkKeepsConserved(s);
    CallersKeepMarked(s, None, ended);
  }

  lemma EnqueueKeepsInv(s: State, frame: Option<Job>)
    requires Inv(s)
    ensures Inv(Enqueue(s, frame))
  {
    EnqueueKeepsOneThread(s, frame);
    CallersKeepConserved(s, frame, false);
    CallersKeepMarked(s, frame, false);
  }

  lemma StepKeepsInv(s: State, a: Action)
    requires Inv(s)
    ensures Inv(Step(s, a))
  {
    hide OneThread, Conserved, Marked, ThreadStep, Enqueue, ReleaseSinkIfIdle, Arm;
    match a
    case DoAttach(h, e, x) =>
      RegistrationsKeepInv(s, s.targets[h := e], s.cleanups);
      ArmKeepsInv(s.(targets := s.targets[h := e]), x);
    case DoDetach(h, e) =>
      RegistrationsKeepInv(s, s.targets - {h}, s.cleanups);
      ArmKeepsInv(s.(targets := s.targets - {h}), false);
      ArmKeepsInv(s, false);
    case DoRegister(h, f, x) =>
      RegistrationsKeepInv(s, s.targets, s.cleanups[h := f]);
      ArmKeepsInv(s.(cleanups := s.cleanups[h := f]), x);
    case DoUnregister(h) =>
      RegistrationsKeepInv(s, s.targets, s.cleanups - {h});
      ArmKeepsInv(s.(cleanups := s.cleanups - {h}), false);
    case DoEnqueue(f) =>
      EnqueueKeepsInv(s, f);
    case DoThread(t) =>
      ThreadKeepsOneThread(s, t);
      ThreadKeepsConserved(s, t);
      ThreadKeepsMarked(s, t);
  }

  lemma {:induction false} RunKeepsInv(s: State, actions: seq<Action>)
    requires Inv(s)
    ensures Inv(Run(s, actions))
    decreases |actions|
  {
    if actions != [] {
      StepKeepsInv(s, actions[0]);
      RunKeepsInv(Step(s, actions[0]), actions[1..]);
    }
  }

  lemma InitInv()
    ensures Inv(INIT)
  {
  }

  /** In every interleaving: no item is on the queue and no sink is up without a thread in the
      slot; nothing but the thread in the slot holds, or takes, an item; and a fence has its marker
      in front of it, so its get never blocks. */
  lemma OneDispatchingThread(actions: seq<Action>, t: nat)
    ensures var s := Run(INIT, actions);
      && (s.queue != [] || s.sink ==> s.slot.Some?)
      && (t in s.threads && s.slot != Some(t) ==>
            s.threads[t] == Thread(Unwinding, []) && ThreadStep(s, t) == Finish(s, t)
            && Finish(s, t) == s.(threads := s.threads - {t}))
      && (t in s.threads && s.threads[t].mode.Fencing? ==> Resume(s.threads[t].mode.target) in s.queue)
  {
    InitInv();
    RunKeepsInv(INIT, actions);
  }

  lemma {:induction false} OnlyOnce(q: seq<Item>, x: Item)
    requires x in q && forall i, j | 0 <= i < j < |q| :: !(q[i] == x && q[j] == x)
    ensures multiset(q)[x] == 1
  {
    var i :| 0 <= i < |q| && q[i] == x;
    assert q == q[..i] + [x] + q[i + 1..];
    assert x !in q[..i] && x !in q[i + 1..];
  }

  /** What one step does to a fence: nobody else moves it or takes from the queue; with a call to make
      it makes the call; otherwise it takes the head, goes live on its marker, and stops to put back an
      end of stream. */
  ghost predicate FenceMoves(s: State, a: Action, t: nat)
    requires t in s.threads && s.threads[t].mode.Fencing? && s.queue != []
  {
    var (th, s') := (s.threads[t], Step(s, a));
    t in s'.threads &&
    if a != DoThread(t) then s'.threads[t] == th && s.queue <= s'.queue
    else if th.hand != [] then s'.threads[t] == Thread(th.mode, th.hand[1..]) && s.queue <= s'.queue
    else
      && s'.queue == s.queue[1..]
      && if s.queue[0] == Resume(th.mode.target) then s'.threads[t] == Thread(Live, [])
         else if s.queue[0].EndOfStream? then s'.threads[t] == Thread(PuttingBack, [])
         else s'.threads[t].mode == th.mode
  }

  /** In every interleaving a fence has its marker in front of it exactly once, and every step of its
      own is one item closer to the marker, or one call closer to the next item. */
  lemma FenceCountsDown(actions: seq<Action>, a: Action, t: nat)
    requires var s := Run(INIT, actions); t in s.threads && s.threads[t].mode.Fencing?
    ensures var s := Run(INIT, actions);
      s.queue != [] && multiset(s.queue)[Resume(s.threads[t].mode.target)] == 1 && FenceMoves(s, a, t)
  {
    InitInv();
    RunKeepsInv(INIT, actions);
    var s := Run(INIT, actions);
    FenceHasMarker(s, t);
    OnlyOnce(s.queue, Resume(s.threads[t].mode.target));
    if a == DoThread(t) {
      FenceMovesItself(s, t);
    } else {
      OthersLeaveFence(s, a, t);
    }
  }

  lemma FenceMovesItself(s: State, t: nat)
    requires OneThread(s) && t in s.threads && s.threads[t].mode.Fencing? && s.queue != []
    ensures FenceMoves(s, DoThread(t), t)
  {
    hide OpsFor, RunOp, FenceStep;
    if s.threads[t].hand != [] {
      CallOnly(s, t);
    } else {
      FenceTakes(s, t, s.threads[t].mode.target);
    }
  }

  lemma CallOnly(s: State, t: nat)
    requires t in s.threads && s.threads[t].hand != []
    ensures RunOp(s, t).threads == s.threads[t := Thread(s.threads[t].mode, s.threads[t].hand[1..])]
    ensures s.queue <= RunOp(s, t).queue
  {
  }

  lemma FenceTakes(s: State, t: nat, e: nat)
    requires t in s.threads && s.queue != []
    ensures var s' := FenceStep(s, t, e);
      && t in s'.threads && s'.queue == s.queue[1..]
      && if s.queue[0] == Resume(e) then s'.threads[t] == Thread(Live, [])
         else if s.queue[0].EndOfStream? then s'.threads[t] == Thread(PuttingBack, [])
         else s'.threads[t].mode == Fencing(e)
  {
  }

  lemma OthersLeaveFence(s: State, a: Action, t: nat)
    requires OneThread(s) && t in s.threads && s.threads[t].mode.Fencing? && s.queue != [] && a != DoThread(t)
    ensures FenceMoves(s, a, t)
  {
    assert s.slot == Some(t);
    if a.DoThread? {
      assert a.tid in s.threads ==> Step(s, a) == Finish(s, a.tid);
    }
  }

  // --- where a fence ends ---------------------------------------------------------------------

  /** An end of stream stands in front of the marker of `e`. */
  predicate EndAhead(q: seq<Item>, e: nat)
    decreases |q|
  {
    q != [] && (q[0].EndOfStream? || (q[0] != Resume(e) && EndAhead(q[1..], e)))
  }

  /** What is put on the queue stands behind the marker. */
  lemma {:induction false} EndAheadAppend(q: seq<Item>, more: seq<Item>, e: nat)
    requires Resume(e) in q
    ensures EndAhead(q + more, e) <==> EndAhead(q, e)
    decreases |q|
  {
    assert (q + more)[0] == q[0] && (q + more)[1..] == q[1..] + more;
    if q[0] != Resume(e) {
      EndAheadAppend(q[1..], more, e);
    }
  }

  predicate FencesTo(s: State, t: nat, e: nat) {
    t in s.threads && s.threads[t].mode == Fencing(e)
  }

  /** Where the fence to `e` goes from this queue. */
  function FenceEnd(q: seq<Item>, e: nat): Mode {
    if EndAhead(q, e) then PuttingBack else Live
  }

  /** Every step of anybody leaves that as it is, and the fence can only stop there. */
  lemma NextKeepsFenceEnd(s: State, a: Action, t: nat, e: nat)
    requires Inv(s) && FencesTo(s, t, e)
    ensures var s' := Step(s, a);
      if FencesTo(s', t, e) then FenceEnd(s'.queue, e) == FenceEnd(s.queue, e)
      else t in s'.threads && s'.threads[t] == Thread(FenceEnd(s.queue, e), [])
  {
    hide Step, OneThread, Conserved, Marked;
    FenceHasMarker(s, t);
    InvHasOneThread(s);
    if a == DoThread(t) {
      FenceMovesItself(s, t);
    } else {
      OthersLeaveFence(s, a, t);
    }
    var s' := Step(s, a);
    if s.queue <= s'.queue {
      assert s'.queue == s.queue + s'.queue[|s.queue|..];
      EndAheadAppend(s.queue, s'.queue[|s.queue|..], e);
    }
  }

  lemma InvHasOneThread(s: State)
    requires Inv(s)
    ensures OneThread(s)
  {
  }

  ghost predicate KeepsFencing(s: State, actions: seq<Action>, t: nat, e: nat)
    decreases |actions|
  {
    FencesTo(s, t, e) && (actions == [] || KeepsFencing(Step(s, actions[0]), actions[1..], t, e))
  }

  /** Exactly: a thread that fences to `e`, whatever it and the others do until it stops, stops to put
      back an end of stream if and only if one stands in front of its marker now, and goes live if not. */
  lemma {:induction false} FenceEndsThere(s: State, actions: seq<Action>, a: Action, t: nat, e: nat)
    requires Inv(s) && KeepsFencing(s, actions, t, e) && !FencesTo(Step(Run(s, actions), a), t, e)
    ensures var end := Step(Run(s, actions), a);
      t in end.threads && end.threads[t] == Thread(FenceEnd(s.queue, e), [])
    decreases |actions|
  {
    hide Inv, Step, FencesTo;
    if actions == [] {
      NextKeepsFenceEnd(s, a, t, e);
    } else {
      var s1 := Step(s, actions[0]);
      StepKeepsInv(s, actions[0]);
      NextKeepsFenceEnd(s, actions[0], t, e);
      FenceEndsThere(s1, actions[1..], a, t, e);
    }
  }

  /** And it does stop: its own steps are enough. */
  lemma {:induction false} FenceStops(s: State, t: nat, e: nat) returns (n: nat)
    requires Inv(s) && FencesTo(s, t, e)
    ensures var end := Stepped(s, t, n); t in end.threads && end.threads[t] == Thread(FenceEnd(s.queue, e), [])
    decreases Distance(s)
  {
    hide OneThread, Conserved, Marked, Step, Distance, FenceEnd;
    var s1 := Step(s, DoThread(t));
    FenceInSlot(s, t, e);
    NextKeepsFenceEnd(s, DoThread(t), t, e);
    OwnStep(s, t);
    if FencesTo(s1, t, e) {
      n := FenceStops(s1, t, e);
      n := n + 1;
    } else {
      SteppedOnce(s1, t);
      n := 1;
    }
    StepAndStepped(s, t, n - 1);
  }

  lemma FenceInSlot(s: State, t: nat, e: nat)
    requires Inv(s) && FencesTo(s, t, e)
    ensures s.slot == Some(t) && !Parked(s)
  {
    hide Conserved, Marked;
  }

  lemma StepAndStepped(s: State, t: nat, n: nat)
    ensures Stepped(s, t, n + 1) == Stepped(Step(s, DoThread(t)), t, n)
  {
    SteppedOnce(s, t);
    SteppedOn(s, t, 1, n);
  }

  lemma FenceHasMarker(s: State, t: nat)
    requires Inv(s) && t in s.threads && s.threads[t].mode.Fencing?
    ensures Resume(s.threads[t].mode.target) in s.queue
  {
  }

  /** Conservation in every interleaving: items are taken in the order they were accepted; the calls
      made, followed by the calls owed by the thread in the slot, are exactly what the items taken
      lead to. */
  lemma FirstInFirstOut(actions: seq<Action>)
    ensures var s := Run(INIT, actions);
      && |s.taken| <= |s.accepted|
      && Items(s.taken) == s.accepted[..|s.taken|]
      && s.trace <= OpsOf(s.taken)
  {
    InitInv();
    RunKeepsInv(INIT, actions);
    var s := Run(INIT, actions);
    ItemsLength(s.taken);
    assert s.accepted[..|s.taken|] == Items(s.taken);
    assert OpsOf(s.taken) == s.trace + Worker(s).hand;
  }

  lemma {:induction false} ItemsLength(xs: seq<Taken>)
    ensures |Items(xs)| == |xs|
    ensures forall k | 0 <= k < |xs| :: Items(xs)[k] == xs[k].item
    decreases |xs|
  {
    if xs != [] {
      ItemsLength(xs[..|xs| - 1]);
    }
  }

  /** With no thread, or with the thread parked, everything accepted has been handled in full. */
  lemma AllHandled(s: State)
    requires Inv(s) && (s.slot.None? || Parked(s))
    ensures s.accepted == Items(s.taken) && s.trace == OpsOf(s.taken)
  {
    assert Flow(s) == [];
    assert s.trace + Worker(s).hand == s.trace;
  }

  /** A thread parked in its get, with everything done. */
  predicate Parked(s: State) {
    s.queue == [] && s.slot.Some? && s.slot.value in s.threads && s.threads[s.slot.value] == Thread(Live, [])
  }

  lemma ThreadAcceptsNothing(s: State, t: nat)
    ensures ThreadStep(s, t).accepted == s.accepted
  {
    if t in s.threads && s.threads[t].hand == [] {
      match s.threads[t].mode
      case Draining(b, e) => assert DrainStep(s, t, b, e).accepted == s.accepted;
      case Fencing(e) => assert FenceStep(s, t, e).accepted == s.accepted;
      case Ending(b) => assert EndStep(s, t, b).accepted == s.accepted;
      case _ =>
    }
  }

  predicate Accepts(a: Action) {
    a.DoEnqueue? && a.frame.Some?
  }

  /** Only a frame from the sink is accepted, and it carries the state of the sink. */
  lemma OnlyFramesAreAccepted(s: State, a: Action)
    ensures Step(s, a).accepted ==
      if Accepts(a) then s.accepted + [Work(a.frame.value, s.sink, |s.accepted|)] else s.accepted
  {
    if a.DoThread? {
      ThreadAcceptsNothing(s, a.tid);
    }
  }

  // --- exactly one release, exactly one acknowledgement ---------------------------------------

  /** Does this item owe the bridge a `release_event` for `seqNo`? A frame with arguments does, and
      so does every cleanup; a frame without arguments does not. */
  predicate OwesRelease(item: Item, seqNo: int) {
    && item.Work? && !item.job.Barrier? && item.job.seqNo == seqNo
    && (item.job.Event? ==> item.job.hasArgs)
  }

  predicate OwesSignal(item: Item, seqNo: int) {
    item.Work? && item.job.CleanupCall? && item.job.seqNo == seqNo
  }

  function Owing(q: seq<Item>, owes: Item -> bool): nat {
    if q == [] then 0 else Owing(q[..|q| - 1], owes) + (if owes(q[|q| - 1]) then 1 else 0)
  }

  lemma {:induction false} CallsOwed(xs: seq<Taken>, seqNo: int)
    ensures multiset(OpsOf(xs))[ReleaseEvent(seqNo)] == Owing(Items(xs), (i: Item) => OwesRelease(i, seqNo))
    ensures multiset(OpsOf(xs))[Signal(seqNo)] == Owing(Items(xs), (i: Item) => OwesSignal(i, seqNo))
    decreases |xs|
  {
    if xs != [] {
      var front, x := xs[..|xs| - 1], xs[|xs| - 1];
      CallsOwed(front, seqNo);
      assert Items(xs)[..|Items(xs)| - 1] == Items(front);
      OneCallEach(x, seqNo);
    }
  }

  predicate OwesClosure(item: Item, handle: int, seqNo: int) {
    item.Work? && item.job == CleanupCall(handle, seqNo)
  }

  /** A frame the live loop took is delivered; a frame taken anywhere else is not. */
  predicate OwesDelivery(x: Taken, handle: int, seqNo: int) {
    x.routed && x.item.Work? && x.item.job.Event? && x.item.job.handle == handle && x.item.job.seqNo == seqNo
  }

  lemma OneDeliveryEach(x: Taken, handle: int, seqNo: int)
    ensures multiset(OpsFor(x))[Deliver(handle, seqNo)] == (if OwesDelivery(x, handle, seqNo) then 1 else 0)
    ensures multiset(OpsFor(x))[RunClosure(handle, seqNo)] == (if OwesClosure(x.item, handle, seqNo) then 1 else 0)
  {
    if x.item.Work? {
      match x.item.job
      case Event(h, n, args) => assert OpsFor(x) == (if x.routed then [Deliver(h, n)] else []) + ReleaseOps(x.item.job);
      case CleanupCall(h, n) => assert OpsFor(x) == CleanupOps(h, n);
      case Barrier(b) => assert OpsFor(x) == [Answer(b)];
    }
  }

  function Deliveries(xs: seq<Taken>, handle: int, seqNo: int): nat {
    if xs == [] then 0
    else Deliveries(xs[..|xs| - 1], handle, seqNo) + (if OwesDelivery(xs[|xs| - 1], handle, seqNo) then 1 else 0)
  }

  /** Deliveries are made for frames the live loop took and for no others, once for each; and the
      closure of every cleanup is asked for once, on whichever path. */
  lemma {:induction false} DeliveriesOwed(xs: seq<Taken>, handle: int, seqNo: int)
    ensures multiset(OpsOf(xs))[Deliver(handle, seqNo)] == Deliveries(xs, handle, seqNo)
    ensures multiset(OpsOf(xs))[RunClosure(handle, seqNo)]
      == Owing(Items(xs), (i: Item) => OwesClosure(i, handle, seqNo))
    decreases |xs|
  {
    if xs != [] {
      var front, x := xs[..|xs| - 1], xs[|xs| - 1];
      DeliveriesOwed(front, handle, seqNo);
      assert Items(xs)[..|Items(xs)| - 1] == Items(front);
      OneDeliveryEach(x, handle, seqNo);
    }
  }

  predicate OwesAnswer(item: Item, token: int) {
    item.Work? && item.job == Barrier(token)
  }

  predicate OwesDrop(item: Item, handle: int) {
    item.Work? && item.job.CleanupCall? && item.job.handle == handle
  }

  lemma OneAnswerEach(x: Taken, token: int, handle: int)
    ensures multiset(OpsFor(x))[Answer(token)] == (if OwesAnswer(x.item, token) then 1 else 0)
    ensures multiset(OpsFor(x))[Unregister(handle)] == (if OwesDrop(x.item, handle) then 1 else 0)
  {
    if x.item.Work? {
      match x.item.job
      case Event(h, n, args) => assert OpsFor(x) == (if x.routed then [Deliver(h, n)] else []) + ReleaseOps(x.item.job);
      case CleanupCall(h, n) => assert OpsFor(x) == CleanupOps(h, n);
      case Barrier(b) => assert OpsFor(x) == [Answer(b)];
    }
  }

  /** Every barrier is answered once, and every cleanup drops its handle's registration once. */
  lemma {:induction false} AnswersOwed(xs: seq<Taken>, token: int, handle: int)
    ensures multiset(OpsOf(xs))[Answer(token)] == Owing(Items(xs), (i: Item) => OwesAnswer(i, token))
    ensures multiset(OpsOf(xs))[Unregister(handle)] == Owing(Items(xs), (i: Item) => OwesDrop(i, handle))
    decreases |xs|
  {
    if xs != [] {
      var front, x := xs[..|xs| - 1], xs[|xs| - 1];
      AnswersOwed(front, token, handle);
      assert Items(xs)[..|Items(xs)| - 1] == Items(front);
      OneAnswerEach(x, token, handle);
    }
  }

  lemma OneCallEach(x: Taken, seqNo: int)
    ensures multiset(OpsFor(x))[ReleaseEvent(seqNo)] == (if OwesRelease(x.item, seqNo) then 1 else 0)
    ensures multiset(OpsFor(x))[Signal(seqNo)] == (if OwesSignal(x.item, seqNo) then 1 else 0)
  {
    if x.item.Work? {
      match x.item.job
      case Event(h, n, args) => assert OpsFor(x) == (if x.routed then [Deliver(h, n)] else []) + ReleaseOps(x.item.job);
      case CleanupCall(h, n) => assert OpsFor(x) == CleanupOps(h, n);
      case Barrier(b) => assert OpsFor(x) == [Answer(b)];
    }
  }

  // --- in which order -------------------------------------------------------------------------

  /** Wherever both calls are made for one item, `a` comes first. */
  predicate Before(ops: seq<Op>, a: Op, b: Op) {
    forall i, j | 0 <= i < |ops| && 0 <= j < |ops| && ops[i] == a && ops[j] == b :: i < j
  }

  /** The closure, then the release, then the signal, and the registration is dropped last; a frame is
      delivered before it is released. */
  lemma OrderOfCalls(x: Taken)
    requires x.item.Work?
    ensures x.item.job.CleanupCall? ==>
      var (h, n) := (x.item.job.handle, x.item.job.seqNo);
      && Before(OpsFor(x), RunClosure(h, n), ReleaseEvent(n)) && Before(OpsFor(x), ReleaseEvent(n), Signal(n))
      && OpsFor(x) != [] && OpsFor(x)[|OpsFor(x)| - 1] == Unregister(h)
    ensures x.item.job.Event? ==>
      Before(OpsFor(x), Deliver(x.item.job.handle, x.item.job.seqNo), ReleaseEvent(x.item.job.seqNo))
  {
  }

  predicate SignalsFollow(p: seq<Op>, n: int) {
    multiset(p)[Signal(n)] <= multiset(p)[ReleaseEvent(n)]
  }

  lemma CleanupSignals(h: int, m: int, p: seq<Op>, n: int)
    requires p <= CleanupOps(h, m)
    ensures SignalsFollow(p, n)
  {
    var c, r, w := RunClosure(h, m), ReleaseEvent(m), Signal(m);
    if |p| == 4 {
      assert p == [c, r, w, Unregister(h)];
    } else if |p| == 3 {
      assert p == [c, r, w];
    } else {
      assert Signal(n) !in p;
    }
  }

  lemma OneItemSignals(x: Taken, p: seq<Op>, n: int)
    requires p <= OpsFor(x)
    ensures SignalsFollow(p, n)
  {
    if x.item.Work? && x.item.job.CleanupCall? {
      CleanupSignals(x.item.job.handle, x.item.job.seqNo, p, n);
    } else {
      assert forall i | 0 <= i < |p| :: p[i] == OpsFor(x)[i];
      assert Signal(n) !in OpsFor(x);
      assert Signal(n) !in p;
    }
  }

  /** Any beginning of the calls is the calls of some items in full, and a beginning of the next one's. */
  lemma {:induction false} BeginningOfCalls(xs: seq<Taken>, p: seq<Op>) returns (k: nat)
    requires p <= OpsOf(xs)
    ensures k <= |xs| && OpsOf(xs[..k]) <= p
    ensures if k == |xs| then p == OpsOf(xs) else p[|OpsOf(xs[..k])|..] <= OpsFor(xs[k])
    decreases |xs|
  {
    if xs == [] {
      k := 0;
    } else {
      var front, x := xs[..|xs| - 1], xs[|xs| - 1];
      var done := OpsOf(front);
      if |p| < |done| {
        assert p == OpsOf(xs)[..|p|] == done[..|p|];
        k := BeginningOfCalls(front, p);
        assert k == |front| ==> p == done;
        assert front[..k] == xs[..k];
      } else {
        k := |xs| - 1;
        assert xs[..k] == front && p[..|done|] == done;
        assert p[|done|..] == OpsOf(xs)[|done|..|p|];
      }
    }
  }

  lemma {:induction false} ItemsSignal(xs: seq<Taken>, n: int)
    ensures SignalsFollow(OpsOf(xs), n)
    decreases |xs|
  {
    if xs != [] {
      ItemsSignal(xs[..|xs| - 1], n);
      OneItemSignals(xs[|xs| - 1], OpsFor(xs[|xs| - 1]), n);
    }
  }

  /** In every interleaving, at every moment: nobody has been told of the end of a cleanup before the
      bridge was. */
  lemma SignalComesAfterRelease(actions: seq<Action>, p: seq<Op>, n: int)
    requires p <= Run(INIT, actions).trace
    ensures multiset(p)[Signal(n)] <= multiset(p)[ReleaseEvent(n)]
  {
    hide OpsFor, Run;
    FirstInFirstOut(actions);
    var xs := Run(INIT, actions).taken;
    assert p <= OpsOf(xs);
    var k := BeginningOfCalls(xs, p);
    ItemsSignal(xs[..k], n);
    if k < |xs| {
      var done := OpsOf(xs[..k]);
      OneItemSignals(xs[k], p[|done|..], n);
      assert p == done + p[|done|..];
    } else {
      assert xs[..k] == xs;
    }
  }

  /** Exactly once: in every interleaving, when no thread is left, the `release_event` attempts for
      a number are exactly as many as the accepted items that owe one, and likewise the signals. */
  lemma EachFrameReleasedOnce(actions: seq<Action>, seqNo: int)
    requires Run(INIT, actions).slot.None?
    ensures var s := Run(INIT, actions);
      && multiset(s.trace)[ReleaseEvent(seqNo)] == Owing(s.accepted, (i: Item) => OwesRelease(i, seqNo))
      && multiset(s.trace)[Signal(seqNo)] == Owing(s.accepted, (i: Item) => OwesSignal(i, seqNo))
  {
    InitInv();
    RunKeepsInv(INIT, actions);
    AllHandled(Run(INIT, actions));
    CallsOwed(Run(INIT, actions).taken, seqNo);
  }

  /** And so it is with the barriers, and with the registrations that cleanups drop. */
  lemma EachBarrierAnsweredOnce(actions: seq<Action>, token: int, handle: int)
    requires Run(INIT, actions).slot.None?
    ensures var s := Run(INIT, actions);
      && multiset(s.trace)[Answer(token)] == Owing(s.accepted, (i: Item) => OwesAnswer(i, token))
      && multiset(s.trace)[Unregister(handle)] == Owing(s.accepted, (i: Item) => OwesDrop(i, handle))
  {
    InitInv();
    RunKeepsInv(INIT, actions);
    AllHandled(Run(INIT, actions));
    AnswersOwed(Run(INIT, actions).taken, token, handle);
  }

  // --- nothing is stranded --------------------------------------------------------------------

  function HandWeight(ops: seq<Op>): nat {
    if ops == [] then 0 else (if ops[0].Unregister? then 9 else 1) + HandWeight(ops[1..])
  }

  function ItemsWeight(q: seq<Item>, extra: nat): nat {
    if q == [] then 0 else (if q[0].Work? then 14 else 7) + extra + ItemsWeight(q[1..], extra)
  }

  function ModeWeight(m: Mode): nat {
    match m
    case Live => 0
    case Draining(b, _) => 5 + ItemsWeight(b, 0)
    case Fencing(_) => 4
    case PuttingBack => 10
    case Ending(b) => 4 + ItemsWeight(b, 0)
    case Unwinding => 0
  }

  /** A measure of the work in front of the thread in the slot. */
  function Distance(s: State): nat {
    if s.slot.Some? && s.slot.value in s.threads then
      1 + ItemsWeight(s.queue, 1) + ModeWeight(s.threads[s.slot.value].mode) + HandWeight(s.threads[s.slot.value].hand)
    else 0
  }

  lemma {:induction false} WeightConcat(a: seq<Item>, b: seq<Item>, extra: nat)
    ensures ItemsWeight(a + b, extra) == ItemsWeight(a, extra) + ItemsWeight(b, extra)
    decreases |a|
  {
    if a == [] {
      assert a + b == b;
    } else {
      assert (a + b)[1..] == a[1..] + b;
      WeightConcat(a[1..], b, extra);
    }
  }

  lemma {:induction false} BatchIsLighter(q: seq<Item>)
    ensures ItemsWeight(q, 1) == ItemsWeight(q, 0) + |q|
  {
    if q != [] {
      BatchIsLighter(q[1..]);
    }
  }

  lemma HandIsLighter(x: Taken)
    requires x.item.Work?
    ensures HandWeight(OpsFor(x)) < 14
  {
    match x.item.job
    case Event(h, n, args) =>
      assert HandWeight([ReleaseEvent(n)]) == 1 by { assert [ReleaseEvent(n)][1..] == []; }
      if x.routed {
        assert OpsFor(x)[1..] == ReleaseOps(x.item.job);
      }
    case CleanupCall(h, n) =>
      var o3, o2, o1 := [Unregister(h)], [Signal(n), Unregister(h)], [ReleaseEvent(n), Signal(n), Unregister(h)];
      assert HandWeight(o3) == 9 by { assert o3[1..] == []; }
      assert HandWeight(o2) == 10 by { assert o2[1..] == o3; }
      assert HandWeight(o1) == 11 by { assert o1[1..] == o2; }
      assert OpsFor(x)[1..] == o1;
    case Barrier(b) =>
      assert OpsFor(x)[1..] == [];
  }

  lemma CallGetsCloser(s: State, t: nat)
    requires s.slot == Some(t) && t in s.threads && s.threads[t].hand != []
    ensures Distance(CallHead(s, t)) == Distance(s) - if s.threads[t].hand[0].Unregister? then 9 else 1
  {
  }

  lemma RetireAdds(s: State)
    requires s.slot.Some? && s.slot.value in s.threads
    ensures Distance(Retire(s)) == Distance(s) + 8
  {
    WeightConcat(s.queue, [Idle], 1);
    assert [Idle][1..] == [];
    assert ItemsWeight([Idle], 1) == 8 + ItemsWeight([], 1);
  }

  lemma RunOpGetsCloser(s: State, t: nat)
    requires OneThread(s) && s.slot == Some(t) && s.threads[t].hand != []
    ensures Distance(ThreadStep(s, t)) < Distance(s)
  {
    var s1, op := CallHead(s, t), s.threads[t].hand[0];
    CallGetsCloser(s, t);
    if op.Unregister? {
      var s2 := s1.(cleanups := s1.cleanups - {op.handle});
      assert Distance(s2) == Distance(s1);
      RetireAdds(s2);
      assert ThreadStep(s, t) == ReleaseSinkIfIdle(s2);
    } else {
      assert ThreadStep(s, t) == s1;
    }
  }

  lemma TakeGetsCloser(s: State, t: nat, item: Item, routed: bool, next: Mode)
    requires s.slot == Some(t) && t in s.threads
    ensures Distance(Take(s, t, item, routed, next))
      < 1 + ItemsWeight(s.queue, 1) + ModeWeight(next) + (if item.Work? then 14 else 1)
  {
    if item.Work? {
      HandIsLighter(Taken(item, routed));
    }
  }

  lemma LiveGetsCloser(s: State, t: nat)
    requires OneThread(s) && s.slot == Some(t) && s.threads[t] == Thread(Live, []) && s.queue != []
    ensures Distance(LiveStep(s, t)) < Distance(s)
  {
    var item, s1 := s.queue[0], s.(queue := s.queue[1..]);
    TakeGetsCloser(s1, t, item, true,
      if item.EndOfStream? then Ending([]) else if item.Idle? then Draining([], false) else Live);
  }

  lemma DrainGetsCloser(s: State, t: nat, batch: seq<Item>, ended: bool)
    requires OneThread(s) && s.slot == Some(t) && s.threads[t] == Thread(Draining(batch, ended), [])
    ensures Distance(DrainStep(s, t, batch, ended)) < Distance(s)
  {
    if batch != [] {
      TakeGetsCloser(s, t, batch[0], false, Draining(batch[1..], ended || batch[0].EndOfStream?));
    } else {
      BatchIsLighter(s.queue);
    }
  }

  lemma FenceGetsCloser(s: State, t: nat, era: nat)
    requires OneThread(s) && s.slot == Some(t) && s.threads[t] == Thread(Fencing(era), []) && s.queue != []
    ensures Distance(FenceStep(s, t, era)) < Distance(s)
  {
    var item, s1 := s.queue[0], s.(queue := s.queue[1..]);
    TakeGetsCloser(s1, t, item, false, Fencing(era));
  }

  lemma PutBackGetsCloser(s: State, t: nat)
    requires OneThread(s) && s.slot == Some(t) && s.threads[t] == Thread(PuttingBack, [])
    ensures Distance(PutBackStep(s, t)) < Distance(s)
  {
    WeightConcat(s.queue, [EndOfStream], 1);
    assert [EndOfStream][1..] == [];
    assert ItemsWeight([EndOfStream], 1) == 8 by { assert ItemsWeight([], 1) == 0; }
  }

  lemma EndGetsCloser(s: State, t: nat, batch: seq<Item>)
    requires OneThread(s) && s.slot == Some(t) && s.threads[t] == Thread(Ending(batch), [])
    ensures Distance(EndStep(s, t, batch)) < Distance(s)
  {
    if batch != [] {
      TakeGetsCloser(s, t, batch[0], false, Ending(batch[1..]));
    } else {
      BatchIsLighter(s.queue);
    }
  }

  /** The thread in the slot is never stuck: unless it is parked with nothing left to do, its own
      next step brings it strictly closer to the end. In particular a fence terminates. */
  lemma ThreadGetsCloser(s: State, t: nat)
    requires Inv(s) && s.slot == Some(t) && !Parked(s)
    ensures Distance(ThreadStep(s, t)) < Distance(s)
  {
    var th := s.threads[t];
    if th.hand != [] {
      RunOpGetsCloser(s, t);
    } else {
      match th.mode
      case Live => LiveGetsCloser(s, t);
      case Draining(b, e) => DrainGetsCloser(s, t, b, e);
      case Fencing(e) => FenceGetsCloser(s, t, e);
      case PuttingBack => PutBackGetsCloser(s, t);
      case Ending(b) => EndGetsCloser(s, t, b);
    }
  }

  /** What the live loop reaches before any marker or end of stream. */
  ghost predicate InFront(s: State, i: nat) {
    && s.slot.Some? && s.slot.value in s.threads && s.threads[s.slot.value].mode.Live?
    && i < |s.queue| && s.queue[i].Work? && forall j | 0 <= j < i :: s.queue[j].Work? || s.queue[j].Resume?
  }

  lemma LiveAdvances(s: State, i: nat)
    requires Inv(s) && InFront(s, i)
    ensures var t := s.slot.value;
      var (th, s') := (s.threads[t], Step(s, DoThread(t)));
      && s'.slot == s.slot && t in s'.threads
      && if th.hand != [] then InFront(s', i) && s'.queue[i] == s.queue[i] && |s'.threads[t].hand| < |th.hand|
         else if i > 0 then InFront(s', i - 1) && s'.queue[i - 1] == s.queue[i]
         else Taken(s.queue[0], true) in s'.taken && s'.threads[t].hand == LiveOps(s.queue[0].job)
  {
    hide Conserved, Marked;
    var t := s.slot.value;
    if s.threads[t].hand != [] {
      hide OpsFor;
      CallOnly(s, t);
      assert Step(s, DoThread(t)) == RunOp(s, t);
    } else {
      assert Step(s, DoThread(t)) == LiveStep(s, t);
    }
  }

  /** With a live thread, every frame that no marker and no end of stream stands in front of is routed:
      the thread's own steps take it on the live path, with its delivery as the next call. */
  lemma {:induction false} LiveFramesAreRouted(s: State, i: nat) returns (n: nat)
    requires Inv(s) && InFront(s, i)
    ensures var end := Stepped(s, s.slot.value, n);
      && Taken(s.queue[i], true) in end.taken && s.slot.value in end.threads
      && end.threads[s.slot.value].hand == LiveOps(s.queue[i].job)
    decreases i, |s.threads[s.slot.value].hand|
  {
    hide Inv, Step;
    var t := s.slot.value;
    var s1 := Step(s, DoThread(t));
    LiveAdvances(s, i);
    StepKeepsInv(s, DoThread(t));
    n := 0;
    if s.threads[t].hand != [] {
      n := LiveFramesAreRouted(s1, i);
    } else if i > 0 {
      n := LiveFramesAreRouted(s1, i - 1);
    } else {
      SteppedOnce(s1, t);
    }
    StepAndStepped(s, t, n);
    n := n + 1;
  }

  /** `e` is where `s` ends up: every accepted item handled, with every call it owes made. */
  ghost predicate Settled(s: State, e: State) {
    && (e.slot.None? || Parked(e))
    && e.accepted == s.accepted == Items(e.taken)
    && e.trace == OpsOf(e.taken)
  }

  lemma RunOne(s: State, a: Action, rest: seq<Action>)
    ensures Run(s, [a] + rest) == Run(Step(s, a), rest)
  {
    assert ([a] + rest)[1..] == rest;
  }

  /** Nothing is stranded: from every reachable state, the steps of the thread in the slot alone
      handle every accepted item, with every call it owes, in at most `Distance` steps. */
  lemma {:induction false} NothingStranded(s: State) returns (own: seq<Action>)
    requires Inv(s)
    ensures |own| <= Distance(s) && (forall a <- own :: s.slot.Some? && a == DoThread(s.slot.value))
    ensures Settled(s, Run(s, own))
    decreases Distance(s)
  {
    if s.slot.None? || Parked(s) {
      AllHandled(s);
      own := [];
    } else {
      var a := DoThread(s.slot.value);
      OwnStep(s, s.slot.value);
      var rest := NothingStranded(Step(s, a));
      RunOne(s, a, rest);
      own := [a] + rest;
    }
  }

  lemma OwnStep(s: State, t: nat)
    requires Inv(s) && s.slot == Some(t) && !Parked(s)
    ensures var e := Step(s, DoThread(t));
      Inv(e) && Distance(e) < Distance(s) && e.accepted == s.accepted && (e.slot.Some? ==> e.slot == s.slot)
  {
    hide OneThread, Conserved, Marked, ThreadStep, Distance;
    ThreadGetsCloser(s, t);
    OwnStepKeeps(s, t);
    ThreadAcceptsNothing(s, t);
    StepKeepsInv(s, DoThread(t));
  }

  lemma OwnStepKeeps(s: State, t: nat)
    requires OneThread(s) && s.slot == Some(t)
    ensures ThreadStep(s, t).slot.Some? ==> ThreadStep(s, t).slot == s.slot
  {
    hide OpsFor;
    if s.threads[t].hand == [] {
      match s.threads[t].mode
      case Draining(b, e) => assert DrainStep(s, t, b, e).slot in {None, s.slot};
      case Fencing(e) => assert FenceStep(s, t, e).slot == s.slot;
      case Ending(b) => assert EndStep(s, t, b).slot in {None, s.slot};
      case _ =>
    }
  }
}
