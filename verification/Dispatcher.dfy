/** The dispatcher object: its fields, its lock sections, and the steps of its thread, each proved to
    be the transition of `DispatcherModel` that the run theorems speak about. */
module Dispatchers {
  import opened Options
  import M = DispatcherModel
  import opened DispatcherModel
  import opened DispatcherInvariants
  import opened DispatcherFences
  import opened DispatcherRuns

  /** How a call out of the dispatcher ends. */
  datatype Outcome = Returns | ConnectionGone | RaisesException | RaisesBase

  /** How the calls for one item end, if they are made: a barrier's answer counts as a delivery. */
  datatype Outcomes = Outcomes(
    closure: Outcome, delivery: Outcome, release: Outcome, signal: Outcome, drop: Outcome)

  /** The mode when the whole batch has been handled. */
  function AfterBatch(m: Mode): Mode {
    match m
    case Draining(b, ended) => Draining([], ended || EndOfStream in b)
    case Ending(_) => Ending([])
    case _ => m
  }

  /** The calls that a batch of leftovers leads to. */
  function CallsFor(batch: seq<Item>): seq<Op> {
    if batch == [] then []
    else
      var x := batch[|batch| - 1];
      CallsFor(batch[..|batch| - 1]) + if x.Work? then LeftoverOps(x.job) else []
  }

  lemma NoCalls()
    ensures CallsFor([]) == []
  {
  }

  lemma EmptiedMode(m: Mode)
    requires Batch(m) == []
    ensures AfterBatch(m) == m
  {
  }

  lemma CallsForMore(batch: seq<Item>, x: Item)
    ensures CallsFor(batch + [x]) == CallsFor(batch) + CallsFor([x])
  {
    assert (batch + [x])[..|batch|] == batch && [x][..0] == [];
  }

  lemma OneItem(x: Item)
    ensures CallsFor([x]) == if x.Work? then LeftoverOps(x.job) else []
  {
    assert [x][..0] == [];
  }

  lemma ThreeCalls(s: State, t: nat)
    ensures Stepped(s, t, 3) == ThreadStep(ThreadStep(ThreadStep(s, t), t), t)
  {
    SteppedOnce(s, t);
    SteppedOn(s, t, 1, 1);
    SteppedOnce(ThreadStep(s, t), t);
    SteppedOn(s, t, 2, 1);
    SteppedOnce(ThreadStep(ThreadStep(s, t), t), t);
  }

  class Dispatcher {
    var targets: map<int, int>
    var cleanups: map<int, int>
    var sink: bool
    var era: nat
    var slot: Option<nat>
    var queue: seq<Item>
    // Every thread's own place in the code, which the program keeps on the thread's stack.
    var threads: map<nat, Thread>
    var nextTid: nat
    // History.
    var accepted: seq<Item>
    var taken: seq<Taken>
    var trace: seq<Op>

    ghost function Abs(): State
      reads this
    {
      State(targets, cleanups, sink, era, slot, threads, nextTid, queue, accepted, taken, trace)
    }

    ghost predicate Valid()
      reads this
    {
      Inv(Abs())
    }

    constructor ()
      ensures Abs() == INIT && Valid()
    {
      targets, cleanups, sink, era, slot, queue := map[], map[], false, 0, None, [];
      threads, nextTid, accepted, taken, trace := map[], 0, [], [], [];
      new;
      InitInv();
    }

    // --- callers ------------------------------------------------------------------------------

    /** Refuses a second object for one handle, and nothing else. */
    method Attach(handle: int, events: int, streamEnded: bool) returns (refused: bool)
      requires Valid()
      modifies this
      ensures Valid() && Abs() == M.Attach(old(Abs()), handle, events, streamEnded)
      ensures refused <==> handle in old(targets) && old(targets)[handle] != events
      ensures !refused ==> sink && slot.Some? && handle in targets && targets[handle] == events
    {
      hide Inv;
      StepKeepsInv(Abs(), DoAttach(handle, events, streamEnded));
      refused := handle in targets && targets[handle] != events;
      if !refused {
        targets := targets[handle := events];
        Arm(streamEnded);
      }
    }

    /** By identity: somebody else's routing entry stays. */
    method Detach(handle: int, events: int)
      requires Valid()
      modifies this
      ensures Valid() && Abs() == M.Detach(old(Abs()), handle, events)
      ensures forall h <- old(targets) :: h != handle || old(targets)[h] != events ==>
        h in targets && targets[h] == old(targets)[h]
      ensures handle in targets ==> targets[handle] != events
      ensures sink <==> old(sink) && (targets != map[] || cleanups != map[])
    {
      hide Inv;
      StepKeepsInv(Abs(), DoDetach(handle, events));
      if handle in targets && targets[handle] == events {
        targets := targets - {handle};
      }
      ReleaseSinkIfIdle();
    }

    method RegisterCleanup(handle: int, fn: int, streamEnded: bool)
      requires Valid()
      modifies this
      ensures Valid() && Abs() == M.RegisterCleanup(old(Abs()), handle, fn, streamEnded)
      ensures sink && slot.Some? && targets == old(targets) && cleanups == old(cleanups)[handle := fn]
    {
      hide Inv;
      StepKeepsInv(Abs(), DoRegister(handle, fn, streamEnded));
      cleanups := cleanups[handle := fn];
      Arm(streamEnded);
    }

    method UnregisterCleanup(handle: int)
      requires Valid()
      modifies this
      ensures Valid() && Abs() == M.UnregisterCleanup(old(Abs()), handle)
      ensures targets == old(targets) && cleanups == old(cleanups) - {handle}
      ensures sink <==> old(sink) && (targets != map[] || cleanups != map[])
    {
      hide Inv;
      StepKeepsInv(Abs(), DoUnregister(handle));
      cleanups := cleanups - {handle};
      ReleaseSinkIfIdle();
    }

    /** Is `t` the connection's callback thread? Yes for every thread with anything in its hand. */
    method OnThread(t: nat) returns (r: bool)
      requires Valid()
      ensures r <==> slot == Some(t)
      ensures t in threads && threads[t].hand != [] ==> r
    {
      r := slot == Some(t);
    }

    // --- under the lock -----------------------------------------------------------------------

    method Arm(streamEnded: bool)
      modifies this
      ensures Abs() == M.Arm(old(Abs()), streamEnded)
      ensures !old(sink) ==> era == old(era) + 1
      ensures !old(sink) ==> queue == old(queue) + if streamEnded then [Resume(era), EndOfStream] else [Resume(era)]
      ensures old(sink) ==> era == old(era) && queue == old(queue)
    {
      if !sink {
        sink, era := true, era + 1;
        queue := queue + [Resume(era)];
        if streamEnded {
          PutFrame(None);
        }
      }
      if slot.None? {
        StartThread();
      }
    }

    method StartThread()
      modifies this
      ensures Abs() == M.StartThread(old(Abs()))
    {
      slot, threads, nextTid := Some(nextTid), threads[nextTid := Thread(Live, [])], nextTid + 1;
    }

    method ReleaseSinkIfIdle()
      modifies this
      ensures Abs() == M.ReleaseSinkIfIdle(old(Abs()))
    {
      if targets != map[] || cleanups != map[] || !sink {
        return;
      }
      sink := false;
      queue := queue + [Idle];
    }

    method Accept(job: Job)
      modifies this
      ensures Abs() == M.Accept(old(Abs()), job)
    {
      var item := Work(job, sink, |accepted|);
      queue, accepted := queue + [item], accepted + [item];
    }

    /** The only way anything the sink was given gets on the queue; `None` ends the stream. */
    method PutFrame(frame: Option<Job>)
      modifies this
      ensures Abs() == M.Enqueue(old(Abs()), frame)
    {
      if sink {
        if frame.None? {
          queue := queue + [EndOfStream];
        } else {
          Accept(frame.value);
        }
        if slot.None? {
          StartThread();
        }
        return;
      }
      if frame.None? {
        return;
      }
      var start := slot.None?;
      if start {
        queue := queue + [Idle];
      }
      Accept(frame.value);
      if start {
        StartThread();
      }
    }

    method Enqueue(frame: Option<Job>)
      requires Valid()
      modifies this
      ensures Valid() && Abs() == M.Enqueue(old(Abs()), frame)
      ensures frame.None? ==> accepted == old(accepted)
      ensures frame.None? ==> queue == old(queue) + if sink then [EndOfStream] else []
      ensures frame.Some? ==>
        var item := Work(frame.value, sink, |old(accepted)|);
        && slot.Some? && accepted == old(accepted) + [item]
        && queue == old(queue) + if sink || old(slot).Some? then [item] else [Idle, item]
    {
      hide Inv;
      StepKeepsInv(Abs(), DoEnqueue(frame));
      PutFrame(frame);
    }

    // --- the dispatcher thread ----------------------------------------------------------------

    /** Everything the queue holds, one get at a time. */
    method TakeAll() returns (batch: seq<Item>)
      modifies this`queue
      ensures batch == old(queue) && queue == []
    {
      batch := [];
      while queue != []
        invariant batch + queue == old(queue)
        decreases |queue|
      {
        batch, queue := batch + [queue[0]], queue[1..];
      }
    }

    /** One pass of the drain, under the lock: resume, retire, or take a batch. */
    method DrainPass(t: nat)
      requires slot == Some(t) && t in threads && threads[t] == Thread(Draining([], false), [])
      modifies this
      ensures Abs() == ThreadStep(old(Abs()), t)
      ensures slot.None? ==> queue == [] && !sink
    {
      if sink {
        threads := threads[t := Thread(Fencing(era), [])];
        return;
      }
      var batch := TakeAll();
      if batch == [] {
        slot, threads := None, threads[t := Thread(Unwinding, [])];
      } else {
        threads := threads[t := Thread(Draining(batch, false), [])];
      }
    }

    /** One pass past the end of the stream: nothing interrupts it, and it takes the sink off too. */
    method EndPass(t: nat)
      requires slot == Some(t) && t in threads && threads[t] == Thread(Ending([]), [])
      modifies this
      ensures Abs() == ThreadStep(old(Abs()), t)
      ensures slot.None? ==> queue == [] && !sink
    {
      var batch := TakeAll();
      if batch == [] {
        sink, slot, threads := false, None, threads[t := Thread(Unwinding, [])];
      } else {
        threads := threads[t := Thread(Ending(batch), [])];
      }
    }

    method Hand(t: nat, item: Item, routed: bool, next: Mode)
      modifies this
      ensures Abs() == M.Take(old(Abs()), t, item, routed, next)
    {
      if item.Work? {
        var x := Taken(item, routed);
        threads, taken := threads[t := Thread(next, OpsFor(x))], taken + [x];
      } else {
        threads := threads[t := Thread(next, [])];
      }
    }

    /** One get of the live loop. */
    method LiveGet(t: nat)
      requires t in threads && threads[t] == Thread(Live, []) && queue != []
      modifies this
      ensures Abs() == ThreadStep(old(Abs()), t)
    {
      var item := queue[0];
      queue := queue[1..];
      if item.EndOfStream? {
        Hand(t, item, true, Ending([]));
      } else if item.Idle? {
        Hand(t, item, true, Draining([], false));
      } else {
        Hand(t, item, true, Live);
      }
    }

    /** One get of the fence. It needs no marker in its precondition: `Valid` puts one there. */
    method FenceGet(t: nat)
      requires Valid() && t in threads && threads[t].mode.Fencing? && threads[t].hand == []
      modifies this
      ensures Valid() && Abs() == ThreadStep(old(Abs()), t)
    {
      hide Inv;
      StepKeepsInv(Abs(), DoThread(t));
      FenceHasMarker(Abs(), t);
      var target := threads[t].mode.target;
      var item := queue[0];
      queue := queue[1..];
      if item == Resume(target) {
        threads := threads[t := Thread(Live, [])];
      } else if item.EndOfStream? {
        threads := threads[t := Thread(PuttingBack, [])];
      } else {
        Hand(t, item, false, Fencing(target));
      }
    }

    /** The end of stream that the fence met goes back on the queue, behind whatever is there by now. */
    method PutBack(t: nat)
      requires Valid() && t in threads && threads[t] == Thread(PuttingBack, [])
      modifies this
      ensures Valid() && Abs() == ThreadStep(old(Abs()), t)
      ensures queue == old(queue) + [EndOfStream] && threads[t].mode.Live?
    {
      hide Inv;
      StepKeepsInv(Abs(), DoThread(t));
      queue, threads := queue + [EndOfStream], threads[t := Thread(Live, [])];
    }

    /** The backstop: in a valid state it never touches the slot. */
    method ThreadFinished(t: nat)
      requires Valid() && t in threads && threads[t].mode.Unwinding?
      modifies this
      ensures Valid() && Abs() == ThreadStep(old(Abs()), t) && slot == old(slot)
    {
      hide Conserved, Marked;
      StepKeepsInv(Abs(), DoThread(t));
      threads := threads - {t};
      slot := if slot == Some(t) then None else slot;
    }

    /** The next item of a drained batch; an end of stream in it is only noted. */
    method TakeFromBatch(t: nat)
      requires Valid() && t in threads && threads[t].hand == []
      requires (threads[t].mode.Draining? || threads[t].mode.Ending?) && Batch(threads[t].mode) != []
      modifies this
      ensures Valid() && Abs() == ThreadStep(old(Abs()), t)
      ensures var item, mode := Batch(old(threads[t].mode))[0], old(threads[t].mode);
        && t in threads && threads[t].hand == (if item.Work? then LeftoverOps(item.job) else [])
        && (threads[t].mode.Draining? || threads[t].mode.Ending?)
        && Batch(threads[t].mode) == Batch(mode)[1..] && AfterBatch(threads[t].mode) == AfterBatch(mode)
      ensures trace == old(trace)
    {
      hide Inv;
      StepKeepsInv(Abs(), DoThread(t));
      ghost var was := Batch(threads[t].mode);
      assert was == [was[0]] + was[1..];
      match threads[t].mode
      case Draining(batch, ended) =>
        Hand(t, batch[0], false, Draining(batch[1..], ended || batch[0].EndOfStream?));
      case Ending(batch) =>
        Hand(t, batch[0], false, Ending(batch[1..]));
    }

    // --- handling one item --------------------------------------------------------------------

    /** The next call the thread owes, and how it ends. A registration that is dropped is dropped here. */
    method Call(t: nat, outcome: Outcome) returns (r: Outcome)
      requires Valid() && t in threads && threads[t].hand != []
      modifies this
      ensures Valid() && Abs() == ThreadStep(old(Abs()), t) && r == outcome
      ensures t in threads && threads[t] == Thread(old(threads[t].mode), old(threads[t].hand)[1..])
      ensures trace == old(trace) + [old(threads[t].hand)[0]] && targets == old(targets)
      ensures var op := old(threads[t].hand)[0];
        cleanups == if op.Unregister? then old(cleanups) - {op.handle} else old(cleanups)
    {
      hide Inv;
      StepKeepsInv(Abs(), DoThread(t));
      var th := threads[t];
      var op := th.hand[0];
      threads, trace := threads[t := th.(hand := th.hand[1..])], trace + [op];
      if op.Unregister? {
        cleanups := cleanups - {op.handle};
        ReleaseSinkIfIdle();
      }
      r := outcome;
    }

    /** `n` calls later: the thread has made them all, in the order they were owed. */
    twostate predicate Made(t: nat, n: nat)
      requires old(t in threads)
      reads this
    {
      && Valid() && Abs() == Stepped(old(Abs()), t, n)
      && t in threads && n == |old(threads[t].hand)| && threads[t] == Thread(old(threads[t].mode), [])
      && trace == old(trace + threads[t].hand) && targets == old(targets)
    }

    /** A `$cleanup` frame: the closure that is registered for the handle, if there is one, and then the
        three steps every cleanup ends with, also when the closure raised. Only what is not an ordinary
        exception of the closure comes out, after them. */
    method RunCleanup(t: nat, handle: int, seqNo: int, outs: Outcomes)
      returns (closure: Option<int>, escaping: Outcome, warnings: nat)
      requires Valid() && t in threads && threads[t].hand == CleanupOps(handle, seqNo)
      modifies this
      ensures Made(t, 4) && handle !in cleanups
      ensures closure == if handle in old(cleanups) then Some(old(cleanups)[handle]) else None
      ensures escaping == if closure.Some? && outs.closure == RaisesBase then RaisesBase else Returns
      ensures warnings == 0 <==>
        && (closure.Some? ==> outs.closure in {Returns, RaisesBase})
        && outs.release in {Returns, ConnectionGone} && outs.signal == outs.drop == Returns
    {
      hide Inv, Stepped, ThreadStep;
      closure, warnings := None, 0;
      if handle in cleanups {
        closure := Some(cleanups[handle]);
      }
      // With nothing registered there is nothing to call, and nothing that could raise.
      escaping := Call(t, if closure.Some? then outs.closure else Returns);
      if escaping == RaisesException || escaping == ConnectionGone {
        escaping, warnings := Returns, 1;
      }
      // Whatever is on its way out waits for this.
      var more := AckCleanup(t, handle, seqNo, outs);
      warnings := warnings + more;
      SteppedOnce(old(Abs()), t);
      SteppedOn(old(Abs()), t, 1, 3);
    }

    /** Each step is tried on its own: one that fails is warned about, unless it failed because the
        connection is going away, and the next one is taken. */
    method AckCleanup(t: nat, handle: int, seqNo: int, outs: Outcomes) returns (warnings: nat)
      requires Valid() && t in threads && threads[t].hand == CleanupOps(handle, seqNo)[1..]
      modifies this
      ensures Made(t, 3) && handle !in cleanups
      ensures warnings == 0 <==> outs.release in {Returns, ConnectionGone} && outs.signal == outs.drop == Returns
    {
      hide Inv, Stepped, ThreadStep;
      warnings := 0;
      var r := Call(t, outs.release);
      if r != Returns && r != ConnectionGone {
        warnings := warnings + 1;
      }
      r := Call(t, outs.signal);
      if r != Returns {
        warnings := warnings + 1;
      }
      r := Call(t, outs.drop);
      if r != Returns {
        warnings := warnings + 1;
      }
      ThreeCalls(old(Abs()), t);
    }

    /** A frame that carried arguments is released; a connection that is going away has nothing left to
        release, and any other failure comes out. */
    method Release(t: nat, job: Job, outs: Outcomes) returns (escaping: Outcome)
      requires Valid() && t in threads && threads[t].hand == ReleaseOps(job)
      modifies this
      ensures Made(t, |ReleaseOps(job)|)
      ensures escaping ==
        if ReleaseOps(job) == [] || outs.release == ConnectionGone then Returns else outs.release
    {
      hide Inv, Stepped, ThreadStep;
      SteppedOnce(Abs(), t);
      if ReleaseOps(job) == [] {
        return Returns;
      }
      escaping := Call(t, outs.release);
      if escaping == ConnectionGone {
        escaping := Returns;
      }
    }

    /** An ordinary frame on the live path: to the target that is registered for its handle, if there is
        one, and then released, also when its delivery raised. */
    method Route(t: nat, handle: int, seqNo: int, hasArgs: bool, outs: Outcomes)
      returns (target: Option<int>, escaping: Outcome)
      requires Valid() && t in threads && threads[t].hand == LiveOps(Event(handle, seqNo, hasArgs))
      modifies this
      ensures Made(t, if hasArgs then 2 else 1)
      ensures target == if handle in old(targets) then Some(old(targets)[handle]) else None
      ensures escaping ==
        if hasArgs && outs.release in {RaisesException, RaisesBase} then outs.release
        else if target.Some? then outs.delivery else Returns
    {
      hide Inv, Stepped, ThreadStep;
      ghost var job := Event(handle, seqNo, hasArgs);
      target := None;
      if handle in targets {
        target := Some(targets[handle]);
      }
      escaping := Call(t, if target.Some? then outs.delivery else Returns);
      // Whatever is on its way out waits for the release, and gives way to what comes out of that.
      var after := Release(t, Event(handle, seqNo, hasArgs), outs);
      if after != Returns {
        escaping := after;
      }
      SteppedOnce(old(Abs()), t);
      SteppedOn(old(Abs()), t, 1, |ReleaseOps(job)|);
    }

    /** One item of the live loop: a barrier is answered, a cleanup is run, a frame is routed. */
    method Handle(t: nat, job: Job, outs: Outcomes) returns (escaping: Outcome)
      requires Valid() && t in threads && threads[t].hand == LiveOps(job)
      modifies this
      ensures Made(t, |LiveOps(job)|)
    {
      hide Inv, Stepped, ThreadStep;
      match job
      case Barrier(_) =>
        SteppedOnce(Abs(), t);
        escaping := Call(t, outs.delivery);
      case CleanupCall(handle, seqNo) =>
        var _, e, _ := RunCleanup(t, handle, seqNo, outs);
        escaping := e;
      case Event(handle, seqNo, hasArgs) =>
        var _, e := Route(t, handle, seqNo, hasArgs, outs);
        escaping := e;
    }

    /** One drained item: the same, but a frame is only released. */
    method HandleLeftover(t: nat, job: Job, outs: Outcomes) returns (escaping: Outcome)
      requires Valid() && t in threads && threads[t].hand == LeftoverOps(job)
      modifies this
      ensures Made(t, |LeftoverOps(job)|)
    {
      hide Inv, Stepped, ThreadStep;
      match job
      case Barrier(_) =>
        SteppedOnce(Abs(), t);
        escaping := Call(t, outs.delivery);
      case CleanupCall(handle, seqNo) =>
        var _, e, _ := RunCleanup(t, handle, seqNo, outs);
        escaping := e;
      case Event(_, _, _) =>
        escaping := Release(t, job, outs);
    }

    /** A drained batch, to its end: what comes out of one item is reported, and the next is handled. */
    method HandleBatch(t: nat, outs: Item -> Outcomes) returns (reports: nat, ghost n: nat)
      requires Valid() && t in threads && threads[t].hand == []
      requires threads[t].mode.Draining? || threads[t].mode.Ending?
      modifies this
      ensures Valid() && Abs() == Stepped(old(Abs()), t, n)
      ensures t in threads && threads[t] == Thread(AfterBatch(old(threads[t].mode)), [])
      ensures trace == old(trace) + CallsFor(Batch(old(threads[t].mode)))
    {
      hide Inv, Stepped, ThreadStep, CallsFor, AfterBatch;
      reports, n := 0, 0;
      SteppedOnce(Abs(), t);
      NoCalls();
      ghost var handled: seq<Item> := [];
      assert handled + Batch(threads[t].mode) == Batch(threads[t].mode);
      while Batch(threads[t].mode) != []
        invariant t in threads && threads[t].hand == [] && (threads[t].mode.Draining? || threads[t].mode.Ending?)
        invariant handled + Batch(threads[t].mode) == Batch(old(threads[t].mode))
        invariant AfterBatch(threads[t].mode) == AfterBatch(old(threads[t].mode))
        invariant Valid() && Abs() == Stepped(old(Abs()), t, n)
        invariant trace == old(trace) + CallsFor(handled)
        decreases |Batch(threads[t].mode)|
      {
        ghost var rest := Batch(threads[t].mode);
        var item := Batch(threads[t].mode)[0];
        var escaping := HandleNext(t, item, outs(item));
        if escaping != Returns {
          reports := reports + 1;
        }
        ghost var k := 1 + |CallsFor([item])|;
        SteppedOn(old(Abs()), t, n, k);
        n := n + k;
        CallsForMore(handled, item);
        assert handled + rest == (handled + [item]) + rest[1..];
        handled := handled + [item];
      }
      assert handled + [] == handled;
      EmptiedMode(threads[t].mode);
    }

    method HandleNext(t: nat, item: Item, outs: Outcomes) returns (escaping: Outcome)
      requires Valid() && t in threads && threads[t].hand == []
      requires (threads[t].mode.Draining? || threads[t].mode.Ending?) && Batch(threads[t].mode) != []
      requires item == Batch(threads[t].mode)[0]
      modifies this
      ensures Valid() && Abs() == Stepped(old(Abs()), t, 1 + |CallsFor([item])|)
      ensures t in threads && threads[t].hand == [] && trace == old(trace) + CallsFor([item])
      ensures threads[t].mode.Draining? || threads[t].mode.Ending?
      ensures Batch(threads[t].mode) == Batch(old(threads[t].mode))[1..]
      ensures AfterBatch(threads[t].mode) == AfterBatch(old(threads[t].mode))
    {
      hide Inv, Stepped, ThreadStep, LeftoverOps;
      TakeFromBatch(t);
      escaping := Returns;
      SteppedOnce(old(Abs()), t);
      OneItem(item);
      if item.Work? {
        escaping := HandleLeftover(t, item.job, outs);
        SteppedOn(old(Abs()), t, 1, |LeftoverOps(item.job)|);
      }
    }
  }
}
