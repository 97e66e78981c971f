/** What every interleaving keeps: one dispatching thread and no stranded item, first-in
    first-out conservation of the work, and the position of the era markers. */
module DispatcherInvariants {
  import opened Options
  import opened DispatcherModel

  // --- one thread -----------------------------------------------------------------------------

  /** Only the thread in the slot is anything but unwinding; an empty slot means an empty queue
      and no sink, so an installed sink means an occupied slot. */
  ghost predicate OneThread(s: State) {
    && (s.slot.None? ==> s.queue == [] && !s.sink)
    && (s.slot.Some? ==> s.slot.value in s.threads)
    && (forall t <- s.threads :: t < s.nextTid)
    && (forall t <- s.threads :: s.threads[t].mode.Unwinding? <==> s.slot != Some(t))
    && (forall t <- s.threads :: s.threads[t].mode.Unwinding? ==> s.threads[t].hand == [])
  }

  lemma EnqueueKeepsOneThread(s: State, frame: Option<Job>)
    requires OneThread(s)
    ensures OneThread(Enqueue(s, frame))
  {
  }

  lemma CallersKeepOneThread(s: State, ended: bool)
    requires OneThread(s)
    ensures OneThread(Arm(s, ended)) && Arm(s, ended).sink
    ensures OneThread(ReleaseSinkIfIdle(s))
  {
  }

  /** The thread in the slot may change its own record and leave the slot as it is. */
  lemma SlotThreadMoves(s: State, s': State, t: nat)
    requires OneThread(s) && s.slot == Some(t)
    requires s'.slot == s.slot && s'.nextTid == s.nextTid && t in s'.threads
    requires s'.threads == s.threads[t := s'.threads[t]] && !s'.threads[t].mode.Unwinding?
    ensures OneThread(s')
  {
  }

  lemma RunOpKeepsOneThread(s: State, t: nat)
    requires OneThread(s) && t in s.threads && s.threads[t].hand != []
    ensures s.slot == Some(t) && OneThread(RunOp(s, t))
  {
    SlotThreadMoves(s, RunOp(s, t), t);
  }

  lemma LiveKeepsOneThread(s: State, t: nat)
    requires OneThread(s) && s.slot == Some(t)
    ensures OneThread(LiveStep(s, t))
  {
    if s.queue != [] {
      SlotThreadMoves(s, LiveStep(s, t), t);
    }
  }

  lemma DrainKeepsOneThread(s: State, t: nat, batch: seq<Item>, ended: bool)
    requires OneThread(s) && s.slot == Some(t)
    ensures OneThread(DrainStep(s, t, batch, ended))
  {
    if batch != [] || ended || s.sink || s.queue != [] {
      SlotThreadMoves(s, DrainStep(s, t, batch, ended), t);
    }
  }

  lemma FenceKeepsOneThread(s: State, t: nat, era: nat)
    requires OneThread(s) && s.slot == Some(t)
    ensures OneThread(FenceStep(s, t, era))
  {
    if s.queue != [] {
      SlotThreadMoves(s, FenceStep(s, t, era), t);
    }
  }

  lemma EndKeepsOneThread(s: State, t: nat, batch: seq<Item>)
    requires OneThread(s) && s.slot == Some(t)
    ensures OneThread(EndStep(s, t, batch))
  {
    if batch != [] || s.queue != [] {
      SlotThreadMoves(s, EndStep(s, t, batch), t);
    }
  }

  lemma ThreadKeepsOneThread(s: State, t: nat)
    requires OneThread(s)
    ensures OneThread(ThreadStep(s, t))
  {
    if t in s.threads {
      var th := s.threads[t];
      if th.hand != [] {
        RunOpKeepsOneThread(s, t);
      } else {
        match th.mode
        case Live => LiveKeepsOneThread(s, t);
        case Draining(b, e) => DrainKeepsOneThread(s, t, b, e);
        case Fencing(e) => FenceKeepsOneThread(s, t, e);
        case PuttingBack => SlotThreadMoves(s, PutBackStep(s, t), t);
        case Ending(b) => EndKeepsOneThread(s, t, b);
        case Unwinding =>
      }
    }
  }

  // --- conservation ---------------------------------------------------------------------------

  /** The thread in the slot; when there is none, a thread with nothing in its hand. */
  ghost function Worker(s: State): Thread {
    if s.slot.Some? && s.slot.value in s.threads then s.threads[s.slot.value] else Thread(Unwinding, [])
  }

  function Batch(m: Mode): seq<Item> {
    match m
    case Draining(b, _) => b
    case Ending(b) => b
    case _ => []
  }

  /** Everything accepted and not yet taken, in order: the batch first, then the queue. */
  ghost function Flow(s: State): seq<Item> {
    Batch(Worker(s).mode) + s.queue
  }

  function Works(q: seq<Item>): seq<Item> {
    if q == [] then [] else (if q[0].Work? then [q[0]] else []) + Works(q[1..])
  }

  function Items(xs: seq<Taken>): seq<Item> {
    if xs == [] then [] else Items(xs[..|xs| - 1]) + [xs[|xs| - 1].item]
  }

  function OpsOf(xs: seq<Taken>): seq<Op> {
    if xs == [] then [] else OpsOf(xs[..|xs| - 1]) + OpsFor(xs[|xs| - 1])
  }

  /** First in, first out, and nothing lost or doubled: what was accepted is what was taken, then
      what is still to be taken; the calls made, then the calls still owed, are exactly the calls
      the taken items lead to. */
  ghost predicate Conserved(s: State) {
    Books(s.accepted, s.taken, s.trace, Worker(s).hand, Flow(s))
  }

  predicate Books(accepted: seq<Item>, taken: seq<Taken>, trace: seq<Op>, hand: seq<Op>, flow: seq<Item>) {
    && accepted == Items(taken) + Works(flow)
    && trace + hand == OpsOf(taken)
    && (forall k | 0 <= k < |accepted| :: accepted[k].Work? && accepted[k].no == k)
  }

  lemma {:induction false} WorksConcat(a: seq<Item>, b: seq<Item>)
    ensures Works(a + b) == Works(a) + Works(b)
    decreases |a|
  {
    if a == [] {
      assert a + b == b;
    } else {
      var x, rest := if a[0].Work? then [a[0]] else [], a[1..];
      assert (a + b)[0] == a[0] && (a + b)[1..] == rest + b;
      WorksConcat(rest, b);
      assert x + (Works(rest) + Works(b)) == (x + Works(rest)) + Works(b);
    }
  }

  lemma BooksTake(accepted: seq<Item>, taken: seq<Taken>, trace: seq<Op>, item: Item, flow: seq<Item>, routed: bool)
    requires Books(accepted, taken, trace, [], [item] + flow)
    ensures var x := Taken(item, routed);
      if item.Work? then Books(accepted, taken + [x], trace, OpsFor(x), flow)
      else Books(accepted, taken, trace, [], flow)
  {
    var x := Taken(item, routed);
    assert ([item] + flow)[1..] == flow;
    assert (taken + [x])[..|taken|] == taken;
    assert trace + [] == trace;
    assert Items(taken) + ([item] + Works(flow)) == Items(taken) + [item] + Works(flow);
  }

  lemma BooksAccept(accepted: seq<Item>, taken: seq<Taken>, trace: seq<Op>, hand: seq<Op>, flow: seq<Item>, item: Item)
    requires Books(accepted, taken, trace, hand, flow) && item.Work? && item.no == |accepted|
    ensures Books(accepted + [item], taken, trace, hand, flow + [item])
  {
    WorksConcat(flow, [item]);
    assert Items(taken) + Works(flow) + [item] == Items(taken) + (Works(flow) + [item]);
  }

  lemma BooksPut(accepted: seq<Item>, taken: seq<Taken>, trace: seq<Op>, hand: seq<Op>, flow: seq<Item>, item: Item)
    requires Books(accepted, taken, trace, hand, flow) && !item.Work?
    ensures Books(accepted, taken, trace, hand, flow + [item])
  {
    WorksConcat(flow, [item]);
    assert Works(flow) + [] == Works(flow);
  }

  lemma BooksCall(accepted: seq<Item>, taken: seq<Taken>, trace: seq<Op>, hand: seq<Op>, flow: seq<Item>)
    requires Books(accepted, taken, trace, hand, flow) && hand != []
    ensures Books(accepted, taken, trace + [hand[0]], hand[1..], flow)
  {
    assert trace + [hand[0]] + hand[1..] == trace + hand;
  }

  /** A thread with an empty hand takes the head of the flow; `q` is the queue it leaves. */
  lemma TakeKeepsConserved(s: State, t: nat, q: seq<Item>, item: Item, routed: bool, next: Mode)
    requires Conserved(s) && s.slot == Some(t) && t in s.threads && s.threads[t].hand == []
    requires Flow(s) == [item] + (Batch(next) + q)
    ensures Conserved(Take(s.(queue := q), t, item, routed, next))
  {
    var s' := Take(s.(queue := q), t, item, routed, next);
    BooksTake(s.accepted, s.taken, s.trace, item, Batch(next) + q, routed);
    assert Flow(s') == Batch(next) + q;
    assert Worker(s').hand == if item.Work? then OpsFor(Taken(item, routed)) else [];
  }

  lemma ReleaseSinkKeepsConserved(s: State)
    requires Conserved(s)
    ensures Conserved(ReleaseSinkIfIdle(s))
  {
    if ReleaseSinkIfIdle(s) != s {
      PutKeepsConserved(s, Idle);
      assert Flow(Retire(s)) == Flow(Put(s, Idle));
    }
  }

  lemma PutKeepsConserved(s: State, item: Item)
    requires Conserved(s) && !item.Work?
    ensures Conserved(Put(s, item))
  {
    assert Flow(Put(s, item)) == Flow(s) + [item];
    BooksPut(s.accepted, s.taken, s.trace, Worker(s).hand, Flow(s), item);
  }

  lemma AcceptKeepsConserved(s: State, job: Job)
    requires Conserved(s)
    ensures Conserved(Accept(s, job))
  {
    var item := Work(job, s.sink, |s.accepted|);
    assert Flow(Accept(s, job)) == Flow(s) + [item];
    BooksAccept(s.accepted, s.taken, s.trace, Worker(s).hand, Flow(s), item);
  }

  lemma EnsureThreadKeepsConserved(s: State)
    requires Conserved(s)
    ensures Conserved(EnsureThread(s))
    ensures Worker(s).hand == [] ==> Worker(EnsureThread(s)).hand == []
  {
    if s.slot.None? {
      assert Flow(s) == s.queue == Flow(EnsureThread(s));
    }
  }

  lemma CallersKeepConserved(s: State, frame: Option<Job>, ended: bool)
    requires Conserved(s)
    ensures Conserved(Enqueue(s, frame)) && Conserved(Arm(s, ended))
  {
    EnqueueKeepsConserved(s, frame);
    InstallKeepsConserved(s);
    EnqueueKeepsConserved(Install(s), None);
    EnsureThreadKeepsConserved(Enqueue(Install(s), None));
    EnsureThreadKeepsConserved(Install(s));
    EnsureThreadKeepsConserved(s);
  }

  lemma InstallKeepsConserved(s: State)
    requires Conserved(s)
    ensures Conserved(Install(s))
  {
    PutKeepsConserved(s, Resume(s.era + 1));
    assert Flow(Install(s)) == Flow(Put(s, Resume(s.era + 1)));
  }

  lemma EnqueueKeepsConserved(s: State, frame: Option<Job>)
    requires Conserved(s)
    ensures Conserved(Enqueue(s, frame))
  {
    PutKeepsConserved(s, EndOfStream);
    EnsureThreadKeepsConserved(Put(s, EndOfStream));
    if frame.Some? {
      AcceptKeepsConserved(s, frame.value);
      EnsureThreadKeepsConserved(Accept(s, frame.value));
      PutKeepsConserved(s, Idle);
      AcceptKeepsConserved(Put(s, Idle), frame.value);
      EnsureThreadKeepsConserved(Accept(Put(s, Idle), frame.value));
    }
  }

  lemma CallKeepsConserved(s: State, t: nat)
    requires OneThread(s) && Conserved(s) && t in s.threads && s.threads[t].hand != []
    ensures Conserved(CallHead(s, t))
  {
    assert s.slot == Some(t);
    BooksCall(s.accepted, s.taken, s.trace, Worker(s).hand, Flow(s));
    assert Flow(CallHead(s, t)) == Flow(s);
  }

  lemma RunOpKeepsConserved(s: State, t: nat)
    requires OneThread(s) && Conserved(s) && t in s.threads && s.threads[t].hand != []
    ensures Conserved(RunOp(s, t))
  {
    var op := s.threads[t].hand[0];
    CallKeepsConserved(s, t);
    if op.Unregister? {
      var s1 := CallHead(s, t);
      var s2 := s1.(cleanups := s1.cleanups - {op.handle});
      assert Flow(s2) == Flow(s1);
      ReleaseSinkKeepsConserved(s2);
    }
  }

  lemma LiveKeepsConserved(s: State, t: nat)
    requires OneThread(s) && Conserved(s) && s.slot == Some(t) && s.threads[t] == Thread(Live, [])
    ensures Conserved(LiveStep(s, t))
  {
    if s.queue != [] {
      var item, q := s.queue[0], s.queue[1..];
      var next := if item.EndOfStream? then Ending([]) else if item.Idle? then Draining([], false) else Live;
      assert Flow(s) == [item] + (Batch(next) + q);
      TakeKeepsConserved(s, t, q, item, true, next);
    }
  }

  /** Taking the next item of a batch; `next` is the mode that keeps the rest of it. */
  lemma TakesFromBatch(s: State, t: nat, batch: seq<Item>, next: Mode)
    requires Conserved(s) && s.slot == Some(t) && t in s.threads
    requires s.threads[t].hand == [] && Batch(s.threads[t].mode) == batch && batch != []
    requires Batch(next) == batch[1..]
    ensures Conserved(Take(s, t, batch[0], false, next))
  {
    assert Flow(s) == [batch[0]] + (Batch(next) + s.queue);
    TakeKeepsConserved(s, t, s.queue, batch[0], false, next);
    assert s.(queue := s.queue) == s;
  }

  /** From one mode to another with an empty hand, the batch, if any, from the queue. */
  lemma MovesOn(s: State, t: nat, mode: Mode, q: seq<Item>)
    requires Conserved(s) && s.slot == Some(t) && t in s.threads && s.threads[t].hand == []
    requires Flow(s) == Batch(mode) + q
    ensures Conserved(SetThread(s, t, Thread(mode, [])).(queue := q))
  {
    var s' := SetThread(s, t, Thread(mode, [])).(queue := q);
    assert Flow(s') == Flow(s) && Worker(s').hand == [];
  }

  /** Out of the slot, with nothing left to take. */
  lemma LeavesSlot(s: State, t: nat, sink: bool)
    requires Conserved(s) && s.slot == Some(t) && t in s.threads && s.threads[t].hand == [] && Flow(s) == s.queue == []
    ensures Conserved(SetThread(s, t, Thread(Unwinding, [])).(sink := sink, slot := None))
  {
    var s' := SetThread(s, t, Thread(Unwinding, [])).(sink := sink, slot := None);
    assert Flow(s') == [] && Worker(s').hand == [];
  }

  lemma DrainKeepsConserved(s: State, t: nat, batch: seq<Item>, ended: bool)
    requires OneThread(s) && Conserved(s) && s.slot == Some(t) && s.threads[t] == Thread(Draining(batch, ended), [])
    ensures Conserved(DrainStep(s, t, batch, ended))
  {
    if batch != [] {
      TakesFromBatch(s, t, batch, Draining(batch[1..], ended || batch[0].EndOfStream?));
    } else {
      assert Flow(s) == s.queue;
      if ended {
        MovesOn(s, t, Ending([]), s.queue);
      } else if s.sink {
        MovesOn(s, t, Fencing(s.era), s.queue);
      } else if s.queue == [] {
        LeavesSlot(s, t, s.sink);
      } else {
        assert s.queue + [] == s.queue;
        MovesOn(s, t, Draining(s.queue, false), []);
      }
    }
  }

  lemma FenceKeepsConserved(s: State, t: nat, era: nat)
    requires OneThread(s) && Conserved(s) && s.slot == Some(t) && s.threads[t] == Thread(Fencing(era), [])
    ensures Conserved(FenceStep(s, t, era))
  {
    if s.queue != [] {
      var item, q := s.queue[0], s.queue[1..];
      assert Flow(s) == [item] + q && forall m: Mode | Batch(m) == [] :: Batch(m) + q == q;
      if item == Resume(era) {
        TakeKeepsConserved(s, t, q, item, false, Live);
      } else if item.EndOfStream? {
        TakeKeepsConserved(s, t, q, item, false, PuttingBack);
      } else {
        TakeKeepsConserved(s, t, q, item, false, Fencing(era));
      }
    }
  }

  lemma PutBackKeepsConserved(s: State, t: nat)
    requires OneThread(s) && Conserved(s) && s.slot == Some(t) && s.threads[t] == Thread(PuttingBack, [])
    ensures Conserved(PutBackStep(s, t))
  {
    PutKeepsConserved(s, EndOfStream);
    assert [] + s.queue == s.queue && [] + (s.queue + [EndOfStream]) == s.queue + [EndOfStream];
    MovesOn(Put(s, EndOfStream), t, Live, s.queue + [EndOfStream]);
  }

  lemma EndKeepsConserved(s: State, t: nat, batch: seq<Item>)
    requires OneThread(s) && Conserved(s) && s.slot == Some(t) && s.threads[t] == Thread(Ending(batch), [])
    ensures Conserved(EndStep(s, t, batch))
  {
    if batch != [] {
      TakesFromBatch(s, t, batch, Ending(batch[1..]));
    } else {
      assert Flow(s) == s.queue;
      if s.queue == [] {
        LeavesSlot(s, t, false);
      } else {
        assert s.queue + [] == s.queue;
        MovesOn(s, t, Ending(s.queue), []);
      }
    }
  }

  lemma ThreadKeepsConserved(s: State, t: nat)
    requires OneThread(s) && Conserved(s)
    ensures Conserved(ThreadStep(s, t))
  {
    if t in s.threads {
      var th := s.threads[t];
      if th.hand != [] {
        RunOpKeepsConserved(s, t);
      } else {
        match th.mode
        case Live => LiveKeepsConserved(s, t);
        case Draining(b, e) => DrainKeepsConserved(s, t, b, e);
        case Fencing(e) => FenceKeepsConserved(s, t, e);
        case PuttingBack => PutBackKeepsConserved(s, t);
        case Ending(b) => EndKeepsConserved(s, t, b);
        case Unwinding => assert Flow(Finish(s, t)) == Flow(s);
      }
    }
  }
}
