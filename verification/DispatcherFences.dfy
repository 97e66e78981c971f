/** The era markers: where they stand in the queue, and why a fence never blocks. */
module DispatcherFences {
  import opened Options
  import opened DispatcherModel
  import opened DispatcherInvariants

  predicate Off(item: Item) {
    item.Work? && !item.armed
  }

  predicate Clear(q: seq<Item>) {
    forall x <- q :: !x.Idle? && !Off(x)
  }

  /** While era `e` is up: its marker is behind every IDLE, and behind the marker there is neither
      an IDLE nor an item accepted while the sink was off. */
  predicate Fenced(q: seq<Item>, e: nat) {
    q == [] ||
    (&& (q[0].Idle? ==> Resume(e) in q[1..])
     && (q[0] == Resume(e) ==> Clear(q[1..]))
     && Fenced(q[1..], e))
  }

  ghost predicate Ascending(q: seq<Item>, bound: nat) {
    && (forall i | 0 <= i < |q| && q[i].Resume? :: q[i].era <= bound)
    && (forall i, j | 0 <= i < j < |q| && q[i].Resume? && q[j].Resume? :: q[i].era < q[j].era)
  }

  ghost predicate Marked(s: State) {
    && Ascending(s.queue, s.era)
    && (s.sink ==> Fenced(s.queue, s.era))
    && (s.sink && Worker(s).mode.Draining? ==> Resume(s.era) in s.queue)
    && (Worker(s).mode.Fencing? ==> Resume(Worker(s).mode.target) in s.queue)
  }

  lemma {:induction false} FencedAppend(q: seq<Item>, e: nat, x: Item)
    requires Fenced(q, e) && !x.Idle? && !Off(x) && x != Resume(e)
    ensures Fenced(q + [x], e)
    decreases |q|
  {
    if q != [] {
      assert (q + [x])[1..] == q[1..] + [x];
      FencedAppend(q[1..], e, x);
    }
  }

  lemma {:induction false} FencedByNewMarker(q: seq<Item>, e: nat)
    requires Resume(e) !in q
    ensures Fenced(q + [Resume(e)], e)
    decreases |q|
  {
    if q != [] {
      assert (q + [Resume(e)])[1..] == q[1..] + [Resume(e)];
      FencedByNewMarker(q[1..], e);
    }
  }

  /** Under the fence, no item accepted while the sink was off is behind the marker. */
  lemma {:induction false} OffIsAheadOfMarker(q: seq<Item>, e: nat, i: nat)
    requires Fenced(q, e) && i < |q| && Off(q[i])
    ensures Resume(e) !in q[..i]
    decreases |q|
  {
    if i > 0 {
      assert q[0] != Resume(e) by { assert q[i] == q[1..][i - 1]; }
      OffIsAheadOfMarker(q[1..], e, i - 1);
      assert q[..i] == [q[0]] + q[1..][..i - 1];
    }
  }

  lemma QuietAppendKeepsMarked(s: State, x: Item)
    requires Marked(s) && (x.EndOfStream? || (x.Work? && x.armed == s.sink))
    ensures Marked(Put(s, x))
  {
    if s.sink {
      FencedAppend(s.queue, s.era, x);
    }
  }

  lemma AcceptKeepsMarked(s: State, job: Job)
    requires Marked(s)
    ensures Marked(Accept(s, job))
  {
    QuietAppendKeepsMarked(s, Work(job, s.sink, |s.accepted|));
  }

  lemma IdleKeepsMarked(s: State)
    requires Marked(s)
    ensures Marked(Retire(s))
  {
  }

  lemma StartKeepsMarked(s: State)
    requires Marked(s)
    ensures Marked(EnsureThread(s))
  {
  }

  lemma EnqueueKeepsMarked(s: State, frame: Option<Job>)
    requires Marked(s)
    ensures Marked(Enqueue(s, frame))
  {
    QuietAppendKeepsMarked(s, EndOfStream);
    StartKeepsMarked(Put(s, EndOfStream));
    if frame.Some? {
      AcceptKeepsMarked(s, frame.value);
      StartKeepsMarked(Accept(s, frame.value));
      if !s.sink {
        assert Put(s, Idle) == Retire(s);
        IdleKeepsMarked(s);
        AcceptKeepsMarked(Put(s, Idle), frame.value);
        StartKeepsMarked(Accept(Put(s, Idle), frame.value));
      }
    }
  }

  lemma InstallKeepsMarked(s: State)
    requires Marked(s) && !s.sink
    ensures Marked(Install(s))
  {
    FencedByNewMarker(s.queue, s.era + 1);
  }

  lemma CallersKeepMarked(s: State, frame: Option<Job>, ended: bool)
    requires Marked(s)
    ensures Marked(Enqueue(s, frame)) && Marked(Arm(s, ended)) && Marked(ReleaseSinkIfIdle(s))
  {
    EnqueueKeepsMarked(s, frame);
    IdleKeepsMarked(s);
    if s.sink {
      StartKeepsMarked(s);
    } else {
      InstallKeepsMarked(s);
      StartKeepsMarked(Install(s));
      EnqueueKeepsMarked(Install(s), None);
      StartKeepsMarked(Enqueue(Install(s), None));
    }
  }

  /** Taking the head of the queue, into a mode that is not waiting for the marker taken. */
  lemma ConsumeKeepsMarked(s: State, s': State)
    requires Marked(s) && s.queue != [] && s'.queue == s.queue[1..]
    requires s'.sink == s.sink && s'.era == s.era
    requires Worker(s').mode.Draining? ==> s.queue[0].Idle?
    requires Worker(s').mode.Fencing? ==>
      Worker(s).mode == Worker(s').mode && s.queue[0] != Resume(Worker(s).mode.target)
    ensures Marked(s')
  {
    assert s.queue == [s.queue[0]] + s'.queue;
  }

  lemma LiveKeepsMarked(s: State, t: nat)
    requires OneThread(s) && Marked(s) && s.slot == Some(t) && s.threads[t].mode.Live?
    ensures Marked(LiveStep(s, t))
  {
    if s.queue != [] {
      ConsumeKeepsMarked(s, LiveStep(s, t));
    }
  }

  lemma DrainKeepsMarked(s: State, t: nat, batch: seq<Item>, ended: bool)
    requires OneThread(s) && Marked(s) && s.slot == Some(t) && s.threads[t].mode == Draining(batch, ended)
    ensures Marked(DrainStep(s, t, batch, ended))
  {
  }

  lemma FenceKeepsMarked(s: State, t: nat, era: nat)
    requires OneThread(s) && Marked(s) && s.slot == Some(t) && s.threads[t].mode == Fencing(era)
    ensures s.queue != [] && Marked(FenceStep(s, t, era))
  {
    ConsumeKeepsMarked(s, FenceStep(s, t, era));
  }

  lemma PutBackKeepsMarked(s: State, t: nat)
    requires OneThread(s) && Marked(s) && s.slot == Some(t) && s.threads[t].mode.PuttingBack?
    ensures Marked(PutBackStep(s, t))
  {
    QuietAppendKeepsMarked(s, EndOfStream);
  }

  lemma EndKeepsMarked(s: State, t: nat, batch: seq<Item>)
    requires OneThread(s) && Marked(s) && s.slot == Some(t)
    ensures Marked(EndStep(s, t, batch))
  {
  }

  lemma RunOpKeepsMarked(s: State, t: nat)
    requires OneThread(s) && Marked(s) && t in s.threads && s.threads[t].hand != []
    ensures Marked(RunOp(s, t))
  {
    var s1, op := CallHead(s, t), s.threads[t].hand[0];
    assert Marked(s1);
    if op.Unregister? {
      IdleKeepsMarked(s1.(cleanups := s1.cleanups - {op.handle}));
    }
  }

  lemma ThreadKeepsMarked(s: State, t: nat)
    requires OneThread(s) && Marked(s)
    ensures Marked(ThreadStep(s, t))
  {
    if t in s.threads {
      var th := s.threads[t];
      if th.hand != [] {
        RunOpKeepsMarked(s, t);
      } else {
        match th.mode
        case Live => LiveKeepsMarked(s, t);
        case Draining(b, e) => DrainKeepsMarked(s, t, b, e);
        case Fencing(e) => FenceKeepsMarked(s, t, e);
        case PuttingBack => PutBackKeepsMarked(s, t);
        case Ending(b) => EndKeepsMarked(s, t, b);
        case Unwinding =>
      }
    }
  }
}
