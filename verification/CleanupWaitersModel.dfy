/** The hand-shake between whoever waits for a cleanup to finish and the thread that finishes it, in
    whichever order they come. One step is what one thread does without letting go of the lock. */
module CleanupWaitersModel {
  const TIMEOUT := 30.0

  /** `cond` is the condition the awaiter sleeps on; `woken` says that it was notified since it fell
      asleep. `signalled` is whether the awaiter found its number finished, or gave up. */
  datatype Awaiter =
    | Asleep(no: nat, cond: nat, deadline: real, woken: bool)
    | Back(no: nat, signalled: bool)

  datatype State = State(
    clock: real,
    conds: map<nat, nat>,
    done: map<nat, real>,
    awaiters: map<nat, Awaiter>,
    nextCond: nat)

  const INIT := State(0.0, map[], map[], map[], 0)

  datatype Action =
    | Await(a: nat, no: nat, limit: real)
    | Recheck(a: nat)
    | Signal(no: nat)
    | Tick(d: real)

  function Leave(s: State, a: nat, no: nat): State {
    s.(awaiters := s.awaiters[a := Back(no, no in s.done)], done := s.done - {no}, conds := s.conds - {no})
  }

  function DoAwait(s: State, a: nat, no: nat, limit: real): State {
    if a in s.awaiters then s
    else if no in s.done || limit <= 0.0 then Leave(s, a, no)
    else
      var cond := if no in s.conds then s.conds[no] else s.nextCond;
      s.(
        conds := s.conds[no := cond],
        nextCond := if no in s.conds then s.nextCond else s.nextCond + 1,
        awaiters := s.awaiters[a := Asleep(no, cond, s.clock + limit, false)])
  }

  /** Up again, notified or not: the table decides before the deadline does. */
  function DoRecheck(s: State, a: nat): State {
    if a !in s.awaiters || !s.awaiters[a].Asleep? then s
    else if s.awaiters[a].no in s.done || s.awaiters[a].deadline <= s.clock then Leave(s, a, s.awaiters[a].no)
    else s.(awaiters := s.awaiters[a := s.awaiters[a].(woken := false)])
  }

  function Pruned(done: map<nat, real>, now: real): map<nat, real> {
    map no | no in done && now - done[no] <= TIMEOUT :: done[no]
  }

  function Notified(awaiters: map<nat, Awaiter>, cond: nat): map<nat, Awaiter> {
    map a | a in awaiters ::
      if awaiters[a].Asleep? && awaiters[a].cond == cond then awaiters[a].(woken := true) else awaiters[a]
  }

  function DoSignal(s: State, no: nat): State {
    s.(
      done := Pruned(s.done, s.clock)[no := s.clock],
      awaiters := if no in s.conds then Notified(s.awaiters, s.conds[no]) else s.awaiters)
  }

  function Next(s: State, x: Action): State {
    match x
    case Await(a, no, limit) => DoAwait(s, a, no, limit)
    case Recheck(a) => DoRecheck(s, a)
    case Signal(no) => DoSignal(s, no)
    case Tick(d) => if d >= 0.0 then s.(clock := s.clock + d) else s
  }

  function Run(s: State, xs: seq<Action>): State
    decreases |xs|
  {
    if xs == [] then s else Run(Next(s, xs[0]), xs[1..])
  }

  predicate WaitsFor(s: State, a: nat, no: nat) {
    a in s.awaiters && s.awaiters[a].Asleep? && s.awaiters[a].no == no
  }

  ghost predicate Awaited(s: State, no: nat) {
    exists a <- s.awaiters :: WaitsFor(s, a, no)
  }

  lemma StaysAwaited(s: State, s': State, no: nat, a: nat)
    requires Awaited(s, no) && forall b <- s.awaiters | b != a && WaitsFor(s, b, no) :: WaitsFor(s', b, no)
    requires WaitsFor(s, a, no) ==> WaitsFor(s', a, no)
    ensures Awaited(s', no)
  {
    var b :| b in s.awaiters && WaitsFor(s, b, no);
    assert WaitsFor(s', b, no);
  }

  // --- what every run keeps -------------------------------------------------------------------

  /** A condition belongs to one number, and is older than any that will be made. */
  ghost predicate Owned(s: State) {
    && (forall n <- s.conds :: s.conds[n] < s.nextCond)
    && (forall a <- s.awaiters | s.awaiters[a].Asleep? :: s.awaiters[a].cond < s.nextCond)
    && (forall a <- s.awaiters, n <- s.conds |
          s.awaiters[a].Asleep? && s.conds[n] == s.awaiters[a].cond :: n == s.awaiters[a].no)
    && (forall n <- s.conds, m <- s.conds | s.conds[n] == s.conds[m] :: n == m)
  }

  /** It is kept only while somebody waits for its number; and no signal is from the future. */
  ghost predicate Inv(s: State) {
    && Owned(s)
    && (forall n <- s.conds :: Awaited(s, n))
    && (forall n <- s.done :: s.done[n] <= s.clock)
  }

  lemma LeaveKeepsOwned(s: State, a: nat, no: nat)
    requires Owned(s)
    ensures Owned(Leave(s, a, no))
  {
  }

  lemma SleepKeepsOwned(s: State, a: nat, no: nat, limit: real)
    requires Owned(s) && a !in s.awaiters && no !in s.done && limit > 0.0
    ensures Owned(DoAwait(s, a, no, limit))
  {
  }

  lemma NextKeepsOwned(s: State, x: Action)
    requires Owned(s)
    ensures Owned(Next(s, x))
  {
    match x
    case Await(a, no, limit) =>
      if a !in s.awaiters {
        if no in s.done || limit <= 0.0 {
          LeaveKeepsOwned(s, a, no);
        } else {
          SleepKeepsOwned(s, a, no, limit);
        }
      }
    case Recheck(a) =>
      if a in s.awaiters && s.awaiters[a].Asleep? {
        LeaveKeepsOwned(s, a, s.awaiters[a].no);
      }
    case _ =>
  }

  lemma NextKeepsAwaited(s: State, x: Action, n: nat)
    requires n in Next(s, x).conds && (n in s.conds ==> Awaited(s, n))
    ensures Awaited(Next(s, x), n)
  {
    var s' := Next(s, x);
    match x
    case Await(a, no, limit) =>
      if n == no && s' != s {
        assert WaitsFor(s', a, no);
      } else {
        StaysAwaited(s, s', n, a);
      }
    case Recheck(a) => StaysAwaited(s, s', n, a);
    case _ => StaysAwaited(s, s', n, 0);
  }

  lemma NextKeepsInv(s: State, x: Action)
    requires Inv(s)
    ensures Inv(Next(s, x))
  {
    hide Owned, Awaited;
    NextKeepsOwned(s, x);
    forall n <- Next(s, x).conds ensures Awaited(Next(s, x), n) {
      NextKeepsAwaited(s, x, n);
    }
  }

  lemma {:induction false} RunKeepsInv(s: State, xs: seq<Action>)
    requires Inv(s)
    ensures Inv(Run(s, xs))
    decreases |xs|
  {
    if xs != [] {
      NextKeepsInv(s, xs[0]);
      RunKeepsInv(Next(s, xs[0]), xs[1..]);
    }
  }

  /** No condition is kept for a number that nobody waits for, whoever gave up and whoever came back. */
  lemma NothingLeftBehind(xs: seq<Action>, no: nat)
    requires no in Run(INIT, xs).conds
    ensures exists a <- Run(INIT, xs).awaiters :: WaitsFor(Run(INIT, xs), a, no)
  {
    RunKeepsInv(INIT, xs);
    assert Awaited(Run(INIT, xs), no);
  }

  // --- who comes back -------------------------------------------------------------------------

  /** In this step somebody comes back for `no`, with the signal or without. */
  predicate ComesBack(s: State, x: Action, no: nat) {
    match x
    case Await(b, n, limit) => n == no && b !in s.awaiters && (no in s.done || limit <= 0.0)
    case Recheck(b) => WaitsFor(s, b, no) && (no in s.done || s.awaiters[b].deadline <= s.clock)
    case _ => false
  }

  ghost predicate NobodyBack(s: State, xs: seq<Action>, no: nat)
    decreases |xs|
  {
    xs == [] || (!ComesBack(s, xs[0], no) && NobodyBack(Next(s, xs[0]), xs[1..], no))
  }

  /** Whoever waits at the end of a run, and had begun before it, waited all along. */
  lemma {:induction false} StillWaiting(s: State, xs: seq<Action>, a: nat, no: nat)
    requires a in s.awaiters && WaitsFor(Run(s, xs), a, no)
    ensures WaitsFor(s, a, no)
    decreases |xs|
  {
    if xs != [] {
      StillWaiting(Next(s, xs[0]), xs[1..], a, no);
    }
  }

  // --- the condition that a signal finds ------------------------------------------------------

  /** The condition `a` sleeps on is the one that a signal for `no` would find. */
  predicate Linked(s: State, a: nat, no: nat) {
    WaitsFor(s, a, no) && no in s.conds && s.conds[no] == s.awaiters[a].cond
  }

  lemma NextLinked(s: State, x: Action, a: nat, no: nat)
    requires Owned(s) && WaitsFor(s, a, no) && WaitsFor(Next(s, x), a, no)
    ensures Linked(Next(s, x), a, no) <==> Linked(s, a, no) && !ComesBack(s, x, no)
  {
  }

  /** In every run through which `a` waits, `a` stays linked exactly if nobody comes back for its number;
      as `a` itself does not, that is somebody else. */
  lemma {:induction false} LinkedIffNobodyBack(s: State, xs: seq<Action>, a: nat, no: nat)
    requires Inv(s) && a in s.awaiters && WaitsFor(Run(s, xs), a, no)
    ensures Linked(Run(s, xs), a, no) <==> Linked(s, a, no) && NobodyBack(s, xs, no)
    decreases |xs|
  {
    if xs != [] {
      var s1 := Next(s, xs[0]);
      StillWaiting(s, xs, a, no);
      StillWaiting(s1, xs[1..], a, no);
      NextKeepsInv(s, xs[0]);
      NextLinked(s, xs[0], a, no);
      LinkedIffNobodyBack(s1, xs[1..], a, no);
    } else {
      StillWaiting(s, xs, a, no);
    }
  }

  lemma NextUnwoken(s: State, x: Action, a: nat, no: nat)
    requires Owned(s) && WaitsFor(s, a, no) && WaitsFor(Next(s, x), a, no) && x != Signal(no)
    ensures Next(s, x).awaiters[a].woken ==> s.awaiters[a].woken
  {
  }

  lemma {:induction false} OnlyItsSignalWakes(s: State, xs: seq<Action>, a: nat, no: nat)
    requires Inv(s) && a in s.awaiters && WaitsFor(Run(s, xs), a, no) && Signal(no) !in xs
    ensures WaitsFor(s, a, no) && (Run(s, xs).awaiters[a].woken ==> s.awaiters[a].woken)
    decreases |xs|
  {
    hide Owned, Next;
    StillWaiting(s, xs, a, no);
    if xs != [] {
      assert xs[0] in xs && forall x <- xs[1..] :: x in xs;
      AwaitersStay(s, [xs[0]], a);
      assert Run(s, [xs[0]]) == Run(Next(s, xs[0]), []) == Next(s, xs[0]);
      StillWaiting(Next(s, xs[0]), xs[1..], a, no);
      NextKeepsInv(s, xs[0]);
      NextUnwoken(s, xs[0], a, no);
      OnlyItsSignalWakes(Next(s, xs[0]), xs[1..], a, no);
    }
  }

  /** Exactly: from the moment `a` has gone to sleep, through any run in which it waits, the next signal
      for its number wakes it if and only if nobody else came back for that number in between. */
  lemma WakesIffNobodyBack(s: State, a: nat, no: nat, limit: real, xs: seq<Action>)
    requires Inv(s) && a !in s.awaiters && Signal(no) !in xs
    requires WaitsFor(Run(DoAwait(s, a, no, limit), xs), a, no)
    ensures var s1 := DoAwait(s, a, no, limit);
      var t := Run(s1, xs);
      WaitsFor(DoSignal(t, no), a, no) && (DoSignal(t, no).awaiters[a].woken <==> NobodyBack(s1, xs, no))
  {
    var s1 := DoAwait(s, a, no, limit);
    NextKeepsInv(s, Await(a, no, limit));
    StillWaiting(s1, xs, a, no);
    LinkedIffNobodyBack(s1, xs, a, no);
    OnlyItsSignalWakes(s1, xs, a, no);
  }

  // --- the signal in the table ----------------------------------------------------------------

  /** A signal drops no entry that is no older than TIMEOUT, and leaves none that is older. */
  lemma PrunesExactly(s: State, no: nat, other: nat)
    requires Inv(s) && other != no
    ensures other in DoSignal(s, no).done <==> other in s.done && s.clock - s.done[other] <= 30.0
    ensures other in DoSignal(s, no).done ==> DoSignal(s, no).done[other] == s.done[other]
    ensures forall x <- DoSignal(s, no).done :: 0.0 <= s.clock - DoSignal(s, no).done[x] <= 30.0
  {
  }

  lemma {:induction false} ClockGoesOn(s: State, xs: seq<Action>)
    ensures s.clock <= Run(s, xs).clock
    decreases |xs|
  {
    if xs != [] {
      ClockGoesOn(Next(s, xs[0]), xs[1..]);
    }
  }

  /** The step takes the signal for `no` out of the table: somebody comes back for it, or another signal
      finds it older than TIMEOUT. */
  predicate Takes(s: State, x: Action, no: nat) {
    ComesBack(s, x, no) || (x.Signal? && x.no != no && no in s.done && s.clock - s.done[no] > TIMEOUT)
  }

  ghost predicate NobodyTakes(s: State, xs: seq<Action>, no: nat)
    decreases |xs|
  {
    xs == [] || (!Takes(s, xs[0], no) && NobodyTakes(Next(s, xs[0]), xs[1..], no))
  }

  lemma {:induction false} GoneStaysGone(s: State, xs: seq<Action>, no: nat)
    requires no !in s.done && Signal(no) !in xs
    ensures no !in Run(s, xs).done
    decreases |xs|
  {
    if xs != [] {
      assert xs[0] in xs && forall x <- xs[1..] :: x in xs;
      GoneStaysGone(Next(s, xs[0]), xs[1..], no);
    }
  }

  /** Exactly: up to the next signal for the same number, a signal is in the table if and only if nobody
      took it and no signal pruned it; and within TIMEOUT that is, if and only if nobody took it. */
  lemma {:induction false} SignalIsKept(s: State, xs: seq<Action>, no: nat)
    requires no in s.done && Signal(no) !in xs
    ensures no in Run(s, xs).done <==> NobodyTakes(s, xs, no)
    ensures Run(s, xs).clock <= s.done[no] + TIMEOUT ==> (NobodyTakes(s, xs, no) <==> NobodyBack(s, xs, no))
    decreases |xs|
  {
    if xs != [] {
      var s1 := Next(s, xs[0]);
      assert xs[0] in xs && forall x <- xs[1..] :: x in xs;
      ClockGoesOn(s, xs);
      ClockGoesOn(s1, xs[1..]);
      assert no in s1.done <==> !Takes(s, xs[0], no);
      if no in s1.done {
        SignalIsKept(s1, xs[1..], no);
      } else {
        GoneStaysGone(s1, xs[1..], no);
      }
    }
  }

  // --- the hand-shake -------------------------------------------------------------------------

  /** The signal first: whoever comes then does not sleep at all, and finds the signal, exactly if it is
      still there; within TIMEOUT of it, exactly if nobody else came back for it. */
  lemma SignalFirst(s: State, no: nat, xs: seq<Action>, a: nat, limit: real)
    requires a !in Run(DoSignal(s, no), xs).awaiters && Signal(no) !in xs
    ensures var s1 := DoSignal(s, no);
      var t := Run(s1, xs);
      var t' := Next(t, Await(a, no, limit));
      && t'.clock == t.clock && (t'.awaiters[a] == Back(no, true) <==> NobodyTakes(s1, xs, no))
      && (t.clock <= s.clock + TIMEOUT ==> (t'.awaiters[a] == Back(no, true) <==> NobodyBack(s1, xs, no)))
  {
    SignalIsKept(DoSignal(s, no), xs, no);
  }

  /** The awaiter first. It goes to sleep; then comes `xs`, the signal, and `ys`, up to a moment within
      TIMEOUT of the signal at which it still waits. The signal wakes it exactly if nobody else came back
      for the number in `xs`. When it looks it finds the signal, even past its deadline, exactly if nobody
      else came back in `ys`. So it is up, and finds it, exactly if nobody else came back at all. */
  lemma AwaiterFirst(s: State, a: nat, no: nat, limit: real, xs: seq<Action>, ys: seq<Action>)
    requires Inv(s) && a !in s.awaiters && Signal(no) !in xs && Signal(no) !in ys
    requires var t := Run(DoAwait(s, a, no, limit), xs);
      var u := Run(DoSignal(t, no), ys);
      WaitsFor(u, a, no) && u.clock <= t.clock + TIMEOUT
    ensures var s1 := DoAwait(s, a, no, limit);
      var t := Run(s1, xs);
      var t1 := DoSignal(t, no);
      var u := Run(t1, ys);
      var found := Next(u, Recheck(a)).awaiters[a] == Back(no, true);
      && WaitsFor(t1, a, no) && (t1.awaiters[a].woken <==> NobodyBack(s1, xs, no))
      && (found <==> NobodyBack(t1, ys, no))
      && (u.awaiters[a].woken && found <==> NobodyBack(s1, xs, no) && NobodyBack(t1, ys, no))
  {
    hide Inv, Run, NobodyBack, NobodyTakes, DoAwait, Leave;
    var s1 := DoAwait(s, a, no, limit);
    var t := Run(s1, xs);
    var t1 := DoSignal(t, no);
    NextKeepsInv(s, Await(a, no, limit));
    RunKeepsInv(s1, xs);
    NextKeepsInv(t, Signal(no));
    AwaitStarts(s, a, no, limit);
    AwaitersStay(s1, xs, a);
    StillWaiting(t1, ys, a, no);
    WakesIffNobodyBack(s, a, no, limit, xs);
    SignalIsKept(t1, ys, no);
    OnlyItsSignalWakes(t1, ys, a, no);
    if t1.awaiters[a].woken && NobodyBack(t1, ys, no) {
      StaysWoken(t1, ys, a, no);
    }
    FindsIff(Run(t1, ys), a, no);
  }

  lemma FindsIff(s: State, a: nat, no: nat)
    requires WaitsFor(s, a, no)
    ensures Next(s, Recheck(a)).awaiters[a] == Back(no, true) <==> no in s.done
  {
  }

  lemma AwaitStarts(s: State, a: nat, no: nat, limit: real)
    ensures a in DoAwait(s, a, no, limit).awaiters
  {
  }

  lemma {:induction false} AwaitersStay(s: State, xs: seq<Action>, a: nat)
    requires a in s.awaiters
    ensures a in Run(s, xs).awaiters
    decreases |xs|
  {
    if xs != [] {
      AwaitersStay(Next(s, xs[0]), xs[1..], a);
    }
  }

  lemma {:induction false} StaysWoken(s: State, xs: seq<Action>, a: nat, no: nat)
    requires WaitsFor(s, a, no) && s.awaiters[a].woken && no in s.done && Signal(no) !in xs && NobodyBack(s, xs, no)
    requires Run(s, xs).clock <= s.done[no] + TIMEOUT
    ensures WaitsFor(Run(s, xs), a, no) && Run(s, xs).awaiters[a].woken
    decreases |xs|
  {
    if xs != [] {
      assert xs[0] in xs && forall x <- xs[1..] :: x in xs;
      ClockGoesOn(Next(s, xs[0]), xs[1..]);
      StaysWoken(Next(s, xs[0]), xs[1..], a, no);
    }
  }

  // --- giving up ------------------------------------------------------------------------------

  /** `a` waits until `deadline`, or came back with the signal, or not before that time. */
  predicate Patient(s: State, a: nat, deadline: real) {
    && a in s.awaiters
    && match s.awaiters[a]
       case Asleep(_, _, d, _) => d == deadline
       case Back(_, signalled) => signalled || deadline <= s.clock
  }

  lemma {:induction false} StaysPatient(s: State, xs: seq<Action>, a: nat, deadline: real)
    requires Patient(s, a, deadline)
    ensures Patient(Run(s, xs), a, deadline)
    decreases |xs|
  {
    if xs != [] {
      StaysPatient(Next(s, xs[0]), xs[1..], a, deadline);
    }
  }

  /** Nobody gives up before its time, whatever happens; and whoever still waits then, comes back with its
      next look. */
  lemma GivesUpInTime(s: State, a: nat, no: nat, limit: real, xs: seq<Action>)
    requires a !in s.awaiters
    ensures var t := Run(DoAwait(s, a, no, limit), xs);
      && a in t.awaiters
      && (t.awaiters[a].Back? && !t.awaiters[a].signalled ==> s.clock + limit <= t.clock)
      && (t.awaiters[a].Asleep? && s.clock + limit <= t.clock ==> Next(t, Recheck(a)).awaiters[a].Back?)
  {
    StaysPatient(DoAwait(s, a, no, limit), xs, a, s.clock + limit);
  }

  // --- one awaiter for each number ------------------------------------------------------------

  /** Nobody starts to wait for a number that somebody is waiting for. */
  ghost predicate Single(s: State, x: Action) {
    x.Await? ==> forall a <- s.awaiters :: !WaitsFor(s, a, x.no)
  }

  ghost predicate AllSingle(s: State, xs: seq<Action>)
    decreases |xs|
  {
    xs == [] || (Single(s, xs[0]) && AllSingle(Next(s, xs[0]), xs[1..]))
  }

  predicate Alone(s: State, a: nat, no: nat) {
    WaitsFor(s, a, no) && forall b <- s.awaiters :: WaitsFor(s, b, no) ==> b == a
  }

  /** Then nobody else comes back for the number: whoever waits alone stays alone as long as it waits. */
  lemma {:induction false} AloneIsNobodyBack(s: State, xs: seq<Action>, a: nat, no: nat)
    requires Alone(s, a, no) && AllSingle(s, xs) && WaitsFor(Run(s, xs), a, no)
    ensures NobodyBack(s, xs, no) && Alone(Run(s, xs), a, no)
    decreases |xs|
  {
    if xs != [] {
      var s1 := Next(s, xs[0]);
      StillWaiting(s1, xs[1..], a, no);
      assert forall b <- s1.awaiters :: WaitsFor(s1, b, no) ==> b == a || WaitsFor(s, b, no);
      AloneIsNobodyBack(s1, xs[1..], a, no);
    }
  }

  /** So a single awaiter loses nothing: it is up, and finds the signal, within TIMEOUT of it. */
  lemma SingleAwaiterLosesNothing(s: State, a: nat, no: nat, limit: real, xs: seq<Action>, ys: seq<Action>)
    requires Inv(s) && a !in s.awaiters && Signal(no) !in xs && Signal(no) !in ys
    requires Single(s, Await(a, no, limit)) && AllSingle(DoAwait(s, a, no, limit), xs)
    requires var t := Run(DoAwait(s, a, no, limit), xs);
      var u := Run(DoSignal(t, no), ys);
      WaitsFor(u, a, no) && u.clock <= t.clock + TIMEOUT && AllSingle(DoSignal(t, no), ys)
    ensures var u := Run(DoSignal(Run(DoAwait(s, a, no, limit), xs), no), ys);
      u.awaiters[a].woken && Next(u, Recheck(a)).awaiters[a] == Back(no, true)
  {
    var s1 := DoAwait(s, a, no, limit);
    var t1 := DoSignal(Run(s1, xs), no);
    AwaitersStay(s1, xs, a);
    StillWaiting(t1, ys, a, no);
    StillWaiting(s1, xs, a, no);
    AloneIsNobodyBack(s1, xs, a, no);
    assert forall b <- t1.awaiters :: WaitsFor(t1, b, no) ==> WaitsFor(Run(s1, xs), b, no);
    AloneIsNobodyBack(t1, ys, a, no);
    AwaiterFirst(s, a, no, limit, xs, ys);
  }

  /** And two can lose one: the first to give up takes the condition away, and the signal after it wakes
      nobody. */
  lemma TwoAwaitersLoseASignal()
    ensures var s := Run(INIT, [Await(0, 7, 1.0), Await(1, 7, 30.0), Tick(1.0), Recheck(0), Signal(7)]);
      WaitsFor(s, 1, 7) && 7 in s.done && !s.awaiters[1].woken && s.clock < s.awaiters[1].deadline
  {
    var s1 := Next(INIT, Await(0, 7, 1.0));
    var s2 := Next(s1, Await(1, 7, 30.0));
    var s3 := Next(s2, Tick(1.0));
    var s4 := Next(s3, Recheck(0));
    var s5 := Next(s4, Signal(7));
    var xs := [Await(0, 7, 1.0), Await(1, 7, 30.0), Tick(1.0), Recheck(0), Signal(7)];
    assert xs[1..][1..] == xs[2..] && xs[2..][1..] == xs[3..] && xs[3..][1..] == xs[4..] && xs[4..][1..] == [];
    assert Run(INIT, xs) == Run(s2, xs[2..]) == Run(s4, xs[4..]) == Run(s5, []);
  }
}
