/** The hand-shake object. */
module CleanupWaitersObjects {
  import opened Options
  import M = CleanupWaitersModel
  import opened CleanupWaitersModel

  class CleanupWaiters {
    var conds: map<nat, nat>
    var done: map<nat, real>
    var clock: real
    var nextCond: nat
    // How far each awaiter is.
    var awaiters: map<nat, Awaiter>

    ghost function Abs(): State
      reads this
    {
      State(clock, conds, done, awaiters, nextCond)
    }

    constructor ()
      ensures Abs() == INIT && M.Inv(Abs())
    {
      clock, conds, done, awaiters, nextCond := 0.0, map[], map[], map[], 0;
    }

    method Leave(a: nat, no: nat)
      modifies this
      ensures Abs() == M.Leave(old(Abs()), a, no)
    {
      awaiters := awaiters[a := Back(no, no in done)];
      done := done - {no};
      conds := conds - {no};
    }

    /** Up to the first sleep, or to the end when there is nothing to wait for. Half a minute, if not said. */
    method Await(a: nat, no: nat, timeout: Option<real>)
      requires a !in awaiters
      modifies this
      ensures Abs() == M.DoAwait(old(Abs()), a, no, if timeout.None? then 30.0 else timeout.value)
    {
      ghost var was := Abs();
      var limit := if timeout.None? then TIMEOUT else timeout.value;
      var unseen := no !in conds;
      var cond := if unseen then nextCond else conds[no];
      var deadline := clock + limit;
      if no in done || deadline - clock <= 0.0 {
        Leave(a, no);
        return;
      }
      if unseen {
        conds, nextCond := conds[no := cond], nextCond + 1;
      }
      awaiters := awaiters[a := Asleep(no, cond, deadline, false)];
      assert conds == was.conds[no := cond];
    }

    /** Once round the loop after a sleep. */
    method Recheck(a: nat)
      requires a in awaiters && awaiters[a].Asleep?
      modifies this
      ensures Abs() == M.DoRecheck(old(Abs()), a)
    {
      if awaiters[a].no in done || awaiters[a].deadline - clock <= 0.0 {
        Leave(a, awaiters[a].no);
      } else {
        awaiters := awaiters[a := awaiters[a].(woken := false)];
      }
    }

    method Signal(no: nat)
      modifies this
      ensures Abs() == M.DoSignal(old(Abs()), no)
    {
      var stale := set x | x in done && clock - done[x] > TIMEOUT;
      while stale != {}
        invariant done == old(done) - ((set x | x in old(done) && clock - old(done)[x] > TIMEOUT) - stale)
        invariant stale <= set x | x in old(done) && clock - old(done)[x] > TIMEOUT
        invariant clock == old(clock) && conds == old(conds) && awaiters == old(awaiters) && nextCond == old(nextCond)
        decreases stale
      {
        var x :| x in stale;
        done := done - {x};
        stale := stale - {x};
      }
      assert done == Pruned(old(done), clock);
      done := done[no := clock];
      if no in conds {
        NotifyAll(conds[no]);
      }
    }

    method NotifyAll(cond: nat)
      modifies this`awaiters
      ensures awaiters == M.Notified(old(awaiters), cond)
    {
      var left := awaiters.Keys;
      while left != {}
        invariant left <= old(awaiters).Keys == awaiters.Keys
        invariant forall a <- awaiters ::
          awaiters[a] == if a in left then old(awaiters)[a] else M.Notified(old(awaiters), cond)[a]
        decreases left
      {
        var a :| a in left;
        if awaiters[a].Asleep? && awaiters[a].cond == cond {
          awaiters := awaiters[a := awaiters[a].(woken := true)];
        }
        left := left - {a};
      }
    }
  }
}
