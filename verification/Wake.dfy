/** The wake half of the session loop: the channel, the event, and the routes to them. */
module Wakes {
  import opened WakeModel

  class Pump {
    var routes: map<nat, RoutePhase>
    var queue: seq<int>
    var signalled: bool
    var thread: ThreadPhase
    // History.
    var pushed: seq<int>
    var received: seq<int>

    ghost function Abs(): State
      reads this
    {
      State(routes, queue, signalled, thread, pushed, received)
    }

    constructor ()
      ensures Abs() == INIT && Inv(Abs())
    {
      routes, queue, signalled, thread, pushed, received := map[0 := Idle], [], false, Parked, [], [];
      new;
      InitInv();
    }

    method SetEvent(r: nat)
      requires InBetween(Abs(), r)
      modifies this
      ensures Abs() == Next(old(Abs()), Wake(r))
    {
      routes := if routes[r].Pushed? then routes[r := Idle] else routes - {r};
      signalled := true;
    }

    /** Push first, then wake. The other order would leave the two steps in between unguarded. */
    method Send(r: nat, cmd: int) returns (sent: bool)
      requires Inv(Abs()) && r in routes && routes[r].Idle?
      modifies this
      ensures Inv(Abs()) && sent == !old(thread).Ended?
      ensures sent ==>
        Abs() == Next(Next(old(Abs()), Push(r, cmd)), Wake(r)) && signalled && queue == old(queue) + [cmd]
      ensures !sent ==> Abs() == old(Abs())
    {
      if thread.Ended? {
        return false;
      }
      NextKeepsInv(Abs(), Push(r, cmd));
      routes, queue, pushed := routes[r := Pushed], queue + [cmd], pushed + [cmd];
      NextKeepsInv(Abs(), Wake(r));
      SetEvent(r);
      return true;
    }

    /** Let go of the sender first, then wake. */
    method DropRoute(r: nat)
      requires Inv(Abs()) && r in routes && routes[r].Idle?
      modifies this
      ensures Inv(Abs()) && r !in routes && signalled
      ensures Abs() == Next(Next(old(Abs()), DropSender(r)), Wake(r))
    {
      NextKeepsInv(Abs(), DropSender(r));
      routes := routes[r := Dropped];
      NextKeepsInv(Abs(), Wake(r));
      SetEvent(r);
    }

    /** What another thread does between two receives: a step of some route. */
    method Meanwhile(a: Action)
      requires Inv(Abs()) && OfRoute(a) && thread.Draining?
      modifies this`routes, this`queue, this`pushed, this`signalled
      ensures Inv(Abs()) && Abs() == Next(old(Abs()), a)
    {
      NextKeepsInv(Abs(), a);
      match a
      case Clone(from, to) =>
        if from in routes && routes[from].Idle? && to !in routes {
          routes := routes[to := Idle];
        }
      case Push(r, cmd) =>
        if r in routes && routes[r].Idle? {
          routes, queue, pushed := routes[r := Pushed], queue + [cmd], pushed + [cmd];
        }
      case DropSender(r) =>
        if r in routes && routes[r].Idle? {
          routes := routes[r := Dropped];
        }
      case Wake(r) =>
        if r in routes && !routes[r].Idle? {
          routes := if routes[r].Pushed? then routes[r := Idle] else routes - {r};
          signalled := true;
        }
    }

    /** One receive. */
    method TryRecv(last: bool)
      requires Inv(Abs()) && thread.Draining?
      modifies this`received, this`queue, this`thread
      ensures Inv(Abs()) && Abs() == Next(old(Abs()), Action.TryRecv(last))
    {
      NextKeepsInv(Abs(), Action.TryRecv(last));
      if queue != [] {
        received, queue := received + [queue[0]], queue[1..];
        thread := if last then Leaving else Draining;
      } else {
        thread := if exists r <- routes :: !routes[r].Dropped? then Converting else Leaving;
        ghost var was := old(Abs());
        assert forall r <- routes :: HoldsSender(was, r) == !routes[r].Dropped?;
      }
    }

    /** The last thing of all: from here on a send fails. */
    method DropReceiver()
      requires Inv(Abs()) && thread.Leaving?
      modifies this`thread
      ensures Inv(Abs()) && Abs() == Next(old(Abs()), Action.DropReceiver) && thread.Ended?
    {
      NextKeepsInv(Abs(), Action.DropReceiver);
      thread := Ended;
    }

    /** One round of the loop after a wake-up: every queued command, also those that are sent while the
        round is running, then the verdict on the channel; the command that ends the session is the last
        one received. `others` is what the routes do before each
        receive; `lastAt` is the place of the command that ends the session, if it is there. */
    method DrainRound(others: seq<seq<Action>>, lastAt: nat) returns (ghost steps: seq<Action>)
      requires Inv(Abs()) && thread.Draining? && forall batch <- others :: forall a <- batch :: OfRoute(a)
      modifies this
      ensures Inv(Abs()) && Abs() == Run(old(Abs()), steps)
      ensures thread.Converting? || thread.Leaving?
      ensures thread.Converting? ==> queue == [] && received == pushed && Connected(Abs())
      ensures thread.Leaving? && |received| != |old(received)| + lastAt + 1 ==>
        queue == [] && received == pushed && !Connected(Abs())
      ensures old(received) <= received && |received| <= |old(received)| + lastAt + 1
      ensures |received| == |old(received)| + lastAt + 1 ==> thread.Leaving?
    {
      var i := 0;
      steps := [];
      while thread.Draining?
        invariant Inv(Abs()) && Abs() == Run(old(Abs()), steps)
        invariant thread.Draining? || thread.Converting? || thread.Leaving?
        invariant old(received) <= received && |received| == |old(received)| + i
        invariant i <= if thread.Leaving? then lastAt + 1 else lastAt
        invariant thread.Converting? ==> queue == [] && received == pushed && Connected(Abs())
        invariant thread.Leaving? && |received| != |old(received)| + lastAt + 1 ==>
          queue == [] && received == pushed && !Connected(Abs())
        decreases if i < |others| then |others| - i else 0, thread.Draining?, |queue|
      {
        hide Inv;
        if i < |others| {
          assert others[i] in others;
          Sends(others[i]);
          RunsOn(old(Abs()), steps, others[i]);
          steps := steps + others[i];
        }
        RunsOn(old(Abs()), steps, [Action.TryRecv(i == lastAt)]);
        OneStep(Abs(), Action.TryRecv(i == lastAt));
        steps := steps + [Action.TryRecv(i == lastAt)];
        var some := queue != [];
        TryRecv(i == lastAt);
        i := if some then i + 1 else i;
      }
    }

    method Sends(batch: seq<Action>)
      requires Inv(Abs()) && thread.Draining? && forall a <- batch :: OfRoute(a)
      modifies this`routes, this`queue, this`pushed, this`signalled
      ensures Inv(Abs()) && Abs() == Run(old(Abs()), batch)
    {
      for k := 0 to |batch|
        invariant Inv(Abs()) && Abs() == Run(old(Abs()), batch[..k])
      {
        assert batch[..k + 1] == batch[..k] + [batch[k]];
        RunsOn(old(Abs()), batch[..k], [batch[k]]);
        OneStep(Abs(), batch[k]);
        Meanwhile(batch[k]);
      }
      assert batch[..|batch|] == batch;
    }
  }
}
