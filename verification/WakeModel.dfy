/** Waking a session thread that sleeps on an auto-reset event: routes push and then wake, or drop
    their sender and then wake; the thread drains its channel to empty every time round. */
module WakeModel {
  datatype RoutePhase = Idle | Pushed | Dropped

  /** `Leaving`: out of the loop, with the receiver still there; nothing is received any more. */
  datatype ThreadPhase = Parked | Draining | Converting | Leaving | Ended

  /** A route holds a sender unless it is `Dropped`. `pushed` and `received` are history. */
  datatype State = State(
    routes: map<nat, RoutePhase>,
    queue: seq<int>,
    signalled: bool,
    thread: ThreadPhase,
    pushed: seq<int>,
    received: seq<int>)

  const INIT := State(map[0 := Idle], [], false, Parked, [], [])

  predicate HoldsSender(s: State, r: nat) {
    r in s.routes && !s.routes[r].Dropped?
  }

  predicate Connected(s: State) {
    exists r <- s.routes :: HoldsSender(s, r)
  }

  /** Between its push, or its drop, and its wake. */
  predicate InBetween(s: State, r: nat) {
    r in s.routes && !s.routes[r].Idle?
  }

  datatype Action =
    | Clone(from: nat, to: nat)
    | Push(r: nat, cmd: int)
    | DropSender(r: nat)
    | Wake(r: nat)
    | WaitCommands
    | WaitMessages
    | WaitFailed
    | DropReceiver
    | TryRecv(last: bool)
    | Convert

  predicate OfRoute(a: Action) {
    a.Clone? || a.Push? || a.DropSender? || a.Wake?
  }

  /** A send fails, and does not wake, once the receiver is gone. */
  function DoPush(s: State, r: nat, cmd: int): State {
    if r !in s.routes || !s.routes[r].Idle? || s.thread.Ended? then s
    else s.(routes := s.routes[r := Pushed], queue := s.queue + [cmd], pushed := s.pushed + [cmd])
  }

  function DoWake(s: State, r: nat): State {
    if !InBetween(s, r) then s
    else s.(
      signalled := true,
      routes := if s.routes[r].Pushed? then s.routes[r := Idle] else s.routes - {r})
  }

  /** `last`: the command ends the session. */
  function DoTryRecv(s: State, last: bool): State {
    if s.thread != Draining then s
    else if s.queue != [] then
      s.(queue := s.queue[1..], received := s.received + [s.queue[0]], thread := if last then Leaving else Draining)
    else if Connected(s) then s.(thread := Converting)
    else s.(thread := Leaving)
  }

  function Next(s: State, a: Action): State {
    match a
    case Clone(from, to) =>
      if from in s.routes && s.routes[from].Idle? && to !in s.routes then s.(routes := s.routes[to := Idle]) else s
    case Push(r, cmd) => DoPush(s, r, cmd)
    case DropSender(r) => if r in s.routes && s.routes[r].Idle? then s.(routes := s.routes[r := Dropped]) else s
    case Wake(r) => DoWake(s, r)
    case WaitCommands => if s.thread.Parked? && s.signalled then s.(thread := Draining, signalled := false) else s
    case WaitMessages => if s.thread.Parked? then s.(thread := Draining) else s
    case WaitFailed => if s.thread.Parked? then s.(thread := Leaving) else s
    case DropReceiver => if s.thread.Leaving? then s.(thread := Ended) else s
    case TryRecv(last) => DoTryRecv(s, last)
    case Convert => if s.thread.Converting? then s.(thread := Parked) else s
  }

  function Run(s: State, actions: seq<Action>): State
    decreases |actions|
  {
    if actions == [] then s else Run(Next(s, actions[0]), actions[1..])
  }

  lemma {:induction false} RunsOn(s: State, first: seq<Action>, rest: seq<Action>)
    ensures Run(s, first + rest) == Run(Run(s, first), rest)
    decreases |first|
  {
    if first == [] {
      assert first + rest == rest;
    } else {
      assert (first + rest)[1..] == first[1..] + rest;
      RunsOn(Next(s, first[0]), first[1..], rest);
    }
  }

  lemma OneStep(s: State, a: Action)
    ensures Run(s, [a]) == Next(s, a)
  {
    assert Run(Next(s, a), [a][1..]) == Next(s, a);
  }

  /** There is something the thread must see: a command, or that nobody can send one any more. */
  predicate HasNews(s: State) {
    s.queue != [] || !Connected(s)
  }

  ghost predicate Inv(s: State) {
    && (s.thread in {Parked, Converting} && HasNews(s) ==> s.signalled || exists r <- s.routes :: InBetween(s, r))
    && s.pushed == s.received + s.queue
  }

  lemma PushKeepsInv(s: State, r: nat, cmd: int)
    requires Inv(s)
    ensures Inv(DoPush(s, r, cmd))
  {
    var s' := DoPush(s, r, cmd);
    if s' != s {
      assert InBetween(s', r);
    }
  }

  lemma RoutesKeepInv(s: State, a: Action)
    requires Inv(s) && (a.Clone? || a.DropSender? || a.Wake?)
    ensures Inv(Next(s, a))
  {
    var s' := Next(s, a);
    if s' != s && !a.Wake? {
      if a.DropSender? {
        assert InBetween(s', a.r);
      } else {
        assert HoldsSender(s', a.to) && HoldsSender(s, a.from);
        if exists r <- s.routes :: InBetween(s, r) {
          var r :| r in s.routes && InBetween(s, r);
          assert InBetween(s', r);
        }
      }
    }
  }

  lemma NextKeepsInv(s: State, a: Action)
    requires Inv(s)
    ensures Inv(Next(s, a))
  {
    match a
    case Push(r, cmd) => PushKeepsInv(s, r, cmd);
    case Clone(_, _) => RoutesKeepInv(s, a);
    case DropSender(_) => RoutesKeepInv(s, a);
    case Wake(_) => RoutesKeepInv(s, a);
    case _ => assert forall r <- s.routes :: HoldsSender(Next(s, a), r) == HoldsSender(s, r);
  }

  lemma {:induction false} RunKeepsInv(s: State, actions: seq<Action>)
    requires Inv(s)
    ensures Inv(Run(s, actions))
    decreases |actions|
  {
    if actions != [] {
      NextKeepsInv(s, actions[0]);
      RunKeepsInv(Next(s, actions[0]), actions[1..]);
    }
  }

  lemma InitInv()
    ensures Inv(INIT)
  {
    assert HoldsSender(INIT, 0);
  }

  /** No lost wake-up, with any number of routes sending, cloning and dropping: a thread parked while
      a command is queued, or while every sender is gone, has its event signalled, or a route is on
      its way to signal it. And no command is lost or reordered. */
  lemma NoLostWakeUp(actions: seq<Action>)
    ensures var s := Run(INIT, actions);
      && (s.thread.Parked? && (s.queue != [] || !Connected(s)) ==>
            s.signalled || exists r <- s.routes :: InBetween(s, r))
      && s.pushed == s.received + s.queue
  {
    InitInv();
    RunKeepsInv(INIT, actions);
  }

  /** Once out of the loop the thread receives nothing more, and it lets go of the receiver last. */
  lemma {:induction false} LeavingIsFinal(s: State, actions: seq<Action>)
    requires s.thread.Leaving? || s.thread.Ended?
    ensures var s' := Run(s, actions);
      && s'.received == s.received
      && if s.thread.Ended? || DropReceiver in actions then s'.thread.Ended? else s'.thread.Leaving?
    decreases |actions|
  {
    if actions != [] {
      var s1 := Next(s, actions[0]);
      assert DropReceiver in actions <==> actions[0].DropReceiver? || DropReceiver in actions[1..];
      LeavingIsFinal(s1, actions[1..]);
    }
  }

  /** And nothing else ends it. */
  lemma LeavesBeforeItEnds(s: State, a: Action)
    requires Next(s, a).thread.Ended?
    ensures s.thread.Ended? || (s.thread.Leaving? && a.DropReceiver?)
  {
  }

  // --- what is pushed is received -------------------------------------------------------------

  lemma RunOne(s: State, a: Action, rest: seq<Action>)
    ensures Run(s, [a] + rest) == Run(Next(s, a), rest)
  {
    assert ([a] + rest)[1..] == rest;
  }

  predicate InLoop(s: State) {
    !s.thread.Leaving? && !s.thread.Ended?
  }

  /** How far the thread is from its next receive. */
  function Delay(s: State): nat {
    match s.thread
    case Draining => 0
    case Converting => 3
    case Parked => if s.signalled then 1 else 2
    case _ => 0
  }

  lemma NextReceipt(s: State) returns (a: Action)
    requires Inv(s) && s.queue != [] && InLoop(s)
    ensures a in {TryRecv(false), Convert, WaitCommands} || (a.Wake? && InBetween(s, a.r))
    ensures var s' := Next(s, a);
      && InLoop(s') && s'.pushed == s.pushed
      && (|s'.queue| < |s.queue| || (s'.queue == s.queue && Delay(s') < Delay(s)))
  {
    if s.thread.Draining? {
      a := TryRecv(false);
    } else if s.thread.Converting? {
      a := Convert;
    } else if s.signalled {
      a := WaitCommands;
    } else {
      var r :| r in s.routes && InBetween(s, r);
      a := Wake(r);
    }
  }

  /** From every reachable state of a live session, the wake-ups already on their way and the thread's
      own steps are enough for every pushed command to be received, in the order pushed. */
  lemma {:induction false} EverythingIsReceived(s: State) returns (actions: seq<Action>)
    requires Inv(s) && InLoop(s)
    ensures forall a <- actions :: a in {TryRecv(false), Convert, WaitCommands} || a.Wake?
    ensures Run(s, actions).received == s.pushed
    decreases |s.queue|, Delay(s)
  {
    actions := [];
    if s.queue != [] {
      var a := NextReceipt(s);
      NextKeepsInv(s, a);
      var rest := EverythingIsReceived(Next(s, a));
      RunOne(s, a, rest);
      actions := [a] + rest;
    }
  }
}
