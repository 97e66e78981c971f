/** One session thread: its tables, and what its commands ask of the registry. Each method that touches
    the registry is, for every state of all the other sessions, the protocol's own step. */
module Sessions {
  import opened Options
  import P = InstanceProtocol
  import R = Registry
  import T = SessionTable

  datatype ReleaseOutcome = Done | CleanupPending(n: nat)

  class Session {
    const number: nat
    const root: nat
    const registry: R.InstanceRegistry
    const participation: Option<(R.Key, R.CleanupConfig)>
    var handles: set<nat>
    var advised: set<nat>
    var subs: map<nat, map<string, bool>>
    var eventHandles: map<nat, seq<nat>>
    var pending: Option<nat>
    var ended: bool
    // History: every id given out, and every run of cleanup steps.
    var minted: seq<nat>
    var stepsRun: seq<seq<R.Step>>

    ghost function Abs(): T.Table
      reads this
    {
      T.Table(number, root, handles, advised, subs, eventHandles, pending, ended, minted)
    }

    /** `p` is a state of the protocol in which this session is as it is here. */
    ghost predicate Follows(p: P.State)
      reads this, registry
    {
      && participation.Some?
      && P.View(
           p, number, registry.records, participation.value.0, participation.value.1, pending.Some?, ended, stepsRun)
    }

    constructor (number: nat, registry: R.InstanceRegistry, participation: Option<(R.Key, R.CleanupConfig)>)
      ensures Abs() == T.Open(number) && stepsRun == []
      ensures this.registry == registry && this.participation == participation
    {
      this.number, this.root, this.registry, this.participation := number, T.Id(number, 0), registry, participation;
      handles, advised, subs, eventHandles := {T.Id(number, 0)}, {}, map[], map[];
      pending, ended, minted, stepsRun := None, false, [T.Id(number, 0)], [];
    }

    method Mint() returns (id: nat)
      modifies this`minted
      ensures id == T.Id(number, |old(minted)|) && minted == old(minted) + [id]
    {
      id := T.Id(number, |minted|);
      minted := minted + [id];
    }

    /** One handle for every object of a result, in order. */
    method MintHandles(objects: nat) returns (ids: seq<nat>)
      modifies this`minted, this`handles
      ensures ids == T.Fresh(old(Abs()), objects) && Abs() == T.MintHandles(old(Abs()), objects)
    {
      ids := [];
      for i := 0 to objects
        invariant |ids| == i && forall k | 0 <= k < i :: ids[k] == T.Id(number, |old(minted)| + k)
        invariant minted == old(minted) + ids && handles == old(handles) + T.Range(ids)
      {
        var id := Mint();
        handles, ids := handles + {id}, ids + [id];
      }
      assert ids == T.Fresh(old(Abs()), objects);
    }

    /** `succeeds` stands for the conversions of the arguments and the COM call. */
    method Invoke(handle: nat, succeeds: bool, objects: nat) returns (ids: Option<seq<nat>>)
      modifies this
      ensures Abs() == T.Invoke(old(Abs()), handle, succeeds, objects) && stepsRun == old(stepsRun)
      ensures ids.Some? <==> handle in old(handles) && succeeds
      ensures ids.Some? ==> ids.value == T.Fresh(old(Abs()), objects) && |ids.value| == objects
      ensures handles == old(handles) + if ids.Some? then T.Range(ids.value) else {}
      ensures !ended && ids.Some? ==> ids.value == T.GivenOut(old(Abs()), T.DoInvoke(handle, succeeds, objects))
    {
      if handle !in handles || !succeeds {
        return None;
      }
      var newIds := MintHandles(objects);
      return Some(newIds);
    }

    method Forget(handle: nat)
      modifies this`handles, this`subs, this`advised
      ensures Abs() == T.Forget(old(Abs()), handle)
    {
      handles, subs, advised := handles - {handle}, subs - {handle}, advised - {handle};
    }

    /** The release of a handle. Only the root of a participating session consults the registry. */
    method Release(handle: nat, clientAlive: bool) returns (outcome: ReleaseOutcome)
      modifies this, registry
      ensures participation.None? || handle != root ==>
        registry.records == old(registry.records) && Abs() == T.Release(old(Abs()), handle, T.Plain)
        && stepsRun == old(stepsRun) && outcome == Done
        && handles == old(handles) - {handle} && (ended <==> handles == {})
      ensures participation.Some? && handle == root ==>
        RootReleased(old(Abs()), old(registry.records), old(stepsRun), clientAlive, outcome)
      ensures participation.Some? && handle == root && !old(ended) ==>
        forall p: P.State | old(Follows(p)) :: Follows(P.Released(p, number, clientAlive))
    {
      outcome := Done;
      if participation.None? || handle != root {
        ended := handles <= {handle};
        Forget(handle);
        return;
      }
      ghost var m, ran := registry.records, stepsRun;
      outcome := ReleaseRoot(clientAlive);
      forall p: P.State | old(Follows(p)) && !old(ended) ensures Follows(P.Released(p, number, clientAlive)) {
        hide P.Released, R.AfterRelease, R.StepsOfRelease;
        P.ReleaseInView(
          p, number, m, participation.value.0, participation.value.1, old(pending.Some?), ran, clientAlive);
      }
    }

    method ReleaseRoot(clientAlive: bool) returns (outcome: ReleaseOutcome)
      requires participation.Some?
      modifies this, registry
      ensures RootReleased(old(Abs()), old(registry.records), old(stepsRun), clientAlive, outcome)
    {
      var key := participation.value.0;
      var decision := registry.OnRootRelease(key, number);
      if decision.RunCleanup? {
        if decision.config.callback && clientAlive {
          var n := Mint();
          pending := Some(n);
          return CleanupPending(n);
        }
        stepsRun := stepsRun + [decision.config.steps];
        registry.FinishCleanup(key);
      }
      Forget(root);
      ended := true;
      outcome := Done;
    }

    /** The whole effect of a root's release: the tables, the registry, the steps and the answer. */
    ghost predicate RootReleased(
      t: T.Table, m: R.Records, ran: seq<seq<R.Step>>, clientAlive: bool, outcome: ReleaseOutcome)
      requires participation.Some?
      reads this, registry
    {
      var key := participation.value.0;
      var ask := R.VerdictOf(m, key, number, clientAlive).AskClient?;
      && Abs() == T.Release(t, root, if ask then T.AskClient else T.Leave)
      && registry.records == R.AfterRelease(m, key, number, clientAlive)
      && stepsRun == ran + R.StepsOfRelease(m, key, number, clientAlive)
      && outcome == if ask then CleanupPending(T.Id(number, |t.minted|)) else Done
    }

    method Subscribe(handle: nat, event: string, args: bool, adviseOk: bool) returns (r: T.SubscribeResult)
      modifies this`advised, this`subs
      ensures r == T.SubscribeResultOf(old(Abs()), handle, adviseOk)
      ensures r == T.StaleReference <==> handle !in handles
      ensures r == T.EventArgument <==> handle in handles && exists n <- eventHandles :: handle in eventHandles[n]
      ensures r == T.AdviseFailed ==> handle !in advised && !adviseOk
      ensures Abs() == T.Subscribe(old(Abs()), handle, event, args, adviseOk)
    {
      if handle !in handles {
        return T.StaleReference;
      }
      if exists n <- eventHandles :: handle in eventHandles[n] {
        return T.EventArgument;
      }
      if handle !in advised {
        if !adviseOk {
          return T.AdviseFailed;
        }
        advised := advised + {handle};
      }
      var names := if handle in subs then subs[handle] else map[];
      subs := subs[handle := names[event := args]];
      return T.Done;
    }

    method Unsubscribe(handle: nat, event: string) returns (was: bool)
      modifies this`advised, this`subs
      ensures was <==> handle in old(subs) && event in old(subs)[handle]
      ensures Abs() == T.Unsubscribe(old(Abs()), handle, event)
    {
      was := handle in subs && event in subs[handle];
      if handle in subs {
        subs := subs[handle := subs[handle] - {event}];
        if subs[handle] == map[] {
          subs, advised := subs - {handle}, advised - {handle};
        }
      }
    }

    /** The matching answer to a pending cleanup ends the session; any other number lets go of what
        that event minted, and an unknown one of nothing. */
    method ReleaseEvent(n: nat) returns (released: seq<nat>)
      modifies this, registry
      ensures Abs() == T.ReleaseEvent(old(Abs()), n)
      ensures released == if old(pending) == Some(n) then [root] else T.HandlesOf(old(Abs()), n)
      ensures handles == old(handles) - T.Range(released)
      ensures old(pending) != Some(n) ==> eventHandles == old(eventHandles) - {n} && ended == old(ended)
      ensures old(pending) != Some(n) || participation.None? ==>
        registry.records == old(registry.records) && stepsRun == old(stepsRun)
      ensures old(pending) == Some(n) && participation.Some? ==> Confirmed(old(registry.records), old(stepsRun))
      ensures old(pending) == Some(n) && !old(ended) ==>
        forall p: P.State | old(Follows(p)) :: Follows(P.Next(p, P.Answer(number)))
    {
      if pending == Some(n) {
        ghost var m, ran := registry.records, stepsRun;
        ConfirmCleanup();
        Forget(root);
        ended := true;
        forall p: P.State | old(Follows(p)) && !old(ended) ensures Follows(P.Next(p, P.Answer(number))) {
          P.AnswerInView(p, number, m, participation.value.0, participation.value.1, ran);
        }
        return [root];
      }
      released := LetGo(n);
    }

    method LetGo(n: nat) returns (released: seq<nat>)
      requires pending != Some(n)
      modifies this`eventHandles, this`handles
      ensures Abs() == T.ReleaseEvent(old(Abs()), n) && released == T.HandlesOf(old(Abs()), n)
    {
      released := if n in eventHandles then eventHandles[n] else [];
      eventHandles := eventHandles - {n};
      for i := 0 to |released|
        modifies this`handles
        invariant handles == old(handles) - T.Range(released[..i])
      {
        handles := handles - {released[i]};
      }
      assert released[..|released|] == released;
    }

    /** The steps run exactly when the record was still closing, and the record is then gone. */
    ghost predicate Confirmed(before: R.Records, ranBefore: seq<seq<R.Step>>)
      requires participation.Some?
      reads this, registry
    {
      var (key, config) := participation.value;
      && registry.records == R.AfterConfirm(before, key)
      && stepsRun == ranBefore + R.StepsOfConfirm(before, key, config)
    }

    method ConfirmCleanup()
      modifies this`stepsRun, registry
      ensures participation.None? ==> registry.records == old(registry.records) && stepsRun == old(stepsRun)
      ensures participation.Some? ==> Confirmed(old(registry.records), old(stepsRun))
    {
      if participation.Some? {
        var run := registry.ConfirmCleanup(participation.value.0);
        if run {
          stepsRun := stepsRun + [participation.value.1.steps];
        }
      }
    }

    method LeaveOpen()
      modifies registry
      ensures registry.records ==
        if participation.Some? then R.AfterLeaveOpen(old(registry.records), participation.value.0)
        else old(registry.records)
      ensures !ended ==> forall p: P.State | old(Follows(p)) :: Follows(P.Next(p, P.LeaveOpen(number)))
    {
      ghost var m := registry.records;
      if participation.Some? {
        registry.LeaveOpen(participation.value.0);
      }
      forall p: P.State | old(Follows(p)) && !ended ensures Follows(P.Next(p, P.LeaveOpen(number))) {
        P.LeaveOpenInView(p, number, m, participation.value.0, participation.value.1, pending.Some?, stepsRun);
      }
    }

    /** Every sender is gone, or the wait failed. */
    method Disconnect()
      modifies this`ended
      ensures ended
      ensures !old(ended) ==> forall p: P.State | old(Follows(p)) :: Follows(P.Next(p, P.Drop(number)))
    {
      ended := true;
      forall p: P.State | old(Follows(p)) && !old(ended) ensures Follows(P.Next(p, P.Drop(number))) {
        P.DropInView(
          p, number, registry.records, participation.value.0, participation.value.1, pending.Some?, stepsRun);
      }
    }

    /** The catch-all behind the loop. */
    method Exit()
      requires ended
      modifies this`stepsRun, registry
      ensures pending.None? || participation.None? ==>
        registry.records == old(registry.records) && stepsRun == old(stepsRun)
      ensures pending.Some? && participation.Some? ==> Confirmed(old(registry.records), old(stepsRun))
      ensures forall p: P.State | old(Follows(p)) ::
        var p' := P.Next(p, P.Exit(number));
        P.At(p', number, P.Gone) && registry.records == p'.records && stepsRun == P.StepsBy(p'.ran, number)
    {
      ghost var m, ran := registry.records, stepsRun;
      if pending.Some? {
        ConfirmCleanup();
      }
      forall p: P.State | old(Follows(p)) ensures
        var p' := P.Next(p, P.Exit(number));
        P.At(p', number, P.Gone) && registry.records == p'.records && stepsRun == P.StepsBy(p'.ran, number)
      {
        P.ExitInView(p, number, m, participation.value.0, participation.value.1, pending.Some?, ran);
      }
    }

    /** A raw callback on its way to the client: its number, and the handles minted for it, or
        nothing when nobody subscribed to it. */
    method RawEvent(handle: nat, event: string, objects: nat) returns (frame: Option<(nat, seq<nat>)>)
      modifies this
      ensures Abs() == T.RawEvent(old(Abs()), handle, event, objects) && stepsRun == old(stepsRun)
      ensures frame.Some? <==> T.Forwards(old(Abs()), handle, event)
      ensures frame.Some? ==> frame.value.0 == T.Id(number, |old(minted)|)
      ensures frame.Some? && !old(subs)[handle][event] ==> frame.value.1 == [] && handles == old(handles)
      ensures frame.Some? && old(subs)[handle][event] ==>
        |frame.value.1| == objects && handles == old(handles) + T.Range(frame.value.1)
        && (objects > 0 ==> T.HandlesOf(Abs(), frame.value.0) == frame.value.1)
      ensures frame.Some? && !ended ==> frame.value.1 == T.GivenOut(old(Abs()), T.DoRawEvent(handle, event, objects))
    {
      if handle !in advised || handle !in subs || event !in subs[handle] {
        return None;
      }
      var n := Mint();
      if !subs[handle][event] {
        return Some((n, []));
      }
      var ids := MintHandles(objects);
      if ids != [] {
        eventHandles := eventHandles[n := ids];
      } else {
        assert handles == old(handles) && minted == old(minted) + [n];
      }
      return Some((n, ids));
    }
  }
}
