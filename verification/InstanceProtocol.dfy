/** Many sessions over one registry: who shuts a shared instance down. A run is a list of actions;
    every action is one call of the registry, or one move of one session between two of them. */
module InstanceProtocol {
  import opened Options
  import opened Registry

  /** Looping over commands; running the steps inline, outside the registry's lock; past the loop,
      before its catch-all; gone. */
  datatype Phase = Looping | Quitting | Exiting | Gone

  /** `pending`: a `$cleanup` event went out to the client and the session waits for its answer. */
  datatype Session = Session(key: Key, config: CleanupConfig, phase: Phase, pending: bool)

  /** One run of cleanup steps, with the record and the history it was decided on. `asked`: the client's
      closure came first. */
  datatype Ran = Ran(key: Key, session: nat, steps: seq<Step>, asked: bool, record: Record, wasOpen: bool)

  /** After `sessions`, history: keys ever registered; keys of instances the bridge created, with the
      cleanup their creator asked for; keys for which a `leave_open` found a record; sessions that ended
      without releasing their root and without a cleanup pending; who closed which record; and what was
      run. */
  datatype State = State(
    records: Records,
    sessions: map<nat, Session>,
    seen: set<Key>,
    created: map<Key, CleanupConfig>,
    leftOpen: set<Key>,
    vanished: set<nat>,
    closer: map<Key, nat>,
    ran: seq<Ran>,
    done: set<Key>)

  const INIT := State(map[], map[], {}, map[], {}, {}, map[], [], {})

  /** A freshly created instance has a key that was never used before; `newKey` is that key. */
  datatype Action =
    | Create(sid: nat, newKey: Key, config: CleanupConfig)
    | Connect(sid: nat, key: Key, config: CleanupConfig)
    | ConnectOrCreate(sid: nat, running: Option<Key>, newKey: Key, config: CleanupConfig)
    | Release(sid: nat, clientAlive: bool)
    | Finish(sid: nat)
    | Answer(sid: nat)
    | Drop(sid: nat)
    | Exit(sid: nat)
    | LeaveOpen(sid: nat)

  predicate At(s: State, sid: nat, phase: Phase) {
    sid in s.sessions && s.sessions[sid].phase == phase
  }

  function SetSession(s: State, sid: nat, x: Session): State {
    s.(sessions := s.sessions[sid := x])
  }

  function Joined(s: State, sid: nat, key: Key, autoCreated: bool, config: CleanupConfig): State {
    s.(
      records := AfterJoin(s.records, key, sid, autoCreated, config),
      sessions := s.sessions[sid := Session(key, config, Looping, false)],
      seen := s.seen + {key},
      created := if autoCreated then s.created[key := config] else s.created)
  }

  function DoCreate(s: State, sid: nat, newKey: Key, config: CleanupConfig): State {
    if sid in s.sessions || newKey in s.seen then s else Joined(s, sid, newKey, true, config)
  }

  function DoConnect(s: State, sid: nat, key: Key, config: CleanupConfig): State {
    if sid in s.sessions || JoinResultOf(s.records, key).Closing? then s else Joined(s, sid, key, false, config)
  }

  /** `connect_or_create` makes a fresh instance when the running one is being shut down. */
  function DoConnectOrCreate(s: State, sid: nat, running: Option<Key>, newKey: Key, config: CleanupConfig): State {
    if running.Some? && JoinResultOf(s.records, running.value).Joined? then DoConnect(s, sid, running.value, config)
    else DoCreate(s, sid, newKey, config)
  }

  function LogRun(s: State, sid: nat, steps: seq<Step>, asked: bool): State
    requires sid in s.sessions && s.sessions[sid].key in s.records
  {
    var key := s.sessions[sid].key;
    s.(ran := s.ran + [Ran(key, sid, steps, asked, s.records[key], key in s.leftOpen)], done := s.done + {key})
  }

  /** A release of the root handle: ask the live client's closure first, quit inline, or just leave. */
  function DoRelease(s: State, sid: nat, clientAlive: bool): State
    requires At(s, sid, Looping)
  {
    var x := s.sessions[sid];
    var left := s.(records := AfterLeave(s.records, x.key, sid));
    if !LastOut(s.records, x.key, sid) then SetSession(left, sid, x.(phase := Exiting))
    else
      var closed := left.(closer := left.closer[x.key := sid]);
      if s.records[x.key].config.callback && clientAlive then SetSession(closed, sid, x.(pending := true))
      else SetSession(LogRun(closed, sid, s.records[x.key].config.steps, false), sid, x.(phase := Quitting))
  }

  function DoFinish(s: State, sid: nat): State
    requires At(s, sid, Quitting)
  {
    var x := s.sessions[sid];
    SetSession(s.(records := s.records - {x.key}), sid, x.(phase := Exiting))
  }

  /** The closing check after the closure, and the steps it allows. */
  function Confirm(s: State, sid: nat): State
    requires sid in s.sessions
  {
    var x := s.sessions[sid];
    var run := x.key in s.records && s.records[x.key].closing;
    (if run then LogRun(s, sid, x.config.steps, true) else s).(records := AfterConfirm(s.records, x.key))
  }

  /** The client's `release_event` for the pending cleanup. */
  function DoAnswer(s: State, sid: nat): State
    requires At(s, sid, Looping)
  {
    SetSession(Confirm(s, sid), sid, s.sessions[sid].(phase := Exiting))
  }

  /** The connection is gone, or the wait failed. */
  function DoDrop(s: State, sid: nat): State
    requires At(s, sid, Looping)
  {
    var x := s.sessions[sid];
    SetSession(s.(vanished := if x.pending then s.vanished else s.vanished + {sid}), sid, x.(phase := Exiting))
  }

  /** The catch-all behind the loop. */
  function DoExit(s: State, sid: nat): State
    requires At(s, sid, Exiting)
  {
    SetSession(if s.sessions[sid].pending then Confirm(s, sid) else s, sid, s.sessions[sid].(phase := Gone))
  }

  function DoLeaveOpen(s: State, sid: nat): State
    requires At(s, sid, Looping)
  {
    var key := s.sessions[sid].key;
    s.(
      records := AfterLeaveOpen(s.records, key),
      leftOpen := if key in s.records then s.leftOpen + {key} else s.leftOpen)
  }

  function Next(s: State, a: Action): State {
    match a
    case Create(sid, newKey, config) => DoCreate(s, sid, newKey, config)
    case Connect(sid, key, config) => DoConnect(s, sid, key, config)
    case ConnectOrCreate(sid, running, newKey, config) => DoConnectOrCreate(s, sid, running, newKey, config)
    case Release(sid, alive) => if At(s, sid, Looping) then DoRelease(s, sid, alive) else s
    case Finish(sid) => if At(s, sid, Quitting) then DoFinish(s, sid) else s
    case Answer(sid) => if At(s, sid, Looping) && s.sessions[sid].pending then DoAnswer(s, sid) else s
    case Drop(sid) => if At(s, sid, Looping) then DoDrop(s, sid) else s
    case Exit(sid) => if At(s, sid, Exiting) then DoExit(s, sid) else s
    case LeaveOpen(sid) => if At(s, sid, Looping) then DoLeaveOpen(s, sid) else s
  }

  function Run(s: State, actions: seq<Action>): State
    decreases |actions|
  {
    if actions == [] then s else Run(Next(s, actions[0]), actions[1..])
  }

  // --- the invariant --------------------------------------------------------------------------

  /** The session is between closing its record and being done with it. */
  predicate Cleaning(x: Session) {
    x.phase.Quitting? || (x.pending && !x.phase.Gone?)
  }

  ghost predicate RecordOk(s: State, key: Key)
    requires key in s.records
  {
    var rec := s.records[key];
    && key in s.seen
    && (rec.closing ==> rec.autoCreated && rec.users == {})
    && (rec.autoCreated ==> key in s.created && key !in s.leftOpen)
    && (rec.autoCreated && !rec.closing ==> key !in s.closer)
    && (rec.users == {} ==>
          key in s.closer && s.closer[key] in s.sessions && s.sessions[s.closer[key]].key == key
          && Cleaning(s.sessions[s.closer[key]]))
    && (rec.closing ==> (key in s.done <==> s.sessions[s.closer[key]].phase.Quitting?))
    && (forall u <- rec.users ::
          u in s.vanished || (At(s, u, Looping) && s.sessions[u].key == key && !s.sessions[u].pending))
  }

  ghost predicate SessionOk(s: State, sid: nat)
    requires sid in s.sessions
  {
    var x := s.sessions[sid];
    && x.key in s.seen
    && (Cleaning(x) ==> x.key in s.closer && s.closer[x.key] == sid)
    && (x.phase.Quitting? ==> x.key in s.records && s.records[x.key].closing)
    && (x.phase.Looping? && !x.pending ==> x.key in s.records && sid in s.records[x.key].users)
  }

  ghost predicate HistoryOk(s: State) {
    && s.created.Keys <= s.seen && s.leftOpen <= s.seen && s.closer.Keys <= s.seen && s.done <= s.closer.Keys
    && (forall r <- s.ran :: r.key in s.done && r.key in s.created)
    && (forall r <- s.ran :: r.record.autoCreated && r.record.users == {} && r.record.closing && !r.wasOpen)
    && (forall i, j | 0 <= i < j < |s.ran| :: s.ran[i].key != s.ran[j].key)
    && (forall key <- s.created ::
          key in s.done || key in s.leftOpen || (key in s.records && s.records[key].autoCreated))
    && (forall u <- s.vanished :: u in s.sessions && !s.sessions[u].phase.Looping?)
  }

  ghost predicate Inv(s: State) {
    && (forall key <- s.records :: RecordOk(s, key))
    && (forall sid <- s.sessions :: SessionOk(s, sid))
    && HistoryOk(s)
  }

  lemma JoinKeepsRecords(s: State, sid: nat, key: Key, autoCreated: bool, config: CleanupConfig)
    requires Inv(s) && sid !in s.sessions && JoinResultOf(s.records, key).Joined?
    requires autoCreated ==> key !in s.seen
    ensures var s' := Joined(s, sid, key, autoCreated, config); forall k <- s'.records :: RecordOk(s', k)
  {
    var s' := Joined(s, sid, key, autoCreated, config);
    forall k <- s'.records ensures RecordOk(s', k) {
      if k in s.records {
        assert RecordOk(s, k);
      }
    }
  }

  lemma JoinKeepsInv(s: State, sid: nat, key: Key, autoCreated: bool, config: CleanupConfig)
    requires Inv(s) && sid !in s.sessions && JoinResultOf(s.records, key).Joined?
    requires autoCreated ==> key !in s.seen
    ensures Inv(Joined(s, sid, key, autoCreated, config))
  {
    var s' := Joined(s, sid, key, autoCreated, config);
    JoinKeepsRecords(s, sid, key, autoCreated, config);
    forall t <- s'.sessions ensures SessionOk(s', t) {
      if t in s.sessions {
        assert SessionOk(s, t);
      }
    }
    assert HistoryOk(s');
  }

  lemma ReleaseKeepsRecords(s: State, sid: nat, alive: bool)
    requires Inv(s) && At(s, sid, Looping)
    ensures var s' := DoRelease(s, sid, alive); forall k <- s'.records :: RecordOk(s', k)
  {
    var s', key := DoRelease(s, sid, alive), s.sessions[sid].key;
    hide RecordOk, SessionOk, HistoryOk;
    if key in s'.records {
      ReleaseKeepsOwnRecord(s, sid, alive);
    }
    forall k <- s'.records | k != key ensures RecordOk(s', k) {
      ReleaseKeepsOtherRecord(s, sid, alive, k);
    }
  }

  /** A record that is not touched, nor any session of its key, is still in order. */
  lemma OtherRecordKept(s: State, s': State, k: Key)
    requires k in s.records && RecordOk(s, k) && k in s'.records && s'.records[k] == s.records[k]
    requires s'.seen == s.seen && s'.created == s.created && s'.leftOpen == s.leftOpen && s'.vanished == s.vanished
    requires (k in s'.done <==> k in s.done) && (k in s.closer ==> k in s'.closer && s'.closer[k] == s.closer[k])
    requires !s.records[k].closing ==> (k in s'.closer ==> k in s.closer)
    requires forall t <- s.sessions | s.sessions[t].key == k :: t in s'.sessions && s'.sessions[t] == s.sessions[t]
    ensures RecordOk(s', k)
  {
  }

  lemma ReleaseKeepsOtherRecord(s: State, sid: nat, alive: bool, k: Key)
    requires Inv(s) && At(s, sid, Looping)
    requires k in DoRelease(s, sid, alive).records && k != s.sessions[sid].key
    ensures RecordOk(DoRelease(s, sid, alive), k)
  {
    assert RecordOk(s, k);
    hide RecordOk, SessionOk, HistoryOk;
    OtherRecordKept(s, DoRelease(s, sid, alive), k);
  }

  lemma ReleaseKeepsOwnRecord(s: State, sid: nat, alive: bool)
    requires Inv(s) && At(s, sid, Looping)
    requires s.sessions[sid].key in DoRelease(s, sid, alive).records
    ensures RecordOk(DoRelease(s, sid, alive), s.sessions[sid].key)
  {
    assert SessionOk(s, sid) && RecordOk(s, s.sessions[sid].key);
  }

  lemma ReleaseKeepsSessions(s: State, sid: nat, alive: bool)
    requires Inv(s) && At(s, sid, Looping)
    ensures var s' := DoRelease(s, sid, alive); forall t <- s'.sessions :: SessionOk(s', t)
  {
    var s', key := DoRelease(s, sid, alive), s.sessions[sid].key;
    hide SessionOk, Inv;
    forall t <- s'.sessions ensures SessionOk(s', t) {
      ReleaseKeepsSession(s, sid, alive, t);
    }
  }

  lemma ReleaseKeepsSession(s: State, sid: nat, alive: bool, t: nat)
    requires Inv(s) && At(s, sid, Looping) && t in s.sessions
    ensures SessionOk(DoRelease(s, sid, alive), t)
  {
    hide HistoryOk;
    var key := s.sessions[sid].key;
    assert SessionOk(s, sid) && SessionOk(s, t) && (key in s.records ==> RecordOk(s, key));
    assert t != sid && key in s.records && t in s.records[key].users ==> t in s.records[key].users - {sid};
  }

  lemma ReleaseKeepsHistory(s: State, sid: nat, alive: bool)
    requires Inv(s) && At(s, sid, Looping)
    ensures HistoryOk(DoRelease(s, sid, alive))
  {
    var key := s.sessions[sid].key;
    assert SessionOk(s, sid) && (key in s.records ==> RecordOk(s, key));
  }

  lemma FinishKeepsInv(s: State, sid: nat)
    requires Inv(s) && At(s, sid, Quitting)
    ensures Inv(DoFinish(s, sid))
  {
    var s', key := DoFinish(s, sid), s.sessions[sid].key;
    assert SessionOk(s, sid) && RecordOk(s, key);
    forall k <- s'.records ensures RecordOk(s', k) {
      assert RecordOk(s, k);
    }
    forall t <- s'.sessions ensures SessionOk(s', t) {
      assert SessionOk(s, t);
    }
  }

  function Confirmed(s: State, sid: nat, phase: Phase): State
    requires sid in s.sessions
  {
    SetSession(Confirm(s, sid), sid, s.sessions[sid].(phase := phase))
  }

  predicate CanConfirm(s: State, sid: nat, phase: Phase) {
    && sid in s.sessions && s.sessions[sid].pending && phase in {Exiting, Gone}
    && (At(s, sid, Looping) || At(s, sid, Exiting))
  }

  lemma ConfirmKeepsRecords(s: State, sid: nat, phase: Phase)
    requires Inv(s) && CanConfirm(s, sid, phase)
    ensures var s' := Confirmed(s, sid, phase); forall k <- s'.records :: RecordOk(s', k)
  {
    var s' := Confirmed(s, sid, phase);
    assert SessionOk(s, sid);
    forall k <- s'.records ensures RecordOk(s', k) {
      assert RecordOk(s, k);
    }
  }

  lemma ConfirmKeepsSessions(s: State, sid: nat, phase: Phase)
    requires Inv(s) && CanConfirm(s, sid, phase)
    ensures var s' := Confirmed(s, sid, phase); forall t <- s'.sessions :: SessionOk(s', t)
  {
    var s', key := Confirmed(s, sid, phase), s.sessions[sid].key;
    assert SessionOk(s, sid) && (key in s.records ==> RecordOk(s, key));
    forall t <- s'.sessions ensures SessionOk(s', t) {
      assert SessionOk(s, t);
    }
  }

  lemma ConfirmKeepsHistory(s: State, sid: nat, phase: Phase)
    requires Inv(s) && CanConfirm(s, sid, phase)
    ensures HistoryOk(Confirmed(s, sid, phase))
  {
    var key := s.sessions[sid].key;
    assert SessionOk(s, sid) && (key in s.records ==> RecordOk(s, key));
  }

  /** A pending session confirms and moves on. */
  lemma ConfirmKeepsInv(s: State, sid: nat, phase: Phase)
    requires Inv(s) && CanConfirm(s, sid, phase)
    ensures Inv(Confirmed(s, sid, phase))
  {
    ConfirmKeepsRecords(s, sid, phase);
    ConfirmKeepsSessions(s, sid, phase);
    ConfirmKeepsHistory(s, sid, phase);
  }

  lemma LeaveOpenKeepsInv(s: State, sid: nat)
    requires Inv(s) && At(s, sid, Looping)
    ensures Inv(DoLeaveOpen(s, sid))
  {
    var s', key := DoLeaveOpen(s, sid), s.sessions[sid].key;
    assert SessionOk(s, sid) && (key in s.records ==> RecordOk(s, key));
    forall k <- s'.records ensures RecordOk(s', k) {
      assert RecordOk(s, k);
    }
    forall t <- s'.sessions ensures SessionOk(s', t) {
      assert SessionOk(s, t);
    }
  }

  lemma MoveKeepsInv(s: State, sid: nat, s': State)
    requires Inv(s) && sid in s.sessions
    requires
      || (At(s, sid, Looping) && s' == DoDrop(s, sid))
      || (At(s, sid, Exiting) && !s.sessions[sid].pending && s' == DoExit(s, sid))
    ensures Inv(s')
  {
    assert SessionOk(s, sid);
    forall k <- s'.records ensures RecordOk(s', k) {
      assert RecordOk(s, k);
    }
    forall t <- s'.sessions ensures SessionOk(s', t) {
      assert SessionOk(s, t);
    }
  }

  lemma NextKeepsInv(s: State, a: Action)
    requires Inv(s)
    ensures Inv(Next(s, a))
    decreases a.ConnectOrCreate?
  {
    match a
    case Create(sid, newKey, config) =>
      if sid !in s.sessions && newKey !in s.seen {
        NewKeysHaveNoRecord(s, newKey);
        JoinKeepsInv(s, sid, newKey, true, config);
      }
    case Connect(sid, key, config) =>
      if Next(s, a) != s {
        JoinKeepsInv(s, sid, key, false, config);
      }
    case ConnectOrCreate(sid, running, newKey, config) =>
      if running.Some? && JoinResultOf(s.records, running.value).Joined? {
        NextKeepsInv(s, Connect(sid, running.value, config));
      } else {
        NextKeepsInv(s, Create(sid, newKey, config));
      }
    case Release(sid, alive) =>
      if At(s, sid, Looping) {
        ReleaseKeepsRecords(s, sid, alive);
        ReleaseKeepsSessions(s, sid, alive);
        ReleaseKeepsHistory(s, sid, alive);
      }
    case Finish(sid) => if At(s, sid, Quitting) { FinishKeepsInv(s, sid); }
    case Answer(sid) => if At(s, sid, Looping) && s.sessions[sid].pending { ConfirmKeepsInv(s, sid, Exiting); }
    case Drop(sid) => if At(s, sid, Looping) { MoveKeepsInv(s, sid, DoDrop(s, sid)); }
    case Exit(sid) =>
      if At(s, sid, Exiting) {
        if s.sessions[sid].pending {
          ConfirmKeepsInv(s, sid, Gone);
        } else {
          MoveKeepsInv(s, sid, DoExit(s, sid));
        }
      }
    case LeaveOpen(sid) => if At(s, sid, Looping) { LeaveOpenKeepsInv(s, sid); }
  }

  lemma NewKeysHaveNoRecord(s: State, key: Key)
    requires Inv(s) && key !in s.seen
    ensures key !in s.records
  {
    assert key in s.records ==> RecordOk(s, key);
  }

  lemma {:induction false} RunKeepsInv(s: State, actions: seq<Action>)
    requires Inv(s)
    ensures Inv(Run(s, actions))
    decreases |actions|
  {
    if actions != [] {
      NextKeepsInv(s, actions[0]);
      RunKeepsInv(Next(s, actions[0]), actions[1..]);
    }
  }

  // --- what every run keeps -------------------------------------------------------------------

  /** Whichever path ends the sessions that share an instance: its cleanup steps run at most once,
      and only for an instance the bridge created, with no user left, that nobody left open. */
  lemma CleanupRunsAtMostOnce(actions: seq<Action>)
    ensures var s := Run(INIT, actions);
      && (forall i, j | 0 <= i < j < |s.ran| :: s.ran[i].key != s.ran[j].key)
      && (forall r <- s.ran :: r.key in s.created && r.record.autoCreated && r.record.users == {} && !r.wasOpen)
  {
    RunKeepsInv(INIT, actions);
  }

  /** Whose steps they are, as the creators' requests and the sessions' own have it. */
  ghost predicate StepsOk(s: State) {
    && (forall key <- s.records | s.records[key].autoCreated :: Registrar(s, key))
    && (forall sid <- s.sessions | s.sessions[sid].pending :: Asked(s, s.sessions[sid].key))
    && (forall r <- s.ran :: RanOk(s, r))
  }

  predicate Registrar(s: State, key: Key)
    requires key in s.records
  {
    key in s.created && s.records[key].config == s.created[key]
  }

  predicate Asked(s: State, key: Key) {
    key in s.created && s.created[key].callback
  }

  predicate RanOk(s: State, r: Ran) {
    && r.key in s.created && r.session in s.sessions && s.sessions[r.session].key == r.key
    && r.steps == (if r.asked then s.sessions[r.session].config else s.created[r.key]).steps
    && (r.asked ==> Asked(s, r.key))
  }

  lemma ConfirmKeepsSteps(s: State, sid: nat, phase: Phase)
    requires StepsOk(s) && CanConfirm(s, sid, phase)
    ensures StepsOk(Confirmed(s, sid, phase))
  {
    var s' := Confirmed(s, sid, phase);
    assert Asked(s, s.sessions[sid].key);
    forall r <- s'.ran ensures RanOk(s', r) {
      assert r in s.ran ==> RanOk(s, r);
    }
  }

  lemma JoinKeepsSteps(s: State, sid: nat, key: Key, autoCreated: bool, config: CleanupConfig)
    requires Inv(s) && StepsOk(s) && sid !in s.sessions && JoinResultOf(s.records, key).Joined?
    requires autoCreated ==> key !in s.seen && key !in s.records
    ensures StepsOk(Joined(s, sid, key, autoCreated, config))
  {
    var s' := Joined(s, sid, key, autoCreated, config);
    forall k <- s'.records | s'.records[k].autoCreated ensures Registrar(s', k) {
      assert k in s.records && s.records[k].autoCreated ==> Registrar(s, k);
    }
    forall r <- s'.ran ensures RanOk(s', r) {
      assert RanOk(s, r);
    }
  }

  lemma ReleaseKeepsSteps(s: State, sid: nat, alive: bool)
    requires StepsOk(s) && At(s, sid, Looping)
    ensures StepsOk(DoRelease(s, sid, alive))
  {
    var s', key := DoRelease(s, sid, alive), s.sessions[sid].key;
    assert LastOut(s.records, key, sid) ==> Registrar(s, key);
    forall k <- s'.records | s'.records[k].autoCreated ensures Registrar(s', k) {
      assert Registrar(s, k);
    }
    forall r <- s'.ran ensures RanOk(s', r) {
      assert r in s.ran ==> RanOk(s, r);
    }
  }

  lemma NextKeepsSteps(s: State, a: Action)
    requires Inv(s) && StepsOk(s)
    ensures StepsOk(Next(s, a))
    decreases a.ConnectOrCreate?
  {
    match a
    case Create(sid, newKey, config) =>
      if sid !in s.sessions && newKey !in s.seen {
        NewKeysHaveNoRecord(s, newKey);
        JoinKeepsSteps(s, sid, newKey, true, config);
      }
    case Connect(sid, key, config) =>
      if Next(s, a) != s {
        JoinKeepsSteps(s, sid, key, false, config);
      }
    case ConnectOrCreate(sid, running, newKey, config) =>
      if running.Some? && JoinResultOf(s.records, running.value).Joined? {
        NextKeepsSteps(s, Connect(sid, running.value, config));
      } else {
        NextKeepsSteps(s, Create(sid, newKey, config));
      }
    case Release(sid, alive) => if At(s, sid, Looping) { ReleaseKeepsSteps(s, sid, alive); }
    case Answer(sid) => if At(s, sid, Looping) && s.sessions[sid].pending { ConfirmKeepsSteps(s, sid, Exiting); }
    case Exit(sid) =>
      if At(s, sid, Exiting) && s.sessions[sid].pending {
        ConfirmKeepsSteps(s, sid, Gone);
      } else {
        MoveKeepsSteps(s, a);
      }
    case _ => MoveKeepsSteps(s, a);
  }

  lemma MoveKeepsSteps(s: State, a: Action)
    requires StepsOk(s)
    requires a.Finish? || a.Drop? || a.LeaveOpen? || (a.Exit? && !(At(s, a.sid, Exiting) && s.sessions[a.sid].pending))
    ensures StepsOk(Next(s, a))
  {
    hide Confirm;
    var s' := Next(s, a);
    forall k <- s'.records | s'.records[k].autoCreated ensures Registrar(s', k) {
      assert Registrar(s, k);
    }
    forall r <- s'.ran ensures RanOk(s', r) {
      assert RanOk(s, r);
    }
  }

  lemma {:induction false} RunKeepsSteps(s: State, actions: seq<Action>)
    requires Inv(s) && StepsOk(s)
    ensures StepsOk(Run(s, actions))
    decreases |actions|
  {
    if actions != [] {
      NextKeepsInv(s, actions[0]);
      NextKeepsSteps(s, actions[0]);
      RunKeepsSteps(Next(s, actions[0]), actions[1..]);
    }
  }

  /** Over every run: steps that run inline are those the creator of the instance asked for; steps that
      run after a closure are the asking session's own, and the creator wanted closures asked. */
  lemma WhoseStepsRun(actions: seq<Action>, r: Ran)
    requires r in Run(INIT, actions).ran
    ensures var s := Run(INIT, actions);
      && r.key in s.created && r.session in s.sessions && s.sessions[r.session].key == r.key
      && (!r.asked ==> r.steps == s.created[r.key].steps)
      && (r.asked ==> r.steps == s.sessions[r.session].config.steps && s.created[r.key].callback)
  {
    RunKeepsSteps(INIT, actions);
    assert RanOk(Run(INIT, actions), r);
  }

  /** What the last user's release leads to, in every reachable state: the client is asked exactly if the
      creator wanted that and the client is still there; otherwise the creator's steps run at once. */
  lemma LastOneOut(actions: seq<Action>, sid: nat, alive: bool)
    requires var s := Run(INIT, actions); At(s, sid, Looping) && LastOut(s.records, s.sessions[sid].key, sid)
    ensures var s := Run(INIT, actions);
      var (key, s') := (s.sessions[sid].key, Next(s, Release(sid, alive)));
      && key in s.created
      && (s.created[key].callback && alive ==> s'.ran == s.ran && s'.sessions[sid].pending)
      && (!(s.created[key].callback && alive) ==>
            && |s'.ran| == |s.ran| + 1 && s'.ran[..|s.ran|] == s.ran && s'.ran[|s.ran|].key == key
            && s'.ran[|s.ran|].steps == s.created[key].steps && s'.ran[|s.ran|].session == sid)
  {
    RunKeepsSteps(INIT, actions);
    assert Registrar(Run(INIT, actions), Run(INIT, actions).sessions[sid].key);
  }

  /** And it does run: an instance the bridge created either was cleaned up, or was left open, or
      still has its record, with the permission to clean it up. When no session is left, what keeps
      such a record is only users that ended without releasing their root. */
  lemma CleanupIsNotForgotten(actions: seq<Action>, key: Key)
    requires key in Run(INIT, actions).created
    ensures var s := Run(INIT, actions);
      && (key in s.done || key in s.leftOpen || (key in s.records && s.records[key].autoCreated))
      && (key in s.records && (forall sid <- s.sessions :: s.sessions[sid].phase.Gone?) ==>
            s.records[key].users != {} && s.records[key].users <= s.vanished)
  {
    RunKeepsInv(INIT, actions);
    var s := Run(INIT, actions);
    if key in s.records {
      assert RecordOk(s, key);
    }
  }

  /** A closing record is auto-created, has no users and admits none; a record without users belongs
      to a session that is still cleaning up; so a session that is gone leaves neither behind. */
  lemma ClosingRecords(actions: seq<Action>, key: Key)
    requires key in Run(INIT, actions).records
    ensures var s := Run(INIT, actions); var rec := s.records[key];
      && (rec.closing ==> rec.autoCreated && rec.users == {} && JoinResultOf(s.records, key) == Closing)
      && (rec.users == {} ==> exists sid <- s.sessions :: s.sessions[sid].key == key && Cleaning(s.sessions[sid]))
  {
    RunKeepsInv(INIT, actions);
    var s := Run(INIT, actions);
    assert RecordOk(s, key);
    if s.records[key].users == {} {
      assert s.closer[key] in s.sessions;
    }
  }

  /** On the inline path nobody can join while the steps run, nor begin a second cleanup. */
  lemma NobodyJoinsWhileQuitting(actions: seq<Action>, sid: nat, other: nat)
    requires At(Run(INIT, actions), sid, Quitting)
    ensures var s := Run(INIT, actions); var key := s.sessions[sid].key;
      && JoinResultOf(s.records, key) == Closing
      && (other in s.sessions && other != sid && s.sessions[other].key == key ==>
            !Cleaning(s.sessions[other]) && !LastOut(s.records, key, other))
  {
    RunKeepsInv(INIT, actions);
    var s := Run(INIT, actions);
    assert SessionOk(s, sid);
    if other in s.sessions {
      assert SessionOk(s, other);
    }
  }

  /** `connect_or_create` joins the running instance whenever it may be joined, without any say over its
      end; otherwise it makes a new one, which it may shut down. */
  lemma JoinsOrMakes(s: State, sid: nat, running: Option<Key>, newKey: Key, config: CleanupConfig)
    requires Inv(s) && sid !in s.sessions && newKey !in s.seen
    ensures var s' := Next(s, ConnectOrCreate(sid, running, newKey, config));
      var joins := running.Some? && !(running.value in s.records && s.records[running.value].closing);
      var key := if joins then running.value else newKey;
      && At(s', sid, Looping) && s'.sessions[sid].key == key && key in s'.records
      && (joins ==> s'.created == s.created && sid in s'.records[key].users)
      && (joins && key in s.records ==> s'.records[key].autoCreated == s.records[key].autoCreated)
      && (joins && key !in s.records ==> !s'.records[key].autoCreated)
      && (!joins ==> s'.records == s.records[key := Record(true, {sid}, false, config)] && key in s'.created)
  {
    NewKeysHaveNoRecord(s, newKey);
  }

  // --- one session's own view -----------------------------------------------------------------

  function StepsBy(ran: seq<Ran>, sid: nat): seq<seq<Step>> {
    if ran == [] then []
    else StepsBy(ran[..|ran| - 1], sid) + if ran[|ran| - 1].session == sid then [ran[|ran| - 1].steps] else []
  }

  /** What one participating session has to know of the protocol: the registry, its own key and cleanup,
      whether a cleanup is pending, whether it has left its loop, and the steps it ran. */
  ghost predicate View(
    s: State, sid: nat, m: Records, key: Key, config: CleanupConfig, pending: bool, over: bool, ran: seq<seq<Step>>)
  {
    && sid in s.sessions && s.sessions[sid] == Session(key, config, if over then Exiting else Looping, pending)
    && s.records == m && StepsBy(s.ran, sid) == ran
  }

  /** A release, with the end of an inline quit where there is one. */
  function Released(s: State, sid: nat, clientAlive: bool): State {
    var s1 := Next(s, Release(sid, clientAlive));
    if At(s1, sid, Quitting) then Next(s1, Finish(sid)) else s1
  }

  lemma StepsAppend(ran: seq<Ran>, r: Ran)
    ensures StepsBy(ran + [r], r.session) == StepsBy(ran, r.session) + [r.steps]
  {
    assert (ran + [r])[..|ran|] == ran;
  }

  lemma ReleaseInView(
    s: State, sid: nat, m: Records, key: Key, config: CleanupConfig, pending: bool, ran: seq<seq<Step>>, alive: bool)
    requires View(s, sid, m, key, config, pending, false, ran)
    ensures var ask := VerdictOf(m, key, sid, alive).AskClient?;
      View(Released(s, sid, alive), sid, AfterRelease(m, key, sid, alive), key, config,
        pending || ask, !ask, ran + StepsOfRelease(m, key, sid, alive))
  {
    hide StepsBy;
    if VerdictOf(m, key, sid, alive).QuitInline? {
      var s1 := Next(s, Release(sid, alive));
      StepsAppend(s.ran, s1.ran[|s.ran|]);
      assert AfterLeave(m, key, sid) - {key} == m - {key};
    }
  }

  lemma ConfirmInView(
    s: State, sid: nat, m: Records, key: Key, config: CleanupConfig, over: bool, ran: seq<seq<Step>>)
    requires View(s, sid, m, key, config, true, over, ran)
    ensures var s' := Confirm(s, sid);
      && s'.records == AfterConfirm(m, key) && s'.sessions == s.sessions
      && StepsBy(s'.ran, sid) == ran + StepsOfConfirm(m, key, config)
  {
    if key in m && m[key].closing {
      StepsAppend(s.ran, Confirm(s, sid).ran[|s.ran|]);
    }
  }

  lemma AnswerInView(s: State, sid: nat, m: Records, key: Key, config: CleanupConfig, ran: seq<seq<Step>>)
    requires View(s, sid, m, key, config, true, false, ran)
    ensures View(Next(s, Answer(sid)), sid, AfterConfirm(m, key), key, config, true, true,
      ran + StepsOfConfirm(m, key, config))
  {
    ConfirmInView(s, sid, m, key, config, false, ran);
  }

  lemma LeaveOpenInView(
    s: State, sid: nat, m: Records, key: Key, config: CleanupConfig, pending: bool, ran: seq<seq<Step>>)
    requires View(s, sid, m, key, config, pending, false, ran)
    ensures View(Next(s, LeaveOpen(sid)), sid, AfterLeaveOpen(m, key), key, config, pending, false, ran)
  {
  }

  lemma DropInView(
    s: State, sid: nat, m: Records, key: Key, config: CleanupConfig, pending: bool, ran: seq<seq<Step>>)
    requires View(s, sid, m, key, config, pending, false, ran)
    ensures View(Next(s, Drop(sid)), sid, m, key, config, pending, true, ran)
  {
  }

  /** The catch-all: the session is gone, and what it did on its way out. */
  lemma ExitInView(
    s: State, sid: nat, m: Records, key: Key, config: CleanupConfig, pending: bool, ran: seq<seq<Step>>)
    requires View(s, sid, m, key, config, pending, true, ran)
    ensures var s' := Next(s, Exit(sid));
      && At(s', sid, Gone)
      && s'.records == (if pending then AfterConfirm(m, key) else m)
      && StepsBy(s'.ran, sid) == ran + if pending then StepsOfConfirm(m, key, config) else []
  {
    if pending {
      ConfirmInView(s, sid, m, key, config, true, ran);
    }
  }
}
