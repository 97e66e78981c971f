/** The server's routing table, shared by every connection: which session an id's commands go to. One
    step is what one thread does under the lock, or between two holds of it. */
module RoutesModel {
  import T = SessionTable

  /** A thread that has cloned a route and is about to enter new ids under it: `ids` says which session
      they will have been minted by. */
  datatype Hold = Hold(route: nat, ids: nat)

  datatype State = State(routes: map<nat, nat>, holds: map<nat, Hold>, born: set<nat>)

  const INIT := State(map[], map[], {})

  /** `LookUp` finds a route by its handle, for a request; the session at its end is the one that mints
      the ids of the answer. `LookUpSession` finds one for an event of `handle`, which the session of
      `handle` minted ids for: any entry `found` of that session will do. */
  datatype Action =
    | Create(session: nat, root: nat)
    | LookUp(t: nat, handle: nat)
    | LookUpSession(t: nat, handle: nat, found: nat)
    | Enter(t: nat, ids: set<nat>)
    | Remove(ids: set<nat>)
    | Retain(sessions: set<nat>)

  predicate CanDo(s: State, a: Action) {
    match a
    case Create(session, root) => session !in s.born && T.SessionOf(root) == session
    case LookUp(t, handle) => t !in s.holds && handle in s.routes
    case LookUpSession(t, handle, found) =>
      t !in s.holds && found in s.routes && T.SessionOf(found) == T.SessionOf(handle)
    case Enter(t, ids) => t in s.holds && forall id <- ids :: T.SessionOf(id) == s.holds[t].ids
    case _ => true
  }

  function AsSet(ids: seq<nat>): set<nat> {
    set id | id in ids
  }

  function Entered(routes: map<nat, nat>, ids: set<nat>, route: nat): map<nat, nat> {
    map id | id in routes.Keys + ids :: if id in ids then route else routes[id]
  }

  lemma EnteredOneMore(routes: map<nat, nat>, ids: seq<nat>, i: nat, route: nat)
    requires i < |ids|
    ensures Entered(routes, AsSet(ids[..i + 1]), route) == Entered(routes, AsSet(ids[..i]), route)[ids[i] := route]
  {
    assert ids[..i + 1] == ids[..i] + [ids[i]];
  }

  lemma EnteredNone(routes: map<nat, nat>, ids: seq<nat>, route: nat)
    ensures Entered(routes, AsSet(ids[..0]), route) == routes
  {
  }

  function Without(routes: map<nat, nat>, sessions: set<nat>): map<nat, nat> {
    map id | id in routes && T.SessionOf(id) !in sessions :: routes[id]
  }

  function Next(s: State, a: Action): State {
    if !CanDo(s, a) then s
    else
      match a
      case Create(session, root) => s.(routes := s.routes[root := session], born := s.born + {session})
      case LookUp(t, handle) => s.(holds := s.holds[t := Hold(s.routes[handle], s.routes[handle])])
      case LookUpSession(t, handle, found) => s.(holds := s.holds[t := Hold(s.routes[found], T.SessionOf(handle))])
      case Enter(t, ids) => s.(routes := Entered(s.routes, ids, s.holds[t].route), holds := s.holds - {t})
      case Remove(ids) => s.(routes := s.routes - ids)
      case Retain(sessions) => s.(routes := Without(s.routes, sessions))
  }

  function Run(s: State, actions: seq<Action>): State
    decreases |actions|
  {
    if actions == [] then s else Run(Next(s, actions[0]), actions[1..])
  }

  ghost predicate Inv(s: State) {
    && (forall id <- s.routes :: s.routes[id] == T.SessionOf(id) && s.routes[id] in s.born)
    && (forall t <- s.holds :: s.holds[t].route == s.holds[t].ids && s.holds[t].route in s.born)
  }

  lemma NextKeepsInv(s: State, a: Action)
    requires Inv(s)
    ensures Inv(Next(s, a))
  {
  }

  lemma {:induction false} RunKeepsInv(s: State, actions: seq<Action>)
    requires Inv(s)
    ensures Inv(Run(s, actions))
    decreases |actions|
  {
    if actions != [] {
      NextKeepsInv(s, actions[0]);
      RunKeepsInv(Next(s, actions[0]), actions[1..]);
    }
  }

  /** At any time, whatever the connections did, every id in the table leads to the session that minted
      it. */
  lemma RoutesLeadHome(actions: seq<Action>, id: nat)
    requires id in Run(INIT, actions).routes
    ensures Run(INIT, actions).routes[id] == T.SessionOf(id)
  {
    RunKeepsInv(INIT, actions);
  }

  // --- what a teardown leaves -----------------------------------------------------------------

  predicate HasEntry(s: State, session: nat) {
    exists id <- s.routes :: T.SessionOf(id) == session
  }

  /** A thread between its two holds of the lock has a route of this session. */
  predicate InFlight(s: State, session: nat) {
    exists t <- s.holds :: s.holds[t].route == session
  }

  ghost predicate Gone(s: State, session: nat) {
    session in s.born && !HasEntry(s, session) && !InFlight(s, session)
  }

  lemma NextKeepsGone(s: State, a: Action, session: nat)
    requires Inv(s) && Gone(s, session)
    ensures Gone(Next(s, a), session)
  {
    var s' := Next(s, a);
    assert forall id <- s.routes :: T.SessionOf(id) != session;
    assert forall t <- s.holds :: s.holds[t].route != session;
    assert forall id <- s'.routes :: T.SessionOf(id) != session;
    assert forall t <- s'.holds :: s'.holds[t].route != session;
  }

  lemma {:induction false} RunKeepsGone(s: State, actions: seq<Action>, session: nat)
    requires Inv(s) && Gone(s, session)
    ensures Gone(Run(s, actions), session)
    decreases |actions|
  {
    if actions != [] {
      NextKeepsInv(s, actions[0]);
      NextKeepsGone(s, actions[0], session);
      RunKeepsGone(Next(s, actions[0]), actions[1..], session);
    }
  }

  ghost predicate StaysGone(s: State, session: nat) {
    forall actions :: !HasEntry(Run(s, actions), session)
  }

  ghost predicate CanReturn(s: State, id: nat) {
    exists actions :: id in Run(s, actions).routes
  }

  /** After a teardown of its session no id of that session ever comes back into the table, exactly when
      no request or event of the session was in flight as the table was purged; and if one was, any id of
      the session can come back. */
  lemma TeardownIsFinalIff(s: State, sessions: set<nat>, session: nat)
    requires Inv(s) && session in sessions && session in s.born
    ensures var s' := Next(s, Retain(sessions));
      && !HasEntry(s', session)
      && (StaysGone(s', session) <==> !InFlight(s, session))
      && (forall id: nat | T.SessionOf(id) == session :: CanReturn(s', id) <==> InFlight(s, session))
  {
    var s' := Next(s, Retain(sessions));
    NextKeepsInv(s, Retain(sessions));
    if InFlight(s, session) {
      var t :| t in s.holds && s.holds[t].route == session;
      forall id: nat | T.SessionOf(id) == session ensures CanReturn(s', id) && !StaysGone(s', session) {
        var a := Enter(t, {id});
        assert id in Next(s', a).routes && HasEntry(Next(s', a), session);
        assert [a][1..] == [] && Run(s', [a]) == Run(Next(s', a), []);
        assert id in Run(s', [a]).routes && HasEntry(Run(s', [a]), session);
      }
      assert T.SessionOf(session * T.WORD) == session;
    } else {
      assert Gone(s', session);
      forall actions: seq<Action> ensures !HasEntry(Run(s', actions), session) {
        RunKeepsGone(s', actions, session);
      }
      forall id: nat | T.SessionOf(id) == session ensures !CanReturn(s', id) {
        assert forall actions :: id in Run(s', actions).routes ==> HasEntry(Run(s', actions), session);
      }
    }
  }

  // --- a teardown, step by step ---------------------------------------------------------------

  function SessionsOf(handles: seq<nat>): set<nat> {
    set h | h in handles :: T.SessionOf(h)
  }

  /** From the last handle to the first, one by one; then the rest of their sessions at once. */
  function Teardown(handles: seq<nat>): seq<Action> {
    if handles == [] then [] else [Remove({handles[|handles| - 1]})] + Teardown(handles[..|handles| - 1])
  }

  /** What else goes on between the steps of a teardown: anything that leaves the entries of one
      other session alone. */
  predicate Spares(s: State, a: Action, session: nat) {
    forall id | id in s.routes.Keys + Next(s, a).routes.Keys :: T.SessionOf(id) == session ==>
      id in s.routes && id in Next(s, a).routes && Next(s, a).routes[id] == s.routes[id]
  }

  /** No step of a teardown touches another session's entries. */
  lemma TeardownSparesOthers(s: State, handles: seq<nat>, a: Action, session: nat)
    requires session !in SessionsOf(handles)
    requires a in Teardown(handles) || a == Retain(SessionsOf(handles))
    ensures Spares(s, a, session)
  {
    if a in Teardown(handles) {
      var h := TeardownStep(handles, a);
      assert T.SessionOf(h) in SessionsOf(handles);
    }
  }

  lemma {:induction false} TeardownStep(handles: seq<nat>, a: Action) returns (h: nat)
    requires a in Teardown(handles)
    ensures h in handles && a == Remove({h})
    decreases |handles|
  {
    h := handles[|handles| - 1];
    if a != Remove({h}) {
      h := TeardownStep(handles[..|handles| - 1], a);
    }
  }

  /** With nothing in between a teardown comes to the purge alone, whichever handles the connection
      knew of. */
  lemma {:induction false} TeardownLeaves(s: State, handles: seq<nat>, sessions: set<nat>)
    requires SessionsOf(handles) <= sessions
    ensures Without(Run(s, Teardown(handles)).routes, sessions) == Without(s.routes, sessions)
    decreases |handles|
  {
    if handles != [] {
      var front, h := handles[..|handles| - 1], handles[|handles| - 1];
      var s1 := Next(s, Remove({h}));
      assert Teardown(handles)[1..] == Teardown(front);
      assert T.SessionOf(h) in SessionsOf(handles);
      assert SessionsOf(front) <= SessionsOf(handles);
      TeardownLeaves(s1, front, sessions);
      assert Without(s1.routes, sessions) == Without(s.routes, sessions);
    }
  }
}
