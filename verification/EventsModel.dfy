/** The registrations of one object on the client, and the flags the bridge holds for its handle. */
module EventsModel {
  import opened Options
  import T = SessionTable

  /** One registration; its number is its identity. */
  datatype Sub = Sub(no: nat, args: bool)

  type Subs = map<string, seq<Sub>>

  /** `bridge` is the bridge's event table for this handle; `live` says that the session still knows the
      handle, `pending` that it was released and a cleanup has to be acknowledged first. */
  datatype State = State(
    subs: Subs, attached: bool, nextNo: nat, bridge: map<string, bool>, live: bool, pending: bool)

  const INIT := State(map[], false, 0, map[], true, false)

  predicate WantsArgs(q: seq<Sub>) {
    exists x <- q :: x.args
  }

  /** None when nothing is registered for the name; otherwise whether any callback wants arguments. */
  function EffectiveArgs(subs: Subs, name: string): Option<bool> {
    if name in subs then Some(WantsArgs(subs[name])) else None
  }

  function Without(q: seq<Sub>, no: nat): seq<Sub> {
    if q == [] then [] else (if q[0].no == no then [] else [q[0]]) + Without(q[1..], no)
  }

  /** Remove one registration, or every one for the name. */
  function Dropped(subs: Subs, name: string, no: Option<nat>): Subs {
    if name !in subs then subs
    else
      var remaining := if no.None? then [] else Without(subs[name], no.value);
      if remaining == [] then subs - {name} else subs[name := remaining]
  }

  function Regs(subs: Subs, name: string): seq<Sub> {
    if name in subs then subs[name] else []
  }

  function Added(subs: Subs, name: string, sub: Sub): Subs {
    subs[name := Regs(subs, name) + [sub]]
  }

  /** `attachOk`: the dispatcher takes the object; `accepts`: the bridge accepts a subscribe. */
  function On(s: State, name: string, args: bool, attachOk: bool, accepts: bool): State {
    if !s.attached && !attachOk then s
    else
      var sub := Sub(s.nextNo, args);
      var before, subs := EffectiveArgs(s.subs, name), Added(s.subs, name, sub);
      var after := EffectiveArgs(subs, name);
      var armed := s.(attached := true, nextNo := s.nextNo + 1);
      if after == before then armed.(subs := subs)
      else if accepts then armed.(subs := subs, bridge := s.bridge[name := after.value])
      else
        var back := Dropped(subs, name, Some(sub.no));
        armed.(subs := back, attached := back != map[])
  }

  function Off(s: State, name: string, no: Option<nat>, accepts: bool): State {
    var before, subs := EffectiveArgs(s.subs, name), Dropped(s.subs, name, no);
    var after := EffectiveArgs(subs, name);
    if before.None? then s.(subs := subs)
    else
      var s1 := s.(subs := subs, attached := s.attached && subs != map[]);
      if after.None? then s1.(bridge := s.bridge - {name})
      else if after != before && accepts then s1.(bridge := s.bridge[name := after.value])
      else s1
  }

  function Close(s: State): State {
    s.(subs := map[], attached := false, bridge := s.bridge - s.subs.Keys)
  }

  /** The session forgets the handle and its subscriptions; nobody tells the registrations. */
  function Forget(s: State): State {
    s.(bridge := map[], live := false, pending := false)
  }

  /** `ole_release` of the object. A root's release may be answered with a pending cleanup (`asks`); the
      handle then stays until that is acknowledged, or until it is released again. */
  function Release(s: State, asks: bool): State {
    if asks && s.live then s.(pending := true) else Forget(s)
  }

  function Acknowledge(s: State): State {
    if s.pending then Forget(s) else s
  }

  // --- agreement ------------------------------------------------------------------------------

  /** What the bridge's table has to be: derived from the registrations. */
  function Derived(subs: Subs): map<string, bool> {
    map name | name in subs :: WantsArgs(subs[name])
  }

  /** The bridge's flags are the union of what the live callbacks want, absent exactly where there are
      none, and the object is attached exactly while it has a registration. */
  ghost predicate Agrees(s: State) {
    && s.bridge == Derived(s.subs)
    && (s.attached <==> s.subs != map[])
    && Numbered(s)
  }

  ghost predicate Numbered(s: State) {
    && (forall name <- s.subs :: s.subs[name] != [])
    && (forall name <- s.subs :: forall x <- s.subs[name] :: x.no < s.nextNo)
  }

  /** Registrations remain, but the one that wanted arguments is among those removed. */
  predicate Narrows(s: State, name: string, no: Option<nat>) {
    && EffectiveArgs(s.subs, name) == Some(true)
    && EffectiveArgs(Dropped(s.subs, name, no), name) == Some(false)
  }

  lemma {:induction false} WithoutNew(q: seq<Sub>, sub: Sub)
    requires forall x <- q :: x.no != sub.no
    ensures Without(q + [sub], sub.no) == q
    decreases |q|
  {
    if q == [] {
      assert ([] + [sub])[1..] == [];
    } else {
      assert (q + [sub])[1..] == q[1..] + [sub];
      WithoutNew(q[1..], sub);
    }
  }

  lemma {:induction false} WithoutIsPart(q: seq<Sub>, no: nat)
    ensures forall x :: x in Without(q, no) <==> x in q && x.no != no
    decreases |q|
  {
    if q != [] {
      WithoutIsPart(q[1..], no);
    }
  }

  lemma {:induction false} WithoutOne(front: seq<Sub>, x: Sub, back: seq<Sub>)
    requires forall y <- front + back :: y.no != x.no
    ensures Without(front + [x] + back, x.no) == front + back
    decreases |front| + |back|
  {
    if front != [] {
      assert (front + [x] + back)[1..] == front[1..] + [x] + back;
      assert front + back == [front[0]] + (front[1..] + back);
      assert front[0] in front + back;
      WithoutOne(front[1..], x, back);
    } else {
      assert (front + [x] + back)[1..] == back && front + back == back;
      WithoutNone(back, x.no);
    }
  }

  lemma {:induction false} WithoutNone(q: seq<Sub>, no: nat)
    requires forall y <- q :: y.no != no
    ensures Without(q, no) == q
  {
    if q != [] {
      WithoutNone(q[1..], no);
    }
  }

  /** An `off` takes the one registration it names out of its place, or every one of the name; the others,
      and every other name's, stay as they were. */
  lemma OffTakesOnly(s: State, name: string, front: seq<Sub>, x: Sub, back: seq<Sub>, accepts: bool)
    requires Regs(s.subs, name) == front + [x] + back && forall y <- front + back :: y.no != x.no
    ensures forall other | other != name, no ::
      Regs(Off(s, name, no, accepts).subs, other) == Regs(s.subs, other)
    ensures Regs(Off(s, name, Some(x.no), accepts).subs, name) == front + back
    ensures name !in Off(s, name, None, accepts).subs
  {
    WithoutOne(front, x, back);
  }

  /** A registration more: only its own name's flag can change. */
  lemma AddedDerives(s: State, name: string, args: bool)
    requires Numbered(s)
    ensures var sub := Sub(s.nextNo, args); var subs := Added(s.subs, name, sub);
      && Derived(subs) == Derived(s.subs)[name := WantsArgs(subs[name])]
      && Numbered(s.(subs := subs, nextNo := s.nextNo + 1))
  {
  }

  /** And the refused one can be taken back without a trace. */
  lemma AddedDropped(s: State, name: string, args: bool)
    requires Numbered(s)
    ensures var sub := Sub(s.nextNo, args); Dropped(Added(s.subs, name, sub), name, Some(sub.no)) == s.subs
  {
    WithoutNew(Regs(s.subs, name), Sub(s.nextNo, args));
  }

  lemma AgreesIsNumbered(s: State)
    requires Agrees(s)
    ensures Numbered(s)
  {
  }

  lemma OnKeepsAgreement(s: State, name: string, args: bool, attachOk: bool, accepts: bool)
    requires Agrees(s)
    ensures Agrees(On(s, name, args, attachOk, accepts))
  {
    hide WantsArgs, Dropped;
    AddedDerives(s, name, args);
    AddedDropped(s, name, args);
    var subs := Added(s.subs, name, Sub(s.nextNo, args));
    assert name in s.subs ==> Derived(s.subs)[name] == WantsArgs(s.subs[name]);
    if EffectiveArgs(subs, name) == EffectiveArgs(s.subs, name) {
      assert Derived(subs) == Derived(s.subs);
    }
  }

  /** Registrations fewer: only their own name's flag can change, and only downwards. */
  lemma DroppedDerives(s: State, name: string, no: Option<nat>)
    requires Numbered(s)
    ensures var subs := Dropped(s.subs, name, no);
      && Numbered(s.(subs := subs))
      && Derived(subs) ==
        (if name in subs then Derived(s.subs)[name := WantsArgs(subs[name])] else Derived(s.subs) - {name})
      && (name in subs ==> name in s.subs && (WantsArgs(subs[name]) ==> WantsArgs(s.subs[name])))
  {
    if name in s.subs && no.Some? {
      WithoutIsPart(s.subs[name], no.value);
    }
  }

  /** An `off` keeps the agreement unless it narrows the flag and the bridge refuses that; then the
      agreement is lost, and only then. */
  lemma OffKeepsAgreementIff(s: State, name: string, no: Option<nat>, accepts: bool)
    requires Agrees(s)
    ensures Agrees(Off(s, name, no, accepts)) <==> (Narrows(s, name, no) ==> accepts)
  {
    hide WantsArgs, Dropped;
    var subs := Dropped(s.subs, name, no);
    DroppedDerives(s, name, no);
    if name in s.subs {
      assert Derived(s.subs)[name] == WantsArgs(s.subs[name]);
      assert Numbered(Off(s, name, no, accepts));
      if name in subs {
        assert Derived(subs)[name] == WantsArgs(subs[name]);
      }
    } else {
      NothingToDrop(s, name, no);
    }
  }

  lemma NothingToDrop(s: State, name: string, no: Option<nat>)
    requires name !in s.subs
    ensures Dropped(s.subs, name, no) == s.subs
  {
  }

  lemma CloseKeepsAgreement(s: State)
    requires Agrees(s)
    ensures Agrees(Close(s)) && Close(s).bridge == map[]
  {
  }

  /** A release keeps the agreement exactly when it leaves the handle for a pending cleanup, or no
      registration is left; and the acknowledgement of that cleanup, exactly when none is. */
  lemma ReleaseKeepsAgreementIff(s: State, asks: bool)
    requires Agrees(s)
    ensures Agrees(Release(s, asks)) <==> (asks && s.live) || s.subs == map[]
    ensures Agrees(Acknowledge(s)) <==> !s.pending || s.subs == map[]
  {
    if s.subs == map[] {
      assert Derived(s.subs) == map[];
    } else {
      var name :| name in s.subs;
      assert name in Derived(s.subs);
    }
  }

  // --- over runs, with the bridge's own rule for refusals --------------------------------------

  datatype Action =
    | DoOn(name: string, args: bool, attachOk: bool, adviseOk: bool)
    | DoOff(name: string, no: Option<nat>)
    | DoClose
    | DoRelease(asks: bool)
    | DoAcknowledge

  /** The bridge refuses a subscribe when the session does not know the handle, and when it has to
      advise the object first, and cannot. */
  predicate Accepts(s: State, adviseOk: bool) {
    s.live && (s.bridge != map[] || adviseOk)
  }

  function Next(s: State, a: Action): State {
    match a
    case DoOn(name, args, attachOk, adviseOk) => On(s, name, args, attachOk, Accepts(s, adviseOk))
    case DoOff(name, no) => Off(s, name, no, Accepts(s, false))
    case DoClose => Close(s)
    case DoRelease(asks) => Release(s, asks)
    case DoAcknowledge => Acknowledge(s)
  }

  function Run(s: State, actions: seq<Action>): State
    decreases |actions|
  {
    if actions == [] then s else Run(Next(s, actions[0]), actions[1..])
  }

  /** While the handle is live the two sides agree; afterwards the bridge has nothing for it. */
  ghost predicate Kept(s: State) {
    && Numbered(s) && (s.attached <==> s.subs != map[])
    && s.bridge == if s.live then Derived(s.subs) else map[]
  }

  lemma OnAfterRelease(s: State, name: string, args: bool, attachOk: bool)
    requires Kept(s) && !s.live
    ensures Kept(On(s, name, args, attachOk, false))
  {
    hide WantsArgs, Dropped, Derived;
    AddedDerives(s, name, args);
    AddedDropped(s, name, args);
  }

  lemma OffAfterRelease(s: State, name: string, no: Option<nat>)
    requires Kept(s) && !s.live
    ensures Kept(Off(s, name, no, false))
  {
    hide WantsArgs, Derived;
    DroppedDerives(s, name, no);
  }

  lemma NextKeeps(s: State, a: Action)
    requires Kept(s)
    ensures Kept(Next(s, a))
  {
    if s.live {
      match a {
        case DoOn(name, args, attachOk, adviseOk) => OnKeepsAgreement(s, name, args, attachOk, Accepts(s, adviseOk));
        case DoOff(name, no) =>
          OffKeepsAgreementIff(s, name, no, Accepts(s, false));
          assert name in s.subs ==> name in s.bridge;
        case DoClose => CloseKeepsAgreement(s);
        case DoRelease(_) =>
        case DoAcknowledge =>
      }
    } else {
      match a {
        case DoOn(name, args, attachOk, adviseOk) => OnAfterRelease(s, name, args, attachOk);
        case DoOff(name, no) => OffAfterRelease(s, name, no);
        case DoClose =>
        case DoRelease(_) =>
        case DoAcknowledge =>
      }
    }
  }

  lemma {:induction false} RunKeeps(s: State, actions: seq<Action>)
    requires Kept(s)
    ensures Kept(Run(s, actions))
    decreases |actions|
  {
    if actions != [] {
      NextKeeps(s, actions[0]);
      RunKeeps(Next(s, actions[0]), actions[1..]);
    }
  }

  /** After any sequence of `on`, `off`, `close` and releases, some of them refused: the object is
      attached exactly while it has a registration, and the bridge's flags are those of the
      registrations exactly while the handle is live, or when no registration is left. */
  lemma BridgeFollowsRegistrations(actions: seq<Action>)
    ensures var s := Run(INIT, actions);
      && (s.attached <==> s.subs != map[])
      && (s.live ==> s.bridge.Keys == s.subs.Keys)
      && (s.live ==> forall name <- s.subs :: s.bridge[name] <==> exists x <- s.subs[name] :: x.args)
      && (s.bridge == Derived(s.subs) <==> s.live || s.subs == map[])
      && (!s.live ==> s.bridge == map[])
      && (s.live <==> NeverForgotten(INIT, actions))
  {
    assert Derived(map[]) == map[];
    RunKeeps(INIT, actions);
    var s := Run(INIT, actions);
    if s.subs != map[] {
      var name :| name in s.subs;
      assert name in Derived(s.subs);
    }
    LiveUntilReleased(INIT, actions);
  }

  /** No release was answered without a pending cleanup, and no pending cleanup was acknowledged. */
  ghost predicate NeverForgotten(s: State, actions: seq<Action>)
    decreases |actions|
  {
    actions == [] ||
    (&& actions[0] != DoRelease(false) && !(actions[0].DoAcknowledge? && s.pending)
     && NeverForgotten(Next(s, actions[0]), actions[1..]))
  }

  lemma {:induction false} LiveUntilReleased(s: State, actions: seq<Action>)
    ensures Run(s, actions).live <==> s.live && NeverForgotten(s, actions)
    decreases |actions|
  {
    if actions != [] {
      LiveUntilReleased(Next(s, actions[0]), actions[1..]);
    }
  }

  // --- the rule is the session's --------------------------------------------------------------

  /** For a handle that the session knows and that is not an event argument, its answer and its table
      are those used here. */
  lemma SessionAnswers(t: T.Table, handle: nat, s: State, name: string, flag: bool, adviseOk: bool)
    requires T.Inv(t) && handle in t.handles && !T.IsEventArgument(t, handle)
    requires s.live && s.bridge == T.NamesOf(t, handle)
    ensures T.SubscribeResultOf(t, handle, adviseOk).Done? <==> Accepts(s, adviseOk)
    ensures T.NamesOf(T.Subscribe(t, handle, name, flag, adviseOk), handle)
      == if Accepts(s, adviseOk) then s.bridge[name := flag] else s.bridge
    ensures T.NamesOf(T.Unsubscribe(t, handle, name), handle) == s.bridge - {name}
    ensures handle !in T.Forget(t, handle).handles && T.NamesOf(T.Forget(t, handle), handle) == Forget(s).bridge
  {
  }

  /** For a handle it has forgotten, and it never knows it again. */
  lemma SessionForgets(t: T.Table, handle: nat, s: State, c: T.Command, name: string, flag: bool, adviseOk: bool)
    requires T.Inv(t) && handle in t.minted && handle !in t.handles && !s.live && s.bridge == map[]
    requires |T.Next(t, c).minted| <= T.WORD
    ensures !T.SubscribeResultOf(t, handle, adviseOk).Done? && !Accepts(s, adviseOk)
    ensures T.NamesOf(t, handle) == s.bridge && T.Unsubscribe(t, handle, name) == t
    ensures handle in T.Next(t, c).minted && handle !in T.Next(t, c).handles
  {
    T.MintedGrows(t, [c]);
    assert T.Run(t, [c]) == T.Run(T.Next(t, c), []);
    T.ForgottenForEver(t, c, handle);
  }

  /** A root whose release waits for a cleanup is still known, with its subscriptions, and the
      acknowledgement of that very cleanup forgets it. */
  lemma SessionKeepsPendingRoot(t: T.Table, n: nat)
    requires T.Inv(t) && t.root in t.handles
    ensures var t1 := T.Release(t, t.root, T.AskClient);
      t1.root in t1.handles && t1.pending.Some? && T.NamesOf(t1, t.root) == T.NamesOf(t, t.root)
    ensures var t2 := T.ReleaseEvent(t, n);
      if t.pending == Some(n) then t.root !in t2.handles && T.NamesOf(t2, t.root) == map[]
      else T.NamesOf(t2, t.root) == T.NamesOf(t, t.root)
  {
  }
}
