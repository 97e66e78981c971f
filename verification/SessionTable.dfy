/** The tables of one session: handles, what is advised, what is subscribed, and what each event
    minted for its arguments; one function per arm of the command loop. */
module SessionTable {
  import opened Options

  const WORD := 0x1_0000_0000

  /** `minted` is history: every id the session gave out, handles and event numbers alike. */
  datatype Table = Table(
    session: nat,
    root: nat,
    handles: set<nat>,
    advised: set<nat>,
    subs: map<nat, map<string, bool>>,
    eventHandles: map<nat, seq<nat>>,
    pending: Option<nat>,
    ended: bool,
    minted: seq<nat>)

  /** The k-th id: the session's number in the top 32 bits, a 32-bit counter that wraps below. */
  function Id(session: nat, k: nat): nat {
    session * WORD + k % WORD
  }

  function SessionOf(id: nat): nat {
    id / WORD
  }

  function Ids(session: nat, first: nat, n: nat): (ids: seq<nat>)
    ensures |ids| == n && forall k | 0 <= k < n :: ids[k] == Id(session, first + k)
    decreases n
  {
    if n == 0 then [] else [Id(session, first)] + Ids(session, first + 1, n - 1)
  }

  function Fresh(t: Table, n: nat): seq<nat> {
    Ids(t.session, |t.minted|, n)
  }

  function Range(ids: seq<nat>): set<nat> {
    set id | id in ids
  }

  function Open(session: nat): Table {
    Table(session, Id(session, 0), {Id(session, 0)}, {}, map[], map[], None, false, [Id(session, 0)])
  }

  function MintHandles(t: Table, n: nat): Table {
    t.(handles := t.handles + Range(Fresh(t, n)), minted := t.minted + Fresh(t, n))
  }

  function Forget(t: Table, handle: nat): Table {
    t.(handles := t.handles - {handle}, subs := t.subs - {handle}, advised := t.advised - {handle})
  }

  // --- the arms -------------------------------------------------------------------------------

  /** An invoke that succeeded mints one handle for every object in its result. */
  function Invoke(t: Table, handle: nat, succeeds: bool, objects: nat): Table {
    if handle !in t.handles || !succeeds then t else MintHandles(t, objects)
  }

  /** What the registry decided about a release of the root; `Plain` for every other release. */
  datatype RootRelease = Plain | AskClient | Leave

  function Release(t: Table, handle: nat, root: RootRelease): Table {
    match root
    case AskClient => t.(pending := Some(Id(t.session, |t.minted|)), minted := t.minted + [Id(t.session, |t.minted|)])
    case Leave => Forget(t, handle).(ended := true)
    case Plain => Forget(t, handle).(ended := t.handles <= {handle})
  }

  datatype SubscribeResult = Done | StaleReference | EventArgument | AdviseFailed

  predicate IsEventArgument(t: Table, handle: nat) {
    exists n <- t.eventHandles :: handle in t.eventHandles[n]
  }

  function SubscribeResultOf(t: Table, handle: nat, adviseOk: bool): SubscribeResult {
    if handle !in t.handles then StaleReference
    else if IsEventArgument(t, handle) then EventArgument
    else if handle !in t.advised && !adviseOk then AdviseFailed
    else Done
  }

  function NamesOf(t: Table, handle: nat): map<string, bool> {
    if handle in t.subs then t.subs[handle] else map[]
  }

  function Subscribe(t: Table, handle: nat, event: string, args: bool, adviseOk: bool): Table {
    if !SubscribeResultOf(t, handle, adviseOk).Done? then t
    else t.(advised := t.advised + {handle}, subs := t.subs[handle := NamesOf(t, handle)[event := args]])
  }

  function Unsubscribe(t: Table, handle: nat, event: string): Table {
    var names := NamesOf(t, handle) - {event};
    if handle !in t.subs then t
    else if names == map[] then t.(subs := t.subs - {handle}, advised := t.advised - {handle})
    else t.(subs := t.subs[handle := names])
  }

  function HandlesOf(t: Table, n: nat): seq<nat> {
    if n in t.eventHandles then t.eventHandles[n] else []
  }

  function ReleaseEvent(t: Table, n: nat): Table {
    if t.pending == Some(n) then Forget(t, t.root).(ended := true)
    else t.(handles := t.handles - Range(HandlesOf(t, n)), eventHandles := t.eventHandles - {n})
  }

  /** A raw callback: forwarded only when its name is subscribed; handles are minted for its object
      arguments only when the subscription asked for them. */
  predicate Forwards(t: Table, handle: nat, event: string) {
    handle in t.advised && handle in t.subs && event in t.subs[handle]
  }

  function RawEvent(t: Table, handle: nat, event: string, objects: nat): Table {
    if !Forwards(t, handle, event) then t
    else
      var n := Id(t.session, |t.minted|);
      var t1 := t.(minted := t.minted + [n]);
      if !t.subs[handle][event] || objects == 0 then t1
      else MintHandles(t1, objects).(eventHandles := t.eventHandles[n := Fresh(t1, objects)])
  }

  datatype Command =
    | DoInvoke(handle: nat, succeeds: bool, objects: nat)
    | DoRelease(handle: nat, root: RootRelease)
    | DoSubscribe(handle: nat, event: string, args: bool, adviseOk: bool)
    | DoUnsubscribe(handle: nat, event: string)
    | DoReleaseEvent(n: nat)
    | DoRawEvent(handle: nat, event: string, objects: nat)

  /** Only a release of the root consults the registry, and it always does in a session that takes
      part in it: then the table is never emptied by a plain release. */
  function Next(t: Table, c: Command): Table {
    if t.ended then t
    else
      match c
      case DoInvoke(h, ok, n) => Invoke(t, h, ok, n)
      case DoRelease(h, r) => if !r.Plain? && h != t.root then t else Release(t, h, r)
      case DoSubscribe(h, e, a, ok) => Subscribe(t, h, e, a, ok)
      case DoUnsubscribe(h, e) => Unsubscribe(t, h, e)
      case DoReleaseEvent(n) => ReleaseEvent(t, n)
      case DoRawEvent(h, e, n) => RawEvent(t, h, e, n)
  }

  function Run(t: Table, commands: seq<Command>): Table
    decreases |commands|
  {
    if commands == [] then t else Run(Next(t, commands[0]), commands[1..])
  }

  // --- ids ------------------------------------------------------------------------------------

  /** Two ids of one session are equal exactly when their counters agree on 32 bits, and every id
      carries its session in its top 32 bits. */
  lemma IdsCollideByWord(session: nat, j: nat, k: nat)
    ensures Id(session, j) == Id(session, k) <==> j % 0x1_0000_0000 == k % 0x1_0000_0000
    ensures SessionOf(Id(session, k)) == session == Id(session, k) / 0x1_0000_0000
  {
  }

  /** The ids are the counter's values, in order. */
  ghost predicate Counted(t: Table) {
    forall k | 0 <= k < |t.minted| :: t.minted[k] == Id(t.session, k)
  }

  lemma NewId(t: Table, k: nat)
    requires Counted(t) && |t.minted| <= k < WORD
    ensures Id(t.session, k) !in t.minted
  {
    forall j | 0 <= j < |t.minted| ensures t.minted[j] != Id(t.session, k) {
      IdsCollideByWord(t.session, j, k);
    }
  }

  lemma NewIds(t: Table, n: nat)
    requires Counted(t) && |t.minted| + n <= WORD
    ensures forall id <- Fresh(t, n) :: id !in t.minted
  {
    forall id <- Fresh(t, n) ensures id !in t.minted {
      var k :| 0 <= k < n && Fresh(t, n)[k] == id;
      NewId(t, |t.minted| + k);
    }
  }

  // --- the invariant --------------------------------------------------------------------------

  ghost predicate Inv(t: Table) {
    && t.advised == t.subs.Keys <= t.handles
    && (forall h <- t.subs :: t.subs[h] != map[])
    && (forall n <- t.eventHandles ::
          n in t.minted && forall id <- t.eventHandles[n] :: id in t.minted && id !in t.subs)
    && t.handles <= Range(t.minted) && t.root in t.minted
    && Counted(t)
  }

  lemma MintKeepsInv(t: Table, n: nat)
    requires Inv(t) && |t.minted| + n <= WORD
    ensures Inv(MintHandles(t, n))
  {
  }

  lemma NumberKeepsInv(t: Table)
    requires Inv(t) && |t.minted| < WORD
    ensures Inv(t.(minted := t.minted + [Id(t.session, |t.minted|)]))
  {
  }

  lemma RawEventKeepsInv(t: Table, handle: nat, event: string, objects: nat)
    requires Inv(t) && |RawEvent(t, handle, event, objects).minted| <= WORD
    ensures Inv(RawEvent(t, handle, event, objects))
  {
    if Forwards(t, handle, event) {
      var n := Id(t.session, |t.minted|);
      var t1 := t.(minted := t.minted + [n]);
      NumberKeepsInv(t);
      if t.subs[handle][event] && objects > 0 {
        MintKeepsInv(t1, objects);
        NewIds(t1, objects);
        var t2 := MintHandles(t1, objects);
        assert forall id <- Fresh(t1, objects) :: id in t2.minted && id !in t.subs;
      }
    }
  }

  lemma NextKeepsInv(t: Table, c: Command)
    requires Inv(t) && |Next(t, c).minted| <= WORD
    ensures Inv(Next(t, c))
  {
    if !t.ended && Next(t, c) != t {
      match c
      case DoInvoke(h, ok, n) => MintKeepsInv(t, n);
      case DoRelease(h, r) => ReleaseKeepsInv(t, h, r);
      case DoSubscribe(h, e, a, ok) => SubscribeKeepsInv(t, h, e, a, ok);
      case DoUnsubscribe(h, e) => UnsubscribeKeepsInv(t, h, e);
      case DoReleaseEvent(n) => ReleaseEventKeepsInv(t, n);
      case DoRawEvent(h, e, n) => RawEventKeepsInv(t, h, e, n);
    }
  }

  lemma ReleaseKeepsInv(t: Table, handle: nat, root: RootRelease)
    requires Inv(t) && |Release(t, handle, root).minted| <= WORD
    ensures Inv(Release(t, handle, root))
  {
  }

  lemma UnsubscribeKeepsInv(t: Table, handle: nat, event: string)
    requires Inv(t)
    ensures Inv(Unsubscribe(t, handle, event))
  {
  }

  lemma ReleaseEventKeepsInv(t: Table, n: nat)
    requires Inv(t)
    ensures Inv(ReleaseEvent(t, n))
  {
  }

  lemma SubscribeKeepsInv(t: Table, handle: nat, event: string, args: bool, adviseOk: bool)
    requires Inv(t)
    ensures Inv(Subscribe(t, handle, event, args, adviseOk))
  {
    var t' := Subscribe(t, handle, event, args, adviseOk);
    if t' != t {
      assert event in t'.subs[handle];
    }
  }

  /** No command takes an id back, or changes one. */
  lemma {:induction false} MintedGrows(t: Table, commands: seq<Command>)
    ensures t.minted <= Run(t, commands).minted && Run(t, commands).session == t.session
    decreases |commands|
  {
    if commands != [] {
      MintedGrows(Next(t, commands[0]), commands[1..]);
    }
  }

  lemma {:induction false} RunKeepsInv(t: Table, commands: seq<Command>)
    requires Inv(t) && |Run(t, commands).minted| <= WORD
    ensures Inv(Run(t, commands))
    decreases |commands|
  {
    if commands != [] {
      MintedGrows(Next(t, commands[0]), commands[1..]);
      NextKeepsInv(t, commands[0]);
      RunKeepsInv(Next(t, commands[0]), commands[1..]);
    }
  }

  /** An id that was given out and is not held is never held again. */
  lemma ForgottenForEver(t: Table, c: Command, id: nat)
    requires Inv(t) && id in t.minted && id !in t.handles && |Next(t, c).minted| <= WORD
    ensures id !in Next(t, c).handles
  {
    match c
    case DoInvoke(h, ok, n) =>
      if Next(t, c) != t {
        NewIds(t, n);
      }
    case DoRawEvent(h, e, n) =>
      if Next(t, c) != t && t.subs[h][e] && n > 0 {
        var t1 := t.(minted := t.minted + [Id(t.session, |t.minted|)]);
        NewIds(t1, n);
      }
    case _ =>
  }

  // --- what is held, and until when -----------------------------------------------------------

  /** The handles an answer or an event frame carries. */
  function GivenOut(t: Table, c: Command): seq<nat> {
    match c
    case DoInvoke(h, ok, n) => if !t.ended && h in t.handles && ok then Fresh(t, n) else []
    case DoRawEvent(h, e, n) =>
      if !t.ended && Forwards(t, h, e) && t.subs[h][e] then Ids(t.session, |t.minted| + 1, n) else []
    case _ => []
  }

  /** A release of that handle, the `release_event` of the event it came with, or, for the root, the
      answer to the pending cleanup. A release that only asks the client lets go of nothing. */
  predicate LetsGo(t: Table, c: Command, id: nat) {
    match c
    case DoRelease(h, r) => h == id && (r.Plain? || (r.Leave? && h == t.root))
    case DoReleaseEvent(n) => if t.pending == Some(n) then id == t.root else id in HandlesOf(t, n)
    case _ => false
  }

  predicate Released(t: Table, commands: seq<Command>, id: nat)
    decreases |commands|
  {
    commands != []
    && ((!t.ended && LetsGo(t, commands[0], id)) || Released(Next(t, commands[0]), commands[1..], id))
  }

  lemma NextReleases(t: Table, c: Command, id: nat)
    requires id in t.handles
    ensures id in Next(t, c).handles <==> t.ended || !LetsGo(t, c, id)
  {
  }

  /** The first of several commands keeps the tables too. */
  lemma FirstKeepsInv(t: Table, commands: seq<Command>)
    requires Inv(t) && |Run(t, commands).minted| <= WORD && commands != []
    ensures var t1 := Next(t, commands[0]);
      Inv(t1) && t.minted <= t1.minted && |t1.minted| <= WORD && Run(t, commands) == Run(t1, commands[1..])
  {
    hide Inv, Next;
    MintedGrows(Next(t, commands[0]), commands[1..]);
    MintedGrows(t, [commands[0]]);
    assert Run(t, [commands[0]]) == Next(t, commands[0]) by {
      assert [commands[0]][1..] == [];
    }
    NextKeepsInv(t, commands[0]);
  }

  lemma {:induction false} NeverAgain(t: Table, commands: seq<Command>, id: nat)
    requires Inv(t) && id in t.minted && id !in t.handles && |Run(t, commands).minted| <= WORD
    ensures id !in Run(t, commands).handles
    decreases |commands|
  {
    hide Inv, Next;
    if commands != [] {
      FirstKeepsInv(t, commands);
      ForgottenForEver(t, commands[0], id);
      NeverAgain(Next(t, commands[0]), commands[1..], id);
    }
  }

  lemma HeldIsMinted(t: Table, id: nat)
    requires Inv(t) && id in t.handles
    ensures id in t.minted
  {
  }

  lemma {:induction false} HeldTillReleased(t: Table, commands: seq<Command>, id: nat)
    requires Inv(t) && id in t.handles && |Run(t, commands).minted| <= WORD
    ensures id in Run(t, commands).handles <==> !Released(t, commands, id)
    decreases |commands|
  {
    hide Inv, Next, LetsGo;
    if commands != [] {
      FirstKeepsInv(t, commands);
      HeldIsMinted(t, id);
      NextReleases(t, commands[0], id);
      if id in Next(t, commands[0]).handles {
        HeldTillReleased(Next(t, commands[0]), commands[1..], id);
      } else {
        NeverAgain(Next(t, commands[0]), commands[1..], id);
      }
    }
  }

  lemma GivenOutIsHeld(t: Table, c: Command, id: nat)
    requires id in GivenOut(t, c)
    ensures id in Next(t, c).handles
  {
  }

  /** Over every run: a handle given out, by an answer or with an event, is held at once, and is held
      from then on exactly until something lets go of it. */
  lemma HeldExactlyTillReleased(session: nat, before: seq<Command>, c: Command, after: seq<Command>, id: nat)
    requires var t := Run(Open(session), before);
      id in GivenOut(t, c) && |Run(Next(t, c), after).minted| <= 0x1_0000_0000
    ensures var t := Next(Run(Open(session), before), c);
      && id in t.handles
      && (id in Run(t, after).handles <==> !Released(t, after, id))
  {
    var t, more := Run(Open(session), before), [c] + after;
    assert more[1..] == after;
    hide Inv, Next, LetsGo, GivenOut, Released;
    MintedGrows(t, more);
    OpenKeeps(session, before);
    FirstKeepsInv(t, more);
    GivenOutIsHeld(t, c, id);
    HeldTillReleased(Next(t, c), after, id);
  }

  /** An event's handles are filed under its number, which nothing was filed under before. */
  lemma EventIsFiled(t: Table, handle: nat, event: string, objects: nat)
    requires Inv(t) && |t.minted| < 0x1_0000_0000 && !t.ended
    ensures var c, n := DoRawEvent(handle, event, objects), Id(t.session, |t.minted|);
      && HandlesOf(t, n) == [] && HandlesOf(Next(t, c), n) == GivenOut(t, c)
      && (GivenOut(t, c) != [] ==> Next(t, c).minted == t.minted + [n] + GivenOut(t, c))
  {
    var n := Id(t.session, |t.minted|);
    assert n !in t.eventHandles by {
      NewId(t, |t.minted|);
    }
    hide Inv, Ids, Range;
    if Forwards(t, handle, event) && t.subs[handle][event] {
      var t1 := t.(minted := t.minted + [n]);
      assert GivenOut(t, DoRawEvent(handle, event, objects)) == Fresh(t1, objects);
      assert |Fresh(t1, objects)| == objects;
    }
  }

  lemma OpenKeeps(session: nat, commands: seq<Command>)
    requires |Run(Open(session), commands).minted| <= WORD
    ensures Inv(Run(Open(session), commands))
  {
    RunKeepsInv(Open(session), commands);
  }

  lemma NextFiles(t: Table, c: Command, n: nat)
    requires Inv(t) && n in t.eventHandles && c != DoReleaseEvent(n) && |Next(t, c).minted| <= WORD
    ensures n in Next(t, c).eventHandles && Next(t, c).eventHandles[n] == t.eventHandles[n]
  {
    if c.DoRawEvent? && Next(t, c) != t {
      NewId(t, |t.minted|);
    }
  }

  /** What an event brought stays filed under its number until that number is released. */
  lemma {:induction false} FiledTillReleased(t: Table, commands: seq<Command>, n: nat)
    requires Inv(t) && n in t.eventHandles && |Run(t, commands).minted| <= WORD
    requires DoReleaseEvent(n) !in commands
    ensures HandlesOf(Run(t, commands), n) == HandlesOf(t, n)
    decreases |commands|
  {
    hide Inv, Next;
    if commands != [] {
      FirstKeepsInv(t, commands);
      NextFiles(t, commands[0], n);
      FiledTillReleased(Next(t, commands[0]), commands[1..], n);
    }
  }

  /** The object a command is about, as far as subscriptions go. */
  predicate About(t: Table, c: Command, handle: nat) {
    match c
    case DoRelease(h, r) => h == handle
    case DoSubscribe(h, _, _, _) => h == handle
    case DoUnsubscribe(h, _) => h == handle
    case DoReleaseEvent(n) => t.pending == Some(n) && handle == t.root
    case _ => false
  }

  /** No command touches the subscriptions of an object it is not about. */
  lemma OthersKeepTheirEvents(t: Table, c: Command, other: nat)
    requires !About(t, c, other)
    ensures NamesOf(Next(t, c), other) == NamesOf(t, other)
    ensures other in Next(t, c).advised <==> other in t.advised
  {
  }

  /** A subscribe that succeeds and an unsubscribe settle their own name, and leave the object's others. */
  lemma OneNameAtATime(t: Table, handle: nat, event: string, args: bool, adviseOk: bool)
    ensures var t' := Next(t, DoSubscribe(handle, event, args, adviseOk));
      && NamesOf(t', handle) - {event} == NamesOf(t, handle) - {event}
      && (!t.ended && SubscribeResultOf(t, handle, adviseOk).Done? ==>
            handle in t'.advised && event in NamesOf(t', handle) && NamesOf(t', handle)[event] == args)
    ensures !t.ended ==> NamesOf(Next(t, DoUnsubscribe(handle, event)), handle) == NamesOf(t, handle) - {event}
  {
  }

  lemma MintedOnce(t: Table, i: nat, j: nat)
    requires Counted(t) && i < j < |t.minted| <= WORD
    ensures t.minted[i] != t.minted[j]
  {
    IdsCollideByWord(t.session, i, j);
  }

  lemma IdIsOurs(t: Table, id: nat)
    requires Counted(t) && id in t.minted
    ensures SessionOf(id) == t.session
  {
    var k :| 0 <= k < |t.minted| && t.minted[k] == id;
    IdsCollideByWord(t.session, k, k);
  }

  /** Under every command sequence and event burst that mints no more than 2^32 ids: an object is
      advised exactly while it has a subscription, no event argument is ever subscribed, and no id, of a
      handle or of an event, held or released, is given out twice or carries another session's number. */
  lemma TablesAgree(session: nat, commands: seq<Command>)
    requires |Run(Open(session), commands).minted| <= 0x1_0000_0000
    ensures var t := Run(Open(session), commands);
      && t.advised == t.subs.Keys <= t.handles
      && (forall h <- t.subs :: t.subs[h] != map[])
      && (forall n, id | n in t.eventHandles && id in t.eventHandles[n] :: id !in t.subs)
      && (forall i, j | 0 <= i < j < |t.minted| :: t.minted[i] != t.minted[j])
      && (forall id <- t.minted :: SessionOf(id) == session)
      && (forall h <- t.handles :: h in t.minted)
  {
    RunKeepsInv(Open(session), commands);
    MintedGrows(Open(session), commands);
    var t := Run(Open(session), commands);
    forall i, j | 0 <= i < j < |t.minted| ensures t.minted[i] != t.minted[j] {
      MintedOnce(t, i, j);
    }
    forall id <- t.minted ensures SessionOf(id) == session {
      IdIsOurs(t, id);
    }
  }
}
