/** DISPPARAMS both ways: the list an outgoing call is made of, and the order of the parameters that
    an incoming one is read back into. */
module Arguments {
  import opened Options

  /** Null pointers are None. There may be more names than arguments, and the names that count are then
      as many as there are arguments. */
  datatype Params<T> = Params(args: Option<seq<T>>, names: Option<seq<int>>, named: nat)

  predicate Sound<T>(p: Params<T>) {
    p.names.Some? ==> p.named <= |p.names.value|
  }

  function Count<T>(p: Params<T>): nat {
    if p.args.None? then 0 else |p.args.value|
  }

  function NamedCount<T>(p: Params<T>): nat {
    if p.named < Count(p) then p.named else Count(p)
  }

  /** The ids of the named arguments, as far as they count. */
  function Ids<T>(p: Params<T>): seq<int>
    requires Sound(p) && p.names.Some?
  {
    p.names.value[..NamedCount(p)]
  }

  predicate Distinct(ids: seq<int>) {
    forall i, j | 0 <= i < j < |ids| :: ids[i] != ids[j]
  }

  /** Every id is a parameter position, and none comes twice. */
  predicate Positions(ids: seq<int>, count: nat) {
    Distinct(ids) && forall id <- ids :: 0 <= id < count
  }

  // --- free positions -------------------------------------------------------------------------

  /** The positions below `n` that no id takes, in order. */
  function Free(n: nat, ids: seq<int>): seq<nat> {
    if n == 0 then [] else Free(n - 1, ids) + if n - 1 in ids then [] else [n - 1]
  }

  lemma {:induction false} FreeAt(n: nat, ids: seq<int>, p: nat)
    requires p < n && p !in ids
    ensures |Free(p, ids)| < |Free(n, ids)| && Free(n, ids)[|Free(p, ids)|] == p
  {
    if p < n - 1 {
      FreeAt(n - 1, ids, p);
    }
  }

  lemma {:induction false} FreeAre(n: nat, ids: seq<int>, k: nat)
    requires k < |Free(n, ids)|
    ensures var p := Free(n, ids)[k]; p < n && p !in ids && |Free(p, ids)| == k
  {
    if k < |Free(n - 1, ids)| {
      FreeAre(n - 1, ids, k);
    }
  }

  lemma {:induction false} FreeWithout(n: nat, ids: seq<int>, id: int)
    requires id !in ids
    ensures |Free(n, ids + [id])| == |Free(n, ids)| - if 0 <= id < n then 1 else 0
  {
    if n > 0 {
      FreeWithout(n - 1, ids, id);
    }
  }

  /** As many positions stay free as there are positions without a name. */
  lemma {:induction false} FreeCount(n: nat, ids: seq<int>)
    requires Positions(ids, n)
    ensures |Free(n, ids)| == n - |ids|
    decreases |ids|
  {
    if ids == [] {
      AllFree(n);
    } else {
      var front, last := ids[..|ids| - 1], ids[|ids| - 1];
      assert ids == front + [last] && last in ids && forall id <- front :: id in ids;
      FreeCount(n, front);
      FreeWithout(n, front, last);
    }
  }

  lemma {:induction false} AllFree(n: nat)
    ensures |Free(n, [])| == n
  {
    if n > 0 {
      AllFree(n - 1);
    }
  }

  // --- incoming -------------------------------------------------------------------------------

  /** Named arguments where their ids say, and the rest, last parameter first, in what is left. */
  ghost predicate Placed<T>(all: seq<T>, ids: seq<int>, r: seq<T>) {
    && |r| == |all|
    && (forall i | 0 <= i < |ids| <= |all| :: 0 <= ids[i] < |r| && r[ids[i]] == all[i])
    && (forall p: nat | p < |r| && p !in ids :: |Free(p, ids)| < |all| && r[p] == all[|all| - 1 - |Free(p, ids)|])
  }

  function Flatten<T>(slots: seq<Option<T>>): seq<T> {
    if slots == [] then []
    else (if slots[0].Some? then [slots[0].value] else []) + Flatten(slots[1..])
  }

  lemma {:induction false} FillSlot<T>(slots: seq<Option<T>>, p: nat, v: T)
    requires p < |slots| && slots[p].None?
    ensures multiset(Flatten(slots[p := Some(v)])) == multiset(Flatten(slots)) + multiset{v}
  {
    if p > 0 {
      FillSlot(slots[1..], p - 1, v);
      assert slots[p := Some(v)][1..] == slots[1..][p - 1 := Some(v)];
    } else {
      assert slots[p := Some(v)][1..] == slots[1..];
    }
  }

  lemma {:induction false} FlattenNone<T>(slots: seq<Option<T>>)
    requires forall x <- slots :: x.None?
    ensures Flatten(slots) == []
  {
    if slots != [] {
      assert slots[0] in slots && forall x <- slots[1..] :: x in slots;
      FlattenNone(slots[1..]);
    }
  }

  lemma {:induction false} FlattenAll<T>(slots: seq<Option<T>>)
    requires forall x <- slots :: x.Some?
    ensures |Flatten(slots)| == |slots| && forall i | 0 <= i < |slots| :: Flatten(slots)[i] == slots[i].value
  {
    if slots != [] {
      FlattenAll(slots[1..]);
    }
  }

  lemma OneMorePosition(ids: seq<int>, i: nat, count: nat)
    requires i < |ids| && Positions(ids[..i], count)
    ensures Positions(ids[..i + 1], count) <==> 0 <= ids[i] < count && ids[i] !in ids[..i]
    ensures !Positions(ids[..i + 1], count) ==> !Positions(ids, count)
  {
    var more := ids[..i + 1];
    assert more[i] in more && more[i] in ids && forall id <- more :: id in ids[..i] || id == ids[i];
    assert forall j | 0 <= j < i :: ids[..i][j] == more[j] == ids[j];
    assert forall id <- more :: id in ids;
    if ids[i] in ids[..i] {
      var j :| 0 <= j < i && ids[..i][j] == ids[i];
      assert more[j] == more[i];
    }
    if Positions(ids, count) {
      assert forall j | 0 <= j < i :: ids[j] != ids[i];
    }
  }

  /** The slots after the first `k` named arguments. */
  ghost predicate NamedPlaced<T>(all: seq<T>, ids: seq<int>, slots: seq<Option<T>>) {
    && |ids| <= |all| == |slots|
    && (forall j | 0 <= j < |ids| :: 0 <= ids[j] < |all| && slots[ids[j]] == Some(all[j]))
    && (forall p | 0 <= p < |all| && p !in ids :: slots[p] == None)
  }

  lemma PlaceOne<T>(all: seq<T>, ids: seq<int>, slots: seq<Option<T>>, i: nat)
    requires i < |ids| <= |all| && NamedPlaced(all, ids[..i], slots)
    requires 0 <= ids[i] < |all| && ids[i] !in ids[..i]
    ensures NamedPlaced(all, ids[..i + 1], slots[ids[i] := Some(all[i])])
  {
    assert ids[..i + 1] == ids[..i] + [ids[i]];
    assert forall j | 0 <= j < i :: ids[..i][j] == ids[j] && ids[j] in ids[..i];
  }

  ghost predicate Holds<T>(slots: seq<Option<T>>, vs: seq<T>) {
    multiset(Flatten(slots)) == multiset(vs)
  }

  lemma HoldOneMore<T>(slots: seq<Option<T>>, vs: seq<T>, p: nat, v: T)
    requires p < |slots| && slots[p].None? && Holds(slots, vs)
    ensures Holds(slots[p := Some(v)], vs + [v])
  {
    FillSlot(slots, p, v);
  }

  lemma TakenSlot<T>(all: seq<T>, ids: seq<int>, slots: seq<Option<T>>, p: nat)
    requires p < |all| && NamedPlaced(all, ids, slots)
    ensures slots[p].None? <==> p !in ids
  {
    if p in ids {
      var j :| 0 <= j < |ids| && ids[j] == p;
    }
  }

  lemma NothingPlaced<T>(all: seq<T>, ids: seq<int>, slots: seq<Option<T>>)
    requires |slots| == |all| && forall x <- slots :: x.None?
    ensures NamedPlaced(all, ids[..0], slots) && Holds(slots, all[..0]) && Positions(ids[..0], |all|)
  {
    FlattenNone(slots);
  }

  /** The first pass: `None` as soon as an id is no position, or one that is taken. */
  method PlaceNamed<T>(all: seq<T>, ids: seq<int>) returns (placed: Option<seq<Option<T>>>)
    requires |ids| <= |all|
    ensures placed.Some? <==> Positions(ids, |all|)
    ensures placed.Some? ==> NamedPlaced(all, ids, placed.value) && Holds(placed.value, all[..|ids|])
  {
    hide Positions, NamedPlaced, Holds;
    var slots: seq<Option<T>> := seq(|all|, _ => None);
    NothingPlaced(all, ids, slots);
    for i := 0 to |ids|
      invariant |slots| == |all|
      invariant Positions(ids[..i], |all|) && NamedPlaced(all, ids[..i], slots)
      invariant Holds(slots, all[..i])
    {
      var id := ids[i];
      OneMorePosition(ids, i, |all|);
      if 0 <= id < |all| {
        TakenSlot(all, ids[..i], slots, id);
      }
      if 0 <= id < |all| && slots[id].None? {
        HoldOneMore(slots, all[..i], id, all[i]);
        assert all[..i + 1] == all[..i] + [all[i]];
        PlaceOne(all, ids, slots, i);
        slots := slots[id := Some(all[i])];
      } else {
        return None;
      }
    }
    assert ids[..|ids|] == ids;
    placed := Some(slots);
  }

  /** Where the slots are still empty. */
  method EmptySlots<T>(slots: seq<Option<T>>, ghost ids: seq<int>) returns (free: seq<nat>)
    requires forall p | 0 <= p < |slots| :: slots[p].None? <==> p !in ids
    ensures free == Free(|slots|, ids)
  {
    free := [];
    for p := 0 to |slots|
      invariant free == Free(p, ids)
    {
      if slots[p].None? {
        free := free + [p];
      }
    }
  }

  lemma {:induction false} FreeAscends(n: nat, ids: seq<int>, j: nat, k: nat)
    requires j < k < |Free(n, ids)|
    ensures Free(n, ids)[j] < Free(n, ids)[k]
  {
    FreeAre(n, ids, j);
    FreeAre(n, ids, k);
    if k < |Free(n - 1, ids)| {
      FreeAscends(n - 1, ids, j, k);
    } else {
      FreeAre(n - 1, ids, j);
    }
  }

  /** The slots after `k` steps of the second pass. */
  ghost predicate RestPlaced<T>(all: seq<T>, slots: seq<Option<T>>, free: seq<nat>, k: nat, full: seq<Option<T>>) {
    && k <= |free| <= |all| == |slots| == |full|
    && (forall j | 0 <= j < |free| :: free[j] < |all|)
    && (forall j | 0 <= j < k :: full[free[j]] == Some(all[|all| - 1 - j]))
    && (forall p: nat | p < |all| && p !in free[..k] :: full[p] == slots[p])
  }

  predicate Ascending(free: seq<nat>) {
    forall j, k | 0 <= j < k < |free| :: free[j] < free[k]
  }

  lemma PlaceNext<T>(all: seq<T>, slots: seq<Option<T>>, free: seq<nat>, k: nat, full: seq<Option<T>>)
    requires RestPlaced(all, slots, free, k, full) && k < |free| && Ascending(free)
    ensures full[free[k]] == slots[free[k]]
    ensures RestPlaced(all, slots, free, k + 1, full[free[k] := Some(all[|all| - 1 - k])])
  {
    assert free[..k + 1] == free[..k] + [free[k]];
    assert free[k] !in free[..k] by {
      assert forall j | 0 <= j < k :: free[..k][j] == free[j] < free[k];
    }
  }

  /** `held` is the first `a` of `all`, and its last `k`. */
  ghost predicate Took<T>(all: seq<T>, a: nat, k: nat, held: seq<T>) {
    a <= |all| && k <= |all| && multiset(held) == multiset(all[..a]) + multiset(all[|all| - k..])
  }

  lemma TookNone<T>(all: seq<T>, a: nat)
    requires a <= |all|
    ensures Took(all, a, 0, all[..a])
  {
    assert all[|all|..] == [];
  }

  lemma HoldsSame<T>(slots: seq<Option<T>>, vs: seq<T>, ws: seq<T>)
    requires Holds(slots, vs) && multiset(vs) == multiset(ws)
    ensures Holds(slots, ws)
  {
  }

  lemma TakeOneMore<T>(all: seq<T>, a: nat, k: nat, held: seq<T>)
    requires k < |all| && Took(all, a, k, held)
    ensures Took(all, a, k + 1, held + [all[|all| - 1 - k]])
  {
    var n := |all|;
    assert all[n - (k + 1)..] == [all[n - 1 - k]] + all[n - k..];
  }

  lemma TookAll<T>(all: seq<T>, a: nat, k: nat, held: seq<T>)
    requires a + k == |all| && Took(all, a, k, held)
    ensures multiset(held) == multiset(all)
  {
    assert all[..a] + all[|all| - k..] == all;
  }

  /** The second pass: the positional arguments, from the last to the first, into the free positions
      from the first to the last. */
  method PlaceRest<T>(all: seq<T>, slots: seq<Option<T>>, free: seq<nat>) returns (full: seq<Option<T>>)
    requires RestPlaced(all, slots, free, 0, slots) && Ascending(free)
    requires forall k | 0 <= k < |free| :: slots[free[k]].None?
    requires Holds(slots, all[..|all| - |free|])
    ensures RestPlaced(all, slots, free, |free|, full) && Holds(full, all)
  {
    hide Holds, Took;
    full := slots;
    ghost var a := |all| - |free|;
    ghost var held := all[..a];
    TookNone(all, a);
    for k := 0 to |free|
      invariant RestPlaced(all, slots, free, k, full)
      invariant Holds(full, held) && Took(all, a, k, held)
    {
      var v := all[|all| - 1 - k];
      PlaceNext(all, slots, free, k, full);
      HoldOneMore(full, held, free[k], v);
      TakeOneMore(all, a, k, held);
      held := held + [v];
      full := full[free[k] := Some(v)];
    }
    TookAll(all, a, |free|, held);
    HoldsSame(full, held, all);
  }

  lemma PositionFull<T>(all: seq<T>, ids: seq<int>, slots: seq<Option<T>>, full: seq<Option<T>>, p: nat)
    requires p < |all| && NamedPlaced(all, ids, slots)
    requires var free := Free(|all|, ids); RestPlaced(all, slots, free, |free|, full)
    ensures full[p].Some?
    ensures p in ids ==> full[p] == slots[p]
    ensures p !in ids ==> |Free(p, ids)| < |all| && full[p].value == all[|all| - 1 - |Free(p, ids)|]
  {
    hide Free, NamedPlaced;
    var free := Free(|all|, ids);
    assert free[..|free|] == free;
    if p in ids {
      TakenSlot(all, ids, slots, p);
      if p in free {
        var k :| 0 <= k < |free| && free[k] == p;
        FreeAre(|all|, ids, k);
      }
    } else {
      FreeAt(|all|, ids, p);
    }
  }

  /** Both passes together. */
  lemma BothPasses<T>(all: seq<T>, ids: seq<int>, slots: seq<Option<T>>, full: seq<Option<T>>)
    requires NamedPlaced(all, ids, slots)
    requires var free := Free(|all|, ids); RestPlaced(all, slots, free, |free|, full)
    ensures Placed(all, ids, Flatten(full))
  {
    hide Flatten, Free;
    forall p: nat | p < |all| ensures full[p].Some? {
      PositionFull(all, ids, slots, full, p);
    }
    FlattenAll(full);
    forall i | 0 <= i < |ids| ensures Flatten(full)[ids[i]] == all[i] {
      assert ids[i] in ids;
      PositionFull(all, ids, slots, full, ids[i]);
    }
    forall p: nat | p < |all| && p !in ids
      ensures |Free(p, ids)| < |all| && Flatten(full)[p] == all[|all| - 1 - |Free(p, ids)|]
    {
      PositionFull(all, ids, slots, full, p);
    }
  }

  /** The arguments in the order of the parameters; as they came when the ids are not positions. There
      is nothing else that can go wrong: no argument is ever lost or doubled. */
  method OrderedArgs<T>(p: Params<T>) returns (r: seq<T>)
    requires Sound(p)
    ensures p.args.None? ==> r == []
    ensures p.args.Some? ==> multiset(r) == multiset(p.args.value)
    ensures p.args.Some? && NamedCount(p) == 0 ==> Placed(p.args.value, [], r)
    ensures p.args.Some? && NamedCount(p) > 0 ==>
      if p.names.Some? && Positions(Ids(p), Count(p)) then Placed(p.args.value, Ids(p), r) else r == p.args.value
  {
    if p.args.None? {
      return [];
    }
    var all := p.args.value;
    var named := NamedCount(p);
    if named > 0 && p.names.None? {
      return all;
    }
    var ids := if named == 0 then [] else p.names.value[..named];
    r := Order(all, ids);
  }

  method Order<T>(all: seq<T>, ids: seq<int>) returns (r: seq<T>)
    requires |ids| <= |all|
    ensures multiset(r) == multiset(all)
    ensures if Positions(ids, |all|) then Placed(all, ids, r) else r == all
  {
    var placed := PlaceNamed(all, ids);
    if placed.None? {
      return all;
    }
    var slots := placed.value;
    forall p: nat | p < |all| ensures slots[p].None? <==> p !in ids {
      TakenSlot(all, ids, slots, p);
    }
    var free := EmptySlots(slots, ids);
    // As many are free as there are positional arguments, so the length never fails to match.
    FreeCount(|all|, ids);
    FreeSlots(all, ids, slots);
    var full := PlaceRest(all, slots, free);
    BothPasses(all, ids, slots, full);
    r := Flatten(full);
  }

  lemma FreeSlots<T>(all: seq<T>, ids: seq<int>, slots: seq<Option<T>>)
    requires NamedPlaced(all, ids, slots)
    ensures var free := Free(|all|, ids);
      && (forall k | 0 <= k < |free| :: free[k] < |all| && slots[free[k]].None?)
      && Ascending(free)
  {
    var free := Free(|all|, ids);
    forall k | 0 <= k < |free| ensures free[k] < |all| && slots[free[k]].None? {
      FreeAre(|all|, ids, k);
    }
    forall j, k | 0 <= j < k < |free| ensures free[j] < free[k] {
      FreeAscends(|all|, ids, j, k);
    }
  }

  // --- outgoing -------------------------------------------------------------------------------

  function Reversed<T>(s: seq<T>): (r: seq<T>)
    ensures |r| == |s| && forall i | 0 <= i < |s| :: r[i] == s[|s| - 1 - i]
  {
    seq(|s|, i requires 0 <= i < |s| => s[|s| - 1 - i])
  }

  /** The named arguments as they come, then the positional ones, last first. No list, no pointer. */
  method BuildParams<T>(positional: seq<T>, named: seq<(int, T)>) returns (p: Params<T>)
    ensures Sound(p) && p.named == |named|
    ensures p.args.None? <==> positional == [] && named == []
    ensures p.names.None? <==> named == []
    ensures p.args.Some? ==>
      p.args.value == seq(|named|, i requires 0 <= i < |named| => named[i].1) + Reversed(positional)
    ensures p.names.Some? ==> p.names.value == seq(|named|, i requires 0 <= i < |named| => named[i].0)
  {
    var args: seq<T>, ids: seq<int> := [], [];
    for i := 0 to |named|
      invariant args == seq(i, j requires 0 <= j < i => named[j].1)
      invariant ids == seq(i, j requires 0 <= j < i => named[j].0)
    {
      ids := ids + [named[i].0];
      args := args + [named[i].1];
    }
    args := args + Reversed(positional);
    p := Params(
      if args == [] then None else Some(args),
      if ids == [] then None else Some(ids),
      |ids|);
  }

  // --- one inverts the other ------------------------------------------------------------------

  /** A list of arguments by position, split: `ids` are given by name, in that order, the others by
      their place. */
  function Named<T>(declared: seq<T>, ids: seq<int>): seq<(int, T)>
    requires Positions(ids, |declared|)
  {
    seq(|ids|, i requires 0 <= i < |ids| => assert ids[i] in ids; (ids[i], declared[ids[i]]))
  }

  function Positional<T>(declared: seq<T>, ids: seq<int>): seq<T> {
    var free := Free(|declared|, ids);
    seq(|free|, k requires 0 <= k < |free| => FreeAre(|declared|, ids, k); declared[free[k]])
  }

  lemma PlacedIsDeclared<T>(declared: seq<T>, ids: seq<int>, all: seq<T>, r: seq<T>)
    requires Positions(ids, |declared|) && Placed(all, ids, r)
    requires var named := Named(declared, ids);
      all == seq(|named|, i requires 0 <= i < |named| => named[i].1) + Reversed(Positional(declared, ids))
    ensures r == declared
  {
    FreeCount(|declared|, ids);
    forall p: nat | p < |declared| ensures r[p] == declared[p] {
      if p in ids {
        var i :| 0 <= i < |ids| && ids[i] == p;
      } else {
        FreeAt(|declared|, ids, p);
      }
    }
  }

  lemma NamedKeepsIds<T>(declared: seq<T>, ids: seq<int>)
    requires Positions(ids, |declared|)
    ensures var named := Named(declared, ids);
      |named| == |ids| && seq(|named|, i requires 0 <= i < |named| => named[i].0) == ids
    ensures |ids| + |Positional(declared, ids)| == |declared|
  {
    FreeCount(|declared|, ids);
  }

  /** Whichever arguments are given by name, and in whichever order, what is built for a call is read
      back in the order of the declaration. */
  method OutAndBack<T>(declared: seq<T>, ids: seq<int>) returns (r: seq<T>)
    requires Positions(ids, |declared|)
    ensures r == declared
  {
    hide Placed, Positions, Free;
    var named, positional := Named(declared, ids), Positional(declared, ids);
    var p := BuildParams(positional, named);
    NamedKeepsIds(declared, ids);
    r := OrderedArgs(p);
    if p.args.Some? {
      if ids != [] {
        assert Ids(p) == ids;
      }
      PlacedIsDeclared(declared, ids, p.args.value, r);
    }
  }
}
