/** The Events object: its registrations, and the calls it makes to keep the bridge in step. */
module EventsObjects {
  import opened Options
  import M = EventsModel
  import opened EventsModel

  /** The bridge's event table for one handle. */
  class BridgeTable {
    var flags: map<string, bool>
    var live: bool
    var pending: bool

    constructor ()
      ensures flags == map[] && live && !pending
    {
      flags, live, pending := map[], true, false;
    }

    method Subscribe(name: string, args: bool, accepts: bool) returns (ok: bool)
      modifies this`flags
      ensures ok == accepts
      ensures flags == if accepts then old(flags)[name := args] else old(flags)
    {
      if accepts {
        flags := flags[name := args];
      }
      return accepts;
    }

    method Unsubscribe(name: string) returns (was: bool)
      modifies this`flags
      ensures was <==> name in old(flags)
      ensures flags == old(flags) - {name}
    {
      was := name in flags;
      flags := flags - {name};
    }

    /** `asks`: the client's closure is asked first. */
    method Release(asks: bool)
      modifies this
      ensures asks && old(live) ==> flags == old(flags) && live && pending
      ensures !(asks && old(live)) ==> flags == map[] && !live && !pending
    {
      if asks && live {
        pending := true;
      } else {
        flags, live, pending := map[], false, false;
      }
    }

    method Acknowledge()
      modifies this
      ensures old(pending) ==> flags == map[] && !live && !pending
      ensures !old(pending) ==> flags == old(flags) && live == old(live) && !pending
    {
      if pending {
        flags, live, pending := map[], false, false;
      }
    }
  }

  class Events {
    const bridge: BridgeTable
    var subs: Subs
    var attached: bool
    var nextNo: nat

    ghost function Abs(): State
      reads this, bridge
    {
      State(subs, attached, nextNo, bridge.flags, bridge.live, bridge.pending)
    }

    constructor (bridge: BridgeTable)
      requires bridge.flags == map[] && bridge.live && !bridge.pending
      ensures Abs() == INIT && this.bridge == bridge
    {
      this.bridge, subs, attached, nextNo := bridge, map[], false, 0;
    }

    function EffectiveArgs(name: string): Option<bool>
      reads this
    {
      M.EffectiveArgs(subs, name)
    }

    /** By identity: the one registration, and not another like it. */
    static method Remaining(q: seq<Sub>, no: nat) returns (r: seq<Sub>)
      ensures r == M.Without(q, no)
    {
      r := [];
      assert q[0..] == q;
      for i := 0 to |q|
        invariant r + M.Without(q[i..], no) == M.Without(q, no)
      {
        assert q[i..][1..] == q[i + 1..];
        if q[i].no != no {
          r := r + [q[i]];
        }
      }
      assert q[|q|..] == [];
    }

    method Drop(name: string, no: Option<nat>)
      modifies this`subs
      ensures subs == M.Dropped(old(subs), name, no)
    {
      if name !in subs {
        return;
      }
      var remaining := [];
      if no.Some? {
        remaining := Remaining(subs[name], no.value);
      }
      subs := if remaining == [] then subs - {name} else subs[name := remaining];
    }

    /** Returns the registration, or nothing when the dispatcher or the bridge refused it; then no
        registration is left behind. */
    method On(name: string, args: bool, attachOk: bool, accepts: bool) returns (r: Option<Sub>)
      requires Agrees(Abs())
      modifies this, bridge`flags
      ensures Agrees(Abs()) && Abs() == M.On(old(Abs()), name, args, attachOk, accepts)
      ensures r.Some? ==>
        r.value == Sub(old(nextNo), args) && subs == old(subs)[name := M.Regs(old(subs), name) + [r.value]]
      ensures r.None? ==> subs == old(subs)
    {
      hide Agrees, WantsArgs, Dropped;
      OnKeepsAgreement(Abs(), name, args, attachOk, accepts);
      AgreesIsNumbered(Abs());
      AddedDropped(Abs(), name, args);
      if !attached {
        if !attachOk {
          return None;
        }
        attached := true;
      }
      var sub := Sub(nextNo, args);
      nextNo := nextNo + 1;
      var before := EffectiveArgs(name);
      subs := M.Added(subs, name, sub);
      var after := EffectiveArgs(name);
      if after != before {
        var ok := bridge.Subscribe(name, after.value, accepts);
        if !ok {
          assert M.Added(old(subs), name, sub) == subs;
          Drop(name, Some(sub.no));
          if subs == map[] {
            attached := false;
          }
          return None;
        }
      }
      return Some(sub);
    }

    /** By registration, or by name when `no` is None. */
    method Off(name: string, no: Option<nat>, accepts: bool)
      modifies this, bridge`flags
      ensures Abs() == M.Off(old(Abs()), name, no, accepts)
    {
      var before := EffectiveArgs(name);
      Drop(name, no);
      var after := EffectiveArgs(name);
      if before.None? {
        return;
      }
      if after.None? {
        var _ := bridge.Unsubscribe(name);
      } else if after != before {
        var _ := bridge.Subscribe(name, after.value, accepts);
      }
      if subs == map[] {
        attached := false;
      }
    }

    /** Every name in turn, each dropped here before the bridge is told. */
    method Close()
      modifies this, bridge`flags
      ensures Abs() == M.Close(old(Abs()))
    {
      var names := subs.Keys;
      while names != {}
        invariant subs.Keys == names <= old(subs).Keys && nextNo == old(nextNo)
        invariant bridge.flags == old(bridge.flags) - (old(subs).Keys - names)
        decreases names
      {
        var name :| name in names;
        Drop(name, None);
        var _ := bridge.Unsubscribe(name);
        names := names - {name};
      }
      attached := false;
    }
  }
}
