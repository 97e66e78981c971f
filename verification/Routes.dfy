/** The server's side of the routing table. */
module RoutesObjects {
  import opened Options
  import T = SessionTable
  import opened RoutesModel

  class Server {
    var routes: map<nat, nat>

    ghost predicate Valid()
      reads this
    {
      forall id <- routes :: routes[id] == T.SessionOf(id)
    }

    constructor ()
      ensures Valid() && routes == map[]
    {
      routes := map[];
    }

    /** A session has started, and `root` is its first handle. */
    method HandleCreated(session: nat, root: nat, newHandles: seq<nat>) returns (handles: seq<nat>)
      requires Valid() && T.SessionOf(root) == session
      modifies this
      ensures Valid() && routes == old(routes)[root := session] && handles == newHandles + [root]
    {
      routes := routes[root := session];
      handles := newHandles + [root];
    }

    method RouteFor(handle: nat) returns (route: Option<nat>)
      requires Valid()
      ensures route.Some? <==> handle in routes
      ensures route.Some? ==> route.value == T.SessionOf(handle)
    {
      return if handle in routes then Some(routes[handle]) else None;
    }

    /** The first entry of the same session that the table happens to show. */
    method RouteOfSession(id: nat) returns (route: Option<nat>)
      requires Valid()
      ensures route.Some? <==> exists e <- routes :: T.SessionOf(e) == T.SessionOf(id)
      ensures route.Some? ==> route.value == T.SessionOf(id)
    {
      var left := routes.Keys;
      while left != {}
        invariant left <= routes.Keys
        invariant forall e <- routes :: e !in left ==> T.SessionOf(e) != T.SessionOf(id)
        decreases left
      {
        var e :| e in left;
        if T.SessionOf(e) == T.SessionOf(id) {
          return Some(routes[e]);
        }
        left := left - {e};
      }
      route := None;
    }

    /** The new ids that a session answered with, under the route that was asked. */
    method Enter(ids: seq<nat>, route: nat, newHandles: seq<nat>) returns (handles: seq<nat>)
      requires Valid() && forall id <- ids :: T.SessionOf(id) == route
      modifies this
      ensures Valid() && routes == Entered(old(routes), AsSet(ids), route) && handles == newHandles + ids
    {
      hide Entered, AsSet;
      EnteredNone(routes, ids, route);
      handles := newHandles;
      for i := 0 to |ids|
        invariant routes == Entered(old(routes), AsSet(ids[..i]), route) && handles == newHandles + ids[..i]
        invariant Valid()
      {
        EnteredOneMore(old(routes), ids, i, route);
        routes := routes[ids[i] := route];
        handles := handles + [ids[i]];
      }
      assert ids[..|ids|] == ids;
    }

    /** An event's ids are routed where its object's are, as long as that session has an entry left. The
        lock is held twice: `between` is the table as others have left it when it is taken again. */
    method ReceiveEvent(handle: nat, newHandles: seq<nat>, between: map<nat, nat>)
      requires Valid() && forall id <- newHandles :: T.SessionOf(id) == T.SessionOf(handle)
      requires forall id <- between :: between[id] == T.SessionOf(id)
      modifies this
      ensures Valid()
      ensures routes ==
        if newHandles == [] || forall e <- old(routes) :: T.SessionOf(e) != T.SessionOf(handle) then old(routes)
        else Entered(between, AsSet(newHandles), T.SessionOf(handle))
    {
      if newHandles == [] {
        return;
      }
      var route := RouteOfSession(handle);
      if route.Some? {
        routes := between;
        var _ := Enter(newHandles, route.value, []);
      }
    }

    /** The session has let go of these. */
    method Forget(ids: seq<nat>)
      requires Valid()
      modifies this
      ensures Valid() && routes == old(routes) - AsSet(ids)
    {
      for i := 0 to |ids|
        invariant Valid() && routes == old(routes) - AsSet(ids[..i])
      {
        assert ids[..i + 1] == ids[..i] + [ids[i]];
        routes := routes - {ids[i]};
      }
      assert ids[..|ids|] == ids;
    }

    /** What a connection that goes away leaves: nothing of its sessions, whether it knew of the ids or
        not, and every entry of every other session. */
    method ReleaseAll(handles: seq<nat>)
      requires Valid()
      modifies this
      ensures Valid()
      ensures forall id :: id in routes <==>
        id in old(routes) && forall h <- handles :: T.SessionOf(h) != T.SessionOf(id)
      ensures forall id <- routes :: routes[id] == old(routes)[id]
    {
      var i := |handles|;
      while i > 0
        invariant 0 <= i <= |handles| && Valid()
        invariant routes == old(routes) - AsSet(handles[i..])
      {
        i := i - 1;
        assert handles[i..] == [handles[i]] + handles[i + 1..];
        routes := routes - {handles[i]};
      }
      assert handles[0..] == handles;
      var sessions := set h | h in handles :: T.SessionOf(h);
      if sessions != {} {
        routes := map id | id in routes && T.SessionOf(id) !in sessions :: routes[id];
      }
      forall id ensures id in routes <==>
        id in old(routes) && forall h <- handles :: T.SessionOf(h) != T.SessionOf(id)
      {
        assert forall h <- handles :: T.SessionOf(h) in sessions;
      }
    }
  }
}
