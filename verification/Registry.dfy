/** The instance registry: who uses each instance, and who may shut it down. The functions are the
    decision table; the class is the locked map that makes the decisions. */
module Registry {
  type Key = nat

  datatype Step = Step(name: string, args: seq<string>)

  datatype CleanupConfig = CleanupConfig(steps: seq<Step>, callback: bool)

  datatype Record = Record(autoCreated: bool, users: set<nat>, closing: bool, config: CleanupConfig)

  type Records = map<Key, Record>

  datatype JoinResult = Joined | Closing

  datatype LeaveDecision = NotLast | RunCleanup(config: CleanupConfig)

  // --- the decisions --------------------------------------------------------------------------

  function JoinResultOf(m: Records, key: Key): JoinResult {
    if key in m && m[key].closing then Closing else Joined
  }

  function AfterJoin(m: Records, key: Key, session: nat, autoCreatedIfNew: bool, config: CleanupConfig): Records {
    if key !in m then m[key := Record(autoCreatedIfNew, {session}, false, config)]
    else if m[key].closing then m
    else m[key := m[key].(users := m[key].users + {session})]
  }

  /** The session is the last user of an instance that may be shut down and is not being shut down. */
  predicate LastOut(m: Records, key: Key, session: nat) {
    key in m && m[key].autoCreated && m[key].users <= {session} && !m[key].closing
  }

  function AfterLeave(m: Records, key: Key, session: nat): Records {
    if key !in m then m
    else
      var rec := m[key].(users := m[key].users - {session});
      if rec.autoCreated && rec.users == {} && !rec.closing then m[key := rec.(closing := true)]
      else if rec.users == {} && !rec.closing then m - {key}
      else m[key := rec]
  }

  function AfterConfirm(m: Records, key: Key): Records {
    if key in m && (m[key].closing || m[key].users == {}) then m - {key} else m
  }

  function AfterLeaveOpen(m: Records, key: Key): Records {
    if key in m then m[key := m[key].(autoCreated := false, closing := false)] else m
  }

  // --- what one session makes of them ---------------------------------------------------------

  /** A release of a root: the live client's closure is asked first; or the steps run inline and the
      record is finished; or the session just leaves. */
  datatype Verdict = AskClient | QuitInline | JustLeave

  function VerdictOf(m: Records, key: Key, session: nat, clientAlive: bool): Verdict {
    if !LastOut(m, key, session) then JustLeave
    else if m[key].config.callback && clientAlive then AskClient
    else QuitInline
  }

  function AfterRelease(m: Records, key: Key, session: nat, clientAlive: bool): Records {
    if VerdictOf(m, key, session, clientAlive).QuitInline? then m - {key} else AfterLeave(m, key, session)
  }

  /** The inline steps are the record's; after a closure the session runs its own. */
  function StepsOfRelease(m: Records, key: Key, session: nat, clientAlive: bool): seq<seq<Step>> {
    if VerdictOf(m, key, session, clientAlive).QuitInline? then [m[key].config.steps] else []
  }

  function StepsOfConfirm(m: Records, key: Key, config: CleanupConfig): seq<seq<Step>> {
    if key in m && m[key].closing then [config.steps] else []
  }

  // --- the locked map -------------------------------------------------------------------------

  class InstanceRegistry {
    var records: Records

    constructor ()
      ensures records == map[]
    {
      records := map[];
    }

    /** A closing record refuses new users; an existing record keeps its permission. */
    method Join(key: Key, session: nat, autoCreatedIfNew: bool, config: CleanupConfig) returns (r: JoinResult)
      modifies this
      ensures r == JoinResultOf(old(records), key)
      ensures records == AfterJoin(old(records), key, session, autoCreatedIfNew, config)
      ensures r.Joined? ==> key in records && session in records[key].users && !records[key].closing
      ensures key in old(records) ==>
        records[key].autoCreated == old(records)[key].autoCreated && records[key].config == old(records)[key].config
      ensures key !in old(records) ==> records[key] == Record(autoCreatedIfNew, {session}, false, config)
    {
      if key !in records {
        records := records[key := Record(autoCreatedIfNew, {session}, false, config)];
        return Joined;
      }
      if records[key].closing {
        return Closing;
      }
      records := records[key := records[key].(users := records[key].users + {session})];
      return Joined;
    }

    method OnRootRelease(key: Key, session: nat) returns (d: LeaveDecision)
      modifies this
      ensures records == AfterLeave(old(records), key, session)
      ensures d == if LastOut(old(records), key, session) then RunCleanup(old(records)[key].config) else NotLast
      ensures d.RunCleanup? ==> records[key].closing && records[key].users == {}
    {
      if key !in records {
        return NotLast;
      }
      var rec := records[key].(users := records[key].users - {session});
      if rec.autoCreated && rec.users == {} && !rec.closing {
        records := records[key := rec.(closing := true)];
        return RunCleanup(rec.config);
      }
      records := if rec.users == {} && !rec.closing then records - {key} else records[key := rec];
      return NotLast;
    }

    method ConfirmCleanup(key: Key) returns (run: bool)
      modifies this
      ensures run <==> key in old(records) && old(records)[key].closing
      ensures records == AfterConfirm(old(records), key)
    {
      if key in records && records[key].closing {
        records := records - {key};
        return true;
      }
      if key in records && records[key].users == {} {
        records := records - {key};
      }
      return false;
    }

    method FinishCleanup(key: Key)
      modifies this
      ensures records == old(records) - {key}
    {
      records := records - {key};
    }

    method LeaveOpen(key: Key)
      modifies this
      ensures records == AfterLeaveOpen(old(records), key)
    {
      if key in records {
        records := records[key := records[key].(autoCreated := false, closing := false)];
      }
    }
  }
}
