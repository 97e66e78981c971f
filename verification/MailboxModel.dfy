/** Requests and responses on one connection: callers, the reader and whoever closes, interleaved. */
module MailboxModel {
  import opened Options

  /** What a waiter can be filled with: a response frame, or the end of the stream. */
  datatype Answer = Response(id: nat, payload: int) | Closed

  datatype Caller =
    | Waiting(id: nat)
    | Leaving(id: nat, answer: Option<Answer>)
    | Returned(id: nat, result: Answer)
    | Refused
    | Raised

  /** The reader between frames; holding a waiter it looked up; past the end of the stream. */
  datatype Reader = Reading | Holding(id: nat, frame: Answer) | Over

  /** `table` is the waiter table, `slots` every waiter's slot, and `sweeps` the waiters that each
      running end-of-stream sweep still has to fill. */
  datatype State = State(
    closed: bool,
    nextId: nat,
    table: set<nat>,
    slots: map<nat, Option<Answer>>,
    callers: map<nat, Caller>,
    reader: Reader,
    sweeps: map<nat, set<nat>>)

  const INIT := State(false, 1, {}, map[], map[], Reading, map[])

  datatype Action =
    | Request(c: nat, sent: bool)
    | Take(c: nat)
    | Leave(c: nat)
    | Frame(id: nat, payload: int)
    | FillHeld
    | EndStream
    | Sweep(w: nat)
    | SweepOne(w: nat, id: nat)

  /** First write wins. */
  function Fill(s: State, id: nat, answer: Answer): State {
    if id in s.slots && s.slots[id].None? then s.(slots := s.slots[id := Some(answer)]) else s
  }

  /** Register and write under one lock; on a closed mailbox nothing is sent. */
  function DoRequest(s: State, c: nat, sent: bool): State {
    if c in s.callers then s
    else if s.closed then s.(callers := s.callers[c := Refused])
    else s.(
      nextId := s.nextId + 1,
      table := s.table + {s.nextId},
      slots := s.slots[s.nextId := None],
      callers := s.callers[c := if sent then Waiting(s.nextId) else Leaving(s.nextId, None)])
  }

  function DoTake(s: State, c: nat): State {
    if c in s.callers && s.callers[c].Waiting? && s.callers[c].id in s.slots && s.slots[s.callers[c].id].Some? then
      s.(callers := s.callers[c := Leaving(s.callers[c].id, s.slots[s.callers[c].id])])
    else s
  }

  function DoLeave(s: State, c: nat): State {
    if c !in s.callers || !s.callers[c].Leaving? then s
    else
      var x := s.callers[c];
      var back := if x.answer.Some? then Returned(x.id, x.answer.value) else Raised;
      s.(table := s.table - {x.id}, callers := s.callers[c := back])
  }

  function DoFrame(s: State, id: nat, payload: int): State {
    if s.reader.Reading? && id in s.table then s.(reader := Holding(id, Response(id, payload))) else s
  }

  function DoFillHeld(s: State): State {
    if s.reader.Holding? then Fill(s, s.reader.id, s.reader.frame).(reader := Reading) else s
  }

  function DoSweep(s: State, w: nat): State {
    if w in s.sweeps then s else s.(closed := true, sweeps := s.sweeps[w := s.table], table := {})
  }

  function DoSweepOne(s: State, w: nat, id: nat): State {
    if w in s.sweeps && id in s.sweeps[w] then Fill(s, id, Closed).(sweeps := s.sweeps[w := s.sweeps[w] - {id}]) else s
  }

  function Next(s: State, a: Action): State {
    match a
    case Request(c, sent) => DoRequest(s, c, sent)
    case Take(c) => DoTake(s, c)
    case Leave(c) => DoLeave(s, c)
    case Frame(id, payload) => DoFrame(s, id, payload)
    case FillHeld => DoFillHeld(s)
    case EndStream => if s.reader.Reading? then s.(reader := Over) else s
    case Sweep(w) => DoSweep(s, w)
    case SweepOne(w, id) => DoSweepOne(s, w, id)
  }

  function Run(s: State, actions: seq<Action>): State
    decreases |actions|
  {
    if actions == [] then s else Run(Next(s, actions[0]), actions[1..])
  }

  // --- the invariant --------------------------------------------------------------------------

  predicate Fits(answer: Answer, id: nat) {
    answer.Closed? || answer.id == id
  }

  ghost predicate Swept(s: State, id: nat) {
    exists w <- s.sweeps :: id in s.sweeps[w]
  }

  predicate Asks(x: Caller, id: nat) {
    (x.Waiting? || x.Leaving? || x.Returned?) && x.id == id
  }

  ghost predicate CallerOk(s: State, c: nat)
    requires c in s.callers
  {
    match s.callers[c]
    case Waiting(id) => id in s.slots && (s.slots[id].None? ==> id in s.table || Swept(s, id))
    case Leaving(id, answer) => id in s.slots && (answer.Some? ==> s.slots[id] == answer)
    case Returned(id, result) => id in s.slots && s.slots[id] == Some(result)
    case _ => true
  }

  ghost predicate Inv(s: State) {
    && (s.closed ==> s.table == {})
    && s.table <= s.slots.Keys
    && (forall id <- s.slots :: id < s.nextId && (s.slots[id].Some? ==> Fits(s.slots[id].value, id)))
    && (s.reader.Holding? ==> Fits(s.reader.frame, s.reader.id))
    && (forall c <- s.callers :: CallerOk(s, c))
    && (forall c, d, id |
          c in s.callers && d in s.callers && Asks(s.callers[c], id) && Asks(s.callers[d], id) :: c == d)
  }

  lemma NextIdIsNew(s: State)
    requires Inv(s)
    ensures s.nextId !in s.slots
  {
  }

  lemma FillKeepsInv(s: State, id: nat, answer: Answer)
    requires Inv(s) && Fits(answer, id)
    ensures Inv(Fill(s, id, answer))
  {
    var s' := Fill(s, id, answer);
    forall c <- s'.callers ensures CallerOk(s', c) {
      assert CallerOk(s, c);
      assert forall i :: Swept(s, i) <==> Swept(s', i);
    }
  }

  lemma RequestKeepsInv(s: State, c: nat, sent: bool)
    requires Inv(s)
    ensures Inv(DoRequest(s, c, sent))
  {
    var s' := DoRequest(s, c, sent);
    forall d <- s'.callers ensures CallerOk(s', d) {
      assert d in s.callers ==> CallerOk(s, d);
      assert forall i :: Swept(s, i) <==> Swept(s', i);
    }
    forall d <- s.callers ensures !Asks(s.callers[d], s.nextId) {
      assert CallerOk(s, d);
    }
  }

  lemma TakeKeepsInv(s: State, c: nat)
    requires Inv(s)
    ensures Inv(DoTake(s, c))
  {
    var s' := DoTake(s, c);
    forall d <- s'.callers ensures CallerOk(s', d) {
      assert CallerOk(s, d);
      assert forall i :: Swept(s, i) <==> Swept(s', i);
    }
    assert forall d <- s.callers, id :: d in s'.callers && (Asks(s'.callers[d], id) ==> Asks(s.callers[d], id));
  }

  lemma LeaveKeepsInv(s: State, c: nat)
    requires Inv(s)
    ensures Inv(DoLeave(s, c))
  {
    var s' := DoLeave(s, c);
    if s' != s {
      var id := s.callers[c].id;
      assert CallerOk(s, c) && Asks(s.callers[c], id);
      forall d <- s'.callers ensures CallerOk(s', d) {
        assert CallerOk(s, d);
        assert forall i :: Swept(s, i) <==> Swept(s', i);
        assert d != c ==> !Asks(s.callers[d], id);
      }
      assert forall d <- s.callers, i :: d in s'.callers && (Asks(s'.callers[d], i) ==> Asks(s.callers[d], i));
    }
  }

  lemma SweepKeepsInv(s: State, w: nat)
    requires Inv(s)
    ensures Inv(DoSweep(s, w))
  {
    var s' := DoSweep(s, w);
    forall i | Swept(s, i) || i in s.table ensures Swept(s', i) || i in s'.table {
      if s' != s {
        if Swept(s, i) {
          var v :| v in s.sweeps && i in s.sweeps[v];
          assert v in s'.sweeps && i in s'.sweeps[v];
        } else {
          assert i in s'.sweeps[w];
        }
      }
    }
    forall c <- s'.callers ensures CallerOk(s', c) {
      assert CallerOk(s, c);
    }
  }

  lemma SweepOneKeepsInv(s: State, w: nat, id: nat)
    requires Inv(s)
    ensures Inv(DoSweepOne(s, w, id))
  {
    var s1, s' := Fill(s, id, Closed), DoSweepOne(s, w, id);
    FillKeepsInv(s, id, Closed);
    if s' != s {
      forall i | Swept(s1, i) && i != id ensures Swept(s', i) {
        var v :| v in s1.sweeps && i in s1.sweeps[v];
        assert v in s'.sweeps && i in s'.sweeps[v];
      }
      forall c <- s'.callers ensures CallerOk(s', c) {
        assert CallerOk(s1, c);
      }
    }
  }

  lemma NextKeepsInv(s: State, a: Action)
    requires Inv(s)
    ensures Inv(Next(s, a))
  {
    match a
    case Request(c, sent) => RequestKeepsInv(s, c, sent);
    case Take(c) => TakeKeepsInv(s, c);
    case Leave(c) => LeaveKeepsInv(s, c);
    case Frame(id, payload) => ReaderKeepsInv(s, DoFrame(s, id, payload).reader);
    case FillHeld =>
      if s.reader.Holding? {
        FillKeepsInv(s, s.reader.id, s.reader.frame);
        ReaderKeepsInv(Fill(s, s.reader.id, s.reader.frame), Reading);
      }
    case EndStream => ReaderKeepsInv(s, Over);
    case Sweep(w) => SweepKeepsInv(s, w);
    case SweepOne(w, id) => SweepOneKeepsInv(s, w, id);
  }

  lemma ReaderKeepsInv(s: State, reader: Reader)
    requires Inv(s) && (reader.Holding? ==> Fits(reader.frame, reader.id))
    ensures Inv(s.(reader := reader))
  {
    var s' := s.(reader := reader);
    forall c <- s'.callers ensures CallerOk(s', c) {
      assert CallerOk(s, c);
      assert forall i :: Swept(s, i) <==> Swept(s', i);
    }
  }

  lemma {:induction false} RunKeepsInv(s: State, actions: seq<Action>)
    requires Inv(s)
    ensures Inv(Run(s, actions))
    decreases |actions|
  {
    if actions != [] {
      NextKeepsInv(s, actions[0]);
      RunKeepsInv(Next(s, actions[0]), actions[1..]);
    }
  }

  // --- what every interleaving keeps ----------------------------------------------------------

  /** A request that returns does so with the response bearing its own id, or with CLOSED. */
  lemma OwnAnswerOrClosed(actions: seq<Action>, c: nat)
    requires var s := Run(INIT, actions); c in s.callers && s.callers[c].Returned?
    ensures var x := Run(INIT, actions).callers[c]; x.result == Closed || x.result.id == x.id
  {
    RunKeepsInv(INIT, actions);
    assert CallerOk(Run(INIT, actions), c);
  }

  /** On a live mailbox nothing is closed: no slot, no caller, nothing the reader holds, and no sweep. */
  ghost predicate OpenOk(s: State) {
    && (s.reader.Holding? ==> s.reader.frame.Response?)
    && (!s.closed ==>
          && s.sweeps == map[]
          && (forall id <- s.slots :: s.slots[id] != Some(Closed))
          && (forall c <- s.callers :: !s.callers[c].Refused?)
          && (forall c <- s.callers :: s.callers[c].Returned? ==> s.callers[c].result.Response?)
          && (forall c <- s.callers :: s.callers[c].Leaving? ==> s.callers[c].answer != Some(Closed)))
  }

  lemma NextKeepsOpen(s: State, a: Action)
    requires OpenOk(s)
    ensures OpenOk(Next(s, a))
  {
  }

  /** The payload of the first frame of each number that met its entry, with the reader free to take it. */
  function Met(s: State, a: Action, first: map<nat, int>): map<nat, int> {
    if a.Frame? && s.reader.Reading? && a.id in s.table && a.id !in first then first[a.id := a.payload] else first
  }

  function FirstMet(s: State, actions: seq<Action>, first: map<nat, int>): map<nat, int>
    decreases |actions|
  {
    if actions == [] then first else FirstMet(Next(s, actions[0]), actions[1..], Met(s, actions[0], first))
  }

  /** That frame is in the slot, or in the reader's hand, unless a sweep came first. */
  ghost predicate FirstOk(s: State, first: map<nat, int>) {
    && (forall id <- s.slots :: s.slots[id].Some? && s.slots[id].value.Response? ==>
          id in first && s.slots[id].value == Response(id, first[id]))
    && (forall id <- first ::
          id in s.slots && (s.slots[id].Some? || s.reader == Holding(id, Response(id, first[id]))))
    && (s.reader.Holding? ==> s.reader.id in first)
  }

  lemma NextKeepsFirst(s: State, a: Action, first: map<nat, int>)
    requires Inv(s) && FirstOk(s, first)
    ensures FirstOk(Next(s, a), Met(s, a, first))
  {
    NextIdIsNew(s);
    hide CallerOk, Asks, Fits;
  }

  lemma {:induction false} RunKeepsFirst(s: State, actions: seq<Action>, first: map<nat, int>)
    requires Inv(s) && OpenOk(s) && FirstOk(s, first)
    ensures var s' := Run(s, actions); Inv(s') && OpenOk(s') && FirstOk(s', FirstMet(s, actions, first))
    decreases |actions|
  {
    hide Inv, OpenOk, FirstOk, Next, Met;
    if actions != [] {
      NextKeepsInv(s, actions[0]);
      NextKeepsOpen(s, actions[0]);
      NextKeepsFirst(s, actions[0], first);
      RunKeepsFirst(Next(s, actions[0]), actions[1..], Met(s, actions[0], first));
    }
  }

  /** In every interleaving: what a request returns with is the first frame of its number that met its
      entry; it returns with CLOSED, or is refused, only on a mailbox that is closed. */
  lemma ReturnsItsFirstFrame(actions: seq<Action>, c: nat)
    requires c in Run(INIT, actions).callers
    ensures var (s, first) := (Run(INIT, actions), FirstMet(INIT, actions, map[])); var x := s.callers[c];
      && (x.Returned? ==>
            if x.result.Closed? then s.closed else x.id in first && x.result == Response(x.id, first[x.id]))
      && (x.Refused? ==> s.closed)
  {
    RunKeepsFirst(INIT, actions, map[]);
    assert CallerOk(Run(INIT, actions), c);
  }

  /** On a connection that is being read, the frame that comes for a waiting caller is what its request
      returns with, four steps later. */
  lemma FrameComesHome(s: State, c: nat, id: nat, payload: int)
    requires Inv(s) && s.reader.Reading? && c in s.callers && s.callers[c] == Waiting(id)
    requires id in s.table && s.slots[id].None?
    ensures var x := Run(s, [Frame(id, payload), FillHeld, Take(c), Leave(c)]).callers;
      c in x && x[c] == Returned(id, Response(id, payload))
  {
    var rest := [Take(c), Leave(c)];
    var s2 := Next(Next(s, Frame(id, payload)), FillHeld);
    RunTwo(s2, Take(c), Leave(c));
    assert [Frame(id, payload), FillHeld, Take(c), Leave(c)][1..][1..] == rest;
    assert Run(s, [Frame(id, payload), FillHeld, Take(c), Leave(c)]) == Run(s2, rest);
  }

  /** A request whose write fails leaves the table as it found it, and raises. */
  lemma FailedWriteRaises(s: State, c: nat)
    requires Inv(s) && !s.closed && c !in s.callers
    ensures var s' := Run(s, [Request(c, false), Leave(c)]);
      c in s'.callers && s'.callers[c] == Raised && s'.table == s.table
  {
    RunTwo(s, Request(c, false), Leave(c));
    NextIdIsNew(s);
  }

  lemma NextKeepsFilled(s: State, a: Action, id: nat)
    requires Inv(s) && id in s.slots && s.slots[id].Some?
    ensures id in Next(s, a).slots && Next(s, a).slots[id] == s.slots[id]
  {
    NextIdIsNew(s);
  }

  /** The first fill wins: whatever happens next, a filled slot keeps its answer. */
  lemma {:induction false} FirstFillWins(s: State, actions: seq<Action>, id: nat)
    requires Inv(s) && id in s.slots && s.slots[id].Some?
    ensures id in Run(s, actions).slots && Run(s, actions).slots[id] == s.slots[id]
    decreases |actions|
  {
    hide Inv, Next;
    if actions != [] {
      NextKeepsInv(s, actions[0]);
      NextKeepsFilled(s, actions[0], id);
      FirstFillWins(Next(s, actions[0]), actions[1..], id);
    }
  }

  predicate InCall(s: State, c: nat, id: nat) {
    c in s.callers && (s.callers[c].Waiting? || s.callers[c].Leaving?) && s.callers[c].id == id
  }

  /** Every entry of the table is some caller's that has not returned yet. */
  ghost predicate Wanted(s: State) {
    forall id <- s.table :: exists c <- s.callers :: InCall(s, c, id)
  }

  lemma NextKeepsWanted(s: State, a: Action)
    requires Wanted(s)
    ensures Wanted(Next(s, a))
  {
    var s' := Next(s, a);
    forall id <- s'.table ensures exists c <- s'.callers :: InCall(s', c, id) {
      if id in s.table {
        var c :| c in s.callers && InCall(s, c, id);
        assert InCall(s', c, id);
      } else {
        assert InCall(s', a.c, id);
      }
    }
  }

  /** However callers come and go, and whatever fails, no entry outlives its request. */
  lemma {:induction false} NoEntryOutlivesItsRequest(s: State, actions: seq<Action>)
    requires Wanted(s)
    ensures Wanted(Run(s, actions))
    decreases |actions|
  {
    if actions != [] {
      NextKeepsWanted(s, actions[0]);
      NoEntryOutlivesItsRequest(Next(s, actions[0]), actions[1..]);
    }
  }

  /** After the mailbox is closed: a request returns at once, and every caller still waiting has its
      answer in its slot, or is in front of a sweep that is on its way to it. */
  lemma ClosedAnswersEverybody(actions: seq<Action>, c: nat, sent: bool)
    requires Run(INIT, actions).closed
    ensures var s := Run(INIT, actions);
      && (c !in s.callers ==> Next(s, Request(c, sent)).callers[c] == Refused)
      && (c in s.callers && s.callers[c].Waiting? ==>
            s.callers[c].id in s.slots && (s.slots[s.callers[c].id].Some? || Swept(s, s.callers[c].id)))
  {
    RunKeepsInv(INIT, actions);
    assert c in Run(INIT, actions).callers ==> CallerOk(Run(INIT, actions), c);
  }

  lemma RunTwo(s: State, a: Action, b: Action)
    ensures Run(s, [a, b]) == Next(Next(s, a), b)
  {
    assert [a, b][1..] == [b] && [b][1..] == [];
    assert Run(Next(s, a), [b]) == Run(Next(Next(s, a), b), []);
  }

  /** So nobody waits for ever once the stream has ended: the reader's own sweep `w`, if none has come
      by yet, then one step of a sweep, if it is still needed, then the caller's own two steps bring the
      caller back with an answer. */
  lemma {:induction false} WaiterReturns(s: State, c: nat, w: nat) returns (actions: seq<Action>)
    requires Inv(s) && (s.closed || s.reader.Over?) && w !in s.sweeps
    requires c in s.callers && s.callers[c].Waiting?
    ensures |actions| <= 4 && forall a <- actions :: a == Sweep(w) || a.SweepOne? || a == Take(c) || a == Leave(c)
    ensures var x := Run(s, actions).callers; c in x && x[c].Returned?
  {
    var id := s.callers[c].id;
    assert CallerOk(s, c);
    if s.slots[id].Some? {
      actions := [Take(c), Leave(c)];
      RunTwo(s, Take(c), Leave(c));
    } else {
      var before, v := [], w;
      if Swept(s, id) {
        v :| v in s.sweeps && id in s.sweeps[v];
      } else {
        before := [Sweep(w)];
      }
      var s1 := if before == [] then s else DoSweep(s, w);
      RunTwo(Next(s1, SweepOne(v, id)), Take(c), Leave(c));
      var rest := [SweepOne(v, id), Take(c), Leave(c)];
      assert rest[1..] == [Take(c), Leave(c)];
      actions := before + rest;
      assert Run(s1, rest) == Run(Next(s1, SweepOne(v, id)), rest[1..]);
      assert Run(s, actions) == Run(s1, rest) by {
        if before != [] {
          assert actions[1..] == rest;
        } else {
          assert actions == rest;
        }
      }
    }
  }

  /** What a sweep comes to when nothing runs beside it. */
  function SweptOut(slots: map<nat, Option<Answer>>, ids: set<nat>): map<nat, Option<Answer>> {
    map id | id in slots :: if id in ids && slots[id].None? then Some(Closed) else slots[id]
  }

  /** It is the same as its steps, in any order of the waiters. */
  lemma {:induction false} SweepsAreSteps(s: State, w: nat) returns (actions: seq<Action>)
    requires w in s.sweeps
    ensures forall a <- actions :: a.SweepOne? && a.w == w
    ensures Run(s, actions) == s.(sweeps := s.sweeps[w := {}], slots := SweptOut(s.slots, s.sweeps[w]))
    decreases s.sweeps[w]
  {
    if s.sweeps[w] == {} {
      assert SweptOut(s.slots, {}) == s.slots && s.sweeps[w := {}] == s.sweeps;
      actions := [];
    } else {
      var id :| id in s.sweeps[w];
      var s1 := DoSweepOne(s, w, id);
      var rest := SweepsAreSteps(s1, w);
      assert SweptOut(s1.slots, s1.sweeps[w]) == SweptOut(s.slots, s.sweeps[w]);
      assert s1.sweeps[w := {}] == s.sweeps[w := {}];
      actions := [SweepOne(w, id)] + rest;
      assert actions[1..] == rest;
    }
  }

  /** The mailbox after one end-of-stream sweep with nothing beside it. */
  function Failed(s: State, w: nat): State {
    s.(closed := true, table := {}, sweeps := s.sweeps[w := {}], slots := SweptOut(s.slots, s.table))
  }

  lemma FailedIsARun(s: State, w: nat) returns (actions: seq<Action>)
    requires w !in s.sweeps
    ensures Run(s, [Sweep(w)] + actions) == Failed(s, w)
    ensures forall a <- actions :: a.SweepOne? && a.w == w
  {
    var s1 := DoSweep(s, w);
    actions := SweepsAreSteps(s1, w);
    assert ([Sweep(w)] + actions)[1..] == actions;
    assert s1.sweeps[w := {}] == s.sweeps[w := {}];
  }
}
