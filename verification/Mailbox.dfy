/** The mailbox object: the waiter table one lock guards, and the slots it hands out. */
module Mailboxes {
  import opened Options
  import M = MailboxModel
  import opened MailboxModel

  class Waiter {
    var value: Option<Answer>

    constructor ()
      ensures value == None
    {
      value := None;
    }

    method Fill(answer: Answer)
      modifies this
      ensures value == if old(value).None? then Some(answer) else old(value)
    {
      if value.Some? {
        return;
      }
      value := Some(answer);
    }
  }

  ghost function Slots(made: map<nat, Waiter>): map<nat, Option<Answer>>
    reads made.Values
  {
    map id | id in made :: made[id].value
  }

  ghost predicate Apart(made: map<nat, Waiter>) {
    forall i, j | i in made && j in made && made[i] == made[j] :: i == j
  }

  method FillSlot(made: map<nat, Waiter>, id: nat, answer: Answer)
    requires Apart(made) && id in made
    modifies made[id]
    ensures Slots(made) == if old(made[id].value).None? then old(Slots(made))[id := Some(answer)] else old(Slots(made))
  {
    made[id].Fill(answer);
    assert forall i <- made :: i != id ==> made[i] != made[id];
  }

  method FillAll(made: map<nat, Waiter>, ids: set<nat>)
    requires Apart(made) && ids <= made.Keys
    modifies made.Values
    ensures Slots(made) == SweptOut(old(Slots(made)), ids)
  {
    ghost var was := Slots(made);
    var pending := ids;
    while pending != {}
      invariant pending <= ids && Slots(made) == SweptOut(was, ids - pending)
      decreases pending
    {
      var id :| id in pending;
      assert made[id].value == was[id] by {
        assert Slots(made)[id] == made[id].value;
      }
      FillSlot(made, id, Closed);
      assert ids - (pending - {id}) == (ids - pending) + {id};
      pending := pending - {id};
    }
    assert ids - {} == ids;
  }

  class Mailbox {
    var closed: bool
    var nextId: nat
    var waiters: map<nat, Waiter>
    // How far each thread is: the callers, the reader, and whoever fails the waiters.
    var callers: map<nat, Caller>
    var reader: Reader
    var sweeps: map<nat, set<nat>>
    /** Every waiter there ever was; a caller keeps its own after it has left the table. */
    var made: map<nat, Waiter>

    ghost predicate Valid()
      reads this
    {
      && waiters.Keys <= made.Keys
      && (forall id <- waiters :: waiters[id] == made[id])
      && Apart(made)
    }

    ghost function Abs(): State
      reads this, made.Values
    {
      State(closed, nextId, waiters.Keys, Slots(made), callers, reader, sweeps)
    }

    constructor ()
      ensures Valid() && Abs() == INIT && MailboxModel.Inv(Abs())
    {
      closed, nextId, waiters, callers, reader, sweeps, made := false, 1, map[], map[], Reading, map[], map[];
    }

    /** The first half of a request: register and write under one lock, or nothing at all. */
    method Begin(c: nat, sent: bool)
      requires Valid() && MailboxModel.Inv(Abs()) && c !in callers
      modifies this
      ensures Valid() && Abs() == DoRequest(old(Abs()), c, sent)
    {
      hide MailboxModel.Inv;
      NextIdIsNew(Abs());
      if closed {
        callers := callers[c := Refused];
        return;
      }
      var id := nextId;
      nextId := nextId + 1;
      Register(id);
      callers := callers[c := if sent then Waiting(id) else Leaving(id, None)];
    }

    method Register(id: nat)
      requires Valid() && id !in made
      modifies this`waiters, this`made
      ensures Valid() && waiters.Keys == old(waiters.Keys) + {id}
      ensures Slots(made) == old(Slots(made))[id := None]
    {
      var waiter := new Waiter();
      waiters, made := waiters[id := waiter], made[id := waiter];
      assert waiters.Keys == old(waiters.Keys) + {id};
    }

    /** The other half: take the answer, then leave the table whatever happened. */
    method Finish(c: nat) returns (r: Option<Answer>)
      requires Valid() && MailboxModel.Inv(Abs()) && c in callers
      requires callers[c].Waiting? ==> callers[c].id in made && made[callers[c].id].value.Some?
      requires callers[c].Waiting? || callers[c].Leaving?
      modifies this
      ensures Valid() && Abs() == Next(Next(old(Abs()), Take(c)), Leave(c))
      ensures r == if old(callers)[c].Waiting? then old(made[callers[c].id].value) else old(callers)[c].answer
      ensures c in callers && callers[c] == if r.Some? then Returned(old(callers)[c].id, r.value) else Raised
    {
      hide MailboxModel.Inv;
      var id := callers[c].id;
      r := if callers[c].Waiting? then made[id].value else callers[c].answer;
      waiters := waiters - {id};
      callers := callers[c := if r.Some? then Returned(id, r.value) else Raised];
      assert waiters.Keys == old(waiters.Keys) - {id};
    }

    /** The lock is let go between looking the waiter up and filling it. */
    method Receive(id: nat, payload: int)
      requires Valid() && reader.Reading?
      modifies this
      ensures Valid() && Abs() == DoFrame(old(Abs()), id, payload)
      ensures reader == if id in waiters then Holding(id, Response(id, payload)) else Reading
    {
      if id in waiters {
        reader := Holding(id, Response(id, payload));
      }
    }

    method FillHeld()
      requires Valid() && reader.Holding? && reader.id in made
      modifies this, made.Values
      ensures Valid() && Abs() == DoFillHeld(old(Abs()))
    {
      FillSlot(made, reader.id, reader.frame);
      reader := Reading;
    }

    /** Every waiter in the table is failed, and nobody joins the table again. Answers that are there
        already stand. */
    method FailWaiters(w: nat)
      requires Valid() && w !in sweeps
      modifies this, made.Values
      ensures Valid() && made == old(made)
      ensures Abs() == M.Failed(old(Abs()), w)
    {
      closed := true;
      var pending := waiters.Keys;
      waiters := map[];
      FillAll(made, pending);
      sweeps := sweeps[w := {}];
    }
  }
}
