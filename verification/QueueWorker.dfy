/** The receive loop of the queue worker and the loop of the redrive script, run by one
    consumer on queues it changes in place. */
module QueueWorker {
  import opened QueueProtocol
  import opened QueueAttempts

  // -- attempts still to come --

  /** How often a message with this count can still be handled: at least once, because the
      count is looked at only after an attempt failed. */
  function Allowed(count: int, max: nat): nat {
    if count < max - 1 then max - count else 1
  }

  function Weight(q: seq<Slot>, f: Slot -> nat): nat {
    if q == [] then 0 else f(q[0]) + Weight(q[1..], f)
  }

  lemma {:induction false} WeightConcat(a: seq<Slot>, b: seq<Slot>, f: Slot -> nat)
    ensures Weight(a + b, f) == Weight(a, f) + Weight(b, f)
  {
    if a == [] {
      assert a + b == b;
    } else {
      WeightConcat(a[1..], b, f);
      assert (a + b)[1..] == a[1..] + b;
    }
  }

  lemma {:induction false} WeightAppend(q: seq<Slot>, s: Slot, f: Slot -> nat)
    ensures Weight(q + [s], f) == Weight(q, f) + f(s)
  {
    WeightConcat(q, [s], f);
    assert [s][1..] == [];
  }

  lemma {:induction false} WeightWithout(q: seq<Slot>, i: nat, f: Slot -> nat)
    requires i < |q|
    ensures Weight(q, f) == Weight(Without(q, i), f) + f(q[i])
  {
    assert q == q[..i] + q[i..];
    WeightConcat(q[..i], q[i..], f);
    assert q[i..][0] == q[i] && q[i..][1..] == q[i + 1..];
    WeightConcat(q[..i], q[i + 1..], f);
  }

  /** Attempts of all waiting messages, or of one. */
  function OfAll(max: nat): Slot -> nat {
    (s: Slot) => Allowed(s.dequeueCount, max)
  }

  function Of(id: nat, max: nat): Slot -> nat {
    (s: Slot) => if s.id == id then Allowed(s.dequeueCount, max) else 0
  }

  /** The same for messages in hand, whose count includes the attempt at hand. */
  function HeldOfAll(max: nat): Slot -> nat {
    (s: Slot) => Allowed(s.dequeueCount - 1, max)
  }

  function HeldOf(id: nat, max: nat): Slot -> nat {
    (s: Slot) => if s.id == id then Allowed(s.dequeueCount - 1, max) else 0
  }

  /** Attempts that a queue allows the message. */
  function Attempts(q: seq<Slot>, id: nat, max: nat): nat {
    Weight(q, Of(id, max))
  }

  lemma {:induction false} NoAttempts(q: seq<Slot>, id: nat, max: nat)
    requires forall i :: 0 <= i < |q| ==> q[i].id != id
    ensures Attempts(q, id, max) == 0
  {
    if q != [] {
      NoAttempts(q[1..], id, max);
    }
  }

  /** A waiting message: max - count attempts, or one if its count is spent already. */
  lemma {:induction false} AttemptsOf(q: seq<Slot>, i: nat, max: nat)
    requires DistinctIds(q) && i < |q| && max > 0
    ensures Attempts(q, q[i].id, max) == if q[i].dequeueCount < max then max - q[i].dequeueCount else 1
  {
    WeightWithout(q, i, Of(q[i].id, max));
    var r := Without(q, i);
    assert forall j :: 0 <= j < |r| ==> r[j] == q[if j < i then j else j + 1];
    NoAttempts(r, q[i].id, max);
  }

  ghost predicate Disjoint(a: seq<Slot>, b: seq<Slot>) {
    forall i, j :: 0 <= i < |a| && 0 <= j < |b| ==> a[i].id != b[j].id
  }

  /** Taking one message from a queue of distinct ones into a batch of others. */
  lemma {:induction false} TakeKeepsDistinct(q: seq<Slot>, batch: seq<Slot>, i: nat, slot: Slot)
    requires i < |q| && slot.id == q[i].id
    requires DistinctIds(q) && DistinctIds(batch) && Disjoint(batch, q)
    ensures DistinctIds(Without(q, i)) && DistinctIds(batch + [slot]) && Disjoint(batch + [slot], Without(q, i))
  {
    var rest := Without(q, i);
    assert forall j :: 0 <= j < |rest| ==> rest[j] == (if j < i then q[j] else q[j + 1]);
  }

  ghost predicate Has(q: seq<Slot>, id: nat) {
    exists i :: 0 <= i < |q| && q[i].id == id
  }

  /** What the services answer to one attempt: does handling succeed, is the message deleted
      then, and if it is to be poisoned, is the copy sent and is the original deleted. */
  datatype Attempt = Attempt(handled: bool, deleted: bool, poisonSent: bool, poisonDeleted: bool)

  /** The three places of the worker after one attempt on a message in hand. */
  ghost predicate Settled(slot: Slot, a: Attempt, max: nat, alive: bool, main0: seq<Slot>, poison0: seq<Slot>,
                          acked0: seq<Slot>, main: seq<Slot>, poison: seq<Slot>, acked: seq<Slot>)
  {
    var done, spent := a.handled && a.deleted, slot.dequeueCount >= max;
    && alive == (done || !spent || (a.poisonSent && a.poisonDeleted))
    && acked == (if done then acked0 + [slot] else acked0)
    && poison == (if !done && spent && a.poisonSent then poison0 + [slot.(dequeueCount := 0)] else poison0)
    && main == (if done || (spent && alive) then main0 else main0 + [slot])
  }

  /** Every message acknowledged since was handled, and deleted, with success. */
  ghost predicate Earned(outcome: Slot -> Attempt, acked0: seq<Slot>, acked: seq<Slot>) {
    acked0 <= acked &&
    forall i :: |acked0| <= i < |acked| ==> outcome(acked[i]).handled && outcome(acked[i]).deleted
  }

  /** Every message poisoned since is the copy of one whose last allowed attempt did not succeed. */
  ghost predicate Buried(outcome: Slot -> Attempt, max: nat, poison0: seq<Slot>, poison: seq<Slot>) {
    poison0 <= poison && forall i :: |poison0| <= i < |poison| ==> IsDead(outcome, max, poison[i])
  }

  ghost predicate IsDead(outcome: Slot -> Attempt, max: nat, copy: Slot) {
    exists count: nat ::
      var s := copy.(dequeueCount := count);
      && copy.dequeueCount == 0 && count >= max && outcome(s).poisonSent
      && !(outcome(s).handled && outcome(s).deleted)
  }

  lemma {:induction false} FatesAdd(outcome: Slot -> Attempt, max: nat, a: seq<Slot>, b: seq<Slot>, c: seq<Slot>,
                                    x: seq<Slot>, y: seq<Slot>, z: seq<Slot>)
    requires Earned(outcome, a, b) && Earned(outcome, b, c) && Buried(outcome, max, x, y) && Buried(outcome, max, y, z)
    ensures Earned(outcome, a, c) && Buried(outcome, max, x, z)
  {
  }

  lemma {:induction false} SettledFits(slot: Slot, outcome: Slot -> Attempt, max: nat, alive: bool,
                                       main0: seq<Slot>, poison0: seq<Slot>, acked0: seq<Slot>, main: seq<Slot>,
                                       poison: seq<Slot>, acked: seq<Slot>)
    requires Settled(slot, outcome(slot), max, alive, main0, poison0, acked0, main, poison, acked)
    ensures Earned(outcome, acked0, acked) && Buried(outcome, max, poison0, poison)
  {
    var copy := slot.(dequeueCount := 0);
    if poison != poison0 {
      assert copy.(dequeueCount := slot.dequeueCount) == slot;
      assert IsDead(outcome, max, copy);
    }
  }

  /** The texts: one more than before without the one in hand; a poisoned message whose original
      is not deleted counts twice. */
  lemma {:induction false} SettledTexts(slot: Slot, a: Attempt, max: nat, alive: bool, main0: seq<Slot>,
                                        poison0: seq<Slot>, acked0: seq<Slot>, main: seq<Slot>, poison: seq<Slot>,
                                        acked: seq<Slot>, x: string)
    requires Settled(slot, a, max, alive, main0, poison0, acked0, main, poison, acked)
    ensures
      var before := Stored(main0, x) + Stored(poison0, x) + Stored(acked0, x) + One(slot, x);
      var after := Stored(main, x) + Stored(poison, x) + Stored(acked, x);
      before <= after <= before + 1 && (alive ==> after == before)
  {
    var copy := slot.(dequeueCount := 0);
    assert One(copy, x) == One(slot, x);
    if acked != acked0 {
      StoredAppend(acked0, slot, x);
    }
    if poison != poison0 {
      StoredAppend(poison0, copy, x);
    }
    if main != main0 {
      StoredAppend(main0, slot, x);
    }
  }

  /** Attempts that waiting messages and a batch in hand still allow. */
  function LeftFor(main: seq<Slot>, batch: seq<Slot>, id: nat, max: nat): nat {
    Attempts(main, id, max) + Weight(batch, HeldOf(id, max))
  }

  function LeftForAll(main: seq<Slot>, batch: seq<Slot>, max: nat): nat {
    Weight(main, OfAll(max)) + Weight(batch, HeldOfAll(max))
  }

  /** The attempts: the one made is used up, and no other unless the message is done. */
  lemma {:induction false} SettledAttempts(batch: seq<Slot>, a: Attempt, max: nat, main0: seq<Slot>,
                                           poison0: seq<Slot>, acked0: seq<Slot>, main: seq<Slot>,
                                           poison: seq<Slot>, acked: seq<Slot>, id: nat)
    requires batch != [] && max > 0 && Settled(batch[0], a, max, true, main0, poison0, acked0, main, poison, acked)
    ensures
      var before := LeftFor(main0, batch, id, max);
      var after := LeftFor(main, batch[1..], id, max) + if batch[0].id == id then 1 else 0;
      after <= before && (batch[0].id != id || !(a.handled && a.deleted) ==> after == before)
  {
    WeightAppend(main0, batch[0], Of(id, max));
  }

  lemma {:induction false} SettledAttemptsOfAll(batch: seq<Slot>, a: Attempt, max: nat, main0: seq<Slot>,
                                                poison0: seq<Slot>, acked0: seq<Slot>, main: seq<Slot>,
                                                poison: seq<Slot>, acked: seq<Slot>)
    requires batch != [] && max > 0 && Settled(batch[0], a, max, true, main0, poison0, acked0, main, poison, acked)
    ensures LeftForAll(main, batch[1..], max) + 1 <= LeftForAll(main0, batch, max)
  {
    WeightAppend(main0, batch[0], OfAll(max));
  }

  class Worker {
    const maxDequeue: nat
    const batchSize: nat
    var main: seq<Slot>
    var poison: seq<Slot>
    var acked: seq<Slot>

    /** How often handleMessage was called for each message. */
    ghost var handled: multiset<nat>

    /** Messages may wait with any count, as workers before this one left them. */
    ghost predicate Valid()
      reads this
    {
      maxDequeue > 0 && batchSize > 0 && DistinctIds(main)
    }

    /** Copies of a text in this worker's three places. */
    ghost function Total(x: string): nat
      reads this
    {
      Stored(main, x) + Stored(poison, x) + Stored(acked, x)
    }

    constructor (max: nat, batch: nat, waiting: seq<Slot>)
      requires max > 0 && batch > 0 && DistinctIds(waiting)
      ensures Valid() && maxDequeue == max && batchSize == batch
      ensures main == waiting && poison == [] && acked == [] && handled == multiset{}
    {
      maxDequeue, batchSize := max, batch;
      main, poison, acked, handled := waiting, [], [], multiset{};
    }

    ghost predicate InHand(batch: seq<Slot>)
      reads this
    {
      DistinctIds(batch) && Disjoint(batch, main)
    }

    ghost function Left(batch: seq<Slot>, id: nat): nat
      reads this
    {
      LeftFor(main, batch, id, maxDequeue)
    }

    ghost function LeftOfAll(batch: seq<Slot>): nat
      reads this
    {
      LeftForAll(main, batch, maxDequeue)
    }

    /** Any waiting message joins the batch, counted once more, and turns invisible. */
    method Take(batch: seq<Slot>) returns (more: seq<Slot>)
      requires Valid() && InHand(batch) && main != []
      modifies `main
      ensures Valid() && InHand(more) && |more| == |batch| + 1
      ensures forall x :: Stored(main, x) + Stored(more, x) == Stored(old(main), x) + Stored(batch, x)
      ensures LeftOfAll(more) == old(LeftOfAll(batch)) && forall id :: Left(more, id) == old(Left(batch, id))
    {
      var i: nat :| i < |main|;
      var slot := main[i].(dequeueCount := main[i].dequeueCount + 1);
      WeightWithout(main, i, OfAll(maxDequeue));
      WeightAppend(batch, slot, HeldOfAll(maxDequeue));
      forall id
        ensures
          Weight(Without(main, i), Of(id, maxDequeue)) + Weight(batch + [slot], HeldOf(id, maxDequeue)) ==
          Left(batch, id)
      {
        WeightWithout(main, i, Of(id, maxDequeue));
        WeightAppend(batch, slot, HeldOf(id, maxDequeue));
      }
      forall x ensures Stored(Without(main, i), x) + Stored(batch + [slot], x) == Stored(main, x) + Stored(batch, x) {
        StoredWithout(main, i, x);
        StoredAppend(batch, slot, x);
      }
      TakeKeepsDistinct(main, batch, i, slot);
      main, more := Without(main, i), batch + [slot];
    }

    /** One call of receiveMessages: one to batchSize waiting messages in any order. */
    method Receive() returns (batch: seq<Slot>)
      requires Valid() && main != []
      modifies `main
      ensures Valid() && InHand(batch) && 0 < |batch| <= batchSize
      ensures forall x :: Stored(main, x) + Stored(batch, x) == Stored(old(main), x)
      ensures LeftOfAll(batch) == old(LeftOfAll([])) && forall id :: Left(batch, id) == old(Left([], id))
    {
      batch := [];
      var n: nat :| 0 < n <= batchSize;
      while |batch| < n && main != []
        invariant |batch| <= n && (|batch| == 0 ==> main != [])
        invariant Valid() && InHand(batch)
        invariant forall x :: Stored(main, x) + Stored(batch, x) == Stored(old(main), x)
        invariant LeftOfAll(batch) == old(LeftOfAll([])) && forall id :: Left(batch, id) == old(Left([], id))
        decreases n - |batch|
      {
        ghost var main0, batch0 := main, batch;
        batch := Take(batch);
        assert forall x :: Stored(main, x) + Stored(batch, x) == Stored(main0, x) + Stored(batch0, x);
      }
    }

    /** handleMessage and what follows it: delete, poison when the count is spent, or leave the
        message to become visible again. A poison send or delete that fails ends the worker,
        and the message stays stored. */
    method Settle(slot: Slot, a: Attempt) returns (alive: bool)
      requires Valid() && forall i :: 0 <= i < |main| ==> main[i].id != slot.id
      modifies this
      ensures Valid() && handled == old(handled) + multiset{slot.id}
      ensures Settled(slot, a, maxDequeue, alive, old(main), old(poison), old(acked), main, poison, acked)
    {
      handled := handled + multiset{slot.id};
      alive := true;
      if a.handled && a.deleted {
        acked := acked + [slot];
      } else if slot.dequeueCount >= maxDequeue {
        if a.poisonSent {
          poison := poison + [slot.(dequeueCount := 0)];
        }
        if !a.poisonSent || !a.poisonDeleted {
          main := main + [slot];
          alive := false;
        }
      } else {
        main := main + [slot];
      }
    }

    /** Attempts done and attempts left. */
    ghost function Sum(batch: seq<Slot>, id: nat): nat
      reads this
    {
      handled[id] + Left(batch, id)
    }

    /** The first message of a batch is settled. */
    method SettleFirst(batch: seq<Slot>, a: Attempt) returns (alive: bool)
      requires Valid() && InHand(batch) && batch != []
      modifies this
      ensures Valid() && old(acked) <= acked && (a.poisonSent && a.poisonDeleted ==> alive)
      ensures handled == old(handled) + multiset{batch[0].id}
      ensures Settled(batch[0], a, maxDequeue, alive, old(main), old(poison), old(acked), main, poison, acked)
      ensures alive ==> InHand(batch[1..]) && (a.handled && a.deleted ==> Has(acked, batch[0].id))
      ensures forall x ::
                var before := old(Total(x)) + One(batch[0], x);
                before <= Total(x) <= before + 1 && (alive ==> Total(x) == before)
    {
      var slot := batch[0];
      ghost var main0, poison0, acked0 := main, poison, acked;
      alive := Settle(slot, a);
      forall x
        ensures
          var before := Stored(main0, x) + Stored(poison0, x) + Stored(acked0, x) + One(slot, x);
          before <= Total(x) <= before + 1 && (alive ==> Total(x) == before)
      {
        SettledTexts(slot, a, maxDequeue, alive, main0, poison0, acked0, main, poison, acked, x);
      }
      assert (acked0 + [slot])[|acked0|] == slot;
    }

    /** One round of the loop over a batch. When the worker ends, what it has not settled
        stays stored. */
    method HandleNext(batch: seq<Slot>, outcome: Slot -> Attempt) returns (alive: bool)
      requires Valid() && InHand(batch) && batch != []
      modifies this
      ensures Valid() && (outcome(batch[0]).poisonSent && outcome(batch[0]).poisonDeleted ==> alive)
      ensures Earned(outcome, old(acked), acked) && Buried(outcome, maxDequeue, old(poison), poison)
      ensures forall id :: handled[id] <= old(Sum(batch, id))
      ensures
        alive ==>
          && InHand(batch[1..]) && LeftOfAll(batch[1..]) + 1 <= old(LeftOfAll(batch))
          && (forall id :: Sum(batch[1..], id) <= old(Sum(batch, id)))
          && (forall id :: !Has(acked, id) ==> Sum(batch[1..], id) == old(Sum(batch, id)))
          && (forall x :: Total(x) + Stored(batch[1..], x) == old(Total(x)) + Stored(batch, x))
      ensures
        !alive ==> forall x :: old(Total(x)) + Stored(batch, x) <= Total(x) <= old(Total(x)) + Stored(batch, x) + 1
    {
      ghost var main0, poison0, acked0 := main, poison, acked;
      var a := outcome(batch[0]);
      alive := SettleFirst(batch, a);
      SettledFits(batch[0], outcome, maxDequeue, alive, main0, poison0, acked0, main, poison, acked);
      if alive {
        SettledAttemptsOfAll(batch, a, maxDequeue, main0, poison0, acked0, main, poison, acked);
        forall id
          ensures
            var before := LeftFor(main0, batch, id, maxDequeue);
            var after := Left(batch[1..], id) + if batch[0].id == id then 1 else 0;
            after <= before && (batch[0].id != id || !(a.handled && a.deleted) ==> after == before)
        {
          SettledAttempts(batch, a, maxDequeue, main0, poison0, acked0, main, poison, acked, id);
        }
      } else {
        PutBack(batch[1..]);
      }
    }

    /** Messages in hand become visible again. */
    method PutBack(batch: seq<Slot>)
      modifies `main
      ensures main == old(main) + batch
      ensures forall x :: Total(x) == old(Total(x)) + Stored(batch, x)
    {
      forall x ensures Stored(main + batch, x) == Stored(main, x) + Stored(batch, x) {
        StoredConcat(main, batch, x);
      }
      main := main + batch;
    }

    /** The loop over one batch; `outcome` decides every attempt. */
    method HandleBatch(batch: seq<Slot>, outcome: Slot -> Attempt) returns (alive: bool)
      requires Valid() && InHand(batch)
      modifies this
      ensures Valid()
      ensures Earned(outcome, old(acked), acked) && Buried(outcome, maxDequeue, old(poison), poison)
      ensures (forall s :: outcome(s).poisonSent && outcome(s).poisonDeleted) ==> alive
      ensures forall id :: handled[id] <= old(Sum(batch, id))
      ensures
        alive ==>
          && LeftOfAll([]) + |batch| <= old(LeftOfAll(batch))
          && (forall id :: Sum([], id) <= old(Sum(batch, id)))
          && (forall id :: !Has(acked, id) ==> Sum([], id) == old(Sum(batch, id)))
          && (forall x :: Total(x) == old(Total(x)) + Stored(batch, x))
      ensures
        !alive ==> forall x :: old(Total(x)) + Stored(batch, x) <= Total(x) <= old(Total(x)) + Stored(batch, x) + 1
    {
      alive := true;
      var n := 0;
      assert batch[0..] == batch;
      while n < |batch|
        invariant 0 <= n <= |batch| && Valid() && InHand(batch[n..]) && alive
        invariant Earned(outcome, old(acked), acked) && Buried(outcome, maxDequeue, old(poison), poison)
        invariant LeftOfAll(batch[n..]) + n <= old(LeftOfAll(batch))
        invariant forall id :: Sum(batch[n..], id) <= old(Sum(batch, id))
        invariant forall id :: !Has(acked, id) ==> Sum(batch[n..], id) == old(Sum(batch, id))
        invariant forall x :: Total(x) + Stored(batch[n..], x) == old(Total(x)) + Stored(batch, x)
      {
        assert batch[n..][1..] == batch[n + 1..] && batch[n..][0] == batch[n];
        ghost var acked0, poison0 := acked, poison;
        alive := HandleNext(batch[n..], outcome);
        FatesAdd(outcome, maxDequeue, old(acked), acked0, acked, old(poison), poison0, poison);
        if !alive {
          return;
        }
        n := n + 1;
        assert forall id :: Has(acked0, id) ==> Has(acked, id);
      }
      assert batch[n..] == [];
    }

    /** With nothing new arriving the receive loop drains the queue, whatever counts its
        messages have and whatever the handling does: unless a poison send or delete fails,
        every message ends acknowledged or poisoned, each text as often as it waited. No
        message is handled more often than it may be, and one that is not acknowledged is
        handled exactly so often. Acknowledged are messages whose attempt succeeded, poisoned
        are those whose last allowed attempt did not. */
    method Drain(outcome: Slot -> Attempt) returns (alive: bool)
      requires Valid()
      modifies this
      ensures Valid()
      ensures Earned(outcome, old(acked), acked) && Buried(outcome, maxDequeue, old(poison), poison)
      ensures (forall s :: outcome(s).poisonSent && outcome(s).poisonDeleted) ==> alive
      ensures forall id :: handled[id] <= old(handled[id]) + Attempts(old(main), id, maxDequeue)
      ensures
        alive ==>
          && main == [] && (forall x :: Stored(poison, x) + Stored(acked, x) == old(Total(x)))
          && (forall id :: !Has(acked, id) ==>
                handled[id] == old(handled[id]) + Attempts(old(main), id, maxDequeue))
      ensures !alive ==> forall x :: old(Total(x)) <= Total(x) <= old(Total(x)) + 1
    {
      alive := true;
      assert forall id :: Sum([], id) == handled[id] + Attempts(main, id, maxDequeue);
      while main != []
        invariant Valid() && alive
        invariant Earned(outcome, old(acked), acked) && Buried(outcome, maxDequeue, old(poison), poison)
        invariant forall x :: Total(x) == old(Total(x))
        invariant forall id :: Sum([], id) <= old(Sum([], id))
        invariant forall id :: !Has(acked, id) ==> Sum([], id) == old(Sum([], id))
        decreases LeftOfAll([])
      {
        ghost var main0, acked0, poison0 := main, acked, poison;
        var batch := Receive();
        assert forall x :: Stored(main, x) + Stored(batch, x) == Stored(main0, x);
        alive := HandleBatch(batch, outcome);
        FatesAdd(outcome, maxDequeue, old(acked), acked0, acked, old(poison), poison0, poison);
        assert forall id :: handled[id] <= old(Sum([], id));
        if !alive {
          return;
        }
        assert forall id :: Has(acked0, id) ==> Has(acked, id);
      }
    }

    /** The redrive loop; receive k is answered with at most replies(k) messages. At most
        maxMessages messages go back to the main queue, each copy is sent before its original
        is deleted, and the loop stops early only on an empty reply. */
    method Redrive(maxMessages: nat, batch: nat, replies: nat -> nat) returns (moved: nat, receives: nat)
      requires maxMessages > 0 && batch > 0
      modifies `main, `poison
      ensures moved <= maxMessages && moved == |old(poison)| - |poison| == |main| - |old(main)|
      ensures moved < maxMessages ==> receives > 0 && (replies(receives - 1) == 0 || poison == [])
      ensures (forall k :: replies(k) > 0) ==> moved == maxMessages || poison == []
      ensures forall x :: Stored(main, x) + Stored(poison, x) == Stored(old(main), x) + Stored(old(poison), x)
      ensures old(main) <= main && forall i :: |old(main)| <= i < |main| ==> main[i].dequeueCount == 0
    {
      moved, receives := 0, 0;
      while moved < maxMessages
        invariant moved <= maxMessages && moved == |old(poison)| - |poison| == |main| - |old(main)|
        invariant forall x :: Stored(main, x) + Stored(poison, x) == Stored(old(main), x) + Stored(old(poison), x)
        invariant old(main) <= main && forall i :: |old(main)| <= i < |main| ==> main[i].dequeueCount == 0
        decreases maxMessages - moved
      {
        var limit := if batch < maxMessages - moved then batch else maxMessages - moved;
        var visible := if replies(receives) < |poison| then replies(receives) else |poison|;
        var received := if limit < visible then limit else visible;
        receives := receives + 1;
        if received == 0 {
          break;
        }
        MoveBatch(received);
        moved := moved + received;
      }
    }

    /** The inner loop of the redrive: any `received` poison messages move to the main queue. */
    method MoveBatch(received: nat)
      requires received <= |poison|
      modifies `main, `poison
      ensures |poison| == |old(poison)| - received && |main| == |old(main)| + received
      ensures forall x :: Stored(main, x) + Stored(poison, x) == Stored(old(main), x) + Stored(old(poison), x)
      ensures old(main) <= main && forall i :: |old(main)| <= i < |main| ==> main[i].dequeueCount == 0
    {
      for n := 0 to received
        invariant |poison| == |old(poison)| - n && |main| == |old(main)| + n
        invariant forall x :: Stored(main, x) + Stored(poison, x) == Stored(old(main), x) + Stored(old(poison), x)
        invariant old(main) <= main && forall i :: |old(main)| <= i < |main| ==> main[i].dequeueCount == 0
      {
        var i: nat :| i < |poison|;
        var slot := poison[i].(dequeueCount := 0);
        forall x
          ensures Stored(main + [slot], x) + Stored(Without(poison, i), x) == Stored(main, x) + Stored(poison, x)
        {
          StoredAppend(main, slot, x);
          StoredWithout(poison, i, x);
        }
        main := main + [slot];
        poison := Without(poison, i);
      }
    }
  }
}
