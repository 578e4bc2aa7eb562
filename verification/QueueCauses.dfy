/** Why messages are acknowledged and poisoned, over every interleaving of workers and redrive
    scripts with redelivery and crashes. */
module QueueCauses {
  import opened Prelude
  import opened QueueProtocol

  // -- successful handlings --

  /** A handling of this text ends with success. */
  predicate Succeeds(s: State, a: Action, x: string) {
    a.Handle? && a.ok && a.w < |s.consumers| && s.consumers[a.w].Holding? && s.consumers[a.w].slot.text == x
  }

  /** How often a handling of the text ended with success. */
  function Successes(max: nat, n: nat, schedule: seq<Action>, x: string): nat {
    if schedule == [] then 0
    else
      var init := schedule[..|schedule| - 1];
      Successes(max, n, init, x) + (if Succeeds(Run(max, n, init), schedule[|schedule| - 1], x) then 1 else 0)
  }

  /** Consumers that are about to acknowledge the text. */
  function AckingOf(x: string): Phase -> nat {
    (p: Phase) => if p.Acking? && p.slot.text == x then 1 else 0
  }

  // -- what is known of a message: the text it was sent with and how often it was delivered --

  /** The texts given out, by id. */
  function Named(max: nat, n: nat, schedule: seq<Action>): map<nat, string> {
    if schedule == [] then map[]
    else
      var init := schedule[..|schedule| - 1];
      Renamed(Run(max, n, init), schedule[|schedule| - 1], Named(max, n, init))
  }

  function Renamed(s: State, a: Action, names: map<nat, string>): map<nat, string> {
    if a.Send? && a.id !in s.history.used then names[a.id := a.text]
    else if a.SendMain? && a.id !in s.history.used && a.w < |s.consumers| && s.consumers[a.w].Redriving? then
      names[a.id := s.consumers[a.w].slot.text]
    else names
  }

  /** The message keeps the text of its id, and its count is at most the number of deliveries. */
  predicate Known(slot: Slot, names: map<nat, string>, received: multiset<nat>) {
    slot.id in names && names[slot.id] == slot.text && slot.dequeueCount <= received[slot.id]
  }

  ghost predicate AllKnown(q: seq<Slot>, names: map<nat, string>, received: multiset<nat>) {
    forall i :: 0 <= i < |q| ==> Known(q[i], names, received)
  }

  /** Who poisons a message holds one whose count is spent. */
  predicate Spent(max: nat, p: Phase) {
    p.Poisoning? || p.Poisoned? ==> p.slot.dequeueCount >= max
  }

  predicate Fits(max: nat, p: Phase, names: map<nat, string>, received: multiset<nat>) {
    Spent(max, p) && (InWork(p).Some? ==> Known(InWork(p).value, names, received))
  }

  ghost predicate AllFit(max: nat, ps: seq<Phase>, names: map<nat, string>, received: multiset<nat>) {
    forall w :: 0 <= w < |ps| ==> Fits(max, ps[w], names, received)
  }

  ghost predicate AllFacts(max: nat, s: State, names: map<nat, string>) {
    && names.Keys <= s.history.used
    && AllKnown(s.main, names, s.history.received)
    && AllFit(max, s.consumers, names, s.history.received)
  }

  lemma {:induction false} WithoutKnown(q: seq<Slot>, i: nat, names: map<nat, string>, received: multiset<nat>)
    requires i < |q| && AllKnown(q, names, received)
    ensures AllKnown(Without(q, i), names, received)
  {
    forall j | 0 <= j < |Without(q, i)| ensures Known(Without(q, i)[j], names, received) {
      assert Without(q, i)[j] == q[if j < i then j else j + 1];
    }
  }

  lemma {:induction false} FreshKnown(max: nat, s: State, names: map<nat, string>, id: nat, text: string)
    requires AllFacts(max, s, names) && id !in s.history.used
    ensures AllKnown(s.main + [Slot(id, text, 0)], names[id := text], s.history.received)
    ensures AllFit(max, s.consumers, names[id := text], s.history.received)
  {
  }

  lemma {:induction false} ChangedFits(
    max: nat, ps: seq<Phase>, w: nat, p: Phase, names: map<nat, string>, received: multiset<nat>)
    requires w < |ps| && AllFit(max, ps, names, received) && Fits(max, p, names, received)
    ensures AllFit(max, ps[w := p], names, received)
  {
  }

  lemma {:induction false} ReceivedKnown(max: nat, s: State, names: map<nat, string>, i: nat, slot: Slot)
    requires AllFacts(max, s, names) && i < |s.main|
    requires slot == s.main[i].(dequeueCount := s.main[i].dequeueCount + 1)
    ensures AllKnown(s.main[i := slot], names, s.history.received + multiset{slot.id})
    ensures AllFit(max, s.consumers, names, s.history.received + multiset{slot.id})
    ensures Known(slot, names, s.history.received + multiset{slot.id})
  {
    var more := s.history.received + multiset{slot.id};
    assert Known(s.main[i], names, s.history.received);
    var q := s.main[i := slot];
    forall j | 0 <= j < |q| ensures Known(q[j], names, more) {
      assert Known(s.main[j], names, s.history.received);
    }
    forall w | 0 <= w < |s.consumers| ensures Fits(max, s.consumers[w], names, more) {
      assert Fits(max, s.consumers[w], names, s.history.received);
    }
  }

  lemma {:induction false} ReceiveKeeps(max: nat, s: State, w: nat, id: nat, names: map<nat, string>)
    requires AllFacts(max, s, names)
    ensures AllFacts(max, Next(max, s, Receive(w, id)), names)
  {
    var i := IndexOf(s.main, id);
    if w < |s.consumers| && s.consumers[w] == Idle && i < |s.main| {
      var slot := s.main[i].(dequeueCount := s.main[i].dequeueCount + 1);
      ReceivedKnown(max, s, names, i, slot);
      ChangedFits(max, s.consumers, w, Holding(slot), names, s.history.received + multiset{slot.id});
    }
  }

  lemma {:induction false} DeleteKeeps(max: nat, s: State, w: nat, done: bool, names: map<nat, string>)
    requires AllFacts(max, s, names) && w < |s.consumers|
    ensures AllFacts(max, DeleteStep(max, s, w, done), names)
  {
    var p := s.consumers[w];
    assert Fits(max, p, names, s.history.received);
    ChangedFits(max, s.consumers, w, Idle, names, s.history.received);
    if p.Acking? || p.Poisoned? {
      var i := IndexOf(s.main, p.slot.id);
      ChangedFits(max, s.consumers, w, if p.Acking? then Caught(max, p.slot) else Idle, names, s.history.received);
      if i < |s.main| {
        WithoutKnown(s.main, i, names, s.history.received);
      }
    }
  }

  lemma {:induction false} CopyKeeps(max: nat, s: State, a: Action, names: map<nat, string>)
    requires AllFacts(max, s, names) && (a.SendPoison? || a.SendMain?)
    ensures AllFacts(max, Next(max, s, a), Renamed(s, a, names))
  {
    if a.w < |s.consumers| && a.id !in s.history.used {
      var p := s.consumers[a.w];
      assert Fits(max, p, names, s.history.received);
      if a.SendPoison? && p.Poisoning? {
        ChangedFits(max, s.consumers, a.w, Poisoned(p.slot), names, s.history.received);
      } else if a.SendMain? && p.Redriving? {
        FreshKnown(max, s, names, a.id, p.slot.text);
        ChangedFits(max, s.consumers, a.w, Redriven(p.slot), names[a.id := p.slot.text], s.history.received);
      }
    }
  }

  lemma {:induction false} PhaseKeeps(max: nat, s: State, a: Action, names: map<nat, string>)
    requires AllFacts(max, s, names) && (a.Handle? || a.Crash? || a.ReceivePoison?)
    ensures AllFacts(max, Next(max, s, a), names)
  {
    if a.w < |s.consumers| {
      var p, p' := s.consumers[a.w], Next(max, s, a).consumers[a.w];
      assert Fits(max, p, names, s.history.received);
      ChangedFits(max, s.consumers, a.w, p', names, s.history.received);
    }
  }

  lemma {:induction false} NextKeeps(max: nat, s: State, a: Action, names: map<nat, string>)
    requires AllFacts(max, s, names)
    ensures AllFacts(max, Next(max, s, a), Renamed(s, a, names))
  {
    match a
    case Send(id, text) =>
      if id !in s.history.used {
        FreshKnown(max, s, names, id, text);
      }
    case Receive(w, id) => ReceiveKeeps(max, s, w, id, names);
    case Delete(w, done) =>
      if w < |s.consumers| {
        DeleteKeeps(max, s, w, done, names);
      }
    case SendPoison(_, _) => CopyKeeps(max, s, a, names);
    case SendMain(_, _) => CopyKeeps(max, s, a, names);
    case _ => PhaseKeeps(max, s, a, names);
  }

  lemma {:induction false} RunKeeps(max: nat, n: nat, schedule: seq<Action>)
    ensures AllFacts(max, Run(max, n, schedule), Named(max, n, schedule))
  {
    if schedule != [] {
      var init := schedule[..|schedule| - 1];
      RunKeeps(max, n, init);
      NextKeeps(max, Run(max, n, init), schedule[|schedule| - 1], Named(max, n, init));
    }
  }

  // -- acknowledged after success --

  /** A delete acknowledges the text of the consumer that is about to acknowledge it. */
  lemma {:induction false} DeletedText(max: nat, s: State, names: map<nat, string>, w: nat)
    requires AllFacts(max, s, names) && w < |s.consumers| && s.consumers[w].Acking?
    requires IndexOf(s.main, s.consumers[w].slot.id) < |s.main|
    ensures s.main[IndexOf(s.main, s.consumers[w].slot.id)].text == s.consumers[w].slot.text
  {
    assert Fits(max, s.consumers[w], names, s.history.received);
    assert Known(s.main[IndexOf(s.main, s.consumers[w].slot.id)], names, s.history.received);
  }

  lemma {:induction false} SettleStep(
    max: nat, s: State, names: map<nat, string>, w: nat, done: bool, x: string)
    requires AllFacts(max, s, names) && w < |s.consumers|
    ensures
      var s' := DeleteStep(max, s, w, done);
      s'.acked[x] + Tally(s'.consumers, AckingOf(x)) <= s.acked[x] + Tally(s.consumers, AckingOf(x))
  {
    var p := s.consumers[w];
    TallyUpdate(s.consumers, w, Idle, AckingOf(x));
    if p.Acking? {
      TallyUpdate(s.consumers, w, Caught(max, p.slot), AckingOf(x));
      if IndexOf(s.main, p.slot.id) < |s.main| {
        DeletedText(max, s, names, w);
      }
    }
  }

  lemma {:induction false} OtherStep(max: nat, s: State, a: Action, s': State, x: string)
    requires !a.Send? && !a.Delete? && a.w < |s.consumers| && s' == Next(max, s, a)
    ensures s'.acked == s.acked
    ensures
      Tally(s'.consumers, AckingOf(x)) <= Tally(s.consumers, AckingOf(x)) + if Succeeds(s, a, x) then 1 else 0
  {
    var p := s'.consumers[a.w];
    TallyUpdate(s.consumers, a.w, p, AckingOf(x));
    assert s'.consumers == s.consumers[a.w := p];
    assert AckingOf(x)(p) <= AckingOf(x)(s.consumers[a.w]) + if Succeeds(s, a, x) then 1 else 0;
  }

  lemma {:induction false} AckStep(max: nat, s: State, names: map<nat, string>, a: Action, x: string)
    requires AllFacts(max, s, names)
    ensures
      var s' := Next(max, s, a);
      s'.acked[x] + Tally(s'.consumers, AckingOf(x)) <=
      s.acked[x] + Tally(s.consumers, AckingOf(x)) + if Succeeds(s, a, x) then 1 else 0
  {
    if a.Delete? && a.w < |s.consumers| {
      SettleStep(max, s, names, a.w, a.done, x);
    } else if !a.Send? && a.w < |s.consumers| {
      OtherStep(max, s, a, Next(max, s, a), x);
    }
  }

  /** A text is acknowledged only as often as its handling succeeded. */
  lemma {:induction false} AckedAfterSuccess(max: nat, n: nat, schedule: seq<Action>, x: string)
    ensures
      var s := Run(max, n, schedule);
      s.acked[x] + Tally(s.consumers, AckingOf(x)) <= Successes(max, n, schedule, x)
  {
    if schedule == [] {
      TallyZero(Run(max, n, schedule).consumers, AckingOf(x));
    } else {
      var init := schedule[..|schedule| - 1];
      AckedAfterSuccess(max, n, init, x);
      RunKeeps(max, n, init);
      AckStep(max, Run(max, n, init), Named(max, n, init), schedule[|schedule| - 1], x);
    }
  }

  // -- poisoned when spent --

  /** A message is copied to the poison queue, and its original deleted, only after it was delivered
      max times. */
  lemma {:induction false} PoisonedWhenSpent(max: nat, n: nat, schedule: seq<Action>, w: nat)
    requires
      var s := Run(max, n, schedule);
      w < |s.consumers| && (s.consumers[w].Poisoning? || s.consumers[w].Poisoned?)
    ensures
      var s := Run(max, n, schedule);
      s.history.received[s.consumers[w].slot.id] >= max
  {
    RunKeeps(max, n, schedule);
    assert Fits(max, Run(max, n, schedule).consumers[w], Named(max, n, schedule),
                Run(max, n, schedule).history.received);
  }

  /** A failed attempt with deliveries left leaves the message where it is; the last one goes on to
      poison it; only a success goes on to acknowledge. */
  lemma {:induction false} AttemptMeans(max: nat, s: State, w: nat, ok: bool)
    requires w < |s.consumers| && s.consumers[w].Holding?
    ensures
      var s', slot := Next(max, s, Handle(w, ok)), s.consumers[w].slot;
      && s'.main == s.main && s'.poison == s.poison && s'.acked == s.acked
      && (s'.consumers[w].Acking? <==> ok) && (s'.consumers[w].Poisoning? <==> !ok && slot.dequeueCount >= max)
      && (s'.consumers[w] == Idle <==> !ok && slot.dequeueCount < max)
  {
  }

  // -- what an undisturbed attempt comes to --

  lemma {:induction false} SameIndex(q: seq<Slot>, id: nat, slot: Slot)
    requires IndexOf(q, id) < |q| && slot.id == id
    ensures IndexOf(q[IndexOf(q, id) := slot], id) == IndexOf(q, id)
  {
    var i := IndexOf(q, id);
    if i > 0 {
      SameIndex(q[1..], id, slot);
      assert q[i := slot][1..] == q[1..][i - 1 := slot];
    }
  }

  lemma WithoutUpdated(q: seq<Slot>, i: nat, slot: Slot)
    requires i < |q|
    ensures Without(q[i := slot], i) == Without(q, i)
  {
  }

  /** The worker holds the message, and the queue counts the delivery. */
  lemma {:induction false} Received(max: nat, s: State, w: nat, id: nat)
    requires w < |s.consumers| && s.consumers[w] == Idle && IndexOf(s.main, id) < |s.main|
    ensures
      var s', i := Next(max, s, Receive(w, id)), IndexOf(s.main, id);
      var slot := s.main[i].(dequeueCount := s.main[i].dequeueCount + 1);
      && s'.main == s.main[i := slot] && s'.consumers == s.consumers[w := Holding(slot)]
      && s'.poison == s.poison && s'.acked == s.acked && s'.history.used == s.history.used
      && IndexOf(s'.main, id) == i && Without(s'.main, i) == Without(s.main, i)
  {
    var i := IndexOf(s.main, id);
    var slot := s.main[i].(dequeueCount := s.main[i].dequeueCount + 1);
    SameIndex(s.main, id, slot);
    WithoutUpdated(s.main, i, slot);
  }

  /** Received, handled with success and deleted: the message is acknowledged and gone. */
  lemma {:induction false} SuccessAcknowledges(max: nat, s: State, w: nat, id: nat)
    requires w < |s.consumers| && s.consumers[w] == Idle && IndexOf(s.main, id) < |s.main|
    ensures
      var i := IndexOf(s.main, id);
      var s' := Next(max, Next(max, Next(max, s, Receive(w, id)), Handle(w, true)), Delete(w, true));
      && s'.main == Without(s.main, i) && s'.acked == s.acked + multiset{s.main[i].text} && s'.poison == s.poison
      && s'.consumers == s.consumers
  {
    Received(max, s, w, id);
    var s1 := Next(max, s, Receive(w, id));
    AttemptMeans(max, s1, w, true);
    var s2 := Next(max, s1, Handle(w, true));
    var s3 := Next(max, s2, Delete(w, true));
    assert s3.consumers == s.consumers;
  }

  /** Received for the last time, failed, copied and deleted: the message has moved to the poison
      queue under a new id. */
  lemma {:induction false} FailureMoves(max: nat, s: State, w: nat, id: nat, newId: nat)
    requires w < |s.consumers| && s.consumers[w] == Idle && IndexOf(s.main, id) < |s.main|
    requires s.main[IndexOf(s.main, id)].dequeueCount + 1 >= max && newId !in s.history.used
    ensures
      var i := IndexOf(s.main, id);
      var failed := Next(max, Next(max, s, Receive(w, id)), Handle(w, false));
      var s' := Next(max, Next(max, failed, SendPoison(w, newId)), Delete(w, true));
      && s'.main == Without(s.main, i) && s'.poison == s.poison + [Slot(newId, s.main[i].text, 0)]
      && s'.acked == s.acked && s'.consumers == s.consumers
  {
    Received(max, s, w, id);
    var s1 := Next(max, s, Receive(w, id));
    AttemptMeans(max, s1, w, false);
    var s2 := Next(max, s1, Handle(w, false));
    var s3 := Next(max, s2, SendPoison(w, newId));
    var s4 := Next(max, s3, Delete(w, true));
    assert s4.consumers == s.consumers;
  }
}
