/** Storage queues as the worker and the redrive script use them: at-least-once receive,
    explicit delete, and moves made of a send followed by a delete. */
module QueueProtocol {
  import opened Prelude

  /** A stored message: the service counts how often it was received. */
  datatype Slot = Slot(id: nat, text: string, dequeueCount: nat)

  /** How many stored messages carry the text. */
  function Stored(q: seq<Slot>, x: string): nat {
    if q == [] then 0 else (if q[0].text == x then 1 else 0) + Stored(q[1..], x)
  }

  function Without(q: seq<Slot>, i: nat): seq<Slot>
    requires i < |q|
  {
    q[..i] + q[i + 1..]
  }

  lemma {:induction false} StoredConcat(a: seq<Slot>, b: seq<Slot>, x: string)
    ensures Stored(a + b, x) == Stored(a, x) + Stored(b, x)
  {
    if a == [] {
      assert a + b == b;
    } else {
      StoredConcat(a[1..], b, x);
      assert (a + b)[1..] == a[1..] + b;
    }
  }

  function One(s: Slot, x: string): nat {
    if s.text == x then 1 else 0
  }

  lemma StoredAppend(q: seq<Slot>, s: Slot, x: string)
    ensures Stored(q + [s], x) == Stored(q, x) + One(s, x)
  {
    StoredConcat(q, [s], x);
    assert [s][1..] == [];
  }

  lemma StoredWithout(q: seq<Slot>, i: nat, x: string)
    requires i < |q|
    ensures Stored(q, x) == Stored(Without(q, i), x) + One(q[i], x)
  {
    assert q == (q[..i] + [q[i]]) + q[i + 1..];
    StoredConcat(q[..i] + [q[i]], q[i + 1..], x);
    StoredAppend(q[..i], q[i], x);
    StoredConcat(q[..i], q[i + 1..], x);
  }

  lemma StoredUpdate(q: seq<Slot>, i: nat, s: Slot, x: string)
    requires i < |q| && s.text == q[i].text
    ensures Stored(q[i := s], x) == Stored(q, x)
  {
    StoredWithout(q, i, x);
    StoredWithout(q[i := s], i, x);
    assert Without(q, i) == Without(q[i := s], i);
  }

  function IndexOf(q: seq<Slot>, id: nat): (i: nat)
    ensures i <= |q| && (i < |q| ==> q[i].id == id)
    ensures i == |q| ==> forall j :: 0 <= j < |q| ==> q[j].id != id
  {
    if q == [] then 0 else if q[0].id == id then 0 else 1 + IndexOf(q[1..], id)
  }

  // -- every interleaving of workers and redrive scripts, with crashes --

  /** Where a consumer is. Holding and Acking are the try block of the worker; Poisoning and
      Poisoned are the send and the delete of its catch block; Redriving and Redriven those
      of the redrive script. */
  datatype Phase =
    | Idle
    | Holding(slot: Slot)
    | Acking(slot: Slot)
    | Poisoning(slot: Slot)
    | Poisoned(slot: Slot)
    | Redriving(slot: Slot)
    | Redriven(slot: Slot)

  /** What happened to each message id of the main queue: how often it was received, how often
      its handling ended, and how often its newest delivery, with the count spent, escaped. */
  datatype History = History(
    used: set<nat>,
    received: multiset<nat>,
    handled: multiset<nat>,
    escaped: multiset<nat>)

  const NO_HISTORY := History({}, multiset{}, multiset{}, multiset{})

  /** `sent` and `acked` are histories; `leaked` counts copies whose original outlived the
      consumer that copied it. */
  datatype State = State(
    main: seq<Slot>,
    poison: seq<Slot>,
    consumers: seq<Phase>,
    sent: multiset<string>,
    acked: multiset<string>,
    leaked: multiset<string>,
    history: History)

  /** `w` names a consumer, `id` a stored message, `done` says whether a delete is carried
      out (a delete of a message that is gone is refused in any case). */
  datatype Action =
    | Send(id: nat, text: string)
    | Receive(w: nat, id: nat)
    | Handle(w: nat, ok: bool)
    | Delete(w: nat, done: bool)
    | SendPoison(w: nat, id: nat)
    | ReceivePoison(w: nat, id: nat)
    | SendMain(w: nat, id: nat)
    | Crash(w: nat)

  /** A move whose copy is made and whose original is not yet deleted. */
  predicate HalfMoved(p: Phase) {
    p.Poisoned? || p.Redriven?
  }

  function Copies(p: Phase, x: string): nat {
    if HalfMoved(p) then One(p.slot, x) else 0
  }

  function CopiesOf(x: string): Phase -> nat {
    (p: Phase) => Copies(p, x)
  }

  function Tally(ps: seq<Phase>, f: Phase -> nat): nat {
    if ps == [] then 0 else f(ps[0]) + Tally(ps[1..], f)
  }

  function InFlight(ps: seq<Phase>, x: string): nat {
    Tally(ps, CopiesOf(x))
  }

  function Leak(p: Phase): multiset<string> {
    if HalfMoved(p) then multiset{p.slot.text} else multiset{}
  }

  /** The message of the main queue that a consumer is at work on. */
  function InWork(p: Phase): Option<Slot> {
    if p.Holding? || p.Acking? || p.Poisoning? || p.Poisoned? then Some(p.slot) else None
  }

  function Find(q: seq<Slot>, id: nat): Option<Slot> {
    var i := IndexOf(q, id);
    if i < |q| then Some(q[i]) else None
  }

  /** The delivery is the newest of a stored message. */
  predicate Newest(q: seq<Slot>, slot: Slot) {
    Find(q, slot.id).Some? && Find(q, slot.id).value.dequeueCount == slot.dequeueCount
  }

  /** What is lost track of when a consumer lets go of a delivery without deleting the
      message: the newest delivery, with the count spent, should have been the last. */
  function Escape(max: nat, q: seq<Slot>, slot: Slot): multiset<nat> {
    if slot.dequeueCount >= max && Newest(q, slot) then multiset{slot.id} else multiset{}
  }

  predicate IsDelivery(p: Phase, id: nat, count: nat) {
    InWork(p).Some? && InWork(p).value.id == id && InWork(p).value.dequeueCount == count
  }

  /** The message is handed out again while a consumer is at work on its newest delivery. */
  function Lapse(max: nat, ps: seq<Phase>, slot: Slot): multiset<nat> {
    if slot.dequeueCount >= max && exists w :: 0 <= w < |ps| && IsDelivery(ps[w], slot.id, slot.dequeueCount)
    then multiset{slot.id} else multiset{}
  }

  /** The catch block: poison when the count is spent, otherwise leave the message. */
  function Caught(max: nat, slot: Slot): Phase {
    if slot.dequeueCount >= max then Poisoning(slot) else Idle
  }

  function DeleteStep(max: nat, s: State, w: nat, done: bool): State
    requires w < |s.consumers|
  {
    var p := s.consumers[w];
    match p
    case Acking(slot) =>
      var i := IndexOf(s.main, slot.id);
      if done && i < |s.main| then
        s.(main := Without(s.main, i), acked := s.acked + multiset{s.main[i].text}, consumers := s.consumers[w := Idle])
      else s.(consumers := s.consumers[w := Caught(max, slot)])
    case Poisoned(slot) =>
      var i := IndexOf(s.main, slot.id);
      if done && i < |s.main| && s.main[i].text == slot.text then
        s.(main := Without(s.main, i), consumers := s.consumers[w := Idle])
      else
        var h := s.history.(escaped := s.history.escaped + Escape(max, s.main, slot));
        s.(leaked := s.leaked + multiset{slot.text}, consumers := s.consumers[w := Idle], history := h)
    case Redriven(slot) =>
      var i := IndexOf(s.poison, slot.id);
      if done && i < |s.poison| && s.poison[i].text == slot.text then
        s.(poison := Without(s.poison, i), consumers := s.consumers[w := Idle])
      else s.(leaked := s.leaked + multiset{slot.text}, consumers := s.consumers[w := Idle])
    case _ => s
  }

  function Sent(h: History, id: nat): History {
    h.(used := h.used + {id})
  }

  /** An action that does not fit the state leaves it unchanged; so does a send under an id
      that was given out before. */
  function Next(max: nat, s: State, a: Action): State {
    var h := s.history;
    match a
    case Send(id, text) =>
      if id in h.used then s
      else s.(main := s.main + [Slot(id, text, 0)], sent := s.sent + multiset{text}, history := Sent(h, id))
    case Receive(w, id) =>
      var i := IndexOf(s.main, id);
      if w >= |s.consumers| || s.consumers[w] != Idle || i == |s.main| then s
      else
        var slot := s.main[i].(dequeueCount := s.main[i].dequeueCount + 1);
        s.(main := s.main[i := slot], consumers := s.consumers[w := Holding(slot)],
           history := h.(received := h.received + multiset{id},
                         escaped := h.escaped + Lapse(max, s.consumers, s.main[i])))
    case Handle(w, ok) =>
      if w >= |s.consumers| || !s.consumers[w].Holding? then s
      else
        var slot := s.consumers[w].slot;
        s.(consumers := s.consumers[w := if ok then Acking(slot) else Caught(max, slot)],
           history := h.(handled := h.handled + multiset{slot.id}))
    case Delete(w, done) => if w >= |s.consumers| then s else DeleteStep(max, s, w, done)
    case SendPoison(w, id) =>
      if w >= |s.consumers| || !s.consumers[w].Poisoning? || id in h.used then s
      else
        var slot := s.consumers[w].slot;
        s.(poison := s.poison + [Slot(id, slot.text, 0)], consumers := s.consumers[w := Poisoned(slot)],
           history := Sent(h, id))
    case ReceivePoison(w, id) =>
      var i := IndexOf(s.poison, id);
      if w >= |s.consumers| || s.consumers[w] != Idle || i == |s.poison| then s
      else
        var slot := s.poison[i].(dequeueCount := s.poison[i].dequeueCount + 1);
        s.(poison := s.poison[i := slot], consumers := s.consumers[w := Redriving(slot)])
    case SendMain(w, id) =>
      if w >= |s.consumers| || !s.consumers[w].Redriving? || id in h.used then s
      else
        var slot := s.consumers[w].slot;
        s.(main := s.main + [Slot(id, slot.text, 0)], consumers := s.consumers[w := Redriven(slot)],
           history := Sent(h, id))
    case Crash(w) =>
      if w >= |s.consumers| then s
      else
        var p := s.consumers[w];
        var lost := if InWork(p).Some? then Escape(max, s.main, InWork(p).value) else multiset{};
        s.(leaked := s.leaked + Leak(p), consumers := s.consumers[w := Idle],
           history := h.(escaped := h.escaped + lost))
  }

  function Run(max: nat, n: nat, schedule: seq<Action>): State {
    if schedule == [] then State([], [], seq(n, _ => Idle), multiset{}, multiset{}, multiset{}, NO_HISTORY)
    else Next(max, Run(max, n, schedule[..|schedule| - 1]), schedule[|schedule| - 1])
  }

  lemma {:induction false} TallyUpdate(ps: seq<Phase>, w: nat, p: Phase, f: Phase -> nat)
    requires w < |ps|
    ensures Tally(ps[w := p], f) + f(ps[w]) == Tally(ps, f) + f(p)
  {
    if w == 0 {
      assert ps[w := p][1..] == ps[1..];
    } else {
      TallyUpdate(ps[1..], w - 1, p, f);
      assert ps[w := p][1..] == ps[1..][w - 1 := p];
    }
  }

  lemma {:induction false} TallyZero(ps: seq<Phase>, f: Phase -> nat)
    ensures Tally(ps, f) == 0 <==> forall w :: 0 <= w < |ps| ==> f(ps[w]) == 0
  {
    if ps != [] {
      TallyZero(ps[1..], f);
      assert forall w :: 0 <= w < |ps[1..]| ==> ps[1..][w] == ps[w + 1];
      assert forall w :: 0 < w < |ps| ==> ps[w] == ps[1..][w - 1];
    }
  }

  lemma {:induction false} InFlightUpdate(ps: seq<Phase>, w: nat, p: Phase, x: string)
    requires w < |ps|
    ensures InFlight(ps[w := p], x) + Copies(ps[w], x) == InFlight(ps, x) + Copies(p, x)
  {
    TallyUpdate(ps, w, p, CopiesOf(x));
  }

  lemma {:induction false} NoneInFlight(ps: seq<Phase>, x: string)
    requires forall w :: 0 <= w < |ps| ==> !HalfMoved(ps[w])
    ensures InFlight(ps, x) == 0
  {
    TallyZero(ps, CopiesOf(x));
  }

  /** Everything stored or acknowledged is everything sent, plus one copy for each move that
      is between its send and its delete, plus the copies left by crashes and lost deletes. */
  predicate Balanced(s: State, x: string) {
    Stored(s.main, x) + Stored(s.poison, x) + s.acked[x] == s.sent[x] + InFlight(s.consumers, x) + s.leaked[x]
  }

  lemma DeleteBalances(max: nat, s: State, w: nat, done: bool, x: string)
    requires Balanced(s, x) && w < |s.consumers|
    ensures Balanced(DeleteStep(max, s, w, done), x)
  {
    var p := s.consumers[w];
    if p.Acking? || p.Poisoned? || p.Redriven? {
      var q := if p.Redriven? then s.poison else s.main;
      var i := IndexOf(q, p.slot.id);
      if i < |q| {
        StoredWithout(q, i, x);
      }
      InFlightUpdate(s.consumers, w, Idle, x);
      InFlightUpdate(s.consumers, w, Caught(max, p.slot), x);
    }
  }

  /** Changing one queue and one consumer balances when their counts change alike. */
  lemma ReceiveBalances(max: nat, s: State, a: Action, x: string)
    requires Balanced(s, x) && (a.Receive? || a.ReceivePoison?)
    ensures Balanced(Next(max, s, a), x)
  {
    var q := if a.Receive? then s.main else s.poison;
    var i := IndexOf(q, a.id);
    if a.w < |s.consumers| && s.consumers[a.w] == Idle && i < |q| {
      var slot := q[i].(dequeueCount := q[i].dequeueCount + 1);
      StoredUpdate(q, i, slot, x);
      InFlightUpdate(s.consumers, a.w, if a.Receive? then Holding(slot) else Redriving(slot), x);
    }
  }

  lemma CopyBalances(max: nat, s: State, a: Action, x: string)
    requires Balanced(s, x) && (a.SendPoison? || a.SendMain?)
    ensures Balanced(Next(max, s, a), x)
  {
    if a.w < |s.consumers| && (s.consumers[a.w].Poisoning? || s.consumers[a.w].Redriving?) {
      var slot := s.consumers[a.w].slot;
      StoredAppend(if a.SendPoison? then s.poison else s.main, Slot(a.id, slot.text, 0), x);
      InFlightUpdate(s.consumers, a.w, if a.SendPoison? then Poisoned(slot) else Redriven(slot), x);
    }
  }

  lemma HandleBalances(max: nat, s: State, w: nat, ok: bool, x: string)
    requires Balanced(s, x)
    ensures Balanced(Next(max, s, Handle(w, ok)), x)
  {
    if w < |s.consumers| && s.consumers[w].Holding? {
      var slot := s.consumers[w].slot;
      InFlightUpdate(s.consumers, w, if ok then Acking(slot) else Caught(max, slot), x);
    }
  }

  lemma NextBalances(max: nat, s: State, a: Action, x: string)
    requires Balanced(s, x)
    ensures Balanced(Next(max, s, a), x)
  {
    match a
    case Send(id, text) => StoredAppend(s.main, Slot(id, text, 0), x);
    case Receive(_, _) => ReceiveBalances(max, s, a, x);
    case ReceivePoison(_, _) => ReceiveBalances(max, s, a, x);
    case Handle(w, ok) => HandleBalances(max, s, w, ok, x);
    case Delete(w, done) =>
      if w < |s.consumers| {
        DeleteBalances(max, s, w, done, x);
      }
    case SendPoison(_, _) => CopyBalances(max, s, a, x);
    case SendMain(_, _) => CopyBalances(max, s, a, x);
    case Crash(w) =>
      if w < |s.consumers| {
        InFlightUpdate(s.consumers, w, Idle, x);
      }
  }

  lemma {:induction false} RunBalances(max: nat, n: nat, schedule: seq<Action>, x: string)
    ensures Balanced(Run(max, n, schedule), x)
  {
    if schedule == [] {
      NoneInFlight(Run(max, n, schedule).consumers, x);
    } else {
      RunBalances(max, n, schedule[..|schedule| - 1], x);
      NextBalances(max, Run(max, n, schedule[..|schedule| - 1]), schedule[|schedule| - 1], x);
    }
  }

  /** No text is ever lost: with any number of consumers, redelivery, failed deletes and
      crashes at any point, each text sent is in the main queue, in the poison queue or
      acknowledged at least as often as it was sent. */
  lemma {:induction false} NothingIsLost(max: nat, n: nat, schedule: seq<Action>, x: string)
    ensures var s := Run(max, n, schedule); s.sent[x] <= Stored(s.main, x) + Stored(s.poison, x) + s.acked[x]
  {
    RunBalances(max, n, schedule, x);
  }

  /** The original of a half-done move is still stored. */
  predicate OriginalStored(s: State, p: Phase)
    requires HalfMoved(p)
  {
    var q := if p.Poisoned? then s.main else s.poison;
    var i := IndexOf(q, p.slot.id);
    i < |q| && q[i].text == p.slot.text
  }

  /** No consumer stops half-way through a move: it does not crash, and its delete finds
      the original and is carried out. */
  predicate Clean(s: State, a: Action) {
    && !a.Crash?
    && (a.Delete? && a.w < |s.consumers| && HalfMoved(s.consumers[a.w]) ==>
          a.done && OriginalStored(s, s.consumers[a.w]))
  }

  lemma CleanStepLeaksNothing(max: nat, s: State, a: Action)
    requires Clean(s, a)
    ensures Next(max, s, a).leaked == s.leaked
  {
    match a
    case Crash(_) =>
    case Delete(w, done) =>
    case _ =>
  }

  lemma {:induction false} CleanRunLeaksNothing(max: nat, n: nat, schedule: seq<Action>)
    requires forall i :: 0 <= i < |schedule| ==> Clean(Run(max, n, schedule[..i]), schedule[i])
    ensures Run(max, n, schedule).leaked == multiset{}
  {
    if schedule != [] {
      var init := schedule[..|schedule| - 1];
      forall i | 0 <= i < |init| ensures Clean(Run(max, n, init[..i]), init[i]) {
        assert init[..i] == schedule[..i];
      }
      CleanRunLeaksNothing(max, n, init);
      CleanStepLeaksNothing(max, Run(max, n, init), schedule[|schedule| - 1]);
    }
  }

  /** When no consumer was stopped half-way through a move and none is half-way now,
      conservation is exact: nothing is lost and nothing is duplicated. */
  lemma {:induction false} CleanRunConservesExactly(max: nat, n: nat, schedule: seq<Action>, x: string)
    requires forall i :: 0 <= i < |schedule| ==> Clean(Run(max, n, schedule[..i]), schedule[i])
    requires forall w :: 0 <= w < |Run(max, n, schedule).consumers| ==> !HalfMoved(Run(max, n, schedule).consumers[w])
    ensures var s := Run(max, n, schedule); Stored(s.main, x) + Stored(s.poison, x) + s.acked[x] == s.sent[x]
  {
    RunBalances(max, n, schedule, x);
    CleanRunLeaksNothing(max, n, schedule);
    NoneInFlight(Run(max, n, schedule).consumers, x);
  }
}
