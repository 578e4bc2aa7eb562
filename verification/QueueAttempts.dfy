/** How often a message is handled, over every interleaving of workers and redrive scripts with
    redelivery and crashes. */
module QueueAttempts {
  import opened Prelude
  import opened QueueProtocol

  ghost predicate DistinctIds(q: seq<Slot>) {
    forall i, j :: 0 <= i < j < |q| ==> q[i].id != q[j].id
  }

  // -- finding a message by its id --

  lemma {:induction false} IndexIs(q: seq<Slot>, j: nat)
    requires DistinctIds(q) && j < |q|
    ensures IndexOf(q, q[j].id) == j && Find(q, q[j].id) == Some(q[j])
  {
    if j > 0 {
      IndexIs(q[1..], j - 1);
    }
  }

  lemma {:induction false} FoundAt(q: seq<Slot>, id: nat)
    ensures Find(q, id).Some? ==> IndexOf(q, id) < |q| && q[IndexOf(q, id)] == Find(q, id).value
    ensures Find(q, id).Some? ==> Find(q, id).value.id == id
    ensures Find(q, id) == None ==> forall i :: 0 <= i < |q| ==> q[i].id != id
  {
  }

  lemma {:induction false} FindAppend(q: seq<Slot>, s: Slot, id: nat)
    requires DistinctIds(q) && Find(q, s.id) == None
    ensures DistinctIds(q + [s])
    ensures Find(q + [s], id) == if s.id == id then Some(s) else Find(q, id)
  {
    var r := q + [s];
    FoundAt(q, s.id);
    FoundAt(q, id);
    FoundAt(r, id);
    IndexIs(r, |q|);
    if Find(q, id).Some? {
      assert r[IndexOf(q, id)] == q[IndexOf(q, id)];
      IndexIs(r, IndexOf(q, id));
    }
  }

  /** What is left moves up by one from the gap on. */
  lemma {:induction false} WithoutAt(q: seq<Slot>, i: nat, j: nat)
    requires i < |q| && j < |q| && j != i
    ensures
      var k := if j < i then j else j - 1;
      k < |Without(q, i)| && Without(q, i)[k] == q[j]
  {
  }

  lemma {:induction false} WithoutIsDistinct(q: seq<Slot>, i: nat)
    requires DistinctIds(q) && i < |q|
    ensures DistinctIds(Without(q, i))
    ensures forall j :: 0 <= j < |Without(q, i)| ==> Without(q, i)[j] in q && Without(q, i)[j].id != q[i].id
  {
    var r := Without(q, i);
    assert forall j :: 0 <= j < |r| ==> r[j] == q[if j < i then j else j + 1];
  }

  lemma {:induction false} FindWithout(q: seq<Slot>, i: nat, id: nat)
    requires DistinctIds(q) && i < |q|
    ensures DistinctIds(Without(q, i))
    ensures Find(Without(q, i), id) == if q[i].id == id then None else Find(q, id)
  {
    var r := Without(q, i);
    WithoutIsDistinct(q, i);
    FoundAt(q, id);
    FoundAt(r, id);
    if Find(q, id).Some? && q[i].id != id {
      var j := IndexOf(q, id);
      WithoutAt(q, i, j);
      IndexIs(r, if j < i then j else j - 1);
    }
  }

  lemma {:induction false} FindUpdate(q: seq<Slot>, i: nat, s: Slot, id: nat)
    requires DistinctIds(q) && i < |q| && s.id == q[i].id
    ensures DistinctIds(q[i := s])
    ensures Find(q[i := s], id) == if s.id == id then Some(s) else Find(q, id)
  {
    var r := q[i := s];
    FoundAt(q, id);
    FoundAt(r, id);
    IndexIs(r, i);
    if Find(q, id).Some? {
      IndexIs(r, IndexOf(q, id));
    }
  }

  // -- counting consumers --

  /** Consumers that hold the message and have not yet ended its handling. */
  function Holds(id: nat): Phase -> nat {
    (p: Phase) => if p.Holding? && p.slot.id == id then 1 else 0
  }

  /** Consumers at work on one delivery of the message. */
  function WorksOn(id: nat, count: nat): Phase -> nat {
    (p: Phase) => if IsDelivery(p, id, count) then 1 else 0
  }

  // -- what every run keeps --

  /** Ids in the main queue differ, and all were given out. */
  ghost predicate Sane(s: State) {
    && DistinctIds(s.main)
    && (forall i :: 0 <= i < |s.main| ==> s.main[i].id in s.history.used)
  }

  /** No consumer is at work on a later delivery than the newest. */
  ghost predicate UpTo(ps: seq<Phase>, id: nat, count: nat) {
    forall w :: 0 <= w < |ps| && InWork(ps[w]).Some? && InWork(ps[w]).value.id == id ==>
                  InWork(ps[w]).value.dequeueCount <= count
  }

  ghost predicate Nobody(ps: seq<Phase>, id: nat) {
    forall w :: 0 <= w < |ps| && InWork(ps[w]).Some? ==> InWork(ps[w]).value.id != id
  }

  /** A stored message: its count is the number of its deliveries, and once it is spent, each
      of them from number max on has escaped or is the newest, which one consumer works on. */
  ghost predicate StoredTracks(max: nat, slot: Slot, ps: seq<Phase>, received: nat, escaped: nat) {
    var c, active := slot.dequeueCount, Tally(ps, WorksOn(slot.id, slot.dequeueCount));
    && received == c && UpTo(ps, slot.id, c)
    && (if c < max then escaped == 0 else escaped + active == c - max + 1 && active <= 1)
  }

  ghost predicate Tracks(max: nat, s: State, id: nat) {
    var h := s.history;
    && h.handled[id] + Tally(s.consumers, Holds(id)) <= h.received[id] <= max + h.escaped[id]
    && (id !in h.used ==> h.received[id] == 0 && h.escaped[id] == 0 && Nobody(s.consumers, id))
    && (Find(s.main, id).Some? ==>
          StoredTracks(max, Find(s.main, id).value, s.consumers, h.received[id], h.escaped[id]))
  }

  /** A consumer that goes over to a phase in which it does the same work, or none on `id`. */
  lemma {:induction false} ChangeTracks(max: nat, s: State, w: nat, p: Phase, id: nat, s': State)
    requires max > 0 && Tracks(max, s, id) && w < |s.consumers| && !p.Holding?
    requires InWork(p).None? || InWork(p) == InWork(s.consumers[w])
    requires s'.consumers == s.consumers[w := p] && Find(s'.main, id) == Find(s.main, id)
    requires s'.history.used >= s.history.used && s'.history.received[id] == s.history.received[id]
    requires s'.history.handled[id] + Holds(id)(p) <= s.history.handled[id] + Holds(id)(s.consumers[w])
    requires
      var q := s.consumers[w];
      s'.history.escaped[id] == s.history.escaped[id] +
        if InWork(q).Some? && InWork(p).None? then Escape(max, s.main, InWork(q).value)[id] else 0
    ensures Tracks(max, s', id)
  {
    TallyUpdate(s.consumers, w, p, Holds(id));
    FoundAt(s.main, id);
    if Find(s.main, id).Some? {
      var c := Find(s.main, id).value.dequeueCount;
      TallyUpdate(s.consumers, w, p, WorksOn(id, c));
    }
  }

  /** A new message in the main queue. */
  lemma {:induction false} AppendTracks(max: nat, s: State, slot: Slot, id: nat, s': State)
    requires max > 0 && Sane(s) && Tracks(max, s, id) && slot.dequeueCount == 0 && slot.id !in s.history.used
    requires s'.consumers == s.consumers && s'.main == s.main + [slot] && s'.history == Sent(s.history, slot.id)
    requires id == slot.id ==> Tracks(max, s, slot.id)
    ensures Sane(s') && Tracks(max, s', id)
  {
    FoundAt(s.main, slot.id);
    FindAppend(s.main, slot, id);
  }

  /** A message taken from the main queue by the consumer at work on it. */
  lemma {:induction false} RemoveTracks(max: nat, s: State, w: nat, i: nat, id: nat, s': State)
    requires max > 0 && Sane(s) && Tracks(max, s, id) && w < |s.consumers| && i < |s.main|
    requires InWork(s.consumers[w]).Some? && InWork(s.consumers[w]).value.id == s.main[i].id
    requires s'.consumers == s.consumers[w := Idle] && s'.main == Without(s.main, i) && s'.history == s.history
    ensures Sane(s') && Tracks(max, s', id)
  {
    FindWithout(s.main, i, id);
    assert forall j :: 0 <= j < |s'.main| ==> s'.main[j] == s.main[if j < i then j else j + 1];
    if id == s.main[i].id {
      TallyUpdate(s.consumers, w, Idle, Holds(id));
    } else {
      ChangeTracks(max, s, w, Idle, id, s');
    }
  }

  /** The newest delivery of the message before this one, if it was spent, has escaped or
      lapses now. */
  lemma {:induction false} LapseCounts(max: nat, slot: Slot, ps: seq<Phase>, received: nat, escaped: nat)
    requires max > 0 && StoredTracks(max, slot, ps, received, escaped)
    ensures
      var e := escaped + Lapse(max, ps, slot)[slot.id];
      if slot.dequeueCount < max then e == 0 else e == slot.dequeueCount - max + 1
  {
    TallyZero(ps, WorksOn(slot.id, slot.dequeueCount));
  }

  lemma {:induction false} ReceivedTracks(max: nat, slot: Slot, ps: seq<Phase>, w: nat, received: nat, escaped: nat)
    requires max > 0 && StoredTracks(max, slot, ps, received, escaped) && w < |ps| && ps[w] == Idle
    ensures
      var next := slot.(dequeueCount := slot.dequeueCount + 1);
      StoredTracks(max, next, ps[w := Holding(next)], received + 1, escaped + Lapse(max, ps, slot)[slot.id])
  {
    var next := slot.(dequeueCount := slot.dequeueCount + 1);
    LapseCounts(max, slot, ps, received, escaped);
    TallyZero(ps, WorksOn(slot.id, next.dequeueCount));
    TallyUpdate(ps, w, Holding(next), WorksOn(slot.id, next.dequeueCount));
  }

  /** A consumer that takes another message. */
  lemma {:induction false} TakeOther(max: nat, slot: Slot, ps: seq<Phase>, w: nat, taken: Slot, received: nat,
                                     escaped: nat)
    requires StoredTracks(max, slot, ps, received, escaped) && w < |ps| && ps[w] == Idle && taken.id != slot.id
    ensures StoredTracks(max, slot, ps[w := Holding(taken)], received, escaped)
  {
    TallyUpdate(ps, w, Holding(taken), WorksOn(slot.id, slot.dequeueCount));
  }

  /** A message of the main queue taken by an idle consumer. */
  lemma {:induction false} TakeTracks(max: nat, s: State, w: nat, i: nat, slot: Slot, id: nat, s': State)
    requires max > 0 && Sane(s) && Tracks(max, s, id)
    requires w < |s.consumers| && s.consumers[w] == Idle && i < |s.main|
    requires slot == s.main[i].(dequeueCount := s.main[i].dequeueCount + 1)
    requires s'.main == s.main[i := slot] && s'.consumers == s.consumers[w := Holding(slot)]
    requires s'.history.used == s.history.used && s'.history.handled == s.history.handled
    requires s'.history.received == s.history.received + multiset{slot.id}
    requires s'.history.escaped == s.history.escaped + Lapse(max, s.consumers, s.main[i])
    ensures Tracks(max, s', id)
  {
    var h := s.history;
    FindUpdate(s.main, i, slot, id);
    IndexIs(s.main, i);
    TallyUpdate(s.consumers, w, Holding(slot), Holds(id));
    if id == slot.id {
      ReceivedTracks(max, s.main[i], s.consumers, w, h.received[id], h.escaped[id]);
    } else if Find(s.main, id).Some? {
      FoundAt(s.main, id);
      TakeOther(max, Find(s.main, id).value, s.consumers, w, slot, h.received[id], h.escaped[id]);
    }
  }

  lemma {:induction false} ReceiveTracks(max: nat, s: State, w: nat, at: nat, id: nat)
    requires max > 0 && Sane(s) && Tracks(max, s, id)
    ensures Sane(Next(max, s, Receive(w, at))) && Tracks(max, Next(max, s, Receive(w, at)), id)
  {
    var i := IndexOf(s.main, at);
    if w < |s.consumers| && s.consumers[w] == Idle && i < |s.main| {
      var slot := s.main[i].(dequeueCount := s.main[i].dequeueCount + 1);
      FindUpdate(s.main, i, slot, id);
      TakeTracks(max, s, w, i, slot, id, Next(max, s, Receive(w, at)));
    }
  }

  lemma {:induction false} DeleteTracks(max: nat, s: State, w: nat, done: bool, id: nat)
    requires max > 0 && Sane(s) && Tracks(max, s, id) && w < |s.consumers|
    ensures Sane(DeleteStep(max, s, w, done)) && Tracks(max, DeleteStep(max, s, w, done), id)
  {
    var p, s' := s.consumers[w], DeleteStep(max, s, w, done);
    if p.Acking? || p.Poisoned? {
      var i := IndexOf(s.main, p.slot.id);
      if s'.main != s.main && i < |s.main| {
        RemoveTracks(max, s, w, i, id, s');
      } else if p.Acking? {
        ChangeTracks(max, s, w, Caught(max, p.slot), id, s');
      } else {
        ChangeTracks(max, s, w, Idle, id, s');
      }
    } else if p.Redriven? {
      ChangeTracks(max, s, w, Idle, id, s');
    }
  }

  lemma {:induction false} CopyTracks(max: nat, s: State, a: Action, id: nat)
    requires max > 0 && Sane(s) && Tracks(max, s, id) && (a.SendPoison? || a.SendMain?)
    ensures Sane(Next(max, s, a)) && Tracks(max, Next(max, s, a), id)
  {
    var s' := Next(max, s, a);
    if a.w < |s.consumers| && a.id !in s.history.used {
      var p := s.consumers[a.w];
      if a.SendPoison? && p.Poisoning? {
        ChangeTracks(max, s, a.w, Poisoned(p.slot), id, s');
      } else if a.SendMain? && p.Redriving? {
        var s1 := s.(consumers := s.consumers[a.w := Redriven(p.slot)]);
        ChangeTracks(max, s, a.w, Redriven(p.slot), id, s1);
        AppendTracks(max, s1, Slot(a.id, p.slot.text, 0), id, s');
      }
    }
  }

  lemma {:induction false} LeaveTracks(max: nat, s: State, a: Action, id: nat)
    requires max > 0 && Sane(s) && Tracks(max, s, id) && (a.Handle? || a.Crash?)
    ensures Sane(Next(max, s, a)) && Tracks(max, Next(max, s, a), id)
  {
    var s' := Next(max, s, a);
    if a.w < |s.consumers| {
      var p := s.consumers[a.w];
      if a.Handle? && p.Holding? {
        ChangeTracks(max, s, a.w, if a.ok then Acking(p.slot) else Caught(max, p.slot), id, s');
      } else if a.Crash? {
        ChangeTracks(max, s, a.w, Idle, id, s');
      }
    }
  }

  lemma {:induction false} NextTracks(max: nat, s: State, a: Action, id: nat)
    requires max > 0 && Sane(s) && Tracks(max, s, id)
    ensures Sane(Next(max, s, a)) && Tracks(max, Next(max, s, a), id)
  {
    match a
    case Send(sent, text) =>
      if sent !in s.history.used {
        AppendTracks(max, s, Slot(sent, text, 0), id, Next(max, s, a));
      }
    case Receive(w, at) => ReceiveTracks(max, s, w, at, id);
    case Handle(_, _) => LeaveTracks(max, s, a, id);
    case Crash(_) => LeaveTracks(max, s, a, id);
    case Delete(w, done) =>
      if w < |s.consumers| {
        DeleteTracks(max, s, w, done, id);
      }
    case SendPoison(_, _) => CopyTracks(max, s, a, id);
    case SendMain(_, _) => CopyTracks(max, s, a, id);
    case ReceivePoison(w, at) =>
      var i := IndexOf(s.poison, at);
      if w < |s.consumers| && s.consumers[w] == Idle && i < |s.poison| {
        var slot := s.poison[i].(dequeueCount := s.poison[i].dequeueCount + 1);
        ChangeTracks(max, s, w, Redriving(slot), id, Next(max, s, a));
      }
  }

  lemma {:induction false} RunTracks(max: nat, n: nat, schedule: seq<Action>, id: nat)
    requires max > 0
    ensures Sane(Run(max, n, schedule)) && Tracks(max, Run(max, n, schedule), id)
  {
    if schedule == [] {
      var ps := Run(max, n, schedule).consumers;
      TallyZero(ps, Holds(id));
    } else {
      RunTracks(max, n, schedule[..|schedule| - 1], id);
      NextTracks(max, Run(max, n, schedule[..|schedule| - 1]), schedule[|schedule| - 1], id);
    }
  }

  /** A message is delivered at most `max` times and once more for each time its newest, spent
      delivery escaped, and it is handled at most once per delivery. */
  lemma {:induction false} HandledAtMost(max: nat, n: nat, schedule: seq<Action>, id: nat)
    requires max > 0
    ensures var h := Run(max, n, schedule).history; h.handled[id] <= h.received[id] <= max + h.escaped[id]
  {
    RunTracks(max, n, schedule, id);
  }

  // -- runs in which nothing escapes --

  /** No consumer crashes, every poisoned original is deleted, and no message is handed out
      while a consumer is at work on it. */
  ghost predicate Undisturbed(s: State, a: Action) {
    match a
    case Crash(_) => false
    case Delete(w, done) =>
      w < |s.consumers| && s.consumers[w].Poisoned? ==> done && OriginalStored(s, s.consumers[w])
    case Receive(_, id) => Nobody(s.consumers, id)
    case _ => true
  }

  lemma {:induction false} UndisturbedEscapesNothing(max: nat, s: State, a: Action)
    requires Undisturbed(s, a)
    ensures Next(max, s, a).history.escaped == s.history.escaped
  {
    match a
    case Receive(w, id) => FoundAt(s.main, id);
    case _ =>
  }

  lemma {:induction false} NothingEscapes(max: nat, n: nat, schedule: seq<Action>)
    requires forall i :: 0 <= i < |schedule| ==> Undisturbed(Run(max, n, schedule[..i]), schedule[i])
    ensures Run(max, n, schedule).history.escaped == multiset{}
  {
    if schedule != [] {
      var init := schedule[..|schedule| - 1];
      forall i | 0 <= i < |init| ensures Undisturbed(Run(max, n, init[..i]), init[i]) {
        assert init[..i] == schedule[..i];
      }
      NothingEscapes(max, n, init);
      UndisturbedEscapesNothing(max, Run(max, n, init), schedule[|schedule| - 1]);
    }
  }

  /** In a run without such disturbances a message is handled at most maxDequeue times. */
  lemma {:induction false} UndisturbedHandledAtMostMax(max: nat, n: nat, schedule: seq<Action>, id: nat)
    requires max > 0
    requires forall i :: 0 <= i < |schedule| ==> Undisturbed(Run(max, n, schedule[..i]), schedule[i])
    ensures Run(max, n, schedule).history.handled[id] <= max
  {
    NothingEscapes(max, n, schedule);
    HandledAtMost(max, n, schedule, id);
  }

  // -- the bound is reached --

  function Times(id: nat, k: nat): multiset<nat> {
    multiset{}[id := k]
  }

  /** One message, delivered k times, and one consumer that is idle again. */
  function AtRest(max: nat, k: nat): State {
    var escaped := if k < max then 0 else k - max + 1;
    State([Slot(0, "", k)], [], [Idle], multiset{""}, multiset{}, multiset{},
          History({0}, Times(0, k), Times(0, k), Times(0, escaped)))
  }

  /** k times: receive, fail, crash. */
  function Rounds(k: nat): seq<Action> {
    if k == 0 then [Send(0, "")] else Rounds(k - 1) + [Receive(0, 0), Handle(0, false), Crash(0)]
  }

  lemma {:induction false} RunSnoc(max: nat, n: nat, schedule: seq<Action>, a: Action)
    ensures Run(max, n, schedule + [a]) == Next(max, Run(max, n, schedule), a)
  {
    assert (schedule + [a])[..|schedule|] == schedule;
  }

  lemma AppendThree(schedule: seq<Action>, a: Action, b: Action, c: Action)
    ensures schedule + [a, b, c] == schedule + [a] + [b] + [c]
  {
  }

  lemma {:induction false} RunThree(max: nat, n: nat, schedule: seq<Action>, a: Action, b: Action, c: Action)
    ensures Run(max, n, schedule + [a, b, c]) == Next(max, Next(max, Next(max, Run(max, n, schedule), a), b), c)
  {
    RunSnoc(max, n, schedule, a);
    RunSnoc(max, n, schedule + [a], b);
    RunSnoc(max, n, schedule + [a] + [b], c);
    AppendThree(schedule, a, b, c);
  }

  /** One stored message and one consumer. */
  predicate Alone(s: State, slot: Slot, p: Phase) {
    s.main == [slot] && s.consumers == [p]
  }

  lemma {:induction false} FirstIsFound(slot: Slot)
    ensures IndexOf([slot], slot.id) == 0 && Find([slot], slot.id) == Some(slot)
  {
  }

  lemma {:induction false} ReceiveAlone(max: nat, s: State, slot: Slot)
    requires Alone(s, slot, Idle)
    ensures
      var next := slot.(dequeueCount := slot.dequeueCount + 1);
      Next(max, s, Receive(0, slot.id)) ==
        s.(main := [next], consumers := [Holding(next)],
           history := s.history.(received := s.history.received + multiset{slot.id}))
  {
    FirstIsFound(slot);
    var next := slot.(dequeueCount := slot.dequeueCount + 1);
    assert s.main[0 := next] == [next] && s.consumers[0 := Holding(next)] == [Holding(next)];
    assert s.history.escaped + multiset{} == s.history.escaped;
  }

  lemma {:induction false} FailAlone(max: nat, s: State, slot: Slot)
    requires Alone(s, slot, Holding(slot))
    ensures
      Next(max, s, Handle(0, false)) ==
        s.(consumers := [Caught(max, slot)], history := s.history.(handled := s.history.handled + multiset{slot.id}))
  {
    assert s.consumers[0 := Caught(max, slot)] == [Caught(max, slot)];
  }

  lemma {:induction false} EscapeAlone(max: nat, slot: Slot)
    ensures Escape(max, [slot], slot) == if slot.dequeueCount >= max then multiset{slot.id} else multiset{}
  {
    FirstIsFound(slot);
  }

  /** A crash lets the message escape when its count is spent. */
  lemma {:induction false} CrashAlone(max: nat, s: State, slot: Slot, p: Phase)
    requires Alone(s, slot, p) && (p == Holding(slot) || p == Caught(max, slot))
    ensures
      var lost := if slot.dequeueCount >= max then multiset{slot.id} else multiset{};
      Next(max, s, Crash(0)) ==
        s.(consumers := [Idle], history := s.history.(escaped := s.history.escaped + lost))
  {
    EscapeAlone(max, slot);
    assert s.consumers[0 := Idle] == [Idle];
    assert InWork(p) == Some(slot) || (p == Idle && slot.dequeueCount < max);
    assert s.leaked + multiset{} == s.leaked;
    assert s.history.escaped + multiset{} == s.history.escaped;
  }

  lemma {:induction false} TimesMore(id: nat, k: nat)
    ensures Times(id, k) + multiset{id} == Times(id, k + 1) && Times(id, k) + multiset{} == Times(id, k)
  {
  }

  /** The consumer after it received and failed. */
  function AfterFailure(max: nat, k: nat): State {
    var s := AtRest(max, k);
    s.(main := [Slot(0, "", k + 1)], consumers := [Caught(max, Slot(0, "", k + 1))],
       history := s.history.(received := Times(0, k + 1), handled := Times(0, k + 1)))
  }

  lemma {:induction false} ReceiveAndFail(max: nat, k: nat)
    ensures Next(max, Next(max, AtRest(max, k), Receive(0, 0)), Handle(0, false)) == AfterFailure(max, k)
  {
    var s := AtRest(max, k);
    ReceiveAlone(max, s, Slot(0, "", k));
    FailAlone(max, Next(max, s, Receive(0, 0)), Slot(0, "", k + 1));
    TimesMore(0, k);
  }

  lemma {:induction false} OneRound(max: nat, k: nat)
    requires max > 0
    ensures
      Next(max, Next(max, Next(max, AtRest(max, k), Receive(0, 0)), Handle(0, false)), Crash(0)) == AtRest(max, k + 1)
  {
    ReceiveAndFail(max, k);
    CrashAlone(max, AfterFailure(max, k), Slot(0, "", k + 1), Caught(max, Slot(0, "", k + 1)));
    TimesMore(0, if k < max then 0 else k - max + 1);
  }

  /** Before anything happens. */
  function Before(): State {
    State([], [], [Idle], multiset{}, multiset{}, multiset{}, NO_HISTORY)
  }

  lemma {:induction false} StartsBefore(max: nat)
    ensures Run(max, 1, []) == Before()
  {
    assert Run(max, 1, []).consumers == [Idle];
  }

  lemma {:induction false} SendToEmpty(max: nat, s: State, id: nat, text: string)
    requires s.main == [] && id !in s.history.used
    ensures
      Next(max, s, Send(id, text)) ==
        s.(main := [Slot(id, text, 0)], sent := s.sent + multiset{text}, history := Sent(s.history, id))
  {
    assert [] + [Slot(id, text, 0)] == [Slot(id, text, 0)];
  }

  lemma {:induction false} FirstSend(max: nat)
    requires max > 0
    ensures Run(max, 1, [Send(0, "")]) == AtRest(max, 0)
  {
    StartsBefore(max);
    assert [] + [Send(0, "")] == [Send(0, "")];
    RunSnoc(max, 1, [], Send(0, ""));
    SendToEmpty(max, Before(), 0, "");
    assert Times(0, 0) == multiset{} && multiset{} + multiset{""} == multiset{""};
    assert {} + {0} == {0};
  }

  lemma {:induction false} OneRoundMore(max: nat, k: nat, schedule: seq<Action>)
    requires max > 0 && Run(max, 1, schedule) == AtRest(max, k)
    ensures Run(max, 1, schedule + [Receive(0, 0), Handle(0, false), Crash(0)]) == AtRest(max, k + 1)
  {
    RunThree(max, 1, schedule, Receive(0, 0), Handle(0, false), Crash(0));
    OneRound(max, k);
  }

  lemma {:induction false} AfterRounds(max: nat, k: nat)
    requires max > 0
    ensures Run(max, 1, Rounds(k)) == AtRest(max, k)
  {
    if k == 0 {
      FirstSend(max);
    } else {
      AfterRounds(max, k - 1);
      OneRoundMore(max, k - 1, Rounds(k - 1));
    }
  }

  /** The bound is exact: for every limit and every number of escapes some run reaches it. With
      one escape, a worker that crashes while it poisons, the limit is exceeded by one. */
  lemma {:induction false} BoundIsReached(max: nat, escapes: nat) returns (schedule: seq<Action>)
    requires max > 0
    ensures
      var h := Run(max, 1, schedule).history;
      h.escaped[0] == escapes && h.handled[0] == h.received[0] == max + escapes
  {
    var k := max + escapes - 1;
    schedule := Rounds(k) + [Receive(0, 0)] + [Handle(0, false)];
    AfterRounds(max, k);
    RunSnoc(max, 1, Rounds(k), Receive(0, 0));
    RunSnoc(max, 1, Rounds(k) + [Receive(0, 0)], Handle(0, false));
    ReceiveAndFail(max, k);
  }

  /** A worker that crashes while it holds the last delivery: with a limit of one, the message
      is delivered twice. */
  lemma {:induction false} CrashOnLastDelivery()
    ensures
      var h := Run(1, 1, [Send(0, "")] + [Receive(0, 0), Crash(0), Receive(0, 0)]).history;
      h.received[0] == 2 && h.escaped[0] == 1
  {
    var s, one := AtRest(1, 0), Slot(0, "", 1);
    FirstSend(1);
    RunThree(1, 1, [Send(0, "")], Receive(0, 0), Crash(0), Receive(0, 0));
    ReceiveAlone(1, s, Slot(0, "", 0));
    var s1 := Next(1, s, Receive(0, 0));
    CrashAlone(1, s1, one, Holding(one));
    ReceiveAlone(1, Next(1, s1, Crash(0)), one);
  }
}
