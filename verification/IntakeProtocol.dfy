/** processEvent as a process of atomic steps, and every interleaving of any number of
    such processes with redelivery and crashes. A schedule is any sequence of actions. */
module IntakeProtocol {
  import opened Prelude
  import opened IntakeStore = IngestStore

  datatype Config = Config(maxBytes: nat, wellformedXml: bool)

  /** One delivered event together with what the path test and the download found. */
  datatype Event = Event(
    id: string,
    key: Key,
    storageUri: string,
    blobCreated: bool,
    hasUri: bool,
    pathValid: bool,
    blobReadable: bool,
    extensionValid: bool,
    contentLength: nat,
    bytes: nat,
    streamError: bool,
    xmlWellFormed: bool)

  /** What the ingest API call comes back with. */
  datatype Reply = Accepted | HttpError(code: int) | TimedOut | CallFailed

  datatype Outcome =
    | Skipped
    | MissingStorageUri
    | BlobAccessFailed
    | InvalidPath
    | Duplicate
    | InFlight
    | AlreadyFailed
    | Failure(code: ErrorCode)
    | Success

  datatype Pc =
    | AtUpsert
    | AtClaim
    | AtFetch
    | AtMarkDuplicate
    | AtCall
    | AwaitingReply
    | AtMarkFailed(code: ErrorCode)
    | AtMarkIngested
    | Finished(outcome: Outcome)

  datatype Kind = Claim | Call | Mark | DuplicateMark | Read

  /** What one database statement or API call did: `hit` is "exactly one row". */
  datatype Entry = Entry(kind: Kind, key: Key, hit: bool, seen: Option<Status>)

  datatype Proc = Proc(event: Event, pc: Pc, crashed: bool)

  datatype State = State(table: Table, procs: map<nat, Proc>, log: seq<Entry>)

  datatype Action =
    | Deliver(pid: nat, event: Event)
    | Advance(pid: nat, reply: Reply)
    | Crash(pid: nat)

  /** The returns that come before any database statement. */
  function Start(e: Event): Pc {
    if !e.blobCreated then Finished(Skipped)
    else if !e.hasUri then Finished(MissingStorageUri)
    else if !e.blobReadable then Finished(BlobAccessFailed)
    else if !e.pathValid then Finished(InvalidPath)
    else AtUpsert
  }

  /** The local checks of the claimer, in order. */
  function ValidationError(cfg: Config, e: Event): Option<ErrorCode> {
    if e.streamError then Some(DownloadFailed)
    else if !e.extensionValid then Some(InvalidExtension)
    else if e.contentLength > cfg.maxBytes || e.bytes > cfg.maxBytes then Some(FileTooLarge)
    else if cfg.wellformedXml && !e.xmlWellFormed then Some(MalformedXml)
    else None
  }

  function AfterClaim(cfg: Config, e: Event): Pc {
    match ValidationError(cfg, e)
    case Some(code) => AtMarkFailed(code)
    case None => AtCall
  }

  /** The decision of an event that lost the claim; a missing row counts as DUPLICATE. */
  function AfterFetch(seen: Option<Status>): Pc {
    if seen == Some(Ingested) then AtMarkDuplicate
    else if seen == Some(Failed) then Finished(AlreadyFailed)
    else Finished(InFlight)
  }

  function AfterReply(reply: Reply): Pc {
    match reply
    case Accepted => AtMarkIngested
    case HttpError(code) => AtMarkFailed(IngestHttp(code))
    case TimedOut => AtMarkFailed(IngestTimeout)
    case CallFailed => AtMarkFailed(IngestError)
  }

  datatype Effect = Effect(table: Table, pc: Pc, log: seq<Entry>)

  /** One atomic step of one process. */
  function Perform(cfg: Config, t: Table, e: Event, pc: Pc, reply: Reply): Effect {
    var k := e.key;
    match pc
    case AtUpsert => Effect(Upserted(t, k, e.storageUri, e.id), AtClaim, [])
    case AtClaim =>
      if Hits(t, k, Pending)
      then Effect(Claimed(t, k), AfterClaim(cfg, e), [Entry(Claim, k, true, None)])
      else Effect(t, AtFetch, [])
    case AtFetch =>
      Effect(t, AfterFetch(StatusOf(t, k)), [Entry(Read, k, k in t, StatusOf(t, k))])
    case AtMarkDuplicate =>
      Effect(MarkedDuplicate(t, k, e.id), Finished(Duplicate), [Entry(DuplicateMark, k, k in t, None)])
    case AtCall => Effect(t, AwaitingReply, [Entry(Call, k, true, None)])
    case AwaitingReply => Effect(t, AfterReply(reply), [])
    case AtMarkFailed(code) =>
      Effect(MarkedFailed(t, k, code), Finished(Failure(code)), [Entry(Mark, k, Hits(t, k, Processing), None)])
    case AtMarkIngested =>
      Effect(MarkedIngested(t, k, e.id), Finished(Success), [Entry(Mark, k, Hits(t, k, Processing), None)])
    case Finished(_) => Effect(t, pc, [])
  }

  /** Actions that make no sense in a state (a used process number, a step of a crashed
      or finished process) leave it unchanged. */
  function Next(cfg: Config, s: State, a: Action): State {
    match a
    case Deliver(pid, e) =>
      if pid in s.procs then s
      else s.(procs := s.procs[pid := Proc(e, Start(e), false)])
    case Crash(pid) =>
      if pid !in s.procs then s
      else s.(procs := s.procs[pid := s.procs[pid].(crashed := true)])
    case Advance(pid, reply) =>
      if pid !in s.procs || s.procs[pid].crashed then s
      else
        var p := s.procs[pid];
        var f := Perform(cfg, s.table, p.event, p.pc, reply);
        State(f.table, s.procs[pid := p.(pc := f.pc)], s.log + f.log)
  }

  const Empty := State(map[], map[], [])

  function Run(cfg: Config, schedule: seq<Action>): State {
    if schedule == [] then Empty
    else Next(cfg, Run(cfg, schedule[..|schedule| - 1]), schedule[|schedule| - 1])
  }

  function Count(log: seq<Entry>, kind: Kind, k: Key): nat {
    if log == [] then 0
    else
      var last := log[|log| - 1];
      Count(log[..|log| - 1], kind, k) + (if last.kind == kind && last.key == k then 1 else 0)
  }

  /** The steps between a claim and the mark that ends it. */
  predicate Owns(p: Proc, k: Key) {
    p.event.key == k && (p.pc.AtCall? || p.pc.AwaitingReply? || p.pc.AtMarkFailed? || p.pc.AtMarkIngested?)
  }

  /** Exactly one process, crashed or not, has claimed the key and not yet marked it. */
  ghost predicate OneOwner(procs: map<nat, Proc>, k: Key) {
    && (exists pid :: pid in procs && Owns(procs[pid], k))
    && (forall p, q :: p in procs && q in procs && Owns(procs[p], k) && Owns(procs[q], k) ==> p == q)
  }

  ghost predicate NoOwner(procs: map<nat, Proc>, k: Key) {
    forall pid :: pid in procs ==> !Owns(procs[pid], k)
  }

  /** PROCESSING holds exactly while one claimer has not marked yet. */
  ghost predicate Ownership(t: Table, procs: map<nat, Proc>, k: Key) {
    if StatusOf(t, k) == Some(Processing) then OneOwner(procs, k) else NoOwner(procs, k)
  }

  datatype Tally = Tally(claims: nat, calls: nat, marks: nat, duplicates: nat)

  function TallyOf(log: seq<Entry>, k: Key): Tally {
    Tally(Count(log, Claim, k), Count(log, Call, k), Count(log, Mark, k), Count(log, DuplicateMark, k))
  }

  function RowOf(t: Table, k: Key): Option<Row> {
    if k in t then Some(t[k]) else None
  }

  /** The row of a key against the history of what was done for it. */
  predicate BooksOf(row: Option<Row>, n: Tally) {
    && n.claims <= 1
    && n.calls <= n.claims
    && match row {
         case None => n == Tally(0, 0, 0, 0)
         case Some(r) =>
           && (n.claims == 0 <==> r.status == Pending)
           && n.marks == (if r.status == Ingested || r.status == Failed then 1 else 0)
           && n.duplicates == r.duplicateCount
           && (r.errorCode.Some? <==> r.status == Failed)
           && (r.duplicateCount > 0 ==> r.status == Ingested)
       }
  }

  ghost predicate Books(t: Table, log: seq<Entry>, k: Key) {
    BooksOf(RowOf(t, k), TallyOf(log, k))
  }

  /** What a process may rely on at its own step; `n` is the history of its key. */
  predicate ProcOk(t: Table, n: Tally, p: Proc) {
    var k := p.event.key;
    && (p.pc.AtClaim? ==> k in t)
    && (p.pc.AtFetch? ==> k in t && t[k].status != Pending)
    && (p.pc.AtMarkDuplicate? ==> StatusOf(t, k) == Some(Ingested))
    && (p.pc.AtCall? ==> n.calls == 0)
  }

  ghost predicate ProcConsistent(t: Table, log: seq<Entry>, p: Proc) {
    ProcOk(t, TallyOf(log, p.event.key), p)
  }

  /** Every statement that expects a row found exactly one, and no read after a lost
      claim saw a missing or PENDING row. */
  predicate EntryGood(e: Entry) {
    && e.hit
    && (e.kind == Read ==> e.seen.Some? && e.seen.value != Pending)
  }

  ghost predicate Inv(s: State) {
    && (forall k: Key :: Books(s.table, s.log, k))
    && (forall k: Key :: Ownership(s.table, s.procs, k))
    && (forall pid :: pid in s.procs ==> ProcConsistent(s.table, s.log, s.procs[pid]))
    && (forall i :: 0 <= i < |s.log| ==> EntryGood(s.log[i]))
  }

  lemma {:induction false} CountAppend(log: seq<Entry>, more: seq<Entry>, kind: Kind, k: Key)
    requires |more| <= 1
    ensures Count(log + more, kind, k) ==
            Count(log, kind, k) + (if more != [] && more[0].kind == kind && more[0].key == k then 1 else 0)
  {
    if more == [] {
      assert log + more == log;
    } else {
      assert (log + more)[..|log|] == log;
    }
  }

  function Bump(n: Tally, kind: Kind): Tally {
    match kind
    case Claim => n.(claims := n.claims + 1)
    case Call => n.(calls := n.calls + 1)
    case Mark => n.(marks := n.marks + 1)
    case DuplicateMark => n.(duplicates := n.duplicates + 1)
    case Read => n
  }

  lemma TallyAppend(log: seq<Entry>, more: seq<Entry>, k: Key)
    requires |more| <= 1
    ensures TallyOf(log + more, k) ==
            if more != [] && more[0].key == k then Bump(TallyOf(log, k), more[0].kind) else TallyOf(log, k)
  {
    CountAppend(log, more, Claim, k);
    CountAppend(log, more, Call, k);
    CountAppend(log, more, Mark, k);
    CountAppend(log, more, DuplicateMark, k);
  }

  function Added(n: Tally, more: seq<Entry>, k: Key): Tally {
    if more != [] && more[0].key == k then Bump(n, more[0].kind) else n
  }

  /** The step of a consistent process keeps the books of every key. */
  lemma {:induction false} PerformKeepsBooks(cfg: Config, t: Table, m: Tally, p: Proc, reply: Reply, k: Key, n: Tally)
    requires BooksOf(RowOf(t, k), n) && ProcOk(t, m, p)
    requires p.event.key == k ==> m == n
    requires Owns(p, k) ==> StatusOf(t, k) == Some(Processing)
    ensures var f := Perform(cfg, t, p.event, p.pc, reply);
            BooksOf(RowOf(f.table, k), Added(n, f.log, k))
  {
    var f := Perform(cfg, t, p.event, p.pc, reply);
    if p.event.key != k {
      assert RowOf(f.table, k) == RowOf(t, k);
    }
  }

  /** .. and what it writes to the history is good. */
  lemma {:induction false} PerformLogsGood(cfg: Config, t: Table, n: Tally, p: Proc, reply: Reply)
    requires ProcOk(t, n, p)
    requires Owns(p, p.event.key) ==> StatusOf(t, p.event.key) == Some(Processing)
    ensures var f := Perform(cfg, t, p.event, p.pc, reply); |f.log| <= 1 && (f.log != [] ==> EntryGood(f.log[0]))
  {
  }

  /** A process that moves on: a record that stays as it is keeps its owner, one that is newly
      processed gets this process, and one that no longer is loses it. */
  lemma {:induction false} OwnershipMoves(procs: map<nat, Proc>, pid: nat, p': Proc, k: Key, was: bool, now: bool)
    requires pid in procs && (if was then OneOwner(procs, k) else NoOwner(procs, k))
    requires was == now ==> (Owns(p', k) <==> Owns(procs[pid], k))
    requires now && !was ==> Owns(p', k)
    requires was && !now ==> Owns(procs[pid], k) && !Owns(p', k)
    ensures if now then OneOwner(procs[pid := p'], k) else NoOwner(procs[pid := p'], k)
  {
    var procs' := procs[pid := p'];
    if now && was {
      var o :| o in procs && Owns(procs[o], k);
      assert o in procs' && Owns(procs'[o], k);
    } else if now {
      assert Owns(procs'[pid], k);
    }
  }

  lemma {:induction false} PerformMoves(cfg: Config, t: Table, p: Proc, reply: Reply, k: Key)
    requires Owns(p, k) ==> StatusOf(t, k) == Some(Processing)
    ensures
      var f := Perform(cfg, t, p.event, p.pc, reply);
      var p' := p.(pc := f.pc);
      var was, now := StatusOf(t, k) == Some(Processing), StatusOf(f.table, k) == Some(Processing);
      && (was == now ==> (Owns(p', k) <==> Owns(p, k)))
      && (now && !was ==> Owns(p', k))
      && (was && !now ==> Owns(p, k) && !Owns(p', k))
  {
  }

  lemma {:induction false} PerformKeepsOwnership(cfg: Config, t: Table, procs: map<nat, Proc>, pid: nat, reply: Reply,
                                                 k: Key)
    requires pid in procs && Ownership(t, procs, k)
    ensures
      var p := procs[pid];
      var f := Perform(cfg, t, p.event, p.pc, reply);
      Ownership(f.table, procs[pid := p.(pc := f.pc)], k)
  {
    var p := procs[pid];
    var f := Perform(cfg, t, p.event, p.pc, reply);
    PerformMoves(cfg, t, p, reply, k);
    OwnershipMoves(procs, pid, p.(pc := f.pc), k, StatusOf(t, k) == Some(Processing),
                   StatusOf(f.table, k) == Some(Processing));
  }

  /** The step of one process keeps what another relies on. */
  lemma {:induction false} PerformKeepsOther(cfg: Config, t: Table, m: Tally, p: Proc, reply: Reply, n: Tally, q: Proc)
    requires ProcOk(t, m, p) && ProcOk(t, n, q)
    requires p.pc.AtCall? && q.pc.AtCall? ==> p.event.key != q.event.key
    ensures var f := Perform(cfg, t, p.event, p.pc, reply); ProcOk(f.table, Added(n, f.log, q.event.key), q)
  {
    var f := Perform(cfg, t, p.event, p.pc, reply);
    if p.event.key != q.event.key {
      assert RowOf(f.table, q.event.key) == RowOf(t, q.event.key);
    }
  }

  lemma {:induction false} PerformKeepsSelf(cfg: Config, t: Table, n: Tally, p: Proc, reply: Reply)
    requires ProcOk(t, n, p) && BooksOf(RowOf(t, p.event.key), n)
    ensures
      var f := Perform(cfg, t, p.event, p.pc, reply);
      ProcOk(f.table, Added(n, f.log, p.event.key), p.(pc := f.pc))
  {
  }

  lemma {:induction false} AdvanceKeepsInv(cfg: Config, s: State, pid: nat, reply: Reply)
    requires Inv(s) && pid in s.procs && !s.procs[pid].crashed
    ensures Inv(Next(cfg, s, Advance(pid, reply)))
  {
    var p := s.procs[pid];
    var m := TallyOf(s.log, p.event.key);
    var f := Perform(cfg, s.table, p.event, p.pc, reply);
    var s' := Next(cfg, s, Advance(pid, reply));
    assert s' == State(f.table, s.procs[pid := p.(pc := f.pc)], s.log + f.log);
    assert Ownership(s.table, s.procs, p.event.key) && Books(s.table, s.log, p.event.key);
    assert ProcConsistent(s.table, s.log, p);
    PerformLogsGood(cfg, s.table, m, p, reply);
    forall k: Key
      ensures Books(s'.table, s'.log, k)
      ensures Ownership(s'.table, s'.procs, k)
    {
      assert Books(s.table, s.log, k) && Ownership(s.table, s.procs, k);
      PerformKeepsBooks(cfg, s.table, m, p, reply, k, TallyOf(s.log, k));
      TallyAppend(s.log, f.log, k);
      PerformKeepsOwnership(cfg, s.table, s.procs, pid, reply, k);
    }
    forall q | q in s'.procs ensures ProcConsistent(s'.table, s'.log, s'.procs[q]) {
      TallyAppend(s.log, f.log, s'.procs[q].event.key);
      if q == pid {
        PerformKeepsSelf(cfg, s.table, m, p, reply);
      } else {
        assert ProcConsistent(s.table, s.log, s.procs[q]);
        PerformKeepsOther(cfg, s.table, m, p, reply, TallyOf(s.log, s.procs[q].event.key), s.procs[q]);
      }
    }
  }

  /** Adding a process before its claim, or freezing one, changes no owner. */
  lemma SameOwners(t: Table, procs: map<nat, Proc>, pid: nat, p: Proc, k: Key)
    requires Ownership(t, procs, k)
    requires if pid in procs then Owns(p, k) == Owns(procs[pid], k) else !Owns(p, k)
    ensures Ownership(t, procs[pid := p], k)
  {
    if StatusOf(t, k) == Some(Processing) {
      var o :| o in procs && Owns(procs[o], k);
      assert Owns(procs[pid := p][o], k);
    }
  }

  lemma {:induction false} DeliverKeepsInv(cfg: Config, s: State, pid: nat, e: Event)
    requires Inv(s) && pid !in s.procs
    ensures Inv(Next(cfg, s, Deliver(pid, e)))
  {
    forall k: Key ensures Ownership(s.table, Next(cfg, s, Deliver(pid, e)).procs, k) {
      SameOwners(s.table, s.procs, pid, Proc(e, Start(e), false), k);
    }
  }

  lemma {:induction false} CrashKeepsInv(cfg: Config, s: State, pid: nat)
    requires Inv(s) && pid in s.procs
    ensures Inv(Next(cfg, s, Crash(pid)))
  {
    forall k: Key ensures Ownership(s.table, Next(cfg, s, Crash(pid)).procs, k) {
      SameOwners(s.table, s.procs, pid, s.procs[pid].(crashed := true), k);
    }
  }

  /** Safety of every interleaving: with any number of workers, redelivery and crashes,
      each key is claimed at most once and sent to the ingest API at most once; PROCESSING
      holds exactly while one claimer has not marked; every mark finds its row; the row's
      bookkeeping equals the history; and a read after a lost claim never sees a missing
      or PENDING row. */
  lemma {:induction false} EveryRunIsSafe(cfg: Config, schedule: seq<Action>)
    ensures Inv(Run(cfg, schedule))
  {
    if schedule != [] {
      EveryRunIsSafe(cfg, schedule[..|schedule| - 1]);
      var s := Run(cfg, schedule[..|schedule| - 1]);
      match schedule[|schedule| - 1]
      case Advance(pid, reply) =>
        if pid in s.procs && !s.procs[pid].crashed {
          AdvanceKeepsInv(cfg, s, pid, reply);
        }
      case Deliver(pid, e) =>
        if pid !in s.procs {
          DeliverKeepsInv(cfg, s, pid, e);
        }
      case Crash(pid) =>
        if pid in s.procs {
          CrashKeepsInv(cfg, s, pid);
        }
    }
  }

  /** Claims succeed and API calls happen at most once per key, calls only after a claim. */
  lemma {:induction false} AtMostOneClaimAndCall(cfg: Config, schedule: seq<Action>, k: Key)
    ensures var log := Run(cfg, schedule).log;
            Count(log, Call, k) <= Count(log, Claim, k) <= 1 && Count(log, Mark, k) <= Count(log, Claim, k)
  {
    EveryRunIsSafe(cfg, schedule);
    assert Books(Run(cfg, schedule).table, Run(cfg, schedule).log, k);
  }

  /** A row is PROCESSING exactly while one process has claimed it and not marked it. */
  lemma {:induction false} ProcessingIffUnmarkedClaimer(cfg: Config, schedule: seq<Action>, k: Key)
    ensures var s := Run(cfg, schedule);
            && (StatusOf(s.table, k) == Some(Processing) <==> OneOwner(s.procs, k))
            && (StatusOf(s.table, k) != Some(Processing) <==> NoOwner(s.procs, k))
  {
    EveryRunIsSafe(cfg, schedule);
    assert Ownership(Run(cfg, schedule).table, Run(cfg, schedule).procs, k);
  }

  /** Every mark, and every duplicate mark, of every run updated exactly one row. */
  lemma EveryMarkHitsOneRow(cfg: Config, schedule: seq<Action>, i: nat)
    requires i < |Run(cfg, schedule).log|
    ensures Run(cfg, schedule).log[i].hit
  {
    EveryRunIsSafe(cfg, schedule);
    assert EntryGood(Run(cfg, schedule).log[i]);
  }

  /** duplicate_count is the number of duplicate marks done, and positive on INGESTED rows
      only; error_code is set on FAILED rows and on no others. */
  lemma {:induction false} RowBookkeeping(cfg: Config, schedule: seq<Action>, k: Key)
    requires k in Run(cfg, schedule).table
    ensures
      var s := Run(cfg, schedule);
      var row := s.table[k];
      && row.duplicateCount == Count(s.log, DuplicateMark, k)
      && (row.duplicateCount > 0 ==> row.status == Ingested)
      && (row.errorCode.Some? <==> row.status == Failed)
  {
    EveryRunIsSafe(cfg, schedule);
    assert Books(Run(cfg, schedule).table, Run(cfg, schedule).log, k);
  }

  // -- the lifecycle of a row over a run --

  /** absent -> PENDING -> PROCESSING -> INGESTED or FAILED, and nothing else. */
  predicate Edge(a: Option<Status>, b: Option<Status>) {
    || (a == None && b == Some(Pending))
    || (a == Some(Pending) && b == Some(Processing))
    || (a == Some(Processing) && (b == Some(Ingested) || b == Some(Failed)))
  }

  function Rank(a: Option<Status>): nat {
    match a
    case None => 0
    case Some(Pending) => 1
    case Some(Processing) => 2
    case Some(_) => 3
  }

  lemma {:induction false} StepFollowsEdge(cfg: Config, s: State, a: Action, k: Key)
    requires Inv(s)
    ensures var before, after := StatusOf(s.table, k), StatusOf(Next(cfg, s, a).table, k);
            before == after || Edge(before, after)
  {
    assert Ownership(s.table, s.procs, k);
  }

  /** Between any two moments of a run a row only moves forward, and once INGESTED or
      FAILED it stays as it is. */
  lemma {:induction false} StatusOnlyMovesForward(cfg: Config, schedule: seq<Action>, n: nat, k: Key)
    requires n <= |schedule|
    ensures
      var early, late := StatusOf(Run(cfg, schedule[..n]).table, k), StatusOf(Run(cfg, schedule).table, k);
      Rank(early) <= Rank(late) && (Rank(early) == Rank(late) ==> early == late)
  {
    if n == |schedule| {
      assert schedule[..n] == schedule;
    } else {
      var init := schedule[..|schedule| - 1];
      assert init[..n] == schedule[..n];
      StatusOnlyMovesForward(cfg, init, n, k);
      EveryRunIsSafe(cfg, init);
      StepFollowsEdge(cfg, Run(cfg, init), schedule[|schedule| - 1], k);
    }
  }

  /** The fallback for a missing row after a lost claim is dead code: whatever the
      interleaving, a process that reads the status sees PROCESSING, INGESTED or FAILED. */
  lemma LostClaimSeesStatus(cfg: Config, schedule: seq<Action>, pid: nat)
    requires var s := Run(cfg, schedule); pid in s.procs && s.procs[pid].pc.AtFetch?
    ensures
      var s := Run(cfg, schedule);
      var seen := StatusOf(s.table, s.procs[pid].event.key);
      seen == Some(Processing) || seen == Some(Ingested) || seen == Some(Failed)
  {
    EveryRunIsSafe(cfg, schedule);
    var s := Run(cfg, schedule);
    assert ProcConsistent(s.table, s.log, s.procs[pid]);
  }

  // -- processEvent itself --

  /** `n` steps of one process with no other process in between. */
  function Alone(cfg: Config, t: Table, e: Event, pc: Pc, reply: Reply, n: nat): (Table, Pc)
    decreases n
  {
    if n == 0 then (t, pc)
    else
      var f := Perform(cfg, t, e, pc, reply);
      Alone(cfg, f.table, e, f.pc, reply, n - 1)
  }

  lemma FinishedStays(cfg: Config, t: Table, e: Event, o: Outcome, reply: Reply, n: nat)
    ensures Alone(cfg, t, e, Finished(o), reply, n) == (t, Finished(o))
    decreases n
  {
    if n > 0 {
      FinishedStays(cfg, t, e, o, reply, n - 1);
    }
  }

  // -- what one event comes to --

  /** An event that reaches the database. */
  predicate Ready(e: Event) {
    e.blobCreated && e.hasUri && e.blobReadable && e.pathValid
  }

  /** The download passes every local check. */
  predicate Sound(cfg: Config, e: Event) {
    && !e.streamError && e.extensionValid && e.contentLength <= cfg.maxBytes && e.bytes <= cfg.maxBytes
    && (cfg.wellformedXml ==> e.xmlWellFormed)
  }

  /** The first local check that the download fails is the one with this code. */
  predicate Fails(cfg: Config, e: Event, code: ErrorCode) {
    match code
    case DownloadFailed => e.streamError
    case InvalidExtension => !e.streamError && !e.extensionValid
    case FileTooLarge =>
      !e.streamError && e.extensionValid && (e.contentLength > cfg.maxBytes || e.bytes > cfg.maxBytes)
    case MalformedXml =>
      && !e.streamError && e.extensionValid && e.contentLength <= cfg.maxBytes && e.bytes <= cfg.maxBytes
      && cfg.wellformedXml && !e.xmlWellFormed
    case _ => false
  }

  /** The API turned the call down, and the code says how. */
  predicate TurnsDown(reply: Reply, code: ErrorCode) {
    || (reply.HttpError? && code == IngestHttp(reply.code))
    || (reply == TimedOut && code == IngestTimeout)
    || (reply == CallFailed && code == IngestError)
  }

  /** The row of the event: its uri and its id are those of this event. */
  predicate RowIs(t: Table, e: Event, status: Status, code: Option<ErrorCode>, duplicates: nat) {
    e.key in t && t[e.key] == Row(e.storageUri, status, code, duplicates, e.id)
  }

  function DuplicatesOf(t: Table, k: Key): nat {
    if k in t then t[k].duplicateCount else 0
  }

  /** No claim of the key succeeded before. */
  predicate Unclaimed(t: Table, k: Key) {
    k !in t || t[k].status == Pending
  }

  /** What an outcome says of the event, the row it met, the reply and the row it leaves. The
      conditions on event, row and reply exclude each other. */
  ghost predicate OutcomeFits(cfg: Config, before: Table, e: Event, reply: Reply, after: Table, outcome: Outcome) {
    && (forall j :: j != e.key ==> RowOf(after, j) == RowOf(before, j))
    && (!Ready(e) ==> after == before)
    && var n := DuplicatesOf(before, e.key);
       match outcome
       case Skipped => !e.blobCreated
       case MissingStorageUri => e.blobCreated && !e.hasUri
       case BlobAccessFailed => e.blobCreated && e.hasUri && !e.blobReadable
       case InvalidPath => e.blobCreated && e.hasUri && e.blobReadable && !e.pathValid
       case Success =>
         && Ready(e) && Unclaimed(before, e.key) && Sound(cfg, e) && reply == Accepted
         && RowIs(after, e, Ingested, None, n)
       case Failure(code) =>
         && Ready(e) && Unclaimed(before, e.key) && (Fails(cfg, e, code) || (Sound(cfg, e) && TurnsDown(reply, code)))
         && RowIs(after, e, Failed, Some(code), n)
       case Duplicate =>
         && Ready(e) && StatusOf(before, e.key) == Some(Ingested)
         && RowIs(after, e, Ingested, before[e.key].errorCode, n + 1)
       case AlreadyFailed =>
         && Ready(e) && StatusOf(before, e.key) == Some(Failed)
         && RowIs(after, e, Failed, before[e.key].errorCode, n)
       case InFlight =>
         && Ready(e) && StatusOf(before, e.key) == Some(Processing)
         && RowIs(after, e, Processing, before[e.key].errorCode, n)
  }

  /** The marks of a claimed row. */
  lemma {:induction false} ReplyMeans(cfg: Config, t: Table, e: Event, reply: Reply)
    requires RowIs(t, e, Processing, None, DuplicatesOf(t, e.key))
    ensures
      var r, n := Alone(cfg, t, e, AfterReply(reply), reply, 1), DuplicatesOf(t, e.key);
      && (forall j :: j != e.key ==> RowOf(r.0, j) == RowOf(t, j))
      && (if reply == Accepted then r.1 == Finished(Success) && RowIs(r.0, e, Ingested, None, n)
          else
            && r.1.Finished? && r.1.outcome.Failure? && TurnsDown(reply, r.1.outcome.code)
            && RowIs(r.0, e, Failed, Some(r.1.outcome.code), n))
  {
    assert Alone(cfg, t, e, AfterReply(reply), reply, 1) ==
           (Perform(cfg, t, e, AfterReply(reply), reply).table, Perform(cfg, t, e, AfterReply(reply), reply).pc);
  }

  lemma {:induction false} AloneStep(cfg: Config, t: Table, e: Event, pc: Pc, reply: Reply, n: nat)
    requires n > 0
    ensures
      var f := Perform(cfg, t, e, pc, reply);
      Alone(cfg, t, e, pc, reply, n) == Alone(cfg, f.table, e, f.pc, reply, n - 1)
  {
  }

  /** The same once the claim succeeded .. */
  ghost predicate ClaimedFits(cfg: Config, before: Table, e: Event, reply: Reply, after: Table, outcome: Outcome) {
    && (forall j :: j != e.key ==> RowOf(after, j) == RowOf(before, j))
    && var n := DuplicatesOf(before, e.key);
       match outcome
       case Success => Sound(cfg, e) && reply == Accepted && RowIs(after, e, Ingested, None, n)
       case Failure(code) =>
         (Fails(cfg, e, code) || (Sound(cfg, e) && TurnsDown(reply, code))) && RowIs(after, e, Failed, Some(code), n)
       case _ => false
  }

  /** .. and once it was lost to a row that is past PENDING. */
  ghost predicate LostFits(before: Table, e: Event, after: Table, outcome: Outcome) {
    && (forall j :: j != e.key ==> RowOf(after, j) == RowOf(before, j))
    && e.key in before
    && var row := before[e.key];
       match outcome
       case Duplicate => row.status == Ingested && RowIs(after, e, Ingested, row.errorCode, row.duplicateCount + 1)
       case AlreadyFailed => row.status == Failed && RowIs(after, e, Failed, row.errorCode, row.duplicateCount)
       case InFlight => row.status == Processing && RowIs(after, e, Processing, row.errorCode, row.duplicateCount)
       case _ => false
  }

  ghost predicate IsClaimed(t: Table, e: Event) {
    RowIs(t, e, Processing, None, DuplicatesOf(t, e.key))
  }

  ghost predicate IsLost(t: Table, e: Event) {
    e.key in t && t[e.key].storageUri == e.storageUri && t[e.key].lastEventId == e.id && t[e.key].status != Pending
  }

  lemma {:induction false} ClaimedMeans(cfg: Config, t: Table, e: Event, reply: Reply)
    requires IsClaimed(t, e)
    ensures
      var r := Alone(cfg, t, e, AfterClaim(cfg, e), reply, 3);
      r.1.Finished? && ClaimedFits(cfg, t, e, reply, r.0, r.1.outcome)
  {
    AloneStep(cfg, t, e, AfterClaim(cfg, e), reply, 3);
    match AfterClaim(cfg, e) {
      case AtMarkFailed(code) => FinishedStays(cfg, MarkedFailed(t, e.key, code), e, Failure(code), reply, 2);
      case AtCall =>
        AloneStep(cfg, t, e, AwaitingReply, reply, 2);
        ReplyMeans(cfg, t, e, reply);
      case _ =>
    }
  }

  lemma {:induction false} LostMeans(cfg: Config, t: Table, e: Event, reply: Reply)
    requires IsLost(t, e)
    ensures
      var r := Alone(cfg, t, e, AtFetch, reply, 3);
      r.1.Finished? && LostFits(t, e, r.0, r.1.outcome)
  {
    var after := AfterFetch(StatusOf(t, e.key));
    AloneStep(cfg, t, e, AtFetch, reply, 3);
    if after.Finished? {
      FinishedStays(cfg, t, e, after.outcome, reply, 2);
    } else {
      AloneStep(cfg, t, e, AtMarkDuplicate, reply, 2);
      FinishedStays(cfg, MarkedDuplicate(t, e.key, e.id), e, Duplicate, reply, 1);
    }
  }

  lemma {:induction false} ReadyMeans(cfg: Config, t: Table, e: Event, reply: Reply)
    requires Ready(e)
    ensures
      var r := Alone(cfg, t, e, AtUpsert, reply, 5);
      var upserted := Upserted(t, e.key, e.storageUri, e.id);
      r.1.Finished? &&
      if Unclaimed(t, e.key) then ClaimedFits(cfg, Claimed(upserted, e.key), e, reply, r.0, r.1.outcome)
      else LostFits(upserted, e, r.0, r.1.outcome)
  {
    var upserted := Upserted(t, e.key, e.storageUri, e.id);
    AloneStep(cfg, t, e, AtUpsert, reply, 5);
    AloneStep(cfg, upserted, e, AtClaim, reply, 4);
    if Unclaimed(t, e.key) {
      ClaimedMeans(cfg, Claimed(upserted, e.key), e, reply);
    } else {
      LostMeans(cfg, upserted, e, reply);
    }
  }

  /** An event that is handled without interruption ends in the outcome that its own fields, the
      row it meets and the reply call for, and leaves the row that the outcome says. */
  lemma {:induction false} OutcomeMeans(cfg: Config, t: Table, e: Event, reply: Reply)
    ensures
      var r := Alone(cfg, t, e, Start(e), reply, 5);
      r.1.Finished? && OutcomeFits(cfg, t, e, reply, r.0, r.1.outcome)
  {
    if Ready(e) {
      assert Start(e) == AtUpsert;
      ReadyMeans(cfg, t, e, reply);
    } else {
      FinishedStays(cfg, t, e, Start(e).outcome, reply, 5);
    }
  }

  // -- processEvent as a part of a run --

  /** The process takes its next n steps without another in between. */
  function Steps(pid: nat, reply: Reply, n: nat): seq<Action> {
    if n == 0 then [] else Steps(pid, reply, n - 1) + [Advance(pid, reply)]
  }

  lemma {:induction false} RunSnoc(cfg: Config, schedule: seq<Action>, a: Action)
    ensures Run(cfg, schedule + [a]) == Next(cfg, Run(cfg, schedule), a)
  {
    assert (schedule + [a])[..|schedule|] == schedule;
  }

  lemma {:induction false} AloneSnoc(cfg: Config, t: Table, e: Event, pc: Pc, reply: Reply, n: nat)
    ensures
      var r := Alone(cfg, t, e, pc, reply, n);
      var f := Perform(cfg, r.0, e, r.1, reply);
      Alone(cfg, t, e, pc, reply, n + 1) == (f.table, f.pc)
    decreases n
  {
    var f := Perform(cfg, t, e, pc, reply);
    if n == 0 {
      assert Alone(cfg, f.table, e, f.pc, reply, 0) == (f.table, f.pc);
    } else {
      AloneSnoc(cfg, f.table, e, f.pc, reply, n - 1);
    }
  }

  /** The process has come so far in a state. */
  ghost predicate IsAt(s: State, pid: nat, e: Event, t: Table, pc: Pc) {
    s.table == t && pid in s.procs && s.procs[pid] == Proc(e, pc, false)
  }

  lemma {:induction false} AdvanceIs(
    cfg: Config, s: State, pid: nat, e: Event, t: Table, pc: Pc, reply: Reply, f: Effect)
    requires IsAt(s, pid, e, t, pc) && f == Perform(cfg, t, e, pc, reply)
    ensures IsAt(Next(cfg, s, Advance(pid, reply)), pid, e, f.table, f.pc)
  {
  }

  /** The process has taken n steps since it began at this table and point. */
  ghost predicate HasTaken(cfg: Config, s: State, pid: nat, e: Event, t: Table, pc: Pc, reply: Reply, n: nat) {
    var r := Alone(cfg, t, e, pc, reply, n);
    IsAt(s, pid, e, r.0, r.1)
  }

  lemma {:induction false} OneStepMore(
    cfg: Config, init: seq<Action>, pid: nat, e: Event, t: Table, pc: Pc, reply: Reply, n: nat)
    requires HasTaken(cfg, Run(cfg, init), pid, e, t, pc, reply, n)
    ensures HasTaken(cfg, Run(cfg, init + [Advance(pid, reply)]), pid, e, t, pc, reply, n + 1)
  {
    RunSnoc(cfg, init, Advance(pid, reply));
    AloneSnoc(cfg, t, e, pc, reply, n);
    var r := Alone(cfg, t, e, pc, reply, n);
    AdvanceIs(cfg, Run(cfg, init), pid, e, r.0, r.1, reply, Perform(cfg, r.0, e, r.1, reply));
  }

  lemma StepsSnoc(before: seq<Action>, pid: nat, reply: Reply, n: nat)
    requires n > 0
    ensures before + Steps(pid, reply, n) == before + Steps(pid, reply, n - 1) + [Advance(pid, reply)]
  {
  }

  lemma {:induction false} AloneRuns(cfg: Config, schedule: seq<Action>, pid: nat, e: Event, reply: Reply, n: nat)
    requires pid !in Run(cfg, schedule).procs
    ensures
      HasTaken(cfg, Run(cfg, schedule + [Deliver(pid, e)] + Steps(pid, reply, n)), pid, e, Run(cfg, schedule).table,
               Start(e), reply, n)
    decreases n
  {
    var before := schedule + [Deliver(pid, e)];
    if n == 0 {
      RunSnoc(cfg, schedule, Deliver(pid, e));
      assert before + Steps(pid, reply, 0) == before;
    } else {
      AloneRuns(cfg, schedule, pid, e, reply, n - 1);
      OneStepMore(cfg, before + Steps(pid, reply, n - 1), pid, e, Run(cfg, schedule).table, Start(e), reply, n - 1);
      StepsSnoc(before, pid, reply, n);
    }
  }

  /** An event delivered in any state of any run, and not interrupted, ends after five steps with
      an outcome that fits. */
  lemma {:induction false} DeliveredIsHandled(cfg: Config, schedule: seq<Action>, pid: nat, e: Event, reply: Reply)
    requires pid !in Run(cfg, schedule).procs
    ensures
      var s := Run(cfg, schedule + [Deliver(pid, e)] + Steps(pid, reply, 5));
      && pid in s.procs && s.procs[pid].pc.Finished?
      && OutcomeFits(cfg, Run(cfg, schedule).table, e, reply, s.table, s.procs[pid].pc.outcome)
  {
    AloneRuns(cfg, schedule, pid, e, reply, 5);
    OutcomeMeans(cfg, Run(cfg, schedule).table, e, reply);
  }

  // -- crashes --

  lemma {:induction false} CrashedStays(cfg: Config, schedule: seq<Action>, pid: nat, more: seq<Action>)
    requires pid in Run(cfg, schedule).procs && Run(cfg, schedule).procs[pid].crashed
    ensures
      var s := Run(cfg, schedule + more);
      pid in s.procs && s.procs[pid] == Run(cfg, schedule).procs[pid]
    decreases |more|
  {
    if more == [] {
      assert schedule + more == schedule;
    } else {
      var init, last := more[..|more| - 1], more[|more| - 1];
      CrashedStays(cfg, schedule, pid, init);
      RunSnoc(cfg, schedule + init, last);
      assert schedule + more == schedule + init + [last];
    }
  }

  /** A worker that crashes between its claim and its mark leaves the row PROCESSING forever. */
  lemma {:induction false} CrashLeavesProcessing(
    cfg: Config, schedule: seq<Action>, pid: nat, k: Key, more: seq<Action>)
    requires pid in Run(cfg, schedule).procs && Owns(Run(cfg, schedule).procs[pid], k)
    ensures StatusOf(Run(cfg, schedule + [Crash(pid)] + more).table, k) == Some(Processing)
  {
    RunSnoc(cfg, schedule, Crash(pid));
    CrashedStays(cfg, schedule + [Crash(pid)], pid, more);
    var s := Run(cfg, schedule + [Crash(pid)] + more);
    assert Owns(s.procs[pid], k);
    ProcessingIffUnmarkedClaimer(cfg, schedule + [Crash(pid)] + more, k);
  }

  /** The part of processEvent that runs once the claim succeeded. */
  method HandleClaimed(cfg: Config, files: IngestFiles, e: Event, reply: Reply) returns (outcome: Outcome)
    modifies files
    ensures Alone(cfg, old(files.rows), e, AfterClaim(cfg, e), reply, 3) == (files.rows, Finished(outcome))
    ensures IsClaimed(old(files.rows), e) ==> ClaimedFits(cfg, old(files.rows), e, reply, files.rows, outcome)
  {
    if IsClaimed(files.rows, e) {
      ClaimedMeans(cfg, files.rows, e, reply);
    }
    outcome := CheckAndCall(cfg, files, e, reply);
  }

  /** The local checks, the call and the mark. */
  method CheckAndCall(cfg: Config, files: IngestFiles, e: Event, reply: Reply) returns (outcome: Outcome)
    modifies files
    ensures Alone(cfg, old(files.rows), e, AfterClaim(cfg, e), reply, 3) == (files.rows, Finished(outcome))
  {
    var k := e.key;
    ghost var before := files.rows;
    if e.streamError {
      var _ := files.MarkFailed(k, DownloadFailed);
      FinishedStays(cfg, files.rows, e, Failure(DownloadFailed), reply, 2);
      return Failure(DownloadFailed);
    }
    var tooLarge := e.contentLength > cfg.maxBytes || e.bytes > cfg.maxBytes;
    if !e.extensionValid || tooLarge {
      var code := if !e.extensionValid then InvalidExtension else FileTooLarge;
      var _ := files.MarkFailed(k, code);
      FinishedStays(cfg, files.rows, e, Failure(code), reply, 2);
      return Failure(code);
    }
    if cfg.wellformedXml && !e.xmlWellFormed {
      var _ := files.MarkFailed(k, MalformedXml);
      FinishedStays(cfg, files.rows, e, Failure(MalformedXml), reply, 2);
      return Failure(MalformedXml);
    }
    assert Alone(cfg, before, e, AtCall, reply, 3) == Alone(cfg, before, e, AwaitingReply, reply, 2);
    assert Alone(cfg, before, e, AwaitingReply, reply, 2) == Alone(cfg, before, e, AfterReply(reply), reply, 1);
    outcome := HandleReply(cfg, files, e, reply);
  }

  /** What follows the reply of the API. */
  method HandleReply(cfg: Config, files: IngestFiles, e: Event, reply: Reply) returns (outcome: Outcome)
    modifies files
    ensures Alone(cfg, old(files.rows), e, AfterReply(reply), reply, 1) == (files.rows, Finished(outcome))
  {
    if reply == TimedOut || reply == CallFailed {
      var code := if reply == TimedOut then IngestTimeout else IngestError;
      var _ := files.MarkFailed(e.key, code);
      return Failure(code);
    }
    if reply.HttpError? {
      var _ := files.MarkFailed(e.key, IngestHttp(reply.code));
      return Failure(IngestHttp(reply.code));
    }
    var _ := files.MarkIngested(e.key, e.id);
    return Success;
  }

  /** The part that runs once the claim was lost. */
  method HandleLost(cfg: Config, files: IngestFiles, e: Event, reply: Reply) returns (outcome: Outcome)
    modifies files
    ensures Alone(cfg, old(files.rows), e, AtFetch, reply, 3) == (files.rows, Finished(outcome))
    ensures IsLost(old(files.rows), e) ==> LostFits(old(files.rows), e, files.rows, outcome)
  {
    if IsLost(files.rows, e) {
      LostMeans(cfg, files.rows, e, reply);
    }
    ghost var before := files.rows;
    var status := files.FetchIngestStatus(e.key);
    assert Alone(cfg, before, e, AtFetch, reply, 3) == Alone(cfg, before, e, AfterFetch(status), reply, 2);
    if status == Some(Ingested) {
      var _ := files.MarkDuplicate(e.key, e.id);
      FinishedStays(cfg, files.rows, e, Duplicate, reply, 1);
      return Duplicate;
    }
    outcome := if status == Some(Failed) then AlreadyFailed else InFlight;
    FinishedStays(cfg, before, e, outcome, reply, 2);
  }

  /** processEvent as the source writes it. Uninterrupted, it ends within five steps of the
      process above, in the same table and with the same result. */
  method ProcessEvent(cfg: Config, files: IngestFiles, e: Event, reply: Reply) returns (outcome: Outcome)
    modifies files
    ensures Alone(cfg, old(files.rows), e, Start(e), reply, 5) == (files.rows, Finished(outcome))
    ensures OutcomeFits(cfg, old(files.rows), e, reply, files.rows, outcome)
  {
    OutcomeMeans(cfg, files.rows, e, reply);
    ghost var before := files.rows;
    if !e.blobCreated || !e.hasUri || !e.blobReadable || !e.pathValid {
      outcome :=
        if !e.blobCreated then Skipped
        else if !e.hasUri then MissingStorageUri
        else if !e.blobReadable then BlobAccessFailed
        else InvalidPath;
      FinishedStays(cfg, before, e, outcome, reply, 5);
      return;
    }
    var _, _ := files.UpsertIngestFile(e.key, e.storageUri, e.id);
    ghost var upserted := files.rows;
    assert Alone(cfg, before, e, AtUpsert, reply, 5) == Alone(cfg, upserted, e, AtClaim, reply, 4);
    var claimed := files.ClaimIngestFile(e.key);
    if claimed {
      assert Alone(cfg, upserted, e, AtClaim, reply, 4) == Alone(cfg, files.rows, e, AfterClaim(cfg, e), reply, 3);
      outcome := HandleClaimed(cfg, files, e, reply);
    } else {
      assert Alone(cfg, upserted, e, AtClaim, reply, 4) == Alone(cfg, files.rows, e, AtFetch, reply, 3);
      outcome := HandleLost(cfg, files, e, reply);
    }
  }
}
