/** Why a row ends as it does: INGESTED rows were accepted by the ingest API, FAILED rows failed
    a check or were turned down, over every interleaving. */
module IntakeCauses {
  import opened Prelude
  import opened IntakeStore = IngestStore
  import opened IntakeProtocol

  /** Step i advances a live process of the key that is at the given point. */
  ghost predicate StepOf(cfg: Config, schedule: seq<Action>, i: nat, k: Key, pc: Pc)
    requires i < |schedule|
  {
    && schedule[i].Advance?
    && var procs := Run(cfg, schedule[..i]).procs;
       var pid := schedule[i].pid;
       pid in procs && !procs[pid].crashed && procs[pid].event.key == k && procs[pid].pc == pc
  }

  /** Step i is the claim of the key, by this process, and it succeeds. */
  ghost predicate ClaimAt(cfg: Config, schedule: seq<Action>, i: nat, k: Key, pid: nat)
    requires i < |schedule|
  {
    && StepOf(cfg, schedule, i, k, AtClaim) && schedule[i].pid == pid
    && Hits(Run(cfg, schedule[..i]).table, k, Pending)
  }

  /** The event of a process that takes step i. */
  function EventAt(cfg: Config, schedule: seq<Action>, i: nat): Option<IntakeProtocol.Event>
    requires i < |schedule|
  {
    var procs := Run(cfg, schedule[..i]).procs;
    if schedule[i].Advance? && schedule[i].pid in procs then Some(procs[schedule[i].pid].event) else None
  }

  /** The claimed download passed every local check .. */
  ghost predicate SoundClaim(cfg: Config, schedule: seq<Action>, i: nat, k: Key, pid: nat)
    requires i < |schedule|
  {
    ClaimAt(cfg, schedule, i, k, pid) && Sound(cfg, EventAt(cfg, schedule, i).value)
  }

  /** .. or failed the check of the code. */
  ghost predicate BadClaim(cfg: Config, schedule: seq<Action>, i: nat, k: Key, code: ErrorCode)
    requires i < |schedule|
  {
    && schedule[i].Advance? && ClaimAt(cfg, schedule, i, k, schedule[i].pid)
    && Fails(cfg, EventAt(cfg, schedule, i).value, code)
  }

  /** The claimer of a sound download, in step i, gets this reply in step j. */
  ghost predicate RepliedAt(cfg: Config, schedule: seq<Action>, i: nat, j: nat, k: Key, reply: Reply)
    requires i < j < |schedule|
  {
    && StepOf(cfg, schedule, j, k, AwaitingReply) && schedule[j].reply == reply
    && SoundClaim(cfg, schedule, i, k, schedule[j].pid)
  }

  ghost predicate Replied(cfg: Config, schedule: seq<Action>, k: Key, reply: Reply) {
    exists i, j :: 0 <= i < j < |schedule| && RepliedAt(cfg, schedule, i, j, k, reply)
  }

  ghost predicate Passed(cfg: Config, schedule: seq<Action>, k: Key, pid: nat) {
    exists i :: 0 <= i < |schedule| && SoundClaim(cfg, schedule, i, k, pid)
  }

  ghost predicate FailedCheck(cfg: Config, schedule: seq<Action>, k: Key, code: ErrorCode) {
    exists i :: 0 <= i < |schedule| && BadClaim(cfg, schedule, i, k, code)
  }

  /** Why a row has this error code: codes of the API come from its replies, all others from
      the checks. */
  ghost predicate Caused(cfg: Config, schedule: seq<Action>, k: Key, code: ErrorCode) {
    match code
    case IngestHttp(status) => Replied(cfg, schedule, k, HttpError(status))
    case IngestTimeout => Replied(cfg, schedule, k, TimedOut)
    case IngestError => Replied(cfg, schedule, k, CallFailed)
    case _ => FailedCheck(cfg, schedule, k, code)
  }

  ghost predicate RowCaused(cfg: Config, schedule: seq<Action>, k: Key, row: Row) {
    && (row.status == Ingested ==> Replied(cfg, schedule, k, Accepted))
    && (row.status == Failed ==> row.errorCode.Some? && Caused(cfg, schedule, k, row.errorCode.value))
  }

  ghost predicate PcCaused(cfg: Config, schedule: seq<Action>, k: Key, pid: nat, pc: Pc) {
    && (pc.AtCall? || pc.AwaitingReply? ==> Passed(cfg, schedule, k, pid))
    && (pc.AtMarkIngested? || pc == Finished(Success) ==> Replied(cfg, schedule, k, Accepted))
    && (pc.AtMarkFailed? ==> Caused(cfg, schedule, k, pc.code))
    && (pc.Finished? && pc.outcome.Failure? ==> Caused(cfg, schedule, k, pc.outcome.code))
  }

  ghost predicate AllCaused(cfg: Config, schedule: seq<Action>) {
    var s := Run(cfg, schedule);
    && (forall k :: k in s.table ==> RowCaused(cfg, schedule, k, s.table[k]))
    && (forall pid :: pid in s.procs ==> PcCaused(cfg, schedule, s.procs[pid].event.key, pid, s.procs[pid].pc))
  }

  /** What happened stays a cause in a longer schedule. */
  lemma {:induction false} RepliesStay(cfg: Config, init: seq<Action>, a: Action, k: Key, reply: Reply)
    requires Replied(cfg, init, k, reply)
    ensures Replied(cfg, init + [a], k, reply)
  {
    var schedule := init + [a];
    var i, j :| 0 <= i < j < |init| && RepliedAt(cfg, init, i, j, k, reply);
    assert schedule[..i] == init[..i] && schedule[..j] == init[..j];
    assert RepliedAt(cfg, schedule, i, j, k, reply);
  }

  lemma {:induction false} ClaimsStay(cfg: Config, init: seq<Action>, a: Action, k: Key)
    ensures forall pid :: Passed(cfg, init, k, pid) ==> Passed(cfg, init + [a], k, pid)
    ensures forall code :: FailedCheck(cfg, init, k, code) ==> FailedCheck(cfg, init + [a], k, code)
  {
    var schedule := init + [a];
    assert forall i :: 0 <= i < |init| ==> schedule[..i] == init[..i] && schedule[i] == init[i];
    forall pid | Passed(cfg, init, k, pid) ensures Passed(cfg, schedule, k, pid) {
      var i :| 0 <= i < |init| && SoundClaim(cfg, init, i, k, pid);
      assert SoundClaim(cfg, schedule, i, k, pid);
    }
    forall code | FailedCheck(cfg, init, k, code) ensures FailedCheck(cfg, schedule, k, code) {
      var i :| 0 <= i < |init| && BadClaim(cfg, init, i, k, code);
      assert BadClaim(cfg, schedule, i, k, code);
    }
  }

  lemma {:induction false} CausesStay(cfg: Config, init: seq<Action>, a: Action, k: Key)
    ensures forall row :: RowCaused(cfg, init, k, row) ==> RowCaused(cfg, init + [a], k, row)
    ensures forall pid, pc :: PcCaused(cfg, init, k, pid, pc) ==> PcCaused(cfg, init + [a], k, pid, pc)
    ensures forall code :: Caused(cfg, init, k, code) ==> Caused(cfg, init + [a], k, code)
  {
    ClaimsStay(cfg, init, a, k);
    forall reply | Replied(cfg, init, k, reply) ensures Replied(cfg, init + [a], k, reply) {
      RepliesStay(cfg, init, a, k, reply);
    }
  }

  lemma {:induction false} ReplyCauses(
    cfg: Config, schedule: seq<Action>, i: nat, j: nat, k: Key, reply: Reply, pid: nat)
    requires i < j < |schedule| && RepliedAt(cfg, schedule, i, j, k, reply)
    ensures PcCaused(cfg, schedule, k, pid, AfterReply(reply))
  {
    assert Replied(cfg, schedule, k, reply);
  }

  lemma {:induction false} ClaimCauses(cfg: Config, schedule: seq<Action>, i: nat, k: Key, pid: nat,
                                       e: IntakeProtocol.Event)
    requires i < |schedule| && ClaimAt(cfg, schedule, i, k, pid) && EventAt(cfg, schedule, i) == Some(e)
    ensures PcCaused(cfg, schedule, k, pid, AfterClaim(cfg, e))
  {
    if Sound(cfg, e) {
      assert SoundClaim(cfg, schedule, i, k, pid);
    } else {
      assert BadClaim(cfg, schedule, i, k, ValidationError(cfg, e).value);
    }
  }

  /** A process at its reply claimed before. */
  lemma {:induction false} StepReplies(cfg: Config, init: seq<Action>, pid: nat, reply: Reply, k: Key)
    requires Passed(cfg, init, k, pid)
    requires StepOf(cfg, init + [Advance(pid, reply)], |init|, k, AwaitingReply)
    ensures PcCaused(cfg, init + [Advance(pid, reply)], k, pid, AfterReply(reply))
  {
    var schedule := init + [Advance(pid, reply)];
    var i :| 0 <= i < |init| && SoundClaim(cfg, init, i, k, pid);
    assert schedule[..i] == init[..i];
    assert RepliedAt(cfg, schedule, i, |init|, k, reply);
    ReplyCauses(cfg, schedule, i, |init|, k, reply, pid);
  }

  /** A step of a process gives it and its row their causes. */
  lemma {:induction false} StepCauses(cfg: Config, init: seq<Action>, pid: nat, reply: Reply)
    requires
      var s := Run(cfg, init);
      && pid in s.procs && !s.procs[pid].crashed
      && PcCaused(cfg, init, s.procs[pid].event.key, pid, s.procs[pid].pc)
      && (s.procs[pid].event.key in s.table ==>
            RowCaused(cfg, init, s.procs[pid].event.key, s.table[s.procs[pid].event.key]))
    ensures
      var s := Run(cfg, init);
      var p := s.procs[pid];
      var f := Perform(cfg, s.table, p.event, p.pc, reply);
      var schedule := init + [Advance(pid, reply)];
      && PcCaused(cfg, schedule, p.event.key, pid, f.pc)
      && (p.event.key in f.table ==> RowCaused(cfg, schedule, p.event.key, f.table[p.event.key]))
  {
    var s := Run(cfg, init);
    var p := s.procs[pid];
    var k := p.event.key;
    var a := Advance(pid, reply);
    var schedule := init + [a];
    CausesStay(cfg, init, a, k);
    assert schedule[..|init|] == init && schedule[|init|] == a;
    assert StepOf(cfg, schedule, |init|, k, p.pc);
    match p.pc
    case AtClaim =>
      if Hits(s.table, k, Pending) {
        ClaimCauses(cfg, schedule, |init|, k, pid, p.event);
      }
    case AwaitingReply => StepReplies(cfg, init, pid, reply, k);
    case _ =>
  }

  lemma {:induction false} OtherRowsStay(cfg: Config, t: Table, e: IntakeProtocol.Event, pc: Pc, reply: Reply, k: Key)
    requires k != e.key
    ensures RowOf(Perform(cfg, t, e, pc, reply).table, k) == RowOf(t, k)
  {
  }

  lemma {:induction false} NextCaused(cfg: Config, init: seq<Action>, a: Action)
    requires AllCaused(cfg, init)
    ensures AllCaused(cfg, init + [a])
  {
    var s, schedule := Run(cfg, init), init + [a];
    var s' := Run(cfg, schedule);
    assert schedule[..|schedule| - 1] == init;
    var steps := a.Advance? && a.pid in s.procs && !s.procs[a.pid].crashed;
    if steps {
      StepCauses(cfg, init, a.pid, a.reply);
    }
    forall k | k in s'.table ensures RowCaused(cfg, schedule, k, s'.table[k]) {
      CausesStay(cfg, init, a, k);
      if steps && k != s.procs[a.pid].event.key {
        OtherRowsStay(cfg, s.table, s.procs[a.pid].event, s.procs[a.pid].pc, a.reply, k);
      }
    }
    forall pid | pid in s'.procs ensures PcCaused(cfg, schedule, s'.procs[pid].event.key, pid, s'.procs[pid].pc) {
      CausesStay(cfg, init, a, s'.procs[pid].event.key);
    }
  }

  lemma {:induction false} EveryRunIsCaused(cfg: Config, schedule: seq<Action>)
    ensures AllCaused(cfg, schedule)
  {
    if schedule != [] {
      var init := schedule[..|schedule| - 1];
      EveryRunIsCaused(cfg, init);
      NextCaused(cfg, init, schedule[|schedule| - 1]);
      assert init + [schedule[|schedule| - 1]] == schedule;
    }
  }

  /** A row is INGESTED only after the process that claimed it, with a sound download, was
      answered Accepted. It is FAILED with a code of the API only after that process was answered
      so, and with any other code only after the claimed download failed the check of that code. */
  lemma {:induction false} EndsHaveCauses(cfg: Config, schedule: seq<Action>, k: Key)
    requires k in Run(cfg, schedule).table
    ensures
      var row := Run(cfg, schedule).table[k];
      && (row.status == Ingested ==> Replied(cfg, schedule, k, Accepted))
      && (row.status == Failed ==> row.errorCode.Some? && Caused(cfg, schedule, k, row.errorCode.value))
  {
    EveryRunIsCaused(cfg, schedule);
    assert RowCaused(cfg, schedule, k, Run(cfg, schedule).table[k]);
  }

  /** A process reports success only after its key was answered Accepted, and a failure only
      after what its code says. */
  lemma {:induction false} OutcomesHaveCauses(cfg: Config, schedule: seq<Action>, pid: nat)
    requires var s := Run(cfg, schedule); pid in s.procs && s.procs[pid].pc.Finished?
    ensures
      var p := Run(cfg, schedule).procs[pid];
      && (p.pc.outcome == Success ==> Replied(cfg, schedule, p.event.key, Accepted))
      && (p.pc.outcome.Failure? ==> Caused(cfg, schedule, p.event.key, p.pc.outcome.code))
  {
    EveryRunIsCaused(cfg, schedule);
  }
}
