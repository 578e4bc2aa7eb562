/** Customer identity over every interleaving of lookups and vault writes, whichever
    matching record a lookup returns. */
module CustomerChains {
  import opened Prelude

  datatype VaultKey = VaultKey(tenant: string, roId: string)

  /** A vault record reduced to its customer and its hashes of every kind. */
  datatype Record = Record(customerUuid: string, hashes: set<string>)

  type Records = map<VaultKey, Record>

  /** Some hash is in both, in whatever column it was stored. */
  predicate Meet(a: set<string>, b: set<string>) {
    a * b != {}
  }

  datatype Pending = Pending(tenant: string, hashes: set<string>, uuid: string)

  /** Ingests between their lookup and their vault write, and every id ever minted. */
  datatype State = State(rows: Records, pending: map<nat, Pending>, minted: set<string>)

  /** `pick` is the row the lookup returns when some row matches; `newId` the id that
      randomUUID would give otherwise. */
  datatype Action =
    | Lookup(pid: nat, tenant: string, hashes: set<string>, pick: VaultKey, newId: string)
    | Write(pid: nat, roId: string)
    | Abort(pid: nat)

  predicate Candidate(rows: Records, tenant: string, h: set<string>, k: VaultKey) {
    k in rows && k.tenant == tenant && Meet(rows[k].hashes, h)
  }

  ghost predicate NoCandidate(rows: Records, tenant: string, h: set<string>) {
    forall k :: k in rows ==> !Candidate(rows, tenant, h, k)
  }

  /** What an identity means: the customer of a record the hashes meet, or the minted id
      when they meet no record of the tenant. */
  ghost predicate Identified(rows: Records, tenant: string, h: set<string>, minted: string, hit: Option<VaultKey>,
                             uuid: string) {
    match hit
    case Some(k) => Candidate(rows, tenant, h, k) && uuid == rows[k].customerUuid
    case None => NoCandidate(rows, tenant, h) && uuid == minted
  }

  /** Actions that do not fit (an id or ro id that is not new, a pick that does not match)
      leave the state unchanged. */
  ghost function Next(s: State, a: Action): State {
    match a
    case Lookup(pid, tenant, h, pick, newId) =>
      if pid in s.pending || h == {} then s
      else if Candidate(s.rows, tenant, h, pick) then
        s.(pending := s.pending[pid := Pending(tenant, h, s.rows[pick].customerUuid)])
      else if NoCandidate(s.rows, tenant, h) && newId !in s.minted then
        s.(pending := s.pending[pid := Pending(tenant, h, newId)], minted := s.minted + {newId})
      else s
    case Write(pid, roId) =>
      if pid !in s.pending || VaultKey(s.pending[pid].tenant, roId) in s.rows then s
      else
        var p := s.pending[pid];
        s.(rows := s.rows[VaultKey(p.tenant, roId) := Record(p.uuid, p.hashes)], pending := s.pending - {pid})
    case Abort(pid) => s.(pending := s.pending - {pid})
  }

  ghost function Run(schedule: seq<Action>): State {
    if schedule == [] then State(map[], map[], {})
    else Next(Run(schedule[..|schedule| - 1]), schedule[|schedule| - 1])
  }

  /** Records of one tenant and one customer, each sharing a hash with the next. */
  ghost predicate Chain(rows: Records, tenant: string, uuid: string, path: seq<VaultKey>) {
    && (forall i :: 0 <= i < |path| ==>
          path[i] in rows && path[i].tenant == tenant && rows[path[i]].customerUuid == uuid)
    && (forall i :: 0 < i < |path| ==> Meet(rows[path[i - 1]].hashes, rows[path[i]].hashes))
  }

  ghost predicate Joined(rows: Records, a: VaultKey, b: VaultKey)
    requires a in rows
  {
    exists path: seq<VaultKey> :: Joins(rows, a, b, path)
  }

  /** The chain leads from one record to the other. */
  ghost predicate Joins(rows: Records, a: VaultKey, b: VaultKey, path: seq<VaultKey>)
    requires a in rows
  {
    path != [] && path[0] == a && path[|path| - 1] == b && Chain(rows, a.tenant, rows[a].customerUuid, path)
  }

  /** A pending ingest either found a record of its customer or holds an id nobody else has. */
  ghost predicate Backed(s: State, pid: nat)
    requires pid in s.pending
  {
    var p := s.pending[pid];
    || (exists k :: k in s.rows && s.rows[k].customerUuid == p.uuid && Candidate(s.rows, p.tenant, p.hashes, k))
    || Sole(s, pid)
  }

  ghost predicate Sole(s: State, pid: nat)
    requires pid in s.pending
  {
    && (forall k :: k in s.rows ==> s.rows[k].customerUuid != s.pending[pid].uuid)
    && (forall q :: q in s.pending && q != pid ==> s.pending[q].uuid != s.pending[pid].uuid)
  }

  ghost predicate Inv(s: State) {
    && (forall k :: k in s.rows ==> s.rows[k].customerUuid in s.minted)
    && (forall pid :: pid in s.pending ==> s.pending[pid].uuid in s.minted && Backed(s, pid))
    && (forall a, b :: a in s.rows && b in s.rows && s.rows[a].customerUuid == s.rows[b].customerUuid ==>
          Joined(s.rows, a, b))
  }

  lemma {:induction false} JoinedGrows(rows: Records, k: VaultKey, row: Record, a: VaultKey, b: VaultKey)
    requires k !in rows && a in rows && Joined(rows, a, b)
    ensures Joined(rows[k := row], a, b)
  {
    var path: seq<VaultKey> :| Joins(rows, a, b, path);
    assert Joins(rows[k := row], a, b, path);
  }

  /** A chain to a record goes on to a new one that shares a hash with it, .. */
  lemma {:induction false} ChainGoesOn(rows: Records, k: VaultKey, row: Record, link: VaultKey, a: VaultKey,
                                       path: seq<VaultKey>)
    requires k !in rows && a in rows && link in rows && link.tenant == k.tenant
    requires rows[link].customerUuid == row.customerUuid == rows[a].customerUuid
    requires Meet(rows[link].hashes, row.hashes) && Joins(rows, a, link, path)
    ensures Joins(rows[k := row], a, k, path + [k])
  {
    assert path[|path| - 1].tenant == a.tenant;
  }

  /** .. and one from a record starts from the new one. */
  lemma {:induction false} ChainStartsBefore(rows: Records, k: VaultKey, row: Record, link: VaultKey, a: VaultKey,
                                             path: seq<VaultKey>)
    requires k !in rows && a in rows && link in rows && link.tenant == k.tenant
    requires rows[link].customerUuid == row.customerUuid == rows[a].customerUuid
    requires Meet(rows[link].hashes, row.hashes) && Joins(rows, link, a, path)
    ensures Joins(rows[k := row], k, a, [k] + path)
  {
    assert Meet(row.hashes, rows[link].hashes);
    assert ([k] + path)[|path|] == a;
  }

  /** A record that shares a hash with one of its own customer's is joined to all of them. */
  lemma {:induction false} NewRecordJoins(rows: Records, k: VaultKey, row: Record, link: VaultKey, a: VaultKey)
    requires k !in rows && a in rows && link in rows
    requires link.tenant == k.tenant && rows[link].customerUuid == row.customerUuid == rows[a].customerUuid
    requires Meet(rows[link].hashes, row.hashes)
    requires Joined(rows, a, link) && Joined(rows, link, a)
    ensures Joined(rows[k := row], a, k) && Joined(rows[k := row], k, a)
  {
    var there: seq<VaultKey> :| Joins(rows, a, link, there);
    var back: seq<VaultKey> :| Joins(rows, link, a, back);
    ChainGoesOn(rows, k, row, link, a, there);
    ChainStartsBefore(rows, k, row, link, a, back);
  }

  lemma {:induction false} WriteKeepsInv(s: State, pid: nat, roId: string)
    requires Inv(s)
    ensures Inv(Next(s, Write(pid, roId)))
  {
    if pid in s.pending && VaultKey(s.pending[pid].tenant, roId) !in s.rows {
      var p := s.pending[pid];
      var k, row := VaultKey(p.tenant, roId), Record(p.uuid, p.hashes);
      var s' := Next(s, Write(pid, roId));
      forall a, b | a in s'.rows && b in s'.rows && s'.rows[a].customerUuid == s'.rows[b].customerUuid
        ensures Joined(s'.rows, a, b)
      {
        if a == k && b == k {
          assert Joins(s'.rows, k, k, [k]);
        } else if a != k && b != k {
          JoinedGrows(s.rows, k, row, a, b);
        } else {
          assert Backed(s, pid);
          var other := if a == k then b else a;
          var link :| && link in s.rows && s.rows[link].customerUuid == p.uuid
                      && Candidate(s.rows, p.tenant, p.hashes, link);
          NewRecordJoins(s.rows, k, row, link, other);
        }
      }
      forall q | q in s'.pending ensures Backed(s', q) {
        assert Backed(s, q);
        if Sole(s, q) {
          assert s.pending[pid].uuid != s.pending[q].uuid;
        } else {
          var link :| link in s.rows && s.rows[link].customerUuid == s.pending[q].uuid
            && Candidate(s.rows, s.pending[q].tenant, s.pending[q].hashes, link);
          assert link in s'.rows && Candidate(s'.rows, s.pending[q].tenant, s.pending[q].hashes, link);
        }
      }
    }
  }

  lemma {:induction false} LookupKeepsInv(s: State, a: Action)
    requires Inv(s) && a.Lookup?
    ensures Inv(Next(s, a))
  {
    var s' := Next(s, a);
    if s' != s {
      forall q | q in s'.pending ensures Backed(s', q) {
        if q != a.pid {
          assert Backed(s, q);
          if !Sole(s, q) {
            var link :| link in s.rows && s.rows[link].customerUuid == s.pending[q].uuid
              && Candidate(s.rows, s.pending[q].tenant, s.pending[q].hashes, link);
            assert Candidate(s'.rows, s'.pending[q].tenant, s'.pending[q].hashes, link);
          } else {
            assert s'.pending[a.pid].uuid != s.pending[q].uuid;
          }
        }
      }
    }
  }

  lemma {:induction false} NextKeepsInv(s: State, a: Action)
    requires Inv(s)
    ensures Inv(Next(s, a))
  {
    match a
    case Lookup(_, _, _, _, _) => LookupKeepsInv(s, a);
    case Write(pid, roId) => WriteKeepsInv(s, pid, roId);
    case Abort(pid) =>
      forall q | q in s.pending && q != pid ensures Backed(Next(s, a), q) {
        assert Backed(s, q);
        if !Sole(s, q) {
          var link :| link in s.rows && s.rows[link].customerUuid == s.pending[q].uuid
            && Candidate(s.rows, s.pending[q].tenant, s.pending[q].hashes, link);
          assert Candidate(Next(s, a).rows, s.pending[q].tenant, s.pending[q].hashes, link);
        }
      }
  }

  lemma {:induction false} RunKeepsInv(schedule: seq<Action>)
    ensures Inv(Run(schedule))
  {
    if schedule != [] {
      RunKeepsInv(schedule[..|schedule| - 1]);
      NextKeepsInv(Run(schedule[..|schedule| - 1]), schedule[|schedule| - 1]);
    }
  }

  /** Whatever the interleaving and whichever rows the lookups return: two vault records
      with one customer id belong to one tenant and are joined by a chain of records of that
      customer, each sharing a hash with the next. */
  lemma SameCustomerIsChained(schedule: seq<Action>, a: VaultKey, b: VaultKey)
    requires a in Run(schedule).rows && b in Run(schedule).rows
    requires Run(schedule).rows[a].customerUuid == Run(schedule).rows[b].customerUuid
    ensures a.tenant == b.tenant && Joined(Run(schedule).rows, a, b)
  {
    RunKeepsInv(schedule);
    var rows := Run(schedule).rows;
    assert Joined(rows, a, b);
    var path: seq<VaultKey> :| Joins(rows, a, b, path);
  }

  /** A lookup that matches nothing starts a customer no record and no other ingest has. */
  lemma {:induction false} NoMatchIsNewCustomer(schedule: seq<Action>, a: Action)
    requires a.Lookup? && NoCandidate(Run(schedule).rows, a.tenant, a.hashes)
    requires a.pid !in Run(schedule).pending && a.pid in Next(Run(schedule), a).pending
    ensures Sole(Next(Run(schedule), a), a.pid)
  {
    RunKeepsInv(schedule);
  }

  /** A lookup that matches joins the customer of a record it shares a hash with. */
  lemma MatchJoinsExistingCustomer(schedule: seq<Action>, a: Action)
    requires a.Lookup? && !NoCandidate(Run(schedule).rows, a.tenant, a.hashes)
    requires a.pid !in Run(schedule).pending && a.pid in Next(Run(schedule), a).pending
    ensures exists k :: Candidate(Run(schedule).rows, a.tenant, a.hashes, k)
              && Next(Run(schedule), a).pending[a.pid].uuid == Run(schedule).rows[k].customerUuid
  {
    assert Candidate(Run(schedule).rows, a.tenant, a.hashes, a.pick);
  }

  // -- what was written is found --

  lemma {:induction false} RunSnoc(schedule: seq<Action>, a: Action)
    ensures Run(schedule + [a]) == Next(Run(schedule), a)
  {
    assert (schedule + [a])[..|schedule|] == schedule;
  }

  lemma {:induction false} RecordsStay(schedule: seq<Action>, more: seq<Action>, k: VaultKey)
    requires k in Run(schedule).rows
    ensures k in Run(schedule + more).rows && Run(schedule + more).rows[k] == Run(schedule).rows[k]
    decreases |more|
  {
    if more == [] {
      assert schedule + more == schedule;
    } else {
      var init, last := more[..|more| - 1], more[|more| - 1];
      RecordsStay(schedule, init, k);
      RunSnoc(schedule + init, last);
      assert schedule + more == schedule + init + [last];
    }
  }

  /** An ingest that can do its lookup and its write now. */
  ghost predicate CanIngest(s: State, a: Action, roId: string) {
    && a.Lookup? && a.hashes != {} && a.pid !in s.pending && VaultKey(a.tenant, roId) !in s.rows
    && (Candidate(s.rows, a.tenant, a.hashes, a.pick) ||
        (NoCandidate(s.rows, a.tenant, a.hashes) && a.newId !in s.minted))
  }

  /** The customer of the record picked, or a new one. */
  ghost function CustomerOf(rows: Records, a: Action): string
    requires a.Lookup?
  {
    if Candidate(rows, a.tenant, a.hashes, a.pick) then rows[a.pick].customerUuid else a.newId
  }

  /** It writes its hashes for the customer of the record picked, or for a new one. */
  lemma {:induction false} IngestWrites(schedule: seq<Action>, a: Action, roId: string)
    requires CanIngest(Run(schedule), a, roId)
    ensures
      var before, after := Run(schedule).rows, Run(schedule + [a] + [Write(a.pid, roId)]).rows;
      after == before[VaultKey(a.tenant, roId) := Record(CustomerOf(before, a), a.hashes)]
  {
    RunSnoc(schedule, a);
    RunSnoc(schedule + [a], Write(a.pid, roId));
  }

  /** Whatever happens in between, a later lookup of the tenant that meets the hashes of an ingest
      done never mints a customer, and when it picks the record of that ingest it gets the
      customer of that ingest. */
  lemma {:induction false} LaterLookupMeets(schedule: seq<Action>, a: Action, roId: string, more: seq<Action>,
                                            b: Action)
    requires CanIngest(Run(schedule), a, roId)
    requires b.Lookup? && b.tenant == a.tenant && Meet(a.hashes, b.hashes)
    requires b.pid !in Run(schedule + [a] + [Write(a.pid, roId)] + more).pending
    ensures
      var own := CustomerOf(Run(schedule).rows, a);
      var s := Run(schedule + [a] + [Write(a.pid, roId)] + more);
      && Next(s, b).minted == s.minted
      && (b.pick == VaultKey(a.tenant, roId) ==>
            b.pid in Next(s, b).pending && Next(s, b).pending[b.pid].uuid == own)
  {
    var k := VaultKey(a.tenant, roId);
    IngestWrites(schedule, a, roId);
    RecordsStay(schedule + [a] + [Write(a.pid, roId)], more, k);
    var s := Run(schedule + [a] + [Write(a.pid, roId)] + more);
    assert Candidate(s.rows, b.tenant, b.hashes, k);
    assert b.hashes != {};
  }
}
