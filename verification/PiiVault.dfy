/** The PII vault table, the lookup of a customer by hashes and the identity it gives. */
module PiiVault {
  import opened Prelude
  import opened CustomerChains

  datatype Hashes = Hashes(
    nameHash: Option<string>,
    emailHashes: seq<string>,
    phoneHashes: seq<string>,
    vinHashes: seq<string>,
    licensePlateHashes: seq<string>,
    addressHash: Option<string>)

  datatype VaultRow = VaultRow(customerUuid: string, hashes: Hashes)

  type Rows = map<VaultKey, VaultRow>

  datatype Role = Admin | DealerAdmin | Developer | OtherRole

  datatype Failure = PiiRoleDenied | IdentityMissing | IdentityEmpty

  function OptionSeq(o: Option<string>): seq<string> {
    if o.Some? && o.value != "" then [o.value] else []
  }

  function NonEmpty(xs: seq<string>): seq<string> {
    if xs == [] then [] else (if xs[0] != "" then [xs[0]] else []) + NonEmpty(xs[1..])
  }

  /** The hashes a lookup is made with: all fields in one list, empty strings dropped. */
  function HashList(h: Hashes): seq<string> {
    OptionSeq(h.nameHash) + NonEmpty(h.emailHashes) + NonEmpty(h.phoneHashes) + NonEmpty(h.vinHashes)
    + NonEmpty(h.licensePlateHashes) + OptionSeq(h.addressHash)
  }

  predicate Overlap(xs: seq<string>, hashes: seq<string>) {
    exists x :: x in xs && x in hashes
  }

  /** The WHERE clause of the lookup, per column. */
  predicate Matches(row: VaultRow, hashes: seq<string>) {
    var h := row.hashes;
    || (h.nameHash.Some? && h.nameHash.value in hashes)
    || Overlap(h.emailHashes, hashes)
    || Overlap(h.phoneHashes, hashes)
    || Overlap(h.vinHashes, hashes)
    || Overlap(h.licensePlateHashes, hashes)
    || (h.addressHash.Some? && h.addressHash.value in hashes)
  }

  function HashSet(h: Hashes): set<string> {
    set x | x in HashList(h)
  }

  /** The vault as the identity argument sees it: a customer and a set of hashes per record. */
  function View(rows: Rows): Records {
    map k | k in rows :: Record(rows[k].customerUuid, HashSet(rows[k].hashes))
  }

  lemma {:induction false} InNonEmpty(xs: seq<string>, x: string)
    ensures x in NonEmpty(xs) <==> x in xs && x != ""
  {
    if xs != [] {
      InNonEmpty(xs[1..], x);
      assert xs == [xs[0]] + xs[1..];
    }
  }

  /** The column-wise test of the lookup is exactly "the two hash sets meet". */
  lemma MatchesIffMeet(row: VaultRow, h: Hashes)
    ensures Matches(row, HashList(h)) <==> Meet(HashSet(row.hashes), HashSet(h))
  {
    forall x ensures
        (x in NonEmpty(row.hashes.emailHashes) <==> x in row.hashes.emailHashes && x != "")
        && (x in NonEmpty(row.hashes.phoneHashes) <==> x in row.hashes.phoneHashes && x != "")
        && (x in NonEmpty(row.hashes.vinHashes) <==> x in row.hashes.vinHashes && x != "")
        && (x in NonEmpty(row.hashes.licensePlateHashes) <==> x in row.hashes.licensePlateHashes && x != "")
        && "" !in HashList(h)
    {
      InNonEmpty(row.hashes.emailHashes, x);
      InNonEmpty(row.hashes.phoneHashes, x);
      InNonEmpty(row.hashes.vinHashes, x);
      InNonEmpty(row.hashes.licensePlateHashes, x);
      InNonEmpty(h.emailHashes, "");
      InNonEmpty(h.phoneHashes, "");
      InNonEmpty(h.vinHashes, "");
      InNonEmpty(h.licensePlateHashes, "");
    }
    if Matches(row, HashList(h)) {
      var x :| x in HashList(h) && (row.hashes.nameHash == Some(x) || x in row.hashes.emailHashes
        || x in row.hashes.phoneHashes || x in row.hashes.vinHashes
        || x in row.hashes.licensePlateHashes || row.hashes.addressHash == Some(x));
      assert x in HashList(row.hashes);
      assert x in HashSet(row.hashes) * HashSet(h);
    }
    if Meet(HashSet(row.hashes), HashSet(h)) {
      var x :| x in HashSet(row.hashes) * HashSet(h);
      assert row.hashes.nameHash == Some(x) || x in row.hashes.emailHashes
        || x in row.hashes.phoneHashes || x in row.hashes.vinHashes
        || x in row.hashes.licensePlateHashes || row.hashes.addressHash == Some(x);
    }
  }

  class Vault {
    var rows: Rows

    constructor ()
      ensures rows == map[]
    {
      rows := map[];
    }

    /** INSERT .. ON CONFLICT DO UPDATE, allowed to three roles. */
    method WritePiiVaultRecord(role: Role, key: VaultKey, uuid: string, hashes: Hashes) returns (r: Result<(), Failure>)
      modifies this
      ensures role == OtherRole ==> r == Err(PiiRoleDenied) && rows == old(rows)
      ensures role != OtherRole ==> r == Ok(()) && rows == old(rows)[key := VaultRow(uuid, hashes)]
      ensures role != OtherRole ==> View(rows) == View(old(rows))[key := Record(uuid, HashSet(hashes))]
    {
      if role == OtherRole {
        return Err(PiiRoleDenied);
      }
      rows := rows[key := VaultRow(uuid, hashes)];
      return Ok(());
    }

    /** SELECT .. LIMIT 1: any one matching row of the tenant. */
    method FindCustomerUuidByHashes(tenant: string, hashes: seq<string>)
      returns (found: Option<string>, ghost hit: VaultKey)
      ensures found.Some? ==> hit in rows && hit.tenant == tenant && Matches(rows[hit], hashes)
      ensures found.Some? ==> found.value == rows[hit].customerUuid
      ensures found == None ==> forall k :: k in rows && k.tenant == tenant ==> !Matches(rows[k], hashes)
    {
      hit := VaultKey(tenant, "");
      if hashes == [] {
        return None, hit;
      }
      var candidates := set k | k in rows && k.tenant == tenant && Matches(rows[k], hashes);
      if candidates == {} {
        assert forall k :: k in rows && k.tenant == tenant && Matches(rows[k], hashes) ==> k in candidates;
        return None, hit;
      }
      var k :| k in candidates;
      return Some(rows[k].customerUuid), k;
    }

    /** The identity of a payload: an existing customer, or the newly minted id. */
    method ResolveCustomerIdentity(tenant: string, payload: Option<Hashes>, minted: string)
      returns (r: Result<string, Failure>, ghost hit: Option<VaultKey>)
      ensures payload == None ==> r == Err(IdentityMissing)
      ensures payload.Some? && HashList(payload.value) == [] ==> r == Err(IdentityEmpty)
      ensures payload.Some? && HashList(payload.value) != [] ==>
                r.Ok? && Identified(View(rows), tenant, HashSet(payload.value), minted, hit, r.value)
    {
      hit := None;
      if payload == None {
        return Err(IdentityMissing), hit;
      }
      var list := HashList(payload.value);
      if list == [] {
        return Err(IdentityEmpty), hit;
      }
      var found, k := FindCustomerUuidByHashes(tenant, list);
      if found.Some? {
        MatchesIffMeet(rows[k], payload.value);
        return Ok(found.value), Some(k);
      }
      forall k' | k' in rows
        ensures Matches(rows[k'], list) <==> Meet(HashSet(rows[k'].hashes), HashSet(payload.value))
      {
        MatchesIffMeet(rows[k'], payload.value);
      }
      return Ok(minted), None;
    }
  }
}
