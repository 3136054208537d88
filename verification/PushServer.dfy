/**
 * The push transaction as the server runs it: loops over the batch, one budget object
 * shared by an owner's vaults, one seq bump per vault, then the purged histories go.
 */
module PushServer {
  import opened Prelude
  import opened Tables
  import opened PushRules
  import opened PushLog
  import opened PushPlan
  import opened PushEffect
  import opened PushAnswers

  // ---- Writing the planned versions ----

  function CountIn(versions: seq<Version>, id: VaultId): nat {
    if versions == [] then 0 else
      CountIn(versions[..|versions| - 1], id) + (if versions[|versions| - 1].vaultId == id then 1 else 0)
  }

  function BytesIn(versions: seq<Version>, id: VaultId): nat {
    if versions == [] then 0 else
      var last := versions[|versions| - 1];
      BytesIn(versions[..|versions| - 1], id) + (if last.vaultId == id then PushChangeBytes(last.encryptedData) else 0)
  }

  /** A vault after taking `count` seqs for versions of `bytes` bytes. */
  function Bumped(vault: Vault, count: nat, bytes: nat): Vault {
    vault.(lastSeq := vault.lastSeq + count, usedBytes := vault.usedBytes + bytes)
  }

  /** Writing one at a time and writing with one bump per vault come to the same. */
  lemma {:induction false} InsertAllBumps(db: Db, versions: seq<Version>)
    requires InVaults(db, versions)
    ensures forall id :: id in db.vaults ==>
              InsertAll(db, versions).vaults[id] == Bumped(db.vaults[id], CountIn(versions, id), BytesIn(versions, id))
  {
    if versions != [] {
      InsertAllBumps(db, versions[..|versions| - 1]);
    }
  }

  function SeqOf(db: Db, versions: seq<Version>, i: nat): nat
    requires InVaults(db, versions) && i < |versions|
  {
    db.vaults[versions[i].vaultId].lastSeq + CountIn(versions[..i], versions[i].vaultId) + 1
  }

  lemma {:induction false} InsertAllNumbers(db: Db, versions: seq<Version>, i: nat)
    requires InVaults(db, versions) && i < |versions|
    ensures InsertAll(db, versions).records[|db.records| + i] == Row(versions[i], SeqOf(db, versions, i))
  {
    hide InsertAll, CountIn, BytesIn;
    var n := |versions| - 1;
    InsertLast(db, versions);
    if i < n {
      InsertAllNumbers(db, versions[..n], i);
      assert versions[..n][..i] == versions[..i];
    } else {
      InsertAllBumps(db, versions[..n]);
    }
  }

  lemma {:induction false} InsertLast(db: Db, versions: seq<Version>)
    requires InVaults(db, versions) && versions != []
    ensures var n := |versions| - 1;
            var before := InsertAll(db, versions[..n]);
            && |before.records| == |db.records| + n
            && InsertAll(db, versions).records == before.records + [Row(versions[n], before.vaults[versions[n].vaultId].lastSeq + 1)]
  {
  }

  datatype Bump = Bump(count: nat, bytes: nat)

  /** What a batch adds to each vault. */
  method CountAdded(versions: seq<Version>) returns (added: map<VaultId, Bump>)
    ensures forall id :: id in added <==> exists i :: 0 <= i < |versions| && versions[i].vaultId == id
    ensures forall id :: id in added ==> added[id] == Bump(CountIn(versions, id), BytesIn(versions, id))
    ensures forall id :: id !in added ==> CountIn(versions, id) == 0 && BytesIn(versions, id) == 0
  {
    added := map[];
    for n := 0 to |versions|
      invariant forall id :: id in added <==> exists i :: 0 <= i < n && versions[i].vaultId == id
      invariant forall id :: id in added ==> added[id] == Bump(CountIn(versions[..n], id), BytesIn(versions[..n], id))
      invariant forall id :: id !in added ==> CountIn(versions[..n], id) == 0 && BytesIn(versions[..n], id) == 0
    {
      var id := versions[n].vaultId;
      var vault := if id in added then added[id] else Bump(0, 0);
      assert versions[..n + 1][..n] == versions[..n];
      added := added[id := Bump(vault.count + 1, vault.bytes + PushChangeBytes(versions[n].encryptedData))];
    }
    assert versions[..|versions|] == versions;
  }

  /** Take a vault's next `count` seqs, adding the bytes of the versions they are for. */
  method TakeVaultSeqs(db: Database, id: VaultId, count: nat, addedBytes: nat) returns (first: nat)
    requires id in db.vaults
    modifies db`vaults
    ensures db.vaults == old(db.vaults)[id := Bumped(old(db.vaults)[id], count, addedBytes)]
    ensures first == old(db.vaults)[id].lastSeq + 1
  {
    var vault := db.vaults[id].(lastSeq := db.vaults[id].lastSeq + count, usedBytes := db.vaults[id].usedBytes + addedBytes);
    db.vaults := db.vaults[id := vault];
    first := vault.lastSeq - count + 1;
  }

  /** Different vaults, each with something to add. */
  predicate Bumpable(vaults: map<VaultId, Vault>, added: map<VaultId, Bump>, ids: seq<VaultId>) {
    && (forall i :: 0 <= i < |ids| ==> ids[i] in added && ids[i] in vaults)
    && (forall i, j :: 0 <= i < j < |ids| ==> ids[i] != ids[j])
  }

  /** The vaults after one bump for each of these ids. */
  function BumpAll(vaults: map<VaultId, Vault>, added: map<VaultId, Bump>, ids: seq<VaultId>): (after: map<VaultId, Vault>)
    requires Bumpable(vaults, added, ids)
    ensures after.Keys == vaults.Keys
  {
    if ids == [] then vaults else
      var id := ids[|ids| - 1];
      var before := BumpAll(vaults, added, ids[..|ids| - 1]);
      before[id := Bumped(before[id], added[id].count, added[id].bytes)]
  }

  lemma {:induction false} BumpAllEffect(vaults: map<VaultId, Vault>, added: map<VaultId, Bump>, ids: seq<VaultId>, id: VaultId)
    requires Bumpable(vaults, added, ids) && id in vaults
    ensures id !in ids ==> BumpAll(vaults, added, ids)[id] == vaults[id]
    ensures id in ids ==> BumpAll(vaults, added, ids)[id] == Bumped(vaults[id], added[id].count, added[id].bytes)
  {
    if ids != [] {
      var n := |ids| - 1;
      assert ids == ids[..n] + [ids[n]];
      BumpAllEffect(vaults, added, ids[..n], id);
    }
  }

  lemma {:induction false} VaultsKnown(db: Db, versions: seq<Version>)
    requires InVaults(db, versions)
    ensures forall i :: 0 <= i < |versions| ==> versions[i].vaultId in db.vaults
  {
  }

  lemma {:induction false} NothingBumped(vaults: map<VaultId, Vault>, added: map<VaultId, Bump>)
    ensures Bumpable(vaults, added, []) && BumpAll(vaults, added, []) == vaults
  {
  }

  lemma {:induction false} BumpNext(vaults: map<VaultId, Vault>, added: map<VaultId, Bump>, ids: seq<VaultId>, n: nat)
    requires Bumpable(vaults, added, ids) && n < |ids|
    ensures ids[n] !in ids[..n] && ids[n] in vaults && ids[n] in added
    ensures Bumpable(vaults, added, ids[..n]) && Bumpable(vaults, added, ids[..n + 1])
    ensures var before := BumpAll(vaults, added, ids[..n]);
            && ids[n] in before
            && BumpAll(vaults, added, ids[..n + 1]) == before[ids[n] := Bumped(before[ids[n]], added[ids[n]].count, added[ids[n]].bytes)]
  {
    hide Bumped;
    assert ids[..n + 1][..n] == ids[..n];
  }

  /** One bump per vault, in id order. */
  method BumpVaults(db: Database, added: map<VaultId, Bump>, todo: seq<VaultId>) returns (nextSeq: map<VaultId, nat>)
    requires Bumpable(db.vaults, added, todo)
    modifies db`vaults
    ensures forall id :: id in nextSeq <==> id in todo
    ensures forall id :: id in nextSeq ==> nextSeq[id] == old(db.vaults)[id].lastSeq + 1
    ensures db.vaults == BumpAll(old(db.vaults), added, todo)
  {
    hide BumpAll, Bumped;
    nextSeq := map[];
    ghost var before := db.vaults;
    NothingBumped(before, added);
    assert todo[..0] == [];
    for n := 0 to |todo|
      invariant db.vaults == BumpAll(before, added, todo[..n])
      invariant forall id :: id in nextSeq <==> id in todo[..n]
      invariant forall id :: id in nextSeq ==> id in before && nextSeq[id] == before[id].lastSeq + 1
    {
      var id := todo[n];
      assert todo[..n + 1] == todo[..n] + [id];
      BumpNext(before, added, todo, n);
      BumpAllEffect(before, added, todo[..n], id);
      var first := TakeVaultSeqs(db, id, added[id].count, added[id].bytes);
      nextSeq := nextSeq[id := first];
    }
    assert todo[..|todo|] == todo;
  }

  /** Number versions from each vault's next seq up. */
  method NumberRows(before: Db, versions: seq<Version>, start: map<VaultId, nat>) returns (rows: seq<Row>)
    requires InVaults(before, versions)
    requires forall i :: 0 <= i < |versions| ==> versions[i].vaultId in start
    requires forall id :: id in start ==> id in before.vaults && start[id] == before.vaults[id].lastSeq + 1
    ensures |rows| == |versions|
    ensures forall i :: 0 <= i < |versions| ==> rows[i] == Row(versions[i], SeqOf(before, versions, i))
  {
    var nextSeq := start;
    rows := [];
    for n := 0 to |versions|
      invariant nextSeq.Keys == start.Keys
      invariant forall id :: id in nextSeq ==> nextSeq[id] == start[id] + CountIn(versions[..n], id)
      invariant |rows| == n
      invariant forall i :: 0 <= i < n ==> rows[i] == Row(versions[i], SeqOf(before, versions, i))
    {
      var id := versions[n].vaultId;
      assert versions[..n + 1][..n] == versions[..n];
      rows := rows + [Row(versions[n], nextSeq[id])];
      nextSeq := nextSeq[id := nextSeq[id] + 1];
    }
  }

  lemma {:induction false} InsertAllVaults(before: Db, versions: seq<Version>, added: map<VaultId, Bump>, ids: seq<VaultId>)
    requires InVaults(before, versions)
    requires forall id :: id in added ==> added[id] == Bump(CountIn(versions, id), BytesIn(versions, id))
    requires forall id :: id !in added ==> CountIn(versions, id) == 0 && BytesIn(versions, id) == 0
    requires Bumpable(before.vaults, added, ids) && forall id :: id in added ==> id in ids
    ensures InsertAll(before, versions).vaults == BumpAll(before.vaults, added, ids)
  {
    hide InsertAll, BumpAll, CountIn, BytesIn, InVaults;
    InsertAllBumps(before, versions);
    forall id | id in before.vaults
      ensures InsertAll(before, versions).vaults[id] == BumpAll(before.vaults, added, ids)[id]
    {
      BumpAllEffect(before.vaults, added, ids, id);
    }
    InsertedKeys(before, versions, added, ids);
  }

  lemma {:induction false} InsertedKeys(before: Db, versions: seq<Version>, added: map<VaultId, Bump>, ids: seq<VaultId>)
    requires InVaults(before, versions) && Bumpable(before.vaults, added, ids)
    ensures InsertAll(before, versions).vaults.Keys == BumpAll(before.vaults, added, ids).Keys == before.vaults.Keys
  {
  }

  lemma {:induction false} InsertAllRows(before: Db, versions: seq<Version>, rows: seq<Row>)
    requires InVaults(before, versions) && |rows| == |versions|
    requires forall i :: 0 <= i < |versions| ==> rows[i] == Row(versions[i], SeqOf(before, versions, i))
    ensures InsertAll(before, versions).records == before.records + rows
  {
    InsertKeepsRows(before, versions);
    var after := InsertAll(before, versions).records;
    forall i | 0 <= i < |versions|
      ensures after[|before.records| + i] == rows[i]
    {
      InsertAllNumbers(before, versions, i);
    }
  }

  /** The vaults a batch adds to, in id order. */
  method InIdOrder(vaults: map<VaultId, Vault>, added: map<VaultId, Bump>) returns (ids: seq<VaultId>)
    requires added.Keys <= vaults.Keys
    ensures Bumpable(vaults, added, ids)
    ensures forall id :: id in added ==> id in ids
    ensures forall i, j :: 0 <= i < j < |ids| ==> ids[i] < ids[j]
  {
    ids := Sorted(added.Keys);
    assert forall i :: 0 <= i < |ids| ==> ids[i] in ids && ids[i] in added;
    assert forall id :: id in added ==> id in added.Keys;
  }

  /** Append the batch: one seq range per vault, handed out in batch order. */
  method InsertVersions(db: Database, versions: seq<Version>) returns (rows: seq<Row>)
    requires InVaults(db.State(), versions)
    modifies db
    ensures db.State() == InsertAll(old(db.State()), versions)
    ensures rows == db.records[|old(db.records)|..]
  {
    hide InsertAll, BumpAll, CountIn, BytesIn, InVaults, SeqOf;
    VaultsKnown(db.State(), versions);
    ghost var before := db.State();
    var now := Db(db.vaults, db.records);
    var added := CountAdded(versions);
    forall id | id in added
      ensures id in db.vaults
    {
      var i :| 0 <= i < |versions| && versions[i].vaultId == id;
    }
    var ids := InIdOrder(db.vaults, added);
    var nextSeq := BumpVaults(db, added, ids);
    rows := NumberRows(now, versions, nextSeq);
    InsertAllVaults(before, versions, added, ids);
    InsertAllRows(before, versions, rows);
    db.records := db.records + rows;
  }

  /** Row by row, the history that the purges among the written rows end. */
  method DropHistories(db: Database, written: seq<Row>)
    modifies db
    ensures db.State() == DropPurgedHistory(old(db.State()), written)
  {
    ghost var before := db.State();
    for n := 0 to |written|
      invariant db.State() == DropPurgedHistory(before, written[..n])
    {
      assert written[..n + 1][..n] == written[..n];
      var row := written[n];
      if IsPurged(row.v) && row.v.vaultId in db.vaults {
        var freed := FreedBelow(db.records, row.v.recordId, row.v.version);
        var vault := db.vaults[row.v.vaultId];
        db.records := WithoutBelow(db.records, row.v.recordId, row.v.version);
        db.vaults := db.vaults[row.v.vaultId := vault.(usedBytes := vault.usedBytes - freed)];
      }
    }
    assert written[..|written|] == written;
  }

  // ---- Budgets ----

  /** What is left of one owner's quota, as an object that all their vaults refer to. */
  class StorageBudget {
    var remaining: int

    constructor (remaining: int)
      ensures this.remaining == remaining
    {
      this.remaining := remaining;
    }
  }

  function Objects(budgets: map<VaultId, StorageBudget>): set<StorageBudget> {
    set id | id in budgets :: budgets[id]
  }

  /** The budget objects say what the plan's budgets say, one object per owner. */
  ghost predicate Mirrors(objects: map<VaultId, StorageBudget>, vaults: map<VaultId, Vault>, budgets: map<UserId, int>)
    reads Objects(objects)
  {
    && (forall id :: id in objects ==> id in vaults && vaults[id].ownerId in budgets && objects[id].remaining == budgets[vaults[id].ownerId])
    && (forall a, b :: a in objects && b in objects ==> (objects[a] == objects[b] <==> vaults[a].ownerId == vaults[b].ownerId))
  }

  lemma {:induction false} OnePerOwner(vaults: map<VaultId, Vault>, quota: int, budgets: map<VaultId, StorageBudget>, byOwner: map<UserId, StorageBudget>)
    requires forall id :: id in budgets ==> id in vaults && vaults[id].ownerId in byOwner && budgets[id] == byOwner[vaults[id].ownerId]
    requires forall owner :: owner in byOwner ==> owner in OwnersOf(vaults) && byOwner[owner].remaining == Remaining(vaults, quota, owner)
    requires forall a, b :: a in byOwner && b in byOwner && a != b ==> byOwner[a] != byOwner[b]
    ensures Mirrors(budgets, vaults, Budgets(vaults, quota))
    ensures forall o :: o in Objects(budgets) ==> exists owner :: owner in byOwner && byOwner[owner] == o
  {
    hide Remaining;
  }

  /** Which budget object each vault refers to. */
  method StorageBudgets(vaults: map<VaultId, Vault>, quota: int, ids: seq<VaultId>) returns (budgets: map<VaultId, StorageBudget>)
    requires forall id :: id in ids ==> id in vaults
    ensures budgets.Keys == set id | id in ids
    ensures fresh(Objects(budgets))
    ensures Mirrors(budgets, vaults, Budgets(vaults, quota))
  {
    hide Remaining, Mirrors, Objects, Budgets;
    budgets := map[];
    var byOwner: map<UserId, StorageBudget> := map[];
    for n := 0 to |ids|
      invariant budgets.Keys == set i | 0 <= i < n :: ids[i]
      invariant forall owner :: owner in byOwner ==> fresh(byOwner[owner])
      invariant forall id :: id in budgets ==> id in vaults && vaults[id].ownerId in byOwner && budgets[id] == byOwner[vaults[id].ownerId]
      invariant forall owner :: owner in byOwner ==> owner in OwnersOf(vaults) && byOwner[owner].remaining == Remaining(vaults, quota, owner)
      invariant forall a, b :: a in byOwner && b in byOwner && a != b ==> byOwner[a] != byOwner[b]
    {
      var id := ids[n];
      assert id in vaults;
      var owner := vaults[id].ownerId;
      if owner !in byOwner {
        var budget := new StorageBudget(Remaining(vaults, quota, owner));
        assert forall o :: o in byOwner ==> byOwner[o] in byOwner.Values && byOwner[o] != budget;
        byOwner := byOwner[owner := budget];
      }
      budgets := budgets[id := byOwner[owner]];
    }
    OnePerOwner(vaults, quota, budgets, byOwner);
  }

  /** Take a chain's bytes from its payer's budget, if they fit. */
  method TakeFromBudget(vaults: map<VaultId, Vault>, chain: seq<Indexed>, appended: seq<Planned>, budgets: map<VaultId, StorageBudget>, ghost planned: map<UserId, int>)
      returns (fits: bool)
    requires Mirrors(budgets, vaults, planned)
    requires appended != [] ==> appended[0].version.vaultId in budgets
    modifies Objects(budgets)
    ensures fits == WithinQuota(vaults, chain, appended, planned).0
    ensures Mirrors(budgets, vaults, WithinQuota(vaults, chain, appended, planned).1)
  {
    if appended == [] {
      return true;
    }
    var budget := budgets[appended[0].version.vaultId];
    var bytes := 0;
    for n := 0 to |appended|
      invariant bytes == PlannedBytes(appended[..n])
    {
      assert appended[..n + 1][..n] == appended[..n];
      bytes := bytes + PushChangeBytes(appended[n].version.encryptedData);
    }
    assert appended[..|appended|] == appended;
    if bytes > budget.remaining && HasPut(chain) {
      return false;
    }
    budget.remaining := budget.remaining - bytes;
    return true;
  }
}
