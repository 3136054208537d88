/** The storage quota over one whole push. */
module PushQuota {
  import opened Prelude
  import opened Tables
  import opened Grouping
  import opened PushRules
  import opened PushLog
  import opened PushPlan
  import opened PushEffect
  import opened PushAnswers
  import opened PushServer
  import opened PushTransaction

  /** A chain that adds content the quota counts: it has a put and rewrites no old-key record. */
  predicate Counted(vaults: map<VaultId, Vault>, j: Judged, owner: UserId) {
    && (exists p :: 0 <= p < |j.chain| && j.chain[p].change.Put?)
    && !UnderOldKey(vaults, j.dbHead)
    && PaidBy(vaults, j, owner)
  }

  /** The record's newest version is under a key its vault replaced. */
  predicate UnderOldKey(vaults: map<VaultId, Vault>, head: Option<Row>) {
    && head.Some? && head.value.v.vaultId in vaults
    && head.value.v.keyVersion < vaults[head.value.v.vaultId].keyVersion
  }

  /** The chain writes something, to a vault of this owner. */
  predicate PaidBy(vaults: map<VaultId, Vault>, j: Judged, owner: UserId) {
    j.appended != [] && j.appended[0].version.vaultId in vaults && vaults[j.appended[0].version.vaultId].ownerId == owner
  }

  /** What the written chains that count take from an owner, over all their vaults. */
  function TakenBy(vaults: map<VaultId, Vault>, judged: seq<Judged>, overQuota: bool, owner: UserId): nat {
    if judged == [] then 0 else
      var last := judged[|judged| - 1];
      TakenBy(vaults, judged[..|judged| - 1], overQuota, owner) +
      (if Kept(last, overQuota) && Counted(vaults, last, owner) then PlannedBytes(last.appended) else 0)
  }

  /** How one chain moves an owner's budget. */
  lemma {:induction false} BudgetStep(db: Db, user: UserId, budgets: map<UserId, int>, chain: Chain<Indexed>, owner: UserId)
    requires owner in budgets
    ensures var (j, after) := Judge(db, user, budgets, chain);
            && owner in after && after[owner] <= budgets[owner]
            && (j.accepted && Counted(db.vaults, j, owner) ==>
                  PlannedBytes(j.appended) <= budgets[owner] && after[owner] == budgets[owner] - PlannedBytes(j.appended))
            && after[owner] == budgets[owner] - (if j.accepted && !UnderOldKey(db.vaults, j.dbHead) && PaidBy(db.vaults, j, owner) then PlannedBytes(j.appended) else 0)
            && (PaidBy(db.vaults, j, owner) ==>
                  (j.accepted <==> UnderOldKey(db.vaults, j.dbHead) || PlannedBytes(j.appended) <= budgets[owner]
                                   || forall p :: 0 <= p < |j.chain| ==> j.chain[p].change.Delete?))
            && (j.appended == [] ==> j.accepted)
  {
    hide DecideChain, WriteChain, PlannedBytes, Head;
    JudgeGives(db, user, budgets, chain);
  }

  lemma {:induction false} TakenWithin(db: Db, user: UserId, start: map<UserId, int>, chains: seq<Chain<Indexed>>, overQuota: bool, owner: UserId)
    requires owner in start
    ensures var docket := JudgeAll(db, user, start, chains);
            var taken := TakenBy(db.vaults, docket.judged, overQuota, owner);
            && owner in docket.budgets
            && taken <= start[owner] - docket.budgets[owner]
            && taken <= Max(0, start[owner])
  {
    hide Judge, Counted, RewritesOldKey, UnderOldKey, PaidBy;
    if chains != [] {
      var n := |chains| - 1;
      TakenWithin(db, user, start, chains[..n], overQuota, owner);
      var before := JudgeAll(db, user, start, chains[..n]);
      BudgetStep(db, user, before.budgets, chains[n], owner);
      var judged := JudgeAll(db, user, start, chains).judged;
      assert judged[..|judged| - 1] == before.judged;
    }
  }

  /**
   * In one push the chains that count take from each owner, over all their vaults, at
   * most what the owner had left before it (nothing when they were over already).
   */
  lemma {:induction false} PushWithinQuota(db: Db, user: UserId, quota: int, changes: seq<Change>, owner: UserId)
    requires owner in OwnersOf(db.vaults)
    ensures var judged := JudgeBatch(db, user, quota, changes);
            TakenBy(db.vaults, judged, OverQuotaIn(judged), owner) <= Max(0, Remaining(db.vaults, quota, owner))
  {
    hide Remaining;
    var judged := JudgeBatch(db, user, quota, changes);
    TakenWithin(db, user, Budgets(db.vaults, quota), ChainsOf(changes), OverQuotaIn(judged), owner);
  }

  // ---- Exactly what the quota lets through ----

  /** What the chains judged so far take from an owner. */
  function Charged(vaults: map<VaultId, Vault>, judged: seq<Judged>, owner: UserId): nat {
    if judged == [] then 0 else
      var last := judged[|judged| - 1];
      Charged(vaults, judged[..|judged| - 1], owner) +
      (if last.accepted && !UnderOldKey(vaults, last.dbHead) && PaidBy(vaults, last, owner) then PlannedBytes(last.appended) else 0)
  }

  lemma {:induction false} BudgetLeft(db: Db, user: UserId, start: map<UserId, int>, chains: seq<Chain<Indexed>>, owner: UserId)
    requires owner in start
    ensures var docket := JudgeAll(db, user, start, chains);
            owner in docket.budgets && docket.budgets[owner] == start[owner] - Charged(db.vaults, docket.judged, owner)
  {
    hide Judge, UnderOldKey, PaidBy;
    if chains != [] {
      var n := |chains| - 1;
      BudgetLeft(db, user, start, chains[..n], owner);
      var before := JudgeAll(db, user, start, chains[..n]);
      BudgetStep(db, user, before.budgets, chains[n], owner);
      var judged := JudgeAll(db, user, start, chains).judged;
      assert judged[..|judged| - 1] == before.judged;
    }
  }

  lemma {:induction false} JudgedPrefix(db: Db, user: UserId, start: map<UserId, int>, chains: seq<Chain<Indexed>>, k: nat)
    requires k <= |chains|
    ensures JudgeAll(db, user, start, chains[..k]).judged == JudgeAll(db, user, start, chains).judged[..k]
  {
    hide Judge;
    if k == |chains| {
      assert chains[..k] == chains;
    } else {
      var n := |chains| - 1;
      JudgedPrefix(db, user, start, chains[..n], k);
      assert chains[..n][..k] == chains[..k];
      var before, last := JudgeAllStep(db, user, start, chains);
    }
  }

  /**
   * A chain that writes is kept within the quota exactly when it rewrites a record under
   * an old key, has no put, or takes no more than the owner's quota less what their live
   * vaults hold and what the chains before it take.
   */
  lemma {:induction false} AcceptedExactly(db: Db, user: UserId, quota: int, changes: seq<Change>, k: nat, owner: UserId)
    requires LogInv(db) && k < |ChainsOf(changes)|
    ensures var judged := JudgeBatch(db, user, quota, changes);
            && |judged| == |ChainsOf(changes)|
            && (judged[k].appended == [] ==> judged[k].accepted)
            && (PaidBy(db.vaults, judged[k], owner) ==>
                  (judged[k].accepted <==>
                     || UnderOldKey(db.vaults, judged[k].dbHead)
                     || (forall p :: 0 <= p < |judged[k].chain| ==> judged[k].chain[p].change.Delete?)
                     || PlannedBytes(judged[k].appended) <= quota - OwnedBytes(db.vaults, db.records, owner) - Charged(db.vaults, judged[..k], owner)))
  {
    hide LogInv, Judge, Remaining, PlannedBytes, ChainsOf, UnderOldKey, Charged, OwnedBytes;
    var chains := ChainsOf(changes);
    var start := Budgets(db.vaults, quota);
    var judged := JudgeBatch(db, user, quota, changes);
    JudgedAt(db, user, start, chains, k);
    if PaidBy(db.vaults, judged[k], owner) {
      assert owner in OwnersOf(db.vaults);
      BudgetLeft(db, user, start, chains[..k], owner);
      JudgedPrefix(db, user, start, chains, k);
      BudgetStep(db, user, JudgeAll(db, user, start, chains[..k]).budgets, chains[k], owner);
      RemainingIs(db, quota, owner);
    } else {
      JudgedEmpty(db, user, JudgeAll(db, user, start, chains[..k]).budgets, chains[k]);
    }
  }

  lemma {:induction false} JudgedEmpty(db: Db, user: UserId, budgets: map<UserId, int>, chain: Chain<Indexed>)
    ensures var j := Judge(db, user, budgets, chain).0; j.appended == [] ==> j.accepted
  {
    hide DecideChain, WriteChain, PlannedBytes, Head;
    JudgeGives(db, user, budgets, chain);
  }

  // ---- What an owner has left ----

  /** The stored versions in an owner's live vaults, row by row. */
  function OwnedBytes(vaults: map<VaultId, Vault>, rows: seq<Row>, owner: UserId): nat {
    if rows == [] then 0 else
      var last := rows[|rows| - 1].v;
      OwnedBytes(vaults, rows[..|rows| - 1], owner) +
      (if last.vaultId in vaults && vaults[last.vaultId].ownerId == owner && !vaults[last.vaultId].deleted then PushChangeBytes(last.encryptedData) else 0)
  }

  /** The same, vault by vault. */
  function OwnedIn(vaults: map<VaultId, Vault>, rows: seq<Row>, ids: seq<VaultId>, owner: UserId): nat {
    if ids == [] then 0 else
      var id := ids[|ids| - 1];
      OwnedIn(vaults, rows, ids[..|ids| - 1], owner) +
      (if id in vaults && vaults[id].ownerId == owner && !vaults[id].deleted then StoredBytes(rows, id) else 0)
  }

  lemma {:induction false} UsedIsOwnedIn(db: Db, ids: seq<VaultId>, owner: UserId)
    requires BytesExact(db)
    ensures UsedBy(db.vaults, ids, owner) == OwnedIn(db.vaults, db.records, ids, owner)
  {
    if ids != [] {
      UsedIsOwnedIn(db, ids[..|ids| - 1], owner);
    }
  }

  lemma {:induction false} OwnedInNothing(vaults: map<VaultId, Vault>, ids: seq<VaultId>, owner: UserId)
    ensures OwnedIn(vaults, [], ids, owner) == 0
  {
    if ids != [] {
      OwnedInNothing(vaults, ids[..|ids| - 1], owner);
    }
  }

  /** One more row counts once, in its own vault, when that is listed. */
  lemma {:induction false} OwnedInRow(vaults: map<VaultId, Vault>, rows: seq<Row>, row: Row, ids: seq<VaultId>, owner: UserId)
    requires forall i, j :: 0 <= i < j < |ids| ==> ids[i] != ids[j]
    ensures OwnedIn(vaults, rows + [row], ids, owner) == OwnedIn(vaults, rows, ids, owner) +
            (if row.v.vaultId in ids && row.v.vaultId in vaults && vaults[row.v.vaultId].ownerId == owner && !vaults[row.v.vaultId].deleted
             then PushChangeBytes(row.v.encryptedData) else 0)
  {
    if ids != [] {
      var n := |ids| - 1;
      assert ids == ids[..n] + [ids[n]];
      OwnedInRow(vaults, rows, row, ids[..n], owner);
      StoredBytesAppend(rows, row, ids[n]);
    }
  }

  lemma {:induction false} OwnedInIsOwned(vaults: map<VaultId, Vault>, rows: seq<Row>, ids: seq<VaultId>, owner: UserId)
    requires forall i, j :: 0 <= i < j < |ids| ==> ids[i] != ids[j]
    requires forall id :: id in vaults <==> id in ids
    ensures OwnedIn(vaults, rows, ids, owner) == OwnedBytes(vaults, rows, owner)
  {
    if rows == [] {
      OwnedInNothing(vaults, ids, owner);
    } else {
      var n := |rows| - 1;
      OwnedInIsOwned(vaults, rows[..n], ids, owner);
      OwnedInRow(vaults, rows[..n], rows[n], ids, owner);
      assert rows == rows[..n] + [rows[n]];
    }
  }

  /** What an owner has left is their quota less every version stored in a live vault of theirs. */
  lemma {:induction false} RemainingIs(db: Db, quota: int, owner: UserId)
    requires LogInv(db)
    ensures Remaining(db.vaults, quota, owner) == quota - OwnedBytes(db.vaults, db.records, owner)
  {
    hide Sound, PurgedLowest, BytesExact, UsedBy, OwnedIn, OwnedBytes;
    var ids := Sorted(db.vaults.Keys);
    UsedIsOwnedIn(db, ids, owner);
    OwnedInIsOwned(db.vaults, db.records, ids, owner);
  }

  /** The measure of the quota is the measure of the byte counters. */
  lemma {:induction false} PlannedBytesAre(appended: seq<Planned>, id: VaultId)
    requires forall i :: 0 <= i < |appended| ==> appended[i].version.vaultId == id
    ensures PlannedBytes(appended) == BytesIn(Versions(appended), id)
  {
    if appended != [] {
      var n := |appended| - 1;
      PlannedBytesAre(appended[..n], id);
      assert Versions(appended)[..n] == Versions(appended[..n]);
    }
  }

  /** When any chain was over quota, nothing is written for a record the batch moves away. */
  lemma {:induction false} MovesStayWhenOverQuota(db: Db, user: UserId, quota: int, changes: seq<Change>, n: nat, x: Version)
    requires Sound(db) && ValidBatch(changes)
    requires exists m :: 0 <= m < |JudgeBatch(db, user, quota, changes)| && !JudgeBatch(db, user, quota, changes)[m].accepted
    requires n < |changes| && changes[n].Delete? && changes[n].tombstoneKind == Some(Moved)
    requires x in PlanBatch(db, user, quota, changes)
    ensures x.recordId != changes[n].recordId
  {
    hide Sound, ValidBatch, JudgeBatch, PlanBatch;
    OverQuotaExactly(JudgeBatch(db, user, quota, changes));
    MovedStays(db, user, quota, changes, n, x);
  }

  lemma {:induction false} OverQuotaExactly(judged: seq<Judged>)
    ensures OverQuotaIn(judged) <==> exists m :: 0 <= m < |judged| && !judged[m].accepted
  {
  }

  lemma {:induction false} MovedStays(db: Db, user: UserId, quota: int, changes: seq<Change>, n: nat, x: Version)
    requires Sound(db) && ValidBatch(changes)
    requires OverQuotaIn(JudgeBatch(db, user, quota, changes))
    requires n < |changes| && IsMoveSource(changes[n])
    requires x in PlanBatch(db, user, quota, changes)
    ensures x.recordId != changes[n].recordId
  {
    hide Sound, ValidBatch, OverQuotaIn, JudgeBatch, ChainsOf, PlanOf, HasMoveSource, IsMoveSource, ChainIn, JudgedFor;
    var chains := ChainsOf(changes);
    var judged := JudgeBatch(db, user, quota, changes);
    BatchJudging(db, user, quota, changes);
    var planned := PlanOf(judged, OverQuotaIn(judged));
    var i :| 0 <= i < |planned| && planned[i].version == x;
    var k := PlanMember(judged, OverQuotaIn(judged), planned[i]);
    PlannedPlace(db, user, changes, chains, judged, k, planned[i]);
    var m := MoveChain(db, user, quota, changes, n);
  }

  /** A move source is in its record's chain. */
  lemma {:induction false} MoveChain(db: Db, user: UserId, quota: int, changes: seq<Change>, n: nat) returns (m: nat)
    requires n < |changes| && IsMoveSource(changes[n])
    ensures m < |ChainsOf(changes)| == |JudgeBatch(db, user, quota, changes)|
    ensures ChainsOf(changes)[m].recordId == changes[n].recordId && HasMoveSource(JudgeBatch(db, user, quota, changes)[m].chain)
  {
    hide JudgeBatch, IsMoveSource, Judging;
    var chains := ChainsOf(changes);
    BatchJudged(db, user, quota, changes);
    ChainsOfBatch(changes);
    assert HasIndex(chains, n);
    var k, p :| 0 <= k < |chains| && 0 <= p < |chains[k].items| && chains[k].items[p].index == n;
    assert Lists(changes, chains[k]) && JudgedFor(db, user, chains[k], JudgeBatch(db, user, quota, changes)[k]);
    m := k;
    assert IsMoveSource(JudgeBatch(db, user, quota, changes)[m].chain[p].change);
  }
}
