/**
 * The rules of one push: what is decided for each change (pass 1), the versions that
 * are written (pass 2), the quota, and the effect on the tables. `PushServer` holds
 * the transaction itself, with its loops.
 */
module PushRules {
  import opened Prelude
  import opened Tables
  import opened Grouping

  datatype Change =
    | Put(clientChangeId: ChangeId, recordId: RecordId, vaultId: VaultId, clientUpdatedAt: int, baseVersion: nat,
          encryptedData: string, encryptionNonce: string, cryptoVersion: nat, keyVersion: nat)
    | Delete(clientChangeId: ChangeId, recordId: RecordId, vaultId: VaultId, clientUpdatedAt: int, baseVersion: nat,
             tombstoneKind: Option<TombstoneKind>)

  datatype Indexed = Indexed(index: nat, change: Change)

  datatype Rejection = NotFound | Forbidden | OldKeyVersion | OverQuota

  datatype Failure = Stale(headVersion: nat) | Rejected(reason: Rejection)

  datatype Outcome = Stored(row: Row) | Append | Failed(failure: Failure)

  datatype PushResult = Applied(clientChangeId: ChangeId, record: Copy) | Refused(clientChangeId: ChangeId, failure: Failure)

  /** What the schema lets through: every change of a batch has its own id. */
  predicate ValidBatch(changes: seq<Change>) {
    forall i, j :: 0 <= i < j < |changes| ==> changes[i].clientChangeId != changes[j].clientChangeId
  }

  /** Why the user may not write to the vault, or None when they may. */
  function Denied(vaults: map<VaultId, Vault>, user: UserId, vaultId: VaultId): Option<Rejection> {
    if vaultId !in vaults || vaults[vaultId].deleted || user !in vaults[vaultId].members
       || vaults[vaultId].members[user].status != Active then Some(NotFound)
    else if vaults[vaultId].members[user].role !in VAULT_WRITE_ROLES then Some(Forbidden)
    else None
  }

  // ---- Pass 1: decide ----

  /** A record in the middle of deciding its chain: the version and vault it would have by now. */
  datatype SimulatedHead = SimulatedHead(version: nat, vaultId: VaultId)

  function SimulatedFrom(head: Option<Version>): Option<SimulatedHead> {
    if head.None? then None else Some(SimulatedHead(head.value.version, head.value.vaultId))
  }

  function VersionIn(row: Option<Row>): Option<Version> {
    if row.None? then None else Some(row.value.v)
  }

  function VersionOf(row: Option<Row>): nat {
    if row.None? then 0 else row.value.v.version
  }

  /** Compare-and-swap: whether a change builds on exactly the simulated head, in its vault. */
  function Decide(change: Change, head: Option<SimulatedHead>, dbHeadVersion: nat): Outcome {
    if head.None? then
      if change.Delete? || change.baseVersion != 0 then Failed(Rejected(NotFound)) else Append
    else if head.value.vaultId != change.vaultId then Failed(Rejected(NotFound))
    else if change.baseVersion != head.value.version then Failed(Stale(dbHeadVersion))
    else Append
  }

  /** The checks on one change, in the order their failures win. */
  function DecideChange(db: Db, user: UserId, change: Change, head: Option<SimulatedHead>, dbHeadVersion: nat): Outcome {
    var denied := Denied(db.vaults, user, change.vaultId);
    if denied.Some? then Failed(Rejected(denied.value)) else
      var stored := StoredChange(db.records, change.recordId, change.clientChangeId);
      if stored.Some? then
        if stored.value.v.vaultId == change.vaultId then Stored(stored.value) else Failed(Rejected(NotFound))
      else if change.Put? && change.keyVersion != db.vaults[change.vaultId].keyVersion then Failed(Rejected(OldKeyVersion))
      else Decide(change, head, dbHeadVersion)
  }

  datatype Simulation = Simulation(head: Option<SimulatedHead>, failure: Option<Failure>, outcomes: seq<Outcome>)

  /** The changes of a chain, each against the head the ones before it would leave. */
  function Simulate(db: Db, user: UserId, chain: seq<Indexed>, dbHead: Option<Row>): (sim: Simulation)
    ensures |sim.outcomes| == |chain|
  {
    if chain == [] then Simulation(SimulatedFrom(VersionIn(dbHead)), None, []) else
      var n := |chain| - 1;
      var sim := Simulate(db, user, chain[..n], dbHead);
      var change := chain[n].change;
      var outcome := DecideChange(db, user, change, sim.head, VersionOf(dbHead));
      Simulation(
        if outcome.Append? then Some(SimulatedHead((if sim.head.None? then 0 else sim.head.value.version) + 1, change.vaultId))
        else sim.head,
        if sim.failure.None? && outcome.Failed? then Some(outcome.failure) else sim.failure,
        sim.outcomes + [outcome])
  }

  /** A failure takes every change of the chain that is not stored yet with it. */
  function Broadcast(outcomes: seq<Outcome>, failure: Failure): (all: seq<Outcome>)
    ensures |all| == |outcomes|
    ensures forall i :: 0 <= i < |all| ==> all[i] == if outcomes[i].Stored? then outcomes[i] else Failed(failure)
  {
    seq(|outcomes|, i requires 0 <= i < |outcomes| => if outcomes[i].Stored? then outcomes[i] else Failed(failure))
  }

  function DecideChain(db: Db, user: UserId, chain: seq<Indexed>, dbHead: Option<Row>): (outcomes: seq<Outcome>)
    ensures |outcomes| == |chain|
  {
    var sim := Simulate(db, user, chain, dbHead);
    if sim.failure.None? then sim.outcomes else Broadcast(sim.outcomes, sim.failure.value)
  }

  // ---- Pass 2: the versions to write ----

  datatype Planned = Planned(index: nat, version: Version)

  /** The version a change makes of the one below it. */
  function NextVersion(change: Change, head: Option<Version>, user: UserId): (next: Version)
    requires change.Put? || head.Some?
  {
    var version := (if head.None? then 0 else head.value.version) + 1;
    if change.Put? then
      Version(change.recordId, change.vaultId, user, version, change.clientUpdatedAt, change.clientChangeId,
              change.encryptedData, change.encryptionNonce, change.cryptoVersion, change.keyVersion, false, None)
    else
      var kind := if IsPurged(head.value) then Some(Purged)
                  else if change.tombstoneKind.Some? then change.tombstoneKind else head.value.tombstoneKind;
      var purged := kind == Some(Purged);
      Version(change.recordId, change.vaultId, user, version, change.clientUpdatedAt, change.clientChangeId,
              if purged then "" else head.value.encryptedData, if purged then "" else head.value.encryptionNonce,
              head.value.cryptoVersion, head.value.keyVersion, true, kind)
  }

  datatype Draft = Draft(head: Option<Version>, appended: seq<Planned>)

  /** Whether no deletion of the chain is written on a record that has no version. */
  predicate Writable(chain: seq<Indexed>, outcomes: seq<Outcome>, dbHead: Option<Row>, user: UserId)
    requires |outcomes| == |chain|
    decreases |chain|, 0
  {
    chain == [] ||
    var n := |chain| - 1;
    && Writable(chain[..n], outcomes[..n], dbHead, user)
    && (outcomes[n].Append? && chain[n].change.Delete? ==> WriteChain(chain[..n], outcomes[..n], dbHead, user).head.Some?)
  }

  /** The versions a chain appends, each on top of the one before. */
  function WriteChain(chain: seq<Indexed>, outcomes: seq<Outcome>, dbHead: Option<Row>, user: UserId): (draft: Draft)
    requires |outcomes| == |chain|
    requires Writable(chain, outcomes, dbHead, user)
    decreases |chain|, 1
  {
    if chain == [] then Draft(VersionIn(dbHead), []) else
      var n := |chain| - 1;
      var draft := WriteChain(chain[..n], outcomes[..n], dbHead, user);
      if outcomes[n].Append? then
        var version := NextVersion(chain[n].change, draft.head, user);
        Draft(Some(version), draft.appended + [Planned(chain[n].index, version)])
      else draft
  }

  /** The first pass simulates exactly the head the second pass writes. */
  lemma {:induction false} SimulationAgrees(db: Db, user: UserId, chain: seq<Indexed>, dbHead: Option<Row>)
    requires Simulate(db, user, chain, dbHead).failure.None?
    ensures var sim := Simulate(db, user, chain, dbHead);
            && Writable(chain, sim.outcomes, dbHead, user)
            && sim.head == SimulatedFrom(WriteChain(chain, sim.outcomes, dbHead, user).head)
  {
    if chain != [] {
      hide DecideChange, NextVersion;
      var n := |chain| - 1;
      SimulationAgrees(db, user, chain[..n], dbHead);
      var sim, before := Simulate(db, user, chain, dbHead), Simulate(db, user, chain[..n], dbHead);
      assert sim.outcomes[..n] == before.outcomes;
      if sim.outcomes[n].Append? {
        AppendAgrees(db, user, chain[n].change, WriteChain(chain[..n], before.outcomes, dbHead, user).head, VersionOf(dbHead));
      }
    }
  }

  /** A change decided as appended can be written, and leaves the head that is simulated. */
  lemma {:induction false} AppendAgrees(db: Db, user: UserId, change: Change, head: Option<Version>, dbHeadVersion: nat)
    requires DecideChange(db, user, change, SimulatedFrom(head), dbHeadVersion).Append?
    ensures change.Put? || head.Some?
    ensures SimulatedFrom(Some(NextVersion(change, head, user))) ==
            Some(SimulatedHead((if head.None? then 0 else head.value.version) + 1, change.vaultId))
  {
    hide StoredChange, Denied;
  }

  lemma {:induction false} NothingToWrite(chain: seq<Indexed>, outcomes: seq<Outcome>, dbHead: Option<Row>, user: UserId)
    requires |outcomes| == |chain|
    requires forall i :: 0 <= i < |outcomes| ==> !outcomes[i].Append?
    ensures Writable(chain, outcomes, dbHead, user)
    ensures WriteChain(chain, outcomes, dbHead, user) == Draft(VersionIn(dbHead), [])
  {
    if chain != [] {
      NothingToWrite(chain[..|chain| - 1], outcomes[..|chain| - 1], dbHead, user);
    }
  }

  /** Pass 2 never meets a deletion without a version below it. */
  lemma {:induction false} DecidedIsWritable(db: Db, user: UserId, chain: seq<Indexed>, dbHead: Option<Row>)
    ensures Writable(chain, DecideChain(db, user, chain, dbHead), dbHead, user)
  {
    var sim := Simulate(db, user, chain, dbHead);
    if sim.failure.None? {
      SimulationAgrees(db, user, chain, dbHead);
    } else {
      NothingToWrite(chain, Broadcast(sim.outcomes, sim.failure.value), dbHead, user);
    }
  }

  // ---- The quota ----

  /** What an owner's live vaults take up, over the vaults with these ids. */
  function UsedBy(vaults: map<VaultId, Vault>, ids: seq<VaultId>, owner: UserId): int {
    if ids == [] then 0 else
      var id := ids[|ids| - 1];
      UsedBy(vaults, ids[..|ids| - 1], owner) +
      (if id in vaults && vaults[id].ownerId == owner && !vaults[id].deleted then vaults[id].usedBytes else 0)
  }

  /** The rest of an owner's quota. */
  function Remaining(vaults: map<VaultId, Vault>, quota: int, owner: UserId): int {
    quota - UsedBy(vaults, Sorted(vaults.Keys), owner)
  }

  function Budgets(vaults: map<VaultId, Vault>, quota: int): map<UserId, int> {
    map owner | owner in OwnersOf(vaults) :: Remaining(vaults, quota, owner)
  }

  function OwnersOf(vaults: map<VaultId, Vault>): set<UserId> {
    set id | id in vaults :: vaults[id].ownerId
  }

  function PlannedBytes(appended: seq<Planned>): nat {
    if appended == [] then 0 else
      PlannedBytes(appended[..|appended| - 1]) + PushChangeBytes(appended[|appended| - 1].version.encryptedData)
  }

  predicate HasPut(chain: seq<Indexed>) {
    exists i :: 0 <= i < |chain| && chain[i].change.Put?
  }

  predicate IsMoveSource(change: Change) {
    change.Delete? && change.tombstoneKind == Some(Moved)
  }

  predicate HasMoveSource(chain: seq<Indexed>) {
    exists i :: 0 <= i < |chain| && IsMoveSource(chain[i].change)
  }

  /** The owner whose budget a chain's versions take from. */
  function PayerOf(vaults: map<VaultId, Vault>, appended: seq<Planned>): Option<UserId> {
    if appended == [] || appended[0].version.vaultId !in vaults then None
    else Some(vaults[appended[0].version.vaultId].ownerId)
  }

  /** Whether a chain fits the budget, and the budgets after it took from it. */
  function WithinQuota(vaults: map<VaultId, Vault>, chain: seq<Indexed>, appended: seq<Planned>, budgets: map<UserId, int>): (bool, map<UserId, int>) {
    var payer := PayerOf(vaults, appended);
    if payer.None? || payer.value !in budgets then (true, budgets)
    else
      var bytes := PlannedBytes(appended);
      if bytes > budgets[payer.value] && HasPut(chain) then (false, budgets)
      else (true, budgets[payer.value := budgets[payer.value] - bytes])
  }

  /** Whether the record's newest version is still under a key its vault replaced. */
  predicate RewritesOldKey(vaults: map<VaultId, Vault>, dbHead: Option<Row>) {
    && dbHead.Some?
    && dbHead.value.v.vaultId in vaults
    && dbHead.value.v.keyVersion < vaults[dbHead.value.v.vaultId].keyVersion
  }

  // ---- The batch ----

  /** One chain with what was decided for it. */
  datatype Judged = Judged(chain: seq<Indexed>, dbHead: Option<Row>, outcomes: seq<Outcome>, appended: seq<Planned>, accepted: bool)

  datatype Docket = Docket(judged: seq<Judged>, budgets: map<UserId, int>)

  function Judge(db: Db, user: UserId, budgets: map<UserId, int>, chain: Chain<Indexed>): (Judged, map<UserId, int>) {
    var dbHead := Head(db.records, chain.recordId);
    var outcomes := DecideChain(db, user, chain.items, dbHead);
    DecidedIsWritable(db, user, chain.items, dbHead);
    var appended := WriteChain(chain.items, outcomes, dbHead, user).appended;
    var (fits, budgets') := if RewritesOldKey(db.vaults, dbHead) then (true, budgets)
                            else WithinQuota(db.vaults, chain.items, appended, budgets);
    (Judged(chain.items, dbHead, outcomes, appended, fits), budgets')
  }

  /** Every chain in turn; later ones see what the earlier ones took from the budgets. */
  function JudgeAll(db: Db, user: UserId, budgets: map<UserId, int>, chains: seq<Chain<Indexed>>): (docket: Docket)
    ensures |docket.judged| == |chains|
  {
    if chains == [] then Docket([], budgets) else
      var n := |chains| - 1;
      var docket := JudgeAll(db, user, budgets, chains[..n]);
      var (judged, budgets') := Judge(db, user, docket.budgets, chains[n]);
      Docket(docket.judged + [judged], budgets')
  }

  predicate OverQuotaIn(judged: seq<Judged>) {
    exists i :: 0 <= i < |judged| && !judged[i].accepted
  }

  /** A move's source stays when some chain of the batch was over quota. */
  predicate Kept(j: Judged, overQuota: bool) {
    j.accepted && !(overQuota && HasMoveSource(j.chain))
  }

  /** The versions to write, in chain order. */
  function PlanOf(judged: seq<Judged>, overQuota: bool): seq<Planned> {
    if judged == [] then [] else
      var last := judged[|judged| - 1];
      PlanOf(judged[..|judged| - 1], overQuota) + (if Kept(last, overQuota) then last.appended else [])
  }

  function Versions(planned: seq<Planned>): (versions: seq<Version>)
    ensures |versions| == |planned|
    ensures forall i :: 0 <= i < |planned| ==> versions[i] == planned[i].version
  {
    seq(|planned|, i requires 0 <= i < |planned| => planned[i].version)
  }

  // ---- The tables ----

  /** Write one version: the vault's next seq, its bytes, the row. */
  function InsertOne(db: Db, version: Version): Db
    requires version.vaultId in db.vaults
  {
    var vault := db.vaults[version.vaultId];
    Db(db.vaults[version.vaultId := vault.(lastSeq := vault.lastSeq + 1, usedBytes := vault.usedBytes + PushChangeBytes(version.encryptedData))],
       db.records + [Row(version, vault.lastSeq + 1)])
  }

  predicate InVaults(db: Db, versions: seq<Version>) {
    forall i :: 0 <= i < |versions| ==> versions[i].vaultId in db.vaults
  }

  /** Write versions one at a time. */
  function InsertAll(db: Db, versions: seq<Version>): (after: Db)
    requires InVaults(db, versions)
    ensures after.vaults.Keys == db.vaults.Keys
    ensures |after.records| == |db.records| + |versions|
  {
    if versions == [] then db else
      InsertOne(InsertAll(db, versions[..|versions| - 1]), versions[|versions| - 1])
  }

  /** The rows without a record's versions below a number. */
  function WithoutBelow(rows: seq<Row>, recordId: RecordId, version: nat): seq<Row> {
    if rows == [] then [] else
      var last := rows[|rows| - 1];
      WithoutBelow(rows[..|rows| - 1], recordId, version) +
      (if last.v.recordId == recordId && last.v.version < version then [] else [last])
  }

  /** What dropping a record's versions below a number frees. */
  function FreedBelow(rows: seq<Row>, recordId: RecordId, version: nat): nat {
    if rows == [] then 0 else
      var last := rows[|rows| - 1];
      FreedBelow(rows[..|rows| - 1], recordId, version) +
      (if last.v.recordId == recordId && last.v.version < version then PushChangeBytes(last.v.encryptedData) else 0)
  }

  function DropBelow(db: Db, row: Row): Db {
    if !IsPurged(row.v) || row.v.vaultId !in db.vaults then db else
      var vault := db.vaults[row.v.vaultId];
      Db(db.vaults[row.v.vaultId := vault.(usedBytes := vault.usedBytes - FreedBelow(db.records, row.v.recordId, row.v.version))],
         WithoutBelow(db.records, row.v.recordId, row.v.version))
  }

  /** Drop the history below every purged tombstone just written. */
  function DropPurgedHistory(db: Db, written: seq<Row>): Db {
    if written == [] then db else
      DropBelow(DropPurgedHistory(db, written[..|written| - 1]), written[|written| - 1])
  }

  // ---- The answers ----

  /** The answer to one change of a judged chain, once the batch's rows are written. */
  function AnswerTo(j: Judged, k: nat, overQuota: bool, written: seq<Row>): PushResult
    requires |j.outcomes| == |j.chain|
    requires k < |j.chain|
  {
    var change := j.chain[k].change;
    var id := change.clientChangeId;
    match j.outcomes[k]
    case Failed(failure) => Refused(id, failure)
    case Stored(row) => Applied(id, SerializeRecord(row))
    case Append =>
      var row := StoredChange(written, change.recordId, id);
      if Kept(j, overQuota) && row.Some? then Applied(id, SerializeRecord(row.value)) else Refused(id, Rejected(OverQuota))
  }

  function Enumerate(changes: seq<Change>): (indexed: seq<Indexed>)
    ensures |indexed| == |changes|
    ensures forall i :: 0 <= i < |changes| ==> indexed[i] == Indexed(i, changes[i])
  {
    seq(|changes|, i requires 0 <= i < |changes| => Indexed(i, changes[i]))
  }

  function RecordIds(changes: seq<Change>): (ids: seq<RecordId>)
    ensures |ids| == |changes|
    ensures forall i :: 0 <= i < |changes| ==> ids[i] == changes[i].recordId
  {
    seq(|changes|, i requires 0 <= i < |changes| => changes[i].recordId)
  }

  function ChainsOf(changes: seq<Change>): seq<Chain<Indexed>> {
    Group(Enumerate(changes), RecordIds(changes))
  }

  function JudgeBatch(db: Db, user: UserId, quota: int, changes: seq<Change>): (judged: seq<Judged>) {
    JudgeAll(db, user, Budgets(db.vaults, quota), ChainsOf(changes)).judged
  }

  /** The versions a batch writes. */
  function PlanBatch(db: Db, user: UserId, quota: int, changes: seq<Change>): seq<Version> {
    var judged := JudgeBatch(db, user, quota, changes);
    Versions(PlanOf(judged, OverQuotaIn(judged)))
  }
}
