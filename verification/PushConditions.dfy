/**
 * Exact conditions: when a change of a batch is written, when an id is written a second
 * time, and when a moved record stays moved.
 */
module PushConditions {
  import opened Prelude
  import opened Tables
  import opened Grouping
  import opened PushRules
  import opened PushLog
  import opened PushPlan
  import opened PushEffect
  import opened PushAnswers
  import opened PushTransaction
  import opened PushResults
  import opened PushOnce

  // ---- When a chain passes ----

  /** An active member of the live vault who is not only a reader. */
  predicate MayWrite(vaults: map<VaultId, Vault>, user: UserId, vaultId: VaultId) {
    && vaultId in vaults && !vaults[vaultId].deleted
    && user in vaults[vaultId].members
    && vaults[vaultId].members[user].status == Active && vaults[vaultId].members[user].role != Read
  }

  /** Whether the user is in the live vault at all. */
  predicate IsIn(vaults: map<VaultId, Vault>, user: UserId, vaultId: VaultId) {
    vaultId in vaults && !vaults[vaultId].deleted && user in vaults[vaultId].members && vaults[vaultId].members[user].status == Active
  }

  lemma {:induction false} DeniedExactly(vaults: map<VaultId, Vault>, user: UserId, vaultId: VaultId)
    ensures Denied(vaults, user, vaultId) ==
            if MayWrite(vaults, user, vaultId) then None
            else if IsIn(vaults, user, vaultId) then Some(Rejection.Forbidden)
            else Some(Rejection.NotFound)
  {
    if IsIn(vaults, user, vaultId) {
      match vaults[vaultId].members[user].role {
        case Owner =>
        case Manage =>
        case Write =>
        case Read =>
      }
    }
  }

  predicate Held(db: Db, change: Change) {
    StoredChange(db.records, change.recordId, change.clientChangeId).Some?
  }

  /** How many of the changes the server does not hold yet. */
  function Unheld(db: Db, chain: seq<Indexed>): nat {
    if chain == [] then 0 else
      var n := |chain| - 1;
      Unheld(db, chain[..n]) + (if Held(db, chain[n].change) then 0 else 1)
  }

  /** The vault of a record: where its newest version is, or where its first version is going. */
  function Home(chain: seq<Indexed>, head: Option<Row>): VaultId
    requires chain != []
  {
    if head.Some? then head.value.v.vaultId else chain[0].change.vaultId
  }

  /**
   * What a change must meet: its author may write to its vault; and the server holds its
   * version in that vault, or its content is under the vault's current key, it goes to
   * the record's own vault, and it builds on exactly the version before it, which only a
   * put can start.
   */
  predicate Passes(db: Db, user: UserId, chain: seq<Indexed>, head: Option<Row>, p: nat)
    requires p < |chain|
  {
    var change := chain[p].change;
    var below := VersionOf(head) + Unheld(db, chain[..p]);
    && MayWrite(db.vaults, user, change.vaultId)
    && var stored := StoredChange(db.records, change.recordId, change.clientChangeId);
       if stored.Some? then stored.value.v.vaultId == change.vaultId
       else
         && (change.Put? ==> change.keyVersion == db.vaults[change.vaultId].keyVersion)
         && change.vaultId == Home(chain, head)
         && change.baseVersion == below
         && (below == 0 ==> change.Put?)
  }

  /** Why a change that does not pass, after others that do, is refused. */
  function WhyNot(db: Db, user: UserId, chain: seq<Indexed>, head: Option<Row>, p: nat): Failure
    requires p < |chain|
  {
    var change := chain[p].change;
    if !IsIn(db.vaults, user, change.vaultId) then Rejected(Rejection.NotFound)
    else if !MayWrite(db.vaults, user, change.vaultId) then Rejected(Rejection.Forbidden)
    else if Held(db, change) then Rejected(Rejection.NotFound)
    else if change.Put? && change.keyVersion != db.vaults[change.vaultId].keyVersion then Rejected(OldKeyVersion)
    else if VersionOf(head) + Unheld(db, chain[..p]) == 0 || change.vaultId != Home(chain, head) then Rejected(Rejection.NotFound)
    else Stale(VersionOf(head))
  }

  /** The first change that does not pass. */
  ghost predicate FailsFirst(db: Db, user: UserId, chain: seq<Indexed>, head: Option<Row>, p: nat) {
    p < |chain| && !Passes(db, user, chain, head, p) && forall q :: 0 <= q < p ==> Passes(db, user, chain, head, q)
  }

  predicate AllPass(db: Db, user: UserId, chain: seq<Indexed>, head: Option<Row>) {
    forall p :: 0 <= p < |chain| ==> Passes(db, user, chain, head, p)
  }

  /** A chain of one record, whose newest stored version is `head`. */
  ghost predicate ChainOn(db: Db, r: RecordId, chain: seq<Indexed>, head: Option<Row>) {
    && head == Head(db.records, r)
    && (forall row :: row in db.records ==> row.v.version >= 1)
    && (forall p :: 0 <= p < |chain| ==> chain[p].change.recordId == r)
  }

  lemma {:induction false} PassesPrefix(db: Db, user: UserId, chain: seq<Indexed>, head: Option<Row>, p: nat)
    requires p < |chain| - 1
    ensures Passes(db, user, chain[..|chain| - 1], head, p) == Passes(db, user, chain, head, p)
  {
    assert chain[..|chain| - 1][..p] == chain[..p];
  }

  /** Without a version of the record nothing of it is held. */
  lemma {:induction false} NoneHeld(db: Db, r: RecordId, chain: seq<Indexed>)
    requires ChainOn(db, r, chain, None)
    ensures Unheld(db, chain) == |chain|
  {
    if chain != [] {
      NoneHeld(db, r, chain[..|chain| - 1]);
    }
  }

  /** Deciding a chain finds no failure exactly when every change passes, and then leaves this head. */
  ghost predicate DecidedRight(db: Db, user: UserId, chain: seq<Indexed>, head: Option<Row>) {
    var sim := Simulate(db, user, chain, head);
    && (sim.failure.None? <==> AllPass(db, user, chain, head))
    && (sim.failure.Some? ==> exists p :: FailsFirst(db, user, chain, head, p) && sim.failure.value == WhyNot(db, user, chain, head, p))
    && (sim.failure.None? ==> sim.head == HeadAfter(chain, head, VersionOf(head) + Unheld(db, chain)))
  }

  /** A record's head once it has this many versions. */
  function HeadAfter(chain: seq<Indexed>, head: Option<Row>, version: nat): Option<SimulatedHead> {
    if version == 0 || (chain == [] && head.None?) then None
    else Some(SimulatedHead(version, if chain == [] then head.value.v.vaultId else Home(chain, head)))
  }

  /** Deciding a chain change by change, against a moving head, comes to the closed conditions. */
  lemma {:induction false} DecidedWhenPassing(db: Db, user: UserId, r: RecordId, chain: seq<Indexed>, head: Option<Row>)
    requires ChainOn(db, r, chain, head)
    ensures DecidedRight(db, user, chain, head)
  {
    if chain == [] {
      NothingDecided(db, user, r, head);
    } else {
      hide *;
      ChainOnPrefix(db, r, chain, head);
      DecidedWhenPassing(db, user, r, chain[..|chain| - 1], head);
      DecidedStep(db, user, r, chain, head);
    }
  }

  lemma {:induction false} NothingDecided(db: Db, user: UserId, r: RecordId, head: Option<Row>)
    requires ChainOn(db, r, [], head)
    ensures DecidedRight(db, user, [], head)
  {
  }

  lemma {:induction false} DecidedStep(db: Db, user: UserId, r: RecordId, chain: seq<Indexed>, head: Option<Row>)
    requires chain != [] && ChainOn(db, r, chain, head) && DecidedRight(db, user, chain[..|chain| - 1], head)
    ensures DecidedRight(db, user, chain, head)
  {
    hide AllPass, DecideChange, Held, StoredChange, Head, Simulate, Unheld, Denied, Passes, Home, ChainOn, FailsFirst, WhyNot;
    var n := |chain| - 1;
    var prefix := chain[..n];
    ChainOnPrefix(db, r, chain, head);
    HomeStays(chain, head);
    AllButLast(db, user, chain, head);
    if head.None? {
      NoneHeld(db, r, chain);
      NoneHeld(db, r, prefix);
    }
    LastPasses(db, user, r, chain, head);
    HeadAfterLast(db, user, chain, head);
    if Passes(db, user, chain, head, n) && !Held(db, chain[n].change) {
      HomeOfPasses(db, user, chain, head);
    }
    FirstFailure(db, user, chain, head);
  }

  /** The first failure of a chain is that of the changes before its last, or else the last one's. */
  lemma {:induction false} FirstFailure(db: Db, user: UserId, chain: seq<Indexed>, head: Option<Row>)
    requires chain != []
    ensures var prefix := chain[..|chain| - 1];
            forall p :: FailsFirst(db, user, prefix, head, p) ==> FailsFirst(db, user, chain, head, p) && WhyNot(db, user, prefix, head, p) == WhyNot(db, user, chain, head, p)
    ensures AllPass(db, user, chain[..|chain| - 1], head) && !Passes(db, user, chain, head, |chain| - 1) ==> FailsFirst(db, user, chain, head, |chain| - 1)
  {
    hide Passes, WhyNot;
    var n := |chain| - 1;
    var prefix := chain[..n];
    forall p | 0 <= p < n
      ensures Passes(db, user, prefix, head, p) == Passes(db, user, chain, head, p) && WhyNot(db, user, prefix, head, p) == WhyNot(db, user, chain, head, p)
    {
      PassesPrefix(db, user, chain, head, p);
      WhyNotPrefix(db, user, chain, head, p);
    }
  }

  lemma {:induction false} WhyNotPrefix(db: Db, user: UserId, chain: seq<Indexed>, head: Option<Row>, p: nat)
    requires p < |chain| - 1
    ensures WhyNot(db, user, chain[..|chain| - 1], head, p) == WhyNot(db, user, chain, head, p)
  {
    assert chain[..|chain| - 1][..p] == chain[..p];
  }

  lemma {:induction false} HomeStays(chain: seq<Indexed>, head: Option<Row>)
    requires chain != []
    ensures |chain| > 1 ==> Home(chain[..|chain| - 1], head) == Home(chain, head)
    ensures |chain| == 1 && head.Some? ==> Home(chain, head) == head.value.v.vaultId
  {
  }

  lemma {:induction false} HomeOfPasses(db: Db, user: UserId, chain: seq<Indexed>, head: Option<Row>)
    requires chain != [] && Passes(db, user, chain, head, |chain| - 1) && !Held(db, chain[|chain| - 1].change)
    ensures chain[|chain| - 1].change.vaultId == Home(chain, head)
  {
  }

  lemma {:induction false} HeadAfterLast(db: Db, user: UserId, chain: seq<Indexed>, head: Option<Row>)
    requires chain != []
    ensures var n := |chain| - 1;
            var before := Simulate(db, user, chain[..n], head);
            var outcome := DecideChange(db, user, chain[n].change, before.head, VersionOf(head));
            var sim := Simulate(db, user, chain, head);
            && sim.failure == (if before.failure.None? && outcome.Failed? then Some(outcome.failure) else before.failure)
            && sim.head == (if outcome.Append? then Some(SimulatedHead((if before.head.None? then 0 else before.head.value.version) + 1, chain[n].change.vaultId))
                            else before.head)
            && Unheld(db, chain) == Unheld(db, chain[..n]) + (if Held(db, chain[n].change) then 0 else 1)
  {
    hide DecideChange, Held;
  }

  lemma {:induction false} ChainOnPrefix(db: Db, r: RecordId, chain: seq<Indexed>, head: Option<Row>)
    requires chain != [] && ChainOn(db, r, chain, head)
    ensures ChainOn(db, r, chain[..|chain| - 1], head)
    ensures head.Some? ==> VersionOf(head) >= 1
  {
  }

  lemma {:induction false} AllButLast(db: Db, user: UserId, chain: seq<Indexed>, head: Option<Row>)
    requires chain != []
    ensures AllPass(db, user, chain, head) <==> AllPass(db, user, chain[..|chain| - 1], head) && Passes(db, user, chain, head, |chain| - 1)
  {
    hide Passes;
    var prefix := chain[..|chain| - 1];
    forall p | 0 <= p < |prefix|
      ensures Passes(db, user, prefix, head, p) == Passes(db, user, chain, head, p)
    {
      PassesPrefix(db, user, chain, head, p);
    }
  }

  /** The last change of a chain whose earlier changes pass. */
  lemma {:induction false} LastPasses(db: Db, user: UserId, r: RecordId, chain: seq<Indexed>, head: Option<Row>)
    requires chain != [] && ChainOn(db, r, chain, head)
    requires var before := Simulate(db, user, chain[..|chain| - 1], head);
             var below := VersionOf(head) + Unheld(db, chain[..|chain| - 1]);
             before.failure.None? ==> before.head == if below == 0 then None else Some(SimulatedHead(below, Home(chain, head)))
    ensures var n := |chain| - 1;
            var before := Simulate(db, user, chain[..n], head);
            var outcome := DecideChange(db, user, chain[n].change, before.head, VersionOf(head));
            before.failure.None? ==>
              && (!outcome.Failed? <==> Passes(db, user, chain, head, n))
              && (outcome.Append? ==> !Held(db, chain[n].change))
              && (outcome.Stored? ==> Held(db, chain[n].change))
              && (outcome.Failed? ==> outcome.failure == WhyNot(db, user, chain, head, n))
  {
    DeniedExactly(db.vaults, user, chain[|chain| - 1].change.vaultId);
    hide Denied;
  }

  // ---- When a change is written ----

  ghost predicate WrittenFor(versions: seq<Version>, change: Change) {
    exists x :: x in versions && x.recordId == change.recordId && x.clientChangeId == change.clientChangeId
  }

  /** The chain of a change passes, as a whole, and within the quota. */
  ghost predicate ChainGoesThrough(db: Db, user: UserId, quota: int, changes: seq<Change>, k: nat)
    requires k < |ChainsOf(changes)|
  {
    var chain := ChainsOf(changes)[k];
    var judged := JudgeBatch(db, user, quota, changes);
    && AllPass(db, user, chain.items, Head(db.records, chain.recordId))
    && k < |judged| && judged[k].accepted
    && ((forall m :: 0 <= m < |judged| ==> judged[m].accepted) || !MovesAway(judged[k].chain))
  }

  /** The chain has a deletion that marks the record as moved. */
  predicate MovesAway(chain: seq<Indexed>) {
    exists p :: 0 <= p < |chain| && chain[p].change.Delete? && chain[p].change.tombstoneKind == Some(Moved)
  }

  lemma {:induction false} KeptExactly(judged: seq<Judged>, k: nat)
    requires k < |judged|
    ensures Kept(judged[k], OverQuotaIn(judged)) <==>
            judged[k].accepted && ((forall m :: 0 <= m < |judged| ==> judged[m].accepted) || !MovesAway(judged[k].chain))
  {
    assert HasMoveSource(judged[k].chain) <==> MovesAway(judged[k].chain) by {
      if p :| 0 <= p < |judged[k].chain| && IsMoveSource(judged[k].chain[p].change) {
        assert MovesAway(judged[k].chain);
      }
      if p :| 0 <= p < |judged[k].chain| && judged[k].chain[p].change.Delete? && judged[k].chain[p].change.tombstoneKind == Some(Moved) {
        assert IsMoveSource(judged[k].chain[p].change);
      }
    }
  }

  /**
   * A change is written exactly when the server does not hold a version under its id, and
   * every change of the batch on its record passes, and the quota lets the chain through.
   */
  lemma {:induction false} WrittenExactly(db: Db, user: UserId, quota: int, changes: seq<Change>, n: nat, k: nat)
    requires Sound(db) && ValidBatch(changes) && n < |changes|
    requires k < |ChainsOf(changes)| && ChainsOf(changes)[k].recordId == changes[n].recordId
    ensures WrittenFor(PlanBatch(db, user, quota, changes), changes[n]) <==>
            !Held(db, changes[n]) && ChainGoesThrough(db, user, quota, changes, k)
  {
    hide Sound, PlanBatch, ChainsOf, JudgeBatch, OverQuotaIn, Kept, AllPass, Simulate, WriteChain, MovesAway;
    var chain := ChainsOf(changes)[k];
    var judged := JudgeBatch(db, user, quota, changes);
    var head := Head(db.records, chain.recordId);
    var m, p := PlaceOf(changes, n);
    ChainsOfBatch(changes);
    assert m == k && Lists(changes, chain);
    BatchJudged(db, user, quota, changes);
    BatchPart(db, user, quota, changes, k);
    KeptExactly(judged, k);
    VersionsFromOne(db);
    DecidedWhenPassing(db, user, chain.recordId, chain.items, head);
    if ChainGoesThrough(db, user, quota, changes, k) && !Held(db, changes[n]) {
      PassingIsPlanned(db, user, chain, judged[k], p);
      var x := judged[k].appended[Appends(judged[k].outcomes[..p])].version;
      RecordPartMember(PlanBatch(db, user, quota, changes), chain.recordId, x);
    }
    if x :| x in PlanBatch(db, user, quota, changes) && x.recordId == changes[n].recordId && x.clientChangeId == changes[n].clientChangeId {
      RecordPartMember(PlanBatch(db, user, quota, changes), chain.recordId, x);
      PlannedIsPassing(db, user, chain, judged[k], x);
      var c := PlanCarries(db, user, quota, changes, x);
    }
  }

  lemma {:induction false} VersionsFromOne(db: Db)
    requires Sound(db)
    ensures forall row :: row in db.records ==> row.v.version >= 1
  {
    forall row | row in db.records
      ensures row.v.version >= 1
    {
      assert Placed(db.vaults, row);
    }
  }

  lemma {:induction false} PassingIsPlanned(db: Db, user: UserId, chain: Chain<Indexed>, j: Judged, p: nat)
    requires JudgedFor(db, user, chain, j) && p < |j.chain|
    requires Simulate(db, user, j.chain, j.dbHead).failure.None? && !Held(db, j.chain[p].change)
    ensures var i := Appends(j.outcomes[..p]);
            && i < |j.appended| && j.appended[i].version in Versions(j.appended)
            && j.appended[i].version.recordId == j.chain[p].change.recordId
            && j.appended[i].version.clientChangeId == j.chain[p].change.clientChangeId
  {
    JudgedCarries(db, user, chain, j);
    PassingIsAppended(db, user, chain, j, p);
    hide Simulate, WriteChain, Writable, Denied, Head, JudgedFor, StoredChange, Held;
    assert PlannedFor(j.chain, j.outcomes, j.appended, VersionOf(j.dbHead), p);
    assert Versions(j.appended)[Appends(j.outcomes[..p])] == j.appended[Appends(j.outcomes[..p])].version;
  }

  lemma {:induction false} PassingIsAppended(db: Db, user: UserId, chain: Chain<Indexed>, j: Judged, p: nat)
    requires JudgedFor(db, user, chain, j) && p < |j.chain|
    requires Simulate(db, user, j.chain, j.dbHead).failure.None? && !Held(db, j.chain[p].change)
    ensures |j.outcomes| == |j.chain| && j.outcomes[p].Append?
  {
    NoFailureNoRefusal(db, user, j.chain, j.dbHead, p);
    DecidedAt(db, user, j.chain, j.dbHead, p);
    hide Simulate, WriteChain, Writable, Denied, Head, Decide;
  }

  lemma {:induction false} PlannedIsPassing(db: Db, user: UserId, chain: Chain<Indexed>, j: Judged, x: Version)
    requires JudgedFor(db, user, chain, j) && x in Versions(j.appended)
    ensures Simulate(db, user, j.chain, j.dbHead).failure.None?
  {
    var p := JudgedChange(db, user, chain, j, x);
    hide Simulate, WriteChain, Writable;
  }

  /**
   * What a record's changes are refused with. When one of them does not pass, every change
   * not held is refused for the reason of the first that does not; when they all pass but
   * the quota keeps the chain back, with that.
   */
  lemma {:induction false} RefusedExactly(db: Db, user: UserId, quota: int, changes: seq<Change>, results: seq<PushResult>, n: nat, k: nat)
    requires Sound(db) && ValidBatch(changes) && AllAnswered(db, user, quota, changes, results) && n < |changes|
    requires k < |ChainsOf(changes)| && ChainsOf(changes)[k].recordId == changes[n].recordId
    requires !ChainGoesThrough(db, user, quota, changes, k)
    ensures n < |results|
    ensures var chain := ChainsOf(changes)[k].items;
            var head := Head(db.records, changes[n].recordId);
            || AnsweredStored(db, changes[n], results[n])
            || (AllPass(db, user, chain, head) && results[n] == Refused(changes[n].clientChangeId, Rejected(OverQuota)))
            || (exists p :: FailsFirst(db, user, chain, head, p) && results[n] == Refused(changes[n].clientChangeId, WhyNot(db, user, chain, head, p)))
  {
    hide Sound, PlanBatch, ChainsOf, JudgeBatch, OverQuotaIn, Kept, AllPass, Simulate, WriteChain, MovesAway, FailsFirst, WhyNot, PushWritten, AnswerTo,
         AllAnswered, AnsweredStored, Head;
    var judged := JudgeBatch(db, user, quota, changes);
    var p := PlaceIn(changes, n, k);
    ChainsOfBatch(changes);
    assert Lists(changes, ChainsOf(changes)[k]);
    BatchJudged(db, user, quota, changes);
    VersionsFromOne(db);
    KeptExactly(judged, k);
    DecidedWhenPassing(db, user, changes[n].recordId, ChainsOf(changes)[k].items, Head(db.records, changes[n].recordId));
    AnswerAt(db, user, quota, changes, results, k, p);
    RefusedAnswer(db, user, ChainsOf(changes)[k], judged[k], p, OverQuotaIn(judged), PushWritten(db, user, quota, changes));
  }

  lemma {:induction false} RefusedAnswer(db: Db, user: UserId, chain: Chain<Indexed>, j: Judged, p: nat, overQuota: bool, written: seq<Row>)
    requires JudgedFor(db, user, chain, j) && p < |j.chain|
    requires Simulate(db, user, j.chain, j.dbHead).failure.None? ==> !Kept(j, overQuota)
    ensures |j.outcomes| == |j.chain|
    ensures var failure := Simulate(db, user, j.chain, j.dbHead).failure;
            var answer := AnswerTo(j, p, overQuota, written);
            AnsweredStored(db, j.chain[p].change, answer) || answer == Refused(j.chain[p].change.clientChangeId, if failure.Some? then failure.value else Rejected(OverQuota))
  {
    hide Kept, Simulate, WriteChain, Writable, StoredChange, Head, AnsweredStored, SerializeRecord;
    assert |j.outcomes| == |j.chain|;
    var failure := Simulate(db, user, j.chain, j.dbHead).failure;
    if j.outcomes[p].Stored? {
      StoredAt(db, user, chain, j, p, overQuota, written);
    } else if failure.None? {
      NoFailureNoRefusal(db, user, j.chain, j.dbHead, p);
      assert j.outcomes[p].Append?;
    } else {
      assert j.outcomes[p] == Failed(failure.value);
    }
  }

  // ---- An id written twice ----

  /**
   * A change id that was written before is written again exactly when the record no longer
   * holds it and its chain goes through: which takes a purge above the first version, and
   * the second one comes above that purge.
   */
  lemma {:induction false} WrittenAgainExactly(dbs: seq<Db>, i: nat, user: UserId, quota: int, changes: seq<Change>, x: Version,
                                               j: nat, user2: UserId, quota2: int, again: seq<Change>, n: nat, k: nat)
    requires Ran(dbs) && i < j < |dbs|
    requires Pushed(dbs[i], dbs[i + 1], user, quota, changes) && x in PlanBatch(dbs[i], user, quota, changes)
    requires ValidBatch(again) && n < |again| && again[n].recordId == x.recordId && again[n].clientChangeId == x.clientChangeId
    requires k < |ChainsOf(again)| && ChainsOf(again)[k].recordId == x.recordId
    ensures WrittenFor(PlanBatch(dbs[j], user2, quota2, again), again[n]) <==>
            !Held(dbs[j], again[n]) && ChainGoesThrough(dbs[j], user2, quota2, again, k)
    ensures !Held(dbs[j], again[n]) ==>
              exists t :: t in dbs[j].records && IsPurged(t.v) && t.v.recordId == x.recordId && x.version < t.v.version
    ensures forall y :: y in PlanBatch(dbs[j], user2, quota2, again) && y.recordId == x.recordId && y.clientChangeId == x.clientChangeId ==>
              exists t :: t in dbs[j].records && IsPurged(t.v) && t.v.recordId == x.recordId && x.version < t.v.version < y.version
  {
    hide LogInv, PlanBatch, PushDb, Extends, Ran, ChainGoesThrough, ChainsOf;
    RunExtends(dbs, i + 1, j);
    LogSound(dbs[j]);
    WrittenExactly(dbs[j], user2, quota2, again, n, k);
    if !Held(dbs[j], again[n]) {
      var t := PurgeOver(dbs[i], user, quota, changes, x, dbs[j]);
    }
    forall y | y in PlanBatch(dbs[j], user2, quota2, again) && y.recordId == x.recordId && y.clientChangeId == x.clientChangeId
      ensures exists t :: t in dbs[j].records && IsPurged(t.v) && t.v.recordId == x.recordId && x.version < t.v.version < y.version
    {
      AgainOnlyAbovePurge(dbs, i, user, quota, changes, x, j, user2, quota2, again, y);
    }
  }

  // ---- A moved record ----

  predicate IsMoved(head: Option<Row>) {
    head.Some? && head.value.v.tombstoneKind == Some(Moved)
  }

  /** A deletion that does not purge leaves the mark. */
  predicate LeavesMark(change: Change) {
    change.Delete? && change.tombstoneKind != Some(Purged)
  }

  ghost predicate AllMoved(versions: seq<Version>, r: RecordId) {
    forall x :: x in versions && x.recordId == r ==> x.tombstoneKind == Some(Moved)
  }

  /** Every change of the record that is written leaves the mark. */
  ghost predicate AllLeaveMark(versions: seq<Version>, changes: seq<Change>, r: RecordId) {
    forall n :: 0 <= n < |changes| && changes[n].recordId == r && WrittenFor(versions, changes[n]) ==> LeavesMark(changes[n])
  }

  /** A chain of such changes on a moved head drafts moved versions only. */
  lemma {:induction false} ChainStaysMoved(chain: seq<Indexed>, outcomes: seq<Outcome>, dbHead: Option<Row>, user: UserId)
    requires |outcomes| == |chain| && Writable(chain, outcomes, dbHead, user) && IsMoved(dbHead)
    requires forall p :: 0 <= p < |chain| && outcomes[p].Append? ==> LeavesMark(chain[p].change)
    ensures var draft := WriteChain(chain, outcomes, dbHead, user);
            && draft.head.Some? && draft.head.value.tombstoneKind == Some(Moved)
            && forall i :: 0 <= i < |draft.appended| ==> draft.appended[i].version.tombstoneKind == Some(Moved)
  {
    if chain != [] {
      var n := |chain| - 1;
      ChainStaysMoved(chain[..n], outcomes[..n], dbHead, user);
      assert LeavesMark(chain[n].change) && chain[n].change.tombstoneKind.Some? ==> chain[n].change.tombstoneKind.value.Moved?;
    }
  }

  /** A moved record stays moved, in every version a push writes on it, exactly when no written change puts or purges it. */
  lemma {:induction false} MovedStaysExactly(db: Db, user: UserId, quota: int, changes: seq<Change>, r: RecordId)
    requires LogInv(db) && ValidBatch(changes) && IsMoved(Head(db.records, r))
    ensures var versions := PlanBatch(db, user, quota, changes);
            && (AllMoved(versions, r) <==> AllLeaveMark(versions, changes, r))
            && (AllMoved(versions, r) ==> IsMoved(Head(PushDb(db, user, quota, changes).records, r)))
  {
    hide LogInv, Sound, PlanBatch, PushDb, ChainsOf;
    LogSound(db);
    var versions := PlanBatch(db, user, quota, changes);
    if AllMoved(versions, r) {
      forall n | 0 <= n < |changes| && changes[n].recordId == r && WrittenFor(versions, changes[n])
        ensures LeavesMark(changes[n])
      {
        var x :| x in versions && x.recordId == r && x.clientChangeId == changes[n].clientChangeId;
        var c := PlanCarries(db, user, quota, changes, x);
        assert c == n;
      }
      HeadStaysMoved(db, user, quota, changes, r);
    }
    if AllLeaveMark(versions, changes, r) {
      forall x | x in versions && x.recordId == r
        ensures x.tombstoneKind == Some(Moved)
      {
        VersionStaysMoved(db, user, quota, changes, x);
      }
    }
  }

  lemma {:induction false} VersionStaysMoved(db: Db, user: UserId, quota: int, changes: seq<Change>, x: Version)
    requires Sound(db) && ValidBatch(changes) && IsMoved(Head(db.records, x.recordId))
    requires AllLeaveMark(PlanBatch(db, user, quota, changes), changes, x.recordId)
    requires x in PlanBatch(db, user, quota, changes)
    ensures x.tombstoneKind == Some(Moved)
  {
    hide Sound, PlanBatch, ChainsOf, JudgeBatch, OverQuotaIn, Kept, LeavesMark, ValidBatch;
    var versions := PlanBatch(db, user, quota, changes);
    var c := PlanCarries(db, user, quota, changes, x);
    var k, m := PlaceOf(changes, c);
    var chain := ChainsOf(changes)[k];
    ChainsOfBatch(changes);
    BatchJudged(db, user, quota, changes);
    var j := JudgeBatch(db, user, quota, changes)[k];
    BatchPart(db, user, quota, changes, k);
    RecordPartMember(versions, chain.recordId, x);
    assert Lists(changes, chain) && JudgedFor(db, user, chain, j);
    forall y | y in Versions(j.appended)
      ensures y in versions
    {
      RecordPartMember(versions, chain.recordId, y);
    }
    JudgedStaysMoved(db, user, changes, chain, j, versions);
  }

  lemma {:induction false} JudgedStaysMoved(db: Db, user: UserId, changes: seq<Change>, chain: Chain<Indexed>, j: Judged, versions: seq<Version>)
    requires JudgedFor(db, user, chain, j) && Lists(changes, chain) && IsMoved(j.dbHead)
    requires AllLeaveMark(versions, changes, chain.recordId)
    requires forall y :: y in Versions(j.appended) ==> y in versions
    ensures forall y :: y in Versions(j.appended) ==> y.tombstoneKind == Some(Moved)
  {
    JudgedCarries(db, user, chain, j);
    var outcomes := j.outcomes;
    assert j.chain == chain.items;
    assert |outcomes| == |j.chain| && Writable(j.chain, outcomes, j.dbHead, user) && j.appended == WriteChain(j.chain, outcomes, j.dbHead, user).appended;
    hide JudgedFor, Writable, WriteChain, LeavesMark, IsMoved;
    forall p | 0 <= p < |j.chain| && outcomes[p].Append?
      ensures LeavesMark(j.chain[p].change)
    {
      assert PlannedFor(j.chain, outcomes, j.appended, VersionOf(j.dbHead), p);
      var x := j.appended[Appends(outcomes[..p])].version;
      assert Versions(j.appended)[Appends(outcomes[..p])] == x;
      assert WrittenFor(versions, j.chain[p].change);
      assert j.chain[p].change == changes[j.chain[p].index];
    }
    ChainStaysMoved(j.chain, outcomes, j.dbHead, user);
  }

  lemma {:induction false} HeadStaysMoved(db: Db, user: UserId, quota: int, changes: seq<Change>, r: RecordId)
    requires LogInv(db) && ValidBatch(changes) && IsMoved(Head(db.records, r))
    requires AllMoved(PlanBatch(db, user, quota, changes), r)
    ensures IsMoved(Head(PushDb(db, user, quota, changes).records, r))
  {
    hide LogInv, Sound, PlanBatch, PushDb, PushWritten, PushInserted, ValidBatch, BytesExact, OnlyCounters;
    LogSound(db);
    PushRows(db, user, quota, changes);
    WrittenRows(db, user, quota, changes);
    var versions := PlanBatch(db, user, quota, changes);
    var written := PushWritten(db, user, quota, changes);
    var after := PushDb(db, user, quota, changes);
    var top := Head(db.records, r).value;
    forall w | w in written && w.v.recordId == r
      ensures w.v.tombstoneKind == Some(Moved)
    {
      var i :| 0 <= i < |written| && written[i] == w;
      assert versions[i] == w.v;
    }
    assert !DroppedBy(written, top);
    assert top in after.records;
    var head := Head(after.records, r).value;
    if head in db.records {
      SoundOrdered(db);
      OneVaultPerRecord(db.records, head, top);
    }
  }

  // ---- Pushing one change ----

  lemma {:induction false} OneChain(c: Change)
    ensures ChainsOf([c]) == [Chain(c.recordId, [Indexed(0, c)])]
  {
    var xs, ids := Enumerate([c]), RecordIds([c]);
    assert xs == [Indexed(0, c)] && ids == [c.recordId];
    assert xs[..0] == [] && ids[..0] == [];
    assert Group(xs, ids) == AddTo(Group(xs[..0], ids[..0]), c.recordId, Indexed(0, c));
  }

  /** What a single change needs to be written: access, a fresh id, the key, the head it builds on, and room in the quota. */
  predicate GoesThrough(db: Db, user: UserId, quota: int, c: Change) {
    var head := Head(db.records, c.recordId);
    && Denied(db.vaults, user, c.vaultId).None? && !Held(db, c)
    && (c.Put? ==> c.keyVersion == db.vaults[c.vaultId].keyVersion
                   && PushChangeBytes(c.encryptedData) <= Remaining(db.vaults, quota, db.vaults[c.vaultId].ownerId))
    && c.baseVersion == VersionOf(head)
    && (if head.None? then c.Put? else head.value.v.vaultId == c.vaultId)
  }

  lemma {:induction false} OneDecided(db: Db, user: UserId, quota: int, c: Change)
    requires GoesThrough(db, user, quota, c)
    ensures var head := Head(db.records, c.recordId);
            && DecideChain(db, user, [Indexed(0, c)], head) == [Append]
            && Writable([Indexed(0, c)], [Append], head, user)
            && WriteChain([Indexed(0, c)], [Append], head, user).appended == [Planned(0, NextVersion(c, VersionIn(head), user))]
  {
    hide Remaining, Head, StoredChange;
    var chain := [Indexed(0, c)];
    var head := Head(db.records, c.recordId);
    assert chain[..0] == [] && [Append][..0] == [];
    assert Simulate(db, user, chain[..0], head) == Simulation(SimulatedFrom(VersionIn(head)), None, []);
    assert DecideChange(db, user, c, SimulatedFrom(VersionIn(head)), VersionOf(head)) == Append;
    assert Simulate(db, user, chain, head).outcomes == [] + [Append];
    DecidedIsWritable(db, user, chain, head);
    assert WriteChain(chain[..0], [Append][..0], head, user) == Draft(VersionIn(head), []);
  }

  lemma {:induction false} OneAccepted(db: Db, user: UserId, quota: int, c: Change)
    requires GoesThrough(db, user, quota, c)
    ensures var head := Head(db.records, c.recordId);
            && (c.Put? || head.Some?)
            && var j := Judge(db, user, Budgets(db.vaults, quota), Chain(c.recordId, [Indexed(0, c)])).0;
               j.accepted && j.appended == [Planned(0, NextVersion(c, VersionIn(head), user))]
  {
    hide Remaining, Head, StoredChange, DecideChain, WriteChain, Writable, Denied, WithinQuota, NextVersion;
    OneDecided(db, user, quota, c);
    var head := Head(db.records, c.recordId);
    var y := NextVersion(c, VersionIn(head), user);
    OneInQuota(db, user, quota, c, y);
    assert !c.Put? ==> head.Some?;
  }

  lemma {:induction false} OneInQuota(db: Db, user: UserId, quota: int, c: Change, y: Version)
    requires GoesThrough(db, user, quota, c)
    requires (c.Put? || Head(db.records, c.recordId).Some?) && y == NextVersion(c, VersionIn(Head(db.records, c.recordId)), user)
    ensures WithinQuota(db.vaults, [Indexed(0, c)], [Planned(0, y)], Budgets(db.vaults, quota)).0
  {
    hide Remaining, Head, StoredChange;
    assert [Planned(0, y)][..0] == [];
    assert PlannedBytes([Planned(0, y)]) == PushChangeBytes(y.encryptedData);
    assert y.vaultId == c.vaultId && (c.Put? ==> y.encryptedData == c.encryptedData);
  }

  lemma {:induction false} JudgeOne(db: Db, user: UserId, budgets: map<UserId, int>, chain: Chain<Indexed>)
    ensures JudgeAll(db, user, budgets, [chain]).judged == [Judge(db, user, budgets, chain).0]
  {
    hide Judge;
    assert [chain][..0] == [];
  }

  lemma {:induction false} PlanOne(j: Judged, planned: Planned)
    requires j.accepted && j.appended == [planned]
    ensures !OverQuotaIn([j]) && Versions(PlanOf([j], false)) == [planned.version]
  {
    assert [j][..0] == [];
    assert PlanOf([j], false) == [] + j.appended;
  }

  /** Such a change pushed on its own is written, as the record's next version. */
  lemma {:induction false} OnePlanned(db: Db, user: UserId, quota: int, c: Change)
    requires GoesThrough(db, user, quota, c)
    ensures var head := Head(db.records, c.recordId);
            && (c.Put? || head.Some?)
            && PlanBatch(db, user, quota, [c]) == [NextVersion(c, VersionIn(head), user)]
  {
    hide GoesThrough, Judge, JudgeAll, Budgets, ChainsOf, Head, PlanOf, Versions, OverQuotaIn, NextVersion;
    OneChain(c);
    OneAccepted(db, user, quota, c);
    var j := Judge(db, user, Budgets(db.vaults, quota), Chain(c.recordId, [Indexed(0, c)])).0;
    JudgeOne(db, user, Budgets(db.vaults, quota), Chain(c.recordId, [Indexed(0, c)]));
    PlanOne(j, j.appended[0]);
  }

  /** Once one version is written, it is its record's newest; a purge leaves none below it. */
  lemma {:induction false} OneWritten(db: Db, user: UserId, quota: int, changes: seq<Change>, y: Version) returns (w: Row)
    requires LogInv(db) && ValidBatch(changes) && Sound(db) && PlanBatch(db, user, quota, changes) == [y]
    ensures var after := PushDb(db, user, quota, changes);
            && w.v == y && Head(after.records, y.recordId) == Some(w)
            && (forall row :: row in after.records && row.v.recordId == y.recordId ==> row == w || (row in db.records && !IsPurged(y)))
            && (forall id :: id in db.vaults ==> id in after.vaults && OnlyCounters(db.vaults[id], after.vaults[id]))
  {
    hide LogInv, Sound, PlanBatch, PushDb, PushWritten, PushInserted, ValidBatch;
    PushRows(db, user, quota, changes);
    WrittenRows(db, user, quota, changes);
    var written := PushWritten(db, user, quota, changes);
    w := written[0];
    var after := PushDb(db, user, quota, changes);
    assert written == [w];
    assert !DroppedBy(written, w);
    assert w in after.records;
    SoundOrdered(PushInserted(db, user, quota, changes));
    forall row | row in db.records && row.v.recordId == y.recordId
      ensures row.v.version < w.v.version
    {
      OldBelowNew(db.records, written, row, w);
    }
    var head := Head(after.records, y.recordId).value;
    assert head in db.records || head == w;
  }

  /** A quota that leaves an owner room for one empty version. */
  function Allowing(db: Db, owner: UserId): (quota: int)
    ensures Remaining(db.vaults, quota, owner) == PushChangeBytes("")
  {
    UsedBy(db.vaults, Sorted(db.vaults.Keys), owner) + PushChangeBytes("")
  }

  // ---- Runs in which it happens ----

  /** Pushes of one change each, by one user, one after the other. */
  datatype Shot = Shot(quota: int, change: Change)

  ghost predicate Shots(dbs: seq<Db>, user: UserId, shots: seq<Shot>) {
    && |dbs| == |shots| + 1 && Ran(dbs)
    && forall i, j :: 0 <= i < |shots| && j == i + 1 ==> Pushed(dbs[i], dbs[j], user, shots[i].quota, [shots[i].change])
  }

  /** Where a run of shots at one record stands: its newest version, and the change ids it holds. */
  ghost predicate Stands(db: Db, user: UserId, vaultId: VaultId, r: RecordId, top: Option<Version>, ids: set<ChangeId>) {
    && LogInv(db) && Denied(db.vaults, user, vaultId).None?
    && VersionIn(Head(db.records, r)) == top && (top.Some? ==> top.value.vaultId == vaultId)
    && forall row :: row in db.records && row.v.recordId == r ==> row.v.clientChangeId in ids
  }

  lemma {:induction false} ShotGoesThrough(db: Db, user: UserId, vaultId: VaultId, r: RecordId, top: Option<Version>, ids: set<ChangeId>, shot: Shot)
    requires Stands(db, user, vaultId, r, top, ids)
    requires var c := shot.change;
             && c.recordId == r && c.vaultId == vaultId && c.baseVersion == NumberOf(top) && c.clientChangeId !in ids
             && (c.Put? ==> c.encryptedData == "" && c.keyVersion == db.vaults[vaultId].keyVersion && shot.quota == Allowing(db, db.vaults[vaultId].ownerId))
             && (top.None? ==> c.Put?)
    ensures GoesThrough(db, user, shot.quota, shot.change) && VersionIn(Head(db.records, r)) == top
  {
    hide LogInv, UsedBy, Remaining;
  }

  /** A shot that goes through: the run goes on from the version it wrote. */
  lemma {:induction false} Shoot(dbs: seq<Db>, user: UserId, shots: seq<Shot>, vaultId: VaultId, r: RecordId, top: Option<Version>, ids: set<ChangeId>, shot: Shot)
      returns (x: Version, next: Db)
    requires Shots(dbs, user, shots) && Stands(dbs[|shots|], user, vaultId, r, top, ids)
    requires var c := shot.change;
             && c.recordId == r && c.vaultId == vaultId && c.baseVersion == NumberOf(top) && c.clientChangeId !in ids
             && (c.Put? ==> c.encryptedData == "" && c.keyVersion == dbs[|shots|].vaults[vaultId].keyVersion
                            && shot.quota == Allowing(dbs[|shots|], dbs[|shots|].vaults[vaultId].ownerId))
             && (top.None? ==> c.Put?)
    ensures Shots(dbs + [next], user, shots + [shot])
    ensures x == NextVersion(shot.change, top, user) && PlanBatch(dbs[|shots|], user, shot.quota, [shot.change]) == [x]
    ensures Stands(next, user, vaultId, r, Some(x), (if IsPurged(x) then {} else ids) + {shot.change.clientChangeId})
    ensures vaultId in dbs[|shots|].vaults && vaultId in next.vaults && next.vaults[vaultId].keyVersion == dbs[|shots|].vaults[vaultId].keyVersion
  {
    assert |dbs| == |shots| + 1;
    hide LogInv, Sound, GoesThrough, PlanBatch, PushDb, Head, StoredChange, Allowing, Ran, Stands, Shots, Denied;
    var db := dbs[|shots|];
    LogOf(db, user, vaultId, r, top, ids);
    ShotGoesThrough(db, user, vaultId, r, top, ids, shot);
    OnePlanned(db, user, shot.quota, shot.change);
    x := NextVersion(shot.change, top, user);
    next := PushDb(db, user, shot.quota, [shot.change]);
    StandsNext(db, user, vaultId, r, top, ids, shot.quota, [shot.change], x);
    OneMore(dbs, user, shots, shot, next);
  }

  lemma {:induction false} LogOf(db: Db, user: UserId, vaultId: VaultId, r: RecordId, top: Option<Version>, ids: set<ChangeId>)
    requires Stands(db, user, vaultId, r, top, ids)
    ensures LogInv(db) && Sound(db) && vaultId in db.vaults
  {
  }

  lemma {:induction false} StandsNext(db: Db, user: UserId, vaultId: VaultId, r: RecordId, top: Option<Version>, ids: set<ChangeId>,
                                      quota: int, changes: seq<Change>, x: Version)
    requires Stands(db, user, vaultId, r, top, ids) && Sound(db) && ValidBatch(changes)
    requires PlanBatch(db, user, quota, changes) == [x] && x.recordId == r && x.vaultId == vaultId
    ensures var next := PushDb(db, user, quota, changes);
            && Stands(next, user, vaultId, r, Some(x), (if IsPurged(x) then {} else ids) + {x.clientChangeId})
            && vaultId in db.vaults && vaultId in next.vaults && next.vaults[vaultId].keyVersion == db.vaults[vaultId].keyVersion
  {
    hide LogInv, Sound, PlanBatch, PushDb, Head;
    var w := OneWritten(db, user, quota, changes, x);
    PushKeepsLog(db, user, quota, changes);
  }

  lemma {:induction false} OneMore(dbs: seq<Db>, user: UserId, shots: seq<Shot>, shot: Shot, next: Db)
    requires Shots(dbs, user, shots) && LogInv(dbs[|shots|]) && Sound(dbs[|shots|])
    requires next == PushDb(dbs[|shots|], user, shot.quota, [shot.change])
    ensures Shots(dbs + [next], user, shots + [shot])
  {
    hide LogInv, Sound, PushDb;
    RunGoesOn(dbs, user, shot.quota, [shot.change]);
    hide Ran, Pushed;
    var all, fired := dbs + [next], shots + [shot];
    forall i, j | 0 <= i < |fired| && j == i + 1
      ensures Pushed(all[i], all[j], user, fired[i].quota, [fired[i].change])
    {
      if i < |shots| {
        assert Pushed(dbs[i], dbs[j], user, shots[i].quota, [shots[i].change]);
      }
    }
  }

  ghost predicate FreshRecord(db: Db, user: UserId, vaultId: VaultId, r: RecordId) {
    LogInv(db) && Denied(db.vaults, user, vaultId).None? && forall row :: row in db.records ==> row.v.recordId != r
  }

  lemma {:induction false} FreshStands(db: Db, user: UserId, vaultId: VaultId, r: RecordId)
    requires FreshRecord(db, user, vaultId, r)
    ensures Stands(db, user, vaultId, r, None, {}) && Shots([db], user, []) && vaultId in db.vaults
  {
  }

  /** A put of nothing, and the quota it just fits in. */
  function PutShot(db: Db, vaultId: VaultId, r: RecordId, id: ChangeId, baseVersion: nat): Shot
    requires vaultId in db.vaults
  {
    Shot(Allowing(db, db.vaults[vaultId].ownerId), Put(id, r, vaultId, 0, baseVersion, "", "", 1, db.vaults[vaultId].keyVersion))
  }

  /** A record put and then deleted, with or without a purge. */
  lemma {:induction false} PutAndDelete(db: Db, user: UserId, vaultId: VaultId, r: RecordId, id: ChangeId, other: ChangeId, kind: TombstoneKind)
      returns (dbs: seq<Db>, shots: seq<Shot>, x: Version, y: Version)
    requires FreshRecord(db, user, vaultId, r) && id != other
    ensures Shots(dbs, user, shots) && |shots| == 2 && |dbs| == 3 && dbs[0] == db
    ensures PlanBatch(dbs[0], user, shots[0].quota, [shots[0].change]) == [x]
    ensures x.version == 1 && x.recordId == r && x.clientChangeId == id
    ensures y.version == 2 && y.tombstoneKind == Some(kind)
    ensures Stands(dbs[2], user, vaultId, r, Some(y), (if IsPurged(y) then {} else {} + {id}) + {other}) && vaultId in dbs[2].vaults
  {
    hide PlanBatch, Shots, Stands, Allowing, FreshRecord;
    FreshStands(db, user, vaultId, r);
    var first := PutShot(db, vaultId, r, id, 0);
    var db1, db2;
    x, db1 := Shoot([db], user, [], vaultId, r, None, {}, first);
    dbs, shots := [db] + [db1], [] + [first];
    var second := Shot(0, Delete(other, r, vaultId, 0, 1, Some(kind)));
    y, db2 := Shoot(dbs, user, shots, vaultId, r, Some(x), {} + {id}, second);
    dbs, shots := dbs + [db2], shots + [second];
    ShotsLength(dbs, user, shots);
  }

  lemma {:induction false} ShotsLength(dbs: seq<Db>, user: UserId, shots: seq<Shot>)
    requires Shots(dbs, user, shots)
    ensures |dbs| == |shots| + 1
  {
  }

  /**
   * It happens: from any tables, in any vault a user may write to, a record is put, purged,
   * and put again under its first change id on a newer base; both puts are written.
   */
  lemma {:induction false} WrittenTwice(db: Db, user: UserId, vaultId: VaultId, r: RecordId, id: ChangeId, other: ChangeId)
      returns (dbs: seq<Db>, shots: seq<Shot>, x: Version, y: Version)
    requires FreshRecord(db, user, vaultId, r) && id != other
    ensures Shots(dbs, user, shots) && |shots| == 3 && |dbs| == 4 && dbs[0] == db
    ensures PlanBatch(dbs[0], user, shots[0].quota, [shots[0].change]) == [x] && x.version == 1
    ensures PlanBatch(dbs[2], user, shots[2].quota, [shots[2].change]) == [y] && y.version == 3
    ensures x.recordId == y.recordId == r && x.clientChangeId == y.clientChangeId == id
  {
    hide PlanBatch, Shots, Stands, Allowing, FreshRecord;
    var purged, next;
    dbs, shots, x, purged := PutAndDelete(db, user, vaultId, r, id, other, Purged);
    var again := PutShot(dbs[2], vaultId, r, id, 2);
    y, next := Shoot(dbs, user, shots, vaultId, r, Some(purged), {} + {other}, again);
    dbs, shots := dbs + [next], shots + [again];
  }

  lemma {:induction false} StandsOn(db: Db, user: UserId, vaultId: VaultId, r: RecordId, top: Version, ids: set<ChangeId>)
    requires Stands(db, user, vaultId, r, Some(top), ids)
    ensures Head(db.records, r).Some? && Head(db.records, r).value.v == top
  {
  }

  /** And a purge does replace a moved record's mark: put, moved away, purged. */
  lemma {:induction false} PurgeReplacesMark(db: Db, user: UserId, vaultId: VaultId, r: RecordId, id: ChangeId, id2: ChangeId, id3: ChangeId)
      returns (dbs: seq<Db>, shots: seq<Shot>)
    requires FreshRecord(db, user, vaultId, r) && id != id2 && id2 != id3 && id != id3
    ensures Shots(dbs, user, shots) && |shots| == 3 && |dbs| == 4 && dbs[0] == db
    ensures IsMoved(Head(dbs[2].records, r)) && Head(dbs[3].records, r).Some? && IsPurged(Head(dbs[3].records, r).value.v)
  {
    hide PlanBatch, Shots, Stands, Allowing, FreshRecord, Head;
    var x, moved;
    dbs, shots, x, moved := PutAndDelete(db, user, vaultId, r, id, id2, Moved);
    var ids := {} + {id} + {id2};
    StandsOn(dbs[2], user, vaultId, r, moved, ids);
    var purge := Shot(0, Delete(id3, r, vaultId, 0, 2, Some(Purged)));
    var purged, next := Shoot(dbs, user, shots, vaultId, r, Some(moved), ids, purge);
    StandsOn(next, user, vaultId, r, purged, {} + {id3});
    dbs, shots := dbs + [next], shots + [purge];
  }
}
