/**
 * What a client can rely on: a record's changes apply all together or not at all, the
 * server numbers them as the client did, and every change gets its own answer.
 */
module PushAnswers {
  import opened Prelude
  import opened Tables
  import opened Grouping
  import opened PushRules
  import opened PushLog
  import opened PushPlan
  import opened PushEffect

  /** A version carries what a change asked for. */
  predicate Carries(change: Change, x: Version) {
    && x.recordId == change.recordId
    && x.vaultId == change.vaultId
    && x.clientChangeId == change.clientChangeId
    && x.clientUpdatedAt == change.clientUpdatedAt
    && (change.Put? ==> x.encryptedData == change.encryptedData && x.encryptionNonce == change.encryptionNonce
                        && x.cryptoVersion == change.cryptoVersion && x.keyVersion == change.keyVersion
                        && !x.deleted && x.tombstoneKind.None?)
    && (change.Delete? ==> x.deleted && (change.tombstoneKind == Some(Purged) ==> IsPurged(x)))
  }

  function Appends(outcomes: seq<Outcome>): nat {
    if outcomes == [] then 0 else
      Appends(outcomes[..|outcomes| - 1]) + (if outcomes[|outcomes| - 1].Append? then 1 else 0)
  }

  /** The `k`-th change of a chain is carried by the version planned for it. */
  ghost predicate PlannedFor(chain: seq<Indexed>, outcomes: seq<Outcome>, appended: seq<Planned>, head: nat, k: nat)
    requires k < |chain| == |outcomes|
  {
    var i := Appends(outcomes[..k]);
    && i < |appended|
    && appended[i].index == chain[k].index
    && Carries(chain[k].change, appended[i].version)
    && appended[i].version.version == head + 1 + i
  }

  /** A chain's draft has one version per appended change, numbered up from the head. */
  lemma {:induction false} WriteChainShape(chain: seq<Indexed>, outcomes: seq<Outcome>, dbHead: Option<Row>, user: UserId)
    requires |outcomes| == |chain| && Writable(chain, outcomes, dbHead, user)
    ensures var draft := WriteChain(chain, outcomes, dbHead, user);
            var head := VersionOf(dbHead);
            && |draft.appended| == Appends(outcomes)
            && NumberOf(draft.head) == head + Appends(outcomes)
            && (forall i :: 0 <= i < |draft.appended| ==> draft.appended[i].version.version == head + 1 + i)
            && (forall k :: 0 <= k < |chain| && outcomes[k].Append? ==> PlannedFor(chain, outcomes, draft.appended, head, k))
  {
    if chain != [] {
      var n := |chain| - 1;
      WriteChainShape(chain[..n], outcomes[..n], dbHead, user);
      var before := WriteChain(chain[..n], outcomes[..n], dbHead, user);
      var draft := WriteChain(chain, outcomes, dbHead, user);
      forall k | 0 <= k < |chain| && outcomes[k].Append?
        ensures PlannedFor(chain, outcomes, draft.appended, VersionOf(dbHead), k)
      {
        if k < n {
          assert PlannedFor(chain[..n], outcomes[..n], before.appended, VersionOf(dbHead), k);
          assert outcomes[..n][..k] == outcomes[..k];
        }
      }
    }
  }

  lemma {:induction false} AppendMeansBase(db: Db, user: UserId, change: Change, head: Option<Version>, dbHeadVersion: nat)
    requires DecideChange(db, user, change, SimulatedFrom(head), dbHeadVersion).Append?
    ensures change.baseVersion == NumberOf(head)
  {
  }

  lemma {:induction false} SimulatedPrefix(db: Db, user: UserId, chain: seq<Indexed>, dbHead: Option<Row>)
    requires chain != []
    ensures var n := |chain| - 1;
            var sim := Simulate(db, user, chain, dbHead);
            var before := Simulate(db, user, chain[..n], dbHead);
            && sim.outcomes == before.outcomes + [DecideChange(db, user, chain[n].change, before.head, VersionOf(dbHead))]
            && (sim.failure.None? ==> before.failure.None?)
  {
  }

  /** A change is appended only on top of exactly the version it builds on. */
  lemma {:induction false} AppendedOnBase(db: Db, user: UserId, chain: seq<Indexed>, dbHead: Option<Row>, k: nat)
    requires k < |chain|
    requires Simulate(db, user, chain, dbHead).failure.None?
    requires Simulate(db, user, chain, dbHead).outcomes[k].Append?
    ensures chain[k].change.baseVersion == VersionOf(dbHead) + Appends(Simulate(db, user, chain, dbHead).outcomes[..k])
  {
    var n := |chain| - 1;
    var outcomes := Simulate(db, user, chain, dbHead).outcomes;
    var before := Simulate(db, user, chain[..n], dbHead);
    SimulatedPrefix(db, user, chain, dbHead);
    assert outcomes[..k] == before.outcomes[..k];
    if k < n {
      AppendedOnBase(db, user, chain[..n], dbHead, k);
    } else {
      SimulationAgrees(db, user, chain[..n], dbHead);
      WriteChainShape(chain[..n], before.outcomes, dbHead, user);
      var head := WriteChain(chain[..n], before.outcomes, dbHead, user).head;
      AppendMeansBase(db, user, chain[n].change, head, VersionOf(dbHead));
      assert before.outcomes[..n] == before.outcomes;
    }
  }

  /** The versions of one record among those written. */
  function RecordPart(versions: seq<Version>, r: RecordId): seq<Version> {
    if versions == [] then [] else
      var last := versions[|versions| - 1];
      RecordPart(versions[..|versions| - 1], r) + (if last.recordId == r then [last] else [])
  }

  lemma {:induction false} RecordPartConcat(a: seq<Version>, b: seq<Version>, r: RecordId)
    ensures RecordPart(a + b, r) == RecordPart(a, r) + RecordPart(b, r)
  {
    if b == [] {
      assert a + b == a;
    } else {
      var n := |b| - 1;
      assert (a + b)[..|a + b| - 1] == a + b[..n];
      RecordPartConcat(a, b[..n], r);
    }
  }

  lemma {:induction false} RecordPartUniform(versions: seq<Version>, of: RecordId, r: RecordId)
    requires forall x :: x in versions ==> x.recordId == of
    ensures RecordPart(versions, r) == if r == of then versions else []
  {
    if versions == [] {
      NoRecordPart(r);
    } else {
      hide RecordPart;
      var n := |versions| - 1;
      assert versions == versions[..n] + [versions[n]];
      assert versions[n] in versions;
      forall x | x in versions[..n]
        ensures x.recordId == of
      {
        assert x in versions;
      }
      RecordPartUniform(versions[..n], of, r);
      RecordPartLast(versions, r);
    }
  }

  lemma {:induction false} NoRecordPart(r: RecordId)
    ensures RecordPart([], r) == []
  {
  }

  lemma {:induction false} RecordPartLast(versions: seq<Version>, r: RecordId)
    requires versions != []
    ensures var n := |versions| - 1;
            RecordPart(versions, r) == RecordPart(versions[..n], r) + (if versions[n].recordId == r then [versions[n]] else [])
  {
  }

  lemma {:induction false} RecordPartMember(versions: seq<Version>, r: RecordId, x: Version)
    ensures x in RecordPart(versions, r) <==> x in versions && x.recordId == r
  {
    if versions != [] {
      var n := |versions| - 1;
      assert versions == versions[..n] + [versions[n]];
      RecordPartMember(versions[..n], r, x);
    }
  }

  /** Each chain is judged with the budgets the earlier ones left. */
  lemma {:induction false} JudgedAt(db: Db, user: UserId, budgets: map<UserId, int>, chains: seq<Chain<Indexed>>, k: nat)
    requires k < |chains|
    ensures JudgeAll(db, user, budgets, chains).judged[k] == Judge(db, user, JudgeAll(db, user, budgets, chains[..k]).budgets, chains[k]).0
  {
    hide Judge;
    var before, last := JudgeAllStep(db, user, budgets, chains);
    if k < |chains| - 1 {
      JudgedAt(db, user, budgets, chains[..|chains| - 1], k);
      assert chains[..|chains| - 1][..k] == chains[..k];
    }
  }

  /** What a judged chain holds: the decision, and the draft it leads to. */
  ghost predicate JudgedFor(db: Db, user: UserId, chain: Chain<Indexed>, j: Judged) {
    && j.chain == chain.items
    && j.dbHead == Head(db.records, chain.recordId)
    && j.outcomes == DecideChain(db, user, chain.items, j.dbHead)
    && Writable(j.chain, j.outcomes, j.dbHead, user)
    && j.appended == WriteChain(j.chain, j.outcomes, j.dbHead, user).appended
  }

  lemma {:induction false} JudgeGives(db: Db, user: UserId, budgets: map<UserId, int>, chain: Chain<Indexed>)
    ensures JudgedFor(db, user, chain, Judge(db, user, budgets, chain).0)
  {
    DecidedIsWritable(db, user, chain.items, Head(db.records, chain.recordId));
  }

  lemma {:induction false} BatchJudged(db: Db, user: UserId, quota: int, changes: seq<Change>)
    ensures var chains := ChainsOf(changes);
            var judged := JudgeBatch(db, user, quota, changes);
            |judged| == |chains| && forall k :: 0 <= k < |chains| ==> JudgedFor(db, user, chains[k], judged[k])
  {
    var chains := ChainsOf(changes);
    var budgets := Budgets(db.vaults, quota);
    forall k | 0 <= k < |chains|
      ensures JudgedFor(db, user, chains[k], JudgeBatch(db, user, quota, changes)[k])
    {
      JudgedAt(db, user, budgets, chains, k);
      JudgeGives(db, user, JudgeAll(db, user, budgets, chains[..k]).budgets, chains[k]);
    }
  }

  /** Every version of a judged chain is one of its changes', on that change's base. */
  lemma {:induction false} JudgedCarries(db: Db, user: UserId, chain: Chain<Indexed>, j: Judged)
    requires JudgedFor(db, user, chain, j)
    ensures forall k :: 0 <= k < |j.chain| && j.outcomes[k].Append? ==>
              && PlannedFor(j.chain, j.outcomes, j.appended, VersionOf(j.dbHead), k)
              && j.appended[Appends(j.outcomes[..k])].version.version == j.chain[k].change.baseVersion + 1
    ensures forall i :: 0 <= i < |j.appended| ==> j.appended[i].version.version == VersionOf(j.dbHead) + 1 + i
  {
    WriteChainShape(j.chain, j.outcomes, j.dbHead, user);
    var sim := Simulate(db, user, j.chain, j.dbHead);
    forall k | 0 <= k < |j.chain| && j.outcomes[k].Append?
      ensures j.appended[Appends(j.outcomes[..k])].version.version == j.chain[k].change.baseVersion + 1
    {
      AppendedOnBase(db, user, j.chain, j.dbHead, k);
    }
  }

  /** Every planned version stems from an appended change. */
  lemma {:induction false} AppendedHasChange(outcomes: seq<Outcome>, i: nat) returns (k: nat)
    requires i < Appends(outcomes)
    ensures k < |outcomes| && outcomes[k].Append? && Appends(outcomes[..k]) == i
  {
    var n := |outcomes| - 1;
    if i < Appends(outcomes[..n]) {
      k := AppendedHasChange(outcomes[..n], i);
      assert outcomes[..n][..k] == outcomes[..k];
    } else {
      k := n;
    }
  }

  /** The part of the plan that belongs to one record is its chain's draft, or nothing. */
  lemma {:induction false} PlanPart(chains: seq<Chain<Indexed>>, judged: seq<Judged>, overQuota: bool, k: nat)
    requires DistinctRecords(chains) && |judged| == |chains| && k < |chains|
    requires forall m :: 0 <= m < |chains| ==> DraftsOf(chains[m].recordId, judged[m])
    ensures RecordPart(Versions(PlanOf(judged, overQuota)), chains[k].recordId) ==
            if Kept(judged[k], overQuota) then Versions(judged[k].appended) else []
  {
    PlanPartUpTo(chains, judged, overQuota, k, |judged|);
    assert judged[..|judged|] == judged;
  }

  ghost predicate DraftsOf(recordId: RecordId, j: Judged) {
    forall x :: x in Versions(j.appended) ==> x.recordId == recordId
  }

  lemma {:induction false} PlanPartUpTo(chains: seq<Chain<Indexed>>, judged: seq<Judged>, overQuota: bool, k: nat, n: nat)
    requires DistinctRecords(chains) && n <= |judged| == |chains| && k < |chains|
    requires forall m :: 0 <= m < |chains| ==> DraftsOf(chains[m].recordId, judged[m])
    ensures RecordPart(Versions(PlanOf(judged[..n], overQuota)), chains[k].recordId) ==
            if k < n && Kept(judged[k], overQuota) then Versions(judged[k].appended) else []
    decreases n
  {
    hide *;
    if n == 0 {
      NoPlanPart(overQuota, chains[k].recordId);
      assert judged[..n] == [];
    } else {
      DistinctAt(chains, n - 1, k);
      PlanPartUpTo(chains, judged, overQuota, k, n - 1);
      assert judged[..n] == judged[..n - 1] + [judged[n - 1]];
      PlanPartStep(judged[..n - 1], judged[n - 1], overQuota, chains[n - 1].recordId, chains[k].recordId);
    }
  }

  lemma {:induction false} NoPlanPart(overQuota: bool, r: RecordId)
    ensures RecordPart(Versions(PlanOf([], overQuota)), r) == []
  {
  }

  lemma {:induction false} DistinctAt(chains: seq<Chain<Indexed>>, a: nat, b: nat)
    requires DistinctRecords(chains) && a < |chains| && b < |chains|
    ensures chains[a].recordId == chains[b].recordId <==> a == b
  {
  }

  lemma {:induction false} PlanPartStep(judged: seq<Judged>, last: Judged, overQuota: bool, of: RecordId, r: RecordId)
    requires DraftsOf(of, last)
    ensures RecordPart(Versions(PlanOf(judged + [last], overQuota)), r) ==
            RecordPart(Versions(PlanOf(judged, overQuota)), r) + (if Kept(last, overQuota) && r == of then Versions(last.appended) else [])
  {
    var planned := PlanOf(judged, overQuota);
    PlanOfAppend(judged, last, overQuota);
    VersionsConcat(planned, last.appended);
    RecordPartConcat(Versions(planned), Versions(last.appended), r);
    RecordPartUniform(Versions(last.appended), of, r);
  }

  /** A planned version is written, and found again by its change's id. */
  lemma {:induction false} FoundByChange(db: Db, user: UserId, quota: int, changes: seq<Change>, x: Version) returns (w: Row)
    requires Sound(db) && ValidBatch(changes)
    requires x in PlanBatch(db, user, quota, changes)
    ensures w in PushWritten(db, user, quota, changes) && w.v == x
    ensures StoredChange(PushWritten(db, user, quota, changes), x.recordId, x.clientChangeId) == Some(w)
  {
    WrittenRows(db, user, quota, changes);
    var versions := PlanBatch(db, user, quota, changes);
    var written := PushWritten(db, user, quota, changes);
    var i :| 0 <= i < |versions| && versions[i] == x;
    w := written[i];
    assert w in written;
    var found := StoredChange(written, x.recordId, x.clientChangeId);
    OneVaultPerRecord(PushInserted(db, user, quota, changes).records, found.value, w);
  }

  /** The `k`-th chain's part of what the batch writes. */
  lemma {:induction false} BatchPart(db: Db, user: UserId, quota: int, changes: seq<Change>, k: nat)
    requires Sound(db) && ValidBatch(changes)
    requires k < |ChainsOf(changes)|
    ensures var judged := JudgeBatch(db, user, quota, changes);
            && |judged| == |ChainsOf(changes)|
            && RecordPart(PlanBatch(db, user, quota, changes), ChainsOf(changes)[k].recordId) ==
               if Kept(judged[k], OverQuotaIn(judged)) then Versions(judged[k].appended) else []
  {
    var chains := ChainsOf(changes);
    var judged := JudgeBatch(db, user, quota, changes);
    ChainsOfBatch(changes);
    BatchJudged(db, user, quota, changes);
    forall m | 0 <= m < |chains|
      ensures DraftsOf(chains[m].recordId, judged[m])
    {
      JudgedRecord(db, user, chains[m], judged[m]);
    }
    PlanPart(chains, judged, OverQuotaIn(judged), k);
  }

  lemma {:induction false} JudgedRecord(db: Db, user: UserId, chain: Chain<Indexed>, j: Judged)
    requires JudgedFor(db, user, chain, j) && RecordChain(chain)
    ensures forall x :: x in Versions(j.appended) ==> x.recordId == chain.recordId
  {
    JudgedCarries(db, user, chain, j);
    WriteChainShape(j.chain, j.outcomes, j.dbHead, user);
    forall i | 0 <= i < |j.appended|
      ensures j.appended[i].version.recordId == chain.recordId
    {
      var k := AppendedHasChange(j.outcomes, i);
      assert PlannedFor(j.chain, j.outcomes, j.appended, VersionOf(j.dbHead), k);
    }
  }

  /** A change is answered with the row written for it, numbered on top of its base. */
  ghost predicate AppliedOnBase(j: Judged, p: nat, overQuota: bool, written: seq<Row>)
    requires p < |j.chain| == |j.outcomes|
  {
    var change := j.chain[p].change;
    exists w :: w in written && Carries(change, w.v) && w.v.version == change.baseVersion + 1
                && AnswerTo(j, p, overQuota, written) == Applied(change.clientChangeId, SerializeRecord(w))
  }

  ghost predicate AllApplied(j: Judged, overQuota: bool, written: seq<Row>)
    requires |j.chain| == |j.outcomes|
  {
    forall p :: 0 <= p < |j.chain| ==> j.outcomes[p].Stored? || AppliedOnBase(j, p, overQuota, written)
  }

  ghost predicate AllRefused(j: Judged, overQuota: bool, written: seq<Row>, failure: Failure)
    requires |j.chain| == |j.outcomes|
  {
    forall p :: 0 <= p < |j.chain| ==>
      j.outcomes[p].Stored? || AnswerTo(j, p, overQuota, written) == Refused(j.chain[p].change.clientChangeId, failure)
  }

  /**
   * All or nothing: of each record in a batch, either every change not stored yet is
   * written, as a run of versions from the record's head up, each one above the version
   * its change builds on; or nothing is written and they all get the same refusal.
   */
  lemma {:induction false} AllOrNothing(db: Db, user: UserId, quota: int, changes: seq<Change>, k: nat)
    requires Sound(db) && ValidBatch(changes)
    requires k < |ChainsOf(changes)|
    ensures var judged := JudgeBatch(db, user, quota, changes);
            var overQuota := OverQuotaIn(judged);
            var written := PushWritten(db, user, quota, changes);
            var r := ChainsOf(changes)[k].recordId;
            var part := RecordPart(PlanBatch(db, user, quota, changes), r);
            && |judged| == |ChainsOf(changes)|
            && |judged[k].outcomes| == |judged[k].chain|
            && (forall i :: 0 <= i < |part| ==> part[i].version == VersionOf(Head(db.records, r)) + 1 + i)
            && (AllApplied(judged[k], overQuota, written)
                || (part == [] && exists failure :: AllRefused(judged[k], overQuota, written, failure)))
  {
    hide Sound, ValidBatch, JudgeBatch, ChainsOf, PlanBatch, PushWritten, OverQuotaIn, AllApplied, AllRefused, Kept;
    BatchJudged(db, user, quota, changes);
    var chain := ChainsOf(changes)[k];
    var j := JudgeBatch(db, user, quota, changes)[k];
    assert JudgedFor(db, user, chain, j);
    BatchPart(db, user, quota, changes, k);
    JudgedCarries(db, user, chain, j);
    PartIsWritten(db, user, quota, changes, chain.recordId);
    ChainAllOrNothing(db, user, chain, j, OverQuotaIn(JudgeBatch(db, user, quota, changes)), PushWritten(db, user, quota, changes));
  }

  ghost predicate Findable(written: seq<Row>, x: Version) {
    exists w :: w in written && w.v == x && StoredChange(written, x.recordId, x.clientChangeId) == Some(w)
  }

  lemma {:induction false} PartIsWritten(db: Db, user: UserId, quota: int, changes: seq<Change>, r: RecordId)
    requires Sound(db) && ValidBatch(changes)
    ensures forall x :: x in RecordPart(PlanBatch(db, user, quota, changes), r) ==> Findable(PushWritten(db, user, quota, changes), x)
  {
    var versions := PlanBatch(db, user, quota, changes);
    forall x | x in RecordPart(versions, r)
      ensures Findable(PushWritten(db, user, quota, changes), x)
    {
      RecordPartMember(versions, r, x);
      var w := FoundByChange(db, user, quota, changes, x);
    }
  }

  lemma {:induction false} ChainAllOrNothing(db: Db, user: UserId, chain: Chain<Indexed>, j: Judged, overQuota: bool, written: seq<Row>)
    requires JudgedFor(db, user, chain, j)
    requires Kept(j, overQuota) ==> forall x :: x in Versions(j.appended) ==> Findable(written, x)
    ensures AllApplied(j, overQuota, written)
            || ((!Kept(j, overQuota) || j.appended == []) && exists failure :: AllRefused(j, overQuota, written, failure))
  {
    var sim := Simulate(db, user, j.chain, j.dbHead);
    if sim.failure.Some? {
      NothingToWrite(j.chain, j.outcomes, j.dbHead, user);
      assert AllRefused(j, overQuota, written, sim.failure.value);
    } else if Kept(j, overQuota) {
      forall p | 0 <= p < |j.chain| && !j.outcomes[p].Stored?
        ensures AppliedOnBase(j, p, overQuota, written)
      {
        NoFailureNoRefusal(db, user, j.chain, j.dbHead, p);
        ChangeApplied(db, user, chain, j, overQuota, written, p);
      }
    } else {
      forall p | 0 <= p < |j.chain| && !j.outcomes[p].Stored?
        ensures AnswerTo(j, p, overQuota, written) == Refused(j.chain[p].change.clientChangeId, Rejected(OverQuota))
      {
        NoFailureNoRefusal(db, user, j.chain, j.dbHead, p);
      }
      assert AllRefused(j, overQuota, written, Rejected(OverQuota));
    }
  }

  lemma {:induction false} ChangeApplied(db: Db, user: UserId, chain: Chain<Indexed>, j: Judged, overQuota: bool, written: seq<Row>, p: nat)
    requires JudgedFor(db, user, chain, j)
    requires Kept(j, overQuota) && forall x :: x in Versions(j.appended) ==> Findable(written, x)
    requires p < |j.chain| && j.outcomes[p].Append?
    ensures AppliedOnBase(j, p, overQuota, written)
  {
    JudgedCarries(db, user, chain, j);
    assert PlannedFor(j.chain, j.outcomes, j.appended, VersionOf(j.dbHead), p);
    var x := j.appended[Appends(j.outcomes[..p])].version;
    assert Versions(j.appended)[Appends(j.outcomes[..p])] == x;
    assert Findable(written, x);
  }

  lemma {:induction false} NoFailureNoRefusal(db: Db, user: UserId, chain: seq<Indexed>, dbHead: Option<Row>, p: nat)
    requires p < |chain| && Simulate(db, user, chain, dbHead).failure.None?
    ensures !Simulate(db, user, chain, dbHead).outcomes[p].Failed?
  {
    SimulatedPrefix(db, user, chain, dbHead);
    if p < |chain| - 1 {
      NoFailureNoRefusal(db, user, chain[..|chain| - 1], dbHead, p);
    }
  }

  /** Each planned version is a change's of the batch, one above the version it builds on. */
  lemma {:induction false} PlanCarries(db: Db, user: UserId, quota: int, changes: seq<Change>, x: Version) returns (n: nat)
    requires Sound(db) && ValidBatch(changes)
    requires x in PlanBatch(db, user, quota, changes)
    ensures n < |changes| && Carries(changes[n], x) && x.version == changes[n].baseVersion + 1
    ensures Denied(db.vaults, user, x.vaultId).None?
    ensures StoredChange(db.records, x.recordId, x.clientChangeId).None?
  {
    var k := ChainOfPlanned(db, user, quota, changes, x);
    var chain := ChainsOf(changes)[k];
    var j := JudgeBatch(db, user, quota, changes)[k];
    BatchJudged(db, user, quota, changes);
    var p := JudgedChange(db, user, chain, j, x);
    ChainsOfBatch(changes);
    n := chain.items[p].index;
    AppendAllowed(db, user, j.chain, j.dbHead, p);
  }

  /** The chain a planned version belongs to. */
  lemma {:induction false} ChainOfPlanned(db: Db, user: UserId, quota: int, changes: seq<Change>, x: Version) returns (k: nat)
    requires Sound(db) && ValidBatch(changes)
    requires x in PlanBatch(db, user, quota, changes)
    ensures k < |ChainsOf(changes)| == |JudgeBatch(db, user, quota, changes)|
    ensures x in Versions(JudgeBatch(db, user, quota, changes)[k].appended)
  {
    PlanBatchFits(db, user, quota, changes);
    var chains := ChainsOf(changes);
    k :| 0 <= k < |chains| && chains[k].recordId == x.recordId && IdIn(chains[k].items, x.clientChangeId);
    BatchPart(db, user, quota, changes, k);
    RecordPartMember(PlanBatch(db, user, quota, changes), chains[k].recordId, x);
  }

  /** The change of a judged chain a version was drafted for. */
  lemma {:induction false} JudgedChange(db: Db, user: UserId, chain: Chain<Indexed>, j: Judged, x: Version) returns (p: nat)
    requires JudgedFor(db, user, chain, j) && x in Versions(j.appended)
    ensures p < |j.chain| && j.outcomes[p].Append?
    ensures Carries(j.chain[p].change, x) && x.version == j.chain[p].change.baseVersion + 1
  {
    var i :| 0 <= i < |j.appended| && Versions(j.appended)[i] == x;
    WriteChainShape(j.chain, j.outcomes, j.dbHead, user);
    p := AppendedHasChange(j.outcomes, i);
    JudgedCarries(db, user, chain, j);
    assert PlannedFor(j.chain, j.outcomes, j.appended, VersionOf(j.dbHead), p);
  }

  /** Only a change not stored yet, by a user who may write, is appended. */
  lemma {:induction false} AppendAllowed(db: Db, user: UserId, chain: seq<Indexed>, dbHead: Option<Row>, p: nat)
    requires p < |chain| && DecideChain(db, user, chain, dbHead)[p].Append?
    ensures Denied(db.vaults, user, chain[p].change.vaultId).None?
    ensures StoredChange(db.records, chain[p].change.recordId, chain[p].change.clientChangeId).None?
    ensures chain[p].change.Put? ==> chain[p].change.keyVersion == db.vaults[chain[p].change.vaultId].keyVersion
  {
    var sim := Simulate(db, user, chain, dbHead);
    assert sim.outcomes[p].Append?;
    DecidedAt(db, user, chain, dbHead, p);
  }

  lemma {:induction false} DecidedAt(db: Db, user: UserId, chain: seq<Indexed>, dbHead: Option<Row>, p: nat)
    requires p < |chain|
    ensures Simulate(db, user, chain, dbHead).outcomes[p] ==
            DecideChange(db, user, chain[p].change, Simulate(db, user, chain[..p], dbHead).head, VersionOf(dbHead))
  {
    SimulatedPrefix(db, user, chain, dbHead);
    if p < |chain| - 1 {
      DecidedAt(db, user, chain[..|chain| - 1], dbHead, p);
      assert chain[..|chain| - 1][..p] == chain[..p];
    }
  }

  /** A resent change the server still has: answered with the stored version, or refused. */
  lemma {:induction false} StoredIsAnswered(db: Db, user: UserId, quota: int, changes: seq<Change>, k: nat, p: nat)
    requires Sound(db) && ValidBatch(changes)
    requires k < |ChainsOf(changes)| && p < |ChainsOf(changes)[k].items|
    requires var change := ChainsOf(changes)[k].items[p].change;
             StoredChange(db.records, change.recordId, change.clientChangeId).Some?
    ensures var judged := JudgeBatch(db, user, quota, changes);
            var change := ChainsOf(changes)[k].items[p].change;
            && |judged| == |ChainsOf(changes)| && |judged[k].chain| == |judged[k].outcomes| == |ChainsOf(changes)[k].items|
            && var answer := AnswerTo(judged[k], p, OverQuotaIn(judged), PushWritten(db, user, quota, changes));
               answer.Refused? || answer == Applied(change.clientChangeId, SerializeRecord(StoredChange(db.records, change.recordId, change.clientChangeId).value))
  {
    hide Sound, ValidBatch, JudgeBatch, ChainsOf, PushWritten, OverQuotaIn, SerializeRecord, StoredChange, AnswerTo;
    BatchJudged(db, user, quota, changes);
    var judged := JudgeBatch(db, user, quota, changes);
    assert JudgedFor(db, user, ChainsOf(changes)[k], judged[k]);
    HeldAnswer(db, user, ChainsOf(changes)[k], judged[k], p, OverQuotaIn(judged), PushWritten(db, user, quota, changes));
  }

  lemma {:induction false} HeldAnswer(db: Db, user: UserId, chain: Chain<Indexed>, j: Judged, p: nat, overQuota: bool, written: seq<Row>)
    requires JudgedFor(db, user, chain, j) && p < |j.chain|
    requires StoredChange(db.records, j.chain[p].change.recordId, j.chain[p].change.clientChangeId).Some?
    ensures |j.outcomes| == |j.chain|
    ensures var answer := AnswerTo(j, p, overQuota, written);
            var change := j.chain[p].change;
            answer.Refused? || answer == Applied(change.clientChangeId, SerializeRecord(StoredChange(db.records, change.recordId, change.clientChangeId).value))
  {
    hide SerializeRecord, WriteChain, Writable, Simulate, Head, Denied, StoredChange;
    DecidedAt(db, user, j.chain, j.dbHead, p);
  }
}
