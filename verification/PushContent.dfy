/**
 * What the versions of a push hold and what its answers show, field by field: a put what
 * was sent, a deletion what it leaves of the version below, each by the user who pushed.
 */
module PushContent {
  import opened Prelude
  import opened Tables
  import opened Grouping
  import opened PushRules
  import opened PushLog
  import opened PushPlan
  import opened PushEffect
  import opened PushAnswers
  import opened PushTransaction
  import opened PushResults
  import opened PushConditions

  // ---- What a copy shows ----

  /** A copy agrees with a version in everything but its author and its change id. */
  predicate Shows(copy: Copy, x: Version) {
    && copy.recordId == x.recordId && copy.vaultId == x.vaultId && copy.version == x.version
    && copy.encryptedData == x.encryptedData && copy.encryptionNonce == x.encryptionNonce
    && copy.cryptoVersion == x.cryptoVersion && copy.keyVersion == x.keyVersion
    && copy.clientUpdatedAt == x.clientUpdatedAt
    && copy.deleted == x.deleted && copy.tombstoneKind == x.tombstoneKind
  }

  lemma {:induction false} CopyShows(row: Row)
    ensures Shows(SerializeRecord(row), row.v)
  {
  }

  /** An applied change is answered with the version stored under its id, or with the one written for it now. */
  lemma {:induction false} AppliedShows(db: Db, user: UserId, quota: int, changes: seq<Change>, results: seq<PushResult>, n: nat) returns (row: Row)
    requires Sound(db) && ValidBatch(changes) && AllAnswered(db, user, quota, changes, results)
    requires n < |changes| && n < |results| && results[n].Applied?
    ensures results[n].clientChangeId == changes[n].clientChangeId && Shows(results[n].record, row.v)
    ensures || (row in db.records && row.v.recordId == changes[n].recordId && row.v.clientChangeId == changes[n].clientChangeId)
            || (row in PushWritten(db, user, quota, changes) && Carries(changes[n], row.v) && row.v.version == changes[n].baseVersion + 1)
    ensures !Held(db, changes[n]) ==> row in PushWritten(db, user, quota, changes) && Carries(changes[n], row.v) && row.v.version == changes[n].baseVersion + 1
  {
    hide Sound, ValidBatch, PushWritten, SerializeRecord, AllAnswered, Carries, Shows, PlanBatch;
    var written := PushWritten(db, user, quota, changes);
    OneEach(db, user, quota, changes, results);
    RecordAllOrNothing(db, user, quota, changes, results, changes[n].recordId);
    assert AnsweredStored(db, changes[n], results[n]) || AnsweredWritten(written, changes[n], results[n]);
    if AnsweredStored(db, changes[n], results[n]) {
      row := StoredChange(db.records, changes[n].recordId, changes[n].clientChangeId).value;
    } else {
      row :| row in written && Carries(changes[n], row.v) && row.v.version == changes[n].baseVersion + 1
             && results[n] == Applied(changes[n].clientChangeId, SerializeRecord(row));
    }
    CopyShows(row);
  }

  /** A put that is written is answered with exactly what it sent, one version up. */
  lemma {:induction false} PutIsAnswered(db: Db, user: UserId, quota: int, changes: seq<Change>, results: seq<PushResult>, n: nat)
    requires Sound(db) && ValidBatch(changes) && AllAnswered(db, user, quota, changes, results)
    requires n < |changes| && n < |results| && results[n].Applied? && changes[n].Put? && !Held(db, changes[n])
    ensures var copy := results[n].record;
            && copy.recordId == changes[n].recordId && copy.vaultId == changes[n].vaultId && copy.version == changes[n].baseVersion + 1
            && copy.encryptedData == changes[n].encryptedData && copy.encryptionNonce == changes[n].encryptionNonce
            && copy.cryptoVersion == changes[n].cryptoVersion && copy.keyVersion == changes[n].keyVersion
            && copy.clientUpdatedAt == changes[n].clientUpdatedAt
            && !copy.deleted && copy.tombstoneKind.None?
  {
    hide Sound, ValidBatch, PushWritten, AllAnswered, Held;
    var row := AppliedShows(db, user, quota, changes, results, n);
  }

  // ---- What a written version holds ----

  /** What a deletion makes of the version below it: its kind, and its content unless it purges; always its keys. */
  predicate Buries(x: Version, below: Version, kind: Option<TombstoneKind>) {
    && x.deleted && x.recordId == below.recordId && x.version == below.version + 1
    && x.cryptoVersion == below.cryptoVersion && x.keyVersion == below.keyVersion
    && x.tombstoneKind == (if below.tombstoneKind == Some(Purged) then Some(Purged) else if kind.Some? then kind else below.tombstoneKind)
    && (if x.tombstoneKind == Some(Purged) then x.encryptedData == "" && x.encryptionNonce == ""
        else x.encryptedData == below.encryptedData && x.encryptionNonce == below.encryptionNonce)
  }

  /** The version under the `m`-th of a chain's draft. */
  function Under(dbHead: Option<Row>, appended: seq<Planned>, m: nat): Option<Version>
    requires m <= |appended|
  {
    if m == 0 then VersionIn(dbHead) else Some(appended[m - 1].version)
  }

  /** The `m`-th version of a draft was made by this user from one of the chain's changes. */
  ghost predicate Made(chain: seq<Indexed>, dbHead: Option<Row>, appended: seq<Planned>, m: nat, user: UserId)
    requires m < |appended|
  {
    var x := appended[m].version;
    && x.userId == user
    && exists p :: 0 <= p < |chain| && chain[p].index == appended[m].index && chain[p].change.clientChangeId == x.clientChangeId
                   && (chain[p].change.Delete? ==>
                         Under(dbHead, appended, m).Some? && LeftOf(x, Under(dbHead, appended, m).value, chain[p].change.tombstoneKind))
  }

  /** As `Buries`, before it is known that both are of one record. */
  predicate LeftOf(x: Version, below: Version, kind: Option<TombstoneKind>) {
    Buries(x.(recordId := below.recordId), below, kind)
  }

  lemma {:induction false} NextIsMade(change: Change, head: Option<Version>, user: UserId)
    requires change.Put? || head.Some?
    ensures var x := NextVersion(change, head, user);
            && x.userId == user && x.clientChangeId == change.clientChangeId
            && (change.Delete? ==> LeftOf(x, head.value, change.tombstoneKind))
  {
  }

  lemma {:induction false} ChainIsMade(chain: seq<Indexed>, outcomes: seq<Outcome>, dbHead: Option<Row>, user: UserId)
    requires |outcomes| == |chain| && Writable(chain, outcomes, dbHead, user)
    ensures var draft := WriteChain(chain, outcomes, dbHead, user);
            && draft.head == Under(dbHead, draft.appended, |draft.appended|)
            && forall m :: 0 <= m < |draft.appended| ==> Made(chain, dbHead, draft.appended, m, user)
  {
    if chain != [] {
      hide NextVersion, LeftOf;
      var n := |chain| - 1;
      var before := WriteChain(chain[..n], outcomes[..n], dbHead, user);
      var draft := WriteChain(chain, outcomes, dbHead, user);
      ChainIsMade(chain[..n], outcomes[..n], dbHead, user);
      if outcomes[n].Append? {
        NextIsMade(chain[n].change, before.head, user);
      }
      forall m | 0 <= m < |draft.appended|
        ensures Made(chain, dbHead, draft.appended, m, user)
      {
        if m < |before.appended| {
          MadeInMore(chain, dbHead, before.appended, draft.appended, m, user);
        } else {
          assert chain[n].index == draft.appended[m].index;
        }
      }
    }
  }

  lemma {:induction false} MadeInMore(chain: seq<Indexed>, dbHead: Option<Row>, before: seq<Planned>, after: seq<Planned>, m: nat, user: UserId)
    requires chain != [] && before <= after && m < |before| && Made(chain[..|chain| - 1], dbHead, before, m, user)
    ensures Made(chain, dbHead, after, m, user)
  {
    hide LeftOf;
    var x := before[m].version;
    var p :| 0 <= p < |chain| - 1 && chain[..|chain| - 1][p].index == before[m].index && chain[..|chain| - 1][p].change.clientChangeId == x.clientChangeId
             && (chain[..|chain| - 1][p].change.Delete? ==>
                   Under(dbHead, before, m).Some? && LeftOf(x, Under(dbHead, before, m).value, chain[..|chain| - 1][p].change.tombstoneKind));
    assert chain[p] == chain[..|chain| - 1][p];
    assert Under(dbHead, after, m) == Under(dbHead, before, m);
  }

  /** Whether a version is stored, or planned earlier in the batch. */
  ghost predicate Earlier(db: Db, versions: seq<Version>, i: nat, y: Version) {
    (exists row :: row in db.records && row.v == y) || (exists j :: 0 <= j < i && j < |versions| && versions[j] == y)
  }

  /**
   * Every version a push writes is its user's; and a deletion keeps the content and keys
   * of the version one below it, stored or written before it, unless it purges, which
   * empties the content and keeps the keys. Its kind is the change's, but purged stays
   * purged and a mark stays without a kind given.
   */
  lemma {:induction false} WrittenContent(db: Db, user: UserId, quota: int, changes: seq<Change>, i: nat) returns (n: nat, below: Option<Version>)
    requires Sound(db) && ValidBatch(changes) && i < |PlanBatch(db, user, quota, changes)|
    ensures var versions := PlanBatch(db, user, quota, changes);
            && versions[i].userId == user
            && n < |changes| && Carries(changes[n], versions[i])
            && (changes[n].Delete? ==> below.Some? && Earlier(db, versions, i, below.value) && Buries(versions[i], below.value, changes[n].tombstoneKind))
  {
    hide Sound, ValidBatch, PlanBatch, ChainsOf, JudgeBatch, OverQuotaIn, Kept, Buries, WriteChain, Writable, DecideChain;
    var versions := PlanBatch(db, user, quota, changes);
    var x := versions[i];
    n := PlanCarries(db, user, quota, changes, x);
    var k := ChainOfPlanned(db, user, quota, changes, x);
    var chain := ChainsOf(changes)[k];
    var j := JudgeBatch(db, user, quota, changes)[k];
    ChainsOfBatch(changes);
    BatchJudged(db, user, quota, changes);
    assert Lists(changes, chain) && JudgedFor(db, user, chain, j);
    BatchPart(db, user, quota, changes, k);
    ChainIsMade(j.chain, j.outcomes, j.dbHead, user);
    JudgedRecord(db, user, chain, j);
    var m :| 0 <= m < |j.appended| && Versions(j.appended)[m] == x;
    assert Made(j.chain, j.dbHead, j.appended, m, user);
    var p :| 0 <= p < |j.chain| && j.chain[p].index == j.appended[m].index && j.chain[p].change.clientChangeId == x.clientChangeId
             && (j.chain[p].change.Delete? ==>
                   Under(j.dbHead, j.appended, m).Some? && LeftOf(x, Under(j.dbHead, j.appended, m).value, j.chain[p].change.tombstoneKind));
    SameChange(changes, chain, p, n);
    below := Under(j.dbHead, j.appended, m);
    if changes[n].Delete? {
      UnderIsEarlier(db, user, quota, changes, chain, j, m, i);
    }
  }

  lemma {:induction false} SameChange(changes: seq<Change>, chain: Chain<Indexed>, p: nat, n: nat)
    requires ValidBatch(changes) && Lists(changes, chain) && p < |chain.items| && n < |changes|
    requires chain.items[p].change.clientChangeId == changes[n].clientChangeId
    ensures chain.items[p].change == changes[n]
  {
  }

  /** What lies under a drafted version is of its record, one below it, and stored or planned before it. */
  lemma {:induction false} UnderIsEarlier(db: Db, user: UserId, quota: int, changes: seq<Change>, chain: Chain<Indexed>, j: Judged, m: nat, i: nat)
    requires Sound(db) && ValidBatch(changes) && i < |PlanBatch(db, user, quota, changes)|
    requires JudgedFor(db, user, chain, j) && m < |j.appended| && Under(j.dbHead, j.appended, m).Some?
    requires RecordPart(PlanBatch(db, user, quota, changes), chain.recordId) == (if Kept(j, OverQuotaIn(JudgeBatch(db, user, quota, changes))) then Versions(j.appended) else [])
    requires forall y :: y in Versions(j.appended) ==> y.recordId == chain.recordId
    requires PlanBatch(db, user, quota, changes)[i] == j.appended[m].version
    ensures var below := Under(j.dbHead, j.appended, m).value;
            var x := PlanBatch(db, user, quota, changes)[i];
            below.recordId == x.recordId && x.version == below.version + 1 && Earlier(db, PlanBatch(db, user, quota, changes), i, below)
  {
    hide Sound, ValidBatch, PlanBatch, JudgeBatch, OverQuotaIn, Kept, WriteChain, Writable, DecideChain, Fits;
    var versions := PlanBatch(db, user, quota, changes);
    var x := versions[i];
    assert Versions(j.appended)[m] == x;
    JudgedCarries(db, user, chain, j);
    if m > 0 {
      var below := j.appended[m - 1].version;
      assert Versions(j.appended)[m - 1] == below;
      RecordPartMember(versions, chain.recordId, x);
      RecordPartMember(versions, chain.recordId, below);
      var b :| 0 <= b < |versions| && versions[b] == below;
      PlannedInOrder(db, user, quota, changes, i, b);
    }
  }

  /** Of two planned versions of a record the lower is planned first. */
  lemma {:induction false} PlannedInOrder(db: Db, user: UserId, quota: int, changes: seq<Change>, i: nat, b: nat)
    requires Sound(db) && ValidBatch(changes) && i < |PlanBatch(db, user, quota, changes)| && b < |PlanBatch(db, user, quota, changes)|
    requires var versions := PlanBatch(db, user, quota, changes);
             versions[b].recordId == versions[i].recordId && versions[b].version < versions[i].version
    ensures b < i
  {
    hide Sound, ValidBatch, PlanBatch, FitsAll;
    PlanBatchFits(db, user, quota, changes);
    if i < b {
      LaterIsHigher(db.vaults, VersionsOf(db.records), PlanBatch(db, user, quota, changes), i, b);
    }
  }

  lemma {:induction false} LaterIsHigher(vaults: map<VaultId, Vault>, stored: seq<Version>, versions: seq<Version>, i: nat, b: nat)
    requires FitsAll(vaults, stored, versions) && i < b < |versions| && versions[b].recordId == versions[i].recordId
    ensures versions[i].version < versions[b].version
  {
    hide IsHead;
    assert FitsAt(vaults, stored, versions, b);
    assert (stored + versions[..b])[|stored| + i] == versions[i];
    assert versions[i] in stored + versions[..b];
  }

  /** The rows written are those versions, in that order. */
  lemma {:induction false} WrittenAre(db: Db, user: UserId, quota: int, changes: seq<Change>, i: nat)
    requires Sound(db) && ValidBatch(changes) && i < |PlanBatch(db, user, quota, changes)|
    ensures |PushWritten(db, user, quota, changes)| == |PlanBatch(db, user, quota, changes)|
    ensures PushWritten(db, user, quota, changes)[i].v == PlanBatch(db, user, quota, changes)[i]
  {
    hide Sound, ValidBatch, PlanBatch, PushWritten;
    WrittenRows(db, user, quota, changes);
  }

  /** Only an active member who is not a reader gets anything written to a vault. */
  lemma {:induction false} WritersOnly(db: Db, user: UserId, quota: int, changes: seq<Change>, x: Version)
    requires Sound(db) && ValidBatch(changes) && x in PlanBatch(db, user, quota, changes)
    ensures MayWrite(db.vaults, user, x.vaultId)
  {
    hide Sound, ValidBatch, PlanBatch, Denied;
    var n := PlanCarries(db, user, quota, changes, x);
    DeniedExactly(db.vaults, user, x.vaultId);
  }
}
