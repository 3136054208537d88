/**
 * Exactly once, over any run: what was written keeps its number for good, and a change
 * that was applied is never applied again, whatever purge dropped its version.
 */
module PushOnce {
  import opened Prelude
  import opened Tables
  import opened Grouping
  import opened PushRules
  import opened PushLog
  import opened PushPlan
  import opened PushEffect
  import opened PushAnswers
  import opened PushTransaction

  /** Tables over a run: each state comes from the one before by a push, or keeps the rows (rotations, sharing). */
  ghost predicate Ran(dbs: seq<Db>) {
    |dbs| > 0 && LogInv(dbs[0]) && forall i, j :: 0 <= i && j == i + 1 && j < |dbs| ==> LogStep(dbs[i], dbs[j])
  }

  ghost predicate LogStep(db: Db, next: Db) {
    || (exists user, quota, changes :: Pushed(db, next, user, quota, changes))
    || (LogInv(next) && next.records == db.records && forall id :: LastSeq(db, id) <= LastSeq(next, id))
  }

  ghost predicate Pushed(db: Db, next: Db, user: UserId, quota: int, changes: seq<Change>) {
    LogInv(db) && ValidBatch(changes) && next == PushDb(db, user, quota, changes)
  }

  lemma {:induction false} LogStepExtends(db: Db, next: Db)
    requires LogInv(db) && LogStep(db, next)
    ensures LogInv(next) && Extends(db, next)
  {
    hide LogInv, PushDb;
    if user, quota, changes :| Pushed(db, next, user, quota, changes) {
      PushKeepsLog(db, user, quota, changes);
      PushExtends(db, user, quota, changes);
    }
  }

  /** The log invariant holds all along a run, and later tables extend earlier ones. */
  lemma {:induction false} RunExtends(dbs: seq<Db>, i: nat, j: nat)
    requires Ran(dbs) && i <= j < |dbs|
    ensures LogInv(dbs[i]) && LogInv(dbs[j]) && Extends(dbs[i], dbs[j])
    decreases j
  {
    hide LogInv, Extends, LogStep;
    if j == 0 {
      ExtendsItself(dbs[0]);
    } else {
      RunExtends(dbs, if i < j then i else i - 1, j - 1);
      assert LogStep(dbs[j - 1], dbs[j]);
      LogStepExtends(dbs[j - 1], dbs[j]);
      if i < j {
        ExtendsTransitive(dbs[i], dbs[j - 1], dbs[j]);
      } else {
        ExtendsItself(dbs[j]);
      }
    }
  }

  /** Any batch may be pushed next on any run. */
  lemma {:induction false} RunGoesOn(dbs: seq<Db>, user: UserId, quota: int, changes: seq<Change>)
    requires Ran(dbs) && ValidBatch(changes)
    ensures var last := dbs[|dbs| - 1];
            LogInv(last) &&
            var next := PushDb(last, user, quota, changes);
            Ran(dbs + [next]) && Pushed(last, next, user, quota, changes)
  {
    hide LogInv, Sound, Extends, PushDb;
    assert |dbs| > 0;
    hide Ran;
    RunExtends(dbs, |dbs| - 1, |dbs| - 1);
    var last := dbs[|dbs| - 1];
    LogSound(last);
    var next := PushDb(last, user, quota, changes);
    assert Pushed(last, next, user, quota, changes);
    RunAppend(dbs, next);
  }

  lemma {:induction false} RunAppend(dbs: seq<Db>, next: Db)
    requires Ran(dbs) && LogStep(dbs[|dbs| - 1], next)
    ensures Ran(dbs + [next])
  {
    hide LogInv, LogStep;
    var all := dbs + [next];
    forall i, j | 0 <= i && j == i + 1 && j < |all|
      ensures LogStep(all[i], all[j])
    {
      if j < |dbs| {
        assert LogStep(dbs[i], dbs[j]);
      }
    }
  }

  lemma {:induction false} ExtendsItself(db: Db)
    ensures Extends(db, db)
  {
  }

  /** A record holds a version at least this high. */
  ghost predicate Reached(rows: seq<Row>, recordId: RecordId, version: nat) {
    exists row :: row in rows && row.v.recordId == recordId && row.v.version >= version
  }

  lemma {:induction false} ReachedLater(db: Db, later: Db, recordId: RecordId, version: nat)
    requires Extends(db, later) && Reached(db.records, recordId, version)
    ensures Reached(later.records, recordId, version)
  {
    var row :| row in db.records && row.v.recordId == recordId && row.v.version >= version;
    if row !in later.records {
      assert Superseded(later.records, row, LastSeq(db, row.v.vaultId));
    }
  }

  /** A written version stays reached by the push that wrote it, even when that push purged it. */
  lemma {:induction false} WrittenReached(db: Db, user: UserId, quota: int, changes: seq<Change>, x: Version)
    requires LogInv(db) && ValidBatch(changes)
    requires x in PlanBatch(db, user, quota, changes)
    ensures Reached(PushDb(db, user, quota, changes).records, x.recordId, x.version)
  {
    hide LogInv, PushDb, PushWritten, PlanBatch, Sound;
    LogSound(db);
    var written := PushWritten(db, user, quota, changes);
    var w := FoundByChange(db, user, quota, changes, x);
    PushRows(db, user, quota, changes);
    if w !in PushDb(db, user, quota, changes).records {
      WrittenRows(db, user, quota, changes);
      SoundOrdered(PushInserted(db, user, quota, changes));
      OrderedSuffix(db.records, written);
      var t := TopPurge(written, w);
    }
  }

  lemma {:induction false} LogSound(db: Db)
    requires LogInv(db)
    ensures Sound(db)
  {
  }

  lemma {:induction false} SoundOrdered(db: Db)
    requires Sound(db)
    ensures Ordered(db.records)
  {
  }

  /** A planned version is above every version its record ever reached. */
  lemma {:induction false} PlannedAbove(db: Db, user: UserId, quota: int, changes: seq<Change>, y: Version, version: nat)
    requires LogInv(db) && ValidBatch(changes)
    requires y in PlanBatch(db, user, quota, changes) && Reached(db.records, y.recordId, version)
    ensures y.version > version
  {
    hide PlanBatch, Sound, PurgedLowest, BytesExact;
    PlanBatchFits(db, user, quota, changes);
    var versions := PlanBatch(db, user, quota, changes);
    var stored := VersionsOf(db.records);
    var i :| 0 <= i < |versions| && versions[i] == y;
    assert FitsAt(db.vaults, stored, versions, i);
    var row :| row in db.records && row.v.recordId == y.recordId && row.v.version >= version;
    var k :| 0 <= k < |db.records| && db.records[k] == row;
    assert (stored + versions[..i])[k] == row.v;
  }

  /** A version number of a record, once written, is never written again. */
  lemma {:induction false} NeverReused(dbs: seq<Db>, i: nat, user: UserId, quota: int, changes: seq<Change>, x: Version,
                                       j: nat, user2: UserId, quota2: int, again: seq<Change>, y: Version)
    requires Ran(dbs) && i < j < |dbs|
    requires Pushed(dbs[i], dbs[i + 1], user, quota, changes) && x in PlanBatch(dbs[i], user, quota, changes)
    requires ValidBatch(again) && y in PlanBatch(dbs[j], user2, quota2, again)
    requires y.recordId == x.recordId
    ensures y.version > x.version
  {
    hide LogInv, PlanBatch, PushDb, Extends, Reached, Ran;
    WrittenReached(dbs[i], user, quota, changes, x);
    RunExtends(dbs, i + 1, j);
    ReachedLater(dbs[i + 1], dbs[j], x.recordId, x.version);
    PlannedAbove(dbs[j], user2, quota2, again, y, x.version);
  }

  /** A change that was applied is not written by any later push it is sent in again. */
  lemma {:induction false} NotWrittenAgain(dbs: seq<Db>, i: nat, user: UserId, quota: int, changes: seq<Change>, n: nat, x: Version,
                                           j: nat, user2: UserId, quota2: int, again: seq<Change>, m: nat)
    requires Ran(dbs) && i < j < |dbs|
    requires Pushed(dbs[i], dbs[i + 1], user, quota, changes)
    requires x in PlanBatch(dbs[i], user, quota, changes)
    requires n < |changes| && changes[n].clientChangeId == x.clientChangeId
    requires ValidBatch(again) && m < |again| && again[m] == changes[n]
    ensures forall y :: y in PlanBatch(dbs[j], user2, quota2, again) ==> y.clientChangeId != x.clientChangeId
  {
    hide LogInv, PlanBatch, PushDb, Ran, Sound;
    LogSound(dbs[i]);
    RunExtends(dbs, j, j);
    LogSound(dbs[j]);
    var c := PlanCarries(dbs[i], user, quota, changes, x);
    assert c == n;
    forall y | y in PlanBatch(dbs[j], user2, quota2, again)
      ensures y.clientChangeId != x.clientChangeId
    {
      if y.clientChangeId == x.clientChangeId {
        var d := PlanCarries(dbs[j], user2, quota2, again, y);
        assert d == m;
        NeverReused(dbs, i, user, quota, changes, x, j, user2, quota2, again, y);
        assert false;
      }
    }
  }

  /**
   * Exactly once: a change that was applied is not written by any later push it is sent
   * in again. It is answered with a version stored under its id, or refused.
   */
  lemma {:induction false} ExactlyOnce(dbs: seq<Db>, i: nat, user: UserId, quota: int, changes: seq<Change>, n: nat, x: Version,
                                       j: nat, user2: UserId, quota2: int, again: seq<Change>, m: nat, results: seq<PushResult>)
    requires Ran(dbs) && i < j < |dbs|
    requires Pushed(dbs[i], dbs[i + 1], user, quota, changes)
    requires x in PlanBatch(dbs[i], user, quota, changes)
    requires n < |changes| && changes[n].clientChangeId == x.clientChangeId
    requires ValidBatch(again) && m < |again| && again[m] == changes[n]
    requires LogInv(dbs[j]) && AllAnswered(dbs[j], user2, quota2, again, results)
    ensures forall y :: y in PlanBatch(dbs[j], user2, quota2, again) ==> y.clientChangeId != x.clientChangeId
    ensures results[m].Refused? || exists row :: row in dbs[j].records && row.v.recordId == x.recordId && row.v.clientChangeId == x.clientChangeId
                                               && results[m] == Applied(x.clientChangeId, SerializeRecord(row))
  {
    assert |results| == |again|;
    hide LogInv, PlanBatch, PushDb, Ran, AllAnswered, Sound, SerializeRecord;
    LogSound(dbs[i]);
    LogSound(dbs[j]);
    var c := PlanCarries(dbs[i], user, quota, changes, x);
    NotWrittenAgain(dbs, i, user, quota, changes, n, x, j, user2, quota2, again, m);
    if results[m].Applied? {
      var row := AppliedFromLog(dbs[j], user2, quota2, again, results, m);
    }
  }

  /** A change nothing is written for is answered, if applied, with a row the log had. */
  lemma {:induction false} AppliedFromLog(db: Db, user: UserId, quota: int, changes: seq<Change>, results: seq<PushResult>, m: nat) returns (row: Row)
    requires Sound(db) && ValidBatch(changes) && AllAnswered(db, user, quota, changes, results)
    requires m < |changes| && results[m].Applied?
    requires forall y :: y in PlanBatch(db, user, quota, changes) ==> y.clientChangeId != changes[m].clientChangeId
    ensures row in db.records && row.v.recordId == changes[m].recordId && row.v.clientChangeId == changes[m].clientChangeId
    ensures results[m] == Applied(changes[m].clientChangeId, SerializeRecord(row))
  {
    hide Sound, JudgeBatch, OverQuotaIn, PushWritten, SerializeRecord, ChainsOf, Kept, PlanBatch;
    var chains := ChainsOf(changes);
    ChainsOfBatch(changes);
    BatchJudging(db, user, quota, changes);
    assert HasIndex(chains, m);
    var k, p :| 0 <= k < |chains| && 0 <= p < |chains[k].items| && chains[k].items[p].index == m;
    assert AnsweredAt(db, user, quota, changes, results, k, p);
    var judged := JudgeBatch(db, user, quota, changes);
    assert JudgedFor(db, user, chains[k], judged[k]) && Lists(changes, chains[k]);
    WrittenIds(db, user, quota, changes, changes[m]);
    row := StoredAnswer(db, user, chains[k], judged[k], p, OverQuotaIn(judged), PushWritten(db, user, quota, changes));
  }

  lemma {:induction false} WrittenIds(db: Db, user: UserId, quota: int, changes: seq<Change>, change: Change)
    requires Sound(db) && ValidBatch(changes)
    requires forall y :: y in PlanBatch(db, user, quota, changes) ==> y.clientChangeId != change.clientChangeId
    ensures forall row :: row in PushWritten(db, user, quota, changes) ==> row.v.clientChangeId != change.clientChangeId
  {
    hide Sound, PlanBatch, PushWritten;
    WrittenRows(db, user, quota, changes);
    var written := PushWritten(db, user, quota, changes);
    forall row | row in written
      ensures row.v in PlanBatch(db, user, quota, changes)
    {
      var i :| 0 <= i < |written| && written[i] == row;
      assert PlanBatch(db, user, quota, changes)[i] == row.v;
    }
  }

  lemma {:induction false} StoredAnswer(db: Db, user: UserId, chain: Chain<Indexed>, j: Judged, p: nat, overQuota: bool, written: seq<Row>) returns (row: Row)
    requires JudgedFor(db, user, chain, j) && p < |j.chain|
    requires forall w :: w in written ==> w.v.clientChangeId != j.chain[p].change.clientChangeId
    requires AnswerTo(j, p, overQuota, written).Applied?
    ensures row in db.records && row.v.recordId == j.chain[p].change.recordId && row.v.clientChangeId == j.chain[p].change.clientChangeId
    ensures AnswerTo(j, p, overQuota, written) == Applied(j.chain[p].change.clientChangeId, SerializeRecord(row))
  {
    hide SerializeRecord, WriteChain, Writable, Simulate, Head, Denied;
    assert j.outcomes[p].Stored?;
    row := j.outcomes[p].row;
    DecidedAt(db, user, j.chain, j.dbHead, p);
  }

  /**
   * The only way an id is written twice for a record: the client sends it again on a
   * newer base after a purge dropped the version it had written.
   */
  lemma {:induction false} AgainOnlyAbovePurge(dbs: seq<Db>, i: nat, user: UserId, quota: int, changes: seq<Change>, x: Version,
                                               j: nat, user2: UserId, quota2: int, again: seq<Change>, y: Version)
    requires Ran(dbs) && i < j < |dbs|
    requires Pushed(dbs[i], dbs[i + 1], user, quota, changes) && x in PlanBatch(dbs[i], user, quota, changes)
    requires ValidBatch(again) && y in PlanBatch(dbs[j], user2, quota2, again)
    requires y.recordId == x.recordId && y.clientChangeId == x.clientChangeId
    ensures exists t :: t in dbs[j].records && IsPurged(t.v) && t.v.recordId == x.recordId && x.version < t.v.version < y.version
  {
    hide LogInv, PlanBatch, PushDb, Extends, Ran;
    RunExtends(dbs, i, j);
    RunExtends(dbs, i + 1, j);
    LogSound(dbs[j]);
    var d := PlanCarries(dbs[j], user2, quota2, again, y);
    var t := PurgeOver(dbs[i], user, quota, changes, x, dbs[j]);
    assert Reached(dbs[j].records, y.recordId, t.v.version);
    PlannedAbove(dbs[j], user2, quota2, again, y, t.v.version);
  }

  /** A written version whose id the record no longer holds lies under a purge. */
  lemma {:induction false} PurgeOver(db: Db, user: UserId, quota: int, changes: seq<Change>, x: Version, later: Db) returns (t: Row)
    requires LogInv(db) && ValidBatch(changes) && x in PlanBatch(db, user, quota, changes)
    requires Extends(PushDb(db, user, quota, changes), later)
    requires StoredChange(later.records, x.recordId, x.clientChangeId).None?
    ensures t in later.records && IsPurged(t.v) && t.v.recordId == x.recordId && x.version < t.v.version
  {
    hide LogInv, PushDb, PushWritten, PlanBatch, Sound;
    LogSound(db);
    var after := PushDb(db, user, quota, changes);
    var written := PushWritten(db, user, quota, changes);
    var w := FoundByChange(db, user, quota, changes, x);
    PushRows(db, user, quota, changes);
    t := w;
    if w !in after.records {
      WrittenRows(db, user, quota, changes);
      SoundOrdered(PushInserted(db, user, quota, changes));
      OrderedSuffix(db.records, written);
      t := TopPurge(written, w);
    }
    if t !in later.records {
      var u :| u in later.records && IsPurged(u.v) && u.v.recordId == t.v.recordId && u.v.vaultId == t.v.vaultId
               && t.v.version < u.v.version && u.seqNo > LastSeq(after, t.v.vaultId);
      t := u;
    }
  }
}
