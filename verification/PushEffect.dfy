/**
 * What one push does to the tables: it keeps the log invariant, and it extends the log
 * (rows stay or a purge supersedes them; new rows come after every seq handed out before).
 */
module PushEffect {
  import opened Tables
  import opened PushRules
  import opened PushLog
  import opened PushPlan

  /** The tables with the batch's versions written, before purged histories go. */
  function PushInserted(db: Db, user: UserId, quota: int, changes: seq<Change>): Db
    requires Sound(db) && ValidBatch(changes)
  {
    PlanBatchFits(db, user, quota, changes);
    SoundInsertAll(db, PlanBatch(db, user, quota, changes));
    InsertAll(db, PlanBatch(db, user, quota, changes))
  }

  /** The rows the batch writes, in order. */
  function PushWritten(db: Db, user: UserId, quota: int, changes: seq<Change>): (rows: seq<Row>)
    requires Sound(db) && ValidBatch(changes)
    ensures |rows| == |PlanBatch(db, user, quota, changes)|
  {
    PushInserted(db, user, quota, changes).records[|db.records|..]
  }

  /** The tables after the push. */
  function PushDb(db: Db, user: UserId, quota: int, changes: seq<Change>): Db
    requires Sound(db) && ValidBatch(changes)
  {
    DropPurgedHistory(PushInserted(db, user, quota, changes), PushWritten(db, user, quota, changes))
  }

  /** A push moves a vault's counters and nothing else of it. */
  predicate OnlyCounters(before: Vault, after: Vault) {
    && before.lastSeq <= after.lastSeq
    && after == before.(lastSeq := after.lastSeq, usedBytes := after.usedBytes)
  }

  /** The written rows carry the planned versions and fresh seqs. */
  lemma {:induction false} WrittenRows(db: Db, user: UserId, quota: int, changes: seq<Change>)
    requires Sound(db) && ValidBatch(changes)
    ensures var versions := PlanBatch(db, user, quota, changes);
            var inserted := PushInserted(db, user, quota, changes);
            var written := PushWritten(db, user, quota, changes);
            && Sound(inserted)
            && inserted.records == db.records + written
            && (forall i :: 0 <= i < |written| ==> written[i].v == versions[i])
            && inserted.vaults.Keys == db.vaults.Keys
            && (forall row :: row in written ==> row.v.vaultId in db.vaults && row.seqNo > db.vaults[row.v.vaultId].lastSeq)
            && (forall id :: id in db.vaults ==> OnlyCounters(db.vaults[id], inserted.vaults[id]))
  {
    hide PlanBatch, Sound, FitsAll, VersionsOf, InsertAll, InVaults, ValidBatch;
    var versions := PlanBatch(db, user, quota, changes);
    PlanBatchFits(db, user, quota, changes);
    SoundInsertAll(db, versions);
    InsertKeepsRows(db, versions);
    FreshSeqs(db, versions);
    forall id | id in db.vaults
      ensures OnlyCounters(db.vaults[id], InsertAll(db, versions).vaults[id])
    {
      InsertKeepsVaults(db, versions, id);
    }
  }

  lemma {:induction false} FreshSeqs(db: Db, versions: seq<Version>)
    requires InVaults(db, versions)
    ensures forall row :: row in InsertAll(db, versions).records[|db.records|..] ==>
              row.v.vaultId in db.vaults && row.seqNo > db.vaults[row.v.vaultId].lastSeq
  {
    if versions != [] {
      var n := |versions| - 1;
      var before := InsertAll(db, versions[..n]);
      FreshSeqs(db, versions[..n]);
      InsertKeepsVaults(db, versions[..n], versions[n].vaultId);
      assert InsertAll(db, versions).records[|db.records|..] == before.records[|db.records|..] + [InsertAll(db, versions).records[|before.records|]];
    }
  }

  /** Every row of the record lies in the vault of a purge written for it. */
  lemma {:induction false} PurgesAtHome(db: Db, written: seq<Row>)
    requires Sound(db)
    requires forall p :: p in written ==> p in db.records
    ensures forall p :: p in written && IsPurged(p.v) ==>
              p.v.vaultId in db.vaults && forall row :: row in db.records && row.v.recordId == p.v.recordId ==> row.v.vaultId == p.v.vaultId
  {
    forall p | p in written && IsPurged(p.v)
      ensures p.v.vaultId in db.vaults && forall row :: row in db.records && row.v.recordId == p.v.recordId ==> row.v.vaultId == p.v.vaultId
    {
      assert Placed(db.vaults, p);
      forall row | row in db.records && row.v.recordId == p.v.recordId
        ensures row.v.vaultId == p.v.vaultId
      {
        OneVaultPerRecord(db.records, row, p);
      }
    }
  }

  /** The rows after the push: the old and the written ones no written purge is above. */
  lemma {:induction false} PushRows(db: Db, user: UserId, quota: int, changes: seq<Change>)
    requires LogInv(db) && ValidBatch(changes)
    ensures var after := PushDb(db, user, quota, changes);
            var written := PushWritten(db, user, quota, changes);
            && Sound(after) && BytesExact(after)
            && after.vaults.Keys == db.vaults.Keys
            && (forall row :: row in after.records <==> (row in db.records || row in written) && !DroppedBy(written, row))
            && (forall id :: id in db.vaults ==> OnlyCounters(db.vaults[id], after.vaults[id]))
  {
    WrittenRows(db, user, quota, changes);
    var inserted := PushInserted(db, user, quota, changes);
    var written := PushWritten(db, user, quota, changes);
    BytesInsertAll(db, PlanBatch(db, user, quota, changes));
    PurgesAtHome(inserted, written);
    DropEffect(inserted, written);
  }

  /** The log invariant survives every push. */
  lemma {:induction false} PushKeepsLog(db: Db, user: UserId, quota: int, changes: seq<Change>)
    requires LogInv(db) && ValidBatch(changes)
    ensures LogInv(PushDb(db, user, quota, changes))
  {
    PushRows(db, user, quota, changes);
    WrittenRows(db, user, quota, changes);
    var after := PushDb(db, user, quota, changes);
    var written := PushWritten(db, user, quota, changes);
    forall b | b in after.records && IsPurged(b.v)
      ensures IsLowest(after.records, b)
    {
      forall a | a in after.records && a.v.recordId == b.v.recordId
        ensures b.v.version <= a.v.version
      {
        if a.v.version < b.v.version {
          assert b in written ==> DroppedBy(written, a);
          assert b in db.records && a in written;
          OldBelowNew(db.records, written, b, a);
        }
      }
    }
  }

  /** A stored row comes before a written one of its record. */
  lemma {:induction false} OldBelowNew(stored: seq<Row>, written: seq<Row>, a: Row, b: Row)
    requires Ordered(stored + written) && a in stored && b in written
    ensures Precedes(a, b)
  {
    var i :| 0 <= i < |stored| && stored[i] == a;
    var j :| 0 <= j < |written| && written[j] == b;
    assert (stored + written)[i] == a && (stored + written)[|stored| + j] == b;
  }

  /** A purge above `row`, with a seq no reader of the older tables can have passed. */
  ghost predicate Superseded(rows: seq<Row>, row: Row, after: int) {
    exists t :: t in rows && IsPurged(t.v) && t.v.recordId == row.v.recordId && t.v.vaultId == row.v.vaultId
                && row.v.version < t.v.version && t.seqNo > after
  }

  function LastSeq(db: Db, id: VaultId): nat {
    if id in db.vaults then db.vaults[id].lastSeq else 0
  }

  /** How the log may change from one moment to a later one. */
  ghost predicate Extends(db: Db, later: Db) {
    && (forall id :: LastSeq(db, id) <= LastSeq(later, id))
    && (forall row :: row in db.records ==> row in later.records || Superseded(later.records, row, LastSeq(db, row.v.vaultId)))
    && (forall row :: row in later.records ==> row in db.records || row.seqNo > LastSeq(db, row.v.vaultId))
  }

  /** The newest purge of a dropped row's record is itself kept. */
  lemma {:induction false} TopPurge(written: seq<Row>, row: Row) returns (t: Row)
    requires Ordered(written) && DroppedBy(written, row)
    ensures t in written && IsPurged(t.v) && t.v.recordId == row.v.recordId && row.v.version < t.v.version
    ensures !DroppedBy(written, t)
  {
    var n := |written| - 1;
    var last := written[n];
    if IsPurged(last.v) && last.v.recordId == row.v.recordId && row.v.version < last.v.version {
      t := last;
      assert forall p :: p in written && p.v.recordId == t.v.recordId ==> p.v.version <= t.v.version;
    } else {
      var p :| p in written && IsPurged(p.v) && p.v.recordId == row.v.recordId && row.v.version < p.v.version;
      assert p in written[..n];
      t := TopPurge(written[..n], row);
      assert forall q :: q in written ==> q in written[..n] || q == last;
    }
  }

  lemma {:induction false} OrderedSuffix(a: seq<Row>, b: seq<Row>)
    requires Ordered(a + b)
    ensures Ordered(b)
  {
    forall i, j | 0 <= i < j < |b|
      ensures Precedes(b[i], b[j])
    {
      assert (a + b)[|a| + i] == b[i] && (a + b)[|a| + j] == b[j];
    }
  }

  /** A push extends the log: nothing disappears but under a purge a reader still has to meet. */
  lemma {:induction false} PushExtends(db: Db, user: UserId, quota: int, changes: seq<Change>)
    requires LogInv(db) && ValidBatch(changes)
    ensures Extends(db, PushDb(db, user, quota, changes))
  {
    PushRows(db, user, quota, changes);
    WrittenRows(db, user, quota, changes);
    var after := PushDb(db, user, quota, changes);
    var written := PushWritten(db, user, quota, changes);
    OrderedSuffix(db.records, written);
    forall row | row in db.records && row !in after.records
      ensures Superseded(after.records, row, LastSeq(db, row.v.vaultId))
    {
      var t := TopPurge(written, row);
      OldBelowNew(db.records, written, row, t);
      assert t in after.records;
    }
  }

  lemma {:induction false} ExtendsTransitive(a: Db, b: Db, c: Db)
    requires Extends(a, b) && Extends(b, c)
    ensures Extends(a, c)
  {
    forall row | row in a.records && row !in c.records
      ensures Superseded(c.records, row, LastSeq(a, row.v.vaultId))
    {
      if row !in b.records {
        var t :| t in b.records && IsPurged(t.v) && t.v.recordId == row.v.recordId && t.v.vaultId == row.v.vaultId
                 && row.v.version < t.v.version && t.seqNo > LastSeq(a, row.v.vaultId);
        if t !in c.records {
          var u :| u in c.records && IsPurged(u.v) && u.v.recordId == t.v.recordId && u.v.vaultId == t.v.vaultId
                   && t.v.version < u.v.version && u.seqNo > LastSeq(b, t.v.vaultId);
          assert LastSeq(a, u.v.vaultId) <= LastSeq(b, u.v.vaultId);
        }
      }
    }
  }
}
