/** The record log: its invariant, and that every push keeps it. */
module PushLog {
  import opened Prelude
  import opened Tables
  import opened PushRules

  /** What holds between a row and any row written after it. */
  ghost predicate Precedes(a: Row, b: Row) {
    && (a.v.vaultId == b.v.vaultId ==> a.seqNo < b.seqNo)
    && (a.v.recordId == b.v.recordId ==>
          && a.v.vaultId == b.v.vaultId
          && a.v.version < b.v.version
          && a.v.keyVersion <= b.v.keyVersion
          && a.v.clientChangeId != b.v.clientChangeId)
  }

  ghost predicate Ordered(rows: seq<Row>) {
    forall i, j :: 0 <= i < j < |rows| ==> Precedes(rows[i], rows[j])
  }

  /** A row agrees with its vault's counters; a purged tombstone holds no content. */
  ghost predicate Placed(vaults: map<VaultId, Vault>, row: Row) {
    && row.v.vaultId in vaults
    && 1 <= row.seqNo <= vaults[row.v.vaultId].lastSeq
    && 1 <= row.v.version
    && row.v.keyVersion <= vaults[row.v.vaultId].keyVersion
    && (IsPurged(row.v) ==> row.v.encryptedData == "" && row.v.encryptionNonce == "" && row.v.deleted)
  }

  /** No version of the row's record is below it. */
  ghost predicate IsLowest(rows: seq<Row>, row: Row) {
    forall a :: a in rows && a.v.recordId == row.v.recordId ==> row.v.version <= a.v.version
  }

  ghost predicate PurgedLowest(rows: seq<Row>) {
    forall row :: row in rows && IsPurged(row.v) ==> IsLowest(rows, row)
  }

  ghost predicate BytesExact(db: Db) {
    forall id :: id in db.vaults ==> db.vaults[id].usedBytes == StoredBytes(db.records, id)
  }

  ghost predicate Sound(db: Db) {
    && Ordered(db.records)
    && (forall row :: row in db.records ==> Placed(db.vaults, row))
  }

  /** The log invariant. */
  ghost predicate LogInv(db: Db) {
    && Sound(db)
    && PurgedLowest(db.records)
    && BytesExact(db)
  }

  // ---- Writing versions ----

  /** The versions of stored rows. */
  function VersionsOf(rows: seq<Row>): (versions: seq<Version>)
    ensures |versions| == |rows|
    ensures forall i :: 0 <= i < |rows| ==> versions[i] == rows[i].v
  {
    seq(|rows|, i requires 0 <= i < |rows| => rows[i].v)
  }

  /** The record's newest version, with the others below it in number and key. */
  ghost predicate IsHead(below: seq<Version>, recordId: RecordId, head: Option<Version>) {
    && (head.None? ==> forall y :: y in below ==> y.recordId != recordId)
    && (head.Some? ==>
          && head.value in below && head.value.recordId == recordId
          && forall y :: y in below && y.recordId == recordId ==>
               y.version <= head.value.version && y.keyVersion <= head.value.keyVersion && y.vaultId == head.value.vaultId)
  }

  function NumberOf(head: Option<Version>): nat {
    if head.None? then 0 else head.value.version
  }

  /** A version may come next in its record, on top of the versions below. */
  ghost predicate Fits(vaults: map<VaultId, Vault>, below: seq<Version>, x: Version) {
    && x.vaultId in vaults
    && x.keyVersion <= vaults[x.vaultId].keyVersion
    && (IsPurged(x) ==> x.encryptedData == "" && x.encryptionNonce == "" && x.deleted)
    && (exists head :: IsHead(below, x.recordId, head) && x.version == NumberOf(head) + 1)
    && (forall y :: y in below && y.recordId == x.recordId ==>
          && y.vaultId == x.vaultId
          && y.version < x.version
          && y.keyVersion <= x.keyVersion
          && y.clientChangeId != x.clientChangeId)
  }

  ghost predicate FitsAt(vaults: map<VaultId, Vault>, stored: seq<Version>, versions: seq<Version>, i: nat)
    requires i < |versions|
  {
    Fits(vaults, stored + versions[..i], versions[i])
  }

  /** Each version may come next on top of the stored ones and those before it. */
  ghost predicate FitsAll(vaults: map<VaultId, Vault>, stored: seq<Version>, versions: seq<Version>) {
    forall i :: 0 <= i < |versions| ==> FitsAt(vaults, stored, versions, i)
  }

  lemma {:induction false} FitsAllExtend(vaults: map<VaultId, Vault>, stored: seq<Version>, versions: seq<Version>, x: Version)
    requires FitsAll(vaults, stored, versions)
    requires Fits(vaults, stored + versions, x)
    ensures FitsAll(vaults, stored, versions + [x])
  {
    var all := versions + [x];
    forall i | 0 <= i < |all|
      ensures FitsAt(vaults, stored, all, i)
    {
      if i < |versions| {
        assert FitsAt(vaults, stored, versions, i);
        assert all[..i] == versions[..i];
      } else {
        assert all[..i] == versions;
      }
    }
  }

  lemma {:induction false} InsertKeepsVaults(db: Db, versions: seq<Version>, id: VaultId)
    requires InVaults(db, versions) && id in db.vaults
    ensures var after := InsertAll(db, versions);
            && after.vaults[id].lastSeq >= db.vaults[id].lastSeq
            && after.vaults[id] == db.vaults[id].(lastSeq := after.vaults[id].lastSeq, usedBytes := after.vaults[id].usedBytes)
  {
    if versions != [] {
      InsertKeepsVaults(db, versions[..|versions| - 1], id);
    }
  }

  lemma {:induction false} InsertKeepsRows(db: Db, versions: seq<Version>)
    requires InVaults(db, versions)
    ensures var after := InsertAll(db, versions);
            && db.records <= after.records
            && (forall i :: 0 <= i < |versions| ==> after.records[|db.records| + i].v == versions[i])
  {
    if versions != [] {
      InsertKeepsRows(db, versions[..|versions| - 1]);
    }
  }

  lemma {:induction false} InsertedVersions(db: Db, versions: seq<Version>)
    requires InVaults(db, versions)
    ensures VersionsOf(InsertAll(db, versions).records) == VersionsOf(db.records) + versions
  {
    InsertKeepsRows(db, versions);
    var after := InsertAll(db, versions);
    forall i | 0 <= i < |db.records|
      ensures after.records[i] == db.records[i]
    {
    }
  }

  lemma {:induction false} SoundInsert(db: Db, x: Version)
    requires Sound(db) && Fits(db.vaults, VersionsOf(db.records), x)
    ensures Sound(InsertOne(db, x))
  {
    var after := InsertOne(db, x);
    var n := |db.records|;
    forall i, j | 0 <= i < j < |after.records|
      ensures Precedes(after.records[i], after.records[j])
    {
      if j == n {
        assert db.records[i] in db.records;
        assert VersionsOf(db.records)[i] in VersionsOf(db.records);
      }
    }
    forall row | row in after.records
      ensures Placed(after.vaults, row)
    {
      if row in db.records {
        assert Placed(db.vaults, row);
      }
    }
  }

  lemma {:induction false} SoundInsertAll(db: Db, versions: seq<Version>)
    requires Sound(db) && FitsAll(db.vaults, VersionsOf(db.records), versions)
    ensures InVaults(db, versions) && Sound(InsertAll(db, versions))
  {
    if versions != [] {
      var n := |versions| - 1;
      var stored := VersionsOf(db.records);
      forall i | 0 <= i < n
        ensures FitsAt(db.vaults, stored, versions[..n], i)
      {
        assert FitsAt(db.vaults, stored, versions, i);
        assert versions[..n][..i] == versions[..i];
      }
      SoundInsertAll(db, versions[..n]);
      var before := InsertAll(db, versions[..n]);
      var x := versions[n];
      assert FitsAt(db.vaults, stored, versions, n);
      InsertKeepsVaults(db, versions[..n], x.vaultId);
      InsertedVersions(db, versions[..n]);
      assert Fits(before.vaults, VersionsOf(before.records), x);
      SoundInsert(before, x);
    }
  }

  lemma {:induction false} BytesInsertAll(db: Db, versions: seq<Version>)
    requires BytesExact(db) && InVaults(db, versions)
    ensures BytesExact(InsertAll(db, versions))
  {
    if versions != [] {
      var n := |versions| - 1;
      BytesInsertAll(db, versions[..n]);
      var before := InsertAll(db, versions[..n]);
      var after := InsertAll(db, versions);
      assert after.records[..|before.records|] == before.records;
    }
  }

  // ---- Dropping purged history ----

  lemma {:induction false} WithoutBelowMember(rows: seq<Row>, recordId: RecordId, version: nat, row: Row)
    ensures row in WithoutBelow(rows, recordId, version) <==> row in rows && !(row.v.recordId == recordId && row.v.version < version)
  {
    if rows != [] {
      var n := |rows| - 1;
      assert rows == rows[..n] + [rows[n]];
      WithoutBelowMember(rows[..n], recordId, version, row);
    }
  }

  lemma {:induction false} WithoutBelowOrdered(rows: seq<Row>, recordId: RecordId, version: nat)
    requires Ordered(rows)
    ensures Ordered(WithoutBelow(rows, recordId, version))
  {
    if rows != [] {
      var n := |rows| - 1;
      WithoutBelowOrdered(rows[..n], recordId, version);
      var kept := WithoutBelow(rows[..n], recordId, version);
      forall i | 0 <= i < |kept|
        ensures Precedes(kept[i], rows[n])
      {
        WithoutBelowMember(rows[..n], recordId, version, kept[i]);
      }
    }
  }

  lemma {:induction false} StoredBytesAppend(rows: seq<Row>, row: Row, id: VaultId)
    ensures StoredBytes(rows + [row], id) == StoredBytes(rows, id) + (if row.v.vaultId == id then PushChangeBytes(row.v.encryptedData) else 0)
  {
    assert (rows + [row])[..|rows|] == rows;
  }

  /** Dropping by record id frees bytes of that record's vault and of no other. */
  lemma {:induction false} WithoutBelowBytes(rows: seq<Row>, recordId: RecordId, version: nat, home: VaultId, id: VaultId)
    requires forall row :: row in rows && row.v.recordId == recordId ==> row.v.vaultId == home
    ensures StoredBytes(WithoutBelow(rows, recordId, version), id) ==
            StoredBytes(rows, id) - (if id == home then FreedBelow(rows, recordId, version) else 0)
  {
    if rows != [] {
      var n := |rows| - 1;
      WithoutBelowBytes(rows[..n], recordId, version, home, id);
      var kept := WithoutBelow(rows[..n], recordId, version);
      assert rows[n] in rows;
      StoredBytesAppend(rows[..n], rows[n], id);
      assert rows[..n] + [rows[n]] == rows;
      StoredBytesAppend(kept, rows[n], id);
      assert kept + [] == kept;
    }
  }

  /** Rows of one record lie in one vault. */
  lemma {:induction false} OneVaultPerRecord(rows: seq<Row>, a: Row, b: Row)
    requires Ordered(rows) && a in rows && b in rows && a.v.recordId == b.v.recordId
    ensures a.v.vaultId == b.v.vaultId
    ensures a.v.version == b.v.version ==> a == b
    ensures a.v.clientChangeId == b.v.clientChangeId ==> a == b
    ensures a.v.version < b.v.version ==> a.seqNo < b.seqNo && a.v.keyVersion <= b.v.keyVersion
  {
    var i :| 0 <= i < |rows| && rows[i] == a;
    var j :| 0 <= j < |rows| && rows[j] == b;
    assert i < j ==> Precedes(a, b);
    assert j < i ==> Precedes(b, a);
  }

  /** Whether some purged row of `written` drops `row`. */
  ghost predicate DroppedBy(written: seq<Row>, row: Row) {
    exists p :: p in written && IsPurged(p.v) && p.v.recordId == row.v.recordId && row.v.version < p.v.version
  }

  /** Dropping keeps order and bytes, and leaves exactly the rows no purge is above. */
  lemma {:induction false} DropEffect(db: Db, written: seq<Row>)
    requires Sound(db) && BytesExact(db)
    requires forall p :: p in written && IsPurged(p.v) ==>
               p.v.vaultId in db.vaults && forall row :: row in db.records && row.v.recordId == p.v.recordId ==> row.v.vaultId == p.v.vaultId
    ensures var after := DropPurgedHistory(db, written);
            && after.vaults.Keys == db.vaults.Keys
            && (forall id :: id in db.vaults ==> after.vaults[id] == db.vaults[id].(usedBytes := after.vaults[id].usedBytes))
            && Sound(after) && BytesExact(after)
            && (forall row :: row in after.records <==> row in db.records && !DroppedBy(written, row))
  {
    if written != [] {
      var n := |written| - 1;
      var p := written[n];
      assert written == written[..n] + [p];
      DropEffect(db, written[..n]);
      var before := DropPurgedHistory(db, written[..n]);
      var after := DropPurgedHistory(db, written);
      if IsPurged(p.v) {
        assert p in written;
        WithoutBelowOrdered(before.records, p.v.recordId, p.v.version);
        forall row
          ensures row in after.records <==> row in db.records && !DroppedBy(written, row)
        {
          WithoutBelowMember(before.records, p.v.recordId, p.v.version, row);
          assert DroppedBy(written, row) <==> DroppedBy(written[..n], row) || (p.v.recordId == row.v.recordId && row.v.version < p.v.version);
        }
        forall id | id in after.vaults
          ensures after.vaults[id].usedBytes == StoredBytes(after.records, id)
        {
          WithoutBelowBytes(before.records, p.v.recordId, p.v.version, p.v.vaultId, id);
        }
      } else {
        forall row
          ensures DroppedBy(written, row) <==> DroppedBy(written[..n], row)
        {
        }
      }
    }
  }
}
