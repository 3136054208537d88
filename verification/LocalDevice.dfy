/**
 * The synced rows a device holds, its vault list and its pull cursors, and what one page
 * (`applySync`) and an acknowledged push do to them.
 */
module LocalDevice {
  import opened Prelude
  import opened Tables
  import opened PushLog
  import opened Sync

  /** The primary key of a device's record rows. */
  datatype Slot = Slot(recordId: RecordId, version: nat)

  datatype Device = Device(vaults: set<VaultId>, rows: map<Slot, Copy>, cursors: map<VaultId, nat>)

  function SlotOf(copy: Copy): Slot {
    Slot(copy.recordId, copy.version)
  }

  /** Insert rows, each replacing the one with its record and version. */
  function Upsert(rows: map<Slot, Copy>, copies: seq<Copy>): map<Slot, Copy> {
    if copies == [] then rows else
      var last := copies[|copies| - 1];
      Upsert(rows, copies[..|copies| - 1])[SlotOf(last) := last]
  }

  /** Whether the rows hold a purged tombstone of the record above a version. */
  predicate PurgedAbove(rows: map<Slot, Copy>, recordId: RecordId, version: nat) {
    exists s :: s in rows && s.recordId == recordId && version < s.version && rows[s].tombstoneKind == Some(Purged)
  }

  /** The rows without the history below the purged tombstones of these records. */
  function DropPurged(rows: map<Slot, Copy>, recordIds: set<RecordId>): map<Slot, Copy> {
    map s | s in rows && !(s.recordId in recordIds && PurgedAbove(rows, s.recordId, s.version)) :: rows[s]
  }

  function CopiesIn(records: seq<Copy>, vaults: set<VaultId>): seq<Copy> {
    if records == [] then [] else
      var last := records[|records| - 1];
      CopiesIn(records[..|records| - 1], vaults) + (if last.vaultId in vaults then [last] else [])
  }

  function RecordsOf(records: seq<Copy>): set<RecordId> {
    set i | 0 <= i < |records| :: records[i].recordId
  }

  function Restrict(cursors: map<VaultId, nat>, vaults: set<VaultId>): map<VaultId, nat> {
    map id | id in cursors && id in vaults :: cursors[id]
  }

  /** The device after a page: lost vaults gone, rows upserted, purged history dropped, cursors stored. */
  function Synced(device: Device, vaults: set<VaultId>, records: seq<Copy>, cursors: map<VaultId, nat>): Device {
    var lost := device.vaults - vaults;
    var kept := map s | s in device.rows && device.rows[s].vaultId !in lost :: device.rows[s];
    var pulled := CopiesIn(records, vaults);
    Device(vaults, DropPurged(Upsert(kept, pulled), RecordsOf(pulled)),
           (map id | id in device.cursors && id !in lost :: device.cursors[id]) + Restrict(cursors, vaults))
  }

  /** The device after the server stored pushed changes and returned its copies. */
  function Acked(device: Device, copies: seq<Copy>): Device {
    device.(rows := Upsert(device.rows, copies))
  }

  /** The newest purged tombstone of a record, if it has one. */
  function TopPurged(rows: map<Slot, Copy>, recordId: RecordId): (top: Option<nat>)
    ensures top.None? ==> forall s :: s in rows && s.recordId == recordId ==> rows[s].tombstoneKind != Some(Purged)
    ensures top.Some? ==> Slot(recordId, top.value) in rows && rows[Slot(recordId, top.value)].tombstoneKind == Some(Purged)
    ensures top.Some? ==> forall s :: s in rows && s.recordId == recordId && rows[s].tombstoneKind == Some(Purged) ==> s.version <= top.value
  {
    var purged := set s | s in rows && s.recordId == recordId && rows[s].tombstoneKind == Some(Purged) :: -(s.version as int);
    if purged == {} then
      assert forall s :: s in rows && s.recordId == recordId && rows[s].tombstoneKind == Some(Purged) ==> -(s.version as int) in purged;
      None
    else
      assert forall s :: s in rows && s.recordId == recordId && rows[s].tombstoneKind == Some(Purged) ==> -(s.version as int) in purged;
      Some(-Least(purged))
  }

  /** The device's tables, changed in place. */
  class LocalStore {
    var vaults: set<VaultId>
    var rows: map<Slot, Copy>
    var cursors: map<VaultId, nat>

    function State(): Device
      reads this
    {
      Device(vaults, rows, cursors)
    }

    method UpsertRecords(records: seq<Copy>)
      modifies this`rows
      ensures rows == Upsert(old(rows), records)
    {
      for n := 0 to |records|
        invariant rows == Upsert(old(rows), records[..n])
      {
        assert records[..n + 1][..n] == records[..n];
        rows := rows[SlotOf(records[n]) := records[n]];
      }
      assert records[..|records|] == records;
    }

    /** Drop the synced versions below a purged tombstone, record by record. */
    method DropPurgedHistory(recordIds: set<RecordId>)
      modifies this`rows
      ensures rows == DropPurged(old(rows), recordIds)
    {
      ghost var before := rows;
      var todo := recordIds;
      assert rows == DropPurged(before, {});
      while todo != {}
        invariant todo <= recordIds
        invariant rows == DropPurged(before, recordIds - todo)
        decreases todo
      {
        var id := Least(todo);
        var top := TopPurged(rows, id);
        DropOne(before, recordIds - todo, id, top);
        assert recordIds - (todo - {id}) == (recordIds - todo) + {id};
        if top.Some? {
          rows := map s | s in rows && !(s.recordId == id && s.version < top.value) :: rows[s];
        }
        todo := todo - {id};
      }
      assert recordIds - {} == recordIds;
    }

    /** Apply one page. */
    method ApplySync(current: set<VaultId>, records: seq<Copy>, next: map<VaultId, nat>)
      modifies this
      ensures State() == Synced(old(State()), current, records, next)
    {
      var lost := vaults - current;
      rows := map s | s in rows && rows[s].vaultId !in lost :: rows[s];
      cursors := map id | id in cursors && id !in lost :: cursors[id];
      vaults := current;
      var pulled := CopiesIn(records, current);
      UpsertRecords(pulled);
      DropPurgedHistory(RecordsOf(pulled));
      cursors := cursors + Restrict(next, current);
    }
  }

  /** Dropping below one record's newest purge is dropping that record's purged history. */
  lemma {:induction false} DropOne(before: map<Slot, Copy>, done: set<RecordId>, id: RecordId, top: Option<nat>)
    requires id !in done
    requires top == TopPurged(DropPurged(before, done), id)
    ensures var rows := DropPurged(before, done);
            DropPurged(before, done + {id}) ==
            if top.None? then rows else map s | s in rows && !(s.recordId == id && s.version < top.value) :: rows[s]
  {
    var rows := DropPurged(before, done);
    forall s | s in before && s.recordId == id
      ensures PurgedAbove(before, id, s.version) <==> top.Some? && s.version < top.value
    {
      if PurgedAbove(before, id, s.version) {
        var p :| p in before && p.recordId == id && s.version < p.version && before[p].tombstoneKind == Some(Purged);
        assert p in rows;
      }
      if top.Some? && s.version < top.value {
        assert Slot(id, top.value) in rows;
      }
    }
  }
}
