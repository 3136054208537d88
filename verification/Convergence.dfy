/**
 * Convergence of one device with the server, over every interleaving of server steps
 * (pushes of anyone, and whatever else extends the log), per-vault pull reads, pages
 * applied or given up, and the device's own pushes with their answers applied or lost.
 */
module Convergence {
  import opened Prelude
  import opened Tables
  import opened Grouping
  import opened PushRules
  import opened PushLog
  import opened PushPlan
  import opened PushEffect
  import opened PushAnswers
  import opened PushTransaction
  import opened PushContent
  import opened Sync
  import opened LocalDevice

  /** A page being read: the vaults in scan order, how many were read, the rows so far, and the tables each read saw. */
  datatype Pull = Pull(ids: seq<VaultId>, limit: nat, records: seq<Row>, hasMore: bool, readAt: seq<Db>)

  datatype Phase = Idle | Pulling(pull: Pull) | Acking(copies: seq<Copy>)

  datatype World = World(db: Db, device: Device, phase: Phase)

  // ---- Steps ----

  /** The server moves on: the log is extended, by any number of transactions. */
  ghost predicate ServerMoves(db: Db, later: Db) {
    LogInv(later) && Extends(db, later)
  }

  ghost predicate ServerStep(w: World, next: World) {
    ServerMoves(w.db, next.db) && next == w.(db := next.db)
  }

  ghost predicate StartPull(w: World, next: World) {
    && w.phase.Idle? && next.phase.Pulling?
    && Distinct(next.phase.pull.ids) && next.phase.pull.limit >= 1
    && next == w.(phase := Pulling(Pull(next.phase.pull.ids, next.phase.pull.limit, [], false, [])))
  }

  /** The page with one more vault read, from the tables as they are now. */
  function ReadNext(pull: Pull, db: Db, cursors: map<VaultId, nat>): Pull
    requires |pull.readAt| < |pull.ids| && |pull.records| <= pull.limit
  {
    var id := pull.ids[|pull.readAt|];
    var room := pull.limit - |pull.records|;
    var past := Past(db.records, id, CursorOf(cursors, id));
    pull.(records := pull.records + Take(past, room), hasMore := |past| > room, readAt := pull.readAt + [db])
  }

  ghost predicate ReadVault(w: World, next: World) {
    && w.phase.Pulling?
    && var pull := w.phase.pull;
    && |pull.readAt| < |pull.ids| && !pull.hasMore && |pull.records| <= pull.limit
    && next == w.(phase := Pulling(ReadNext(pull, w.db, w.device.cursors)))
  }

  function PulledCursors(pull: Pull, cursors: map<VaultId, nat>): map<VaultId, nat> {
    NextCursors(StartCursors(pull.ids, cursors), pull.records)
  }

  function Copies(rows: seq<Row>): (copies: seq<Copy>)
    ensures |copies| == |rows|
    ensures forall i :: 0 <= i < |rows| ==> copies[i] == SerializeRecord(rows[i])
  {
    seq(|rows|, i requires 0 <= i < |rows| => SerializeRecord(rows[i]))
  }

  function IdSet(ids: seq<VaultId>): set<VaultId> {
    set id | id in ids
  }

  /** The device after a page that was read. */
  function AfterPage(device: Device, pull: Pull): Device {
    Synced(device, IdSet(pull.ids), Copies(pull.records), PulledCursors(pull, device.cursors))
  }

  ghost predicate PageRead(pull: Pull) {
    pull.hasMore || |pull.readAt| == |pull.ids|
  }

  ghost predicate ApplyPage(w: World, next: World) {
    && w.phase.Pulling? && PageRead(w.phase.pull)
    && next == w.(device := AfterPage(w.device, w.phase.pull), phase := Idle)
  }

  /** The device pushes: the server's transaction commits, its answers are on their way. */
  ghost predicate DevicePush(w: World, next: World, user: UserId, quota: int, changes: seq<Change>) {
    && w.phase.Idle? && next.phase.Acking?
    && LogInv(w.db) && ValidBatch(changes)
    && next == w.(db := PushDb(w.db, user, quota, changes), phase := Acking(next.phase.copies))
    && (exists results :: AllAnswered(w.db, user, quota, changes, results) && next.phase.copies == AppliedCopies(results))
  }

  /** The copies of the applied changes of an answer, in order. */
  function AppliedCopies(results: seq<PushResult>): seq<Copy> {
    if results == [] then [] else
      var last := results[|results| - 1];
      AppliedCopies(results[..|results| - 1]) + (if last.Applied? then [last.record] else [])
  }

  /** The next acknowledged change is stored; the round may stop after any of them. */
  ghost predicate AckStep(w: World, next: World) {
    && w.phase.Acking? && w.phase.copies != []
    && next == w.(device := Acked(w.device, w.phase.copies[..1]), phase := Acking(w.phase.copies[1..]))
  }

  /** A push is dealt with, a pull fails, or an answer is lost: the device keeps what it has. */
  ghost predicate GiveUp(w: World, next: World) {
    next == w.(phase := Idle)
  }

  ghost predicate Step(w: World, next: World) {
    || ServerStep(w, next)
    || StartPull(w, next)
    || ReadVault(w, next)
    || ApplyPage(w, next)
    || (exists user, quota, changes :: DevicePush(w, next, user, quota, changes))
    || AckStep(w, next)
    || GiveUp(w, next)
  }

  // ---- The invariant ----

  /** A copy the server still has, or one whose purge waits past `cursor`. */
  ghost predicate Covered(db: Db, copy: Copy, cursor: nat) {
    || (exists row :: row in db.records && SerializeRecord(row) == copy)
    || (exists t :: t in db.records && IsPurged(t.v) && t.v.recordId == copy.recordId && t.v.vaultId == copy.vaultId
                    && copy.version < t.v.version && t.seqNo > cursor)
  }

  /** Everything at or below the cursors has been delivered. */
  ghost predicate Delivered(db: Db, device: Device) {
    forall row :: row in db.records && row.seqNo <= CursorOf(device.cursors, row.v.vaultId) ==>
      var s := Slot(row.v.recordId, row.v.version);
      s in device.rows && device.rows[s] == SerializeRecord(row)
  }

  /** Everything the device holds is on the server, or its purge waits past the cursor. */
  ghost predicate Tracked(db: Db, device: Device) {
    forall s :: s in device.rows ==>
      s == SlotOf(device.rows[s]) && Covered(db, device.rows[s], CursorOf(device.cursors, device.rows[s].vaultId))
  }

  ghost predicate CursorsReached(db: Db, cursors: map<VaultId, nat>) {
    forall id :: CursorOf(cursors, id) <= LastSeq(db, id)
  }

  ghost predicate InSync(db: Db, device: Device) {
    Delivered(db, device) && Tracked(db, device) && CursorsReached(db, device.cursors)
  }

  predicate Between(cursors: map<VaultId, nat>, next: map<VaultId, nat>, row: Row) {
    CursorOf(cursors, row.v.vaultId) < row.seqNo <= CursorOf(next, row.v.vaultId)
  }

  /** The same for the rows of a page on its way, between the device's cursors and the page's. */
  ghost predicate PageSound(db: Db, cursors: map<VaultId, nat>, pull: Pull) {
    var next := PulledCursors(pull, cursors);
    && |pull.readAt| <= |pull.ids| && Distinct(pull.ids) && |pull.records| <= pull.limit
    && (forall g :: g in pull.records ==> g.v.vaultId in pull.ids[..|pull.readAt|] && Covered(db, SerializeRecord(g), CursorOf(next, g.v.vaultId)))
    && (forall row :: row in db.records && row.v.vaultId in pull.ids && Between(cursors, next, row) ==> row in pull.records)
    && CursorsReached(db, next)
  }

  ghost predicate AcksSound(db: Db, cursors: map<VaultId, nat>, copies: seq<Copy>) {
    forall copy :: copy in copies ==> Covered(db, copy, CursorOf(cursors, copy.vaultId))
  }

  ghost predicate Inv(w: World) {
    && LogInv(w.db)
    && InSync(w.db, w.device)
    && (w.phase.Pulling? ==> PageSound(w.db, w.device.cursors, w.phase.pull))
    && (w.phase.Acking? ==> AcksSound(w.db, w.device.cursors, w.phase.copies))
  }

  // ---- Server steps ----

  lemma {:induction false} CoveredLater(db: Db, later: Db, copy: Copy, cursor: nat)
    requires Extends(db, later) && cursor <= LastSeq(db, copy.vaultId)
    requires Covered(db, copy, cursor)
    ensures Covered(later, copy, cursor)
  {
    if row :| row in db.records && SerializeRecord(row) == copy && row !in later.records {
      assert Superseded(later.records, row, LastSeq(db, row.v.vaultId));
    } else if !(exists row :: row in db.records && SerializeRecord(row) == copy) {
      var t :| t in db.records && IsPurged(t.v) && t.v.recordId == copy.recordId && t.v.vaultId == copy.vaultId
               && copy.version < t.v.version && t.seqNo > cursor;
      if t !in later.records {
        assert Superseded(later.records, t, LastSeq(db, t.v.vaultId));
      }
    }
  }

  lemma {:induction false} InSyncLater(db: Db, later: Db, device: Device)
    requires Extends(db, later) && InSync(db, device)
    ensures InSync(later, device)
  {
    forall s | s in device.rows
      ensures Covered(later, device.rows[s], CursorOf(device.cursors, device.rows[s].vaultId))
    {
      CoveredLater(db, later, device.rows[s], CursorOf(device.cursors, device.rows[s].vaultId));
    }
  }

  lemma {:induction false} PageSoundLater(db: Db, later: Db, cursors: map<VaultId, nat>, pull: Pull)
    requires Extends(db, later) && PageSound(db, cursors, pull)
    ensures PageSound(later, cursors, pull)
  {
    var next := PulledCursors(pull, cursors);
    forall g | g in pull.records
      ensures Covered(later, SerializeRecord(g), CursorOf(next, g.v.vaultId))
    {
      CoveredLater(db, later, SerializeRecord(g), CursorOf(next, g.v.vaultId));
    }
  }

  lemma {:induction false} ServerKeeps(w: World, next: World)
    requires Inv(w) && ServerStep(w, next)
    ensures Inv(next)
  {
    InSyncLater(w.db, next.db, w.device);
    match w.phase
    case Idle =>
    case Pulling(pull) => PageSoundLater(w.db, next.db, w.device.cursors, pull);
    case Acking(copies) =>
      forall copy | copy in copies
        ensures Covered(next.db, copy, CursorOf(w.device.cursors, copy.vaultId))
      {
        CoveredLater(w.db, next.db, copy, CursorOf(w.device.cursors, copy.vaultId));
      }
  }

  // ---- Reading ----

  lemma {:induction false} StartKeeps(w: World, next: World)
    requires Inv(w) && StartPull(w, next)
    ensures Inv(next)
  {
  }

  /** What is taken of a vault is an increasing run of its rows past the cursor. */
  lemma {:induction false} TakenRun(rows: seq<Row>, id: VaultId, cursor: nat, room: nat)
    requires Ordered(rows)
    ensures var run := Take(Past(rows, id, cursor), room);
            && (forall row :: row in run ==> row in rows && row.v.vaultId == id && row.seqNo > cursor)
            && (forall i, j :: 0 <= i < j < |run| ==> run[i].seqNo < run[j].seqNo)
  {
    hide Ordered;
    var past := Past(rows, id, cursor);
    PastInSeqOrder(rows, id, cursor);
    forall row | row in Take(past, room)
      ensures row in rows && row.v.vaultId == id && row.seqNo > cursor
    {
      assert row in past;
      PastMember(rows, id, cursor, row);
    }
  }

  /** A run of one vault's rows after the rows of others moves that vault's cursor only. */
  lemma {:induction false} RunCursors(start: map<VaultId, nat>, records: seq<Row>, part: seq<Row>, id: VaultId)
    requires forall g :: g in records ==> g.v.vaultId != id
    requires forall row :: row in part ==> row.v.vaultId == id && row.seqNo > CursorOf(start, id)
    requires forall i, j :: 0 <= i < j < |part| ==> part[i].seqNo < part[j].seqNo
    ensures var before := NextCursors(start, records);
            var after := NextCursors(start, records + part);
            && (forall other :: other != id ==> CursorOf(after, other) == CursorOf(before, other))
            && CursorOf(before, id) == CursorOf(start, id)
            && CursorOf(after, id) == (if part == [] then CursorOf(start, id) else part[|part| - 1].seqNo)
  {
    hide NextCursors, CursorOf;
    var before := NextCursors(start, records);
    CursorsAppend(start, records, part);
    CursorsElsewhere(start, records, id);
    if part == [] {
      assert records + part == records;
    } else {
      CursorsOfRun(before, part, id);
    }
    forall other | other != id
      ensures CursorOf(NextCursors(before, part), other) == CursorOf(before, other)
    {
      CursorsElsewhere(before, part, other);
    }
  }

  lemma {:induction false} TakenCursors(start: map<VaultId, nat>, records: seq<Row>, rows: seq<Row>, id: VaultId, cursor: nat, room: nat)
    requires Ordered(rows) && CursorOf(start, id) == cursor
    requires forall g :: g in records ==> g.v.vaultId != id
    ensures var part := Take(Past(rows, id, cursor), room);
            var before := NextCursors(start, records);
            var after := NextCursors(start, records + part);
            && (forall other :: other != id ==> CursorOf(after, other) == CursorOf(before, other))
            && CursorOf(before, id) == cursor
            && CursorOf(after, id) == (if part == [] then cursor else part[|part| - 1].seqNo)
  {
    hide *;
    TakenRun(rows, id, cursor, room);
    RunCursors(start, records, Take(Past(rows, id, cursor), room), id);
  }

  lemma {:induction false} PulledAre(db: Db, cursors: map<VaultId, nat>, pull: Pull)
    requires |pull.records| <= pull.limit && |pull.readAt| < |pull.ids|
    ensures var id := pull.ids[|pull.readAt|];
            var part := Take(Past(db.records, id, CursorOf(cursors, id)), pull.limit - |pull.records|);
            var start := StartCursors(pull.ids, cursors);
            && PulledCursors(pull, cursors) == NextCursors(start, pull.records)
            && PulledCursors(ReadNext(pull, db, cursors), cursors) == NextCursors(start, pull.records + part)
  {
    hide Past, CursorOf, Take, StartCursors, NextCursors;
  }

  /** No row of the page is from the vault to read next. */
  lemma {:induction false} NotReadYet(db: Db, cursors: map<VaultId, nat>, pull: Pull)
    requires PageSound(db, cursors, pull) && |pull.readAt| < |pull.ids|
    ensures forall g :: g in pull.records ==> g.v.vaultId != pull.ids[|pull.readAt|]
  {
    hide Covered, PulledCursors;
  }

  /** One more vault read moves that vault's cursor to its last row taken, and no other. */
  lemma {:induction false} ReadCursors(db: Db, cursors: map<VaultId, nat>, pull: Pull)
    requires Ordered(db.records) && |pull.records| <= pull.limit
    requires |pull.readAt| < |pull.ids|
    requires forall g :: g in pull.records ==> g.v.vaultId != pull.ids[|pull.readAt|]
    ensures var id := pull.ids[|pull.readAt|];
            var part := Take(Past(db.records, id, CursorOf(cursors, id)), pull.limit - |pull.records|);
            var before := PulledCursors(pull, cursors);
            var after := PulledCursors(ReadNext(pull, db, cursors), cursors);
            && (forall other :: other != id ==> CursorOf(after, other) == CursorOf(before, other))
            && CursorOf(before, id) == CursorOf(cursors, id)
            && CursorOf(after, id) == (if part == [] then CursorOf(cursors, id) else part[|part| - 1].seqNo)
  {
    var id := pull.ids[|pull.readAt|];
    var start := StartCursors(pull.ids, cursors);
    assert CursorOf(start, id) == CursorOf(cursors, id);
    hide *;
    TakenCursors(start, pull.records, db.records, id, CursorOf(cursors, id), pull.limit - |pull.records|);
    PulledAre(db, cursors, pull);
  }

  /** What is taken of a vault is everything up to the last row taken. */
  lemma {:induction false} TakenIsAll(db: Db, id: VaultId, cursor: nat, room: nat, row: Row)
    requires LogInv(db)
    requires row in db.records && row.v.vaultId == id
    requires var part := Take(Past(db.records, id, cursor), room); part != [] && cursor < row.seqNo <= part[|part| - 1].seqNo
    ensures row in Take(Past(db.records, id, cursor), room)
  {
    var past := Past(db.records, id, cursor);
    var part := Take(past, room);
    PastMember(db.records, id, cursor, row);
    PastInSeqOrder(db.records, id, cursor);
    var i :| 0 <= i < |past| && past[i] == row;
    assert part == past[..|part|];
    assert i < |part|;
    assert part[i] == row;
  }

  /** Every row of the page, the new part included, is from a vault read and covered by the server. */
  lemma {:induction false} ReadCovered(db: Db, cursors: map<VaultId, nat>, pull: Pull, part: seq<Row>)
    requires PageSound(db, cursors, pull) && |pull.readAt| < |pull.ids|
    requires var id := pull.ids[|pull.readAt|];
             var after := PulledCursors(ReadNext(pull, db, cursors), cursors);
             && part == Take(Past(db.records, id, CursorOf(cursors, id)), pull.limit - |pull.records|)
             && (forall row :: row in part ==> row in db.records && row.v.vaultId == id)
             && (forall g :: g in pull.records ==> g.v.vaultId != id)
             && (forall other :: other != id ==> CursorOf(after, other) == CursorOf(PulledCursors(pull, cursors), other))
    ensures var read := ReadNext(pull, db, cursors);
            var after := PulledCursors(read, cursors);
            forall g :: g in read.records ==> g.v.vaultId in read.ids[..|read.readAt|] && Covered(db, SerializeRecord(g), CursorOf(after, g.v.vaultId))
  {
    hide PulledCursors, Past, CursorOf, Covered, Take, SerializeRecord;
    var id := pull.ids[|pull.readAt|];
    var read := ReadNext(pull, db, cursors);
    var after := PulledCursors(read, cursors);
    assert read.ids[..|read.readAt|] == pull.ids[..|pull.readAt|] + [id];
    forall g | g in read.records
      ensures g.v.vaultId in read.ids[..|read.readAt|] && Covered(db, SerializeRecord(g), CursorOf(after, g.v.vaultId))
    {
      if g in part {
        StoredIsCovered(db, g, CursorOf(after, g.v.vaultId));
      } else {
        assert g in pull.records && g.v.vaultId != id;
      }
    }
  }

  /** Every row between the cursors is on the page. */
  lemma {:induction false} ReadComplete(db: Db, cursors: map<VaultId, nat>, pull: Pull, part: seq<Row>)
    requires LogInv(db) && PageSound(db, cursors, pull) && |pull.readAt| < |pull.ids|
    requires var id := pull.ids[|pull.readAt|];
             var after := PulledCursors(ReadNext(pull, db, cursors), cursors);
             && part == Take(Past(db.records, id, CursorOf(cursors, id)), pull.limit - |pull.records|)
             && (forall other :: other != id ==> CursorOf(after, other) == CursorOf(PulledCursors(pull, cursors), other))
             && CursorOf(after, id) == (if part == [] then CursorOf(cursors, id) else part[|part| - 1].seqNo)
    ensures var read := ReadNext(pull, db, cursors);
            forall row :: row in db.records && row.v.vaultId in read.ids && Between(cursors, PulledCursors(read, cursors), row) ==> row in read.records
  {
    hide LogInv, PulledCursors, Past, CursorOf, Covered, Take;
    var id := pull.ids[|pull.readAt|];
    var read := ReadNext(pull, db, cursors);
    forall row | row in db.records && row.v.vaultId in read.ids && Between(cursors, PulledCursors(read, cursors), row)
      ensures row in read.records
    {
      if row.v.vaultId == id {
        TakenIsAll(db, id, CursorOf(cursors, id), pull.limit - |pull.records|, row);
      }
    }
  }

  lemma {:induction false} ReadSound(db: Db, cursors: map<VaultId, nat>, pull: Pull)
    requires LogInv(db) && PageSound(db, cursors, pull)
    requires |pull.readAt| < |pull.ids|
    ensures PageSound(db, cursors, ReadNext(pull, db, cursors))
  {
    hide Ordered, PulledCursors, Past, CursorOf, PurgedLowest, BytesExact, Covered, Take, Placed;
    var id := pull.ids[|pull.readAt|];
    var room := pull.limit - |pull.records|;
    var part := Take(Past(db.records, id, CursorOf(cursors, id)), room);
    NotReadYet(db, cursors, pull);
    ReadCursors(db, cursors, pull);
    TakenRun(db.records, id, CursorOf(cursors, id), room);
    ReadCovered(db, cursors, pull, part);
    ReadComplete(db, cursors, pull, part);
    LastTakenReached(db, part, id);
  }

  lemma {:induction false} StoredIsCovered(db: Db, row: Row, cursor: nat)
    requires row in db.records
    ensures Covered(db, SerializeRecord(row), cursor)
  {
  }

  lemma {:induction false} LastTakenReached(db: Db, part: seq<Row>, id: VaultId)
    requires Sound(db)
    requires forall row :: row in part ==> row in db.records && row.v.vaultId == id
    ensures part != [] ==> part[|part| - 1].seqNo <= LastSeq(db, id)
  {
    if part != [] {
      assert part[|part| - 1] in part;
      assert Placed(db.vaults, part[|part| - 1]);
    }
  }

  lemma {:induction false} ReadKeeps(w: World, next: World)
    requires Inv(w) && ReadVault(w, next)
    ensures Inv(next)
  {
    hide LogInv, PageSound, InSync;
    ReadSound(w.db, w.device.cursors, w.phase.pull);
  }

  // ---- Applying a page ----

  /** No row the server has is stale against a covered copy: same slot, same row. */
  lemma {:induction false} CoveredSlot(db: Db, copy: Copy, cursor: nat, row: Row)
    requires LogInv(db) && Covered(db, copy, cursor)
    requires row in db.records && row.v.recordId == copy.recordId
    ensures row.v.vaultId == copy.vaultId
    ensures row.v.version == copy.version ==> SerializeRecord(row) == copy
    ensures copy.tombstoneKind == Some(Purged) ==> copy.version <= row.v.version
  {
    if other :| other in db.records && SerializeRecord(other) == copy {
      OneVaultPerRecord(db.records, row, other);
    } else {
      var t :| t in db.records && IsPurged(t.v) && t.v.recordId == copy.recordId && t.v.vaultId == copy.vaultId
               && copy.version < t.v.version && t.seqNo > cursor;
      OneVaultPerRecord(db.records, row, t);
      assert t.v.version <= row.v.version;
    }
  }

  /** An upserted slot holds one of the copies for it, any other what it held. */
  lemma {:induction false} UpsertSlot(rows: map<Slot, Copy>, copies: seq<Copy>, s: Slot)
    ensures var after := Upsert(rows, copies);
            && (s in after ==> (after[s] in copies && SlotOf(after[s]) == s) || (s in rows && after[s] == rows[s]))
            && (s in rows ==> s in after)
            && (forall copy :: copy in copies && SlotOf(copy) == s ==> s in after && after[s] in copies && SlotOf(after[s]) == s)
  {
    if copies != [] {
      var n := |copies| - 1;
      assert copies == copies[..n] + [copies[n]];
      UpsertSlot(rows, copies[..n], s);
    }
  }

  lemma {:induction false} CopiesInAll(records: seq<Copy>, vaults: set<VaultId>)
    requires forall copy :: copy in records ==> copy.vaultId in vaults
    ensures CopiesIn(records, vaults) == records
  {
    if records != [] {
      var n := |records| - 1;
      assert records[n] in records;
      CopiesInAll(records[..n], vaults);
    }
  }

  lemma {:induction false} NextKeys(cursors: map<VaultId, nat>, page: seq<Row>)
    ensures forall id :: id in NextCursors(cursors, page) ==> id in cursors || exists g :: g in page && g.v.vaultId == id
    ensures cursors.Keys <= NextCursors(cursors, page).Keys
  {
    if page != [] {
      var n := |page| - 1;
      NextKeys(cursors, page[..n]);
      assert page == page[..n] + [page[n]];
    }
  }

  /** The device's cursors after a page: the page's for its vaults, none for the lost ones. */
  lemma {:induction false} CursorsAfter(device: Device, pull: Pull, id: VaultId)
    requires forall g :: g in pull.records ==> g.v.vaultId in pull.ids
    ensures CursorOf(AfterPage(device, pull).cursors, id) ==
            if id in pull.ids then CursorOf(PulledCursors(pull, device.cursors), id)
            else if id in device.vaults then 0 else CursorOf(device.cursors, id)
  {
    NextKeys(StartCursors(pull.ids, device.cursors), pull.records);
  }

  /** The device's rows once a page's rows are upserted, before purged history goes. */
  function Merged(device: Device, pull: Pull): map<Slot, Copy> {
    var lost := device.vaults - IdSet(pull.ids);
    Upsert(map s | s in device.rows && device.rows[s].vaultId !in lost :: device.rows[s], Copies(pull.records))
  }

  lemma {:induction false} RowsAfter(device: Device, pull: Pull)
    requires forall g :: g in pull.records ==> g.v.vaultId in pull.ids
    ensures AfterPage(device, pull).rows == DropPurged(Merged(device, pull), RecordsOf(Copies(pull.records)))
  {
    hide DropPurged, Upsert, CopiesIn;
    CopiesInAll(Copies(pull.records), IdSet(pull.ids));
  }

  /** A merged row came with the page, or the device held it in a vault it keeps. */
  lemma {:induction false} MergedFrom(device: Device, pull: Pull, s: Slot) returns (fromPage: bool, g: Option<Row>)
    requires s in Merged(device, pull)
    ensures fromPage ==> g.Some? && g.value in pull.records && Merged(device, pull)[s] == SerializeRecord(g.value) && SlotOf(Merged(device, pull)[s]) == s
    ensures !fromPage ==> s in device.rows && Merged(device, pull)[s] == device.rows[s]
                          && (device.rows[s].vaultId in device.vaults ==> device.rows[s].vaultId in pull.ids)
  {
    var lost := device.vaults - IdSet(pull.ids);
    var kept := map s | s in device.rows && device.rows[s].vaultId !in lost :: device.rows[s];
    UpsertSlot(kept, Copies(pull.records), s);
    if Merged(device, pull)[s] in Copies(pull.records) && SlotOf(Merged(device, pull)[s]) == s {
      var i :| 0 <= i < |pull.records| && Copies(pull.records)[i] == Merged(device, pull)[s];
      fromPage, g := true, Some(pull.records[i]);
    } else {
      fromPage, g := false, None;
    }
  }

  lemma {:induction false} CoveredLower(db: Db, copy: Copy, high: nat, low: nat)
    requires Covered(db, copy, high) && low <= high
    ensures Covered(db, copy, low)
  {
  }

  lemma {:induction false} MergedCovered(db: Db, device: Device, pull: Pull, s: Slot)
    requires InSync(db, device) && PageSound(db, device.cursors, pull) && s in Merged(device, pull)
    ensures SlotOf(Merged(device, pull)[s]) == s && Covered(db, Merged(device, pull)[s], 0)
  {
    hide Merged, PulledCursors, Delivered, Covered;
    var fromPage, g := MergedFrom(device, pull, s);
    if fromPage {
      CoveredLower(db, SerializeRecord(g.value), CursorOf(PulledCursors(pull, device.cursors), g.value.v.vaultId), 0);
    } else {
      CoveredLower(db, device.rows[s], CursorOf(device.cursors, device.rows[s].vaultId), 0);
    }
  }

  /** A server row whose slot is among the merged rows is there as it is, and stays. */
  lemma {:induction false} MergedRowStays(db: Db, device: Device, pull: Pull, row: Row)
    requires LogInv(db) && InSync(db, device) && PageSound(db, device.cursors, pull)
    requires row in db.records && Slot(row.v.recordId, row.v.version) in Merged(device, pull)
    ensures Merged(device, pull)[Slot(row.v.recordId, row.v.version)] == SerializeRecord(row)
    ensures !PurgedAbove(Merged(device, pull), row.v.recordId, row.v.version)
  {
    hide LogInv, InSync, PageSound, Merged, Covered;
    var merged := Merged(device, pull);
    var s := Slot(row.v.recordId, row.v.version);
    MergedCovered(db, device, pull, s);
    CoveredSlot(db, merged[s], 0, row);
    forall p | p in merged && p.recordId == row.v.recordId && merged[p].tombstoneKind == Some(Purged)
      ensures p.version <= row.v.version
    {
      MergedCovered(db, device, pull, p);
      CoveredSlot(db, merged[p], 0, row);
    }
  }

  /** A pulled row's slot is among the merged rows, and so is a kept one. */
  lemma {:induction false} MergedHolds(device: Device, pull: Pull, s: Slot)
    requires (s in device.rows && (device.rows[s].vaultId in device.vaults ==> device.rows[s].vaultId in pull.ids))
             || exists g :: g in pull.records && SlotOf(SerializeRecord(g)) == s
    ensures s in Merged(device, pull)
  {
    var lost := device.vaults - IdSet(pull.ids);
    var kept := map s | s in device.rows && device.rows[s].vaultId !in lost :: device.rows[s];
    UpsertSlot(kept, Copies(pull.records), s);
    if g :| g in pull.records && SlotOf(SerializeRecord(g)) == s {
      var i :| 0 <= i < |pull.records| && pull.records[i] == g;
      assert Copies(pull.records)[i] in Copies(pull.records);
    }
  }

  lemma {:induction false} PageDelivers(db: Db, device: Device, pull: Pull)
    requires LogInv(db) && InSync(db, device) && PageSound(db, device.cursors, pull)
    ensures Delivered(db, AfterPage(device, pull))
  {
    var after := AfterPage(device, pull);
    hide AfterPage, Merged, PulledCursors, Ordered, PurgedLowest, BytesExact, Covered, PurgedAbove;
    RowsAfter(device, pull);
    forall row | row in db.records && row.seqNo <= CursorOf(after.cursors, row.v.vaultId)
      ensures Slot(row.v.recordId, row.v.version) in after.rows
              && after.rows[Slot(row.v.recordId, row.v.version)] == SerializeRecord(row)
    {
      var s := Slot(row.v.recordId, row.v.version);
      CursorsAfter(device, pull, row.v.vaultId);
      assert Placed(db.vaults, row);
      if row.v.vaultId in pull.ids && row.seqNo > CursorOf(device.cursors, row.v.vaultId) {
        assert Between(device.cursors, PulledCursors(pull, device.cursors), row);
        assert row in pull.records;
      }
      MergedHolds(device, pull, s);
      MergedRowStays(db, device, pull, row);
    }
  }

  lemma {:induction false} PageTracks(db: Db, device: Device, pull: Pull, s: Slot)
    requires LogInv(db) && InSync(db, device) && PageSound(db, device.cursors, pull)
    requires s in AfterPage(device, pull).rows
    ensures var after := AfterPage(device, pull);
            s == SlotOf(after.rows[s]) && Covered(db, after.rows[s], CursorOf(after.cursors, after.rows[s].vaultId))
  {
    var after := AfterPage(device, pull);
    var merged := Merged(device, pull);
    var copies := Copies(pull.records);
    hide AfterPage, Merged, PulledCursors, Ordered, PurgedLowest, BytesExact, Delivered, LogInv;
    RowsAfter(device, pull);
    MergedCovered(db, device, pull, s);
    var copy := merged[s];
    CursorsAfter(device, pull, copy.vaultId);
    var fromPage, g := MergedFrom(device, pull, s);
    if !fromPage && !Covered(db, copy, CursorOf(after.cursors, copy.vaultId)) {
      var t :| t in db.records && IsPurged(t.v) && t.v.recordId == copy.recordId && t.v.vaultId == copy.vaultId
               && copy.version < t.v.version && t.seqNo > CursorOf(device.cursors, copy.vaultId);
      assert Between(device.cursors, PulledCursors(pull, device.cursors), t);
      PurgeDrops(db, device, pull, t, s);
      assert false;
    }
  }

  /** A pulled purge drops what the merged rows hold below it. */
  lemma {:induction false} PurgeDrops(db: Db, device: Device, pull: Pull, t: Row, s: Slot)
    requires LogInv(db) && InSync(db, device) && PageSound(db, device.cursors, pull)
    requires t in db.records && t in pull.records && IsPurged(t.v)
    requires s.recordId == t.v.recordId && s.version < t.v.version
    ensures s !in DropPurged(Merged(device, pull), RecordsOf(Copies(pull.records)))
  {
    hide LogInv, InSync, PageSound, Merged;
    var merged := Merged(device, pull);
    var top := Slot(t.v.recordId, t.v.version);
    MergedHolds(device, pull, top);
    MergedRowStays(db, device, pull, t);
    assert PurgedAbove(merged, s.recordId, s.version);
    var i :| 0 <= i < |pull.records| && pull.records[i] == t;
    assert Copies(pull.records)[i].recordId == s.recordId;
  }

  lemma {:induction false} ApplyKeeps(w: World, next: World)
    requires Inv(w) && ApplyPage(w, next)
    ensures Inv(next)
  {
    hide Covered, AfterPage, LogInv;
    var pull := w.phase.pull;
    PageDelivers(w.db, w.device, pull);
    forall s | s in next.device.rows
      ensures s == SlotOf(next.device.rows[s]) && Covered(w.db, next.device.rows[s], CursorOf(next.device.cursors, next.device.rows[s].vaultId))
    {
      PageTracks(w.db, w.device, pull, s);
    }
    forall id
      ensures CursorOf(next.device.cursors, id) <= LastSeq(w.db, id)
    {
      CursorsAfter(w.device, pull, id);
    }
  }

  // ---- The device's own pushes ----

  lemma {:induction false} CopyOfAnswer(results: seq<PushResult>, copy: Copy) returns (i: nat)
    requires copy in AppliedCopies(results)
    ensures i < |results| && results[i].Applied? && results[i].record == copy
  {
    var n := |results| - 1;
    if copy in AppliedCopies(results[..n]) {
      i := CopyOfAnswer(results[..n], copy);
    } else {
      i := n;
    }
  }

  /** An applied change is answered with a row the log had or the push wrote. */
  lemma {:induction false} AppliedRow(db: Db, user: UserId, quota: int, changes: seq<Change>, results: seq<PushResult>, i: nat) returns (row: Row)
    requires Sound(db) && ValidBatch(changes) && AllAnswered(db, user, quota, changes, results)
    requires i < |results| && results[i].Applied?
    ensures row in db.records || row in PushWritten(db, user, quota, changes)
    ensures results[i].record == SerializeRecord(row)
  {
    hide Sound, JudgeBatch, OverQuotaIn, PushWritten, SerializeRecord, ChainsOf, Kept;
    var chains := ChainsOf(changes);
    ChainsOfBatch(changes);
    BatchJudging(db, user, quota, changes);
    var k, p := PlaceOf(changes, i);
    assert AnsweredAt(db, user, quota, changes, results, k, p);
    var judged := JudgeBatch(db, user, quota, changes);
    assert JudgedFor(db, user, chains[k], judged[k]);
    row := AnswerRow(db, user, chains[k], judged[k], p, OverQuotaIn(judged), PushWritten(db, user, quota, changes));
  }

  lemma {:induction false} AnswerRow(db: Db, user: UserId, chain: Chain<Indexed>, j: Judged, p: nat, overQuota: bool, written: seq<Row>) returns (row: Row)
    requires JudgedFor(db, user, chain, j) && p < |j.chain|
    requires AnswerTo(j, p, overQuota, written).Applied?
    ensures row in db.records || row in written
    ensures AnswerTo(j, p, overQuota, written).record == SerializeRecord(row)
  {
    hide SerializeRecord, WriteChain, Writable, Simulate, Head, Denied;
    if j.outcomes[p].Stored? {
      row := j.outcomes[p].row;
      DecidedAt(db, user, j.chain, j.dbHead, p);
    } else {
      row := StoredChange(written, j.chain[p].change.recordId, j.chain[p].change.clientChangeId).value;
    }
  }

  lemma {:induction false} AnswerCovered(db: Db, user: UserId, quota: int, changes: seq<Change>, row: Row, cursor: nat)
    requires LogInv(db) && ValidBatch(changes)
    requires row in db.records || row in PushWritten(db, user, quota, changes)
    requires cursor <= LastSeq(db, row.v.vaultId)
    ensures Covered(PushDb(db, user, quota, changes), SerializeRecord(row), cursor)
  {
    hide LogInv, PushDb, PushWritten, Sound;
    LogIsSound(db);
    var after := PushDb(db, user, quota, changes);
    var written := PushWritten(db, user, quota, changes);
    PushRows(db, user, quota, changes);
    WrittenRows(db, user, quota, changes);
    if row !in after.records {
      OrderedWritten(db, user, quota, changes);
      var t := TopPurge(written, row);
      RecordAtHome(PushInserted(db, user, quota, changes), row, t);
      assert t in after.records;
    }
  }

  lemma {:induction false} OrderedWritten(db: Db, user: UserId, quota: int, changes: seq<Change>)
    requires LogInv(db) && ValidBatch(changes)
    ensures Ordered(PushWritten(db, user, quota, changes))
  {
    WrittenRows(db, user, quota, changes);
    OrderedSuffix(db.records, PushWritten(db, user, quota, changes));
  }

  lemma {:induction false} RecordAtHome(db: Db, a: Row, b: Row)
    requires Sound(db) && a in db.records && b in db.records && a.v.recordId == b.v.recordId
    ensures a.v.vaultId == b.v.vaultId
  {
    OneVaultPerRecord(db.records, a, b);
  }

  lemma {:induction false} PushKeeps(w: World, next: World, user: UserId, quota: int, changes: seq<Change>)
    requires Inv(w) && DevicePush(w, next, user, quota, changes)
    ensures Inv(next)
  {
    hide LogInv, InSync, Covered, PushDb, Extends;
    PushKeepsLog(w.db, user, quota, changes);
    PushExtends(w.db, user, quota, changes);
    InSyncLater(w.db, next.db, w.device);
    LogIsSound(w.db);
    var results :| AllAnswered(w.db, user, quota, changes, results) && next.phase.copies == AppliedCopies(results);
    forall copy | copy in next.phase.copies
      ensures Covered(next.db, copy, CursorOf(w.device.cursors, copy.vaultId))
    {
      var i := CopyOfAnswer(results, copy);
      var row := AppliedRow(w.db, user, quota, changes, results, i);
      ReachedAt(w.db, w.device, copy.vaultId);
      AnswerCovered(w.db, user, quota, changes, row, CursorOf(w.device.cursors, copy.vaultId));
    }
  }

  lemma {:induction false} LogIsSound(db: Db)
    requires LogInv(db)
    ensures Sound(db)
  {
  }

  lemma {:induction false} ReachedAt(db: Db, device: Device, id: VaultId)
    requires InSync(db, device)
    ensures CursorOf(device.cursors, id) <= LastSeq(db, id)
  {
  }

  lemma {:induction false} AckKeeps(w: World, next: World)
    requires Inv(w) && AckStep(w, next)
    ensures Inv(next)
  {
    hide LogInv, Covered;
    var rows := w.device.rows;
    var copies := w.phase.copies[..1];
    assert forall copy :: copy in copies || copy in next.phase.copies ==> copy in w.phase.copies;
    forall row | row in w.db.records && row.seqNo <= CursorOf(w.device.cursors, row.v.vaultId)
      ensures var s := Slot(row.v.recordId, row.v.version); s in next.device.rows && next.device.rows[s] == SerializeRecord(row)
    {
      var s := Slot(row.v.recordId, row.v.version);
      UpsertSlot(rows, copies, s);
      var copy := next.device.rows[s];
      if copy in copies && SlotOf(copy) == s {
        CoveredSlot(w.db, copy, CursorOf(w.device.cursors, copy.vaultId), row);
      }
    }
    forall s | s in next.device.rows
      ensures s == SlotOf(next.device.rows[s]) && Covered(w.db, next.device.rows[s], CursorOf(w.device.cursors, next.device.rows[s].vaultId))
    {
      UpsertSlot(rows, copies, s);
    }
  }

  lemma {:induction false} StepKeeps(w: World, next: World)
    requires Inv(w) && Step(w, next)
    ensures Inv(next)
  {
    hide Inv, ServerStep, StartPull, ReadVault, ApplyPage, DevicePush, AckStep, GiveUp;
    if ServerStep(w, next) {
      ServerKeeps(w, next);
    } else if StartPull(w, next) {
      StartKeeps(w, next);
    } else if ReadVault(w, next) {
      ReadKeeps(w, next);
    } else if ApplyPage(w, next) {
      ApplyKeeps(w, next);
    } else if AckStep(w, next) {
      AckKeeps(w, next);
    } else if GiveUp(w, next) {
      GiveUpKeeps(w, next);
    } else {
      var user, quota, changes :| DevicePush(w, next, user, quota, changes);
      PushKeeps(w, next, user, quota, changes);
    }
  }

  lemma {:induction false} GiveUpKeeps(w: World, next: World)
    requires Inv(w) && GiveUp(w, next)
    ensures Inv(next)
  {
  }

  // ---- Runs ----

  /** A run of a device that starts empty, on a server in any state of its log. */
  ghost predicate Run(ws: seq<World>) {
    && |ws| > 0
    && LogInv(ws[0].db) && ws[0].phase.Idle? && ws[0].device.rows == map[] && ws[0].device.cursors == map[]
    && (forall i :: 0 <= i < |ws| - 1 ==> Step(ws[i], ws[i + 1]))
  }

  /**
   * Over every run: each server row at or below a cursor is on the device as it is, and
   * each row the device holds is on the server or has its purge waiting past the cursor.
   */
  lemma {:induction false} RunInSync(ws: seq<World>, i: nat)
    requires Run(ws) && i < |ws|
    ensures Inv(ws[i])
  {
    hide Inv, Step;
    if i == 0 {
      StartsInSync(ws[0]);
    } else {
      RunInSync(ws, i - 1);
      assert Step(ws[i - 1], ws[i - 1 + 1]);
      StepKeeps(ws[i - 1], ws[i]);
    }
  }

  lemma {:induction false} StartsInSync(w: World)
    requires LogInv(w.db) && w.phase.Idle? && w.device.rows == map[] && w.device.cursors == map[]
    ensures Inv(w)
  {
    forall row | row in w.db.records
      ensures row.seqNo > 0
    {
      assert Placed(w.db.vaults, row);
    }
  }

  // ---- What a finished pull guarantees ----

  /** The device holds exactly the server's rows of a vault. */
  ghost predicate SameRows(db: Db, device: Device, id: VaultId) {
    forall copy: Copy :: copy.vaultId == id ==>
      ((SlotOf(copy) in device.rows && device.rows[SlotOf(copy)] == copy) <==> exists row :: row in db.records && SerializeRecord(row) == copy)
  }

  /** With nothing past its cursor, a vault's rows on the device and on the server are the same. */
  lemma {:induction false} CaughtUp(db: Db, device: Device, id: VaultId)
    requires InSync(db, device)
    requires forall row :: row in db.records && row.v.vaultId == id ==> row.seqNo <= CursorOf(device.cursors, id)
    ensures SameRows(db, device, id)
  {
    forall copy: Copy | copy.vaultId == id
      ensures (SlotOf(copy) in device.rows && device.rows[SlotOf(copy)] == copy) <==> exists row :: row in db.records && SerializeRecord(row) == copy
    {
      if SlotOf(copy) in device.rows && device.rows[SlotOf(copy)] == copy {
        assert Covered(db, copy, CursorOf(device.cursors, id));
      }
    }
  }

  /** Each vault read without the page filling up was read to its end. */
  ghost predicate ReadToEnd(pull: Pull, cursors: map<VaultId, nat>, i: nat)
    requires i < |pull.readAt| <= |pull.ids|
  {
    (pull.hasMore && i == |pull.readAt| - 1) ||
    forall row :: row in pull.readAt[i].records && row.v.vaultId == pull.ids[i] ==>
      row.seqNo <= CursorOf(PulledCursors(pull, cursors), pull.ids[i])
  }

  ghost predicate Scanned(w: World) {
    w.phase.Pulling? ==>
      && |w.phase.pull.readAt| <= |w.phase.pull.ids|
      && forall i :: 0 <= i < |w.phase.pull.readAt| ==> ReadToEnd(w.phase.pull, w.device.cursors, i)
  }

  lemma {:induction false} WholeVault(db: Db, id: VaultId, cursor: nat, room: nat, row: Row)
    requires LogInv(db) && |Past(db.records, id, cursor)| <= room
    requires row in db.records && row.v.vaultId == id
    ensures var part := Take(Past(db.records, id, cursor), room);
            row.seqNo <= if part == [] then cursor else part[|part| - 1].seqNo
  {
    var past := Past(db.records, id, cursor);
    PastMember(db.records, id, cursor, row);
    PastInSeqOrder(db.records, id, cursor);
    assert Take(past, room) == past;
    if past != [] {
      PastMember(db.records, id, cursor, past[|past| - 1]);
    }
    if row.seqNo > cursor {
      var i :| 0 <= i < |past| && past[i] == row;
      assert i < |past| - 1 ==> past[i].seqNo < past[|past| - 1].seqNo;
    }
  }

  lemma {:induction false} ReadScans(w: World, next: World)
    requires Inv(w) && Scanned(w) && ReadVault(w, next)
    ensures Scanned(next)
  {
    hide LogInv, InSync, Covered, Past, PulledCursors, CursorOf, Take;
    var pull := w.phase.pull;
    var cursors := w.device.cursors;
    var m := |pull.readAt|;
    var read := ReadNext(pull, w.db, cursors);
    LogIsOrdered(w.db);
    NotReadYet(w.db, cursors, pull);
    ReadCursors(w.db, cursors, pull);
    forall i | 0 <= i < |read.readAt|
      ensures ReadToEnd(read, cursors, i)
    {
      if i < m {
        assert ReadToEnd(pull, cursors, i);
      } else if !read.hasMore {
        forall row | row in w.db.records && row.v.vaultId == pull.ids[m]
          ensures row.seqNo <= CursorOf(PulledCursors(read, cursors), pull.ids[m])
        {
          WholeVault(w.db, pull.ids[m], CursorOf(cursors, pull.ids[m]), pull.limit - |pull.records|, row);
        }
      }
    }
  }

  lemma {:induction false} LogIsOrdered(db: Db)
    requires LogInv(db)
    ensures Ordered(db.records)
  {
  }

  lemma {:induction false} RunScans(ws: seq<World>, i: nat)
    requires Run(ws) && i < |ws|
    ensures Scanned(ws[i])
  {
    if i > 0 {
      RunInSync(ws, i - 1);
      RunScans(ws, i - 1);
      assert Step(ws[i - 1], ws[i - 1 + 1]);
      StepScans(ws[i - 1], ws[i]);
    }
  }

  lemma {:induction false} StepScans(w: World, next: World)
    requires Inv(w) && Scanned(w) && Step(w, next)
    ensures Scanned(next)
  {
    hide Inv, ReadToEnd, LogInv, AllAnswered;
    if ReadVault(w, next) {
      ReadScans(w, next);
    }
  }

  /**
   * Convergence: in every run, once the last page of a pull is applied, each of its
   * vaults that got no row since it was read has the same rows on the device as on the
   * server, whatever was written to the others.
   */
  lemma {:induction false} Converges(ws: seq<World>, j: nat, i: nat)
    requires Run(ws) && j + 1 < |ws|
    requires ApplyPage(ws[j], ws[j + 1])
    requires var pull := ws[j].phase.pull; !pull.hasMore && i < |pull.ids| == |pull.readAt|
    requires forall row :: row in ws[j].db.records && row.v.vaultId == ws[j].phase.pull.ids[i] ==> row in ws[j].phase.pull.readAt[i].records
    ensures SameRows(ws[j + 1].db, ws[j + 1].device, ws[j].phase.pull.ids[i])
  {
    hide Run, LogInv, InSync, SameRows, PulledCursors;
    RunInSync(ws, j);
    RunInSync(ws, j + 1);
    RunScans(ws, j);
    var pull := ws[j].phase.pull;
    assert ReadToEnd(pull, ws[j].device.cursors, i);
    CursorsAfter(ws[j].device, pull, pull.ids[i]);
    CaughtUp(ws[j + 1].db, ws[j + 1].device, pull.ids[i]);
  }

  /**
   * So the device then shows, of that vault, each version the server stores, field by
   * field, and nothing else.
   */
  lemma {:induction false} ConvergedContent(ws: seq<World>, j: nat, i: nat)
    requires Run(ws) && j + 1 < |ws|
    requires ApplyPage(ws[j], ws[j + 1])
    requires var pull := ws[j].phase.pull; !pull.hasMore && i < |pull.ids| == |pull.readAt|
    requires forall row :: row in ws[j].db.records && row.v.vaultId == ws[j].phase.pull.ids[i] ==> row in ws[j].phase.pull.readAt[i].records
    ensures var id := ws[j].phase.pull.ids[i];
            var rows := ws[j + 1].device.rows;
            && (forall row :: row in ws[j + 1].db.records && row.v.vaultId == id ==>
                  Slot(row.v.recordId, row.v.version) in rows && Shows(rows[Slot(row.v.recordId, row.v.version)], row.v))
            && (forall s :: s in rows && rows[s].vaultId == id ==>
                  exists row :: row in ws[j + 1].db.records && Shows(rows[s], row.v) && s == Slot(row.v.recordId, row.v.version))
  {
    hide Run, Inv, InSync, SameRows, Shows, AfterPage;
    Converges(ws, j, i);
    RunInSync(ws, j + 1);
    InSyncNow(ws[j + 1]);
    SameContent(ws[j + 1].db, ws[j + 1].device, ws[j].phase.pull.ids[i]);
  }

  lemma {:induction false} InSyncNow(w: World)
    requires Inv(w)
    ensures InSync(w.db, w.device)
  {
  }

  lemma {:induction false} SameContent(db: Db, device: Device, id: VaultId)
    requires SameRows(db, device, id) && InSync(db, device)
    ensures forall row :: row in db.records && row.v.vaultId == id ==>
              Slot(row.v.recordId, row.v.version) in device.rows && Shows(device.rows[Slot(row.v.recordId, row.v.version)], row.v)
    ensures forall s :: s in device.rows && device.rows[s].vaultId == id ==>
              exists row :: row in db.records && Shows(device.rows[s], row.v) && s == Slot(row.v.recordId, row.v.version)
  {
    hide Covered, Delivered, CursorsReached;
    forall row | row in db.records && row.v.vaultId == id
      ensures Slot(row.v.recordId, row.v.version) in device.rows && Shows(device.rows[Slot(row.v.recordId, row.v.version)], row.v)
    {
      CopyShows(row);
      var copy := SerializeRecord(row);
      assert copy.vaultId == id;
    }
    forall s | s in device.rows && device.rows[s].vaultId == id
      ensures exists row :: row in db.records && Shows(device.rows[s], row.v) && s == Slot(row.v.recordId, row.v.version)
    {
      var copy := device.rows[s];
      assert SlotOf(copy) == s;
      var row :| row in db.records && SerializeRecord(row) == copy;
      CopyShows(row);
    }
  }
}
