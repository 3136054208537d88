/**
 * The two protocols together: runs of pushes and sharing procedures on one database.
 * The log and the vaults keep their invariants, and what a put is written under is the
 * vault's current key.
 */
module System {
  import opened Prelude
  import opened Tables
  import opened PushRules
  import opened PushLog
  import opened PushPlan
  import opened PushEffect
  import opened PushAnswers
  import opened PushTransaction
  import opened PushOnce
  import V = VaultRuns

  datatype System = System(db: Db, keyPairs: map<UserId, nat>, given: map<VaultId, set<V.Given>>)

  function SharingOf(s: System): V.State {
    V.State(s.db.vaults, s.keyPairs, s.given)
  }

  datatype Event =
    | Push(user: UserId, quota: int, changes: seq<Change>)
    | Share(id: VaultId, action: V.Action)
    | NewKeyPair(user: UserId, version: nat)

  ghost predicate Happens(s: System, next: System, event: Event) {
    match event
    case Push(user, quota, changes) =>
      LogInv(s.db) && ValidBatch(changes) && next == s.(db := PushDb(s.db, user, quota, changes))
    case Share(id, action) =>
      V.ActStep(SharingOf(s), SharingOf(next), id, action) && next.db.records == s.db.records
    case NewKeyPair(user, version) => next == s.(keyPairs := s.keyPairs[user := version])
  }

  ghost predicate Runs(states: seq<System>, events: seq<Event>) {
    && |states| == |events| + 1
    && states[0] == System(Db(map[], []), map[], map[])
    && forall i :: 0 <= i < |events| ==> Happens(states[i], states[i + 1], events[i])
  }

  ghost predicate SystemInv(s: System) {
    LogInv(s.db) && V.Known(SharingOf(s))
  }

  /** A sharing procedure leaves a vault's counters; its key version only rises. */
  lemma {:induction false} OutcomeKeepsCounters(vaults: map<VaultId, Vault>, keyPairs: map<UserId, nat>, id: VaultId, action: V.Action)
    requires V.OutcomeOf(vaults, keyPairs, id, action).Ok?
    ensures var after := V.OutcomeOf(vaults, keyPairs, id, action).value;
            if id in vaults then after.lastSeq == vaults[id].lastSeq && after.usedBytes == vaults[id].usedBytes && after.keyVersion >= vaults[id].keyVersion
            else after.lastSeq == 0 && after.usedBytes == 0
  {
  }

  lemma {:induction false} NoBytes(rows: seq<Row>, id: VaultId)
    requires forall row :: row in rows ==> row.v.vaultId != id
    ensures StoredBytes(rows, id) == 0
  {
    if rows != [] {
      var n := |rows| - 1;
      assert rows[n] in rows;
      NoBytes(rows[..n], id);
    }
  }

  lemma {:induction false} ShareKeepsLog(s: System, next: System, id: VaultId, action: V.Action)
    requires LogInv(s.db) && Happens(s, next, Share(id, action))
    ensures LogInv(next.db) && LogStep(s.db, next.db)
  {
    hide V.OutcomeOf, V.NewlyGiven, Ordered, PurgedLowest;
    var outcome := V.OutcomeOf(s.db.vaults, s.keyPairs, id, action);
    if outcome.Ok? {
      OutcomeKeepsCounters(s.db.vaults, s.keyPairs, id, action);
    }
    assert SharingOf(next).vaults == next.db.vaults && SharingOf(s).vaults == s.db.vaults;
    forall row | row in next.db.records
      ensures Placed(next.db.vaults, row)
    {
      assert Placed(s.db.vaults, row);
    }
    forall v | v in next.db.vaults
      ensures next.db.vaults[v].usedBytes == StoredBytes(next.db.records, v)
    {
      if v !in s.db.vaults {
        forall row | row in s.db.records
          ensures row.v.vaultId != v
        {
          assert Placed(s.db.vaults, row);
        }
        NoBytes(s.db.records, v);
      }
    }
  }

  /** A push is a counters-only step of the vaults. */
  lemma {:induction false} PushIsVaultStep(s: System, next: System, user: UserId, quota: int, changes: seq<Change>)
    requires SystemInv(s) && Happens(s, next, Push(user, quota, changes))
    ensures V.Step(SharingOf(s), SharingOf(next))
  {
    hide LogInv, PushDb, V.Known;
    PushRows(s.db, user, quota, changes);
  }

  lemma {:induction false} EventKeeps(s: System, next: System, event: Event)
    requires SystemInv(s) && Happens(s, next, event)
    ensures SystemInv(next) && LogStep(s.db, next.db)
  {
    hide LogInv, PushDb, V.Known, V.Step, V.ActStep, Extends;
    match event
    case Push(user, quota, changes) =>
      PushKeepsLog(s.db, user, quota, changes);
      PushIsVaultStep(s, next, user, quota, changes);
      V.StepKeeps(SharingOf(s), SharingOf(next));
      assert Pushed(s.db, next.db, user, quota, changes);
    case Share(id, action) =>
      ShareKeepsLog(s, next, id, action);
      ActIsStep(s, next, id, action);
      V.StepKeeps(SharingOf(s), SharingOf(next));
    case NewKeyPair(user, version) =>
      KeyPairIsStep(s, next);
      V.StepKeeps(SharingOf(s), SharingOf(next));
  }

  lemma {:induction false} ActIsStep(s: System, next: System, id: VaultId, action: V.Action)
    requires V.ActStep(SharingOf(s), SharingOf(next), id, action)
    ensures V.Step(SharingOf(s), SharingOf(next))
  {
    hide V.ActStep;
  }

  lemma {:induction false} KeyPairIsStep(s: System, next: System)
    requires next == s.(keyPairs := next.keyPairs)
    ensures V.Step(SharingOf(s), SharingOf(next))
  {
  }

  /**
   * Over every run of pushes, rotations and membership changes: the log invariant and
   * the vault invariants hold in every state.
   */
  lemma {:induction false} RunsKeep(states: seq<System>, events: seq<Event>, i: nat)
    requires Runs(states, events) && i < |states|
    ensures SystemInv(states[i])
  {
    hide Happens, LogInv, V.VaultState;
    if i == 0 {
      EmptyLog();
    } else {
      RunsKeep(states, events, i - 1);
      assert Happens(states[i - 1], states[i - 1 + 1], events[i - 1]);
      EventKeeps(states[i - 1], states[i], events[i - 1]);
    }
  }

  lemma {:induction false} EmptyLog()
    ensures LogInv(Db(map[], []))
  {
  }

  /** So a run's tables are a run in the sense of exactly-once, and extend one another. */
  lemma {:induction false} RunsAreLogRuns(states: seq<System>, events: seq<Event>, dbs: seq<Db>)
    requires Runs(states, events) && |dbs| == |states| && forall i :: 0 <= i < |dbs| ==> dbs[i] == states[i].db
    ensures Ran(dbs)
  {
    hide Happens, LogInv, LogStep, SystemInv;
    RunsKeep(states, events, 0);
    SystemHasLog(states[0]);
    forall i, j | 0 <= i && j == i + 1 && j < |dbs|
      ensures LogStep(dbs[i], dbs[j])
    {
      RunsKeep(states, events, i);
      assert Happens(states[i], states[i + 1], events[i]);
      EventKeeps(states[i], states[i + 1], events[i]);
    }
  }

  function DbsOf(states: seq<System>): (dbs: seq<Db>)
    ensures |dbs| == |states|
    ensures forall i :: 0 <= i < |states| ==> dbs[i] == states[i].db
  {
    seq(|states|, i requires 0 <= i < |states| => states[i].db)
  }

  /** With rotations and membership changes in between, a version number is still never given again. */
  lemma {:induction false} RunsNeverReuse(states: seq<System>, events: seq<Event>, i: nat, x: Version, j: nat, user: UserId, quota: int, again: seq<Change>, y: Version)
    requires Runs(states, events) && i < j < |states| && events[i].Push?
    requires x in PlanBatch(states[i].db, events[i].user, events[i].quota, events[i].changes)
    requires ValidBatch(again) && y in PlanBatch(states[j].db, user, quota, again) && y.recordId == x.recordId
    ensures y.version > x.version
  {
    assert |states| == |events| + 1;
    hide LogInv, PlanBatch, PushDb, Runs;
    var dbs := DbsOf(states);
    PushHappened(states, events, i);
    RunsAreLogRuns(states, events, dbs);
    NeverReused(dbs, i, events[i].user, events[i].quota, events[i].changes, x, j, user, quota, again, y);
  }

  lemma {:induction false} PushHappened(states: seq<System>, events: seq<Event>, i: nat)
    requires Runs(states, events) && i < |events| && events[i].Push?
    ensures |states| == |events| + 1
    ensures Pushed(states[i].db, states[i + 1].db, events[i].user, events[i].quota, events[i].changes)
  {
    hide LogInv, PushDb;
    assert Happens(states[i], states[i + 1], events[i]);
  }

  /**
   * Nor is an applied change written by any later push that has it in again: it is answered
   * with a version stored under its id, or refused.
   */
  lemma {:induction false} RunsApplyOnce(states: seq<System>, events: seq<Event>, i: nat, n: nat, x: Version, j: nat, user: UserId, quota: int, again: seq<Change>, m: nat)
    requires Runs(states, events) && i < j < |states| && events[i].Push?
    requires x in PlanBatch(states[i].db, events[i].user, events[i].quota, events[i].changes)
    requires n < |events[i].changes| && events[i].changes[n].clientChangeId == x.clientChangeId
    requires ValidBatch(again) && m < |again| && again[m] == events[i].changes[n]
    ensures LogInv(states[j].db)
    ensures forall y :: y in PlanBatch(states[j].db, user, quota, again) ==> y.clientChangeId != x.clientChangeId
    ensures forall results: seq<PushResult> :: AllAnswered(states[j].db, user, quota, again, results) ==>
              && m < |results|
              && (results[m].Refused?
                  || exists row: Row :: row in states[j].db.records && row.v.recordId == x.recordId && row.v.clientChangeId == x.clientChangeId
                                   && results[m] == Applied(x.clientChangeId, SerializeRecord(row)))
  {
    assert |states| == |events| + 1;
    hide LogInv, PlanBatch, PushDb, Runs, SerializeRecord, AllAnswered;
    var dbs := DbsOf(states);
    var push := events[i];
    PushHappened(states, events, i);
    RunsAreLogRuns(states, events, dbs);
    RunExtends(dbs, j, j);
    LogSound(dbs[j]);
    forall y | y in PlanBatch(dbs[j], user, quota, again)
      ensures y.clientChangeId != x.clientChangeId
    {
      NotWrittenAgain(dbs, i, push.user, push.quota, push.changes, n, x, j, user, quota, again, m);
    }
    forall results: seq<PushResult> | AllAnswered(dbs[j], user, quota, again, results)
      ensures m < |results|
      ensures results[m].Refused?
              || exists row: Row :: row in dbs[j].records && row.v.recordId == x.recordId && row.v.clientChangeId == x.clientChangeId
                               && results[m] == Applied(x.clientChangeId, SerializeRecord(row))
    {
      AnswersCount(dbs[j], user, quota, again, results);
      ExactlyOnce(dbs, i, push.user, push.quota, push.changes, n, x, j, user, quota, again, m, results);
    }
  }

  lemma {:induction false} AnswersCount(db: Db, user: UserId, quota: int, changes: seq<Change>, results: seq<PushResult>)
    requires Sound(db) && ValidBatch(changes) && AllAnswered(db, user, quota, changes, results)
    ensures |results| == |changes|
  {
  }

  lemma {:induction false} SystemHasLog(s: System)
    requires SystemInv(s)
    ensures LogInv(s.db)
  {
  }

  /** A version that holds new content is under its vault's current key, written by someone who may write. */
  lemma {:induction false} PutsUnderCurrentKey(db: Db, user: UserId, quota: int, changes: seq<Change>, x: Version)
    requires LogInv(db) && ValidBatch(changes)
    requires x in PlanBatch(db, user, quota, changes) && !x.deleted
    ensures x.vaultId in db.vaults && x.keyVersion == db.vaults[x.vaultId].keyVersion
    ensures Denied(db.vaults, user, x.vaultId).None?
  {
    hide LogInv, Sound, PlanBatch, JudgeBatch, Writable, WriteChain;
    LogSound(db);
    var k := ChainOfPlanned(db, user, quota, changes, x);
    var chain := ChainsOf(changes)[k];
    BatchJudged(db, user, quota, changes);
    var j := JudgeBatch(db, user, quota, changes)[k];
    var p := JudgedChange(db, user, chain, j, x);
    AppendAllowed(db, user, j.chain, j.dbHead, p);
  }
}
