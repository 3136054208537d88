/**
 * What a client learns from the results of a push: its record's changes were applied all
 * together or refused all together, and a resent change gets its stored version.
 */
module PushResults {
  import opened Prelude
  import opened Tables
  import opened Grouping
  import opened PushRules
  import opened PushLog
  import opened PushPlan
  import opened PushEffect
  import opened PushAnswers
  import opened PushTransaction

  /** The server holds a version under the change's id, and answers with it. */
  predicate AnsweredStored(db: Db, change: Change, result: PushResult) {
    var stored := StoredChange(db.records, change.recordId, change.clientChangeId);
    stored.Some? && result == Applied(change.clientChangeId, SerializeRecord(stored.value))
  }

  /** The change was written now, one above the version it builds on, and is answered with its row. */
  ghost predicate AnsweredWritten(written: seq<Row>, change: Change, result: PushResult) {
    exists w :: w in written && Carries(change, w.v) && w.v.version == change.baseVersion + 1
                && result == Applied(change.clientChangeId, SerializeRecord(w))
  }

  ghost predicate AllAppliedTo(db: Db, written: seq<Row>, changes: seq<Change>, results: seq<PushResult>, r: RecordId)
    requires |results| == |changes|
  {
    forall n :: 0 <= n < |changes| && changes[n].recordId == r ==>
      AnsweredStored(db, changes[n], results[n]) || AnsweredWritten(written, changes[n], results[n])
  }

  ghost predicate AllRefusedTo(db: Db, changes: seq<Change>, results: seq<PushResult>, r: RecordId, failure: Failure)
    requires |results| == |changes|
  {
    forall n :: 0 <= n < |changes| && changes[n].recordId == r ==>
      AnsweredStored(db, changes[n], results[n]) || results[n] == Refused(changes[n].clientChangeId, failure)
  }

  ghost predicate NothingWritten(written: seq<Row>, r: RecordId) {
    forall w :: w in written ==> w.v.recordId != r
  }

  /**
   * By the results of a push, of each record either every change is answered with a
   * version, stored before or written now on exactly its base; or nothing was written for
   * the record and every change not stored before got the same refusal. What was written
   * runs up from the record's head without a gap.
   */
  lemma {:induction false} RecordAllOrNothing(db: Db, user: UserId, quota: int, changes: seq<Change>, results: seq<PushResult>, r: RecordId)
    requires Sound(db) && ValidBatch(changes) && AllAnswered(db, user, quota, changes, results)
    ensures var written := PushWritten(db, user, quota, changes);
            || AllAppliedTo(db, written, changes, results, r)
            || (NothingWritten(written, r) && exists failure :: AllRefusedTo(db, changes, results, r, failure))
    ensures var part := RecordPart(PlanBatch(db, user, quota, changes), r);
            forall i :: 0 <= i < |part| ==> part[i].version == VersionOf(Head(db.records, r)) + 1 + i
  {
    hide Sound, PlanBatch, PushWritten, ChainsOf, JudgeBatch, OverQuotaIn, AllApplied, AllRefused, Carries, SerializeRecord, AllAnswered;
    OneEach(db, user, quota, changes, results);
    if n :| 0 <= n < |changes| && changes[n].recordId == r {
      var k, p := PlaceOf(changes, n);
      RecordAnswers(db, user, quota, changes, results, k);
    } else {
      NoVersions(db, user, quota, changes, r);
    }
  }

  lemma {:induction false} OneEach(db: Db, user: UserId, quota: int, changes: seq<Change>, results: seq<PushResult>)
    requires Sound(db) && ValidBatch(changes) && AllAnswered(db, user, quota, changes, results)
    ensures |results| == |changes|
  {
  }

  /** Nothing is written for a record the batch does not change. */
  lemma {:induction false} NoVersions(db: Db, user: UserId, quota: int, changes: seq<Change>, r: RecordId)
    requires Sound(db) && ValidBatch(changes)
    requires forall n :: 0 <= n < |changes| ==> changes[n].recordId != r
    ensures RecordPart(PlanBatch(db, user, quota, changes), r) == []
  {
    hide Sound, PlanBatch, ChainsOf, ValidBatch;
    var versions := PlanBatch(db, user, quota, changes);
    if RecordPart(versions, r) != [] {
      var x := RecordPart(versions, r)[0];
      RecordPartMember(versions, r, x);
      var n := PlanCarries(db, user, quota, changes, x);
    }
  }

  /** The answers to one chain of the batch, at its changes' places. */
  lemma {:induction false} RecordAnswers(db: Db, user: UserId, quota: int, changes: seq<Change>, results: seq<PushResult>, k: nat)
    requires Sound(db) && ValidBatch(changes) && AllAnswered(db, user, quota, changes, results)
    requires k < |ChainsOf(changes)| && |results| == |changes|
    ensures var written := PushWritten(db, user, quota, changes);
            var r := ChainsOf(changes)[k].recordId;
            || AllAppliedTo(db, written, changes, results, r)
            || (NothingWritten(written, r) && exists failure :: AllRefusedTo(db, changes, results, r, failure))
    ensures var r := ChainsOf(changes)[k].recordId;
            var part := RecordPart(PlanBatch(db, user, quota, changes), r);
            forall i :: 0 <= i < |part| ==> part[i].version == VersionOf(Head(db.records, r)) + 1 + i
  {
    hide Sound, PlanBatch, PushWritten, ChainsOf, JudgeBatch, OverQuotaIn, AllApplied, AllRefused, Carries, SerializeRecord, AllAnswered, Head;
    var r := ChainsOf(changes)[k].recordId;
    var judged := JudgeBatch(db, user, quota, changes);
    var overQuota := OverQuotaIn(judged);
    var written := PushWritten(db, user, quota, changes);
    AllOrNothing(db, user, quota, changes, k);
    BatchJudging(db, user, quota, changes);
    if AllApplied(judged[k], overQuota, written) {
      forall n | 0 <= n < |changes| && changes[n].recordId == r
        ensures AnsweredStored(db, changes[n], results[n]) || AnsweredWritten(written, changes[n], results[n])
      {
        var p := PlaceIn(changes, n, k);
        AnswerAt(db, user, quota, changes, results, k, p);
        AppliedAt(db, user, ChainsOf(changes)[k], judged[k], p, overQuota, written);
      }
    } else {
      var failure :| AllRefused(judged[k], overQuota, written, failure);
      forall n | 0 <= n < |changes| && changes[n].recordId == r
        ensures AnsweredStored(db, changes[n], results[n]) || results[n] == Refused(changes[n].clientChangeId, failure)
      {
        var p := PlaceIn(changes, n, k);
        AnswerAt(db, user, quota, changes, results, k, p);
        RefusedAt(db, user, ChainsOf(changes)[k], judged[k], p, overQuota, written, failure);
      }
      assert AllRefusedTo(db, changes, results, r, failure);
      NoRows(db, user, quota, changes, r);
    }
  }

  lemma {:induction false} PlaceIn(changes: seq<Change>, n: nat, k: nat) returns (p: nat)
    requires n < |changes| && k < |ChainsOf(changes)| && ChainsOf(changes)[k].recordId == changes[n].recordId
    ensures p < |ChainsOf(changes)[k].items| && ChainsOf(changes)[k].items[p] == Indexed(n, changes[n])
  {
    hide ChainsOf;
    var m;
    m, p := PlaceOf(changes, n);
    ChainsOfBatch(changes);
    assert m == k;
  }

  lemma {:induction false} AnswerAt(db: Db, user: UserId, quota: int, changes: seq<Change>, results: seq<PushResult>, k: nat, p: nat)
    requires Sound(db) && ValidBatch(changes) && AllAnswered(db, user, quota, changes, results)
    requires k < |ChainsOf(changes)| && p < |ChainsOf(changes)[k].items|
    ensures var judged := JudgeBatch(db, user, quota, changes);
            var n := ChainsOf(changes)[k].items[p].index;
            && k < |judged| && |judged[k].outcomes| == |judged[k].chain| && judged[k].chain == ChainsOf(changes)[k].items
            && n < |results| && results[n] == AnswerTo(judged[k], p, OverQuotaIn(judged), PushWritten(db, user, quota, changes))
  {
    hide JudgeBatch, ChainsOf, PushWritten, AnswerTo, OverQuotaIn, Sound;
    BatchJudged(db, user, quota, changes);
    assert AnsweredAt(db, user, quota, changes, results, k, p);
    assert JudgedFor(db, user, ChainsOf(changes)[k], JudgeBatch(db, user, quota, changes)[k]);
  }

  /** A change decided as stored is answered with the version stored under its id. */
  lemma {:induction false} StoredAt(db: Db, user: UserId, chain: Chain<Indexed>, j: Judged, p: nat, overQuota: bool, written: seq<Row>)
    requires JudgedFor(db, user, chain, j) && p < |j.chain| && j.outcomes[p].Stored?
    ensures AnsweredStored(db, j.chain[p].change, AnswerTo(j, p, overQuota, written))
  {
    hide SerializeRecord, WriteChain, Writable, Simulate, Head, Denied;
    DecidedAt(db, user, j.chain, j.dbHead, p);
  }

  lemma {:induction false} AppliedAt(db: Db, user: UserId, chain: Chain<Indexed>, j: Judged, p: nat, overQuota: bool, written: seq<Row>)
    requires JudgedFor(db, user, chain, j) && p < |j.chain| && AllApplied(j, overQuota, written)
    ensures var result := AnswerTo(j, p, overQuota, written);
            AnsweredStored(db, j.chain[p].change, result) || AnsweredWritten(written, j.chain[p].change, result)
  {
    assert |j.outcomes| == |j.chain|;
    hide JudgedFor, AnswerTo, Carries, SerializeRecord;
    if j.outcomes[p].Stored? {
      StoredAt(db, user, chain, j, p, overQuota, written);
    } else {
      assert AppliedOnBase(j, p, overQuota, written);
    }
  }

  lemma {:induction false} RefusedAt(db: Db, user: UserId, chain: Chain<Indexed>, j: Judged, p: nat, overQuota: bool, written: seq<Row>, failure: Failure)
    requires JudgedFor(db, user, chain, j) && p < |j.chain| && AllRefused(j, overQuota, written, failure)
    ensures var result := AnswerTo(j, p, overQuota, written);
            AnsweredStored(db, j.chain[p].change, result) || result == Refused(j.chain[p].change.clientChangeId, failure)
  {
    assert |j.outcomes| == |j.chain|;
    hide JudgedFor, AnswerTo;
    if j.outcomes[p].Stored? {
      StoredAt(db, user, chain, j, p, overQuota, written);
    }
  }

  lemma {:induction false} NoRows(db: Db, user: UserId, quota: int, changes: seq<Change>, r: RecordId)
    requires Sound(db) && ValidBatch(changes)
    requires RecordPart(PlanBatch(db, user, quota, changes), r) == []
    ensures NothingWritten(PushWritten(db, user, quota, changes), r)
  {
    hide Sound, PlanBatch, PushWritten;
    var written := PushWritten(db, user, quota, changes);
    WrittenRows(db, user, quota, changes);
    forall w | w in written
      ensures w.v.recordId != r
    {
      var i :| 0 <= i < |written| && written[i] == w;
      RecordPartMember(PlanBatch(db, user, quota, changes), r, PlanBatch(db, user, quota, changes)[i]);
    }
  }

  /** A change sent again while the server still holds its version is answered with that version, or refused; never written. */
  lemma {:induction false} ResentIsAnswered(db: Db, user: UserId, quota: int, changes: seq<Change>, results: seq<PushResult>, n: nat)
    requires Sound(db) && ValidBatch(changes) && AllAnswered(db, user, quota, changes, results)
    requires n < |changes| && StoredChange(db.records, changes[n].recordId, changes[n].clientChangeId).Some?
    ensures n < |results| && (results[n].Refused? || AnsweredStored(db, changes[n], results[n]))
    ensures forall x :: x in PlanBatch(db, user, quota, changes) ==> x.recordId != changes[n].recordId || x.clientChangeId != changes[n].clientChangeId
  {
    hide Sound, PlanBatch, PushWritten, ChainsOf, JudgeBatch, OverQuotaIn, AllAnswered, AnswerTo, SerializeRecord;
    var k, p := PlaceOf(changes, n);
    AnswerAt(db, user, quota, changes, results, k, p);
    StoredIsAnswered(db, user, quota, changes, k, p);
    forall x | x in PlanBatch(db, user, quota, changes)
      ensures x.recordId != changes[n].recordId || x.clientChangeId != changes[n].clientChangeId
    {
      var m := PlanCarries(db, user, quota, changes, x);
    }
  }
}
