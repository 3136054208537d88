/**
 * The two-pass planner agrees with what is written: the versions planned in memory for
 * a whole batch are, one after the other, legal next versions of their records.
 */
module PushPlan {
  import opened Prelude
  import opened Tables
  import opened Grouping
  import opened PushRules
  import opened PushLog

  /** One record's changes of a valid batch. */
  ghost predicate RecordChain(chain: Chain<Indexed>) {
    && (forall i :: 0 <= i < |chain.items| ==> chain.items[i].change.recordId == chain.recordId)
    && (forall i, j :: 0 <= i < j < |chain.items| ==> chain.items[i].index < chain.items[j].index)
    && (forall i, j :: 0 <= i < j < |chain.items| ==>
          chain.items[i].change.clientChangeId != chain.items[j].change.clientChangeId)
  }

  ghost predicate BatchChains(chains: seq<Chain<Indexed>>) {
    && DistinctRecords(chains)
    && (forall k :: 0 <= k < |chains| ==> RecordChain(chains[k]))
  }

  ghost predicate HasIndex(chains: seq<Chain<Indexed>>, index: nat) {
    exists k, i :: 0 <= k < |chains| && 0 <= i < |chains[k].items| && chains[k].items[i].index == index
  }

  /** A batch's chains hold every change once, under its own index. */
  lemma {:induction false} ChainsOfBatch(changes: seq<Change>)
    ensures var chains := ChainsOf(changes);
            && DistinctRecords(chains)
            && (forall k :: 0 <= k < |chains| ==> Lists(changes, chains[k]))
            && (forall n :: 0 <= n < |changes| ==> HasIndex(chains, n))
    ensures ValidBatch(changes) ==> BatchChains(ChainsOf(changes))
  {
    var xs := Enumerate(changes);
    var ids := RecordIds(changes);
    var chains := ChainsOf(changes);
    GroupIsPartition(xs, ids);
    forall k | 0 <= k < |chains|
      ensures Lists(changes, chains[k])
      ensures ValidBatch(changes) ==> RecordChain(chains[k])
    {
      ItemsOfRecord(changes, chains[k].recordId);
    }
    forall n | 0 <= n < |changes|
      ensures HasIndex(chains, n)
    {
      assert ids[n] in ids;
      var k :| 0 <= k < |chains| && chains[k].recordId == ids[n];
      assert chains[k].items == OfRecord(xs, ids, ids[n]);
      var i := ItemOfChange(changes, n);
      assert chains[k].items[i].index == n;
    }
  }

  /** Where a change of the batch is: the `p`-th of the `k`-th chain, which is its record's. */
  lemma {:induction false} PlaceOf(changes: seq<Change>, i: nat) returns (k: nat, p: nat)
    requires i < |changes|
    ensures k < |ChainsOf(changes)| && ChainsOf(changes)[k].recordId == changes[i].recordId
    ensures p < |ChainsOf(changes)[k].items| && ChainsOf(changes)[k].items[p] == Indexed(i, changes[i])
  {
    hide ChainsOf;
    var chains := ChainsOf(changes);
    ChainsOfBatch(changes);
    assert HasIndex(chains, i);
    k, p :| 0 <= k < |chains| && 0 <= p < |chains[k].items| && chains[k].items[p].index == i;
    assert Lists(changes, chains[k]);
  }

  /** A chain lists changes of the batch, all of its record, in batch order. */
  ghost predicate Lists(changes: seq<Change>, chain: Chain<Indexed>) {
    && (forall i :: 0 <= i < |chain.items| ==>
          var x := chain.items[i]; x.index < |changes| && x.change == changes[x.index] && x.change.recordId == chain.recordId)
    && (forall i, j :: 0 <= i < j < |chain.items| ==> chain.items[i].index < chain.items[j].index)
  }

  lemma {:induction false} ItemsOfRecord(changes: seq<Change>, r: RecordId)
    ensures Lists(changes, Chain(r, OfRecord(Enumerate(changes), RecordIds(changes), r)))
  {
    var places := OfRecordPlaces(Enumerate(changes), RecordIds(changes), r);
  }

  lemma {:induction false} ItemOfChange(changes: seq<Change>, n: nat) returns (i: nat)
    requires n < |changes|
    ensures var items := OfRecord(Enumerate(changes), RecordIds(changes), changes[n].recordId); i < |items| && items[i].index == n
  {
    var places := OfRecordPlaces(Enumerate(changes), RecordIds(changes), changes[n].recordId);
    i :| 0 <= i < |places| && places[i] == n;
  }

  ghost predicate IdIn(chain: seq<Indexed>, id: ChangeId) {
    exists i :: 0 <= i < |chain| && chain[i].change.clientChangeId == id
  }

  ghost predicate AppendedFrom(chain: seq<Indexed>, r: RecordId, appended: seq<Planned>) {
    forall i :: 0 <= i < |appended| ==> appended[i].version.recordId == r && IdIn(chain, appended[i].version.clientChangeId)
  }

  /** The record's versions are stored ones or written by the chain. */
  ghost predicate WrittenBy(stored: seq<Version>, all: seq<Version>, chain: seq<Indexed>, r: RecordId) {
    forall y :: y in all && y.recordId == r ==> y in stored || IdIn(chain, y.clientChangeId)
  }

  /** What a chain's draft is worth, written after versions of other records. */
  ghost predicate DraftFits(db: Db, prior: seq<Version>, chain: seq<Indexed>, r: RecordId, draft: Draft) {
    var stored := VersionsOf(db.records);
    var versions := prior + Versions(draft.appended);
    && FitsAll(db.vaults, stored, versions)
    && AppendedFrom(chain, r, draft.appended)
    && IsHead(stored + versions, r, draft.head)
    && (draft.head.Some? ==> draft.head.value.vaultId in db.vaults && draft.head.value.keyVersion <= db.vaults[draft.head.value.vaultId].keyVersion)
    && WrittenBy(stored, stored + versions, chain, r)
  }

  lemma {:induction false} IdInMore(before: seq<Indexed>, chain: seq<Indexed>, id: ChangeId)
    requires before <= chain && IdIn(before, id)
    ensures IdIn(chain, id)
  {
    var i :| 0 <= i < |before| && before[i].change.clientChangeId == id;
    assert chain[i] == before[i];
  }

  lemma {:induction false} WrittenByMore(stored: seq<Version>, before: seq<Version>, all: seq<Version>, prefix: seq<Indexed>, chain: seq<Indexed>, r: RecordId)
    requires WrittenBy(stored, before, prefix, r) && prefix <= chain
    requires forall y :: y in all ==> y in before || IdIn(chain, y.clientChangeId)
    ensures WrittenBy(stored, all, chain, r)
  {
    forall y | y in all && y.recordId == r
      ensures y in stored || IdIn(chain, y.clientChangeId)
    {
      if y in before && y !in stored {
        IdInMore(prefix, chain, y.clientChangeId);
      }
    }
  }

  lemma {:induction false} AppendedFromMore(prefix: seq<Indexed>, chain: seq<Indexed>, r: RecordId, appended: seq<Planned>)
    requires AppendedFrom(prefix, r, appended) && prefix <= chain
    ensures AppendedFrom(chain, r, appended)
  {
    forall i | 0 <= i < |appended|
      ensures appended[i].version.recordId == r && IdIn(chain, appended[i].version.clientChangeId)
    {
      IdInMore(prefix, chain, appended[i].version.clientChangeId);
    }
  }

  lemma {:induction false} DraftFitsMore(db: Db, prior: seq<Version>, before: seq<Indexed>, chain: seq<Indexed>, r: RecordId, draft: Draft)
    requires DraftFits(db, prior, before, r, draft)
    requires before <= chain
    ensures DraftFits(db, prior, chain, r, draft)
  {
    var stored := VersionsOf(db.records);
    var all := stored + (prior + Versions(draft.appended));
    AppendedFromMore(before, chain, r, draft.appended);
    WrittenByMore(stored, all, all, before, chain, r);
  }

  /** The stored head of a record, among all stored versions and versions of other records. */
  lemma {:induction false} StoredHead(db: Db, prior: seq<Version>, r: RecordId)
    requires Sound(db)
    requires FitsAll(db.vaults, VersionsOf(db.records), prior)
    requires forall x :: x in prior ==> x.recordId != r
    ensures DraftFits(db, prior, [], r, Draft(VersionIn(Head(db.records, r)), []))
  {
    var head := Head(db.records, r);
    var stored := VersionsOf(db.records);
    assert prior + Versions([]) == prior;
    forall y | y in stored + prior && y.recordId == r
      ensures y in stored && head.Some? && y.version <= head.value.v.version && y.keyVersion <= head.value.v.keyVersion && y.vaultId == head.value.v.vaultId
    {
      var i :| 0 <= i < |stored| && stored[i] == y;
      OneVaultPerRecord(db.records, db.records[i], head.value);
    }
    if head.Some? {
      var i :| 0 <= i < |stored| && db.records[i] == head.value;
      assert stored[i] in stored + prior;
      assert Placed(db.vaults, head.value);
    }
  }

  /** An appended change makes a legal next version. */
  lemma {:induction false} NextFits(db: Db, user: UserId, below: seq<Version>, change: Change, dbHeadVersion: nat, head: Option<Version>)
    requires IsHead(below, change.recordId, head)
    requires head.Some? ==> head.value.vaultId in db.vaults && head.value.keyVersion <= db.vaults[head.value.vaultId].keyVersion
    requires forall y :: y in below && y.recordId == change.recordId ==> y.clientChangeId != change.clientChangeId
    requires DecideChange(db, user, change, SimulatedFrom(head), dbHeadVersion).Append?
    ensures change.Put? || head.Some?
    ensures Fits(db.vaults, below, NextVersion(change, head, user))
  {
  }

  /** The record's versions so far, as an undecided change meets them. */
  lemma {:induction false} NotWrittenYet(db: Db, all: seq<Version>, before: seq<Indexed>, change: Change)
    requires WrittenBy(VersionsOf(db.records), all, before, change.recordId)
    requires StoredChange(db.records, change.recordId, change.clientChangeId).None?
    requires !IdIn(before, change.clientChangeId)
    ensures forall y :: y in all && y.recordId == change.recordId ==> y.clientChangeId != change.clientChangeId
  {
    var stored := VersionsOf(db.records);
    forall y | y in all && y.recordId == change.recordId
      ensures y.clientChangeId != change.clientChangeId
    {
      if y in stored {
        var i :| 0 <= i < |stored| && stored[i] == y;
        assert db.records[i] in db.records;
      }
    }
  }

  lemma {:induction false} DraftExtends(db: Db, user: UserId, prior: seq<Version>, before: seq<Indexed>, last: Indexed, r: RecordId, draft: Draft, dbHeadVersion: nat)
    requires DraftFits(db, prior, before, r, draft)
    requires last.change.recordId == r && !IdIn(before, last.change.clientChangeId)
    requires DecideChange(db, user, last.change, SimulatedFrom(draft.head), dbHeadVersion).Append?
    ensures last.change.Put? || draft.head.Some?
    ensures var x := NextVersion(last.change, draft.head, user);
            DraftFits(db, prior, before + [last], r, Draft(Some(x), draft.appended + [Planned(last.index, x)]))
  {
    var versions := prior + Versions(draft.appended);
    var all := VersionsOf(db.records) + versions;
    NotWrittenYet(db, all, before, last.change);
    NextFits(db, user, all, last.change, dbHeadVersion, draft.head);
    DraftAppends(db, prior, before, last, r, draft, NextVersion(last.change, draft.head, user));
  }

  lemma {:induction false} NewHead(vaults: map<VaultId, Vault>, below: seq<Version>, x: Version)
    requires Fits(vaults, below, x)
    ensures IsHead(below + [x], x.recordId, Some(x))
  {
    assert (below + [x])[|below|] == x;
  }

  lemma {:induction false} AppendPlanned(prior: seq<Version>, appended: seq<Planned>, p: Planned)
    ensures prior + Versions(appended + [p]) == (prior + Versions(appended)) + [p.version]
  {
  }

  lemma {:induction false} DraftAppends(db: Db, prior: seq<Version>, before: seq<Indexed>, last: Indexed, r: RecordId, draft: Draft, x: Version)
    requires DraftFits(db, prior, before, r, draft)
    requires Fits(db.vaults, VersionsOf(db.records) + (prior + Versions(draft.appended)), x)
    requires x.recordId == r && x.clientChangeId == last.change.clientChangeId
    ensures DraftFits(db, prior, before + [last], r, Draft(Some(x), draft.appended + [Planned(last.index, x)]))
  {
    var stored := VersionsOf(db.records);
    var versions := prior + Versions(draft.appended);
    var chain := before + [last];
    var p := Planned(last.index, x);
    AppendPlanned(prior, draft.appended, p);
    FitsAllExtend(db.vaults, stored, versions, x);
    LastIdIn(before, last);
    NewHead(db.vaults, stored + versions, x);
    WrittenByMore(stored, stored + versions, (stored + versions) + [x], before, chain, r);
    AppendedFromMore(before, chain, r, draft.appended);
    assert stored + (versions + [x]) == (stored + versions) + [x];
  }

  lemma {:induction false} LastIdIn(before: seq<Indexed>, last: Indexed)
    ensures IdIn(before + [last], last.change.clientChangeId)
  {
    assert (before + [last])[|before|] == last;
  }

  lemma {:induction false} ChainFits(db: Db, user: UserId, chain: seq<Indexed>, r: RecordId, prior: seq<Version>)
    requires Sound(db)
    requires FitsAll(db.vaults, VersionsOf(db.records), prior)
    requires forall x :: x in prior ==> x.recordId != r
    requires RecordChain(Chain(r, chain))
    requires Simulate(db, user, chain, Head(db.records, r)).failure.None?
    ensures var dbHead := Head(db.records, r);
            var outcomes := Simulate(db, user, chain, dbHead).outcomes;
            Writable(chain, outcomes, dbHead, user) && DraftFits(db, prior, chain, r, WriteChain(chain, outcomes, dbHead, user))
  {
    hide Sound, FitsAll, DraftFits, DecideChange, NextVersion, Head, StoredChange, IdIn;
    var dbHead := Head(db.records, r);
    SimulationAgrees(db, user, chain, dbHead);
    if chain == [] {
      StoredHead(db, prior, r);
    } else {
      var n := |chain| - 1;
      ChainPrefix(chain, r);
      SimulatedSoFar(db, user, chain, dbHead);
      ChainFits(db, user, chain[..n], r, prior);
      SimulationAgrees(db, user, chain[..n], dbHead);
      LastFits(db, user, chain, r, prior, dbHead);
    }
  }

  lemma {:induction false} ChainPrefix(chain: seq<Indexed>, r: RecordId)
    requires chain != [] && RecordChain(Chain(r, chain))
    ensures RecordChain(Chain(r, chain[..|chain| - 1]))
    ensures chain[|chain| - 1].change.recordId == r && !IdIn(chain[..|chain| - 1], chain[|chain| - 1].change.clientChangeId)
  {
  }

  lemma {:induction false} SimulatedSoFar(db: Db, user: UserId, chain: seq<Indexed>, dbHead: Option<Row>)
    requires chain != []
    ensures var n := |chain| - 1;
            var sim, before := Simulate(db, user, chain, dbHead), Simulate(db, user, chain[..n], dbHead);
            && sim.outcomes[..n] == before.outcomes
            && sim.outcomes[n] == DecideChange(db, user, chain[n].change, before.head, VersionOf(dbHead))
            && (sim.failure.None? ==> before.failure.None?)
  {
    hide DecideChange;
  }

  /** The last change of a chain, on top of a draft of the others that fits. */
  lemma {:induction false} LastFits(db: Db, user: UserId, chain: seq<Indexed>, r: RecordId, prior: seq<Version>, dbHead: Option<Row>)
    requires chain != [] && RecordChain(Chain(r, chain))
    requires var n := |chain| - 1;
             var sim, before := Simulate(db, user, chain, dbHead), Simulate(db, user, chain[..n], dbHead);
             && Writable(chain, sim.outcomes, dbHead, user) && Writable(chain[..n], before.outcomes, dbHead, user)
             && before.head == SimulatedFrom(WriteChain(chain[..n], before.outcomes, dbHead, user).head)
             && DraftFits(db, prior, chain[..n], r, WriteChain(chain[..n], before.outcomes, dbHead, user))
    ensures DraftFits(db, prior, chain, r, WriteChain(chain, Simulate(db, user, chain, dbHead).outcomes, dbHead, user))
  {
    hide DraftFits, DecideChange, NextVersion, Simulate, RecordChain, IdIn, Writable, SimulatedFrom;
    var n := |chain| - 1;
    var outcomes := Simulate(db, user, chain, dbHead).outcomes;
    SimulatedSoFar(db, user, chain, dbHead);
    ChainPrefix(chain, r);
    var draft := WriteChain(chain[..n], outcomes[..n], dbHead, user);
    if outcomes[n].Append? {
      DraftExtends(db, user, prior, chain[..n], chain[n], r, draft, VersionOf(dbHead));
      assert chain[..n] + [chain[n]] == chain;
    } else {
      DraftFitsMore(db, prior, chain[..n], chain, r, draft);
    }
  }

  lemma {:induction false} VersionsConcat(a: seq<Planned>, b: seq<Planned>)
    ensures Versions(a + b) == Versions(a) + Versions(b)
  {
  }

  /** One judged chain, written after versions of other records. */
  lemma {:induction false} JudgedFits(db: Db, user: UserId, budgets: map<UserId, int>, chain: Chain<Indexed>, prior: seq<Version>)
    requires Sound(db) && RecordChain(chain)
    requires FitsAll(db.vaults, VersionsOf(db.records), prior)
    requires forall x :: x in prior ==> x.recordId != chain.recordId
    ensures var versions := Versions(Judge(db, user, budgets, chain).0.appended);
            && FitsAll(db.vaults, VersionsOf(db.records), prior + versions)
            && forall x :: x in versions ==> x.recordId == chain.recordId && IdIn(chain.items, x.clientChangeId)
  {
    var dbHead := Head(db.records, chain.recordId);
    var sim := Simulate(db, user, chain.items, dbHead);
    if sim.failure.None? {
      ChainFits(db, user, chain.items, chain.recordId, prior);
    } else {
      NothingToWrite(chain.items, Broadcast(sim.outcomes, sim.failure.value), dbHead, user);
      assert prior + [] == prior;
    }
  }

  ghost predicate FromChains(chains: seq<Chain<Indexed>>, x: Version) {
    exists k :: 0 <= k < |chains| && chains[k].recordId == x.recordId && IdIn(chains[k].items, x.clientChangeId)
  }

  lemma {:induction false} FromMoreChains(chains: seq<Chain<Indexed>>, n: nat, x: Version)
    requires n < |chains| && DistinctRecords(chains) && FromChains(chains[..n], x)
    ensures FromChains(chains, x) && x.recordId != chains[n].recordId
  {
    var k :| 0 <= k < n && chains[..n][k].recordId == x.recordId && IdIn(chains[..n][k].items, x.clientChangeId);
    assert chains[k].recordId == x.recordId && IdIn(chains[k].items, x.clientChangeId);
  }

  lemma {:induction false} BatchChainsPrefix(chains: seq<Chain<Indexed>>, n: nat)
    requires n <= |chains| && BatchChains(chains)
    ensures BatchChains(chains[..n])
  {
    forall k | 0 <= k < n
      ensures RecordChain(chains[..n][k])
    {
      assert RecordChain(chains[k]);
    }
  }

  /** The whole plan: every version fits on top of the ones planned before it. */
  lemma {:induction false} PlanFits(db: Db, user: UserId, budgets: map<UserId, int>, chains: seq<Chain<Indexed>>, overQuota: bool)
    requires Sound(db) && BatchChains(chains)
    ensures var versions := Versions(PlanOf(JudgeAll(db, user, budgets, chains).judged, overQuota));
            && FitsAll(db.vaults, VersionsOf(db.records), versions)
            && forall x :: x in versions ==> FromChains(chains, x)
  {
    if chains != [] {
      var n := |chains| - 1;
      BatchChainsPrefix(chains, n);
      PlanFits(db, user, budgets, chains[..n], overQuota);
      var before, last := JudgeAllStep(db, user, budgets, chains);
      PlanFitsStep(db, user, before, last, chains, PlanOf(before.judged, overQuota));
      PlanOfAppend(before.judged, last, overQuota);
      var planned := PlanOf(before.judged, overQuota);
      var all := PlanOf(JudgeAll(db, user, budgets, chains).judged, overQuota);
      assert all == if Kept(last, overQuota) then planned + last.appended else planned;
    }
  }

  lemma {:induction false} PlanOfAppend(judged: seq<Judged>, last: Judged, overQuota: bool)
    ensures PlanOf(judged + [last], overQuota) ==
            if Kept(last, overQuota) then PlanOf(judged, overQuota) + last.appended else PlanOf(judged, overQuota)
  {
    assert (judged + [last])[..|judged|] == judged;
  }

  lemma {:induction false} JudgeAllStep(db: Db, user: UserId, budgets: map<UserId, int>, chains: seq<Chain<Indexed>>) returns (before: Docket, last: Judged)
    requires chains != []
    ensures before == JudgeAll(db, user, budgets, chains[..|chains| - 1])
    ensures last == Judge(db, user, before.budgets, chains[|chains| - 1]).0
    ensures JudgeAll(db, user, budgets, chains).judged == before.judged + [last]
  {
    before := JudgeAll(db, user, budgets, chains[..|chains| - 1]);
    last := Judge(db, user, before.budgets, chains[|chains| - 1]).0;
  }

  lemma {:induction false} PlanFitsStep(db: Db, user: UserId, before: Docket, last: Judged, chains: seq<Chain<Indexed>>, planned: seq<Planned>)
    requires Sound(db) && BatchChains(chains) && chains != []
    requires last == Judge(db, user, before.budgets, chains[|chains| - 1]).0
    requires FitsAll(db.vaults, VersionsOf(db.records), Versions(planned))
    requires forall x :: x in Versions(planned) ==> FromChains(chains[..|chains| - 1], x)
    ensures var more := last.appended;
            && FitsAll(db.vaults, VersionsOf(db.records), Versions(planned + more))
            && (forall x :: x in Versions(planned) ==> FromChains(chains, x))
            && (forall x :: x in Versions(planned + more) ==> FromChains(chains, x))
  {
    var n := |chains| - 1;
    var prior := Versions(planned);
    forall x | x in prior
      ensures x.recordId != chains[n].recordId && FromChains(chains, x)
    {
      FromMoreChains(chains, n, x);
    }
    JudgedFits(db, user, before.budgets, chains[n], prior);
    VersionsConcat(planned, Judge(db, user, before.budgets, chains[n]).0.appended);
  }

  lemma {:induction false} PlanBatchFits(db: Db, user: UserId, quota: int, changes: seq<Change>)
    requires Sound(db) && ValidBatch(changes)
    ensures FitsAll(db.vaults, VersionsOf(db.records), PlanBatch(db, user, quota, changes))
    ensures forall x :: x in PlanBatch(db, user, quota, changes) ==> FromChains(ChainsOf(changes), x)
  {
    ChainsOfBatch(changes);
    var judged := JudgeBatch(db, user, quota, changes);
    PlanFits(db, user, Budgets(db.vaults, quota), ChainsOf(changes), OverQuotaIn(judged));
  }
}
