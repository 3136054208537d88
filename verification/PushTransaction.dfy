/**
 * `pushChanges`: pass 1 decides the chains and drafts their versions against the
 * budgets, pass 2 drops move sources when a chain was over quota, then the planned
 * versions are written and every change of the batch has its answer.
 */
module PushTransaction {
  import opened Prelude
  import opened Tables
  import opened Grouping
  import opened PushRules
  import opened PushLog
  import opened PushPlan
  import opened PushEffect
  import opened PushAnswers
  import opened PushServer

  // ---- The answers so far ----

  /** Every change has its answer but those a version to be written is drafted for. */
  function AnswersIf(j: Judged, kept: bool): (answers: seq<Option<PushResult>>)
    requires |j.outcomes| == |j.chain|
    ensures |answers| == |j.chain|
  {
    seq(|j.chain|, p requires 0 <= p < |j.chain| => FirstAnswer(j.chain[p].change.clientChangeId, j.outcomes[p], kept))
  }

  function FirstAnswers(j: Judged): (answers: seq<Option<PushResult>>)
    requires |j.outcomes| == |j.chain|
    ensures |answers| == |j.chain|
  {
    AnswersIf(j, j.accepted)
  }

  function FirstAnswer(id: ChangeId, outcome: Outcome, accepted: bool): Option<PushResult> {
    match outcome
    case Failed(failure) => Some(Refused(id, failure))
    case Stored(row) => Some(Applied(id, SerializeRecord(row)))
    case Append => if accepted then None else Some(Refused(id, Rejected(OverQuota)))
  }

  /** A list holds these answers at the places of a chain's changes. */
  ghost predicate AnsweredAs(results: seq<Option<PushResult>>, chain: seq<Indexed>, answers: seq<Option<PushResult>>) {
    && |answers| == |chain|
    && forall p :: 0 <= p < |chain| ==>
         chain[p].index < |results| && (answers[p].Some? ==> results[chain[p].index] == answers[p])
  }

  /** Only answers to changes of one record differ. */
  ghost predicate SameElsewhere(changes: seq<Change>, recordId: RecordId, before: seq<Option<PushResult>>, after: seq<Option<PushResult>>) {
    && |before| == |after| == |changes|
    && forall i :: 0 <= i < |changes| && changes[i].recordId != recordId ==> after[i] == before[i]
  }

  /** The chain lists changes of the batch, all of one record, at their places. */
  ghost predicate ChainIn(changes: seq<Change>, chain: Chain<Indexed>) {
    && (forall p :: 0 <= p < |chain.items| ==>
          chain.items[p].index < |changes| && chain.items[p].change == changes[chain.items[p].index]
          && chain.items[p].change.recordId == chain.recordId)
    && (forall p, q :: 0 <= p < q < |chain.items| ==> chain.items[p].index != chain.items[q].index)
  }

  lemma {:induction false} AnswersElsewhere(changes: seq<Change>, recordId: RecordId, before: seq<Option<PushResult>>, after: seq<Option<PushResult>>,
                                            chain: Chain<Indexed>, answers: seq<Option<PushResult>>)
    requires SameElsewhere(changes, recordId, before, after)
    requires ChainIn(changes, chain) && chain.recordId != recordId
    requires AnsweredAs(before, chain.items, answers)
    ensures AnsweredAs(after, chain.items, answers)
  {
  }

  ghost predicate InAppended(appended: seq<Planned>, index: nat) {
    exists i :: 0 <= i < |appended| && appended[i].index == index
  }

  /** A chain's drafted versions are for exactly its appended changes. */
  lemma {:induction false} AppendedPlaces(changes: seq<Change>, db: Db, user: UserId, chain: Chain<Indexed>, j: Judged)
    requires ChainIn(changes, chain) && JudgedFor(db, user, chain, j)
    ensures forall p :: 0 <= p < |j.chain| ==> (j.outcomes[p].Append? <==> InAppended(j.appended, j.chain[p].index))
    ensures forall i :: 0 <= i < |j.appended| ==>
              j.appended[i].index < |changes| && changes[j.appended[i].index].recordId == chain.recordId
              && j.appended[i].version.clientChangeId == changes[j.appended[i].index].clientChangeId
              && j.appended[i].version.recordId == chain.recordId
  {
    WriteChainShape(j.chain, j.outcomes, j.dbHead, user);
    var head := VersionOf(j.dbHead);
    forall p | 0 <= p < |j.chain| && j.outcomes[p].Append?
      ensures InAppended(j.appended, j.chain[p].index)
    {
      assert PlannedFor(j.chain, j.outcomes, j.appended, head, p);
    }
    forall i | 0 <= i < |j.appended|
      ensures exists p :: 0 <= p < |j.chain| && j.outcomes[p].Append? && j.chain[p].index == j.appended[i].index
                          && Carries(j.chain[p].change, j.appended[i].version)
    {
      var p := AppendedHasChange(j.outcomes, i);
      assert PlannedFor(j.chain, j.outcomes, j.appended, head, p);
    }
  }

  // ---- Pass 1 ----

  /** Decide a chain: simulate its changes in turn, then let a failure take them all. */
  method DecideInTurn(db: Db, user: UserId, chain: seq<Indexed>, dbHead: Option<Row>) returns (outcomes: seq<Outcome>)
    ensures outcomes == DecideChain(db, user, chain, dbHead)
  {
    hide DecideChange;
    var head := SimulatedFrom(VersionIn(dbHead));
    var failure: Option<Failure> := None;
    outcomes := [];
    assert chain[..0] == [];
    for n := 0 to |chain|
      invariant Simulation(head, failure, outcomes) == Simulate(db, user, chain[..n], dbHead)
    {
      assert chain[..n + 1][..n] == chain[..n];
      var outcome := DecideChange(db, user, chain[n].change, head, VersionOf(dbHead));
      if outcome.Failed? {
        failure := if failure.None? then Some(outcome.failure) else failure;
      } else if outcome.Append? {
        head := Some(SimulatedHead((if head.None? then 0 else head.value.version) + 1, chain[n].change.vaultId));
      }
      outcomes := outcomes + [outcome];
    }
    assert chain[..|chain|] == chain;
    if failure.Some? {
      outcomes := Broadcast(outcomes, failure.value);
    }
  }

  lemma {:induction false} NothingDrafted(dbHead: Option<Row>, user: UserId)
    ensures Writable([], [], dbHead, user) && WriteChain([], [], dbHead, user) == Draft(VersionIn(dbHead), [])
  {
  }

  /** The draft of a chain's first changes, one further. */
  lemma {:induction false} DraftNext(chain: seq<Indexed>, outcomes: seq<Outcome>, dbHead: Option<Row>, user: UserId, n: nat)
    requires |outcomes| == |chain| && n < |chain| && Writable(chain, outcomes, dbHead, user)
    ensures Writable(chain[..n], outcomes[..n], dbHead, user) && Writable(chain[..n + 1], outcomes[..n + 1], dbHead, user)
    ensures var draft := WriteChain(chain[..n], outcomes[..n], dbHead, user);
            && (outcomes[n].Append? ==> chain[n].change.Put? || draft.head.Some?)
            && WriteChain(chain[..n + 1], outcomes[..n + 1], dbHead, user) ==
               if outcomes[n].Append? then
                 var version := NextVersion(chain[n].change, draft.head, user);
                 Draft(Some(version), draft.appended + [Planned(chain[n].index, version)])
               else draft
  {
    hide NextVersion;
    WritablePrefix(chain, outcomes, dbHead, user, n + 1);
    assert chain[..n + 1][..n] == chain[..n] && outcomes[..n + 1][..n] == outcomes[..n];
  }

  /** Draft a decided chain's versions, answering the changes that get none. */
  method DraftChain(user: UserId, chain: seq<Indexed>, outcomes: seq<Outcome>, dbHead: Option<Row>, before: seq<Option<PushResult>>)
      returns (appended: seq<Planned>, results: seq<Option<PushResult>>)
    requires |outcomes| == |chain| && Writable(chain, outcomes, dbHead, user)
    requires forall p :: 0 <= p < |chain| ==> chain[p].index < |before|
    requires forall p, q :: 0 <= p < q < |chain| ==> chain[p].index != chain[q].index
    ensures appended == WriteChain(chain, outcomes, dbHead, user).appended
    ensures |results| == |before|
    ensures forall p :: 0 <= p < |chain| && !outcomes[p].Append? ==>
              results[chain[p].index] == FirstAnswer(chain[p].change.clientChangeId, outcomes[p], true)
    ensures forall i :: 0 <= i < |before| && (forall p :: 0 <= p < |chain| ==> chain[p].index != i) ==> results[i] == before[i]
  {
    hide NextVersion, SerializeRecord, Writable, WriteChain;
    results := before;
    appended := [];
    var head := VersionIn(dbHead);
    NothingDrafted(dbHead, user);
    assert chain[..0] == [] && outcomes[..0] == [];
    for n := 0 to |chain|
      invariant Writable(chain[..n], outcomes[..n], dbHead, user)
      invariant Draft(head, appended) == WriteChain(chain[..n], outcomes[..n], dbHead, user)
      invariant |results| == |before|
      invariant forall p :: 0 <= p < n && !outcomes[p].Append? ==>
                  results[chain[p].index] == FirstAnswer(chain[p].change.clientChangeId, outcomes[p], true)
      invariant forall i :: 0 <= i < |before| && (forall p :: 0 <= p < n ==> chain[p].index != i) ==> results[i] == before[i]
    {
      DraftNext(chain, outcomes, dbHead, user, n);
      var x := chain[n];
      match outcomes[n]
      case Failed(failure) => results := results[x.index := Some(Refused(x.change.clientChangeId, failure))];
      case Stored(row) => results := results[x.index := Some(Applied(x.change.clientChangeId, SerializeRecord(row)))];
      case Append =>
        var version := NextVersion(x.change, head, user);
        appended := appended + [Planned(x.index, version)];
        head := Some(version);
    }
    assert chain[..|chain|] == chain && outcomes[..|outcomes|] == outcomes;
  }

  lemma {:induction false} WritablePrefix(chain: seq<Indexed>, outcomes: seq<Outcome>, dbHead: Option<Row>, user: UserId, n: nat)
    requires |outcomes| == |chain| && Writable(chain, outcomes, dbHead, user) && n <= |chain|
    ensures Writable(chain[..n], outcomes[..n], dbHead, user)
    decreases |chain|
  {
    if n == |chain| {
      assert chain[..n] == chain && outcomes[..n] == outcomes;
    } else {
      var m := |chain| - 1;
      WritablePrefix(chain[..m], outcomes[..m], dbHead, user, n);
      assert chain[..m][..n] == chain[..n] && outcomes[..m][..n] == outcomes[..n];
    }
  }

  /** Refuse every change a version was drafted for. */
  method RejectForQuota(changes: seq<Change>, appended: seq<Planned>, before: seq<Option<PushResult>>) returns (results: seq<Option<PushResult>>)
    requires |before| == |changes|
    requires forall i :: 0 <= i < |appended| ==> appended[i].index < |changes|
    ensures |results| == |before|
    ensures forall i :: 0 <= i < |before| ==>
              results[i] == if InAppended(appended, i) then Some(Refused(changes[i].clientChangeId, Rejected(OverQuota))) else before[i]
  {
    results := before;
    for n := 0 to |appended|
      invariant |results| == |before|
      invariant forall i :: 0 <= i < |before| ==>
                  results[i] == if InAppended(appended[..n], i) then Some(Refused(changes[i].clientChangeId, Rejected(OverQuota))) else before[i]
    {
      var index := appended[n].index;
      results := results[index := Some(Refused(changes[index].clientChangeId, Rejected(OverQuota)))];
      InAppendedNext(appended, n);
    }
    assert appended[..|appended|] == appended;
  }

  lemma {:induction false} InAppendedNext(appended: seq<Planned>, n: nat)
    requires n < |appended|
    ensures forall i :: InAppended(appended[..n + 1], i) <==> InAppended(appended[..n], i) || appended[n].index == i
  {
    forall i
      ensures InAppended(appended[..n + 1], i) <==> InAppended(appended[..n], i) || appended[n].index == i
    {
      if InAppended(appended[..n], i) {
        var m :| 0 <= m < n && appended[..n][m].index == i;
        assert appended[..n + 1][m].index == i;
      }
      if InAppended(appended[..n + 1], i) {
        var m :| 0 <= m < n + 1 && appended[..n + 1][m].index == i;
        assert m < n ==> appended[..n][m].index == i;
      }
      if appended[n].index == i {
        assert appended[..n + 1][n].index == i;
      }
    }
  }

  /** Whether the user may write to a vault of the batch. */
  predicate Writes(db: Db, user: UserId, changes: seq<Change>, id: VaultId) {
    Denied(db.vaults, user, id).None? && exists i :: 0 <= i < |changes| && changes[i].vaultId == id
  }

  /** The vaults of the batch the user may write to. */
  function WritableVaults(db: Db, user: UserId, changes: seq<Change>): (ids: set<VaultId>)
    ensures forall id :: id in ids <==> Writes(db, user, changes, id)
    ensures ids <= db.vaults.Keys
  {
    set id | id in db.vaults && Writes(db, user, changes, id)
  }

  /** Every appended version goes to a vault the batch may write to. */
  lemma {:induction false} AppendedWrites(db: Db, user: UserId, changes: seq<Change>, chain: Chain<Indexed>, j: Judged)
    requires ChainIn(changes, chain) && JudgedFor(db, user, chain, j)
    ensures forall i :: 0 <= i < |j.appended| ==> Writes(db, user, changes, j.appended[i].version.vaultId)
  {
    WriteChainShape(j.chain, j.outcomes, j.dbHead, user);
    forall i | 0 <= i < |j.appended|
      ensures Writes(db, user, changes, j.appended[i].version.vaultId)
    {
      var p := AppendedHasChange(j.outcomes, i);
      assert PlannedFor(j.chain, j.outcomes, j.appended, VersionOf(j.dbHead), p);
      AppendAllowed(db, user, j.chain, j.dbHead, p);
    }
  }

  /** A simulated head stays in the vault of the record. */
  lemma {:induction false} HeadStaysHome(db: Db, user: UserId, chain: seq<Indexed>, dbHead: Option<Row>)
    requires dbHead.Some?
    ensures var head := Simulate(db, user, chain, dbHead).head; head.Some? && head.value.vaultId == dbHead.value.v.vaultId
  {
    if chain != [] {
      HeadStaysHome(db, user, chain[..|chain| - 1], dbHead);
    }
  }

  /** Nothing is appended to a record whose vault the batch may not write to. */
  lemma {:induction false} AppendsAtHome(db: Db, user: UserId, changes: seq<Change>, chain: Chain<Indexed>, j: Judged)
    requires ChainIn(changes, chain) && JudgedFor(db, user, chain, j) && j.dbHead.Some?
    requires j.appended != []
    ensures Writes(db, user, changes, j.dbHead.value.v.vaultId)
  {
    WriteChainShape(j.chain, j.outcomes, j.dbHead, user);
    var p := AppendedHasChange(j.outcomes, 0);
    AppendAllowed(db, user, j.chain, j.dbHead, p);
    DecidedAt(db, user, j.chain, j.dbHead, p);
    HeadStaysHome(db, user, j.chain[..p], j.dbHead);
  }

  /** The key versions pass 1 reads: those of the writable vaults. */
  function KeyVersions(db: Db, ids: set<VaultId>): map<VaultId, nat>
    requires ids <= db.vaults.Keys
  {
    map id | id in ids :: db.vaults[id].keyVersion
  }

  /** What a chain takes from the budgets; a rewrite of an old-key record takes nothing. */
  method FitsBudget(db: Db, user: UserId, changes: seq<Change>, chain: Chain<Indexed>, dbHead: Option<Row>, appended: seq<Planned>,
                    keyVersions: map<VaultId, nat>, budgets: map<VaultId, StorageBudget>, ghost left: map<UserId, int>)
      returns (fits: bool)
    requires ChainIn(changes, chain)
    requires Judge(db, user, left, chain).0.dbHead == dbHead && Judge(db, user, left, chain).0.appended == appended
    requires keyVersions == KeyVersions(db, WritableVaults(db, user, changes))
    requires budgets.Keys == WritableVaults(db, user, changes)
    requires Mirrors(budgets, db.vaults, left)
    modifies Objects(budgets)
    ensures fits == Judge(db, user, left, chain).0.accepted
    ensures Mirrors(budgets, db.vaults, Judge(db, user, left, chain).1)
  {
    ghost var spec := Judge(db, user, left, chain).0;
    JudgeGives(db, user, left, chain);
    var rewritesOldKey := dbHead.Some? && dbHead.value.v.keyVersion < (if dbHead.value.v.vaultId in keyVersions then keyVersions[dbHead.value.v.vaultId] else 0);
    if rewritesOldKey {
      return true;
    }
    if RewritesOldKey(db.vaults, dbHead) {
      assert appended == [] by {
        if appended != [] {
          AppendsAtHome(db, user, changes, chain, spec);
        }
      }
    }
    AppendedWrites(db, user, changes, chain, spec);
    fits := TakeFromBudget(db.vaults, chain.items, appended, budgets, left);
  }

  /** The answers of a draft, with the refusals of a chain over quota. */
  lemma {:induction false} DraftAnswers(changes: seq<Change>, chain: Chain<Indexed>, j: Judged, drafted: seq<Option<PushResult>>, results: seq<Option<PushResult>>)
    requires ChainIn(changes, chain) && j.chain == chain.items && |j.outcomes| == |j.chain| && |drafted| == |changes| == |results|
    requires forall p :: 0 <= p < |j.chain| ==> (j.outcomes[p].Append? <==> InAppended(j.appended, j.chain[p].index))
    requires forall p :: 0 <= p < |j.chain| && !j.outcomes[p].Append? ==>
               drafted[j.chain[p].index] == FirstAnswer(j.chain[p].change.clientChangeId, j.outcomes[p], true)
    requires forall i :: 0 <= i < |changes| ==>
               results[i] == if !j.accepted && InAppended(j.appended, i) then Some(Refused(changes[i].clientChangeId, Rejected(OverQuota))) else drafted[i]
    ensures AnsweredAs(results, chain.items, FirstAnswers(j))
  {
  }

  /** What drafting leaves in the list: the answers to the changes that get no version, and every other place as it was. */
  ghost predicate Drafted(chain: seq<Indexed>, outcomes: seq<Outcome>, before: seq<Option<PushResult>>, drafted: seq<Option<PushResult>>)
    requires |outcomes| == |chain|
  {
    && |drafted| == |before|
    && (forall p :: 0 <= p < |chain| && !outcomes[p].Append? ==>
          chain[p].index < |drafted| && drafted[chain[p].index] == FirstAnswer(chain[p].change.clientChangeId, outcomes[p], true))
    && (forall i :: 0 <= i < |before| && (forall p :: 0 <= p < |chain| ==> chain[p].index != i) ==> drafted[i] == before[i])
  }

  /** Decide a chain and draft its versions. */
  method DecideAndDraft(db: Db, user: UserId, changes: seq<Change>, chain: Chain<Indexed>, before: seq<Option<PushResult>>)
      returns (dbHead: Option<Row>, outcomes: seq<Outcome>, appended: seq<Planned>, drafted: seq<Option<PushResult>>)
    requires ChainIn(changes, chain) && |before| == |changes|
    ensures dbHead == Head(db.records, chain.recordId) && outcomes == DecideChain(db, user, chain.items, dbHead) && |outcomes| == |chain.items|
    ensures Writable(chain.items, outcomes, dbHead, user) && appended == WriteChain(chain.items, outcomes, dbHead, user).appended
    ensures Drafted(chain.items, outcomes, before, drafted)
  {
    hide Writable, WriteChain, FirstAnswer;
    dbHead := Head(db.records, chain.recordId);
    outcomes := DecideInTurn(db, user, chain.items, dbHead);
    DecidedIsWritable(db, user, chain.items, dbHead);
    appended, drafted := DraftChain(user, chain.items, outcomes, dbHead, before);
  }

  /** Answer a chain's changes: as drafted, or refused altogether when it does not fit. */
  method AnswerChain(ghost db: Db, ghost user: UserId, changes: seq<Change>, chain: Chain<Indexed>, j: Judged, ghost before: seq<Option<PushResult>>, drafted: seq<Option<PushResult>>)
      returns (results: seq<Option<PushResult>>)
    requires ChainIn(changes, chain) && JudgedFor(db, user, chain, j) && |before| == |changes|
    requires |j.outcomes| == |j.chain| && Drafted(j.chain, j.outcomes, before, drafted)
    ensures |j.outcomes| == |j.chain| && AnsweredAs(results, j.chain, FirstAnswers(j))
    ensures |results| == |changes| && SameElsewhere(changes, chain.recordId, before, results)
  {
    assert j.chain == chain.items;
    AppendedPlaces(changes, db, user, chain, j);
    hide JudgedFor, InAppended, FirstAnswers, FirstAnswer, AnsweredAs;
    results := drafted;
    if !j.accepted {
      results := RejectForQuota(changes, j.appended, results);
    }
    DraftAnswers(changes, chain, j, drafted, results);
    Elsewhere(changes, chain, j, before, drafted, results);
  }

  lemma {:induction false} Elsewhere(changes: seq<Change>, chain: Chain<Indexed>, j: Judged, before: seq<Option<PushResult>>, drafted: seq<Option<PushResult>>, results: seq<Option<PushResult>>)
    requires ChainIn(changes, chain) && j.chain == chain.items && |j.outcomes| == |j.chain|
    requires |before| == |changes| == |results| && Drafted(j.chain, j.outcomes, before, drafted)
    requires forall i :: 0 <= i < |j.appended| ==> j.appended[i].index < |changes| && changes[j.appended[i].index].recordId == chain.recordId
    requires forall i :: 0 <= i < |changes| ==> InAppended(j.appended, i) || results[i] == drafted[i]
    ensures |results| == |changes| && SameElsewhere(changes, chain.recordId, before, results)
  {
  }

  lemma {:induction false} JudgedParts(db: Db, user: UserId, left: map<UserId, int>, chain: Chain<Indexed>, dbHead: Option<Row>, outcomes: seq<Outcome>, appended: seq<Planned>)
    requires dbHead == Head(db.records, chain.recordId) && outcomes == DecideChain(db, user, chain.items, dbHead)
    requires |outcomes| == |chain.items| && Writable(chain.items, outcomes, dbHead, user) && appended == WriteChain(chain.items, outcomes, dbHead, user).appended
    ensures var j := Judge(db, user, left, chain).0;
            && j == Judged(chain.items, dbHead, outcomes, appended, j.accepted) && |j.outcomes| == |j.chain|
            && j.dbHead == dbHead && j.appended == appended && JudgedFor(db, user, chain, j)
  {
    hide WriteChain, DecideChain, Head, Writable, WithinQuota, RewritesOldKey;
  }

  /** Judge one chain: its decision, its draft, whether it fits, and the first answers to its changes. */
  method JudgeChain(db: Db, user: UserId, changes: seq<Change>, chain: Chain<Indexed>, keyVersions: map<VaultId, nat>,
                    budgets: map<VaultId, StorageBudget>, ghost left: map<UserId, int>, before: seq<Option<PushResult>>)
      returns (j: Judged, results: seq<Option<PushResult>>)
    requires ChainIn(changes, chain) && |before| == |changes|
    requires keyVersions == KeyVersions(db, WritableVaults(db, user, changes))
    requires budgets.Keys == WritableVaults(db, user, changes)
    requires Mirrors(budgets, db.vaults, left)
    modifies Objects(budgets)
    ensures j == Judge(db, user, left, chain).0
    ensures Mirrors(budgets, db.vaults, Judge(db, user, left, chain).1)
    ensures |j.outcomes| == |j.chain| && j.chain == chain.items && AnsweredAs(results, chain.items, FirstAnswers(j))
    ensures |results| == |changes| && SameElsewhere(changes, chain.recordId, before, results)
  {
    hide KeyVersions, WritableVaults, WriteChain, DecideChain, Head, Writable, AnsweredAs, FirstAnswers, SameElsewhere,
         Drafted, ChainIn, JudgedFor, WithinQuota, RewritesOldKey;
    var dbHead, outcomes, appended, drafted := DecideAndDraft(db, user, changes, chain, before);
    JudgedParts(db, user, left, chain, dbHead, outcomes, appended);
    var fits := FitsBudget(db, user, changes, chain, dbHead, appended, keyVersions, budgets, left);
    j := Judged(chain.items, dbHead, outcomes, appended, fits);
    results := AnswerChain(db, user, changes, chain, j, before, drafted);
  }

  /** The judged chains of a batch. */
  ghost predicate Judging(db: Db, user: UserId, changes: seq<Change>, chains: seq<Chain<Indexed>>, judged: seq<Judged>) {
    && DistinctRecords(chains) && |judged| == |chains|
    && forall k :: 0 <= k < |chains| ==> ChainIn(changes, chains[k]) && JudgedFor(db, user, chains[k], judged[k])
  }

  lemma {:induction false} BatchJudging(db: Db, user: UserId, quota: int, changes: seq<Change>)
    ensures Judging(db, user, changes, ChainsOf(changes), JudgeBatch(db, user, quota, changes))
  {
    BatchJudged(db, user, quota, changes);
    ChainsOfBatch(changes);
    var chains := ChainsOf(changes);
    forall k | 0 <= k < |chains|
      ensures ChainIn(changes, chains[k])
    {
      var places := OfRecordPlaces(Enumerate(changes), RecordIds(changes), chains[k].recordId);
      GroupIsPartition(Enumerate(changes), RecordIds(changes));
    }
  }

  function AcceptedIn(judged: seq<Judged>): seq<Judged> {
    if judged == [] then [] else
      var last := judged[|judged| - 1];
      AcceptedIn(judged[..|judged| - 1]) + (if last.accepted then [last] else [])
  }

  lemma {:induction false} PlanOfAccepted(judged: seq<Judged>, overQuota: bool)
    ensures PlanOf(AcceptedIn(judged), overQuota) == PlanOf(judged, overQuota)
  {
    if judged != [] {
      var n := |judged| - 1;
      PlanOfAccepted(judged[..n], overQuota);
      PlanOfAppend(AcceptedIn(judged[..n]), judged[n], overQuota);
      assert AcceptedIn(judged) == if judged[n].accepted then AcceptedIn(judged[..n]) + [judged[n]] else AcceptedIn(judged[..n]);
    }
  }

  /** Every judged chain has its first answers. */
  ghost predicate AnsweredFirst(results: seq<Option<PushResult>>, judged: seq<Judged>) {
    forall k :: 0 <= k < |judged| ==>
      |judged[k].outcomes| == |judged[k].chain| && AnsweredAs(results, judged[k].chain, FirstAnswers(judged[k]))
  }

  lemma {:induction false} AnsweredNext(changes: seq<Change>, chains: seq<Chain<Indexed>>, judged: seq<Judged>, j: Judged,
                                        before: seq<Option<PushResult>>, after: seq<Option<PushResult>>)
    requires DistinctRecords(chains) && |judged| < |chains|
    requires forall k :: 0 <= k < |chains| ==> ChainIn(changes, chains[k])
    requires forall k :: 0 <= k < |judged| ==> judged[k].chain == chains[k].items
    requires j.chain == chains[|judged|].items && |j.outcomes| == |j.chain|
    requires AnsweredFirst(before, judged)
    requires SameElsewhere(changes, chains[|judged|].recordId, before, after)
    requires AnsweredAs(after, j.chain, FirstAnswers(j))
    ensures AnsweredFirst(after, judged + [j])
  {
    forall k | 0 <= k < |judged|
      ensures AnsweredAs(after, judged[k].chain, FirstAnswers(judged[k]))
    {
      AnswersElsewhere(changes, chains[|judged|].recordId, before, after, chains[k], FirstAnswers(judged[k]));
    }
  }

  /** One chain more, with the budgets the earlier ones left. */
  method JudgeNext(db: Db, user: UserId, changes: seq<Change>, chains: seq<Chain<Indexed>>, n: nat, keyVersions: map<VaultId, nat>,
                   budgets: map<VaultId, StorageBudget>, ghost docket: Docket, acceptedBefore: seq<Judged>, wasOver: bool, before: seq<Option<PushResult>>)
      returns (ghost next: Docket, accepted: seq<Judged>, overQuota: bool, results: seq<Option<PushResult>>)
    requires Listed(changes, chains) && n < |chains| && |before| == |changes|
    requires keyVersions == KeyVersions(db, WritableVaults(db, user, changes))
    requires budgets.Keys == WritableVaults(db, user, changes)
    requires Mirrors(budgets, db.vaults, docket.budgets)
    requires |docket.judged| == n && ListsOf(chains, docket.judged)
    requires acceptedBefore == AcceptedIn(docket.judged) && wasOver == OverQuotaIn(docket.judged)
    requires AnsweredFirst(before, docket.judged)
    modifies Objects(budgets)
    ensures next == JudgedNext(db, user, docket, chains[n]) && |next.judged| == n + 1
    ensures Mirrors(budgets, db.vaults, next.budgets)
    ensures ListsOf(chains, next.judged)
    ensures accepted == AcceptedIn(next.judged) && overQuota == OverQuotaIn(next.judged)
    ensures |results| == |changes| && AnsweredFirst(results, next.judged)
  {
    hide AcceptedIn, OverQuotaIn, KeyVersions, WritableVaults, AnsweredFirst, AnsweredAs, SameElsewhere;
    var j;
    j, results := JudgeChain(db, user, changes, chains[n], keyVersions, budgets, docket.budgets, before);
    next := JudgedNext(db, user, docket, chains[n]);
    AnsweredNext(changes, chains, docket.judged, j, before, results);
    AddJudged(docket.judged, j);
    accepted, overQuota := acceptedBefore, wasOver;
    if j.accepted {
      accepted := accepted + [j];
    } else {
      overQuota := true;
    }
  }

  /** The docket with one more chain judged. */
  function JudgedNext(db: Db, user: UserId, docket: Docket, chain: Chain<Indexed>): Docket {
    var (judged, budgets) := Judge(db, user, docket.budgets, chain);
    Docket(docket.judged + [judged], budgets)
  }

  ghost predicate Listed(changes: seq<Change>, chains: seq<Chain<Indexed>>) {
    DistinctRecords(chains) && forall k :: 0 <= k < |chains| ==> ChainIn(changes, chains[k])
  }

  ghost predicate ListsOf(chains: seq<Chain<Indexed>>, judged: seq<Judged>) {
    |judged| <= |chains| && forall k :: 0 <= k < |judged| ==> judged[k].chain == chains[k].items
  }

  lemma {:induction false} JudgeAllNext(db: Db, user: UserId, start: map<UserId, int>, chains: seq<Chain<Indexed>>, n: nat)
    requires n < |chains|
    ensures JudgeAll(db, user, start, chains[..n + 1]) == JudgedNext(db, user, JudgeAll(db, user, start, chains[..n]), chains[n])
  {
    hide Judge;
    assert chains[..n + 1][..n] == chains[..n];
  }

  lemma {:induction false} NothingJudged(db: Db, user: UserId, start: map<UserId, int>, chains: seq<Chain<Indexed>>, results: seq<Option<PushResult>>)
    ensures JudgeAll(db, user, start, chains[..0]) == Docket([], start)
    ensures ListsOf(chains, []) && AnsweredFirst(results, []) && !OverQuotaIn([]) && AcceptedIn([]) == []
  {
  }

  /** Judge every chain of the batch. */
  method JudgeChains(db: Db, user: UserId, changes: seq<Change>, chains: seq<Chain<Indexed>>, keyVersions: map<VaultId, nat>,
                     budgets: map<VaultId, StorageBudget>, ghost start: map<UserId, int>)
      returns (ghost judged: seq<Judged>, accepted: seq<Judged>, overQuota: bool, results: seq<Option<PushResult>>)
    requires Listed(changes, chains)
    requires keyVersions == KeyVersions(db, WritableVaults(db, user, changes))
    requires budgets.Keys == WritableVaults(db, user, changes)
    requires Mirrors(budgets, db.vaults, start)
    modifies Objects(budgets)
    ensures judged == JudgeAll(db, user, start, chains).judged
    ensures accepted == AcceptedIn(judged) && overQuota == OverQuotaIn(judged)
    ensures |results| == |changes| && AnsweredFirst(results, judged)
  {
    ghost var docket := Docket([], start);
    accepted := [];
    overQuota := false;
    results := seq(|changes|, i => None);
    NothingJudged(db, user, start, chains, results);
    hide JudgeAll, AcceptedIn, JudgedNext, Mirrors, Objects, ListsOf, AnsweredFirst, OverQuotaIn, Listed, WritableVaults, KeyVersions;
    for n := 0 to |chains|
      invariant docket == JudgeAll(db, user, start, chains[..n]) && |docket.judged| == n
      invariant Mirrors(budgets, db.vaults, docket.budgets)
      invariant ListsOf(chains, docket.judged)
      invariant accepted == AcceptedIn(docket.judged) && overQuota == OverQuotaIn(docket.judged)
      invariant |results| == |changes| && AnsweredFirst(results, docket.judged)
    {
      JudgeAllNext(db, user, start, chains, n);
      docket, accepted, overQuota, results := JudgeNext(db, user, changes, chains, n, keyVersions, budgets, docket, accepted, overQuota, results);
    }
    assert chains[..|chains|] == chains;
    judged := docket.judged;
  }

  lemma {:induction false} AddJudged(judged: seq<Judged>, j: Judged)
    ensures AcceptedIn(judged + [j]) == if j.accepted then AcceptedIn(judged) + [j] else AcceptedIn(judged)
    ensures OverQuotaIn(judged + [j]) <==> OverQuotaIn(judged) || !j.accepted
  {
    assert (judged + [j])[..|judged|] == judged;
    if OverQuotaIn(judged) {
      var i :| 0 <= i < |judged| && !judged[i].accepted;
      assert !(judged + [j])[i].accepted;
    }
    if !j.accepted {
      assert !(judged + [j])[|judged|].accepted;
    }
  }

  // ---- Pass 2 ----

  ghost predicate Settled(results: seq<Option<PushResult>>, j: Judged, kept: bool) {
    |j.outcomes| == |j.chain| && AnsweredAs(results, j.chain, AnswersIf(j, kept))
  }

  /** The answers after refusing the changes these versions were drafted for. */
  ghost predicate RefusedIn(changes: seq<Change>, appended: seq<Planned>, before: seq<Option<PushResult>>, after: seq<Option<PushResult>>) {
    && |before| == |after| == |changes|
    && forall i :: 0 <= i < |changes| ==>
         after[i] == if InAppended(appended, i) then Some(Refused(changes[i].clientChangeId, Rejected(OverQuota))) else before[i]
  }

  /** Refusing a chain's drafts settles that chain. */
  lemma {:induction false} RefuseOwn(db: Db, user: UserId, changes: seq<Change>, chain: Chain<Indexed>, j: Judged, before: seq<Option<PushResult>>, after: seq<Option<PushResult>>)
    requires ChainIn(changes, chain) && JudgedFor(db, user, chain, j)
    requires RefusedIn(changes, j.appended, before, after)
    requires Settled(before, j, true)
    ensures Settled(after, j, true) && Settled(after, j, false)
  {
    AppendedPlaces(changes, db, user, chain, j);
  }

  /** Refusing a chain's drafts leaves the answers of the others. */
  lemma {:induction false} RefuseOther(db: Db, user: UserId, changes: seq<Change>, chain: Chain<Indexed>, j: Judged,
                                       other: Chain<Indexed>, o: Judged, before: seq<Option<PushResult>>, after: seq<Option<PushResult>>)
    requires ChainIn(changes, chain) && JudgedFor(db, user, chain, j)
    requires ChainIn(changes, other) && JudgedFor(db, user, other, o) && other.recordId != chain.recordId
    requires RefusedIn(changes, j.appended, before, after)
    ensures forall kept :: Settled(before, o, kept) ==> Settled(after, o, kept)
  {
    AppendedPlaces(changes, db, user, chain, j);
  }

  /** Where the answers stand after `accepted[..n]` went through pass 2. */
  ghost predicate SettledUpTo(results: seq<Option<PushResult>>, judged: seq<Judged>, done: seq<Judged>, overQuota: bool) {
    && (forall k :: 0 <= k < |judged| ==> Settled(results, judged[k], judged[k].accepted))
    && (forall k :: 0 <= k < |judged| && judged[k] in done ==> Settled(results, judged[k], Kept(judged[k], overQuota)))
  }

  lemma {:induction false} SettleNext(db: Db, user: UserId, changes: seq<Change>, chains: seq<Chain<Indexed>>, judged: seq<Judged>, done: seq<Judged>, k: nat,
                                      overQuota: bool, before: seq<Option<PushResult>>, after: seq<Option<PushResult>>)
    requires Judging(db, user, changes, chains, judged) && k < |judged| && judged[k].accepted
    requires SettledUpTo(before, judged, done, overQuota)
    requires if Kept(judged[k], overQuota) then after == before else RefusedIn(changes, judged[k].appended, before, after)
    ensures SettledUpTo(after, judged, done + [judged[k]], overQuota)
  {
    hide Kept, Settled, RefusedIn, ChainIn, JudgedFor;
    if !Kept(judged[k], overQuota) {
      RefuseOwn(db, user, changes, chains[k], judged[k], before, after);
    }
    forall m | 0 <= m < |judged|
      ensures Settled(after, judged[m], judged[m].accepted)
      ensures judged[m] in done + [judged[k]] ==> Settled(after, judged[m], Kept(judged[m], overQuota))
    {
      assert Settled(before, judged[m], judged[m].accepted);
      if !Kept(judged[k], overQuota) && m != k {
        RefuseOther(db, user, changes, chains[k], judged[k], chains[m], judged[m], before, after);
      }
    }
  }

  lemma {:induction false} NothingPlanned(overQuota: bool)
    ensures PlanOf([], overQuota) == []
  {
  }

  /** One accepted chain in the second pass: its versions are planned, or refused when it moves a record away over quota. */
  method KeepOrDrop(ghost db: Db, ghost user: UserId, changes: seq<Change>, ghost chains: seq<Chain<Indexed>>, ghost judged: seq<Judged>,
                    ghost done: seq<Judged>, j: Judged, overQuota: bool, plannedBefore: seq<Planned>, before: seq<Option<PushResult>>)
      returns (planned: seq<Planned>, results: seq<Option<PushResult>>)
    requires Judging(db, user, changes, chains, judged) && j in AcceptedIn(judged) && |before| == |changes|
    requires plannedBefore == PlanOf(done, overQuota) && SettledUpTo(before, judged, done, overQuota)
    ensures planned == PlanOf(done + [j], overQuota)
    ensures |results| == |changes| && SettledUpTo(results, judged, done + [j], overQuota)
  {
    hide SettledUpTo, ChainIn, JudgedFor, HasMoveSource, PlanOf, AcceptedIn, DistinctRecords;
    planned, results := plannedBefore, before;
    PlanOfAppend(done, j, overQuota);
    ghost var k := AcceptedMember(judged, j);
    AppendedPlaces(changes, db, user, chains[k], j);
    if overQuota && HasMoveSource(j.chain) {
      results := RejectForQuota(changes, j.appended, results);
    } else {
      planned := planned + j.appended;
    }
    SettleNext(db, user, changes, chains, judged, done, k, overQuota, before, results);
  }

  /** Leave out the move sources when a chain was over quota, refusing their changes. */
  method DropMoveSources(ghost db: Db, ghost user: UserId, changes: seq<Change>, ghost chains: seq<Chain<Indexed>>, ghost judged: seq<Judged>,
                         accepted: seq<Judged>, overQuota: bool, before: seq<Option<PushResult>>)
      returns (planned: seq<Planned>, results: seq<Option<PushResult>>)
    requires Judging(db, user, changes, chains, judged) && accepted == AcceptedIn(judged)
    requires |before| == |changes| && SettledUpTo(before, judged, [], overQuota)
    ensures planned == PlanOf(judged, overQuota)
    ensures |results| == |changes|
    ensures forall k :: 0 <= k < |judged| ==> Settled(results, judged[k], Kept(judged[k], overQuota))
  {
    hide *;
    NothingPlanned(overQuota);
    planned := [];
    results := before;
    assert accepted[..0] == [];
    for n := 0 to |accepted|
      invariant planned == PlanOf(accepted[..n], overQuota)
      invariant |results| == |changes| && SettledUpTo(results, judged, accepted[..n], overQuota)
    {
      assert accepted[..n + 1] == accepted[..n] + [accepted[n]];
      planned, results := KeepOrDrop(db, user, changes, chains, judged, accepted[..n], accepted[n], overQuota, planned, results);
    }
    assert accepted[..|accepted|] == accepted;
    PlanOfAccepted(judged, overQuota);
    AllSettled(results, judged, overQuota);
  }

  lemma {:induction false} AllSettled(results: seq<Option<PushResult>>, judged: seq<Judged>, overQuota: bool)
    requires SettledUpTo(results, judged, AcceptedIn(judged), overQuota)
    ensures forall k :: 0 <= k < |judged| ==> Settled(results, judged[k], Kept(judged[k], overQuota))
  {
    hide Settled;
    forall k | 0 <= k < |judged|
      ensures Settled(results, judged[k], Kept(judged[k], overQuota))
    {
      if judged[k].accepted {
        AcceptedListed(judged, k);
      }
    }
  }

  lemma {:induction false} AcceptedMember(judged: seq<Judged>, j: Judged) returns (k: nat)
    requires j in AcceptedIn(judged)
    ensures k < |judged| && judged[k] == j && j.accepted
  {
    var n := |judged| - 1;
    if j in AcceptedIn(judged[..n]) {
      k := AcceptedMember(judged[..n], j);
    } else {
      k := n;
    }
  }

  lemma {:induction false} AcceptedListed(judged: seq<Judged>, k: nat)
    requires k < |judged| && judged[k].accepted
    ensures judged[k] in AcceptedIn(judged)
  {
    var n := |judged| - 1;
    if k < n {
      AcceptedListed(judged[..n], k);
    }
  }

  // ---- The written versions ----

  /** Each planned version is for the change at its place, no change twice. */
  ghost predicate PlannedOnce(changes: seq<Change>, planned: seq<Planned>) {
    && (forall i :: 0 <= i < |planned| ==>
          planned[i].index < |changes| && changes[planned[i].index].clientChangeId == planned[i].version.clientChangeId
          && changes[planned[i].index].recordId == planned[i].version.recordId)
    && (forall i, j :: 0 <= i < j < |planned| ==> planned[i].index != planned[j].index)
  }

  lemma {:induction false} PlanMember(judged: seq<Judged>, overQuota: bool, p: Planned) returns (k: nat)
    requires p in PlanOf(judged, overQuota)
    ensures k < |judged| && Kept(judged[k], overQuota) && p in judged[k].appended
  {
    var n := |judged| - 1;
    if p in PlanOf(judged[..n], overQuota) {
      k := PlanMember(judged[..n], overQuota, p);
    } else {
      k := n;
    }
  }

  lemma {:induction false} PlanHolds(judged: seq<Judged>, overQuota: bool, k: nat, p: Planned)
    requires k < |judged| && Kept(judged[k], overQuota) && p in judged[k].appended
    ensures p in PlanOf(judged, overQuota)
  {
    hide Kept;
    var n := |judged| - 1;
    if k < n {
      PlanHolds(judged[..n], overQuota, k, p);
    }
  }

  lemma {:induction false} PlanIsOnce(db: Db, user: UserId, quota: int, changes: seq<Change>, planned: seq<Planned>)
    requires Sound(db) && ValidBatch(changes)
    requires var judged := JudgeBatch(db, user, quota, changes); planned == PlanOf(judged, OverQuotaIn(judged))
    ensures PlannedOnce(changes, planned)
  {
    var judged := JudgeBatch(db, user, quota, changes);
    var chains := ChainsOf(changes);
    BatchJudging(db, user, quota, changes);
    forall i | 0 <= i < |planned|
      ensures planned[i].index < |changes| && changes[planned[i].index].clientChangeId == planned[i].version.clientChangeId
              && changes[planned[i].index].recordId == planned[i].version.recordId
    {
      hide Judging, OverQuotaIn, Kept, Sound, ValidBatch, JudgeBatch;
      var k := PlanMember(judged, OverQuotaIn(judged), planned[i]);
      PlannedPlace(db, user, changes, chains, judged, k, planned[i]);
    }
    PlannedDiffer(db, user, quota, changes, planned);
  }

  lemma {:induction false} PlannedPlace(db: Db, user: UserId, changes: seq<Change>, chains: seq<Chain<Indexed>>, judged: seq<Judged>, k: nat, p: Planned)
    requires Judging(db, user, changes, chains, judged) && k < |judged| && p in judged[k].appended
    ensures p.index < |changes| && changes[p.index].clientChangeId == p.version.clientChangeId && changes[p.index].recordId == p.version.recordId
    ensures p.version.recordId == chains[k].recordId
  {
    AppendedPlaces(changes, db, user, chains[k], judged[k]);
  }

  lemma {:induction false} PlannedDiffer(db: Db, user: UserId, quota: int, changes: seq<Change>, planned: seq<Planned>)
    requires Sound(db) && ValidBatch(changes)
    requires Versions(planned) == PlanBatch(db, user, quota, changes)
    requires forall i :: 0 <= i < |planned| ==>
               planned[i].index < |changes| && changes[planned[i].index].clientChangeId == planned[i].version.clientChangeId
               && changes[planned[i].index].recordId == planned[i].version.recordId
    ensures forall i, j :: 0 <= i < j < |planned| ==> planned[i].index != planned[j].index
  {
    WrittenRows(db, user, quota, changes);
    var written := PushWritten(db, user, quota, changes);
    OrderedSuffix(db.records, written);
    forall i, j | 0 <= i < j < |planned|
      ensures planned[i].index != planned[j].index
    {
      assert written[i].v == Versions(planned)[i] && written[j].v == Versions(planned)[j];
      assert Precedes(written[i], written[j]);
    }
  }

  /** Answer the written versions' changes. */
  method AnswerWritten(changes: seq<Change>, planned: seq<Planned>, written: seq<Row>, before: seq<Option<PushResult>>) returns (results: seq<Option<PushResult>>)
    requires |before| == |changes| && |written| == |planned| && PlannedOnce(changes, planned)
    ensures |results| == |changes|
    ensures forall i :: 0 <= i < |planned| ==>
              results[planned[i].index] == Some(Applied(written[i].v.clientChangeId, SerializeRecord(written[i])))
    ensures forall m :: 0 <= m < |changes| && !InAppended(planned, m) ==> results[m] == before[m]
  {
    hide SerializeRecord;
    results := before;
    for n := 0 to |planned|
      invariant |results| == |changes|
      invariant forall i :: 0 <= i < n ==>
                  results[planned[i].index] == Some(Applied(written[i].v.clientChangeId, SerializeRecord(written[i])))
      invariant forall m :: 0 <= m < |changes| && !InAppended(planned, m) ==> results[m] == before[m]
    {
      assert InAppended(planned, planned[n].index);
      results := results[planned[n].index := Some(Applied(written[n].v.clientChangeId, SerializeRecord(written[n])))];
    }
  }

  /** The answer to a change of a kept draft is the row written for it. */
  lemma {:induction false} KeptAnswer(db: Db, user: UserId, quota: int, changes: seq<Change>, planned: seq<Planned>, k: nat, p: nat) returns (i: nat)
    requires Sound(db) && ValidBatch(changes)
    requires var judged := JudgeBatch(db, user, quota, changes);
             planned == PlanOf(judged, OverQuotaIn(judged)) && k < |judged| && |judged[k].outcomes| == |judged[k].chain| && p < |judged[k].chain|
             && judged[k].outcomes[p].Append? && Kept(judged[k], OverQuotaIn(judged))
    ensures var judged := JudgeBatch(db, user, quota, changes);
            var written := PushWritten(db, user, quota, changes);
            i < |planned| == |written| && planned[i].index == judged[k].chain[p].index
            && AnswerTo(judged[k], p, OverQuotaIn(judged), written) == Applied(written[i].v.clientChangeId, SerializeRecord(written[i]))
  {
    hide OverQuotaIn, Kept, Sound, ValidBatch, JudgeBatch, SerializeRecord, ChainsOf, PushWritten, PlanOf, DistinctRecords, ChainIn;
    var judged := JudgeBatch(db, user, quota, changes);
    var written := PushWritten(db, user, quota, changes);
    BatchJudging(db, user, quota, changes);
    var j := judged[k];
    WriteChainShape(j.chain, j.outcomes, j.dbHead, user);
    assert PlannedFor(j.chain, j.outcomes, j.appended, VersionOf(j.dbHead), p);
    var x := j.appended[Appends(j.outcomes[..p])];
    PlanHolds(judged, OverQuotaIn(judged), k, x);
    i :| 0 <= i < |planned| && planned[i] == x;
    assert PlanBatch(db, user, quota, changes)[i] == x.version;
    var w := FoundByChange(db, user, quota, changes, x.version);
    WrittenRows(db, user, quota, changes);
    SameRow(db, user, quota, changes, w, written[i]);
  }

  lemma {:induction false} SameRow(db: Db, user: UserId, quota: int, changes: seq<Change>, a: Row, b: Row)
    requires Sound(db) && ValidBatch(changes)
    requires a in PushWritten(db, user, quota, changes) && b in PushWritten(db, user, quota, changes) && a.v == b.v
    ensures a == b
  {
    WrittenRows(db, user, quota, changes);
    OneVaultPerRecord(PushInserted(db, user, quota, changes).records, a, b);
  }

  /** A change with no kept draft is not at the place of a planned version. */
  lemma {:induction false} NotPlanned(db: Db, user: UserId, changes: seq<Change>, chains: seq<Chain<Indexed>>, judged: seq<Judged>, overQuota: bool, k: nat, p: nat)
    requires Judging(db, user, changes, chains, judged) && k < |judged| && p < |judged[k].chain|
    requires !(judged[k].outcomes[p].Append? && Kept(judged[k], overQuota))
    ensures !InAppended(PlanOf(judged, overQuota), judged[k].chain[p].index)
  {
    hide Kept;
    var planned := PlanOf(judged, overQuota);
    var index := judged[k].chain[p].index;
    if InAppended(planned, index) {
      var i :| 0 <= i < |planned| && planned[i].index == index;
      var m := PlanMember(judged, overQuota, planned[i]);
      PlannedPlace(db, user, changes, chains, judged, m, planned[i]);
      assert changes[index].recordId == chains[k].recordId;
      assert m == k;
      AppendedPlaces(changes, db, user, chains[k], judged[k]);
    }
  }

  /** The answer to the `p`-th change of a batch's `k`-th chain is at that change's place. */
  ghost predicate AnsweredAt(db: Db, user: UserId, quota: int, changes: seq<Change>, results: seq<PushResult>, k: nat, p: nat)
    requires Sound(db) && ValidBatch(changes)
  {
    var judged := JudgeBatch(db, user, quota, changes);
    && k < |judged| && |judged[k].outcomes| == |judged[k].chain| && p < |judged[k].chain|
    && judged[k].chain[p].index < |results|
    && results[judged[k].chain[p].index] == AnswerTo(judged[k], p, OverQuotaIn(judged), PushWritten(db, user, quota, changes))
  }

  /** One answer per change, in order: the one the rules give it, under its id. */
  ghost predicate AllAnswered(db: Db, user: UserId, quota: int, changes: seq<Change>, results: seq<PushResult>)
    requires Sound(db) && ValidBatch(changes)
  {
    && |results| == |changes|
    && (forall i :: 0 <= i < |changes| ==> results[i].clientChangeId == changes[i].clientChangeId)
    && (forall k, p :: 0 <= k < |ChainsOf(changes)| && 0 <= p < |ChainsOf(changes)[k].items| ==>
          AnsweredAt(db, user, quota, changes, results, k, p))
  }

  lemma {:induction false} JudgedLengths(db: Db, user: UserId, chain: Chain<Indexed>, j: Judged)
    requires JudgedFor(db, user, chain, j)
    ensures j.chain == chain.items && |j.outcomes| == |j.chain|
  {
  }

  lemma {:induction false} AnswerInPlace(db: Db, user: UserId, quota: int, changes: seq<Change>, planned: seq<Planned>,
                                         before: seq<Option<PushResult>>, results: seq<Option<PushResult>>, k: nat, p: nat)
    requires Sound(db) && ValidBatch(changes)
    requires k < |ChainsOf(changes)| && p < |ChainsOf(changes)[k].items|
    requires |before| == |results| == |changes|
    requires var judged := JudgeBatch(db, user, quota, changes);
             && planned == PlanOf(judged, OverQuotaIn(judged))
             && |judged| == |ChainsOf(changes)| && Settled(before, judged[k], Kept(judged[k], OverQuotaIn(judged)))
    requires var written := PushWritten(db, user, quota, changes);
             forall i :: 0 <= i < |planned| == |written| ==>
               planned[i].index < |results| && results[planned[i].index] == Some(Applied(written[i].v.clientChangeId, SerializeRecord(written[i])))
    requires forall m :: 0 <= m < |changes| && !InAppended(planned, m) ==> results[m] == before[m]
    ensures var judged := JudgeBatch(db, user, quota, changes);
            && |judged[k].outcomes| == |judged[k].chain| == |ChainsOf(changes)[k].items|
            && judged[k].chain[p].index < |results|
            && results[judged[k].chain[p].index] == Some(AnswerTo(judged[k], p, OverQuotaIn(judged), PushWritten(db, user, quota, changes)))
  {
    hide OverQuotaIn, Sound, ValidBatch, JudgeBatch, SerializeRecord, PlanBatch, PlanOf, ChainsOf, PushWritten, Kept, DistinctRecords;
    var judged := JudgeBatch(db, user, quota, changes);
    var chains := ChainsOf(changes);
    BatchJudging(db, user, quota, changes);
    JudgedLengths(db, user, chains[k], judged[k]);
    hide JudgedFor;
    assert ChainIn(changes, chains[k]);
    if judged[k].outcomes[p].Append? && Kept(judged[k], OverQuotaIn(judged)) {
      var i := KeptAnswer(db, user, quota, changes, planned, k, p);
    } else {
      NotPlanned(db, user, changes, chains, judged, OverQuotaIn(judged), k, p);
    }
  }

  lemma {:induction false} SettledAtFirst(results: seq<Option<PushResult>>, judged: seq<Judged>, overQuota: bool)
    requires AnsweredFirst(results, judged)
    ensures SettledUpTo(results, judged, [], overQuota)
  {
  }

  ghost predicate InPlace(db: Db, user: UserId, quota: int, changes: seq<Change>, results: seq<Option<PushResult>>, k: nat, p: nat)
    requires Sound(db) && ValidBatch(changes)
  {
    var judged := JudgeBatch(db, user, quota, changes);
    && k < |judged| && |judged[k].outcomes| == |judged[k].chain| && p < |judged[k].chain|
    && judged[k].chain[p].index < |results|
    && results[judged[k].chain[p].index] == Some(AnswerTo(judged[k], p, OverQuotaIn(judged), PushWritten(db, user, quota, changes)))
  }

  /** Once every chain's answers are in place, the list has no holes. */
  lemma {:induction false} NoHoles(db: Db, user: UserId, quota: int, changes: seq<Change>, results: seq<Option<PushResult>>)
    requires Sound(db) && ValidBatch(changes) && |results| == |changes|
    requires forall k, p :: 0 <= k < |ChainsOf(changes)| && 0 <= p < |ChainsOf(changes)[k].items| ==>
               InPlace(db, user, quota, changes, results, k, p)
    ensures forall i :: 0 <= i < |changes| ==> results[i].Some? && results[i].value.clientChangeId == changes[i].clientChangeId
  {
    hide Sound, OverQuotaIn, JudgeBatch;
    ChainsOfBatch(changes);
    var chains := ChainsOf(changes);
    BatchJudging(db, user, quota, changes);
    var judged := JudgeBatch(db, user, quota, changes);
    forall i | 0 <= i < |changes|
      ensures results[i].Some? && results[i].value.clientChangeId == changes[i].clientChangeId
    {
      assert HasIndex(chains, i);
      var k, p :| 0 <= k < |chains| && 0 <= p < |chains[k].items| && chains[k].items[p].index == i;
      assert InPlace(db, user, quota, changes, results, k, p);
      assert Lists(changes, chains[k]) && JudgedFor(db, user, chains[k], judged[k]);
      IdOfAnswer(judged[k], p, OverQuotaIn(judged), PushWritten(db, user, quota, changes));
    }
  }

  lemma {:induction false} IdOfAnswer(j: Judged, k: nat, overQuota: bool, written: seq<Row>)
    requires |j.outcomes| == |j.chain| && k < |j.chain|
    ensures AnswerTo(j, k, overQuota, written).clientChangeId == j.chain[k].change.clientChangeId
  {
  }

  lemma {:induction false} InPlaceIsAnswered(db: Db, user: UserId, quota: int, changes: seq<Change>, results: seq<Option<PushResult>>, out: seq<PushResult>)
    requires Sound(db) && ValidBatch(changes) && |results| == |changes| == |out|
    requires forall k, p :: 0 <= k < |ChainsOf(changes)| && 0 <= p < |ChainsOf(changes)[k].items| ==>
               InPlace(db, user, quota, changes, results, k, p)
    requires forall i :: 0 <= i < |changes| ==> Some(out[i]) == results[i] && results[i].value.clientChangeId == changes[i].clientChangeId
    ensures AllAnswered(db, user, quota, changes, out)
  {
    hide Sound, OverQuotaIn, JudgeBatch, AnswerTo, ChainsOf, PushWritten, ValidBatch;
    var chains := ChainsOf(changes);
    forall k, p | 0 <= k < |chains| && 0 <= p < |chains[k].items|
      ensures AnsweredAt(db, user, quota, changes, out, k, p)
    {
      assert InPlace(db, user, quota, changes, results, k, p);
    }
  }

  lemma {:induction false} AllInPlace(db: Db, user: UserId, quota: int, changes: seq<Change>, planned: seq<Planned>,
                                      before: seq<Option<PushResult>>, results: seq<Option<PushResult>>)
    requires Sound(db) && ValidBatch(changes)
    requires |before| == |results| == |changes|
    requires var judged := JudgeBatch(db, user, quota, changes);
             && planned == PlanOf(judged, OverQuotaIn(judged))
             && forall k :: 0 <= k < |judged| ==> Settled(before, judged[k], Kept(judged[k], OverQuotaIn(judged)))
    requires var written := PushWritten(db, user, quota, changes);
             forall i :: 0 <= i < |planned| == |written| ==>
               planned[i].index < |results| && results[planned[i].index] == Some(Applied(written[i].v.clientChangeId, SerializeRecord(written[i])))
    requires forall m :: 0 <= m < |changes| && !InAppended(planned, m) ==> results[m] == before[m]
    ensures forall i :: 0 <= i < |changes| ==> results[i].Some?
    ensures forall out :: |out| == |changes| && (forall i :: 0 <= i < |out| ==> Some(out[i]) == results[i]) ==>
              AllAnswered(db, user, quota, changes, out)
  {
    hide Sound, OverQuotaIn, JudgeBatch, SerializeRecord, Settled, Kept, AnswerTo;
    var chains := ChainsOf(changes);
    BatchJudging(db, user, quota, changes);
    forall k, p | 0 <= k < |chains| && 0 <= p < |chains[k].items|
      ensures InPlace(db, user, quota, changes, results, k, p)
    {
      AnswerInPlace(db, user, quota, changes, planned, before, results, k, p);
    }
    NoHoles(db, user, quota, changes, results);
    forall out | |out| == |changes| && forall i :: 0 <= i < |out| ==> Some(out[i]) == results[i]
      ensures AllAnswered(db, user, quota, changes, out)
    {
      InPlaceIsAnswered(db, user, quota, changes, results, out);
    }
  }

  /** Both passes: the versions to write, and the answers to all other changes. */
  method PlanPush(db: Db, user: UserId, quota: int, changes: seq<Change>) returns (ghost judged: seq<Judged>, planned: seq<Planned>, results: seq<Option<PushResult>>)
    ensures judged == JudgeBatch(db, user, quota, changes) && planned == PlanOf(judged, OverQuotaIn(judged))
    ensures |results| == |changes|
    ensures forall k :: 0 <= k < |judged| ==> Settled(results, judged[k], Kept(judged[k], OverQuotaIn(judged)))
  {
    hide ChainIn, JudgedFor, OverQuotaIn, Kept, SettledUpTo, Settled, Mirrors, JudgeAll, PlanOf, Group, KeyVersions, Denied, Remaining;
    var chains := GroupByRecord(Enumerate(changes), RecordIds(changes));
    var writable := WritableVaults(db, user, changes);
    var budgets := StorageBudgets(db.vaults, quota, Sorted(writable));
    BatchJudging(db, user, quota, changes);
    var accepted, overQuota;
    judged, accepted, overQuota, results := JudgeChains(db, user, changes, chains, KeyVersions(db, writable), budgets, Budgets(db.vaults, quota));
    SettledAtFirst(results, judged, overQuota);
    planned, results := DropMoveSources(db, user, changes, chains, judged, accepted, overQuota, results);
  }

  /** Write the planned versions and drop the histories their purges end. */
  method WritePlanned(db: Database, ghost user: UserId, ghost quota: int, ghost changes: seq<Change>, versions: seq<Version>) returns (written: seq<Row>)
    requires Sound(db.State()) && ValidBatch(changes)
    requires versions == PlanBatch(db.State(), user, quota, changes)
    modifies db
    ensures db.State() == PushDb(old(db.State()), user, quota, changes)
    ensures written == PushWritten(old(db.State()), user, quota, changes)
  {
    hide Sound, PlanBatch, DropPurgedHistory, FitsAll;
    PlanBatchFits(db.State(), user, quota, changes);
    SoundInsertAll(db.State(), versions);
    written := InsertVersions(db, versions);
    DropHistories(db, written);
  }

  /**
   * Push a batch in one transaction. The new state and every answer are those of the
   * rules; the loops, the shared budgets and the single seq bump per vault do not show.
   */
  method PushChanges(db: Database, user: UserId, quota: int, changes: seq<Change>)
      returns (results: seq<PushResult>, writtenVaultIds: set<VaultId>)
    requires Sound(db.State()) && ValidBatch(changes)
    modifies db
    ensures db.State() == PushDb(old(db.State()), user, quota, changes)
    ensures AllAnswered(old(db.State()), user, quota, changes, results)
    ensures forall id :: id in writtenVaultIds <==> exists i :: 0 <= i < |PlanBatch(old(db.State()), user, quota, changes)|
                                                           && PlanBatch(old(db.State()), user, quota, changes)[i].vaultId == id
  {
    hide Sound, OverQuotaIn, Kept, AllAnswered, Settled, SerializeRecord, JudgeBatch, PlanOf, PushDb, PushWritten, ValidBatch;
    var now := Db(db.vaults, db.records);
    ghost var judged;
    var planned, first;
    judged, planned, first := PlanPush(now, user, quota, changes);
    PlanIsOnce(now, user, quota, changes, planned);
    var written := WritePlanned(db, user, quota, changes, Versions(planned));
    var answers := AnswerWritten(changes, planned, written, first);
    AllInPlace(now, user, quota, changes, planned, first, answers);
    results := seq(|changes|, i requires 0 <= i < |changes| => answers[i].value);
    writtenVaultIds := VaultsOf(written);
    VaultsWritten(now, user, quota, changes, written);
  }

  lemma {:induction false} VaultsWritten(db: Db, user: UserId, quota: int, changes: seq<Change>, written: seq<Row>)
    requires Sound(db) && ValidBatch(changes) && written == PushWritten(db, user, quota, changes)
    ensures forall id :: id in VaultsOf(written) <==> exists i :: 0 <= i < |PlanBatch(db, user, quota, changes)| && PlanBatch(db, user, quota, changes)[i].vaultId == id
  {
    hide Sound, ValidBatch, PlanBatch, PushWritten;
    WrittenRows(db, user, quota, changes);
    var versions := PlanBatch(db, user, quota, changes);
    forall id
      ensures id in VaultsOf(written) <==> exists i :: 0 <= i < |versions| && versions[i].vaultId == id
    {
      if i :| 0 <= i < |versions| && versions[i].vaultId == id {
        assert written[i].v.vaultId == id;
      }
      if id in VaultsOf(written) {
        var i :| 0 <= i < |written| && written[i].v.vaultId == id;
        assert versions[i].vaultId == id;
      }
    }
  }

  function VaultsOf(rows: seq<Row>): set<VaultId> {
    set i | 0 <= i < |rows| :: rows[i].v.vaultId
  }
}
