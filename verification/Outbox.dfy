/**
 * The client's outbox: pending changes as push changes, their batches, and pushing a
 * batch with bisection around the records the server refuses.
 */
module Outbox {
  import opened Prelude
  import opened Tables
  import opened Grouping
  import opened PushRules
  import opened PushLog
  import opened PushEffect
  import opened PushAnswers
  import opened PushTransaction
  import opened PushResults
  import opened PushConditions
  import opened PushContent

  const MAX_PUSH_BYTES: nat := 768 * 1024
  const MAX_PUSH_CHANGES: nat := 500
  const MAX_PUSH_ATTEMPTS: nat := 8

  /** A version written on this device and not acknowledged yet; a parked one is not pushed. */
  datatype PendingChange = PendingChange(changeId: ChangeId, record: Copy, attempts: nat, parked: bool)

  /** A pending version builds on the version below it. */
  function ToPushChange(p: PendingChange): Change
    requires p.record.version >= 1
  {
    var r := p.record;
    if r.deleted then Delete(p.changeId, r.recordId, r.vaultId, r.clientUpdatedAt, r.version - 1, r.tombstoneKind)
    else Put(p.changeId, r.recordId, r.vaultId, r.clientUpdatedAt, r.version - 1, r.encryptedData, r.encryptionNonce, r.cryptoVersion, r.keyVersion)
  }

  /** The server numbers an applied change as the device did. */
  lemma {:induction false} NumbersAgree(db: Db, user: UserId, quota: int, batch: seq<PendingChange>, changes: seq<Change>, x: Version) returns (n: nat)
    requires forall i :: 0 <= i < |batch| ==> batch[i].record.version >= 1
    requires |changes| == |batch| && forall i :: 0 <= i < |batch| ==> changes[i] == ToPushChange(batch[i])
    requires Sound(db) && ValidBatch(changes) && x in PlanBatch(db, user, quota, changes)
    ensures n < |batch| && x.clientChangeId == batch[n].changeId && x.recordId == batch[n].record.recordId
    ensures x.version == batch[n].record.version
  {
    hide Sound, PlanBatch;
    n := PlanCarries(db, user, quota, changes, x);
  }

  /**
   * A pending version that is pushed and applied comes back as the device has it: an edit
   * whole, a deletion with its number, place and time.
   */
  lemma {:induction false} AppliedComesBack(db: Db, user: UserId, quota: int, batch: seq<PendingChange>, changes: seq<Change>, results: seq<PushResult>, n: nat)
    requires forall i :: 0 <= i < |batch| ==> batch[i].record.version >= 1
    requires |changes| == |batch| && forall i :: 0 <= i < |batch| ==> changes[i] == ToPushChange(batch[i])
    requires Sound(db) && ValidBatch(changes) && AllAnswered(db, user, quota, changes, results)
    requires n < |batch| && n < |results| && results[n].Applied? && !Held(db, changes[n])
    ensures var mine, theirs := batch[n].record, results[n].record;
            && theirs.recordId == mine.recordId && theirs.vaultId == mine.vaultId && theirs.version == mine.version
            && theirs.clientUpdatedAt == mine.clientUpdatedAt && theirs.deleted == mine.deleted
            && (!mine.deleted && mine.tombstoneKind.None? ==> theirs == mine)
            && (mine.deleted && mine.tombstoneKind == Some(Purged) ==> theirs.tombstoneKind == Some(Purged))
  {
    hide Sound, ValidBatch, AllAnswered, Held, PushWritten;
    var row := AppliedShows(db, user, quota, changes, results, n);
  }

  /** What a pending change counts in a batch. */
  function ChangeBytes(p: PendingChange): nat {
    PushChangeBytes(if p.record.deleted then "" else p.record.encryptedData)
  }

  function Bytes(batch: seq<PendingChange>): nat {
    if batch == [] then 0 else Bytes(batch[..|batch| - 1]) + ChangeBytes(batch[|batch| - 1])
  }

  lemma {:induction false} BytesAppend(a: seq<PendingChange>, b: seq<PendingChange>)
    ensures Bytes(a + b) == Bytes(a) + Bytes(b)
  {
    if b == [] {
      assert a + b == a;
    } else {
      var n := |b| - 1;
      var all := a + b;
      BytesAppend(a, b[..n]);
      assert all[..|all| - 1] == a + b[..n] && all[|all| - 1] == b[n];
    }
  }

  /** An edit counts its ciphertext, a deletion none, and each its overhead. */
  lemma {:induction false} BytesOfOne(p: PendingChange)
    ensures Bytes([p]) == (if p.record.deleted then 0 else |p.record.encryptedData|) + RECORD_VERSION_OVERHEAD_BYTES
  {
    assert [p][..0] == [];
  }

  datatype Limits = Limits(changes: nat, bytes: nat)

  const PUSH_LIMITS: Limits := Limits(MAX_PUSH_CHANGES, MAX_PUSH_BYTES)

  predicate Fits(limits: Limits, batch: seq<PendingChange>) {
    |batch| <= limits.changes && Bytes(batch) <= limits.bytes
  }

  function RecordsOf(changes: seq<PendingChange>): (ids: seq<RecordId>)
    ensures |ids| == |changes|
    ensures forall i :: 0 <= i < |changes| ==> ids[i] == changes[i].record.recordId
  {
    seq(|changes|, i requires 0 <= i < |changes| => changes[i].record.recordId)
  }

  function Chains(changes: seq<PendingChange>): seq<Chain<PendingChange>> {
    Group(changes, RecordsOf(changes))
  }

  /** The chains one after the other. */
  function Flat(chains: seq<Chain<PendingChange>>): seq<PendingChange> {
    if chains == [] then [] else Flat(chains[..|chains| - 1]) + chains[|chains| - 1].items
  }

  /** Whether `part` is sent inside one batch, in one piece. */
  ghost predicate Inside(part: seq<PendingChange>, batch: seq<PendingChange>) {
    exists before, after :: batch == before + part + after
  }

  ghost predicate InOneBatch(part: seq<PendingChange>, batches: seq<seq<PendingChange>>) {
    exists i :: 0 <= i < |batches| && Inside(part, batches[i])
  }

  // ---- The changes of one record ----

  /** The changes of one record, in order. */
  function PartOf(changes: seq<PendingChange>, r: RecordId): seq<PendingChange> {
    OfRecord(changes, RecordsOf(changes), r)
  }

  lemma {:induction false} PartAppend(a: seq<PendingChange>, b: seq<PendingChange>, r: RecordId)
    ensures PartOf(a + b, r) == PartOf(a, r) + PartOf(b, r)
  {
    if b == [] {
      assert a + b == a;
    } else {
      var n := |b| - 1;
      var all := a + b;
      PartAppend(a, b[..n], r);
      assert all[..|all| - 1] == a + b[..n] && all[|all| - 1] == b[n];
      assert RecordsOf(all)[..|all| - 1] == RecordsOf(a + b[..n]);
      assert RecordsOf(b)[..n] == RecordsOf(b[..n]);
    }
  }

  /** Chains of different records, each with changes of its own record only. */
  ghost predicate Tidy(chains: seq<Chain<PendingChange>>) {
    && DistinctRecords(chains)
    && forall k :: 0 <= k < |chains| ==> chains[k].items != [] && OfOne(chains[k].items, chains[k].recordId)
  }

  predicate OfOne(items: seq<PendingChange>, recordId: RecordId) {
    forall i :: 0 <= i < |items| ==> items[i].record.recordId == recordId
  }

  lemma {:induction false} PartUniform(items: seq<PendingChange>, of: RecordId, r: RecordId)
    requires OfOne(items, of)
    ensures PartOf(items, r) == if r == of then items else []
  {
    if items != [] {
      var n := |items| - 1;
      PartUniform(items[..n], of, r);
      assert RecordsOf(items)[..n] == RecordsOf(items[..n]);
    }
  }

  /** A record's chain among several, or nothing. */
  function ChainOf(chains: seq<Chain<PendingChange>>, r: RecordId): seq<PendingChange> {
    if chains == [] then [] else
      var last := chains[|chains| - 1];
      ChainOf(chains[..|chains| - 1], r) + (if last.recordId == r then last.items else [])
  }

  /** The part of one record among the chains laid out is its chain. */
  lemma {:induction false} FlatPart(chains: seq<Chain<PendingChange>>, r: RecordId)
    requires forall k :: 0 <= k < |chains| ==> OfOne(chains[k].items, chains[k].recordId)
    ensures PartOf(Flat(chains), r) == ChainOf(chains, r)
  {
    if chains != [] {
      var n := |chains| - 1;
      FlatLast(chains, r);
      hide *;
      FlatPart(chains[..n], r);
      PartAppend(Flat(chains[..n]), chains[n].items, r);
      PartUniform(chains[n].items, chains[n].recordId, r);
    }
  }

  lemma {:induction false} FlatLast(chains: seq<Chain<PendingChange>>, r: RecordId)
    requires chains != []
    ensures var n := |chains| - 1;
            && Flat(chains) == Flat(chains[..n]) + chains[n].items
            && ChainOf(chains, r) == ChainOf(chains[..n], r) + (if chains[n].recordId == r then chains[n].items else [])
  {
  }

  lemma {:induction false} ChainOfIs(chains: seq<Chain<PendingChange>>, r: RecordId)
    requires DistinctRecords(chains)
    ensures !HasChain(chains, r) ==> ChainOf(chains, r) == []
    ensures forall k :: 0 <= k < |chains| && chains[k].recordId == r ==> ChainOf(chains, r) == chains[k].items
  {
    if chains != [] {
      var n := |chains| - 1;
      ChainOfIs(chains[..n], r);
      if HasChain(chains[..n], r) {
        var k :| 0 <= k < n && chains[..n][k].recordId == r;
        assert chains[k].recordId == r;
      }
      if chains[n].recordId == r {
        assert HasChain(chains, r);
      }
    }
  }

  lemma {:induction false} ChainsTidy(changes: seq<PendingChange>)
    ensures Tidy(Chains(changes))
  {
    var ids := RecordsOf(changes);
    GroupIsPartition(changes, ids);
    forall k | 0 <= k < |Chains(changes)|
      ensures OfOne(Chains(changes)[k].items, Chains(changes)[k].recordId)
    {
      var places := OfRecordPlaces(changes, ids, Chains(changes)[k].recordId);
    }
  }

  /** Batching loses, doubles and reorders nothing within a record. */
  lemma {:induction false} BatchesKeepRecords(changes: seq<PendingChange>, r: RecordId)
    ensures PartOf(Flat(Chains(changes)), r) == PartOf(changes, r)
  {
    var chains := Chains(changes);
    ChainsTidy(changes);
    FlatPart(chains, r);
    ChainOfIs(chains, r);
    GroupIsPartition(changes, RecordsOf(changes));
    if r !in RecordsOf(changes) {
      NotListed(changes, RecordsOf(changes), r);
    } else {
      assert HasChain(chains, r);
    }
  }

  // ---- Grouping what is grouped already ----

  lemma {:induction false} AddToLast(chains: seq<Chain<PendingChange>>, r: RecordId, items: seq<PendingChange>, x: PendingChange)
    requires DistinctRecords(chains) && !HasChain(chains, r)
    ensures AddTo(chains, r, x) == chains + [Chain(r, [x])]
    ensures AddTo(chains + [Chain(r, items)], r, x) == chains + [Chain(r, items + [x])]
  {
    var more := chains + [Chain(r, items)];
    forall i | 0 <= i < |chains|
      ensures chains[i].recordId != r
    {
    }
    assert DistinctRecords(more);
    assert more[|chains|].recordId == r;
    AddToEffect(chains, r, x);
    AddToEffect(more, r, x);
  }

  /** Chains laid out one after the other group into themselves. */
  lemma {:induction false} GroupFlat(chains: seq<Chain<PendingChange>>)
    requires Tidy(chains)
    ensures Chains(Flat(chains)) == chains
  {
    hide *;
    if chains == [] {
      NoChains();
    } else {
      var n := |chains| - 1;
      var last := chains[n];
      TidyLast(chains);
      FlatLast(chains, 0);
      GroupFlat(chains[..n]);
      GroupFlatItems(chains[..n], Flat(chains[..n]), last.recordId, last.items, |last.items|);
      assert last.items[..|last.items|] == last.items;
      assert chains[..n] + [Chain(last.recordId, last.items)] == chains;
    }
  }

  lemma {:induction false} NoChains()
    ensures Chains(Flat([])) == []
  {
  }

  lemma {:induction false} TidyLast(chains: seq<Chain<PendingChange>>)
    requires Tidy(chains) && chains != []
    ensures var n := |chains| - 1;
            && Tidy(chains[..n]) && DistinctRecords(chains[..n]) && !HasChain(chains[..n], chains[n].recordId)
            && chains[n].items != [] && OfOne(chains[n].items, chains[n].recordId)
  {
  }

  lemma {:induction false} GroupFlatItems(before: seq<Chain<PendingChange>>, flat: seq<PendingChange>, r: RecordId, items: seq<PendingChange>, k: nat)
    requires Chains(flat) == before && DistinctRecords(before) && !HasChain(before, r)
    requires OfOne(items, r) && k <= |items|
    ensures Chains(flat + items[..k]) == if k == 0 then before else before + [Chain(r, items[..k])]
    decreases k
  {
    hide Chains, DistinctRecords, HasChain, AddTo;
    if k == 0 {
      assert flat + items[..0] == flat;
    } else {
      GroupFlatItems(before, flat, r, items, k - 1);
      AddToLast(before, r, items[..k - 1], items[k - 1]);
      ChainsNext(flat + items[..k - 1], items[k - 1]);
      assert items[..k] == items[..k - 1] + [items[k - 1]];
      assert flat + items[..k] == (flat + items[..k - 1]) + [items[k - 1]];
      assert k == 1 ==> items[..k] == [items[k - 1]];
    }
  }

  lemma {:induction false} ChainsNext(changes: seq<PendingChange>, x: PendingChange)
    ensures Chains(changes + [x]) == AddTo(Chains(changes), x.record.recordId, x)
  {
    var all := changes + [x];
    assert all[..|changes|] == changes;
    assert RecordsOf(all)[..|changes|] == RecordsOf(changes);
  }

  lemma {:induction false} FlatAppend(a: seq<Chain<PendingChange>>, b: seq<Chain<PendingChange>>)
    ensures Flat(a + b) == Flat(a) + Flat(b)
  {
    if b == [] {
      assert a + b == a;
    } else {
      hide Flat, ChainOf;
      var n := |b| - 1;
      var all := a + b;
      FlatLast(all, 0);
      FlatLast(b, 0);
      FlatAppend(a, b[..n]);
      assert all[..|all| - 1] == a + b[..n] && all[|all| - 1] == b[n];
      assert Flat(all) == (Flat(a) + Flat(b[..n])) + b[n].items;
    }
  }

  // ---- Batching ----

  /** Each record's changes stand together. */
  predicate Grouped(batch: seq<PendingChange>) {
    Flat(Chains(batch)) == batch
  }

  /** A batch the client may send: records together, within the limits unless it is a single change too big on its own. */
  predicate Sendable(limits: Limits, batch: seq<PendingChange>) {
    batch != [] && Grouped(batch) && (Fits(limits, batch) || |batch| == 1)
  }

  predicate NoneOf(batch: seq<PendingChange>, r: RecordId) {
    forall i :: 0 <= i < |batch| ==> batch[i].record.recordId != r
  }

  /** Not empty, and no more changes or bytes than allowed, but for one change on its own. */
  predicate WithinLimits(limits: Limits, batch: seq<PendingChange>) {
    batch != [] && (|batch| == 1 || (|batch| <= limits.changes && Bytes(batch) <= limits.bytes))
  }

  lemma {:induction false} SendableWithin(limits: Limits, batches: seq<seq<PendingChange>>)
    requires forall i :: 0 <= i < |batches| ==> Sendable(limits, batches[i])
    ensures forall i :: 0 <= i < |batches| ==> WithinLimits(limits, batches[i])
  {
    hide Bytes, Grouped;
  }

  lemma {:induction false} FitsExactly(limits: Limits, batch: seq<PendingChange>)
    ensures Fits(limits, batch) <==> |batch| <= limits.changes && Bytes(batch) <= limits.bytes
  {
    hide Bytes;
  }

  /** A record's changes behind others stay grouped. */
  lemma {:induction false} GroupedMore(batch: seq<PendingChange>, piece: seq<PendingChange>, r: RecordId)
    requires Grouped(batch) && NoneOf(batch, r) && piece != [] && OfOne(piece, r)
    ensures Grouped(batch + piece)
  {
    var chains := Chains(batch);
    ChainsTidy(batch);
    NotAmongChains(batch, r);
    hide Chains;
    var more := chains + [Chain(r, piece)];
    assert more[..|chains|] == chains;
    assert Tidy(more);
    GroupFlat(more);
  }

  lemma {:induction false} NotAmongChains(batch: seq<PendingChange>, r: RecordId)
    requires NoneOf(batch, r)
    ensures forall k :: 0 <= k < |Chains(batch)| ==> Chains(batch)[k].recordId != r
  {
    GroupIsPartition(batch, RecordsOf(batch));
    forall k | 0 <= k < |Chains(batch)|
      ensures Chains(batch)[k].recordId != r
    {
      assert HasChain(Chains(batch), Chains(batch)[k].recordId);
    }
  }

  /** Whatever does not fit does not fit with more. */
  lemma {:induction false} MoreDoesNotFit(limits: Limits, before: seq<PendingChange>, part: seq<PendingChange>, after: seq<PendingChange>)
    requires !Fits(limits, part)
    ensures !Fits(limits, before + part + after)
  {
    BytesAppend(before, part);
    BytesAppend(before + part, after);
  }

  lemma {:induction false} PrefixFits(limits: Limits, batch: seq<PendingChange>, n: nat)
    requires Fits(limits, batch) && n <= |batch|
    ensures Fits(limits, batch[..n])
  {
    BytesAppend(batch[..n], batch[n..]);
    assert batch[..n] + batch[n..] == batch;
  }

  /** The batches closed so far and the open one. */
  datatype Batching = Batching(closed: seq<seq<PendingChange>>, open: seq<PendingChange>)

  function All(b: Batching): seq<seq<PendingChange>> {
    b.closed + [b.open]
  }

  function Sent(b: Batching): seq<PendingChange> {
    Concat(b.closed) + b.open
  }

  ghost predicate SendableAll(limits: Limits, b: Batching) {
    (b.open == [] || Sendable(limits, b.open)) && forall i :: 0 <= i < |b.closed| ==> Sendable(limits, b.closed[i])
  }

  /** Batches only grow at their end. */
  ghost predicate Grows(before: seq<seq<PendingChange>>, after: seq<seq<PendingChange>>) {
    |before| <= |after| && forall i :: 0 <= i < |before| ==> before[i] <= after[i]
  }

  lemma {:induction false} StaysInside(part: seq<PendingChange>, before: seq<seq<PendingChange>>, after: seq<seq<PendingChange>>)
    requires Grows(before, after) && InOneBatch(part, before)
    ensures InOneBatch(part, after)
  {
    var i :| 0 <= i < |before| && Inside(part, before[i]);
    var head, tail :| before[i] == head + part + tail;
    assert after[i] == head + part + (tail + after[i][|before[i]|..]);
  }

  /** Put a piece on the open batch, closing that one first when both together do not fit. */
  method AddPiece(limits: Limits, b: Batching, piece: seq<PendingChange>, ghost recordId: RecordId) returns (r: Batching)
    requires SendableAll(limits, b) && piece != [] && OfOne(piece, recordId) && (Fits(limits, piece) || |piece| == 1)
    requires NoneOf(b.open, recordId) || !Fits(limits, b.open + piece)
    ensures SendableAll(limits, r) && r.open != []
    ensures r.open == b.open + piece || r.open == piece
    ensures Sent(r) == Sent(b) + piece
    ensures Grows(All(b), All(r)) && Inside(piece, r.open)
  {
    hide Fits, Grouped;
    EmptyGrouped();
    GroupedMore([], piece, recordId);
    assert [] + piece == piece;
    if NoneOf(b.open, recordId) {
      GroupedMore(b.open, piece, recordId);
    }
    if !Fits(limits, b.open + piece) && b.open != [] {
      r := Batching(b.closed + [b.open], piece);
    } else {
      r := Batching(b.closed, b.open + piece);
    }
    assert b.open == [] ==> b.open + piece == piece;
    PieceAdded(b, piece, r);
  }

  lemma {:induction false} EmptyGrouped()
    ensures Grouped([])
  {
  }

  lemma {:induction false} PieceAdded(b: Batching, piece: seq<PendingChange>, r: Batching)
    requires r == Batching(b.closed + [b.open], piece) || r == Batching(b.closed, b.open + piece)
    ensures Sent(r) == Sent(b) + piece && Grows(All(b), All(r)) && Inside(piece, r.open)
  {
    if r == Batching(b.closed + [b.open], piece) {
      assert (b.closed + [b.open])[..|b.closed|] == b.closed;
      assert piece == [] + piece + [];
    } else {
      assert r.open == b.open + piece + [];
    }
  }

  /** The open batch may take the piece, or already holds the record and is full for it. */
  ghost predicate Apart(limits: Limits, open: seq<PendingChange>, piece: seq<PendingChange>, recordId: RecordId) {
    NoneOf(open, recordId) || (piece != [] && !Fits(limits, open + piece))
  }

  lemma {:induction false} StaysApart(limits: Limits, open: seq<PendingChange>, piece: seq<PendingChange>, recordId: RecordId, x: PendingChange)
    requires piece != [] && Apart(limits, open, piece, recordId)
    ensures Apart(limits, open, piece + [x], recordId)
  {
    if !NoneOf(open, recordId) {
      MoreDoesNotFit(limits, [], open + piece, [x]);
      assert [] + (open + piece) + [x] == open + (piece + [x]);
    }
  }

  lemma {:induction false} SplitApart(limits: Limits, open: seq<PendingChange>, before: seq<PendingChange>, piece: seq<PendingChange>, recordId: RecordId, x: PendingChange)
    requires !Fits(limits, piece + [x]) && open == before + piece
    ensures Apart(limits, open, [x], recordId)
  {
    MoreDoesNotFit(limits, before, piece + [x], []);
    assert before + (piece + [x]) + [] == open + [x];
  }

  /** One chain's pieces: split only where the next change would not fit. */
  method AddChain(limits: Limits, b: Batching, chain: seq<PendingChange>, ghost recordId: RecordId) returns (r: Batching)
    requires chain != [] && OfOne(chain, recordId) && SendableAll(limits, b) && NoneOf(b.open, recordId)
    ensures SendableAll(limits, r) && r.open != []
    ensures Sent(r) == Sent(b) + chain
    ensures Grows(All(b), All(r))
    ensures forall p :: p in r.open ==> p in b.open || p in chain
    ensures Fits(limits, chain) ==> Inside(chain, r.open)
  {
    hide Inside, Fits, Sent, SendableAll, Apart, NoneOf, Grows, All;
    GrowsOn(All(b), All(b), All(b));
    r := b;
    NoneIsApart(limits, b.open, [], recordId);
    var piece: seq<PendingChange> := [];
    for i := 0 to |chain|
      invariant piece == [] <==> i == 0
      invariant forall p :: p in piece ==> p in chain
      invariant piece == [] || (OfOne(piece, recordId) && (Fits(limits, piece) || |piece| == 1))
      invariant SendableAll(limits, r) && Apart(limits, r.open, piece, recordId)
      invariant Sent(r) + piece == Sent(b) + chain[..i]
      invariant Grows(All(b), All(r))
      invariant forall p :: p in r.open ==> p in b.open || p in chain
      invariant Fits(limits, chain) ==> r == b && piece == chain[..i]
    {
      assert chain[..i + 1] == chain[..i] + [chain[i]];
      if Fits(limits, chain) {
        PrefixFits(limits, chain, i + 1);
      }
      if piece != [] && !Fits(limits, piece + [chain[i]]) {
        ApartTakes(limits, r.open, piece, recordId);
        ghost var open := r.open;
        ghost var was := r;
        r := AddPiece(limits, r, piece, recordId);
        GrowsOn(All(b), All(was), All(r));
        SplitApart(limits, r.open, if r.open == piece then [] else open, piece, recordId, chain[i]);
        piece := [];
      } else if piece != [] {
        StaysApart(limits, r.open, piece, recordId, chain[i]);
      } else {
        ApartOnce(limits, r.open, recordId, chain[i]);
      }
      ghost var before := piece;
      piece := piece + [chain[i]];
      assert before == [] ==> piece == [chain[i]];
      assert Sent(r) + piece == (Sent(r) + before) + [chain[i]];
    }
    assert chain[..|chain|] == chain;
    ApartTakes(limits, r.open, piece, recordId);
    ghost var was := r;
    r := AddPiece(limits, r, piece, recordId);
    GrowsOn(All(b), All(was), All(r));
  }

  lemma {:induction false} GrowsOn(a: seq<seq<PendingChange>>, b: seq<seq<PendingChange>>, c: seq<seq<PendingChange>>)
    ensures Grows(a, a)
    ensures Grows(a, b) && Grows(b, c) ==> Grows(a, c)
  {
  }

  lemma {:induction false} NoneIsApart(limits: Limits, open: seq<PendingChange>, piece: seq<PendingChange>, recordId: RecordId)
    requires NoneOf(open, recordId)
    ensures Apart(limits, open, piece, recordId)
  {
  }

  lemma {:induction false} ApartOnce(limits: Limits, open: seq<PendingChange>, recordId: RecordId, x: PendingChange)
    requires Apart(limits, open, [], recordId)
    ensures Apart(limits, open, [] + [x], recordId)
  {
  }

  lemma {:induction false} ApartTakes(limits: Limits, open: seq<PendingChange>, piece: seq<PendingChange>, recordId: RecordId)
    requires Apart(limits, open, piece, recordId)
    ensures NoneOf(open, recordId) || !Fits(limits, open + piece)
  {
  }

  /** Every change of these chains is in a chain whose pieces were added. */
  lemma {:induction false} FlatNext(chains: seq<Chain<PendingChange>>, n: nat)
    requires n < |chains|
    ensures Flat(chains[..n + 1]) == Flat(chains[..n]) + chains[n].items
  {
    assert chains[..n + 1][..n] == chains[..n];
  }

  /**
   * Split the pending changes into batches: nothing lost, doubled or reordered within a
   * record; no empty batch; every batch within the limits unless it is one oversized
   * change; and a record's changes that fit one batch are in one batch, together.
   */
  method PushBatches(changes: seq<PendingChange>, limits: Limits := PUSH_LIMITS) returns (batches: seq<seq<PendingChange>>)
    ensures Concat(batches) == Flat(Chains(changes))
    ensures forall i :: 0 <= i < |batches| ==> Sendable(limits, batches[i]) && WithinLimits(limits, batches[i])
    ensures forall k :: 0 <= k < |Chains(changes)| && |Chains(changes)[k].items| <= limits.changes && Bytes(Chains(changes)[k].items) <= limits.bytes ==>
              InOneBatch(Chains(changes)[k].items, batches)
  {
    hide WithinLimits, Bytes, Inside, Fits, InOneBatch, Sendable, NoneOf, OfOne;
    var chains := GroupByRecord(changes, RecordsOf(changes));
    ChainsTidy(changes);
    var b := Batching([], []);
    for n := 0 to |chains|
      invariant SendableAll(limits, b) && (n > 0 ==> b.open != [])
      invariant Sent(b) == Flat(chains[..n])
      invariant forall p :: p in b.open ==> p in Flat(chains[..n])
      invariant forall k :: 0 <= k < n && Fits(limits, chains[k].items) ==> InOneBatch(chains[k].items, All(b))
    {
      ghost var was := b;
      FlatNext(chains, n);
      NotYetSent(chains, n, b.open);
      b := AddChain(limits, b, chains[n].items, chains[n].recordId);
      forall k | 0 <= k < n + 1 && Fits(limits, chains[k].items)
        ensures InOneBatch(chains[k].items, All(b))
      {
        if k < n {
          StaysInside(chains[k].items, All(was), All(b));
        } else {
          InLast(chains[k].items, b);
        }
      }
    }
    assert chains[..|chains|] == chains;
    batches := b.closed;
    if b.open != [] {
      assert All(b)[..|b.closed|] == b.closed;
      batches := All(b);
    }
    SendableWithin(limits, batches);
    forall k | 0 <= k < |chains| && |chains[k].items| <= limits.changes && Bytes(chains[k].items) <= limits.bytes
      ensures InOneBatch(chains[k].items, batches)
    {
      FitsExactly(limits, chains[k].items);
    }
  }

  lemma {:induction false} NotYetSent(chains: seq<Chain<PendingChange>>, n: nat, open: seq<PendingChange>)
    requires Tidy(chains) && n < |chains|
    requires forall p :: p in open ==> p in Flat(chains[..n])
    ensures NoneOf(open, chains[n].recordId)
  {
    forall i | 0 <= i < |open|
      ensures open[i].record.recordId != chains[n].recordId
    {
      FlatFrom(chains[..n], open[i]);
    }
  }

  lemma {:induction false} FlatFrom(chains: seq<Chain<PendingChange>>, p: PendingChange)
    requires p in Flat(chains) && forall k :: 0 <= k < |chains| ==> OfOne(chains[k].items, chains[k].recordId)
    ensures exists k :: 0 <= k < |chains| && p.record.recordId == chains[k].recordId
  {
    var n := |chains| - 1;
    if p in Flat(chains[..n]) {
      FlatFrom(chains[..n], p);
      var k :| 0 <= k < n && p.record.recordId == chains[..n][k].recordId;
      assert chains[k].recordId == p.record.recordId;
    } else {
      assert p in chains[n].items;
    }
  }

  lemma {:induction false} InLast(part: seq<PendingChange>, b: Batching)
    requires Inside(part, b.open)
    ensures InOneBatch(part, All(b))
  {
    assert All(b)[|b.closed|] == b.open;
  }

  // ---- Pushing a batch ----

  /** What becomes of a pending change: acknowledged (with the server's copy, if it sent one), parked, or kept with a counted or uncounted failure. */
  datatype Handling = Acked(copy: Option<Copy>) | Parked | Counted | Noted

  datatype Entry = Entry(changeId: ChangeId, handling: Handling)

  /** A counted failure; one too many parks the change. */
  function Fail(p: PendingChange): Handling {
    if p.attempts + 1 >= MAX_PUSH_ATTEMPTS then Parked else Counted
  }

  function HandlingOf(p: PendingChange, answers: map<ChangeId, PushResult>): Handling {
    if p.changeId !in answers then Fail(p)
    else
      match answers[p.changeId]
      case Applied(_, copy) => Acked(Some(copy))
      case Refused(_, Stale(_)) => Noted
      case Refused(_, Rejected(reason)) =>
        if reason == NotFound && p.record.tombstoneKind == Some(Purged) then Acked(None)
        else if reason == OldKeyVersion then Fail(p)
        else Parked
  }

  /** How the server takes one call: it answers changes by id, refuses the whole batch, or fails in a way that stops the round. */
  datatype Reply = Answers(results: map<ChangeId, PushResult>) | Refuses | Stops

  /** Any server: its reply to the n-th call of a round, with a batch. */
  type Server = (nat, seq<PendingChange>) -> Reply

  /** What a round has done: the batches sent, the records with a change not acknowledged, and the outcomes stored. */
  datatype Trace = Trace(sent: seq<seq<PendingChange>>, failed: set<RecordId>, log: seq<Entry>)

  /** The `k`-th call decided this outcome: it answered the change, or refused a batch of this record alone. */
  ghost predicate Decided(server: Server, sent: seq<seq<PendingChange>>, p: PendingChange, e: Entry, k: nat) {
    && k < |sent| && p in sent[k] && e.changeId == p.changeId
    && match server(k, sent[k])
       case Answers(results) => e.handling == HandlingOf(p, results)
       case Refuses => OfOne(sent[k], p.record.recordId) && e.handling == Fail(p)
       case Stops => false
  }

  ghost predicate Answered(server: Server, from: nat, sent: seq<seq<PendingChange>>, p: PendingChange, e: Entry) {
    exists k: nat :: from <= k && Decided(server, sent, p, e, k)
  }

  /** The records of these changes with an outcome that is no acknowledgement. */
  function FailedOf(changes: seq<PendingChange>, entries: seq<Entry>): set<RecordId> {
    set i | 0 <= i < |changes| && i < |entries| && !entries[i].handling.Acked? :: changes[i].record.recordId
  }

  /**
   * Pushing a batch: every change gets exactly one outcome, in order, decided by a call
   * made for it, unless the round stopped after the first of them; only the batch's
   * changes are sent; and the records that failed are those with an outcome that is no
   * acknowledgement.
   */
  ghost predicate BatchPushed(server: Server, t: Trace, next: Trace, batch: seq<PendingChange>, stopped: bool) {
    && t.sent <= next.sent && t.log <= next.log && t.failed <= next.failed
    && (forall k: nat, p :: |t.sent| <= k < |next.sent| && p in next.sent[k] ==> p in batch)
    && var entries := next.log[|t.log|..];
    && |entries| <= |batch|
    && (!stopped ==> |entries| == |batch| && next.failed == t.failed + FailedOf(batch, entries))
    && (forall i :: 0 <= i < |entries| ==> Answered(server, |t.sent|, next.sent, batch[i], entries[i]))
  }

  // ---- Outcomes, read off the replies ----

  /** A failure that counts, until there were too many. */
  function CountedOrParked(p: PendingChange): Handling {
    if p.attempts + 1 < MAX_PUSH_ATTEMPTS then Counted else Parked
  }

  /**
   * What a reply makes of a change. Applied: acknowledged with the server's copy. A purge
   * of a record the server never had: acknowledged without. Stale: kept, not counted. No
   * answer, an old key or a refused batch: kept and counted, parked at the limit. Any
   * other refusal: parked.
   */
  ghost predicate Rightly(p: PendingChange, handling: Handling, reply: Reply) {
    match reply
    case Refuses => handling == CountedOrParked(p)
    case Stops => false
    case Answers(results) =>
      var answered := p.changeId in results;
      var applied := answered && results[p.changeId].Applied?;
      var stale := answered && results[p.changeId].Refused? && results[p.changeId].failure.Stale?;
      var rejected := answered && results[p.changeId].Refused? && results[p.changeId].failure.Rejected?;
      var neverThere := rejected && results[p.changeId].failure.reason == Rejection.NotFound && p.record.tombstoneKind == Some(Purged);
      var oldKey := rejected && results[p.changeId].failure.reason == OldKeyVersion;
      && (handling.Acked? <==> applied || neverThere)
      && (applied ==> handling == Acked(Some(results[p.changeId].record)))
      && (neverThere ==> handling == Acked(None))
      && (stale ==> handling == Noted)
      && (!answered || oldKey ==> handling == CountedOrParked(p))
      && (rejected && !oldKey && !neverThere ==> handling == Parked)
  }

  /** One of these calls was made for the change, and its reply makes this of it. */
  ghost predicate AnsweredRightly(server: Server, from: nat, sent: seq<seq<PendingChange>>, p: PendingChange, e: Entry) {
    e.changeId == p.changeId && exists k: nat :: from <= k < |sent| && p in sent[k] && Rightly(p, e.handling, server(k, sent[k]))
  }

  /** Every change of a batch was handled by what a call answered; one that is not acknowledged keeps its record among the failed. */
  ghost predicate HandledRightly(server: Server, t: Trace, next: Trace, batch: seq<PendingChange>, stopped: bool) {
    && |t.log| <= |next.log| <= |t.log| + |batch|
    && (forall i :: |t.log| <= i < |next.log| ==> AnsweredRightly(server, |t.sent|, next.sent, batch[i - |t.log|], next.log[i]))
    && (!stopped ==>
          && |next.log| == |t.log| + |batch|
          && forall r :: r in next.failed <==>
               r in t.failed || exists i :: 0 <= i < |batch| && batch[i].record.recordId == r && !next.log[|t.log| + i].handling.Acked?)
  }

  lemma {:induction false} DecidedRightly(server: Server, sent: seq<seq<PendingChange>>, p: PendingChange, e: Entry, k: nat)
    requires Decided(server, sent, p, e, k)
    ensures Rightly(p, e.handling, server(k, sent[k]))
  {
  }

  lemma {:induction false} EachRightly(server: Server, from: nat, sent: seq<seq<PendingChange>>, p: PendingChange, e: Entry)
    requires Answered(server, from, sent, p, e)
    ensures AnsweredRightly(server, from, sent, p, e)
  {
    var k: nat :| from <= k && Decided(server, sent, p, e, k);
    DecidedRightly(server, sent, p, e, k);
  }

  lemma {:induction false} BatchRightly(server: Server, t: Trace, next: Trace, batch: seq<PendingChange>, stopped: bool)
    requires BatchPushed(server, t, next, batch, stopped)
    ensures HandledRightly(server, t, next, batch, stopped)
  {
    hide Answered, AnsweredRightly;
    var entries := next.log[|t.log|..];
    forall i | |t.log| <= i < |next.log|
      ensures AnsweredRightly(server, |t.sent|, next.sent, batch[i - |t.log|], next.log[i])
    {
      assert entries[i - |t.log|] == next.log[i];
      EachRightly(server, |t.sent|, next.sent, batch[i - |t.log|], next.log[i]);
    }
    assert forall i :: 0 <= i < |entries| ==> entries[i] == next.log[|t.log| + i];
    if !stopped {
      forall r
        ensures r in FailedOf(batch, entries) <==> exists i :: 0 <= i < |batch| && batch[i].record.recordId == r && !next.log[|t.log| + i].handling.Acked?
      {
        if i :| 0 <= i < |batch| && batch[i].record.recordId == r && !next.log[|t.log| + i].handling.Acked? {
          assert !entries[i].handling.Acked?;
        }
      }
    }
  }

  lemma {:induction false} AnsweredLater(server: Server, from: nat, sent: seq<seq<PendingChange>>, later: seq<seq<PendingChange>>, since: nat, p: PendingChange, e: Entry)
    requires Answered(server, from, sent, p, e) && sent <= later && since <= from
    ensures Answered(server, since, later, p, e)
  {
    var k: nat :| from <= k && Decided(server, sent, p, e, k);
    assert Decided(server, later, p, e, k);
  }

  lemma {:induction false} FailedAppend(a: seq<PendingChange>, b: seq<PendingChange>, x: seq<Entry>, y: seq<Entry>)
    requires |x| == |a|
    ensures FailedOf(a + b, x + y) == FailedOf(a, x) + FailedOf(b, y)
  {
    var all := FailedOf(a + b, x + y);
    forall r
      ensures r in all <==> r in FailedOf(a, x) || r in FailedOf(b, y)
    {
      if r in FailedOf(a, x) {
        var i :| 0 <= i < |a| && i < |x| && !x[i].handling.Acked? && a[i].record.recordId == r;
        assert (a + b)[i] == a[i] && (x + y)[i] == x[i];
      }
      if r in FailedOf(b, y) {
        var i :| 0 <= i < |b| && i < |y| && !y[i].handling.Acked? && b[i].record.recordId == r;
        assert (a + b)[|a| + i] == b[i] && (x + y)[|x| + i] == y[i];
      }
    }
  }

  /** One batch after the other is their concatenation. */
  lemma {:induction false} PushedBoth(server: Server, t: Trace, mid: Trace, next: Trace, a: seq<PendingChange>, b: seq<PendingChange>, stopped: bool)
    requires BatchPushed(server, t, mid, a, false) && BatchPushed(server, mid, next, b, stopped)
    ensures BatchPushed(server, t, next, a + b, stopped)
  {
    hide Answered, FailedOf;
    var x, y := mid.log[|t.log|..], next.log[|mid.log|..];
    var entries := next.log[|t.log|..];
    assert entries == x + y;
    FailedAppend(a, b, x, y);
    forall i | 0 <= i < |entries|
      ensures Answered(server, |t.sent|, next.sent, (a + b)[i], entries[i])
    {
      if i < |x| {
        AnsweredLater(server, |t.sent|, mid.sent, next.sent, |t.sent|, a[i], x[i]);
      } else {
        AnsweredLater(server, |mid.sent|, next.sent, next.sent, |t.sent|, b[i - |x|], y[i - |x|]);
      }
    }
    forall k: nat, p | |t.sent| <= k < |next.sent| && p in next.sent[k]
      ensures p in a + b
    {
      if k < |mid.sent| {
        assert next.sent[k] == mid.sent[k];
      }
    }
  }

  /** A round that stopped in a batch did nothing of what comes after. */
  lemma {:induction false} StoppedEarly(server: Server, t: Trace, next: Trace, a: seq<PendingChange>, b: seq<PendingChange>)
    requires BatchPushed(server, t, next, a, true)
    ensures BatchPushed(server, t, next, a + b, true)
  {
    hide Answered;
  }

  /** One client's pushes of a round, against any server, with a local store that may fail at any call. */
  class Round {
    const server: Server
    const storeFails: nat -> bool
    var sent: seq<seq<PendingChange>>
    var failed: set<RecordId>
    var log: seq<Entry>

    constructor (server: Server, storeFails: nat -> bool)
      ensures this.server == server && this.storeFails == storeFails && Done() == Trace([], {}, [])
    {
      this.server, this.storeFails, sent, failed, log := server, storeFails, [], {}, [];
    }

    function Done(): Trace
      reads this
    {
      Trace(sent, failed, log)
    }

    /** The call. */
    method Push(batch: seq<PendingChange>) returns (reply: Reply)
      modifies this`sent
      ensures sent == old(sent) + [batch] && reply == server(|old(sent)|, batch)
    {
      reply := server(|sent|, batch);
      sent := sent + [batch];
    }

    /** Store a change's outcome; a store that fails stops the round. */
    method Store(p: PendingChange, handling: Handling) returns (stopped: bool)
      modifies this`log
      ensures log == if stopped then old(log) else old(log) + [Entry(p.changeId, handling)]
    {
      stopped := storeFails(|log|);
      if !stopped {
        log := log + [Entry(p.changeId, handling)];
      }
    }

    /** Handle the answers to a batch that was taken. */
    method HandleAnswers(batch: seq<PendingChange>, results: map<ChangeId, PushResult>, ghost t: Trace) returns (stopped: bool)
      requires t.sent + [batch] == sent && t.failed == failed && t.log == log
      requires server(|t.sent|, batch) == Answers(results)
      modifies this`failed, this`log
      ensures BatchPushed(server, t, Done(), batch, stopped)
    {
      hide FailedOf, HandlingOf, BatchPushed, HandledBy;
      stopped := false;
      NothingFailed(results);
      assert batch[..0] == [];
      for n := 0 to |batch|
        invariant log == t.log + HandledBy(batch[..n], results)
        invariant failed == t.failed + FailedOf(batch[..n], HandledBy(batch[..n], results))
      {
        var p := batch[n];
        var handling := HandlingOf(p, results);
        assert batch[..n + 1] == batch[..n] + [p];
        OneMoreHandled(batch[..n], p, results);
        if !handling.Acked? {
          failed := failed + {p.record.recordId};
        }
        stopped := Store(p, handling);
        if stopped {
          HandledPushed(server, t, Done(), batch, results, n, true);
          return;
        }
      }
      assert batch[..|batch|] == batch;
      HandledPushed(server, t, Done(), batch, results, |batch|, false);
    }

    /** A record the server refuses on its own: its changes failed. */
    method FailRecord(batch: seq<PendingChange>, recordId: RecordId, ghost t: Trace) returns (stopped: bool)
      requires batch != [] && OfOne(batch, recordId)
      requires t.sent + [batch] == sent && t.failed == failed && t.log == log
      requires server(|t.sent|, batch) == Refuses
      modifies this`failed, this`log
      ensures BatchPushed(server, t, Done(), batch, stopped)
    {
      hide FailedOf, Fail, BatchPushed, RefusedBy, OfOne;
      stopped := false;
      NoneRefused();
      assert batch[..0] == [];
      for n := 0 to |batch|
        invariant log == t.log + RefusedBy(batch[..n]) && failed == t.failed
      {
        stopped := Store(batch[n], Fail(batch[n]));
        if stopped {
          RefusedPushed(server, t, Done(), batch, recordId, n, true);
          return;
        }
        RefusedNext(batch, n);
      }
      assert batch[..|batch|] == batch;
      failed := failed + {batch[0].record.recordId};
      RefusedPushed(server, t, Done(), batch, recordId, |batch|, false);
    }

    /** Push the first chains of a refused batch, then the others. */
    method PushHalves(chains: seq<Chain<PendingChange>>, half: nat) returns (stopped: bool)
      requires Tidy(chains) && 0 < half < |chains|
      modifies this
      ensures BatchPushed(server, old(Done()), Done(), Flat(chains), stopped)
      ensures |sent| <= |old(sent)| + 2 * |chains| - 2
      decreases |chains|, 0
    {
      hide *;
      HalvesOf(chains, half);
      var left, right := Flat(chains[..half]), Flat(chains[half..]);
      stopped := PushBatch(left);
      if stopped {
        StoppedEarly(server, old(Done()), Done(), left, right);
        return;
      }
      ghost var mid := Done();
      stopped := PushBatch(right);
      PushedBoth(server, old(Done()), mid, Done(), left, right, stopped);
    }

    /**
     * Push a batch; one that is refused is split by record, down to the records the server
     * refuses. It ends, whatever the server does, with one outcome per change in order,
     * after at most 2n - 1 calls for n records.
     */
    method PushBatch(batch: seq<PendingChange>) returns (stopped: bool)
      requires batch != [] && Grouped(batch)
      modifies this
      ensures BatchPushed(server, old(Done()), Done(), batch, stopped)
      ensures HandledRightly(server, old(Done()), Done(), batch, stopped)
      ensures |sent| <= |old(sent)| + 2 * |Chains(batch)| - 1
      decreases |Chains(batch)|, 1
    {
      hide *;
      ghost var t := Done();
      DoneIs(t);
      var reply := Push(batch);
      var chains := GroupByRecord(batch, RecordsOf(batch));
      RefusedChains(batch, chains);
      match reply {
        case Stops =>
          DoneIs(Done());
          NothingStored(server, t, Done(), batch);
          stopped := true;
        case Answers(results) =>
          stopped := HandleAnswers(batch, results, t);
        case Refuses =>
          if |chains| > 1 {
            ghost var called := Done();
            DoneIs(called);
            stopped := PushHalves(chains, (|chains| + 1) / 2);
            CallBefore(server, t, called, Done(), batch, stopped);
          } else {
            OneRecord(chains, batch);
            stopped := FailRecord(batch, chains[0].recordId, t);
          }
      }
      BatchRightly(server, t, Done(), batch, stopped);
    }

    lemma {:induction false} DoneIs(t: Trace)
      requires t == Done()
      ensures t == Trace(sent, failed, log)
    {
    }

    /**
     * One round's pushes. Of each record without a parked change the first pending
     * changes are pushed, in order, and all of them unless one failed or the round
     * stopped; nothing follows in a batch after the one a record failed in; a record with
     * a parked change sends nothing.
     */
    method PushOutbox(changes: seq<PendingChange>) returns (applied: bool, stopped: bool, ghost pieces: seq<Piece>)
      requires failed == {}
      modifies this
      ensures log == old(log) + EntriesOf(pieces) && AllDecided(server, |old(sent)|, sent, pieces)
      ensures AllRightly(server, |old(sent)|, sent, pieces)
      ensures !stopped ==> (applied <==> failed == {}) && forall r :: r in failed <==> NotAcked(pieces, r)
      ensures forall i :: 0 <= i < |pieces| ==> WithinLimits(Limits(MAX_PUSH_CHANGES, MAX_PUSH_BYTES), pieces[i].changes)
      ensures forall i :: 0 <= i < |pieces| && (i < |pieces| - 1 || !stopped) ==> |pieces[i].entries| == |pieces[i].changes|
      ensures StopsAtFailure(pieces)
      ensures forall r :: if HasParked(changes, r) then PartOf(ChangesOf(pieces), r) == [] else Progress(pieces, changes, r, stopped)
    {
      hide *;
      var held := HeldIn(changes);
      var todo := Without(changes, held);
      var batches := PushBatches(todo);
      pieces := [];
      stopped := false;
      var n := 0;
      NothingPushed(server, |sent|, sent);
      while n < |batches| && !stopped
        invariant n <= |batches|
        invariant old(sent) <= sent
        invariant log == old(log) + EntriesOf(pieces) && AllDecided(server, |old(sent)|, sent, pieces)
        invariant !stopped ==> failed == FailedAfter(pieces)
        invariant forall i :: 0 <= i < |pieces| ==> Sendable(PUSH_LIMITS, pieces[i].changes)
        invariant forall i :: 0 <= i < |pieces| && (i < |pieces| - 1 || !stopped) ==> |pieces[i].entries| == |pieces[i].changes|
        invariant StopsAtFailure(pieces)
        invariant forall r :: Progress(pieces, Concat(batches[..n]), r, stopped)
      {
        var rest := Without(batches[n], failed);
        ConcatNext(batches, n);
        if rest != [] {
          WithoutSendable(PUSH_LIMITS, batches[n], failed);
          SendableGrouped(PUSH_LIMITS, rest);
          ghost var t := Done();
          DoneIs(t);
          stopped := PushBatch(rest);
          DoneIs(Done());
          PieceOf(server, t, Done(), rest, stopped);
          ghost var piece := Piece(rest, log[|t.log|..]);
          forall r
            ensures Progress(pieces + [piece], Concat(batches[..n]) + batches[n], r, stopped)
          {
            ProgressNext(pieces, Concat(batches[..n]), batches[n], piece, r, stopped);
          }
          PiecesNext(server, |old(sent)|, t.sent, sent, pieces, piece);
          StopsNext(pieces, batches[n], piece);
          pieces := pieces + [piece];
        } else {
          forall r
            ensures Progress(pieces, Concat(batches[..n]) + batches[n], r, stopped)
          {
            ProgressSkips(pieces, Concat(batches[..n]), batches[n], r);
          }
        }
        n := n + 1;
      }
      assert batches[..|batches|] == batches;
      forall r
        ensures if HasParked(changes, r) then PartOf(ChangesOf(pieces), r) == [] else Progress(pieces, changes, r, stopped)
      {
        Delivered(pieces, changes, batches, n, r, stopped);
        HeldAre(changes, r);
      }
      PiecesRightly(server, |old(sent)|, sent, pieces);
      LimitsOf(pieces);
      FailedAre(pieces);
      applied := failed == {};
    }
  }

  // ---- Outcomes of one call ----

  /** The outcomes of changes by a call's answers. */
  function HandledBy(changes: seq<PendingChange>, results: map<ChangeId, PushResult>): (entries: seq<Entry>)
    ensures |entries| == |changes|
    ensures forall i :: 0 <= i < |changes| ==> entries[i] == Entry(changes[i].changeId, HandlingOf(changes[i], results))
  {
    seq(|changes|, i requires 0 <= i < |changes| => Entry(changes[i].changeId, HandlingOf(changes[i], results)))
  }

  function RefusedBy(changes: seq<PendingChange>): (entries: seq<Entry>)
    ensures |entries| == |changes|
    ensures forall i :: 0 <= i < |changes| ==> entries[i] == Entry(changes[i].changeId, Fail(changes[i]))
  {
    seq(|changes|, i requires 0 <= i < |changes| => Entry(changes[i].changeId, Fail(changes[i])))
  }

  lemma {:induction false} NothingFailed(results: map<ChangeId, PushResult>)
    ensures HandledBy([], results) == [] && FailedOf([], HandledBy([], results)) == {}
  {
  }

  lemma {:induction false} HandledPushed(server: Server, t: Trace, next: Trace, batch: seq<PendingChange>, results: map<ChangeId, PushResult>, n: nat, stopped: bool)
    requires server(|t.sent|, batch) == Answers(results) && n <= |batch|
    requires next.sent == t.sent + [batch] && next.log == t.log + HandledBy(batch[..n], results)
    requires t.failed <= next.failed
    requires !stopped ==> n == |batch| && next.failed == t.failed + FailedOf(batch, HandledBy(batch, results))
    ensures BatchPushed(server, t, next, batch, stopped)
  {
    hide FailedOf, HandlingOf, Answered;
    HandledAnswered(server, t.sent, batch, results, n);
    assert next.log[|t.log|..] == HandledBy(batch[..n], results);
    assert n == |batch| ==> batch[..n] == batch;
  }

  lemma {:induction false} OneMoreHandled(before: seq<PendingChange>, p: PendingChange, results: map<ChangeId, PushResult>)
    ensures HandledBy(before + [p], results) == HandledBy(before, results) + [Entry(p.changeId, HandlingOf(p, results))]
    ensures FailedOf(before + [p], HandledBy(before + [p], results)) ==
            FailedOf(before, HandledBy(before, results)) + (if HandlingOf(p, results).Acked? then {} else {p.record.recordId})
  {
    var e := Entry(p.changeId, HandlingOf(p, results));
    FailedAppend(before, [p], HandledBy(before, results), [e]);
    assert HandledBy(before + [p], results) == HandledBy(before, results) + [e];
    if !e.handling.Acked? {
      assert [p][0].record.recordId in FailedOf([p], [e]);
    }
  }

  lemma {:induction false} HandledAnswered(server: Server, sent: seq<seq<PendingChange>>, batch: seq<PendingChange>, results: map<ChangeId, PushResult>, n: nat)
    requires n <= |batch| && server(|sent|, batch) == Answers(results)
    ensures forall i :: 0 <= i < n ==> Answered(server, |sent|, sent + [batch], batch[i], HandledBy(batch[..n], results)[i])
  {
    hide HandlingOf;
    forall i | 0 <= i < n
      ensures Answered(server, |sent|, sent + [batch], batch[i], HandledBy(batch[..n], results)[i])
    {
      assert Decided(server, sent + [batch], batch[i], HandledBy(batch[..n], results)[i], |sent|);
    }
  }

  lemma {:induction false} RefusedAnswered(server: Server, sent: seq<seq<PendingChange>>, batch: seq<PendingChange>, recordId: RecordId, n: nat)
    requires n <= |batch| && server(|sent|, batch) == Refuses && OfOne(batch, recordId)
    ensures forall i :: 0 <= i < n ==> Answered(server, |sent|, sent + [batch], batch[i], RefusedBy(batch[..n])[i])
    ensures batch != [] ==> FailedOf(batch, RefusedBy(batch)) == {recordId}
  {
    forall i | 0 <= i < n
      ensures Answered(server, |sent|, sent + [batch], batch[i], RefusedBy(batch[..n])[i])
    {
      assert Decided(server, sent + [batch], batch[i], RefusedBy(batch[..n])[i], |sent|);
    }
    if batch != [] {
      assert batch[0].record.recordId in FailedOf(batch, RefusedBy(batch));
    }
  }

  lemma {:induction false} NoneRefused()
    ensures RefusedBy([]) == []
  {
  }

  lemma {:induction false} RefusedNext(batch: seq<PendingChange>, n: nat)
    requires n < |batch|
    ensures RefusedBy(batch[..n + 1]) == RefusedBy(batch[..n]) + [Entry(batch[n].changeId, Fail(batch[n]))]
  {
    hide Fail;
    assert batch[..n + 1][..n] == batch[..n];
  }

  lemma {:induction false} RefusedPushed(server: Server, t: Trace, next: Trace, batch: seq<PendingChange>, recordId: RecordId, n: nat, stopped: bool)
    requires batch != [] && OfOne(batch, recordId) && server(|t.sent|, batch) == Refuses
    requires n <= |batch| && next.sent == t.sent + [batch] && next.log == t.log + RefusedBy(batch[..n])
    requires if stopped then next.failed == t.failed else n == |batch| && next.failed == t.failed + {batch[0].record.recordId}
    ensures BatchPushed(server, t, next, batch, stopped)
  {
    hide FailedOf, Fail, Answered;
    RefusedAnswered(server, t.sent, batch, recordId, n);
    assert next.log[|t.log|..] == RefusedBy(batch[..n]);
    assert n == |batch| ==> batch[..n] == batch;
  }

  lemma {:induction false} NothingStored(server: Server, t: Trace, next: Trace, batch: seq<PendingChange>)
    requires next == t.(sent := t.sent + [batch])
    ensures BatchPushed(server, t, next, batch, true)
  {
  }

  /** A call whose batch was refused, and then what became of the batch. */
  lemma {:induction false} CallBefore(server: Server, t: Trace, called: Trace, next: Trace, batch: seq<PendingChange>, stopped: bool)
    requires called == t.(sent := t.sent + [batch]) && BatchPushed(server, called, next, batch, stopped)
    ensures BatchPushed(server, t, next, batch, stopped)
  {
    hide Answered, FailedOf;
    var entries := next.log[|t.log|..];
    forall i | 0 <= i < |entries|
      ensures Answered(server, |t.sent|, next.sent, batch[i], entries[i])
    {
      AnsweredLater(server, |called.sent|, next.sent, next.sent, |t.sent|, batch[i], entries[i]);
    }
    forall k: nat, p | |t.sent| <= k < |next.sent| && p in next.sent[k]
      ensures p in batch
    {
      if k == |t.sent| {
        assert next.sent[k] == called.sent[k] == batch;
      }
    }
  }

  lemma {:induction false} RefusedChains(batch: seq<PendingChange>, chains: seq<Chain<PendingChange>>)
    requires batch != [] && Grouped(batch) && chains == Group(batch, RecordsOf(batch))
    ensures chains == Chains(batch) && Tidy(chains) && chains != [] && Flat(chains) == batch
  {
    ChainsTidy(batch);
  }

  lemma {:induction false} OneRecord(chains: seq<Chain<PendingChange>>, batch: seq<PendingChange>)
    requires Tidy(chains) && |chains| == 1 && Flat(chains) == batch
    ensures OfOne(batch, chains[0].recordId)
  {
    assert chains[..0] == [];
  }

  lemma {:induction false} HalvesOf(chains: seq<Chain<PendingChange>>, half: nat)
    requires Tidy(chains) && 0 < half < |chains|
    ensures Flat(chains[..half]) != [] && Flat(chains[half..]) != []
    ensures Chains(Flat(chains[..half])) == chains[..half] && Chains(Flat(chains[half..])) == chains[half..]
    ensures Grouped(Flat(chains[..half])) && Grouped(Flat(chains[half..]))
    ensures Flat(chains) == Flat(chains[..half]) + Flat(chains[half..])
  {
    hide Chains;
    FlatAppend(chains[..half], chains[half..]);
    assert chains[..half] + chains[half..] == chains;
    GroupFlat(chains[..half]);
    GroupFlat(chains[half..]);
    FlatNonempty(chains[..half]);
    FlatNonempty(chains[half..]);
  }

  lemma {:induction false} FlatNonempty(chains: seq<Chain<PendingChange>>)
    requires chains != [] && chains[|chains| - 1].items != []
    ensures Flat(chains) != []
  {
  }

  // ---- Fault isolation ----

  predicate HasBad(batch: seq<PendingChange>, bad: set<RecordId>) {
    exists p :: p in batch && p.record.recordId in bad
  }

  /** In the calls of a batch the server refused exactly those with a change of a bad record, and applied every change of the others. */
  ghost predicate RefusesBad(server: Server, from: nat, sent: seq<seq<PendingChange>>, bad: set<RecordId>) {
    forall k: nat :: from <= k < |sent| ==>
      var reply := server(k, sent[k]);
      && (reply.Refuses? <==> HasBad(sent[k], bad))
      && (reply.Answers? ==> forall p :: p in sent[k] ==> p.changeId in reply.results && reply.results[p.changeId].Applied?)
  }

  /** Then every change of a good record is acknowledged, and exactly the bad records failed. */
  lemma {:induction false} FailsExactlyBad(server: Server, t: Trace, next: Trace, batch: seq<PendingChange>, bad: set<RecordId>)
    requires BatchPushed(server, t, next, batch, false) && RefusesBad(server, |t.sent|, next.sent, bad)
    ensures |next.log| == |t.log| + |batch|
    ensures forall i :: 0 <= i < |batch| ==>
              var e := next.log[|t.log| + i];
              e.changeId == batch[i].changeId && if batch[i].record.recordId in bad then e.handling == Fail(batch[i]) else e.handling.Acked?
    ensures forall r :: r in next.failed <==> r in t.failed || (r in bad && exists p :: p in batch && p.record.recordId == r)
  {
    var entries := next.log[|t.log|..];
    forall i | 0 <= i < |batch|
      ensures entries[i].changeId == batch[i].changeId
      ensures if batch[i].record.recordId in bad then entries[i].handling == Fail(batch[i]) else entries[i].handling.Acked?
    {
      assert Answered(server, |t.sent|, next.sent, batch[i], entries[i]);
      var k: nat :| |t.sent| <= k && Decided(server, next.sent, batch[i], entries[i], k);
      if batch[i].record.recordId in bad {
        assert HasBad(next.sent[k], bad);
      }
    }
    forall r
      ensures r in FailedOf(batch, entries) <==> r in bad && exists p :: p in batch && p.record.recordId == r
    {
      if p :| r in bad && p in batch && p.record.recordId == r {
        var i :| 0 <= i < |batch| && batch[i] == p;
        assert !entries[i].handling.Acked?;
      }
    }
  }

  // ---- A round, batch by batch ----

  /** A batch pushed in a round, with the outcomes its changes got. */
  datatype Piece = Piece(changes: seq<PendingChange>, entries: seq<Entry>)

  function ChangesOf(pieces: seq<Piece>): seq<PendingChange> {
    if pieces == [] then [] else ChangesOf(pieces[..|pieces| - 1]) + pieces[|pieces| - 1].changes
  }

  function EntriesOf(pieces: seq<Piece>): seq<Entry> {
    if pieces == [] then [] else EntriesOf(pieces[..|pieces| - 1]) + pieces[|pieces| - 1].entries
  }

  function FailedAfter(pieces: seq<Piece>): set<RecordId> {
    if pieces == [] then {} else
      var last := pieces[|pieces| - 1];
      FailedAfter(pieces[..|pieces| - 1]) + FailedOf(last.changes, last.entries)
  }

  /** Every outcome was decided by a call of the round. */
  ghost predicate AllDecided(server: Server, from: nat, sent: seq<seq<PendingChange>>, pieces: seq<Piece>) {
    forall i :: 0 <= i < |pieces| ==> PieceDecided(server, from, sent, pieces[i])
  }

  ghost predicate PieceDecided(server: Server, from: nat, sent: seq<seq<PendingChange>>, piece: Piece) {
    |piece.entries| <= |piece.changes|
    && forall i :: 0 <= i < |piece.entries| ==> Answered(server, from, sent, piece.changes[i], piece.entries[i])
  }

  /** What was pushed of a record: the first of its pending changes, and all unless one failed or the round stopped. */
  ghost predicate Progress(pieces: seq<Piece>, pending: seq<PendingChange>, r: RecordId, stopped: bool) {
    && PartOf(ChangesOf(pieces), r) <= PartOf(pending, r)
    && (!stopped && r !in FailedAfter(pieces) ==> PartOf(ChangesOf(pieces), r) == PartOf(pending, r))
  }

  /** Nothing of a record is pushed after a batch it failed in. */
  ghost predicate StopsAtFailure(pieces: seq<Piece>) {
    forall i, j :: 0 <= i < j < |pieces| ==>
      forall p: PendingChange :: p in pieces[j].changes ==> p.record.recordId !in FailedOf(pieces[i].changes, pieces[i].entries)
  }

  /** Some change of the record was pushed and not acknowledged. */
  ghost predicate NotAcked(pieces: seq<Piece>, r: RecordId) {
    exists i, k :: 0 <= i < |pieces| && 0 <= k < |pieces[i].changes| && k < |pieces[i].entries|
                   && pieces[i].changes[k].record.recordId == r && !pieces[i].entries[k].handling.Acked?
  }

  /** Some pending change of the record is parked. */
  ghost predicate HasParked(changes: seq<PendingChange>, r: RecordId) {
    exists p :: p in changes && p.parked && p.record.recordId == r
  }

  lemma {:induction false} HeldAre(changes: seq<PendingChange>, r: RecordId)
    ensures r in HeldIn(changes) <==> HasParked(changes, r)
  {
  }

  lemma {:induction false} FailedAre(pieces: seq<Piece>)
    ensures forall r :: r in FailedAfter(pieces) <==> NotAcked(pieces, r)
  {
    forall r
      ensures r in FailedAfter(pieces) <==> NotAcked(pieces, r)
    {
      FailedIs(pieces, r);
    }
  }

  lemma {:induction false} FailedIs(pieces: seq<Piece>, r: RecordId)
    ensures r in FailedAfter(pieces) <==> NotAcked(pieces, r)
  {
    if pieces != [] {
      hide FailedOf, NotAcked;
      FailedIs(pieces[..|pieces| - 1], r);
      NotAckedLast(pieces, r);
    }
  }

  lemma {:induction false} NotAckedLast(pieces: seq<Piece>, r: RecordId)
    requires pieces != []
    ensures var n := |pieces| - 1;
            NotAcked(pieces, r) <==> NotAcked(pieces[..n], r) || r in FailedOf(pieces[n].changes, pieces[n].entries)
  {
    var n := |pieces| - 1;
    var last := pieces[n];
    if NotAcked(pieces[..n], r) {
      var i, k :| 0 <= i < n && 0 <= k < |pieces[..n][i].changes| && k < |pieces[..n][i].entries|
                  && pieces[..n][i].changes[k].record.recordId == r && !pieces[..n][i].entries[k].handling.Acked?;
      assert pieces[i] == pieces[..n][i];
    }
    if NotAcked(pieces, r) {
      var i, k :| 0 <= i < |pieces| && 0 <= k < |pieces[i].changes| && k < |pieces[i].entries|
                  && pieces[i].changes[k].record.recordId == r && !pieces[i].entries[k].handling.Acked?;
      if i < n {
        assert pieces[..n][i] == pieces[i];
      }
    }
    if r in FailedOf(last.changes, last.entries) {
      var k :| 0 <= k < |last.changes| && k < |last.entries| && !last.entries[k].handling.Acked? && last.changes[k].record.recordId == r;
      assert pieces[n].changes[k].record.recordId == r;
    }
  }

  lemma {:induction false} LimitsOf(pieces: seq<Piece>)
    requires forall i :: 0 <= i < |pieces| ==> Sendable(PUSH_LIMITS, pieces[i].changes)
    ensures forall i :: 0 <= i < |pieces| ==> WithinLimits(Limits(MAX_PUSH_CHANGES, MAX_PUSH_BYTES), pieces[i].changes)
  {
    hide Bytes, Grouped;
  }

  /** Every outcome of the round is what a reply to a call made for the change makes of it. */
  ghost predicate AllRightly(server: Server, from: nat, sent: seq<seq<PendingChange>>, pieces: seq<Piece>) {
    forall i, k :: 0 <= i < |pieces| && 0 <= k < |pieces[i].entries| ==>
      k < |pieces[i].changes| && AnsweredRightly(server, from, sent, pieces[i].changes[k], pieces[i].entries[k])
  }

  lemma {:induction false} PiecesRightly(server: Server, from: nat, sent: seq<seq<PendingChange>>, pieces: seq<Piece>)
    requires AllDecided(server, from, sent, pieces)
    ensures AllRightly(server, from, sent, pieces)
  {
    hide Answered, AnsweredRightly;
    forall i, k | 0 <= i < |pieces| && 0 <= k < |pieces[i].entries|
      ensures k < |pieces[i].changes| && AnsweredRightly(server, from, sent, pieces[i].changes[k], pieces[i].entries[k])
    {
      assert PieceDecided(server, from, sent, pieces[i]);
      EachRightly(server, from, sent, pieces[i].changes[k], pieces[i].entries[k]);
    }
  }

  lemma {:induction false} PieceNext(pieces: seq<Piece>, piece: Piece)
    ensures ChangesOf(pieces + [piece]) == ChangesOf(pieces) + piece.changes
    ensures EntriesOf(pieces + [piece]) == EntriesOf(pieces) + piece.entries
    ensures FailedAfter(pieces + [piece]) == FailedAfter(pieces) + FailedOf(piece.changes, piece.entries)
  {
    assert (pieces + [piece])[..|pieces|] == pieces;
  }

  lemma {:induction false} NothingPushed(server: Server, from: nat, sent: seq<seq<PendingChange>>)
    ensures EntriesOf([]) == [] && FailedAfter([]) == {} && StopsAtFailure([]) && AllDecided(server, from, sent, [])
    ensures forall r :: Progress([], Concat<PendingChange>([]), r, false)
  {
  }

  lemma {:induction false} PieceOf(server: Server, t: Trace, next: Trace, rest: seq<PendingChange>, stopped: bool)
    requires BatchPushed(server, t, next, rest, stopped)
    ensures t.sent <= next.sent && t.log <= next.log
    ensures var piece := Piece(rest, next.log[|t.log|..]);
            && next.log == t.log + piece.entries
            && PieceDecided(server, |t.sent|, next.sent, piece)
            && (!stopped ==> |piece.entries| == |piece.changes| && next.failed == t.failed + FailedOf(piece.changes, piece.entries))
  {
    hide Answered, FailedOf;
  }

  lemma {:induction false} PiecesNext(server: Server, from: nat, sent: seq<seq<PendingChange>>, later: seq<seq<PendingChange>>, pieces: seq<Piece>, piece: Piece)
    requires from <= |sent| && sent <= later
    requires AllDecided(server, from, sent, pieces) && PieceDecided(server, |sent|, later, piece)
    ensures AllDecided(server, from, later, pieces + [piece])
    ensures EntriesOf(pieces + [piece]) == EntriesOf(pieces) + piece.entries
    ensures FailedAfter(pieces + [piece]) == FailedAfter(pieces) + FailedOf(piece.changes, piece.entries)
  {
    hide Answered, FailedOf;
    PieceNext(pieces, piece);
    var all := pieces + [piece];
    forall i | 0 <= i < |all|
      ensures PieceDecided(server, from, later, all[i])
    {
      forall m | 0 <= m < |all[i].entries|
        ensures m < |all[i].changes| && Answered(server, from, later, all[i].changes[m], all[i].entries[m])
      {
        if i < |pieces| {
          assert PieceDecided(server, from, sent, pieces[i]);
          AnsweredLater(server, from, sent, later, from, all[i].changes[m], all[i].entries[m]);
        } else {
          AnsweredLater(server, |sent|, later, later, from, all[i].changes[m], all[i].entries[m]);
        }
      }
    }
  }

  /** Pushing the next batch without the records that failed: what is pushed of each record stays a prefix of what is pending. */
  lemma {:induction false} ProgressNext(pieces: seq<Piece>, pending: seq<PendingChange>, batch: seq<PendingChange>, piece: Piece, r: RecordId, stopped: bool)
    requires Progress(pieces, pending, r, false)
    requires piece.changes == Without(batch, FailedAfter(pieces))
    ensures Progress(pieces + [piece], pending + batch, r, stopped)
  {
    hide FailedOf, PartOf;
    PieceNext(pieces, piece);
    PartAppend(ChangesOf(pieces), piece.changes, r);
    PartAppend(pending, batch, r);
    PartWithout(batch, FailedAfter(pieces), r);
  }

  /** So does skipping a batch whose records all failed. */
  lemma {:induction false} ProgressSkips(pieces: seq<Piece>, pending: seq<PendingChange>, batch: seq<PendingChange>, r: RecordId)
    requires Progress(pieces, pending, r, false) && Without(batch, FailedAfter(pieces)) == []
    ensures Progress(pieces, pending + batch, r, false)
  {
    hide FailedOf, PartOf;
    PartAppend(pending, batch, r);
    PartWithout(batch, FailedAfter(pieces), r);
    NoPart(r);
  }

  lemma {:induction false} NoPart(r: RecordId)
    ensures PartOf([], r) == []
  {
  }

  lemma {:induction false} StopsNext(pieces: seq<Piece>, batch: seq<PendingChange>, piece: Piece)
    requires StopsAtFailure(pieces) && piece.changes == Without(batch, FailedAfter(pieces))
    ensures StopsAtFailure(pieces + [piece])
  {
    hide FailedOf;
    var all := pieces + [piece];
    forall i, j | 0 <= i < j < |all|
      ensures forall p: PendingChange :: p in all[j].changes ==> p.record.recordId !in FailedOf(all[i].changes, all[i].entries)
    {
      if j == |pieces| {
        WithoutMember(batch, FailedAfter(pieces));
        FailedPiece(pieces, i);
      }
    }
  }

  lemma {:induction false} FailedPiece(pieces: seq<Piece>, i: nat)
    requires i < |pieces|
    ensures FailedOf(pieces[i].changes, pieces[i].entries) <= FailedAfter(pieces)
  {
    hide FailedOf;
    var n := |pieces| - 1;
    if i < n {
      FailedPiece(pieces[..n], i);
    }
  }

  /** What was pushed of the batches so far, against all that is pending. */
  lemma {:induction false} Delivered(pieces: seq<Piece>, changes: seq<PendingChange>, batches: seq<seq<PendingChange>>, n: nat, r: RecordId, stopped: bool)
    requires n <= |batches| && (stopped || n == |batches|) && Concat(batches) == Flat(Chains(Without(changes, HeldIn(changes))))
    requires Progress(pieces, Concat(batches[..n]), r, stopped)
    ensures if r in HeldIn(changes) then PartOf(ChangesOf(pieces), r) == [] else Progress(pieces, changes, r, stopped)
  {
    hide FailedAfter, PartOf, Without, Chains, Flat, HeldIn, ChangesOf, Concat;
    BatchesKeepRecords(Without(changes, HeldIn(changes)), r);
    PartWithout(changes, HeldIn(changes), r);
    ConcatAppend(batches[..n], batches[n..]);
    assert batches[..n] + batches[n..] == batches;
    PartAppend(Concat(batches[..n]), Concat(batches[n..]), r);
    assert n == |batches| ==> batches[..n] == batches;
  }

  // ---- Leaving records out ----

  /** The changes of none of these records. */
  function Without(changes: seq<PendingChange>, records: set<RecordId>): seq<PendingChange> {
    if changes == [] then [] else
      var n := |changes| - 1;
      Without(changes[..n], records) + (if changes[n].record.recordId in records then [] else [changes[n]])
  }

  /** The records with a parked change. */
  function HeldIn(changes: seq<PendingChange>): set<RecordId> {
    set i | 0 <= i < |changes| && changes[i].parked :: changes[i].record.recordId
  }

  lemma {:induction false} WithoutMember(changes: seq<PendingChange>, records: set<RecordId>)
    ensures forall p: PendingChange :: p in Without(changes, records) ==> p.record.recordId !in records
  {
    if changes != [] {
      WithoutMember(changes[..|changes| - 1], records);
    }
  }

  lemma {:induction false} WithoutNext(changes: seq<PendingChange>, records: set<RecordId>)
    requires changes != []
    ensures var n := |changes| - 1;
            Without(changes, records) == Without(changes[..n], records) + (if changes[n].record.recordId in records then [] else [changes[n]])
  {
  }

  /** The others keep all their changes, in order. */
  lemma {:induction false} PartWithout(changes: seq<PendingChange>, records: set<RecordId>, r: RecordId)
    ensures PartOf(Without(changes, records), r) == if r in records then [] else PartOf(changes, r)
  {
    if changes != [] {
      var n := |changes| - 1;
      var last := if changes[n].record.recordId in records then [] else [changes[n]];
      assert changes[..n] + [changes[n]] == changes;
      WithoutNext(changes, records);
      hide PartOf, Without;
      PartWithout(changes[..n], records, r);
      PartAppend(Without(changes[..n], records), last, r);
      PartAppend(changes[..n], [changes[n]], r);
      PartUniform([changes[n]], changes[n].record.recordId, r);
      PartUniform(last, changes[n].record.recordId, r);
    }
  }

  lemma {:induction false} WithoutAppend(a: seq<PendingChange>, b: seq<PendingChange>, records: set<RecordId>)
    ensures Without(a + b, records) == Without(a, records) + Without(b, records)
  {
    if b == [] {
      assert a + b == a;
    } else {
      hide Without;
      var n := |b| - 1;
      var all := a + b;
      WithoutNext(all, records);
      WithoutNext(b, records);
      WithoutAppend(a, b[..n], records);
      assert all[..|all| - 1] == a + b[..n] && all[|all| - 1] == b[n];
      assert Without(all, records) == (Without(a, records) + Without(b[..n], records)) + (if b[n].record.recordId in records then [] else [b[n]]);
    }
  }

  lemma {:induction false} WithoutUniform(items: seq<PendingChange>, of: RecordId, records: set<RecordId>)
    requires OfOne(items, of)
    ensures Without(items, records) == if of in records then [] else items
  {
    if items != [] {
      WithoutUniform(items[..|items| - 1], of, records);
    }
  }

  /** The chains of the other records. */
  function OtherChains(chains: seq<Chain<PendingChange>>, records: set<RecordId>): seq<Chain<PendingChange>> {
    if chains == [] then [] else
      var n := |chains| - 1;
      OtherChains(chains[..n], records) + (if chains[n].recordId in records then [] else [chains[n]])
  }

  lemma {:induction false} OtherChainsTidy(chains: seq<Chain<PendingChange>>, records: set<RecordId>)
    requires Tidy(chains)
    ensures Tidy(OtherChains(chains, records)) && forall c :: c in OtherChains(chains, records) ==> c in chains
  {
    if chains != [] {
      var n := |chains| - 1;
      OtherChainsTidy(chains[..n], records);
      var others := OtherChains(chains[..n], records);
      forall k | 0 <= k < |others|
        ensures others[k].recordId != chains[n].recordId
      {
        assert others[k] in chains[..n];
      }
    }
  }

  lemma {:induction false} FlatWithout(chains: seq<Chain<PendingChange>>, records: set<RecordId>)
    requires Tidy(chains)
    ensures Without(Flat(chains), records) == Flat(OtherChains(chains, records))
  {
    if chains != [] {
      var n := |chains| - 1;
      FlatLast(chains, 0);
      TidyLast(chains);
      FlatWithout(chains[..n], records);
      WithoutAppend(Flat(chains[..n]), chains[n].items, records);
      WithoutUniform(chains[n].items, chains[n].recordId, records);
      OtherChainsLast(chains, records);
    }
  }

  lemma {:induction false} OtherChainsLast(chains: seq<Chain<PendingChange>>, records: set<RecordId>)
    requires chains != []
    ensures var n := |chains| - 1;
            Flat(OtherChains(chains, records)) == Flat(OtherChains(chains[..n], records)) + (if chains[n].recordId in records then [] else chains[n].items)
  {
    var n := |chains| - 1;
    var others := OtherChains(chains[..n], records);
    if chains[n].recordId in records {
      assert others + [] == others && Flat(others) + [] == Flat(others);
    } else {
      assert (others + [chains[n]])[..|others|] == others;
    }
  }

  lemma {:induction false} BytesWithout(batch: seq<PendingChange>, records: set<RecordId>)
    ensures |Without(batch, records)| <= |batch| && Bytes(Without(batch, records)) <= Bytes(batch)
  {
    if batch != [] {
      var n := |batch| - 1;
      BytesWithout(batch[..n], records);
      var kept := Without(batch[..n], records);
      assert kept + [] == kept;
      assert (kept + [batch[n]])[..|kept|] == kept;
    }
  }

  /** A batch without some records may still be sent. */
  lemma {:induction false} WithoutSendable(limits: Limits, batch: seq<PendingChange>, records: set<RecordId>)
    requires Sendable(limits, batch) && Without(batch, records) != []
    ensures Sendable(limits, Without(batch, records))
  {
    var chains := Chains(batch);
    ChainsTidy(batch);
    hide Chains, Without, Tidy, Bytes;
    FlatWithout(chains, records);
    OtherChainsTidy(chains, records);
    GroupFlat(OtherChains(chains, records));
    BytesWithout(batch, records);
  }

  lemma {:induction false} SendableGrouped(limits: Limits, batch: seq<PendingChange>)
    requires Sendable(limits, batch)
    ensures batch != [] && Grouped(batch)
  {
  }

  lemma {:induction false} ConcatNext(batches: seq<seq<PendingChange>>, n: nat)
    requires n < |batches|
    ensures Concat(batches[..n + 1]) == Concat(batches[..n]) + batches[n]
  {
    assert batches[..n + 1][..n] == batches[..n];
  }
}
