/**
 * Grouping a list by record, each group in list order and the groups in the order
 * their records first appear. The server groups a batch this way (`groupByRecord`),
 * the client its outbox (`groupChains`). `ids[i]` is the record of `xs[i]`.
 */
module Grouping {
  import opened Tables

  /** One record's items. */
  datatype Chain<T> = Chain(recordId: RecordId, items: seq<T>)

  /** The items of one record, in list order. */
  function OfRecord<T>(xs: seq<T>, ids: seq<RecordId>, recordId: RecordId): seq<T>
    requires |ids| == |xs|
  {
    if xs == [] then [] else
      var n := |xs| - 1;
      OfRecord(xs[..n], ids[..n], recordId) + (if ids[n] == recordId then [xs[n]] else [])
  }

  /** Append an item to its record's chain, or open a new chain at the end. */
  function AddTo<T>(chains: seq<Chain<T>>, recordId: RecordId, x: T): seq<Chain<T>> {
    if chains == [] then [Chain(recordId, [x])]
    else if chains[0].recordId == recordId then [Chain(recordId, chains[0].items + [x])] + chains[1..]
    else [chains[0]] + AddTo(chains[1..], recordId, x)
  }

  function Group<T>(xs: seq<T>, ids: seq<RecordId>): seq<Chain<T>>
    requires |ids| == |xs|
  {
    if xs == [] then [] else
      var n := |xs| - 1;
      AddTo(Group(xs[..n], ids[..n]), ids[n], xs[n])
  }

  ghost predicate DistinctRecords<T>(chains: seq<Chain<T>>) {
    forall i, j :: 0 <= i < j < |chains| ==> chains[i].recordId != chains[j].recordId
  }

  ghost predicate HasChain<T>(chains: seq<Chain<T>>, recordId: RecordId) {
    exists i :: 0 <= i < |chains| && chains[i].recordId == recordId
  }

  lemma {:induction false} HasChainTail<T>(chains: seq<Chain<T>>, recordId: RecordId)
    requires chains != []
    ensures HasChain(chains, recordId) <==> chains[0].recordId == recordId || HasChain(chains[1..], recordId)
  {
    if HasChain(chains, recordId) {
      var i :| 0 <= i < |chains| && chains[i].recordId == recordId;
      assert i > 0 ==> chains[1..][i - 1].recordId == recordId;
    }
    if HasChain(chains[1..], recordId) {
      var i :| 0 <= i < |chains| - 1 && chains[1..][i].recordId == recordId;
      assert chains[i + 1].recordId == recordId;
    }
  }

  /** Adding to a chain changes that chain only, and opens one only for a new record. */
  lemma {:induction false} AddToEffect<T>(chains: seq<Chain<T>>, recordId: RecordId, x: T)
    requires DistinctRecords(chains)
    ensures var after := AddTo(chains, recordId, x);
            && DistinctRecords(after)
            && |after| == |chains| + (if HasChain(chains, recordId) then 0 else 1)
            && (forall i :: 0 <= i < |chains| ==>
                  after[i] == (if chains[i].recordId == recordId then Chain(recordId, chains[i].items + [x]) else chains[i]))
            && (!HasChain(chains, recordId) ==> after[|chains|] == Chain(recordId, [x]))
  {
    if chains == [] {
    } else if chains[0].recordId == recordId {
      assert HasChain(chains, recordId);
    } else {
      AddToEffect(chains[1..], recordId, x);
      var rest := AddTo(chains[1..], recordId, x);
      var after := AddTo(chains, recordId, x);
      assert after == [chains[0]] + rest;
      HasChainTail(chains, recordId);
      forall i | 0 <= i < |chains|
        ensures after[i] == if chains[i].recordId == recordId then Chain(recordId, chains[i].items + [x]) else chains[i]
      {
        if i > 0 {
          assert chains[1..][i - 1] == chains[i];
        }
      }
      assert DistinctRecords(after);
    }
  }

  /**
   * Grouping keeps every item once: the groups are exactly the records of the list,
   * no record twice, each with its own items in list order.
   */
  lemma {:induction false} GroupIsPartition<T>(xs: seq<T>, ids: seq<RecordId>)
    requires |ids| == |xs|
    ensures var chains := Group(xs, ids);
            && DistinctRecords(chains)
            && (forall i :: 0 <= i < |chains| ==> chains[i].items == OfRecord(xs, ids, chains[i].recordId) && chains[i].items != [])
            && (forall r :: r in ids <==> HasChain(chains, r))
  {
    if xs != [] {
      var n := |xs| - 1;
      var before := Group(xs[..n], ids[..n]);
      GroupIsPartition(xs[..n], ids[..n]);
      AddToEffect(before, ids[n], xs[n]);
      var chains := Group(xs, ids);
      assert ids == ids[..n] + [ids[n]];
      if ids[n] !in ids[..n] {
        NotListed(xs[..n], ids[..n], ids[n]);
      }
      SameRecords(before, chains, ids[n], xs[n]);
    }
  }

  lemma {:induction false} SameRecords<T>(before: seq<Chain<T>>, chains: seq<Chain<T>>, recordId: RecordId, x: T)
    requires |chains| == |before| + (if HasChain(before, recordId) then 0 else 1)
    requires forall i :: 0 <= i < |before| ==> chains[i].recordId == before[i].recordId
    requires !HasChain(before, recordId) ==> chains[|before|].recordId == recordId
    ensures forall r :: HasChain(chains, r) <==> HasChain(before, r) || r == recordId
  {
    forall r
      ensures HasChain(chains, r) <==> HasChain(before, r) || r == recordId
    {
      if HasChain(before, r) {
        var i :| 0 <= i < |before| && before[i].recordId == r;
        assert chains[i].recordId == r;
      }
      if HasChain(chains, r) {
        var i :| 0 <= i < |chains| && chains[i].recordId == r;
        if i < |before| {
          assert before[i].recordId == r;
        }
      }
      if r == recordId && !HasChain(before, r) {
        assert chains[|before|].recordId == r;
      }
    }
  }

  lemma {:induction false} NotListed<T>(xs: seq<T>, ids: seq<RecordId>, recordId: RecordId)
    requires |ids| == |xs| && recordId !in ids
    ensures OfRecord(xs, ids, recordId) == []
  {
    if xs != [] {
      var n := |xs| - 1;
      assert ids[n] in ids;
      NotListed(xs[..n], ids[..n], recordId);
    }
  }

  /** A record's items are at increasing places of the list. */
  lemma {:induction false} OfRecordPlaces<T>(xs: seq<T>, ids: seq<RecordId>, recordId: RecordId) returns (places: seq<nat>)
    requires |ids| == |xs|
    ensures |places| == |OfRecord(xs, ids, recordId)|
    ensures forall i :: 0 <= i < |places| ==>
              places[i] < |xs| && OfRecord(xs, ids, recordId)[i] == xs[places[i]] && ids[places[i]] == recordId
    ensures forall i, j :: 0 <= i < j < |places| ==> places[i] < places[j]
    ensures forall k :: 0 <= k < |xs| && ids[k] == recordId ==> k in places
  {
    if xs == [] {
      places := [];
    } else {
      var n := |xs| - 1;
      var before := OfRecordPlaces(xs[..n], ids[..n], recordId);
      places := before + (if ids[n] == recordId then [n] else []);
      forall k | 0 <= k < |xs| && ids[k] == recordId
        ensures k in places
      {
        if k < n {
          assert ids[..n][k] == recordId;
        }
      }
    }
  }

  /** The chains held by a map, in the order its keys were inserted. */
  function Entries<T>(order: seq<RecordId>, byId: map<RecordId, seq<T>>): (chains: seq<Chain<T>>)
    requires forall i :: 0 <= i < |order| ==> order[i] in byId
  {
    if order == [] then [] else
      [Chain(order[0], byId[order[0]])] + Entries(order[1..], byId)
  }

  lemma {:induction false} EntriesFrame<T>(order: seq<RecordId>, byId: map<RecordId, seq<T>>, recordId: RecordId, items: seq<T>)
    requires forall i :: 0 <= i < |order| ==> order[i] in byId && order[i] != recordId
    ensures Entries(order, byId[recordId := items]) == Entries(order, byId)
  {
    if order != [] {
      EntriesFrame(order[1..], byId, recordId, items);
    }
  }

  lemma {:induction false} EntriesAdd<T>(order: seq<RecordId>, byId: map<RecordId, seq<T>>, recordId: RecordId, x: T)
    requires forall i :: 0 <= i < |order| ==> order[i] in byId
    requires forall i, j :: 0 <= i < j < |order| ==> order[i] != order[j]
    ensures recordId in order ==> Entries(order, byId[recordId := byId[recordId] + [x]]) == AddTo(Entries(order, byId), recordId, x)
    ensures recordId !in order ==> Entries(order + [recordId], byId[recordId := [x]]) == AddTo(Entries(order, byId), recordId, x)
  {
    if order == [] {
      assert order + [recordId] == [recordId];
    } else {
      var rest := order[1..];
      if order[0] == recordId {
        EntriesFrame(rest, byId, recordId, byId[recordId] + [x]);
      } else {
        EntriesAdd(rest, byId, recordId, x);
        assert recordId in order <==> recordId in rest;
        assert (order + [recordId])[1..] == rest + [recordId];
      }
    }
  }

  /** The loop over an insertion-ordered map computes `Group`. */
  method GroupByRecord<T>(xs: seq<T>, ids: seq<RecordId>) returns (chains: seq<Chain<T>>)
    requires |ids| == |xs|
    ensures chains == Group(xs, ids)
  {
    var order: seq<RecordId> := [];
    var byId: map<RecordId, seq<T>> := map[];
    for n := 0 to |xs|
      invariant forall i :: 0 <= i < |order| ==> order[i] in byId
      invariant forall i, j :: 0 <= i < j < |order| ==> order[i] != order[j]
      invariant forall r :: r in byId ==> r in order
      invariant Entries(order, byId) == Group(xs[..n], ids[..n])
    {
      var x := xs[n];
      assert xs[..n + 1][..n] == xs[..n] && ids[..n + 1][..n] == ids[..n];
      EntriesAdd(order, byId, ids[n], x);
      if ids[n] in byId {
        byId := byId[ids[n] := byId[ids[n]] + [x]];
      } else {
        order := order + [ids[n]];
        byId := byId[ids[n] := [x]];
      }
    }
    assert xs[..|xs|] == xs && ids[..|ids|] == ids;
    chains := Entries(order, byId);
  }
}
