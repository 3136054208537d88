/**
 * Paging the log out (`sync`): one page is a prefix of the rows past the cursors in
 * (vault, seq) order. The reads are not one transaction: `seen[id]` is the table at the
 * moment vault `id` is read.
 */
module Sync {
  import opened Prelude
  import opened Tables
  import opened PushLog

  /** A vault's rows past a cursor, in write order (which is seq order, `PastInSeqOrder`). */
  function Past(rows: seq<Row>, id: VaultId, cursor: nat): (past: seq<Row>) {
    if rows == [] then [] else
      var last := rows[|rows| - 1];
      Past(rows[..|rows| - 1], id, cursor) + (if last.v.vaultId == id && last.seqNo > cursor then [last] else [])
  }

  function CursorOf(cursors: map<VaultId, nat>, id: VaultId): nat {
    if id in cursors then cursors[id] else 0
  }

  /** What each read of a page finds. */
  predicate Seen(seen: map<VaultId, seq<Row>>, ids: seq<VaultId>) {
    forall i :: 0 <= i < |ids| ==> ids[i] in seen
  }

  /** The rows of these vaults past their cursors, vault by vault. */
  function AllPast(seen: map<VaultId, seq<Row>>, ids: seq<VaultId>, cursors: map<VaultId, nat>): seq<Row>
    requires Seen(seen, ids)
  {
    if ids == [] then [] else
      var id := ids[|ids| - 1];
      AllPast(seen, ids[..|ids| - 1], cursors) + Past(seen[id], id, CursorOf(cursors, id))
  }

  function Take<T>(xs: seq<T>, n: nat): (prefix: seq<T>)
    ensures prefix <= xs && |prefix| == if n < |xs| then n else |xs|
  {
    if n < |xs| then xs[..n] else xs
  }

  /** Cursors move up to the highest seq among the rows of their vault. */
  function NextCursors(cursors: map<VaultId, nat>, page: seq<Row>): (next: map<VaultId, nat>) {
    if page == [] then cursors else
      var last := page[|page| - 1];
      var before := NextCursors(cursors, page[..|page| - 1]);
      before[last.v.vaultId := Max(CursorOf(before, last.v.vaultId), last.seqNo)]
  }

  datatype Page = Page(records: seq<Row>, cursors: map<VaultId, nat>, hasMore: bool)

  /** The page after these cursors. */
  function PageOf(seen: map<VaultId, seq<Row>>, ids: seq<VaultId>, cursors: map<VaultId, nat>, limit: nat): Page
    requires Seen(seen, ids)
  {
    var all := AllPast(seen, ids, cursors);
    Page(Take(all, limit), NextCursors(StartCursors(ids, cursors), Take(all, limit)), |all| > limit)
  }

  /** Where the scan starts: a vault without a cursor starts at 0. */
  function StartCursors(ids: seq<VaultId>, cursors: map<VaultId, nat>): (start: map<VaultId, nat>)
    ensures forall id :: id in start <==> id in ids
    ensures forall id :: id in ids ==> start[id] == CursorOf(cursors, id)
  {
    map id | id in ids :: CursorOf(cursors, id)
  }

  lemma {:induction false} SameCursors(seen: map<VaultId, seq<Row>>, ids: seq<VaultId>, a: map<VaultId, nat>, b: map<VaultId, nat>)
    requires Seen(seen, ids)
    requires forall i :: 0 <= i < |ids| ==> CursorOf(a, ids[i]) == CursorOf(b, ids[i])
    ensures AllPast(seen, ids, a) == AllPast(seen, ids, b)
  {
    if ids != [] {
      SameCursors(seen, ids[..|ids| - 1], a, b);
    }
  }

  /** The scan: vault by vault in id order, one row past the page telling whether more wait. */
  method ScanVaults(seen: map<VaultId, seq<Row>>, ids: seq<VaultId>, cursors: map<VaultId, nat>, limit: nat) returns (records: seq<Row>, hasMore: bool)
    requires Seen(seen, ids)
    requires forall i :: 0 <= i < |ids| ==> ids[i] in cursors
    ensures records == Take(AllPast(seen, ids, cursors), limit)
    ensures hasMore <==> |AllPast(seen, ids, cursors)| > limit
  {
    records := [];
    hasMore := false;
    var n := 0;
    assert AllPast(seen, ids[..0], cursors) == [];
    hide AllPast, Past;
    while n < |ids| && !hasMore
      invariant n <= |ids|
      invariant !hasMore ==> records == AllPast(seen, ids[..n], cursors) && |records| <= limit
      invariant hasMore ==> |AllPast(seen, ids, cursors)| > limit && records == AllPast(seen, ids, cursors)[..limit]
    {
      var id := ids[n];
      var room := limit - |records|;
      var past := Past(seen[id], id, cursors[id]);
      ScanStep(seen, ids, cursors, n, records, limit);
      var rows := Take(past, room + 1);
      hasMore := |rows| > room;
      records := records + Take(rows, room);
      assert Take(rows, room) == Take(past, room);
      n := n + 1;
    }
    assert ids[..|ids|] == ids;
  }

  /** One page of `sync`. */
  method ReadPage(seen: map<VaultId, seq<Row>>, ids: seq<VaultId>, known: map<VaultId, nat>, limit: nat) returns (page: Page)
    requires Seen(seen, ids)
    ensures page == PageOf(seen, ids, known, limit)
  {
    var cursors := StartCursors(ids, known);
    SameCursors(seen, ids, cursors, known);
    var records, hasMore := ScanVaults(seen, ids, cursors, limit);
    for i := 0 to |records|
      invariant cursors == NextCursors(StartCursors(ids, known), records[..i])
    {
      var row := records[i];
      assert records[..i + 1][..i] == records[..i];
      cursors := cursors[row.v.vaultId := Max(CursorOf(cursors, row.v.vaultId), row.seqNo)];
    }
    assert records[..|records|] == records;
    page := Page(records, cursors, hasMore);
  }

  lemma {:induction false} ScanStep(seen: map<VaultId, seq<Row>>, ids: seq<VaultId>, cursors: map<VaultId, nat>, n: nat, records: seq<Row>, limit: nat)
    requires Seen(seen, ids) && n < |ids|
    requires records == AllPast(seen, ids[..n], cursors) && |records| <= limit
    ensures var past := Past(seen[ids[n]], ids[n], CursorOf(cursors, ids[n]));
            var room := limit - |records|;
            var all := AllPast(seen, ids, cursors);
            && (|past| <= room ==> records + past == AllPast(seen, ids[..n + 1], cursors))
            && (|past| > room ==> |all| > limit && records + past[..room] == all[..limit])
  {
    var past := Past(seen[ids[n]], ids[n], CursorOf(cursors, ids[n]));
    assert ids[..n + 1][..n] == ids[..n];
    AllPastPrefix(seen, ids, cursors, n + 1);
    assert records + past == AllPast(seen, ids[..n + 1], cursors);
    assert records + past <= AllPast(seen, ids, cursors);
  }

  lemma {:induction false} AllPastPrefix(seen: map<VaultId, seq<Row>>, ids: seq<VaultId>, cursors: map<VaultId, nat>, n: nat)
    requires Seen(seen, ids) && n <= |ids|
    ensures AllPast(seen, ids[..n], cursors) <= AllPast(seen, ids, cursors)
  {
    if n < |ids| {
      var m := |ids| - 1;
      AllPastPrefix(seen, ids[..m], cursors, n);
      assert ids[..m][..n] == ids[..n];
    } else {
      assert ids[..n] == ids;
    }
  }

  // ---- Following the cursors over fixed rows ----

  ghost predicate Distinct(ids: seq<VaultId>) {
    forall i, j :: 0 <= i < j < |ids| ==> ids[i] != ids[j]
  }

  lemma {:induction false} PastMember(rows: seq<Row>, id: VaultId, cursor: nat, row: Row)
    ensures row in Past(rows, id, cursor) <==> row in rows && row.v.vaultId == id && row.seqNo > cursor
  {
    if rows != [] {
      var n := |rows| - 1;
      assert rows == rows[..n] + [rows[n]];
      PastMember(rows[..n], id, cursor, row);
    }
  }

  /** Write order is seq order within a vault. */
  lemma {:induction false} PastInSeqOrder(rows: seq<Row>, id: VaultId, cursor: nat)
    requires Ordered(rows)
    ensures var past := Past(rows, id, cursor); forall i, j :: 0 <= i < j < |past| ==> past[i].seqNo < past[j].seqNo
  {
    if rows != [] {
      var n := |rows| - 1;
      PastInSeqOrder(rows[..n], id, cursor);
      var before := Past(rows[..n], id, cursor);
      forall i | 0 <= i < |before|
        ensures rows[n].v.vaultId == id ==> before[i].seqNo < rows[n].seqNo
      {
        PastMember(rows[..n], id, cursor, before[i]);
        var k :| 0 <= k < n && rows[k] == before[i];
        assert Precedes(rows[k], rows[n]);
      }
    }
  }

  /** Past a row of the vault come exactly the rows after it. */
  lemma {:induction false} PastRow(rows: seq<Row>, id: VaultId, cursor: nat, k: nat)
    requires Ordered(rows) && k < |Past(rows, id, cursor)|
    ensures Past(rows, id, Past(rows, id, cursor)[k].seqNo) == Past(rows, id, cursor)[k + 1..]
  {
    var n := |rows| - 1;
    var before := Past(rows[..n], id, cursor);
    var past := Past(rows, id, cursor);
    PastInSeqOrder(rows, id, cursor);
    PastMember(rows, id, cursor, past[k]);
    if k < |before| {
      PastRow(rows[..n], id, cursor, k);
      var more := if rows[n].v.vaultId == id && rows[n].seqNo > cursor then [rows[n]] else [];
      assert past == before + more && past[k] == before[k];
      assert more != [] ==> past[|before|] == rows[n] && past[k].seqNo < rows[n].seqNo;
      assert past[k + 1..] == before[k + 1..] + more;
    } else {
      NonePast(rows, id, past[k].seqNo, cursor);
    }
  }

  lemma {:induction false} NonePast(rows: seq<Row>, id: VaultId, high: nat, cursor: nat)
    requires cursor <= high
    requires forall row :: row in Past(rows, id, cursor) ==> row.seqNo <= high
    ensures Past(rows, id, high) == []
  {
    if Past(rows, id, high) != [] {
      var row := Past(rows, id, high)[0];
      PastMember(rows, id, high, row);
      PastMember(rows, id, cursor, row);
    }
  }

  lemma {:induction false} CursorsElsewhere(cursors: map<VaultId, nat>, page: seq<Row>, id: VaultId)
    requires forall row :: row in page ==> row.v.vaultId != id
    ensures CursorOf(NextCursors(cursors, page), id) == CursorOf(cursors, id)
  {
    if page != [] {
      var n := |page| - 1;
      assert page[n] in page;
      CursorsElsewhere(cursors, page[..n], id);
    }
  }

  lemma {:induction false} CursorsAppend(cursors: map<VaultId, nat>, a: seq<Row>, b: seq<Row>)
    ensures NextCursors(cursors, a + b) == NextCursors(NextCursors(cursors, a), b)
  {
    if b == [] {
      assert a + b == a;
    } else {
      var n := |b| - 1;
      CursorsAppend(cursors, a, b[..n]);
      assert (a + b)[..|a| + n] == a + b[..n] && (a + b)[|a| + n] == b[n];
    }
  }

  /** A vault's cursor moves to the last row of an increasing run of its rows. */
  lemma {:induction false} CursorsOfRun(cursors: map<VaultId, nat>, run: seq<Row>, id: VaultId)
    requires run != []
    requires forall row :: row in run ==> row.v.vaultId == id && row.seqNo > CursorOf(cursors, id)
    requires forall i, j :: 0 <= i < j < |run| ==> run[i].seqNo < run[j].seqNo
    ensures CursorOf(NextCursors(cursors, run), id) == run[|run| - 1].seqNo
  {
    var n := |run| - 1;
    assert run[n] in run;
    if n > 0 {
      CursorsOfRun(cursors, run[..n], id);
    } else {
      assert run[..n] == [];
    }
  }

  lemma {:induction false} AllPastMember(seen: map<VaultId, seq<Row>>, ids: seq<VaultId>, cursors: map<VaultId, nat>, row: Row)
    requires Seen(seen, ids)
    ensures row in AllPast(seen, ids, cursors) <==>
            row.v.vaultId in ids && row in seen[row.v.vaultId] && row.seqNo > CursorOf(cursors, row.v.vaultId)
  {
    if ids != [] {
      var n := |ids| - 1;
      assert ids == ids[..n] + [ids[n]];
      AllPastMember(seen, ids[..n], cursors, row);
      PastMember(seen[ids[n]], ids[n], CursorOf(cursors, ids[n]), row);
    }
  }

  /** After a prefix of the rows past the cursors, the next cursors have exactly the rest past them. */
  lemma {:induction false} PageAdvances(seen: map<VaultId, seq<Row>>, ids: seq<VaultId>, cursors: map<VaultId, nat>, n: nat)
    requires Seen(seen, ids) && Distinct(ids)
    requires forall id :: id in ids ==> Ordered(seen[id])
    requires n <= |AllPast(seen, ids, cursors)|
    ensures var all := AllPast(seen, ids, cursors); AllPast(seen, ids, NextCursors(cursors, all[..n])) == all[n..]
  {
    hide Past, NextCursors, Ordered, CursorOf;
    if ids != [] {
      var m := |ids| - 1;
      var id := ids[m];
      var first := AllPast(seen, ids[..m], cursors);
      var past := Past(seen[id], id, CursorOf(cursors, id));
      var all := AllPast(seen, ids, cursors);
      if n <= |first| {
        PageAdvances(seen, ids[..m], cursors, n);
        assert all[..n] == first[..n];
        FirstElsewhere(seen, ids, cursors, first[..n]);
        assert all[n..] == first[n..] + past;
      } else {
        var k := n - |first|;
        PageAdvances(seen, ids[..m], cursors, |first|);
        assert first[..|first|] == first && first[|first|..] == [];
        assert all[..n] == first + past[..k] && all[n..] == past[k..];
        RunAdvances(seen, ids, cursors, first, k);
      }
    }
  }

  /** No row of the earlier vaults moves the last vault's cursor. */
  lemma {:induction false} FirstElsewhere(seen: map<VaultId, seq<Row>>, ids: seq<VaultId>, cursors: map<VaultId, nat>, page: seq<Row>)
    requires Seen(seen, ids) && Distinct(ids) && ids != []
    requires page <= AllPast(seen, ids[..|ids| - 1], cursors)
    ensures CursorOf(NextCursors(cursors, page), ids[|ids| - 1]) == CursorOf(cursors, ids[|ids| - 1])
  {
    var m := |ids| - 1;
    var first := AllPast(seen, ids[..m], cursors);
    forall row | row in page
      ensures row.v.vaultId != ids[m]
    {
      assert row in first;
      AllPastMember(seen, ids[..m], cursors, row);
    }
    CursorsElsewhere(cursors, page, ids[m]);
  }

  lemma {:induction false} RunAdvances(seen: map<VaultId, seq<Row>>, ids: seq<VaultId>, cursors: map<VaultId, nat>, first: seq<Row>, k: nat)
    requires Seen(seen, ids) && Distinct(ids) && ids != []
    requires forall id :: id in ids ==> Ordered(seen[id])
    requires first == AllPast(seen, ids[..|ids| - 1], cursors)
    requires AllPast(seen, ids[..|ids| - 1], NextCursors(cursors, first)) == []
    requires var id := ids[|ids| - 1]; 0 < k <= |Past(seen[id], id, CursorOf(cursors, id))|
    ensures var id := ids[|ids| - 1];
            var past := Past(seen[id], id, CursorOf(cursors, id));
            AllPast(seen, ids, NextCursors(cursors, first + past[..k])) == past[k..]
  {
    hide Past, NextCursors, Ordered, CursorOf;
    var m := |ids| - 1;
    var id := ids[m];
    var past := Past(seen[id], id, CursorOf(cursors, id));
    var run := past[..k];
    var middle := NextCursors(cursors, first);
    var next := NextCursors(cursors, first + run);
    CursorsAppend(cursors, first, run);
    FirstElsewhere(seen, ids, cursors, first);
    PastInSeqOrder(seen[id], id, CursorOf(cursors, id));
    forall row | row in run
      ensures row.v.vaultId == id && row.seqNo > CursorOf(cursors, id)
    {
      assert row in past;
      PastMember(seen[id], id, CursorOf(cursors, id), row);
    }
    CursorsOfRun(middle, run, id);
    PastRow(seen[id], id, CursorOf(cursors, id), k - 1);
    forall i | 0 <= i < m
      ensures CursorOf(next, ids[i]) == CursorOf(middle, ids[i])
    {
      CursorsElsewhere(middle, run, ids[i]);
    }
    SameCursors(seen, ids[..m], middle, next);
  }

  lemma {:induction false} SameStart(seen: map<VaultId, seq<Row>>, ids: seq<VaultId>, cursors: map<VaultId, nat>)
    requires Seen(seen, ids)
    ensures AllPast(seen, ids, StartCursors(ids, cursors)) == AllPast(seen, ids, cursors)
  {
    SameCursors(seen, ids, StartCursors(ids, cursors), cursors);
  }

  /** A page's records and the rows past its cursors make up the rows past the cursors it started from. */
  lemma {:induction false} PageSplits(seen: map<VaultId, seq<Row>>, ids: seq<VaultId>, cursors: map<VaultId, nat>, limit: nat)
    requires Seen(seen, ids) && Distinct(ids)
    requires forall id :: id in ids ==> Ordered(seen[id])
    ensures var page := PageOf(seen, ids, cursors, limit);
            && page.records + AllPast(seen, ids, page.cursors) == AllPast(seen, ids, cursors)
            && |page.records| <= limit
            && (page.hasMore <==> AllPast(seen, ids, page.cursors) != [])
  {
    hide Ordered, AllPast, NextCursors, CursorOf, Seen;
    var start := StartCursors(ids, cursors);
    SameStart(seen, ids, cursors);
    var all := AllPast(seen, ids, cursors);
    var n := |Take(all, limit)|;
    assert all[..n] == Take(all, limit);
    PageAdvances(seen, ids, start, n);
  }

  lemma {:induction false} CursorsRise(cursors: map<VaultId, nat>, page: seq<Row>)
    ensures forall id :: CursorOf(cursors, id) <= CursorOf(NextCursors(cursors, page), id)
    ensures forall row :: row in page ==> row.v.vaultId in NextCursors(cursors, page) && row.seqNo <= NextCursors(cursors, page)[row.v.vaultId]
    ensures cursors.Keys <= NextCursors(cursors, page).Keys
  {
    if page != [] {
      var n := |page| - 1;
      CursorsRise(cursors, page[..n]);
      forall row | row in page
        ensures row in page[..n] || row == page[n]
      {
      }
    }
  }

  /** The client's guard: some vault's cursor moved forward. */
  predicate Advanced(before: map<VaultId, nat>, after: map<VaultId, nat>) {
    exists id :: id in after && after[id] > CursorOf(before, id)
  }

  /** The cursors a device stores after a page. */
  function Stored(before: map<VaultId, nat>, page: Page): map<VaultId, nat> {
    before + page.cursors
  }

  /** A page that claims more moved some cursor forward. */
  lemma {:induction false} MoreMeansAdvanced(seen: map<VaultId, seq<Row>>, ids: seq<VaultId>, cursors: map<VaultId, nat>, limit: nat)
    requires Seen(seen, ids) && limit >= 1
    requires PageOf(seen, ids, cursors, limit).hasMore
    ensures Advanced(cursors, Stored(cursors, PageOf(seen, ids, cursors, limit)))
    ensures var next := PageOf(seen, ids, cursors, limit).cursors; exists id :: id in next && next[id] > CursorOf(cursors, id)
  {
    var page := PageOf(seen, ids, cursors, limit);
    var row := page.records[0];
    assert row == AllPast(seen, ids, cursors)[0];
    AllPastMember(seen, ids, cursors, row);
    CursorsRise(StartCursors(ids, cursors), page.records);
    assert row in page.records;
    assert Stored(cursors, page)[row.v.vaultId] > CursorOf(cursors, row.v.vaultId);
  }

  /** The stored cursors read the same rows as the page's own. */
  lemma {:induction false} StoredReadsPage(seen: map<VaultId, seq<Row>>, ids: seq<VaultId>, cursors: map<VaultId, nat>, limit: nat)
    requires Seen(seen, ids)
    ensures var page := PageOf(seen, ids, cursors, limit);
            AllPast(seen, ids, Stored(cursors, page)) == AllPast(seen, ids, page.cursors)
  {
    var page := PageOf(seen, ids, cursors, limit);
    CursorsRise(StartCursors(ids, cursors), page.records);
    forall i | 0 <= i < |ids|
      ensures ids[i] in page.cursors
    {
      assert ids[i] in StartCursors(ids, cursors).Keys;
    }
    SameCursors(seen, ids, Stored(cursors, page), page.cursors);
  }

  /**
   * Following the returned cursors over fixed rows: the pages together are exactly one
   * unpaged read, and the guard against a page without progress never fires.
   */
  method PullAll(seen: map<VaultId, seq<Row>>, ids: seq<VaultId>, start: map<VaultId, nat>, limit: nat)
      returns (pulled: Option<seq<Row>>, cursors: map<VaultId, nat>)
    requires Seen(seen, ids) && Distinct(ids) && limit >= 1
    requires forall id :: id in ids ==> Ordered(seen[id])
    ensures pulled == Some(AllPast(seen, ids, start))
    ensures AllPast(seen, ids, cursors) == []
  {
    hide Ordered, AllPast, PageOf, NextCursors;
    cursors := start;
    var records: seq<Row> := [];
    while true
      invariant records + AllPast(seen, ids, cursors) == AllPast(seen, ids, start)
      decreases |AllPast(seen, ids, cursors)|
    {
      var page := ReadPage(seen, ids, cursors, limit);
      PageSplits(seen, ids, cursors, limit);
      StoredReadsPage(seen, ids, cursors, limit);
      ghost var before := records;
      records := records + page.records;
      assert records + AllPast(seen, ids, page.cursors) == before + AllPast(seen, ids, cursors);
      var next := Stored(cursors, page);
      if !page.hasMore {
        assert records + [] == records;
        return Some(records), next;
      }
      MoreMeansAdvanced(seen, ids, cursors, limit);
      if !Advanced(cursors, next) {
        return None, next;
      }
      assert page.records != [] by {
        MoreIsFull(seen, ids, cursors, limit);
      }
      cursors := next;
    }
  }

  lemma {:induction false} MoreIsFull(seen: map<VaultId, seq<Row>>, ids: seq<VaultId>, cursors: map<VaultId, nat>, limit: nat)
    requires Seen(seen, ids)
    ensures PageOf(seen, ids, cursors, limit).hasMore ==> |PageOf(seen, ids, cursors, limit).records| == limit
  {
  }
}
