/**
 The local copy of a catalog directory (backend/app/catalog/mirror.py): what a full sync leaves, and
 what paging through it returns.
 */
module CatalogMirror {
  import opened Basics

  datatype Row = Row(id: string, deleted: bool, raw: nat)

  datatype Entry = Entry(rank: nat, row: Row, gen: nat)

  // ---------------------------------------------------------------- the listing it copies

  /** `k` is where the listing names its record last. */
  predicate LastAt(listing: seq<Row>, k: nat) {
    k < |listing| && forall j :: k < j < |listing| ==> listing[j].id != listing[k].id
  }

  /** The copy holds, for every record the listing names, what it said last, at that position. */
  ghost predicate Copies(entries: map<string, Entry>, listing: seq<Row>, gen: nat) {
    && (forall k: nat :: k < |listing| ==> listing[k].id in entries)
    && (forall id :: id in entries ==> IsCopy(entries[id], id, listing, gen))
  }

  ghost predicate IsCopy(e: Entry, id: string, listing: seq<Row>, gen: nat) {
    e.gen == gen && LastAt(listing, e.rank) && e.row == listing[e.rank] && e.row.id == id
  }

  /** Before a full sync is over, what the listing so far didn't name is still there, from earlier
      generations. */
  ghost predicate CopiesSoFar(entries: map<string, Entry>, listing: seq<Row>, gen: nat) {
    && (forall k: nat :: k < |listing| ==> listing[k].id in entries)
    && (forall id :: id in entries ==> entries[id].gen < gen || IsCopy(entries[id], id, listing, gen))
    && (forall k: nat :: k < |listing| ==> entries[listing[k].id].gen == gen)
  }

  lemma OneMoreRow(entries: map<string, Entry>, listing: seq<Row>, gen: nat, row: Row)
    requires CopiesSoFar(entries, listing, gen)
    ensures CopiesSoFar(entries[row.id := Entry(|listing|, row, gen)], listing + [row], gen)
  {
    var (entries', listing') := (entries[row.id := Entry(|listing|, row, gen)], listing + [row]);
    forall id | id in entries' && entries'[id].gen >= gen
      ensures IsCopy(entries'[id], id, listing', gen)
    {
      if id != row.id {
        assert IsCopy(entries[id], id, listing, gen);
      }
    }
  }

  function Joined(pages: seq<seq<Row>>): seq<Row> {
    if pages == [] then [] else Joined(pages[..|pages| - 1]) + pages[|pages| - 1]
  }

  /** A listing holds what its pages hold, page after page. */
  lemma {:induction false} PagesFollowEachOther(pages: seq<seq<Row>>, more: seq<seq<Row>>, page: seq<Row>)
    ensures Joined(pages + more) == Joined(pages) + Joined(more)
    ensures Joined([page]) == page
    decreases |more|
  {
    assert [page][..0] == [] && [page][0] == page;
    if more == [] {
      assert pages + more == pages && Joined(pages) + [] == Joined(pages);
    } else {
      var (init, last) := (more[..|more| - 1], more[|more| - 1]);
      assert (pages + more)[..|pages + more| - 1] == pages + init && (pages + more)[|pages + more| - 1] == last;
      PagesFollowEachOther(pages, init, page);
    }
  }

  class Mirror {
    var entries: map<string, Entry>

    constructor ()
      ensures entries == map[]
    {
      entries := map[];
    }

    /** `_write` on a full sync: `rank` is where the page starts. */
    method WritePage(rows: seq<Row>, gen: nat, rank: nat, ghost before: seq<Row>)
      requires rank == |before| && CopiesSoFar(entries, before, gen)
      modifies this
      ensures CopiesSoFar(entries, before + rows, gen)
    {
      assert before + rows[..0] == before;
      for i := 0 to |rows|
        invariant CopiesSoFar(entries, before + rows[..i], gen)
      {
        OneMoreRow(entries, before + rows[..i], gen, rows[i]);
        entries := entries[rows[i].id := Entry(rank + i, rows[i], gen)];
        assert before + rows[..i + 1] == (before + rows[..i]) + [rows[i]];
      }
      assert rows[..|rows|] == rows;
    }

    /** `_finish`: what the full listing didn't return is gone upstream. */
    method Finish(gen: nat)
      modifies this
      ensures entries == map id | id in old(entries) && old(entries)[id].gen >= gen :: old(entries)[id]
    {
      entries := map id | id in entries && entries[id].gen >= gen :: entries[id];
    }

    /** `sync`, a full pass: afterwards the copy is the listing, whatever it held before. */
    method SyncFull(pages: seq<seq<Row>>, gen: nat) returns (count: nat)
      requires forall id :: id in entries ==> entries[id].gen < gen
      modifies this
      ensures Copies(entries, Joined(pages), gen) && count == |Joined(pages)|
    {
      count := 0;
      for i := 0 to |pages|
        invariant count == |Joined(pages[..i])| && CopiesSoFar(entries, Joined(pages[..i]), gen)
      {
        assert pages[..i + 1][..i] == pages[..i];
        if pages[i] != [] {
          WritePage(pages[i], gen, count, Joined(pages[..i]));
          count := count + |pages[i]|;
        }
      }
      assert pages[..|pages|] == pages;
      Finish(gen);
    }

    /** `COALESCE(MAX(rank) + 1, 0)`. */
    method EndRank() returns (end: nat)
      ensures forall id :: id in entries ==> entries[id].rank < end
      ensures end > 0 ==> exists id :: id in entries && entries[id].rank == end - 1
    {
      end := 0;
      var todo := entries.Keys;
      while todo != {}
        invariant todo <= entries.Keys
        invariant forall id :: id in entries && id !in todo ==> entries[id].rank < end
        invariant end > 0 ==> exists id :: id in entries && entries[id].rank == end - 1
        decreases todo
      {
        var id :| id in todo;
        todo := todo - {id};
        end := Max(end, entries[id].rank + 1);
      }
    }

    /** `_write` on an incremental sync: known records keep their place, new ones go to the end. */
    method WriteChanges(rows: seq<Row>, gen: nat)
      requires Ranked(entries)
      modifies this
      ensures Ranked(entries) && exists rank :: Changed(old(entries), entries, rows, rank, gen)
    {
      var rank := EndRank();
      ghost var was := entries;
      NothingChanged(was, rows, rank, gen);
      for i := 0 to |rows|
        invariant WrittenSoFar(was, entries, rows, i, rank, gen)
      {
        NextRow(was, entries, rows, i, rank, gen);
        entries := Upserted(entries, rows[i], rank + i, gen);
      }
      assert rows[..|rows|] == rows;
    }
  }

  /** `ON CONFLICT ... DO UPDATE SET rank = rank`. */
  function Upserted(entries: map<string, Entry>, r: Row, place: nat, gen: nat): map<string, Entry> {
    entries[r.id := Entry(if r.id in entries then entries[r.id].rank else place, r, gen)]
  }

  /** What `rows` say last of each record. */
  function Latest(rows: seq<Row>): map<string, Row> {
    if rows == [] then map[]
    else
      var last := rows[|rows| - 1];
      Latest(rows[..|rows| - 1])[last.id := last]
  }

  /** Where the changes name a record first; their number, if they don't. */
  function FirstOf(rows: seq<Row>, id: string): nat {
    if rows == [] then 0
    else
      var before := rows[..|rows| - 1];
      if FirstOf(before, id) < |before| then FirstOf(before, id)
      else if rows[|before|].id == id then |before| else |rows|
  }

  /** A known record kept its place; a new one came after all of them, as the changes name it. */
  ghost predicate InPlace(was: map<string, Entry>, e: Entry, id: string, rows: seq<Row>, rank: nat) {
    if id in was then e.rank == was[id].rank < rank else e.rank == rank + FirstOf(rows, id) < rank + |rows|
  }

  ghost predicate Placed(was: map<string, Entry>, entries: map<string, Entry>, rows: seq<Row>, rank: nat) {
    was.Keys <= entries.Keys && forall id :: id in entries ==> InPlace(was, entries[id], id, rows, rank)
  }

  /** Every record the changes name says what they said last, under this sync's generation. */
  ghost predicate Told(was: map<string, Entry>, entries: map<string, Entry>, rows: seq<Row>, gen: nat) {
    && entries.Keys == was.Keys + Latest(rows).Keys
    && (forall id :: id in entries && id in Latest(rows) ==> entries[id].row == Latest(rows)[id] && entries[id].gen == gen)
    && (forall id :: id in entries && id !in Latest(rows) ==>
          entries[id].row == was[id].row && entries[id].gen == was[id].gen)
  }

  ghost predicate Changed(was: map<string, Entry>, entries: map<string, Entry>, rows: seq<Row>, rank: nat, gen: nat) {
    Placed(was, entries, rows, rank) && Told(was, entries, rows, gen)
  }

  lemma UpsertStaysRanked(entries: map<string, Entry>, r: Row, place: nat, gen: nat)
    requires Ranked(entries) && forall id :: id in entries ==> entries[id].rank < place
    ensures Ranked(Upserted(entries, r, place, gen))
  {
  }

  lemma LatestMore(rows: seq<Row>, r: Row)
    ensures Latest(rows + [r]) == Latest(rows)[r.id := r]
  {
    assert (rows + [r])[..|rows|] == rows;
  }

  lemma {:induction false} FirstIsThere(rows: seq<Row>, id: string)
    ensures FirstOf(rows, id) <= |rows| && (id in Latest(rows) <==> FirstOf(rows, id) < |rows|)
  {
    if rows != [] {
      FirstIsThere(rows[..|rows| - 1], id);
    }
  }

  lemma FirstMore(rows: seq<Row>, r: Row, id: string)
    ensures FirstOf(rows, id) < |rows| ==> FirstOf(rows + [r], id) == FirstOf(rows, id)
    ensures id == r.id && id !in Latest(rows) ==> FirstOf(rows + [r], id) == |rows|
  {
    assert (rows + [r])[..|rows|] == rows;
    FirstIsThere(rows, id);
  }

  lemma RanksBelow(was: map<string, Entry>, entries: map<string, Entry>, rows: seq<Row>, rank: nat)
    requires Placed(was, entries, rows, rank)
    ensures forall id :: id in entries ==> entries[id].rank < rank + |rows|
  {
    forall id | id in entries
      ensures entries[id].rank < rank + |rows|
    {
      assert InPlace(was, entries[id], id, rows, rank);
    }
  }

  lemma StaysInPlace(was: map<string, Entry>, e: Entry, id: string, rows: seq<Row>, rank: nat, r: Row)
    requires InPlace(was, e, id, rows, rank)
    ensures InPlace(was, e, id, rows + [r], rank)
  {
    FirstMore(rows, r, id);
  }

  lemma NextPlaced(
      was: map<string, Entry>, entries: map<string, Entry>, rows: seq<Row>, rank: nat, r: Row, after: map<string, Entry>, gen: nat)
    requires Placed(was, entries, rows, rank) && (r.id in Latest(rows) ==> r.id in entries)
    requires after == Upserted(entries, r, rank + |rows|, gen)
    ensures Placed(was, after, rows + [r], rank)
  {
    forall id | id in after
      ensures InPlace(was, after[id], id, rows + [r], rank)
    {
      if id in entries {
        assert InPlace(was, entries[id], id, rows, rank) && after[id].rank == entries[id].rank;
        StaysInPlace(was, after[id], id, rows, rank, r);
      } else {
        FirstMore(rows, r, id);
      }
    }
  }

  lemma NextTold(
      was: map<string, Entry>, entries: map<string, Entry>, rows: seq<Row>, place: nat, r: Row, after: map<string, Entry>, gen: nat)
    requires Told(was, entries, rows, gen) && after == Upserted(entries, r, place, gen)
    ensures Told(was, after, rows + [r], gen)
  {
    LatestMore(rows, r);
  }

  lemma NextRanked(
      was: map<string, Entry>, entries: map<string, Entry>, rows: seq<Row>, rank: nat, r: Row, after: map<string, Entry>, gen: nat)
    requires Placed(was, entries, rows, rank) && Ranked(entries) && after == Upserted(entries, r, rank + |rows|, gen)
    ensures Ranked(after)
  {
    RanksBelow(was, entries, rows, rank);
    UpsertStaysRanked(entries, r, rank + |rows|, gen);
  }

  ghost predicate WrittenSoFar(
      was: map<string, Entry>, entries: map<string, Entry>, rows: seq<Row>, n: nat, rank: nat, gen: nat)
    requires n <= |rows|
  {
    Changed(was, entries, rows[..n], rank, gen) && Ranked(entries)
  }

  lemma NextRow(was: map<string, Entry>, entries: map<string, Entry>, rows: seq<Row>, i: nat, rank: nat, gen: nat)
    requires i < |rows| && WrittenSoFar(was, entries, rows, i, rank, gen)
    ensures WrittenSoFar(was, Upserted(entries, rows[i], rank + i, gen), rows, i + 1, rank, gen)
  {
    var (before, after) := (rows[..i], Upserted(entries, rows[i], rank + i, gen));
    assert |before| == i && rows[..i + 1] == before + [rows[i]];
    NextPlaced(was, entries, before, rank, rows[i], after, gen);
    NextTold(was, entries, before, rank + i, rows[i], after, gen);
    NextRanked(was, entries, before, rank, rows[i], after, gen);
  }

  lemma NothingChanged(was: map<string, Entry>, rows: seq<Row>, rank: nat, gen: nat)
    requires forall id :: id in was ==> was[id].rank < rank
    ensures Changed(was, was, rows[..0], rank, gen)
  {
    assert rows[..0] == [];
    assert forall id :: id in was ==> InPlace(was, was[id], id, [], rank);
  }

  /** No two records share a place. */
  ghost predicate Ranked(entries: map<string, Entry>) {
    forall a, b :: a in entries && b in entries && a != b ==> entries[a].rank != entries[b].rank
  }

  /** A full sync leaves no two records in one place. */
  lemma CopiesAreRanked(entries: map<string, Entry>, listing: seq<Row>, gen: nat)
    requires Copies(entries, listing, gen)
    ensures Ranked(entries)
  {
    forall a, b | a in entries && b in entries && entries[a].rank == entries[b].rank
      ensures a == b
    {
      assert IsCopy(entries[a], a, listing, gen) && IsCopy(entries[b], b, listing, gen);
    }
  }

  // ---------------------------------------------------------------- paging

  /** The listing's records, each where it was named last, those marked deleted left out. */
  function Shown(listing: seq<Row>, n: nat): seq<Row>
    requires n <= |listing|
  {
    if n == 0 then []
    else
      Shown(listing, n - 1) + if LastAt(listing, n - 1) && !listing[n - 1].deleted then [listing[n - 1]] else []
  }

  /** `rows` are the visible entries by rank. */
  ghost predicate Ordered(entries: map<string, Entry>, rows: seq<Row>) {
    && (forall k :: 0 <= k < |rows| ==> rows[k].id in entries && entries[rows[k].id].row == rows[k] && !rows[k].deleted)
    && (forall j, k :: 0 <= j < k < |rows| ==> entries[rows[j].id].rank < entries[rows[k].id].rank)
    && (forall id :: id in entries && !entries[id].row.deleted ==> entries[id].row in rows)
  }

  /** Who is at a place of the listing, if anybody. */
  lemma NextPlace(entries: map<string, Entry>, listing: seq<Row>, gen: nat, k: nat)
    requires Copies(entries, listing, gen) && k < |listing|
    ensures var id := listing[k].id; id in entries && (LastAt(listing, k) <==> entries[id].rank == k)
    ensures LastAt(listing, k) ==> entries[listing[k].id].row == listing[k]
    ensures forall id :: id in entries && entries[id].rank == k ==> id == listing[k].id
  {
    assert IsCopy(entries[listing[k].id], listing[k].id, listing, gen);
    forall id | id in entries && entries[id].rank == k
      ensures id == listing[k].id
    {
      assert IsCopy(entries[id], id, listing, gen);
    }
  }

  /** A row a full sync shows, at a place before `n`. */
  ghost predicate IsShown(entries: map<string, Entry>, r: Row, n: nat) {
    r.id in entries && entries[r.id].row == r && !r.deleted && entries[r.id].rank < n
  }

  ghost predicate ByRank(entries: map<string, Entry>, rows: seq<Row>, n: nat) {
    && (forall k :: 0 <= k < |rows| ==> IsShown(entries, rows[k], n))
    && (forall j, k :: 0 <= j < k < |rows| ==> entries[rows[j].id].rank < entries[rows[k].id].rank)
  }

  /** After a full sync, the order the query asks for is the listing's own. */
  lemma {:induction false} OrderIsTheListings(entries: map<string, Entry>, listing: seq<Row>, gen: nat, n: nat)
    requires Copies(entries, listing, gen) && n <= |listing|
    ensures ByRank(entries, Shown(listing, n), n)
    decreases n
  {
    if n > 0 {
      OrderIsTheListings(entries, listing, gen, n - 1);
      NextPlace(entries, listing, gen, n - 1);
      var before := Shown(listing, n - 1);
      assert forall k :: 0 <= k < |before| ==> IsShown(entries, before[k], n - 1);
    }
  }

  /** And no visible record is missing. */
  lemma {:induction false} NoneIsMissing(entries: map<string, Entry>, listing: seq<Row>, gen: nat, n: nat)
    requires Copies(entries, listing, gen) && n <= |listing|
    ensures forall id :: id in entries && !entries[id].row.deleted && entries[id].rank < n ==>
              entries[id].row in Shown(listing, n)
    decreases n
  {
    if n > 0 {
      NoneIsMissing(entries, listing, gen, n - 1);
      NextPlace(entries, listing, gen, n - 1);
    }
  }

  lemma FullSyncShowsTheListing(entries: map<string, Entry>, listing: seq<Row>, gen: nat)
    requires Copies(entries, listing, gen)
    ensures Ordered(entries, Shown(listing, |listing|))
  {
    OrderIsTheListings(entries, listing, gen, |listing|);
    NoneIsMissing(entries, listing, gen, |listing|);
    var rows := Shown(listing, |listing|);
    assert forall k :: 0 <= k < |rows| ==> IsShown(entries, rows[k], |listing|);
    forall id | id in entries
      ensures entries[id].rank < |listing|
    {
      assert IsCopy(entries[id], id, listing, gen);
    }
  }

  /** `_query` and `list_page`: a page, and the offset of the next one if there is more. */
  function Page(rows: seq<Row>, offset: nat, limit: nat): (seq<Row>, Option<nat>) {
    var from := Min(offset, |rows|);
    var found := rows[from..Min(|rows|, from + limit + 1)];
    if |found| > limit then (found[..limit], Some(offset + limit)) else (found, None)
  }

  /** The pages a reader sees who follows the cursors from `offset` on. */
  function Pages(rows: seq<Row>, offset: nat, limit: nat): seq<Row>
    requires limit > 0
    decreases |rows| - offset
  {
    var (page, next) := Page(rows, offset, limit);
    page + if next.None? then [] else Pages(rows, next.value, limit)
  }

  /** A page is the next rows, as many as asked for or as there are, and has a cursor to what follows
      exactly when more follow. */
  lemma PageIsTheNextRows(rows: seq<Row>, offset: nat, limit: nat)
    requires offset <= |rows|
    ensures var (page, next) := Page(rows, offset, limit);
            && |page| == (if |rows| - offset <= limit then |rows| - offset else limit)
            && (forall k :: 0 <= k < |page| ==> page[k] == rows[offset + k])
            && next == if offset + limit < |rows| then Some(offset + limit) else None
  {
  }

  /** Following the cursors shows every record once, in order. */
  lemma {:induction false} PagingShowsAll(rows: seq<Row>, offset: nat, limit: nat)
    requires limit > 0 && offset <= |rows|
    ensures Pages(rows, offset, limit) == rows[offset..]
    decreases |rows| - offset
  {
    var (page, next) := Page(rows, offset, limit);
    if next.Some? {
      PagingShowsAll(rows, next.value, limit);
      assert page == rows[offset..offset + limit];
      assert rows[offset..] == rows[offset..offset + limit] + rows[offset + limit..];
    } else {
      assert page == rows[offset..];
    }
  }

  // ---------------------------------------------------------------- what a reader of a synced mirror sees

  /** What `ORDER BY rank` gives: every visible record once, none before one of a lower rank. */
  ghost predicate Queried(entries: map<string, Entry>, rows: seq<Row>) {
    && (forall k :: 0 <= k < |rows| ==> rows[k].id in entries && entries[rows[k].id].row == rows[k] && !rows[k].deleted)
    && (forall j, k :: 0 <= j < k < |rows| ==>
          rows[j].id != rows[k].id && entries[rows[j].id].rank <= entries[rows[k].id].rank)
    && (forall id :: id in entries && !entries[id].row.deleted ==> entries[id].row in rows)
  }

  lemma QueriedIsOrdered(entries: map<string, Entry>, rows: seq<Row>)
    requires Queried(entries, rows) && Ranked(entries)
    ensures Ordered(entries, rows)
  {
    forall j, k | 0 <= j < k < |rows|
      ensures entries[rows[j].id].rank < entries[rows[k].id].rank
    {
      var (a, b) := (rows[j].id, rows[k].id);
      assert a in entries && b in entries && a != b;
    }
  }

  lemma RankBelow(entries: map<string, Entry>, rows: seq<Row>, i: nat, p: nat)
    requires Ordered(entries, rows) && i <= p < |rows|
    ensures rows[i].id in entries && rows[p].id in entries
    ensures entries[rows[i].id].rank <= entries[rows[p].id].rank && (i < p ==> entries[rows[i].id].rank < entries[rows[p].id].rank)
  {
  }

  lemma EarlierIsLower(entries: map<string, Entry>, rows: seq<Row>, others: seq<Row>, i: nat, p: nat)
    requires Ordered(entries, rows) && p < i < |rows| && i <= |others| && rows[..i] == others[..i]
    ensures others[p] != rows[i]
  {
    RankBelow(entries, rows, p, i);
    assert rows[p] == rows[..i][p] == others[..i][p] == others[p];
  }

  /** Where row `i` of one ordering is in another that agrees with it before. */
  lemma PlaceIn(entries: map<string, Entry>, rows: seq<Row>, others: seq<Row>, i: nat) returns (p: nat)
    requires Ordered(entries, rows) && Ordered(entries, others) && i < |rows| && i <= |others| && rows[..i] == others[..i]
    ensures i <= p < |others| && others[p] == rows[i]
  {
    RankBelow(entries, rows, i, i);
    assert entries[rows[i].id].row in others;
    p :| 0 <= p < |others| && others[p] == rows[i];
    if p < i {
      EarlierIsLower(entries, rows, others, i, p);
      assert false;
    }
  }

  lemma SameRow(entries: map<string, Entry>, rows: seq<Row>, others: seq<Row>, i: nat)
    requires Ordered(entries, rows) && Ordered(entries, others) && i < |rows| && i <= |others| && rows[..i] == others[..i]
    ensures i < |others| && rows[i] == others[i]
  {
    var p := PlaceIn(entries, rows, others, i);
    var q := PlaceIn(entries, others, rows, i);
    RankBelow(entries, rows, i, q);
    RankBelow(entries, others, i, p);
  }

  lemma {:induction false} SameUpTo(entries: map<string, Entry>, rows: seq<Row>, others: seq<Row>, n: nat)
    requires Ordered(entries, rows) && Ordered(entries, others) && n <= |rows|
    ensures n <= |others| && rows[..n] == others[..n]
    decreases n
  {
    if n > 0 {
      SameUpTo(entries, rows, others, n - 1);
      SameRow(entries, rows, others, n - 1);
      SameHeads(rows, others, n);
    }
  }

  lemma SameHeads(rows: seq<Row>, others: seq<Row>, n: nat)
    requires 0 < n <= |rows| && n <= |others|
    requires rows[..n - 1] == others[..n - 1] && rows[n - 1] == others[n - 1]
    ensures rows[..n] == others[..n]
  {
    assert rows[..n] == rows[..n - 1] + [rows[n - 1]] && others[..n] == others[..n - 1] + [others[n - 1]];
  }

  lemma OneOrder(entries: map<string, Entry>, rows: seq<Row>, others: seq<Row>)
    requires Ordered(entries, rows) && Ordered(entries, others)
    ensures rows == others
  {
    SameUpTo(entries, rows, others, |rows|);
    SameUpTo(entries, others, rows, |others|);
    assert rows[..|rows|] == rows && others[..|others|] == others;
  }

  /** After a full sync, a reader who follows the cursors sees the listing's records, each once and
      in the listing's order, those marked deleted left out. */
  lemma ReadersSeeTheListing(entries: map<string, Entry>, listing: seq<Row>, gen: nat, rows: seq<Row>, limit: nat)
    requires Copies(entries, listing, gen) && Queried(entries, rows) && limit > 0
    ensures Pages(rows, 0, limit) == Shown(listing, |listing|)
    ensures var seen := Pages(rows, 0, limit); forall j, k :: 0 <= j < k < |seen| ==> seen[j].id != seen[k].id
  {
    CopiesAreRanked(entries, listing, gen);
    QueriedIsOrdered(entries, rows);
    FullSyncShowsTheListing(entries, listing, gen);
    OneOrder(entries, rows, Shown(listing, |listing|));
    PagingShowsAll(rows, 0, limit);
    assert rows[0..] == rows;
  }
}
