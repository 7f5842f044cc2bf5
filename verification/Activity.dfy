/** One address's history over both tables, a page at a time (store/activity.go,
    ledger/activity.go). */
module Activity {
  import opened FixedPoint
  import opened Decimal
  import opened Ledger
  import opened Sorting

  datatype Source = SourceLedger | SourceRound

  datatype Activity = Activity(
    prov: Provenance, source: Source, book: Option<Book>, amount: int, counterparty: Address,
    market: Address, roundID: nat, side: Side, data: map<Field, string>)

  function CursorOf(a: Activity): Coord {
    Coord(a.prov.blockNumber, a.prov.logIndex, a.prov.recordIndex)
  }

  function FromEntry(e: Entry): Activity {
    Activity(e.prov, SourceLedger, Some(e.body.book), e.body.delta, e.body.counterparty, "", 0, NoSide, map[])
  }

  function FromRound(e: RoundEvent): Activity {
    Activity(e.prov, SourceRound, None, e.body.amount.GetOr(0), "", e.body.market, e.body.roundID, e.body.side,
             e.body.data)
  }

  /** The two halves of the UNION ALL, for tables listed in any order. */
  function FlowsOf(account: Address, entries: seq<Entry>): seq<Activity> {
    if entries == [] then []
    else
      (if entries[0].body.account == account && entries[0].body.kind.Flow? then [FromEntry(entries[0])] else [])
      + FlowsOf(account, entries[1..])
  }

  function RoundsOf(account: Address, rounds: seq<RoundEvent>): seq<Activity> {
    if rounds == [] then []
    else
      (if rounds[0].body.account == account then [FromRound(rounds[0])] else []) + RoundsOf(account, rounds[1..])
  }

  function Merged(account: Address, entries: seq<Entry>, rounds: seq<RoundEvent>): seq<Activity> {
    FlowsOf(account, entries) + RoundsOf(account, rounds)
  }

  /** Strictly older than a cursor; everything is, when there is none. */
  function Older(after: Option<Coord>): Activity -> bool {
    (a: Activity) => after.None? || Before(CursorOf(a), after.value)
  }

  function Reverse<T>(s: seq<T>): seq<T> {
    seq(|s|, i requires 0 <= i < |s| => s[|s| - 1 - i])
  }

  /** ORDER BY block, log index, record index, all descending. */
  function Descending(rows: seq<Activity>): seq<Activity> {
    Reverse(Sort(CursorOf, rows))
  }

  function Limit<T>(s: seq<T>, n: nat): seq<T> {
    if |s| > n then s[..n] else s
  }

  /** The rows the query returns: one more than asked for, when there is one. */
  function Query(merged: seq<Activity>, after: Option<Coord>, limit: nat): seq<Activity> {
    Limit(Descending(Filter(Older(after), merged)), limit + 1)
  }

  datatype Page = Page(events: seq<Activity>, next: Option<Coord>)

  /** What a page is, given everything still to be read, newest first. */
  function PageOf(remaining: seq<Activity>, limit: nat): Page
    requires limit > 0
  {
    if |remaining| > limit then Page(remaining[..limit], Some(CursorOf(remaining[limit - 1])))
    else Page(remaining, None)
  }

  method ActivityFor(entries: seq<Entry>, rounds: seq<RoundEvent>, account: Address, after: Option<Coord>, limit: nat)
    returns (page: Page)
    requires limit > 0
    ensures page == PageOf(Descending(Filter(Older(after), Merged(account, entries, rounds))), limit)
  {
    var rows := Query(Merged(account, entries, rounds), after, limit);
    var out: seq<Activity> := [];
    for i := 0 to |rows|
      invariant out == rows[..i]
    {
      out := out + [rows[i]];
    }
    if |out| > limit {
      out := out[..limit];
      var cursor := CursorOf(out[|out| - 1]);
      return Page(out, Some(cursor));
    }
    return Page(out, None);
  }

  // ---- Reading to the end ----------------------------------------------------------------------

  /** Following cursors until none is returned. The table may have changed between pages: page i
      reads the i-th snapshot. */
  function Walk(snapshots: seq<seq<Activity>>, after: Option<Coord>, limit: nat): (seq<Activity>, bool)
    requires limit > 0
    decreases |snapshots|
  {
    if snapshots == [] then ([], false)
    else
      var page := PageOf(Descending(Filter(Older(after), snapshots[0])), limit);
      if page.next.None? then (page.events, true)
      else
        var (rest, done) := Walk(snapshots[1..], page.next, limit);
        (page.events + rest, done)
  }

  /** Between two pages nothing older than the cursor handed back changes; newer rows may arrive. */
  ghost predicate OnlyNewerRowsArrive(snapshots: seq<seq<Activity>>, after: Option<Coord>, limit: nat)
    requires limit > 0
    decreases |snapshots|
  {
    |snapshots| > 1 ==>
      var next := PageOf(Descending(Filter(Older(after), snapshots[0])), limit).next;
      next.Some? ==>
        && multiset(Filter(Older(next), snapshots[1])) == multiset(Filter(Older(next), snapshots[0]))
        && OnlyNewerRowsArrive(snapshots[1..], next, limit)
  }

  ghost predicate StrictlyDescending(s: seq<Activity>) {
    forall i, j :: 0 <= i < j < |s| ==> Before(CursorOf(s[j]), CursorOf(s[i]))
  }

  lemma {:induction false} SortedDistinctIsStrict(s: seq<Activity>)
    requires Sorted(CursorOf, s) && DistinctKeys(CursorOf, s)
    ensures forall i, j :: 0 <= i < j < |s| ==> Before(CursorOf(s[i]), CursorOf(s[j]))
    decreases |s|
  {
    if s != [] {
      var rest := s[1..];
      assert forall i :: 0 <= i < |rest| ==> rest[i] == s[i + 1];
      SortedDistinctIsStrict(rest);
      forall i, j | 0 <= i < j < |s| ensures Before(CursorOf(s[i]), CursorOf(s[j])) {
        if i == 0 {
          assert rest[j - 1] in rest && CursorOf(s[0]) != CursorOf(s[j]);
        } else {
          assert Before(CursorOf(rest[i - 1]), CursorOf(rest[j - 1]));
        }
      }
    }
  }

  /** Sorting keeps coordinates distinct. */
  lemma SortKeepsDistinct(rows: seq<Activity>)
    requires DistinctKeys(CursorOf, rows)
    ensures DistinctKeys(CursorOf, Sort(CursorOf, rows))
  {
    var s := Sort(CursorOf, rows);
    SortSorts(CursorOf, rows);
    KeysIdentify(CursorOf, rows);
    OnceEach(rows);
    forall i, j | 0 <= i < |s| && 0 <= j < |s| && i != j ensures CursorOf(s[i]) != CursorOf(s[j]) {
      if CursorOf(s[i]) == CursorOf(s[j]) {
        assert s[i] in multiset(s) && s[j] in multiset(s);
        TwiceInSequence(s, i, j);
      }
    }
  }

  lemma {:induction false} OnceEach(rows: seq<Activity>)
    requires DistinctKeys(CursorOf, rows)
    ensures forall x :: multiset(rows)[x] <= 1
    decreases |rows|
  {
    if rows != [] {
      var rest := rows[1..];
      assert rows == [rows[0]] + rest;
      assert forall i :: 0 <= i < |rest| ==> rest[i] == rows[i + 1];
      OnceEach(rest);
      forall x | x in rest ensures x != rows[0] {
        var i :| 0 <= i < |rest| && rest[i] == x;
        assert CursorOf(rows[i + 1]) != CursorOf(rows[0]);
      }
    }
  }

  lemma TwiceInSequence(s: seq<Activity>, i: nat, j: nat)
    requires i < |s| && j < |s| && i != j && s[i] == s[j]
    ensures multiset(s)[s[i]] >= 2
  {
    var lo, hi := if i < j then i else j, if i < j then j else i;
    assert s == s[..lo] + [s[lo]] + s[lo + 1..hi] + [s[hi]] + s[hi + 1..];
  }

  lemma DescendingIsStrict(rows: seq<Activity>)
    requires DistinctKeys(CursorOf, rows)
    ensures StrictlyDescending(Descending(rows))
    ensures multiset(Descending(rows)) == multiset(rows)
  {
    SortSorts(CursorOf, rows);
    SortKeepsDistinct(rows);
    SortedDistinctIsStrict(Sort(CursorOf, rows));
    ReverseKeepsRows(Sort(CursorOf, rows));
  }

  lemma {:induction false} ReverseKeepsRows<T>(s: seq<T>)
    ensures multiset(Reverse(s)) == multiset(s)
    decreases |s|
  {
    if s != [] {
      assert s == [s[0]] + s[1..];
      assert Reverse(s) == Reverse(s[1..]) + [s[0]];
      ReverseKeepsRows(s[1..]);
    }
  }

  lemma {:induction false} FilterDistinct(p: Activity -> bool, s: seq<Activity>)
    requires DistinctKeys(CursorOf, s)
    ensures DistinctKeys(CursorOf, Filter(p, s))
    ensures forall x :: x in Filter(p, s) ==> x in s
    decreases |s|
  {
    if s != [] {
      var rest := s[1..];
      assert s == [s[0]] + rest;
      assert forall i :: 0 <= i < |rest| ==> rest[i] == s[i + 1];
      FilterDistinct(p, rest);
      FilterCons(p, s[0], rest);
      forall x | x in Filter(p, rest) ensures CursorOf(x) != CursorOf(s[0]) {
        var i :| 0 <= i < |rest| && rest[i] == x;
        assert CursorOf(s[i + 1]) != CursorOf(s[0]);
      }
    }
  }

  lemma ReverseCons<T>(x: T, s: seq<T>)
    ensures Reverse([x] + s) == Reverse(s) + [x]
  {}

  /** Filtering a reversed list is reversing the filtered one. */
  lemma {:induction false} FilterReverse<T>(p: T -> bool, s: seq<T>)
    ensures Filter(p, Reverse(s)) == Reverse(Filter(p, s))
    decreases |s|
  {
    if s != [] {
      hide Filter, Reverse;
      var rest := s[1..];
      assert s == [s[0]] + rest;
      ReverseCons(s[0], rest);
      FilterReverse(p, rest);
      FilterSnoc(p, Reverse(rest), s[0]);
      FilterCons(p, s[0], rest);
      if p(s[0]) { ReverseCons(s[0], Filter(p, rest)); }
    } else {
      assert Reverse(s) == s;
    }
  }

  lemma {:induction false} FilterSnoc<T>(p: T -> bool, s: seq<T>, x: T)
    ensures Filter(p, s + [x]) == Filter(p, s) + (if p(x) then [x] else [])
    decreases |s|
  {
    if s == [] {
      assert [] + [x] == [x];
      assert [x][1..] == [];
    } else {
      assert (s + [x])[1..] == s[1..] + [x];
      FilterSnoc(p, s[1..], x);
      assert s == [s[0]] + s[1..];
      FilterCons(p, s[0], s[1..]);
    }
  }

  /** In a strictly descending list, what is older than its k-th row is what follows it. */
  lemma OlderIsTheRest(s: seq<Activity>, k: nat)
    requires StrictlyDescending(s) && k < |s|
    ensures Filter(Older(Some(CursorOf(s[k]))), s) == s[k + 1..]
  {
    hide Filter;
    var p := Older(Some(CursorOf(s[k])));
    var a, b := s[..k + 1], s[k + 1..];
    forall i | 0 <= i < |a| ensures !p(a[i]) {
      NotOlder(s, i, k);
    }
    forall i | 0 <= i < |b| ensures p(b[i]) {
      assert Before(CursorOf(s[k + 1 + i]), CursorOf(s[k]));
    }
    assert s == a + b;
    FilterNoneThenAll(p, a, b);
  }

  lemma NotOlder(s: seq<Activity>, i: nat, k: nat)
    requires StrictlyDescending(s) && i <= k < |s|
    ensures !Before(CursorOf(s[i]), CursorOf(s[k]))
  {}

  lemma {:induction false} FilterNoneThenAll<T>(p: T -> bool, a: seq<T>, b: seq<T>)
    requires forall i :: 0 <= i < |a| ==> !p(a[i])
    requires forall i :: 0 <= i < |b| ==> p(b[i])
    ensures Filter(p, a + b) == b
    decreases |a| + |b|
  {
    if a != [] {
      assert (a + b)[1..] == a[1..] + b;
      FilterNoneThenAll(p, a[1..], b);
    } else if b != [] {
      assert a + b == b;
      assert [] + b[1..] == b[1..];
      FilterNoneThenAll(p, [], b[1..]);
    }
  }

  /** Going on from a page's cursor reads exactly what that page left. */
  lemma NextPageStartsWhereThisEnded(merged: seq<Activity>, after: Option<Coord>, limit: nat)
    requires limit > 0 && DistinctKeys(CursorOf, merged)
    requires
      var d := Descending(Filter(Older(after), merged));
      |d| > limit
    ensures
      var d := Descending(Filter(Older(after), merged));
      Descending(Filter(Older(Some(CursorOf(d[limit - 1]))), merged)) == d[limit..]
  {
    var d := Descending(Filter(Older(after), merged));
    var next := Older(Some(CursorOf(d[limit - 1])));
    FilterDistinct(Older(after), merged);
    DescendingIsStrict(Filter(Older(after), merged));
    OlderIsTheRest(d, limit - 1);
    // older than the cursor already implies older than `after`
    var kept := Filter(Older(after), merged);
    FilterSort(CursorOf, next, kept);
    FilterReverse(next, Sort(CursorOf, kept));
    assert d[limit - 1] in multiset(kept);
    FilterMember(Older(after), merged, d[limit - 1]);
    FilterImplied(next, Older(after), merged);
  }

  lemma {:induction false} FilterImplied(p: Activity -> bool, q: Activity -> bool, s: seq<Activity>)
    requires forall a :: p(a) ==> q(a)
    ensures Filter(p, Filter(q, s)) == Filter(p, s)
    decreases |s|
  {
    if s != [] {
      assert s == [s[0]] + s[1..];
      FilterImplied(p, q, s[1..]);
      FilterCons(p, s[0], s[1..]);
      FilterCons(q, s[0], s[1..]);
      FilterCons(p, s[0], Filter(q, s[1..]));
    }
  }

  /** Paging is exact: for every limit, following cursors to the end lists every row of the first
      snapshot that was still to be read, once each and newest first, whatever newer rows arrive
      meanwhile; and enough pages reach the end. */
  lemma {:induction false} PagingIsExact(snapshots: seq<seq<Activity>>, after: Option<Coord>, limit: nat)
    requires limit > 0 && snapshots != []
    requires forall i :: 0 <= i < |snapshots| ==> DistinctKeys(CursorOf, snapshots[i])
    requires OnlyNewerRowsArrive(snapshots, after, limit)
    requires |Filter(Older(after), snapshots[0])| <= |snapshots| * limit
    ensures Walk(snapshots, after, limit) == (Descending(Filter(Older(after), snapshots[0])), true)
    decreases |snapshots|
  {
    hide Filter, Descending, DistinctKeys;
    var d := Descending(Filter(Older(after), snapshots[0]));
    SizeOfDescending(Filter(Older(after), snapshots[0]));
    if |d| > limit {
      var next := Some(CursorOf(d[limit - 1]));
      OnePageLess(|d|, |snapshots|, limit);
      NextPageStartsWhereThisEnded(snapshots[0], after, limit);
      var there := Filter(Older(next), snapshots[1]);
      FilterDistinct(Older(next), snapshots[0]);
      SameRowsSameOrder(Filter(Older(next), snapshots[0]), there);
      SizeOfDescending(there);
      assert Descending(there) == d[limit..];
      assert forall i :: 0 <= i < |snapshots| - 1 ==> snapshots[1..][i] == snapshots[i + 1];
      PagingIsExact(snapshots[1..], next, limit);
      assert d == d[..limit] + d[limit..];
    }
  }

  lemma SameRowsSameOrder(a: seq<Activity>, b: seq<Activity>)
    requires multiset(a) == multiset(b) && DistinctKeys(CursorOf, a)
    ensures Descending(a) == Descending(b)
  {
    SortIsCanonical(CursorOf, a, b);
  }

  lemma SizeOfDescending(rows: seq<Activity>)
    ensures |Descending(rows)| == |rows|
  {
    SortSorts(CursorOf, rows);
    assert |rows| == |multiset(rows)| && |Sort(CursorOf, rows)| == |multiset(Sort(CursorOf, rows))|;
  }

  lemma OnePageLess(rows: nat, pages: nat, limit: nat)
    requires limit < rows <= pages * limit
    ensures pages > 1 && rows - limit <= (pages - 1) * limit
  {}
}
