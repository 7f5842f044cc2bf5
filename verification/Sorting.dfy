/** sort.SliceStable as stable insertion, by the coordinates of a log. */
module Sorting {

  datatype Coord = Coord(block: nat, logIndex: nat, record: nat)

  predicate Before(a: Coord, b: Coord) {
    || a.block < b.block
    || (a.block == b.block && a.logIndex < b.logIndex)
    || (a.block == b.block && a.logIndex == b.logIndex && a.record < b.record)
  }

  /** Put x, which came earlier, in front of the first element not before it. */
  function Insert<T>(key: T -> Coord, x: T, s: seq<T>): seq<T> {
    if s == [] || !Before(key(s[0]), key(x)) then [x] + s
    else [s[0]] + Insert(key, x, s[1..])
  }

  function Sort<T>(key: T -> Coord, s: seq<T>): seq<T> {
    if s == [] then [] else Insert(key, s[0], Sort(key, s[1..]))
  }

  ghost predicate NoneBefore<T>(key: T -> Coord, x: T, s: seq<T>) {
    forall y :: y in s ==> !Before(key(y), key(x))
  }

  ghost predicate Sorted<T>(key: T -> Coord, s: seq<T>) {
    s != [] ==> NoneBefore(key, s[0], s[1..]) && Sorted(key, s[1..])
  }

  ghost predicate DistinctKeys<T>(key: T -> Coord, s: seq<T>) {
    forall i, j :: 0 <= i < |s| && 0 <= j < |s| && i != j ==> key(s[i]) != key(s[j])
  }

  function Filter<T>(p: T -> bool, s: seq<T>): seq<T> {
    if s == [] then [] else (if p(s[0]) then [s[0]] else []) + Filter(p, s[1..])
  }

  lemma {:induction false} InsertMembers<T>(key: T -> Coord, x: T, s: seq<T>)
    ensures forall y :: y in Insert(key, x, s) <==> y == x || y in s
  {
    if s != [] {
      assert s == [s[0]] + s[1..];
      InsertMembers(key, x, s[1..]);
    }
  }

  lemma {:induction false} InsertSorts<T>(key: T -> Coord, x: T, s: seq<T>)
    requires Sorted(key, s)
    ensures Sorted(key, Insert(key, x, s))
  {
    if s == [] {
    } else if Before(key(s[0]), key(x)) {
      InsertSorts(key, x, s[1..]);
      InsertMembers(key, x, s[1..]);
      assert Insert(key, x, s)[1..] == Insert(key, x, s[1..]);
    } else {
      assert Insert(key, x, s)[1..] == s;
    }
  }

  lemma {:induction false} InsertAdds<T>(key: T -> Coord, x: T, s: seq<T>)
    ensures multiset(Insert(key, x, s)) == multiset(s) + multiset{x}
  {
    if s != [] {
      assert s == [s[0]] + s[1..];
      InsertAdds(key, x, s[1..]);
    }
  }

  lemma {:induction false} SortSorts<T>(key: T -> Coord, s: seq<T>)
    ensures Sorted(key, Sort(key, s))
    ensures multiset(Sort(key, s)) == multiset(s)
  {
    if s != [] {
      SortSorts(key, s[1..]);
      InsertSorts(key, s[0], Sort(key, s[1..]));
      InsertAdds(key, s[0], Sort(key, s[1..]));
      assert s == [s[0]] + s[1..];
    }
  }

  lemma {:induction false} SortMembers<T>(key: T -> Coord, s: seq<T>)
    ensures forall x :: x in Sort(key, s) <==> x in s
  {
    SortSorts(key, s);
    forall x ensures x in Sort(key, s) <==> x in s {
      assert x in Sort(key, s) <==> x in multiset(Sort(key, s));
      assert x in s <==> x in multiset(s);
    }
  }

  lemma {:induction false} FilterMember<T>(p: T -> bool, s: seq<T>, x: T)
    ensures x in Filter(p, s) <==> x in s && p(x)
  {
    if s != [] {
      FilterMember(p, s[1..], x);
      assert s == [s[0]] + s[1..];
    }
  }

  lemma {:induction false} InsertInFront<T>(key: T -> Coord, x: T, s: seq<T>)
    requires NoneBefore(key, x, s)
    ensures Insert(key, x, s) == [x] + s
  {}

  lemma FilterCons<T>(p: T -> bool, x: T, s: seq<T>)
    ensures Filter(p, [x] + s) == if p(x) then [x] + Filter(p, s) else Filter(p, s)
  {}

  lemma InsertCons<T>(key: T -> Coord, x: T, y: T, s: seq<T>)
    requires Before(key(y), key(x))
    ensures Insert(key, x, [y] + s) == [y] + Insert(key, x, s)
  {}

  /** Filtering before or after a stable sort is the same. */
  lemma {:induction false} FilterInsert<T>(key: T -> Coord, p: T -> bool, x: T, s: seq<T>)
    requires Sorted(key, s)
    ensures Filter(p, Insert(key, x, s)) == if p(x) then Insert(key, x, Filter(p, s)) else Filter(p, s)
  {
    if s != [] && Before(key(s[0]), key(x)) {
      var y, rest := s[0], s[1..];
      FilterInsert(key, p, x, rest);
      assert s == [y] + rest;
      FilterCons(p, y, rest);
      FilterCons(p, y, Insert(key, x, rest));
      InsertCons(key, x, y, rest);
      InsertCons(key, x, y, Filter(p, rest));
    } else {
      FilterCons(p, x, s);
      if s != [] { NoneBeforeHead(key, x, s); }
      forall y | y in Filter(p, s) ensures !Before(key(y), key(x)) {
        FilterMember(p, s, y);
      }
      InsertInFront(key, x, Filter(p, s));
    }
  }

  lemma NoneBeforeHead<T>(key: T -> Coord, x: T, s: seq<T>)
    requires Sorted(key, s) && s != [] && !Before(key(s[0]), key(x))
    ensures NoneBefore(key, x, s)
  {}

  lemma {:induction false} FilterSort<T>(key: T -> Coord, p: T -> bool, s: seq<T>)
    ensures Filter(p, Sort(key, s)) == Sort(key, Filter(p, s))
  {
    if s != [] {
      FilterSort(key, p, s[1..]);
      SortSorts(key, s[1..]);
      FilterInsert(key, p, s[0], Sort(key, s[1..]));
      assert s == [s[0]] + s[1..];
      FilterCons(p, s[0], s[1..]);
      SortCons(key, s[0], Filter(p, s[1..]));
    }
  }

  lemma SortCons<T>(key: T -> Coord, x: T, s: seq<T>)
    ensures Sort(key, [x] + s) == Insert(key, x, Sort(key, s))
  {}

  // ---- The sorted order does not depend on the order given -----------------------------------

  ghost predicate KeyIdentifies<T(!new)>(key: T -> Coord, m: multiset<T>) {
    forall x, y :: x in m && y in m && key(x) == key(y) ==> x == y
  }

  lemma KeysIdentify<T(!new)>(key: T -> Coord, s: seq<T>)
    requires DistinctKeys(key, s)
    ensures KeyIdentifies(key, multiset(s))
  {}

  lemma {:induction false} SortedIsUnique<T(!new)>(key: T -> Coord, a: seq<T>, b: seq<T>)
    requires Sorted(key, a) && Sorted(key, b)
    requires multiset(a) == multiset(b) && KeyIdentifies(key, multiset(a))
    ensures a == b
    decreases |a|
  {
    assert |a| == |multiset(a)| && |b| == |multiset(b)|;
    if a != [] {
      assert a == [a[0]] + a[1..] && b == [b[0]] + b[1..];
      SameHead(key, a, b);
      assert multiset(a[1..]) == multiset(a) - multiset{a[0]};
      assert multiset(b[1..]) == multiset(b) - multiset{b[0]};
      SortedIsUnique(key, a[1..], b[1..]);
    }
  }

  lemma SameHead<T(!new)>(key: T -> Coord, a: seq<T>, b: seq<T>)
    requires a != [] && b != []
    requires Sorted(key, a) && Sorted(key, b)
    requires multiset(a) == multiset(b) && KeyIdentifies(key, multiset(a))
    ensures a[0] == b[0]
  {
    assert a[0] in multiset(b) && b[0] in multiset(a);
    NoneBeforeHead(key, a[0], a);
    NoneBeforeHead(key, b[0], b);
    assert !Before(key(a[0]), key(b[0])) && !Before(key(b[0]), key(a[0]));
  }

  /** With distinct keys, every permutation sorts to the same sequence. */
  lemma SortIsCanonical<T(!new)>(key: T -> Coord, a: seq<T>, b: seq<T>)
    requires multiset(a) == multiset(b) && DistinctKeys(key, a)
    ensures Sort(key, a) == Sort(key, b)
  {
    SortSorts(key, a);
    SortSorts(key, b);
    KeysIdentify(key, a);
    SortedIsUnique(key, Sort(key, a), Sort(key, b));
  }
}
