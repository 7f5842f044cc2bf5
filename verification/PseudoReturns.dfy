/** Exactly when the pseudo-locale returns. At a `<` with no `>` after it the source goes back to the
    start, inside however many branches it then is, and reads the message again (i18n/pseudo.ts). */
module PseudoReturns {
  import opened FixedPoint
  import opened PseudoSpec

  /** Reading on from p: None when the end is reached, or the branches it is inside at a lost tag. */
  function Lap(m: string, p: nat, s: State): Option<nat>
    requires p <= |m|
    decreases |m| - p
  {
    if p == |m| then None
    else if Lost(m, Conf(p, s)) then Some(s.branches)
    else Lap(m, p + 1, Next(s, m[p]))
  }

  /** The branches the n-th return to the start finds itself in, or None when the end came first. */
  function Laps(m: string, n: nat): Option<nat> {
    if n == 0 then Some(0)
    else
      var before := Laps(m, n - 1);
      if before.None? then None else Lap(m, 0, State(before.value, Text))
  }

  /** The first reading gets to the end: no tag is left open. */
  predicate TagsClose(m: string) {
    Lap(m, 0, START).None?
  }

  // ---- Laps and moves ----------------------------------------------------------------------------

  /** The moves of one lap. */
  lemma {:induction false} LapMoves(m: string, n: nat, p: nat, s: State) returns (moves: nat)
    requires p <= |m| && Run(m, n) == Conf(p, s)
    ensures Lap(m, p, s).None? ==> EndsAt(m, n + moves)
    ensures Lap(m, p, s).Some? ==>
      moves > 0 && Run(m, n + moves) == Conf(0, State(Lap(m, p, s).value, Text))
      && forall j :: n <= j < n + moves ==> !EndsAt(m, j)
    decreases |m| - p
  {
    hide IndexOf, Branching, Next;
    if p == |m| {
      moves := 0;
    } else if Lost(m, Conf(p, s)) {
      moves := 1;
    } else {
      assert Run(m, n + 1) == Conf(p + 1, Next(s, m[p]));
      moves := LapMoves(m, n + 1, p + 1, Next(s, m[p]));
      moves := moves + 1;
    }
  }

  /** Where a run that ends does so is the end of some lap. */
  lemma {:induction false} EndIsALap(m: string, n: nat, lap: nat, end: nat)
    requires EndsAt(m, end) && n <= end
    requires Laps(m, lap).Some? && Run(m, n) == Conf(0, State(Laps(m, lap).value, Text))
    ensures exists k: nat :: Laps(m, k).None?
    decreases end - n
  {
    hide Run, Lap;
    var moves := LapMoves(m, n, 0, State(Laps(m, lap).value, Text));
    if Laps(m, lap + 1).Some? {
      assert n + moves <= end;
      EndIsALap(m, n + moves, lap + 1, end);
    }
  }

  lemma {:induction false} LapsAreRun(m: string, lap: nat) returns (n: nat)
    ensures Laps(m, lap).Some? ==> Run(m, n) == Conf(0, State(Laps(m, lap).value, Text))
    ensures Laps(m, lap).None? ==> EndsAt(m, n)
  {
    hide Lap;
    if lap == 0 {
      n := 0;
    } else {
      n := LapsAreRun(m, lap - 1);
      if Laps(m, lap - 1).Some? {
        var moves := LapMoves(m, n, 0, State(Laps(m, lap - 1).value, Text));
        n := n + moves;
      }
    }
  }

  lemma ReturnsByLaps(m: string)
    ensures Returns(m) <==> exists k: nat :: Laps(m, k).None?
  {
    hide Run, Lap;
    if Returns(m) {
      StartsAtZero(m);
      EndIsALap(m, 0, 0, Halt(m));
    }
    if k: nat :| Laps(m, k).None? {
      var n := LapsAreRun(m, k);
    }
  }

  lemma StartsAtZero(m: string)
    ensures Run(m, 0) == Conf(0, State(Laps(m, 0).value, Text))
  {}

  // ---- How a lap depends on the branches it starts in ----------------------------------------------

  function Raised(k: Option<nat>, more: nat): Option<nat> {
    if k.None? then None else Some(k.value + more)
  }

  /** Inside at least as many branches as there are characters left, one more makes no difference. */
  lemma {:induction false} DeepLapsShift(m: string, p: nat, s: State, more: nat)
    requires p <= |m| && s.branches >= |m| - p
    ensures Lap(m, p, s.(branches := s.branches + more)) == Raised(Lap(m, p, s), more)
    ensures Lap(m, p, s).Some? ==> s.branches - (|m| - p) <= Lap(m, p, s).value <= s.branches + (|m| - p)
    decreases |m| - p
  {
    hide IndexOf, Branching;
    if p < |m| && !Lost(m, Conf(p, s)) { DeepLapsShift(m, p + 1, Next(s, m[p]), more); }
  }

  lemma {:induction false} LapsRiseLittle(m: string, p: nat, s: State)
    requires p <= |m|
    ensures Lap(m, p, s).Some? ==> Lap(m, p, s).value <= s.branches + (|m| - p)
    decreases |m| - p
  {
    hide IndexOf, Branching;
    if p < |m| && !Lost(m, Conf(p, s)) { LapsRiseLittle(m, p + 1, Next(s, m[p])); }
  }

  /** A lap that starts inside at least |m| branches is the one from |m|, raised. */
  lemma DeepLap(m: string, k: nat)
    requires k >= |m|
    ensures Lap(m, 0, State(k, Text)) == Raised(Lap(m, 0, State(|m|, Text)), k - |m|)
  {
    DeepLapsShift(m, 0, State(|m|, Text), k - |m|);
  }

  // ---- The bound ---------------------------------------------------------------------------------

  lemma {:induction false} LapsStop(m: string, n: nat, later: nat)
    requires n <= later && Laps(m, n).None?
    ensures Laps(m, later).None?
  {
    if n < later { LapsStop(m, n, later - 1); }
  }

  /** Once deep and not sinking, it never ends. */
  lemma {:induction false} DeepForGood(m: string, n: nat, later: nat)
    requires n <= later && Laps(m, n).Some? && Laps(m, n).value >= |m|
    requires Lap(m, 0, State(|m|, Text)).Some? && Lap(m, 0, State(|m|, Text)).value >= |m|
    ensures Laps(m, later).Some? && Laps(m, later).value >= |m|
    decreases later
  {
    hide Lap;
    if n < later {
      DeepForGood(m, n, later - 1);
      DeepLap(m, Laps(m, later - 1).value);
    }
  }

  /** Once in the same place twice, it goes round. */
  lemma {:induction false} GoesRound(m: string, i: nat, j: nat, n: nat)
    requires i < j && Laps(m, i) == Laps(m, j) && Laps(m, j).Some?
    ensures Laps(m, n).Some?
    decreases n
  {
    if n <= j {
      if Laps(m, n).None? { LapsStop(m, n, j); }
    } else {
      GoesRound(m, i, j, n - (j - i));
      SameAgain(m, i, j, n - j);
    }
  }

  lemma {:induction false} SameAgain(m: string, i: nat, j: nat, n: nat)
    requires Laps(m, i) == Laps(m, j)
    ensures Laps(m, i + n) == Laps(m, j + n)
  {
    hide Lap;
    if n > 0 { SameAgain(m, i, j, n - 1); }
  }

  /** Among more numbers than there are values, two are equal. */
  lemma {:induction false} Pigeonhole(f: seq<nat>, bound: nat) returns (i: nat, j: nat)
    requires |f| > bound && forall k :: 0 <= k < |f| ==> f[k] < bound
    ensures i < j < |f| && f[i] == f[j]
    decreases bound
  {
    var last := |f| - 1;
    if k :| 0 <= k < last && f[k] == f[last] {
      i, j := k, last;
    } else {
      // move the largest value into the place of the last one's, and leave the last one out
      var top := bound - 1;
      var g := seq(last, k requires 0 <= k < last => if f[k] == top then f[last] else f[k]);
      i, j := Pigeonhole(g, top);
    }
  }

  lemma {:induction false} StaysLow(m: string, n: nat, bound: nat)
    requires n <= bound && Laps(m, bound).Some? && |m| > 0
    requires Lap(m, 0, State(|m|, Text)).Some? ==> Lap(m, 0, State(|m|, Text)).value < |m|
    ensures Laps(m, n).Some? && Laps(m, n).value < 2 * |m|
    decreases n
  {
    hide Lap;
    if Laps(m, n).None? { LapsStop(m, n, bound); }
    if n > 0 {
      StaysLow(m, n - 1, bound);
      var k := Laps(m, n - 1).value;
      if k >= |m| { DeepLap(m, k); } else { LapsRiseLittle(m, 0, State(k, Text)); }
    }
  }

  lemma {:induction false} LowUntilDeep(m: string, n: nat, bound: nat)
    requires n <= bound && Laps(m, bound).Some? && |m| > 0
    requires forall k :: 0 <= k <= bound && Laps(m, k).Some? ==> Laps(m, k).value < |m|
    ensures Laps(m, n).Some? && Laps(m, n).value < 2 * |m|
  {
    if Laps(m, n).None? { LapsStop(m, n, bound); }
  }

  /** A message that has not ended by its (2|m| + 1)-th reading never does. */
  lemma NeverLater(m: string, n: nat)
    requires Laps(m, 2 * |m| + 1).Some?
    ensures Laps(m, n).Some?
  {
    hide Lap;
    var bound := 2 * |m| + 1;
    if |m| == 0 {
      assert Laps(m, 1) == Lap(m, 0, State(0, Text));
      EmptyEnds(m);
    } else {
      var deep := Lap(m, 0, State(|m|, Text));
      if deep.Some? && deep.value >= |m| && exists k :: 0 <= k <= bound && Laps(m, k).Some? && Laps(m, k).value >= |m| {
        var k :| 0 <= k <= bound && Laps(m, k).Some? && Laps(m, k).value >= |m|;
        if n <= k {
          if Laps(m, n).None? { LapsStop(m, n, k); }
        } else {
          DeepForGood(m, k, n);
        }
      } else {
        forall k: nat | k <= bound ensures Laps(m, k).Some? && Laps(m, k).value < 2 * |m| {
          if deep.Some? && deep.value >= |m| { LowUntilDeep(m, k, bound); } else { StaysLow(m, k, bound); }
        }
        var f := seq(bound + 1, k requires 0 <= k <= bound => if Laps(m, k).Some? then Laps(m, k).value else 0);
        var i, j := Pigeonhole(f, 2 * |m|);
        GoesRound(m, i, j, n);
      }
    }
  }

  lemma EmptyEnds(m: string)
    requires |m| == 0
    ensures Lap(m, 0, State(0, Text)).None?
  {}

  /** Exactly when it returns: one of its first 2|m| + 1 readings from the start gets to the end. */
  lemma ReturnsExactlyWhen(m: string)
    ensures Returns(m) <==> Laps(m, 2 * |m| + 1).None?
  {
    hide Laps;
    ReturnsByLaps(m);
    if Laps(m, 2 * |m| + 1).Some? {
      forall n: nat ensures Laps(m, n).Some? { NeverLater(m, n); }
    }
  }

  // ---- What to look for in a message ---------------------------------------------------------------

  /** A `}` is read as text, outside every branch, before the lap ends. */
  predicate Strays(m: string, p: nat, s: State)
    requires p <= |m|
    decreases |m| - p
  {
    p < |m| && !Lost(m, Conf(p, s)) && ((s == START && m[p] == '}') || Strays(m, p + 1, Next(s, m[p])))
  }

  /** Without one, nothing read depends on the branches outside. */
  lemma {:induction false} TidyLapsShift(m: string, p: nat, s: State, more: nat)
    requires p <= |m| && !Strays(m, p, s)
    ensures Lap(m, p, s.(branches := s.branches + more)) == Raised(Lap(m, p, s), more)
    decreases |m| - p
  {
    hide IndexOf, Branching;
    if p < |m| && !Lost(m, Conf(p, s)) { TidyLapsShift(m, p + 1, Next(s, m[p]), more); }
  }

  lemma {:induction false} TidyLapsPileUp(m: string, n: nat)
    requires !TagsClose(m) && (Lap(m, 0, START).value == 0 || !Strays(m, 0, START))
    ensures Laps(m, n).Some?
    ensures Lap(m, 0, START).value == 0 ==> Laps(m, n) == Some(0)
  {
    hide Lap, Strays;
    if n > 0 {
      TidyLapsPileUp(m, n - 1);
      if Lap(m, 0, START).value != 0 { TidyLapsShift(m, 0, START, Laps(m, n - 1).value); }
    }
  }

  /** With every tag closed it returns. With one left open it never does when that tag is in no branch, nor
      when no `}` was read before it outside every branch: for messages without such a stray `}`, closed
      tags are exactly the condition. */
  lemma OpenTagsNeverReturn(m: string)
    ensures TagsClose(m) ==> Returns(m)
    ensures !TagsClose(m) && Lap(m, 0, START) == Some(0) ==> !Returns(m)
    ensures !Strays(m, 0, START) ==> (Returns(m) <==> TagsClose(m))
  {
    hide Lap, Strays;
    ReturnsByLaps(m);
    if TagsClose(m) {
      assert Laps(m, 0) == Some(0) && Laps(m, 1).None?;
    } else if Lap(m, 0, START) == Some(0) || !Strays(m, 0, START) {
      forall n: nat ensures Laps(m, n).Some? { TidyLapsPileUp(m, n); }
    }
  }

  lemma {:induction false} ClosedTagsAreNotLost(m: string, p: nat, s: State)
    requires p <= |m| && forall k :: p <= k < |m| && m[k] == '<' ==> IndexOf(m, '>', k) != -1
    ensures Lap(m, p, s).None?
    decreases |m| - p
  {
    if p < |m| { ClosedTagsAreNotLost(m, p + 1, Next(s, m[p])); }
  }

  // ---- Inputs on either side -----------------------------------------------------------------------

  lemma KindsRead()
    ensures Branching("select") && !Branching("")
  {
    assert TrimRight(TrimLeft("select")) == "select";
  }

  /** The tag in it is never closed, and yet it returns: the second reading takes the first `}` for the end of
      the branch it is in, and never comes to the tag as text. */
  lemma AnOpenTagMayReturn()
    ensures !TagsClose("}{a,select,{<") && Returns("}{a,select,{<")
  {
    var m := "}{a,select,{<";
    KindsRead();
    FirstReading();
    SecondReading();
    assert Laps(m, 0) == Some(0) && Laps(m, 1) == Some(1) && Laps(m, 2).None?;
    ReturnsByLaps(m);
  }

  /** A type read through to its comma. */
  lemma {:induction false} KindLap(m: string, p: nat, end: nat, read: string)
    requires p <= end < |m| && m[end] == ',' && forall j :: p <= j < end ==> m[j] !in ",}"
    requires Branching(read + m[p..end])
    ensures Lap(m, p, State(0, Kind(read))) == Lap(m, end + 1, State(0, Selectors))
    decreases end - p
  {
    hide Branching, IndexOf;
    if p == end {
      assert read + m[p..end] == read;
    } else {
      assert read + m[p..end] == (read + [m[p]]) + m[p + 1..end];
      KindLap(m, p + 1, end, read + [m[p]]);
    }
  }

  lemma FirstReading()
    ensures Lap("}{a,select,{<", 0, START) == Some(1)
  {
    var m := "}{a,select,{<";
    KindsRead();
    assert "" + m[4..10] == "select";
    KindLap(m, 4, 10, "");
    hide Branching;
    assert IndexOf(m, '>', 12) == -1;
    assert Lap(m, 11, State(0, Selectors)) == Some(1);
    assert Lap(m, 2, State(0, Head)) == Some(1);
  }

  lemma SecondReading()
    ensures Lap("}{a,select,{<", 0, State(1, Text)).None?
  {
    var m := "}{a,select,{<";
    assert Lap(m, 12, State(1, Head)).None?;
    assert Lap(m, 9, State(1, Text)).None?;
    assert Lap(m, 6, State(1, Text)).None?;
    assert Lap(m, 3, State(1, Text)).None?;
  }

  /** And one that does not. */
  lemma AnOpenTagMayHang()
    ensures !Returns("a<b")
  {
    var m := "a<b";
    assert IndexOf(m, '>', 1) == -1;
    assert Lap(m, 1, START) == Some(0);
    OpenTagsNeverReturn(m);
  }
}
