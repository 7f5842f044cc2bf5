/** What the pseudo-locale keeps of a message, and exactly when it can be undone (i18n/pseudo.ts). */
module PseudoLaws {
  import opened FixedPoint
  import opened PseudoSpec
  import opened PseudoReturns

  predicate Accented(c: char) {
    Unaccent(c) != c
  }

  predicate HasAccents(s: string) {
    exists k :: 0 <= k < |s| && Accented(s[k])
  }

  function Plain(s: string): string {
    seq(|s|, k requires 0 <= k < |s| => Unaccent(s[k]))
  }

  function DropDots(s: string): string {
    if s != [] && s[|s| - 1] == PAD then DropDots(s[..|s| - 1]) else s
  }

  function DropLast(s: string): string {
    if s == [] then s else s[..|s| - 1]
  }

  /** Takes off the brackets, the padding and the space before it. */
  function Strip(s: string): string {
    if |s| < 2 then s else DropLast(DropDots(s[1..|s| - 1]))
  }

  /** Undoing: an accent anywhere means the message had words, and only then was it wrapped. */
  function Restore(out: string): string {
    Plain(if HasAccents(out) then Strip(out) else out)
  }

  lemma SmallLetters(c: char)
    requires 'a' <= c <= 'z'
    ensures AccentSmall(c) != c && PlainSmall(AccentSmall(c)) == c
  {}

  lemma CapitalLetters(c: char)
    requires 'A' <= c <= 'Z'
    ensures AccentCapital(c) != c && PlainCapital(AccentCapital(c)) == c
  {}

  /** No accented capital is an accented small letter. */
  lemma CapitalsAreNotSmall(c: char)
    requires 'A' <= c <= 'Z'
    ensures PlainSmall(AccentCapital(c)) == AccentCapital(c)
  {}

  lemma LettersArePlain(c: char)
    requires IsLetter(c)
    ensures Unaccent(c) == c
  {}

  lemma UnaccentGivesLetters(c: char)
    requires Accented(c)
    ensures IsLetter(Unaccent(c))
  {}

  /** The table sends letters, and only letters, to characters of its own, no two to the same. */
  lemma TheTableIsInvertible(c: char)
    ensures !Accented(c) ==> Unaccent(Accent(c)) == c
    ensures IsLetter(c) <==> Accent(c) != c
    ensures IsLetter(c) ==> Accented(Accent(c))
    ensures !Accented(Unaccent(c))
  {
    hide AccentSmall, AccentCapital, PlainSmall, PlainCapital;
    if 'a' <= c <= 'z' {
      SmallLetters(c);
    } else if 'A' <= c <= 'Z' {
      CapitalLetters(c);
      CapitalsAreNotSmall(c);
    }
    if IsLetter(c) { LettersArePlain(c); }
    if Accented(c) {
      UnaccentGivesLetters(c);
      LettersArePlain(Unaccent(c));
    }
  }

  // ---- Messages read once ----------------------------------------------------------------------------

  /** While no tag is lost, every move reads the next character. */
  lemma {:induction false} ReadsStraight(m: string, k: nat)
    requires k <= |m| && TagsClose(m)
    ensures Run(m, k).pos == k && Lap(m, k, Run(m, k).state).None?
    ensures k < |m| ==> !Lost(m, Run(m, k))
    ensures |Written(m, 0, k)| == k
    decreases k
  {
    hide Next, IndexOf, Accent;
    if k > 0 { ReadsStraight(m, k - 1); }
  }

  /** Whether a character of a message read once is text. */
  predicate IsText(m: string, k: nat) {
    Run(m, k).state.mode.Text?
  }

  lemma {:induction false} StraightWriting(m: string, n: nat, k: nat)
    requires k < n <= |m| && TagsClose(m)
    ensures |Written(m, 0, n)| == n && Written(m, 0, n)[k] == if IsText(m, k) then Accent(m[k]) else m[k]
    decreases n
  {
    hide Next, IndexOf, Accent;
    ReadsStraight(m, n);
    ReadsStraight(m, n - 1);
    if k < n - 1 { StraightWriting(m, n - 1, k); }
  }

  lemma BodyReadOnce(m: string)
    requires TagsClose(m)
    ensures Returns(m) && EndsAt(m, |m|)
    ensures Body(m) == Written(m, 0, |m|) + Closers(Owed(Run(m, |m|).state))
  {
    hide Run;
    ReadsStraight(m, |m|);
    AnyEndWillDo(m, |m|);
  }

  /** Of a message whose tags are all closed, the body is the message with exactly the letters of text
      accented, in place, followed by the closers it still owed: names, types, selectors, tags, quotes and `#`
      are untouched. */
  lemma OnlyTextIsChanged(m: string)
    requires TagsClose(m)
    ensures Returns(m) && |Body(m)| == |m| + Owed(Run(m, |m|).state)
    ensures forall k :: 0 <= k < |m| ==> (Body(m)[k] != m[k] <==> IsText(m, k) && IsLetter(m[k]))
    ensures forall k :: |m| <= k < |Body(m)| ==> Body(m)[k] == '}'
  {
    hide Run, Accent, Unaccent, Owed, Written, IsText, IsLetter, TagsClose, Body;
    BodyReadOnce(m);
    ReadsStraight(m, |m|);
    forall k | 0 <= k < |m| ensures Body(m)[k] != m[k] <==> IsText(m, k) && IsLetter(m[k]) {
      StraightWriting(m, |m|, k);
      TheTableIsInvertible(m[k]);
    }
  }

  // ---- Undoing ---------------------------------------------------------------------------------------

  /** Something is accented exactly when a letter of text was read. */
  lemma {:induction false} AccentsAreLetters(m: string, n: nat)
    requires !HasAccents(m)
    ensures HasAccents(Written(m, 0, n)) <==> Counted(m, 0, n) > 0
    decreases n
  {
    if n > 0 {
      hide Accent, Unaccent, Run;
      AccentsAreLetters(m, n - 1);
      var c := Run(m, n - 1);
      MoveAccents(m, c);
      HasAccentsJoin(Written(m, 0, n - 1), Emitted(m, c));
    }
  }

  lemma MoveAccents(m: string, c: Conf)
    requires !HasAccents(m)
    ensures HasAccents(Emitted(m, c)) <==> LettersAt(m, c) > 0
  {
    hide Accent, Unaccent, IndexOf;
    if c.pos < |m| {
      TheTableIsInvertible(m[c.pos]);
      assert !Accented(m[c.pos]);
      if c.state.mode.Text? && IsLetter(m[c.pos]) { assert Accented(Emitted(m, c)[0]); }
    }
  }

  lemma HasAccentsJoin(a: string, b: string)
    ensures HasAccents(a + b) <==> HasAccents(a) || HasAccents(b)
  {
    hide Unaccent;
    forall k | 0 <= k < |b| ensures (a + b)[|a| + k] == b[k] {}
    forall k | 0 <= k < |a| ensures (a + b)[k] == a[k] {}
  }

  lemma {:induction false} DotsDrop(s: string, n: nat)
    ensures DropDots(s + " " + Dots(n)) == s + " "
  {
    var t := s + " " + Dots(n);
    if n == 0 {
      assert t == s + " ";
    } else {
      assert t[..|t| - 1] == s + " " + Dots(n - 1);
      DotsDrop(s, n - 1);
    }
  }

  lemma StripUndoesWrap(body: string, n: nat)
    ensures Strip("[" + body + " " + Dots(n) + "]") == body
  {
    var out := "[" + body + " " + Dots(n) + "]";
    assert out[1..|out| - 1] == body + " " + Dots(n);
    DotsDrop(body, n);
  }

  lemma PlainHasNoAccents(s: string, m: string)
    requires HasAccents(m)
    ensures Plain(s) != m
  {
    var k :| 0 <= k < |m| && Accented(m[k]);
    if k < |s| { TheTableIsInvertible(s[k]); }
  }

  lemma BraceIsPlain()
    ensures !Accented('}')
  {}

  lemma NoAccentsInClosers(n: nat)
    ensures !HasAccents(Closers(n)) && Plain(Closers(n)) == Closers(n)
  {
    BraceIsPlain();
  }

  /** Undoing finds the body, whatever was read how often. */
  lemma RestoreFindsTheBody(m: string)
    requires Returns(m) && !HasAccents(m)
    ensures Restore(Pseudo(m)) == Plain(Body(m))
  {
    hide Run, Written, Counted, Accent, Unaccent, Owed, HasAccents, Strip, Plain;
    var n := Halt(m);
    var closers := Closers(Owed(Run(m, n).state));
    AccentsAreLetters(m, n);
    NoAccentsInClosers(Owed(Run(m, n).state));
    HasAccentsJoin(Written(m, 0, n), closers);
    var letters := Counted(m, 0, n);
    if letters > 0 {
      var pad := " " + Dots(Padding(letters)) + "]";
      assert Pseudo(m) == "[" + (Body(m) + pad);
      HasAccentsJoin(Body(m), pad);
      HasAccentsJoin("[", Body(m) + pad);
      StripUndoesWrap(Body(m), Padding(letters));
    }
  }

  lemma PlainUndoesBody(m: string)
    requires TagsClose(m) && !HasAccents(m)
    ensures Returns(m) && Plain(Body(m)) == m + Closers(Owed(Run(m, |m|).state))
  {
    hide Run, Written, Accent, Unaccent, Owed, TagsClose;
    BodyReadOnce(m);
    ReadsStraight(m, |m|);
    NoAccentsInClosers(Owed(Run(m, |m|).state));
    forall k | 0 <= k < |m| ensures Unaccent(Written(m, 0, |m|)[k]) == m[k] {
      StraightWriting(m, |m|, k);
      TheTableIsInvertible(m[k]);
      assert !Accented(m[k]);
    }
    assert Plain(Body(m)) == Plain(Written(m, 0, |m|)) + Plain(Closers(Owed(Run(m, |m|).state)));
    assert Plain(Written(m, 0, |m|)) == m;
  }

  /** Before the first return to the start it has written what it has read; from then on that much more. */
  lemma {:induction false} WritingPilesUp(m: string, n: nat, first: nat)
    requires Lost(m, Run(m, first)) && |Written(m, 0, first)| >= Run(m, first).pos && n > first
    ensures |Written(m, 0, n)| >= Run(m, n).pos + Run(m, first).pos
    decreases n
  {
    hide Next, IndexOf, Accent;
    if n > first + 1 { WritingPilesUp(m, n - 1, first); }
  }

  lemma {:induction false} WrittenIsRead(m: string, n: nat)
    ensures |Written(m, 0, n)| >= Run(m, n).pos
    decreases n
  {
    hide Next, IndexOf, Accent;
    if n > 0 { WrittenIsRead(m, n - 1); }
  }

  /** The first tag lost on a straight reading. */
  lemma {:induction false} FirstLost(m: string, p: nat) returns (first: nat)
    requires p <= |m| && Run(m, p).pos == p && Lap(m, p, Run(m, p).state).Some?
    ensures p <= first && Run(m, first).pos == first && Lost(m, Run(m, first))
    ensures Run(m, first).state.branches == Lap(m, p, Run(m, p).state).value
    decreases |m| - p
  {
    hide Next, IndexOf;
    if Lost(m, Run(m, p)) {
      first := p;
    } else {
      assert Run(m, p + 1) == Conf(p + 1, Next(Run(m, p).state, m[p]));
      first := FirstLost(m, p + 1);
    }
  }

  /** A message read more than once comes out longer than it was. */
  lemma ReReadingShows(m: string)
    requires Returns(m) && !TagsClose(m)
    ensures |Body(m)| > |m|
  {
    hide Lap, Written, Accent, IndexOf;
    StartsAtZero(m);
    var first := FirstLost(m, 0);
    if first == 0 { OpenTagsNeverReturn(m); }
    BeforeTheEnd(m, first, Halt(m));
    WrittenIsRead(m, first);
    WritingPilesUp(m, Halt(m), first);
  }

  /** Exactly when nothing is lost: undoing gives the message back if and only if the message had no letter
      of the table's own, no tag was left open where a tag is read, and every branch was closed. */
  lemma PseudoIsInvertible(m: string)
    requires Returns(m)
    ensures Restore(Pseudo(m)) == m <==> !HasAccents(m) && TagsClose(m) && Owed(Run(m, |m|).state) == 0
  {
    hide Run, Accent, Unaccent, Owed, Body, Pseudo, TagsClose, HasAccents;
    if HasAccents(m) {
      var out := Pseudo(m);
      PlainHasNoAccents(if HasAccents(out) then Strip(out) else out, m);
    } else {
      RestoreFindsTheBody(m);
      if TagsClose(m) {
        PlainUndoesBody(m);
        assert |m + Closers(Owed(Run(m, |m|).state))| == |m| + Owed(Run(m, |m|).state);
      } else {
        ReReadingShows(m);
      }
    }
  }

  // ---- A condition on the message itself ---------------------------------------------------------

  /** Braces opened and not yet closed, or none once a `}` comes too early. */
  function Depth(m: string, k: nat): (d: int)
    requires k <= |m|
    ensures d >= -1
  {
    if k == 0 then 0
    else
      var d := Depth(m, k - 1);
      if d < 0 then -1
      else if m[k - 1] == '{' then d + 1
      else if m[k - 1] == '}' then d - 1
      else d
  }

  /** A `<` has its `>`, with no brace on the way. */
  predicate TagAt(m: string, k: nat)
    requires k < |m|
  {
    IndexOf(m, '>', k) != -1 && forall j :: k < j < IndexOf(m, '>', k) ==> m[j] !in "{}"
  }

  predicate TagsAreWhole(m: string) {
    forall k :: 0 <= k < |m| && m[k] == '<' ==> TagAt(m, k)
  }

  /** How many braces a state stands inside. */
  function Inside(s: State): nat {
    2 * s.branches + match s.mode
      case Text => 0
      case Tag => 0
      case Copy(depth) => if depth == 0 then 1 else depth
      case _ => 1
  }

  predicate OpenTag(m: string, p: nat, k: nat) {
    p < k <= |m| && m[p] == '<' && k <= IndexOf(m, '>', p)
  }

  /** A tag is entered at a `<` of text, and stayed in until its `>`. */
  lemma TagStep(s: State, c: char)
    requires Next(s, c).mode.Tag?
    ensures if s.mode.Tag? then c != '>' else c == '<'
  {
    hide Branching;
  }

  lemma {:induction false} InATag(m: string, k: nat) returns (p: nat)
    requires k <= |m| && TagsAreWhole(m) && TagsClose(m) && Run(m, k).state.mode.Tag?
    ensures OpenTag(m, p, k)
    decreases k
  {
    hide IndexOf, Next, TagsClose, TagAt, Lost;
    assert k > 0;
    ReadsStraight(m, k - 1);
    assert Run(m, k).state == Next(Run(m, k - 1).state, m[k - 1]);
    TagStep(Run(m, k - 1).state, m[k - 1]);
    if Run(m, k - 1).state.mode.Tag? {
      p := InATag(m, k - 1);
    } else {
      p := k - 1;
      assert TagAt(m, p);
      FoundLater(m, p);
    }
  }

  lemma FoundLater(m: string, p: nat)
    requires p < |m| && m[p] == '<' && TagAt(m, p)
    ensures IndexOf(m, '>', p) > p
  {}

  /** A character takes the machine no deeper than it takes the message. */
  lemma InsideStep(s: State, c: char)
    requires s.mode.Tag? ==> c !in "{}"
    ensures Inside(Next(s, c)) <= Inside(s) + (if c == '{' then 1 else 0)
    ensures c == '}' ==> Inside(Next(s, c)) == if s == START then 0 else Inside(s) - 1
  {
    hide Branching;
  }

  lemma {:induction false} InsideIsBounded(m: string, k: nat)
    requires k <= |m| && TagsAreWhole(m) && TagsClose(m) && Depth(m, k) >= 0
    ensures Inside(Run(m, k).state) <= Depth(m, k)
    decreases k
  {
    if k > 0 {
      hide Next, IndexOf, TagsAreWhole, TagsClose, Inside;
      ReadsStraight(m, k - 1);
      InsideIsBounded(m, k - 1);
      if Run(m, k - 1).state.mode.Tag? { NoBraceInTag(m, k - 1); }
      InsideStep(Run(m, k - 1).state, m[k - 1]);
      NothingInside();
    }
  }

  lemma NothingInside()
    ensures Inside(START) == 0
  {}

  /** Inside a whole tag there is no brace. */
  lemma NoBraceInTag(m: string, k: nat)
    requires k < |m| && TagsAreWhole(m) && TagsClose(m) && Run(m, k).state.mode.Tag?
    ensures m[k] !in "{}"
  {
    hide IndexOf, TagsClose, Run;
    var p := InATag(m, k);
    assert TagAt(m, p);
  }

  /** Balanced braces and whole tags are enough: the transformation returns, owes nothing, and can be
      undone. */
  lemma BalancedMessagesRoundTrip(m: string)
    requires Depth(m, |m|) == 0 && TagsAreWhole(m) && !HasAccents(m)
    ensures Returns(m) && Restore(Pseudo(m)) == m
  {
    hide Run, Accent, Unaccent, Pseudo, Restore, HasAccents;
    assert forall k :: 0 <= k < |m| && m[k] == '<' ==> TagAt(m, k);
    ClosedTagsAreNotLost(m, 0, START);
    OpenTagsNeverReturn(m);
    InsideIsBounded(m, |m|);
    PseudoIsInvertible(m);
  }
}
