/** The pseudo-locale on messages as a translator writes them: text, tags, values, formats, and plurals and
    selects nested in one another. What is rendered is the same message with its text accented, and nothing
    else of it touched (i18n/pseudo.ts). */
module PseudoMessages {
  import opened FixedPoint
  import opened PseudoSpec
  import opened PseudoReturns
  import opened PseudoLaws

  datatype Message =
    | End
    | Letter(c: char, rest: Message)                                                  // one character of text
    | Tagged(name: string, rest: Message)                                             // <name>
    | Value(name: string, rest: Message)                                              // {name}
    | Formatted(name: string, kind: string, style: string, rest: Message)             // {name,kind,style}
    | Choice(name: string, kind: string, branches: Branches, rest: Message)           // {name,kind,branches}

  datatype Branches =
    | NoMore(space: string)
    | Branch(selector: string, body: Message, more: Branches)                         // selector{body}

  function Render(m: Message): string {
    match m
    case End => ""
    case Letter(c, rest) => [c] + Render(rest)
    case Tagged(name, rest) => "<" + name + ">" + Render(rest)
    case Value(name, rest) => "{" + name + "}" + Render(rest)
    case Formatted(name, kind, style, rest) => "{" + name + "," + kind + "," + style + "}" + Render(rest)
    case Choice(name, kind, branches, rest) => "{" + name + "," + kind + "," + RenderAll(branches) + "}" + Render(rest)
  }

  function RenderAll(b: Branches): string {
    match b
    case NoMore(space) => space
    case Branch(selector, body, more) => selector + "{" + Render(body) + "}" + RenderAll(more)
  }

  predicate Without(s: string, chars: string) {
    forall i :: 0 <= i < |s| ==> s[i] !in chars
  }

  /** Nothing in a piece reads as the end of it. */
  predicate WellFormed(m: Message) {
    match m
    case End => true
    case Letter(c, rest) => c !in "{}<" && WellFormed(rest)
    case Tagged(name, rest) => Without(name, "<>") && WellFormed(rest)
    case Value(name, rest) => Without(name, "<,}") && WellFormed(rest)
    case Formatted(name, kind, style, rest) =>
      && Without(name, "<,}") && Without(kind, "<,}") && Without(style, "<{}")
      && !Branching(kind) && WellFormed(rest)
    case Choice(name, kind, branches, rest) =>
      && Without(name, "<,}") && Without(kind, "<,}") && Branching(kind)
      && AllWellFormed(branches) && WellFormed(rest)
  }

  predicate AllWellFormed(b: Branches) {
    match b
    case NoMore(space) => Without(space, "<{}")
    case Branch(selector, body, more) => Without(selector, "<{}") && WellFormed(body) && AllWellFormed(more)
  }

  /** The same message in the pseudo-locale. */
  function Accented(m: Message): Message {
    match m
    case End => End
    case Letter(c, rest) => Letter(Accent(c), Accented(rest))
    case Tagged(name, rest) => Tagged(name, Accented(rest))
    case Value(name, rest) => Value(name, Accented(rest))
    case Formatted(name, kind, style, rest) => Formatted(name, kind, style, Accented(rest))
    case Choice(name, kind, branches, rest) => Choice(name, kind, AllAccented(branches), Accented(rest))
  }

  function AllAccented(b: Branches): Branches {
    match b
    case NoMore(space) => b
    case Branch(selector, body, more) => Branch(selector, Accented(body), AllAccented(more))
  }

  /** Letters of text, in every branch. */
  function Letters(m: Message): nat {
    match m
    case End => 0
    case Letter(c, rest) => (if 'A' <= c <= 'Z' || 'a' <= c <= 'z' then 1 else 0) + Letters(rest)
    case Tagged(_, rest) => Letters(rest)
    case Value(_, rest) => Letters(rest)
    case Formatted(_, _, _, rest) => Letters(rest)
    case Choice(_, _, branches, rest) => AllLetters(branches) + Letters(rest)
  }

  function AllLetters(b: Branches): nat {
    match b
    case NoMore(_) => 0
    case Branch(_, body, more) => Letters(body) + AllLetters(more)
  }

  // ---- Reading a piece ---------------------------------------------------------------------------------

  function After(s: State, t: string): State
    decreases |t|
  {
    if t == "" then s else After(Next(s, t[0]), t[1..])
  }

  function Shown(s: State, t: string): string
    decreases |t|
  {
    if t == "" then "" else [if s.mode.Text? then Accent(t[0]) else t[0]] + Shown(Next(s, t[0]), t[1..])
  }

  function Told(s: State, t: string): nat
    decreases |t|
  {
    if t == "" then 0 else (if s.mode.Text? && IsLetter(t[0]) then 1 else 0) + Told(Next(s, t[0]), t[1..])
  }

  /** A piece read from one state to another, shown as `out`, with `n` letters of text. */
  predicate Reads(s: State, t: string, s': State, out: string, n: nat) {
    After(s, t) == s' && Shown(s, t) == out && Told(s, t) == n
  }

  lemma {:induction false} ReadsJoin(s: State, t: string, s': State, out: string, n: nat, t': string, s'': State,
                                     out': string, n': nat)
    requires Reads(s, t, s', out, n) && Reads(s', t', s'', out', n')
    ensures Reads(s, t + t', s'', out + out', n + n')
    decreases |t|
  {
    hide Next, Accent;
    if t == "" {
      assert t + t' == t' && out + out' == out';
    } else {
      assert (t + t')[1..] == t[1..] + t' && (t + t')[0] == t[0];
      var one := if s.mode.Text? then Accent(t[0]) else t[0];
      var rest := Shown(Next(s, t[0]), t[1..]);
      ReadsJoin(Next(s, t[0]), t[1..], s', rest, Told(Next(s, t[0]), t[1..]), t', s'', out', n');
      assert out + out' == [one] + (rest + out');
    }
  }

  lemma ReadsOne(s: State, c: char)
    ensures Reads(s, [c], Next(s, c), [if s.mode.Text? then Accent(c) else c],
                  if s.mode.Text? && IsLetter(c) then 1 else 0)
  {
    hide Next, Accent;
    assert [c] != "" && [c][0] == c && [c][1..] == "";
    assert After(Next(s, c), "") == Next(s, c) && Shown(Next(s, c), "") == "" && Told(Next(s, c), "") == 0;
    assert Shown(s, [c]) == [if s.mode.Text? then Accent(c) else c] + "";
  }

  lemma ReadsNothing(s: State)
    ensures Reads(s, "", s, "", 0)
  {}

  /** A name, a selector, a style: copied while the machine stays where it is. */
  lemma {:induction false} ReadsOver(s: State, t: string)
    requires !s.mode.Text? && forall i :: 0 <= i < |t| ==> Next(s, t[i]) == s
    ensures Reads(s, t, s, t, 0)
    decreases |t|
  {
    hide Next;
    if t != "" {
      assert Next(s, t[0]) == s;
      assert forall i :: 0 <= i < |t| - 1 ==> t[1..][i] == t[i + 1];
      ReadsOver(s, t[1..]);
      assert t == [t[0]] + t[1..];
    }
  }

  lemma {:induction false} ReadsKind(b: nat, read: string, t: string)
    requires Without(t, ",}")
    ensures Reads(State(b, Kind(read)), t, State(b, Kind(read + t)), t, 0)
    decreases |t|
  {
    hide Branching;
    if t == "" {
      assert read + t == read;
    } else {
      assert read + [t[0]] + t[1..] == read + t && t == [t[0]] + t[1..];
      assert Next(State(b, Kind(read)), t[0]) == State(b, Kind(read + [t[0]]));
      ReadsKind(b, read + [t[0]], t[1..]);
    }
  }

  /** `{name,` up to the kind. */
  lemma ReadsHead(b: nat, name: string)
    requires Without(name, ",}")
    ensures Reads(State(b, Text), "{" + name, State(b, Head), "{" + name, 0)
  {
    hide Accent, Branching;
    ReadsOne(State(b, Text), '{');
    BracesStay();
    ReadsOver(State(b, Head), name);
    ReadsJoin(State(b, Text), "{", State(b, Head), "{", 0, name, State(b, Head), name, 0);
  }

  lemma BracesStay()
    ensures Accent('{') == '{' && Accent('}') == '}' && Accent('<') == '<' && Accent('>') == '>'
  {
    OthersStay('{');
    OthersStay('}');
    OthersStay('<');
    OthersStay('>');
  }

  lemma ReadsToTheKind(b: nat, name: string, kind: string)
    requires Without(name, ",}") && Without(kind, ",}")
    ensures
      var t := "{" + name + "," + kind;
      Reads(State(b, Text), t, State(b, Kind(kind)), t, 0)
  {
    hide Accent, Branching;
    ReadsHead(b, name);
    ReadsOne(State(b, Head), ',');
    assert Next(State(b, Head), ',') == State(b, Kind(""));
    ReadsJoin(State(b, Text), "{" + name, State(b, Head), "{" + name, 0, ",", State(b, Kind("")), ",", 0);
    ReadsKind(b, "", kind);
    assert "" + kind == kind;
    ReadsJoin(State(b, Text),
              "{" + name + ",", State(b, Kind("")), "{" + name + ",", 0, kind, State(b, Kind(kind)), kind, 0);
  }

  lemma ReadsTagged(b: nat, name: string)
    requires Without(name, ">")
    ensures
      var t := "<" + name + ">";
      Reads(State(b, Text), t, State(b, Text), t, 0)
  {
    hide Accent, Branching;
    BracesStay();
    ReadsOne(State(b, Text), '<');
    ReadsOver(State(b, Tag), name);
    ReadsOne(State(b, Tag), '>');
    ReadsJoin(State(b, Text), "<", State(b, Tag), "<", 0, name, State(b, Tag), name, 0);
    ReadsJoin(State(b, Text), "<" + name, State(b, Tag), "<" + name, 0, ">", State(b, Text), ">", 0);
  }

  lemma ReadsValue(b: nat, name: string)
    requires Without(name, ",}")
    ensures
      var t := "{" + name + "}";
      Reads(State(b, Text), t, State(b, Text), t, 0)
  {
    hide Accent, Branching;
    ReadsHead(b, name);
    ReadsOne(State(b, Head), '}');
    ReadsJoin(State(b, Text), "{" + name, State(b, Head), "{" + name, 0, "}", State(b, Text), "}", 0);
  }

  lemma ReadsFormatted(b: nat, name: string, kind: string, style: string)
    requires Without(name, ",}") && Without(kind, ",}") && Without(style, "{}") && !Branching(kind)
    ensures
      var t := "{" + name + "," + kind + "," + style + "}";
      Reads(State(b, Text), t, State(b, Text), t, 0)
  {
    hide Accent, Branching;
    var head := "{" + name + "," + kind;
    ReadsToTheKind(b, name, kind);
    ReadsOne(State(b, Kind(kind)), ',');
    ReadsOver(State(b, Copy(1)), style);
    ReadsOne(State(b, Copy(1)), '}');
    ReadsJoin(State(b, Text), head, State(b, Kind(kind)), head, 0, ",", State(b, Copy(1)), ",", 0);
    ReadsJoin(State(b, Text), head + ",", State(b, Copy(1)), head + ",", 0, style, State(b, Copy(1)), style, 0);
    ReadsJoin(State(b, Text), head + "," + style, State(b, Copy(1)), head + "," + style, 0, "}", State(b,
                                                                                                       Text), "}", 0);
  }

  /** Read inside any number of branches, a message ends where it began, shown with its text accented. */
  lemma {:induction false} ReadsMessage(b: nat, m: Message)
    requires WellFormed(m)
    ensures Reads(State(b, Text), Render(m), State(b, Text), Render(Accented(m)), Letters(m))
    decreases m
  {
    hide Reads, Next, Accent, Branching, Without;
    var s := State(b, Text);
    match m
    case End => ReadsNothing(s);
    case Letter(c, rest) =>
      LetterIsRead(b, c);
      ReadsMessage(b, rest);
      ReadsJoin(s, [c], s, [Accent(c)], if IsLetter(c) then 1
                else 0, Render(rest), s, Render(Accented(rest)), Letters(rest));
    case Tagged(name, rest) =>
      NarrowedName(name);
      ReadsTagged(b, name);
      ReadsMessage(b, rest);
      var t := "<" + name + ">";
      ReadsJoin(s, t, s, t, 0, Render(rest), s, Render(Accented(rest)), Letters(rest));
    case Value(name, rest) =>
      NarrowedName(name);
      ReadsValue(b, name);
      ReadsMessage(b, rest);
      var t := "{" + name + "}";
      ReadsJoin(s, t, s, t, 0, Render(rest), s, Render(Accented(rest)), Letters(rest));
    case Formatted(name, kind, style, rest) =>
      NarrowedName(name);
      NarrowedName(kind);
      NarrowedName(style);
      ReadsFormatted(b, name, kind, style);
      ReadsMessage(b, rest);
      var t := "{" + name + "," + kind + "," + style + "}";
      ReadsJoin(s, t, s, t, 0, Render(rest), s, Render(Accented(rest)), Letters(rest));
    case Choice(name, kind, branches, rest) =>
      NarrowedName(name);
      NarrowedName(kind);
      ReadsChoice(b, name, kind, branches);
      ReadsMessage(b, rest);
      var t, out := "{" + name + "," + kind + "," + RenderAll(branches) + "}",
                    "{" + name + "," + kind + "," + RenderAll(AllAccented(branches)) + "}";
      ReadsJoin(s, t, s, out, AllLetters(branches), Render(rest), s, Render(Accented(rest)), Letters(rest));
  }

  lemma NarrowedName(s: string)
    ensures Without(s, "<>") ==> Without(s, ">")
    ensures Without(s, "<,}") ==> Without(s, ",}")
    ensures Without(s, "<{}") ==> Without(s, "{}")
  {}

  lemma LetterIsRead(b: nat, c: char)
    requires c !in "{}<"
    ensures Reads(State(b, Text), [c], State(b, Text), [Accent(c)], if IsLetter(c) then 1 else 0)
  {
    hide Accent, Branching;
    ReadsOne(State(b, Text), c);
    assert c != '{' && c != '}' && c != '<';
  }

  lemma {:induction false} ReadsChoice(b: nat, name: string, kind: string, branches: Branches)
    requires Without(name, ",}") && Without(kind, ",}") && Branching(kind) && AllWellFormed(branches)
    ensures
      var t, out := "{" + name + "," + kind + "," + RenderAll(branches) + "}",
                    "{" + name + "," + kind + "," + RenderAll(AllAccented(branches)) + "}";
      Reads(State(b, Text), t, State(b, Text), out, AllLetters(branches))
    decreases branches, 1
  {
    hide Reads, Accent, Branching, Without;
    var head, s, between := "{" + name + "," + kind, State(b, Text), State(b, Selectors);
    ReadsToTheKind(b, name, kind);
    ReadsOne(State(b, Kind(kind)), ',');
    ReadsJoin(s, head, State(b, Kind(kind)), head, 0, ",", between, ",", 0);
    ReadsBranches(b, branches);
    ReadsJoin(s, head + ",", between, head + ",", 0, RenderAll(branches), between, RenderAll(AllAccented(branches)),
              AllLetters(branches));
    ReadsOne(between, '}');
    ReadsJoin(s, head + "," + RenderAll(branches), between, head + "," + RenderAll(AllAccented(branches)),
              AllLetters(branches), "}", s, "}", 0);
  }

  lemma {:induction false} ReadsBranches(b: nat, branches: Branches)
    requires AllWellFormed(branches)
    ensures Reads(State(b, Selectors), RenderAll(branches), State(b, Selectors), RenderAll(AllAccented(branches)),
                  AllLetters(branches))
    decreases branches, 0
  {
    hide Reads, Accent, Branching;
    var between := State(b, Selectors);
    match branches
    case NoMore(space) => ReadsOver(between, space);
    case Branch(selector, body, more) =>
      var inside, out := State(b + 1, Text), Render(Accented(body));
      ReadsOver(between, selector);
      ReadsOne(between, '{');
      ReadsJoin(between, selector, between, selector, 0, "{", inside, "{", 0);
      ReadsMessage(b + 1, body);
      ReadsJoin(between, selector + "{", inside, selector + "{", 0, Render(body), inside, out, Letters(body));
      BracesStay();
      ReadsOne(inside, '}');
      ReadsJoin(between, selector + "{" + Render(body), inside, selector + "{" + out, Letters(body), "}", between, "}",
                0);
      ReadsBranches(b, more);
      ReadsJoin(between, selector + "{" + Render(body) + "}", between, selector + "{" + out + "}", Letters(body),
                RenderAll(more), between, RenderAll(AllAccented(more)), AllLetters(more));
  }

  // ---- The whole message -------------------------------------------------------------------------------

  predicate Closed(t: string) {
    forall k :: 0 <= k < |t| && t[k] == '<' ==> IndexOf(t, '>', k) != -1
  }

  lemma ClosedLater(t: string, k: nat, j: nat)
    requires k <= j < |t| && t[j] == '>'
    ensures IndexOf(t, '>', k) != -1
  {}

  lemma ClosedJoins(a: string, b: string)
    requires Closed(a) && Closed(b)
    ensures Closed(a + b)
  {
    var t := a + b;
    forall k | 0 <= k < |t| && t[k] == '<' ensures IndexOf(t, '>', k) != -1 {
      if k < |a| {
        assert a[k] == '<';
        ClosedLater(t, k, IndexOf(a, '>', k));
      } else {
        assert b[k - |a|] == '<';
        ClosedLater(t, k, |a| + IndexOf(b, '>', k - |a|));
      }
    }
  }

  lemma NoTagIsClosed(t: string)
    requires '<' !in t
    ensures Closed(t)
  {}

  lemma ATagIsClosed(name: string)
    requires Without(name, "<>")
    ensures Closed("<" + name + ">")
  {
    var t := "<" + name + ">";
    ClosedLater(t, 0, |t| - 1);
  }

  lemma {:induction false} MessagesAreClosed(m: Message)
    requires WellFormed(m)
    ensures Closed(Render(m))
  {
    hide Closed, Branching;
    match m
    case End => NoTagIsClosed("");
    case Letter(c, rest) =>
      NoTagIsClosed([c]);
      MessagesAreClosed(rest);
      ClosedJoins([c], Render(rest));
    case Tagged(name, rest) =>
      ATagIsClosed(name);
      MessagesAreClosed(rest);
      ClosedJoins("<" + name + ">", Render(rest));
    case Value(name, rest) =>
      NoTagIsClosed("{" + name + "}");
      MessagesAreClosed(rest);
      ClosedJoins("{" + name + "}", Render(rest));
    case Formatted(name, kind, style, rest) =>
      NoTagIsClosed("{" + name + "," + kind + "," + style + "}");
      MessagesAreClosed(rest);
      ClosedJoins("{" + name + "," + kind + "," + style + "}", Render(rest));
    case Choice(name, kind, branches, rest) =>
      NoTagIsClosed("{" + name + "," + kind + ",");
      BranchesAreClosed(branches);
      NoTagIsClosed("}");
      MessagesAreClosed(rest);
      ClosedJoins("{" + name + "," + kind + ",", RenderAll(branches));
      ClosedJoins("{" + name + "," + kind + "," + RenderAll(branches), "}");
      ClosedJoins("{" + name + "," + kind + "," + RenderAll(branches) + "}", Render(rest));
  }

  lemma {:induction false} BranchesAreClosed(b: Branches)
    requires AllWellFormed(b)
    ensures Closed(RenderAll(b))
  {
    hide Closed;
    match b
    case NoMore(space) => NoTagIsClosed(space);
    case Branch(selector, body, more) =>
      NoTagIsClosed(selector + "{");
      MessagesAreClosed(body);
      NoTagIsClosed("}");
      BranchesAreClosed(more);
      ClosedJoins(selector + "{", Render(body));
      ClosedJoins(selector + "{" + Render(body), "}");
      ClosedJoins(selector + "{" + Render(body) + "}", RenderAll(more));
  }

  /** On a message read once the machine's moves are a reading from the left. */
  lemma {:induction false} MovesAreAReading(m: string, k: nat)
    requires k <= |m| && TagsClose(m)
    ensures Reads(START, m[..k], Run(m, k).state, Written(m, 0, k), Counted(m, 0, k))
    decreases k
  {
    hide Reads, Next, Accent, IndexOf, TagsClose;
    if k == 0 {
      ReadsNothing(START);
    } else {
      MovesAreAReading(m, k - 1);
      ReadsStraight(m, k - 1);
      ReadsOne(Run(m, k - 1).state, m[k - 1]);
      assert m[..k] == m[..k - 1] + [m[k - 1]];
      ReadsJoin(START, m[..k - 1], Run(m, k - 1).state, Written(m, 0, k - 1), Counted(m, 0, k - 1), [m[k - 1]],
                Next(Run(m, k - 1).state, m[k - 1]), Emitted(m, Run(m, k - 1)), LettersAt(m, Run(m, k - 1)));
    }
  }

  /** A well-formed message comes out as the same message with its text accented, wrapped and padded by the
      letters of that text; names, kinds, selectors, styles and tags are as they were, at every depth. */
  lemma MessagesAreAccented(m: Message)
    requires WellFormed(m)
    ensures Returns(Render(m)) && Pseudo(Render(m)) == Wrap(Render(Accented(m)), Letters(m))
  {
    hide WellFormed, Run, Written, Counted, Wrap, Render, Letters, Accent, Next;
    var t := Render(m);
    MessagesAreClosed(m);
    ClosedTagsAreNotLost(t, 0, START);
    BodyReadOnce(t);
    ReadsStraight(t, |t|);
    AnyEndWillDo(t, |t|);
    MovesAreAReading(t, |t|);
    ReadsMessage(0, m);
    assert t[..|t|] == t;
    assert Run(t, |t|).state == State(0, Text) && Owed(Run(t, |t|).state) == 0;
    assert Closers(0) == "" && Body(t) == Written(t, 0, |t|) + "" == Written(t, 0, |t|);
    assert Written(t, 0, |t|) == Render(Accented(m)) && Counted(t, 0, |t|) == Letters(m);
  }

  // ---- The pieces of the machine -------------------------------------------------------------------------

  predicate Blank(s: string) {
    forall i :: 0 <= i < |s| ==> IsSpace(s[i])
  }

  lemma {:induction false} TrimmedAround(left: string, s: string, right: string)
    requires Blank(left) && Blank(right) && s != "" && !IsSpace(s[0]) && !IsSpace(s[|s| - 1])
    ensures TrimRight(TrimLeft(left + s + right)) == s
    decreases |left| + |right|
  {
    hide IsSpace;
    if left != "" {
      assert (left + s + right)[1..] == left[1..] + s + right;
      TrimmedAround(left[1..], s, right);
    } else if right != "" {
      var all := left + s + right;
      assert all == s + right && all[..|all| - 1] == left + s + right[..|right| - 1];
      TrimmedAround(left, s, right[..|right| - 1]);
    } else {
      assert left + s + right == s;
    }
  }

  /** Plurals, selects and ordinals hold text, with white space around the word or without; numbers, dates and
      times do not. */
  lemma WhatHoldsText(left: string, right: string)
    requires Blank(left) && Blank(right)
    ensures Branching(left + "plural" + right) && Branching(left + "select" + right)
    ensures Branching(left + "selectordinal" + right)
    ensures !Branching(left + "number" + right) && !Branching(left + "date" + right)
      && !Branching(left + "time" + right)
  {
    TrimmedAround(left, "plural", right);
    TrimmedAround(left, "select", right);
    TrimmedAround(left, "selectordinal", right);
    TrimmedAround(left, "number", right);
    TrimmedAround(left, "date", right);
    TrimmedAround(left, "time", right);
  }

  /** The padding is the least number of dots, two or more, that adds 35 to every hundred letters. */
  lemma PaddingIsAboutAThird(letters: nat)
    ensures Padding(letters) >= 2 && 100 * Padding(letters) >= 35 * letters
    ensures Padding(letters) > 2 ==> 100 * (Padding(letters) - 1) < 35 * letters
  {}
}
