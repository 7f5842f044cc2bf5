/** pseudoMessage, the recursive descent that does the work, proved against the machine of
    PseudoSpec (i18n/pseudo.ts). */
module Pseudo {
  import opened PseudoSpec

  /** slice(from, upto), whose bounds are clamped to the string. */
  function Slice(m: string, from: nat, upto: nat): string {
    var hi := if upto < |m| then upto else |m|;
    if from <= hi then m[from..hi] else ""
  }

  function Clamp(m: string, i: nat): (k: nat)
    ensures k <= |m|
  {
    if i < |m| then i else |m|
  }

  /** What moves from..upto have written, with the closers owed if the message ended on the way. */
  ghost predicate Reads(m: string, from: nat, upto: nat, out: string) {
    && from <= upto
    && Owed(Run(m, upto).state) >= Owed(Run(m, from).state)
    && out == Written(m, from, upto) + Closers(Owed(Run(m, upto).state) - Owed(Run(m, from).state))
    && (Run(m, upto).pos < |m| ==> Run(m, upto).state == Run(m, from).state)
  }

  lemma {:induction false} WrittenJoin(m: string, from: nat, mid: nat, upto: nat)
    requires from <= mid <= upto
    ensures Written(m, from, mid) + Written(m, mid, upto) == Written(m, from, upto)
    ensures Counted(m, from, mid) + Counted(m, mid, upto) == Counted(m, from, upto)
    decreases upto
  {
    if mid < upto { WrittenJoin(m, from, mid, upto - 1); }
  }

  // ---- Stretches that are copied as they are -------------------------------------------------------

  /** The next `len` moves read as many characters and write them unchanged; none is a letter of text. */
  ghost predicate Copies(m: string, n: nat, len: nat) {
    && Run(m, n).pos + len == Run(m, n + len).pos
    && Written(m, n, n + len) == m[Run(m, n).pos..Run(m, n + len).pos]
    && Counted(m, n, n + len) == 0
  }

  lemma CopiesNothing(m: string, n: nat)
    ensures Copies(m, n, 0)
  {}

  lemma CopiesOn(m: string, n: nat, a: nat, b: nat)
    requires Copies(m, n, a) && Copies(m, n + a, b)
    ensures Copies(m, n, a + b)
  {
    hide Run, Written, Counted;
    WrittenJoin(m, n, n + a, n + a + b);
  }

  /** One move that is not a letter of text and not a tag left open. */
  lemma OneMove(m: string, n: nat)
    requires Run(m, n).pos < |m| && !Lost(m, Run(m, n))
    ensures Run(m, n + 1) == Conf(Run(m, n).pos + 1, Next(Run(m, n).state, m[Run(m, n).pos]))
    ensures !Run(m, n).state.mode.Text? || !IsLetter(m[Run(m, n).pos]) ==> Copies(m, n, 1)
  {
    hide Accent, Next, Lost;
    var c := Run(m, n);
    OthersStay2(m[c.pos]);
    assert Written(m, n, n) == "" && Counted(m, n, n) == 0;
    assert Written(m, n, n + 1) == Emitted(m, c);
    assert Counted(m, n, n + 1) == LettersAt(m, c);
  }

  lemma OthersStay2(c: char)
    ensures !IsLetter(c) ==> Accent(c) == c
  {
    hide Accent;
    if !IsLetter(c) { OthersStay(c); }
  }

  /** A tag is read through to its `>`. */
  lemma {:induction false} TagRuns(m: string, n: nat, len: nat)
    requires
      var c := Run(m, n);
      && 0 < len && c.pos + len <= |m| && c.state.mode.Text? && m[c.pos] == '<' && IndexOf(m, '>', c.pos) != -1
      && forall j :: c.pos <= j < c.pos + len ==> m[j] != '>'
    ensures Copies(m, n, len) && Run(m, n + len).state == Run(m, n).state.(mode := Tag)
    decreases len
  {
    hide Run, Written, Counted, IndexOf;
    if len == 1 {
      OneMove(m, n);
    } else {
      TagRuns(m, n, len - 1);
      OneMove(m, n + len - 1);
      CopiesOn(m, n, len - 1, 1);
    }
  }

  lemma TagIsCopied(m: string, n: nat)
    requires
      var c := Run(m, n);
      c.pos < |m| && c.state.mode.Text? && m[c.pos] == '<' && IndexOf(m, '>', c.pos) != -1
    ensures IndexOf(m, '>', Run(m, n).pos) > Run(m, n).pos
    ensures
      var len := IndexOf(m, '>', Run(m, n).pos) + 1 - Run(m, n).pos;
      Copies(m, n, len) && Run(m, n + len).state == Run(m, n).state
  {
    hide Run, Written, Counted;
    var len := IndexOf(m, '>', Run(m, n).pos) - Run(m, n).pos;
    TagRuns(m, n, len);
    OneMove(m, n + len);
    CopiesOn(m, n, len, 1);
  }

  /** An argument's name is read through to the `,` or `}` that ends it. */
  lemma {:induction false} HeadRuns(m: string, n: nat, len: nat)
    requires
      var c := Run(m, n);
      && 0 < len && c.pos + len <= |m| && c.state.mode.Text? && m[c.pos] == '{'
      && forall j :: c.pos < j < c.pos + len ==> m[j] !in ",}"
    ensures Copies(m, n, len) && Run(m, n + len).state == Run(m, n).state.(mode := Head)
    decreases len
  {
    hide Run, Written, Counted, IndexOf;
    if len == 1 {
      OneMove(m, n);
    } else {
      HeadRuns(m, n, len - 1);
      OneMove(m, n + len - 1);
      CopiesOn(m, n, len - 1, 1);
    }
  }

  /** So is its type, which the machine collects on the way. */
  lemma {:induction false} KindRuns(m: string, n: nat, len: nat)
    requires
      var c := Run(m, n);
      && c.pos + len <= |m| && c.state.mode == Kind("")
      && forall j :: c.pos <= j < c.pos + len ==> m[j] !in ",}"
    ensures Copies(m, n, len)
    ensures Run(m, n + len).state == Run(m, n).state.(mode := Kind(m[Run(m, n).pos..Run(m, n).pos + len]))
    decreases len
  {
    hide Run, Written, Counted, IndexOf, Branching;
    var p := Run(m, n).pos;
    if len == 0 {
      CopiesNothing(m, n);
      assert m[p..p] == "";
    } else {
      KindRuns(m, n, len - 1);
      OneMove(m, n + len - 1);
      CopiesOn(m, n, len - 1, 1);
      assert m[p..p + len] == m[p..p + len - 1] + [m[p + len - 1]];
    }
  }

  /** The machine has just read an argument's type, and stands on the `,` or `}` after it. */
  ghost predicate AfterKind(m: string, n: nat, branches: nat, branching: bool) {
    var c := Run(m, n);
    && c.state.branches == branches && c.state.mode.Kind? && Branching(c.state.mode.read) == branching
    && (c.pos < |m| ==> m[c.pos] in ",}")
  }

  /** The machine stands between two branches. */
  ghost predicate Between(m: string, n: nat, branches: nat) {
    Run(m, n).state == State(branches, Selectors) || AfterKind(m, n, branches, true)
  }

  lemma AfterKindMove(m: string, n: nat, branches: nat, branching: bool)
    requires AfterKind(m, n, branches, branching) && Run(m, n).pos < |m|
    ensures Copies(m, n, 1)
    ensures Run(m, n + 1).state ==
      State(branches, if m[Run(m, n).pos] == '}' then Text else if branching then Selectors else Copy(1))
  {
    hide Run, Written, Counted, IndexOf, Branching;
    OneMove(m, n);
  }

  /** One character between branches, up to the `{` of the next. */
  lemma BetweenMove(m: string, n: nat, branches: nat)
    requires Between(m, n, branches) && Run(m, n).pos < |m|
    ensures Run(m, n + 1).pos == Run(m, n).pos + 1
    ensures Written(m, n, n + 1) == [m[Run(m, n).pos]] && Counted(m, n, n + 1) == 0
    ensures
      var c := m[Run(m, n).pos];
      if c == '}' then Run(m, n + 1).state == State(branches, Text)
      else if c == '{' then Run(m, n + 1).state == State(branches + 1, Text)
      else Between(m, n + 1, branches)
  {
    hide Run, Written, Counted, IndexOf, Branching;
    if AfterKind(m, n, branches, true) { AfterKindMove(m, n, branches, true); } else { OneMove(m, n); }
  }

  lemma NoTypeIsNotBranching()
    ensures !Branching("")
  {}

  lemma OneMoreCloser(n: nat)
    ensures Closers(n) + "}" == Closers(n + 1)
  {}

  // ---- What has been read, and what comes next -----------------------------------------------------

  lemma ReadsNothing(m: string, n: nat)
    ensures Reads(m, n, n, "") && Counted(m, n, n) == 0
  {}

  /** Two stretches read one after the other. */
  lemma ReadsOn(m: string, from: nat, mid: nat, upto: nat, a: string, b: string)
    requires Run(m, mid).pos < |m| && Reads(m, from, mid, a) && Reads(m, mid, upto, b)
    ensures Reads(m, from, upto, a + b)
    ensures Counted(m, from, mid) + Counted(m, mid, upto) == Counted(m, from, upto)
  {
    hide Run, Written, Counted, Owed;
    WrittenJoin(m, from, mid, upto);
    assert a == Written(m, from, mid);
  }

  /** A stretch copied in full, back where it started. */
  lemma CopyIsRead(m: string, n: nat, len: nat)
    requires Copies(m, n, len) && Owed(Run(m, n + len).state) == Owed(Run(m, n).state)
    requires Run(m, n + len).pos < |m| ==> Run(m, n + len).state == Run(m, n).state
    ensures Reads(m, n, n + len, m[Run(m, n).pos..Run(m, n + len).pos]) && Counted(m, n, n + len) == 0
  {
    assert Closers(0) == "";
  }

  /** Any other character of text. */
  lemma ReadsChar(m: string, n: nat)
    requires
      var c := Run(m, n);
      && c.pos < |m| && c.state.mode.Text? && m[c.pos] !in "{<" && (m[c.pos] == '}' ==> c.state.branches == 0)
    ensures Run(m, n + 1).pos == Run(m, n).pos + 1
    ensures Reads(m, n, n + 1, [Accent(m[Run(m, n).pos])])
    ensures Counted(m, n, n + 1) == if IsLetter(m[Run(m, n).pos]) then 1 else 0
  {
    hide Accent, Owed;
    assert Written(m, n, n) == "" && Counted(m, n, n) == 0;
  }

  /** A tag that is never closed writes nothing and goes back to the start. */
  lemma ReadsLost(m: string, n: nat)
    requires Lost(m, Run(m, n))
    ensures Run(m, n + 1).pos == 0 && Reads(m, n, n + 1, "") && Counted(m, n, n + 1) == 0
  {
    hide Accent, Owed, IndexOf;
    assert Written(m, n, n) == "" && Counted(m, n, n) == 0;
  }

  /** The message ended inside a branch; that branch's own closer has been written. */
  ghost predicate Cut(m: string, from: nat, upto: nat, branches: nat, out: string) {
    && Owed(Run(m, upto).state) >= 2 * branches + 1
    && out == Written(m, from, upto) + Closers(Owed(Run(m, upto).state) - 2 * branches - 1)
  }

  /** A branch, from its `{` to the `}` its text stopped at. */
  lemma BranchRead(m: string, from: nat, open: nat, upto: nat, branches: nat, text: string)
    requires from <= open && Between(m, open, branches)
    requires Run(m, open).pos < |m| && m[Run(m, open).pos] == '{'
    requires Reads(m, open + 1, upto, text) && Run(m, upto).pos < |m| && m[Run(m, upto).pos] == '}'
    ensures Run(m, upto + 1).pos == Run(m, upto).pos + 1 && Between(m, upto + 1, branches)
    ensures Written(m, from, open) + "{" + text + "}" == Written(m, from, upto + 1)
    ensures Counted(m, from, upto + 1) == Counted(m, from, open) + Counted(m, open + 1, upto)
  {
    hide Run, Written, Counted, IndexOf, Branching;
    BetweenMove(m, open, branches);
    OneMove(m, upto);
    assert m[Run(m, upto).pos..Run(m, upto).pos + 1] == "}";
    WrittenJoin(m, from, open, open + 1);
    WrittenJoin(m, from, open + 1, upto);
    WrittenJoin(m, from, upto, upto + 1);
    assert text == Written(m, open + 1, upto);
  }

  /** A branch the message ended in. */
  lemma BranchCut(m: string, from: nat, open: nat, upto: nat, branches: nat, text: string)
    requires from <= open && Between(m, open, branches)
    requires Run(m, open).pos < |m| && m[Run(m, open).pos] == '{'
    requires Reads(m, open + 1, upto, text)
    ensures Cut(m, from, upto, branches, Written(m, from, open) + "{" + text + "}")
    ensures Counted(m, from, upto) == Counted(m, from, open) + Counted(m, open + 1, upto)
  {
    hide Run, Written, Counted, IndexOf, Branching;
    BetweenMove(m, open, branches);
    WrittenJoin(m, from, open, open + 1);
    WrittenJoin(m, from, open + 1, upto);
    OneMoreCloser(Owed(Run(m, upto).state) - 2 * branches - 2);
  }

  lemma Starts(m: string, from: nat, move: nat)
    requires AfterKind(m, move, Run(m, from).state.branches, true)
    requires from <= move && Copies(m, from, move - from)
    ensures Between(m, move, Run(m, from).state.branches)
    ensures Written(m, from, move) == m[Run(m, from).pos..Run(m, move).pos] && Counted(m, from, move) == 0
  {}

  /** The three ways an argument with branches ends: with its `}`, or with the message, between two
      branches or inside one. */
  lemma BranchesClose(m: string, from: nat, upto: nat, out: string)
    requires from <= upto && Run(m, upto).state == Run(m, from).state && out == Written(m, from, upto)
    ensures Reads(m, from, upto, out)
  {}

  lemma BranchesEnd(m: string, from: nat, upto: nat, out: string)
    requires Run(m, from).state.mode.Text? && Between(m, upto, Run(m, from).state.branches)
    requires from <= upto && EndsAt(m, upto) && out == Written(m, from, upto)
    ensures Reads(m, from, upto, out + "}")
  {
    hide Run, Written, Branching;
    assert Closers(1) == "}";
  }

  lemma CutCloses(m: string, from: nat, upto: nat, out: string)
    requires Run(m, from).state.mode.Text? && Cut(m, from, upto, Run(m, from).state.branches, out)
    requires from <= upto && EndsAt(m, upto)
    ensures Reads(m, from, upto, out + "}")
  {
    hide Run, Written;
    OneMoreCloser(Owed(Run(m, upto).state) - 2 * Run(m, from).state.branches - 1);
  }

  lemma HeadAndKind(m: string, start: nat, head: string, i: nat)
    requires start + |head| + 2 <= i <= |m| && m[start] == '{' && m[start + 1 + |head|] == ','
    requires m[start + 1..start + 1 + |head|] == head
    ensures "{" + head + "," + Slice(m, start + |head| + 2, i) == m[start..i]
  {}

  /** Where an argument's name stops: with the argument, before its type, or with the message. */
  lemma NameStops(m: string, n: nat, len: nat)
    requires
      var c := Run(m, n);
      && 0 < len && c.pos + len <= |m| && c.state.mode.Text? && m[c.pos] == '{'
      && (forall j :: c.pos < j < c.pos + len ==> m[j] !in ",}")
      && (c.pos + len < |m| ==> m[c.pos + len] in ",}")
    ensures Run(m, n).pos + len == |m| ==>
      Copies(m, n, len) && Run(m, n + len) == Conf(|m|, Run(m, n).state.(mode := Head))
    ensures Run(m, n).pos + len < |m| ==>
      Copies(m, n, len + 1) && Run(m, n + len + 1).pos == Run(m, n).pos + len + 1
    ensures Run(m, n).pos + len < |m| && m[Run(m, n).pos + len] == ',' ==>
      Run(m, n + len + 1).state == Run(m, n).state.(mode := Kind(""))
    ensures Run(m, n).pos + len < |m| && m[Run(m, n).pos + len] == '}' ==>
      && Reads(m, n, n + len + 1, m[Run(m, n).pos..Run(m, n).pos + len + 1])
      && Counted(m, n, n + len + 1) == 0
  {
    hide Run, Written, Counted, IndexOf;
    HeadRuns(m, n, len);
    if Run(m, n).pos + len < |m| {
      OneMove(m, n + len);
      CopiesOn(m, n, len, 1);
      if m[Run(m, n).pos + len] == '}' { CopyIsRead(m, n, len + 1); }
    }
  }

  /** Where its type stops. */
  lemma KindStops(m: string, n: nat, name: nat, len: nat)
    requires Copies(m, n, name) && Run(m, n + name).state == Run(m, n).state.(mode := Kind(""))
    requires
      var p := Run(m, n + name).pos;
      && p + len <= |m| && (forall j :: p <= j < p + len ==> m[j] !in ",}") && (p + len < |m| ==> m[p + len] in ",}")
    ensures Copies(m, n, name + len) && Run(m, n + name + len).pos == Run(m, n + name).pos + len
    ensures
      var p := Run(m, n + name).pos;
      AfterKind(m, n + name + len, Run(m, n).state.branches, Branching(m[p..p + len]))
  {
    hide Run, Written, Counted, IndexOf, Branching;
    KindRuns(m, n + name, len);
    CopiesOn(m, n, name, len);
  }

  class Transformer {
    const message: string
    ghost const halt: nat
    var i: nat
    var letters: nat
    ghost var move: nat

    /** `move` is where the machine is when the descent is at i; i may run one past the end or two. */
    ghost predicate Valid()
      reads this
    {
      EndsAt(message, halt) && Run(message, move).pos == Clamp(message, i)
    }

    constructor (message: string)
      requires Returns(message)
      ensures this.message == message && i == 0 && letters == 0 && move == 0 && Valid()
    {
      this.message := message;
      this.halt := Halt(message);
      i := 0;
      letters := 0;
      move := 0;
    }

    method ReadUntil(stop: string) returns (out: string)
      modifies this`i
      ensures i >= old(i) && out == Slice(message, old(i), i)
      ensures old(i) <= |message| ==> i <= |message|
      ensures old(i) > |message| ==> i == old(i)
      ensures forall j :: old(i) <= j < i && j < |message| ==> message[j] !in stop
      ensures i < |message| ==> message[i] in stop
    {
      var from := i;
      while i < |message| && message[i] !in stop
        invariant from <= i
        invariant from <= |message| ==> i <= |message|
        invariant from > |message| ==> i == from
        invariant forall j :: from <= j < i && j < |message| ==> message[j] !in stop
      {
        i := i + 1;
      }
      out := Slice(message, from, i);
    }

    /** Reads text to where it stops: the message's end or, inside a branch, that branch's `}`. */
    method Text(inBranch: bool) returns (out: string)
      requires Valid() && i <= |message| && Run(message, move).state.mode.Text?
      requires inBranch <==> Run(message, move).state.branches > 0
      modifies this
      ensures Valid() && move >= old(move) && Reads(message, old(move), move, out)
      ensures letters == old(letters) + Counted(message, old(move), move)
      ensures i < |message| ==> inBranch && message[i] == '}'
      decreases halt - move, 1
    {
      hide Run, Accent, Owed, Written, Counted, IndexOf, EndsAt;
      ghost var from := move;
      out := "";
      ReadsNothing(message, from);
      while i < |message|
        invariant Valid() && Reads(message, from, move, out)
        invariant letters == old(letters) + Counted(message, from, move)
        decreases halt - move
      {
        var c := message[i];
        ghost var was, read := move, out;
        BeforeTheEnd(message, was, halt);
        if c == '}' && inBranch { return; }
        if c == '{' {
          var argument := Argument();
          out := out + argument;
          ReadsOn(message, from, was, move, read, argument);
          continue;
        }
        if c == '<' {
          var tag := CopyTag();
          out := out + tag;
          ReadsOn(message, from, was, move, read, tag);
          continue;
        }
        ReadsChar(message, was);
        ReadsOn(message, from, was, was + 1, read, [Accent(c)]);
        move := move + 1;
        if c == '\'' || c == '#' {
          OthersStay(c);
          out := out + [c];
          i := i + 1;
          continue;
        }
        if IsLetter(c) { letters := letters + 1; }
        out := out + [Accent(c)];
        i := i + 1;
      }
    }

    /** A rich-text tag. When it is never closed the search answers -1: nothing is copied, and reading
        starts over. */
    method CopyTag() returns (out: string)
      requires Valid() && i < |message| && message[i] == '<' && Run(message, move).state.mode.Text?
      modifies this`i, this`move
      ensures Valid() && i <= |message| && move > old(move) && Reads(message, old(move), move, out)
      ensures Run(message, move).state == old(Run(message, move).state)
      ensures Counted(message, old(move), move) == 0
    {
      hide Run, Accent, Owed, Written, Counted, IndexOf, EndsAt;
      var end := IndexOf(message, '>', i);
      out := Slice(message, i, end + 1);
      if end == -1 {
        ReadsLost(message, move);
        move := move + 1;
      } else {
        TagIsCopied(message, move);
        CopyIsRead(message, move, end + 1 - i);
        move := move + (end + 1 - i);
      }
      i := end + 1;
    }

    /** From `{` to its matching `}`. */
    method Argument() returns (out: string)
      requires Valid() && i < |message| && message[i] == '{' && Run(message, move).state.mode.Text?
      modifies this
      ensures Valid() && move > old(move) && Reads(message, old(move), move, out)
      ensures letters == old(letters) + Counted(message, old(move), move)
      decreases halt - move, 0
    {
      hide Run, Accent, Owed, Written, Counted, IndexOf, EndsAt, Branching, Copies, AfterKind, Reads;
      var start := i;
      ghost var from := move;
      BeforeTheEnd(message, from, halt);
      i := i + 1;
      var head := ReadUntil(",}");
      NameStops(message, from, i - start);
      if i < |message| && message[i] == '}' {
        i := i + 1;
        move := from + (i - start);
        return Slice(message, start, i);
      }
      move := from + (Clamp(message, i + 1) - start);
      i := i + 1;
      ghost var name := i;
      var kind := ReadUntil(",}");
      if name <= |message| {
        KindStops(message, from, name - start, i - name);
        move := move + (i - name);
      } else {
        NoTypeIsNotBranching();
      }
      if !Branching(kind) {
        out := CopyRest(start, from);
      } else {
        out := Branches(start, from, head);
      }
    }

    /** The rest of an argument whose type holds no text, down to its own `}`. */
    method CopyRest(start: nat, ghost from: nat) returns (out: string)
      requires Valid() && start < |message| && start < i && from < move
      requires Run(message, from).pos == start && Run(message, from).state.mode.Text?
      requires Copies(message, from, move - from)
      requires i > |message| ==> Run(message, move).state == Run(message, from).state.(mode := Head)
      requires i <= |message| ==> AfterKind(message, move, Run(message, from).state.branches, false)
      modifies this`i, this`move
      ensures Valid() && move >= old(move) && Reads(message, from, move, out)
      ensures Counted(message, from, move) == 0
    {
      hide Run, Accent, Owed, Written, Counted, IndexOf, EndsAt, Branching;
      ghost var branches := Run(message, from).state.branches;
      var depth := 1;
      while i < |message| && depth > 0
        invariant Valid() && i >= old(i) && move >= old(move) && Copies(message, from, move - from)
        invariant old(i) <= |message| ==> i <= |message|
        invariant old(i) > |message| ==> i == old(i) && move == old(move) && depth == 1
        invariant i <= |message| ==>
          || (depth == 0 && Run(message, move).state == State(branches, Mode.Text))
          || (depth > 0 && Run(message, move).state == State(branches, Copy(depth)))
          || (depth == 1 && AfterKind(message, move, branches, false))
        decreases |message| - i
      {
        if AfterKind(message, move, branches, false) {
          AfterKindMove(message, move, branches, false);
        } else {
          OneMove(message, move);
        }
        CopiesOn(message, from, move - from, 1);
        move := move + 1;
        if message[i] == '{' { depth := depth + 1; }
        if message[i] == '}' { depth := depth - 1; }
        i := i + 1;
      }
      out := Slice(message, start, i);
      NothingOwed(message, from, move);
      CopyIsRead(message, from, move - from);
    }

    /** The branches of a plural or select: selectors copied, each branch read as text. */
    method Branches(start: nat, ghost from: nat, head: string) returns (out: string)
      requires Valid() && start + |head| + 2 <= i <= |message| && from < move
      requires Run(message, from).pos == start && Run(message, from).state.mode.Text?
      requires message[start] == '{' && message[start + 1..start + 1 + |head|] == head
      requires message[start + 1 + |head|] == ','
      requires Copies(message, from, move - from)
      requires AfterKind(message, move, Run(message, from).state.branches, true)
      modifies this
      ensures Valid() && move >= old(move) && Reads(message, from, move, out)
      ensures letters == old(letters) + Counted(message, from, move)
      decreases halt - move, 2
    {
      hide Run, Accent, Owed, Written, Counted, IndexOf, Branching, Between, AfterKind, Cut, Reads, Copies;
      ghost var branches := Run(message, from).state.branches;
      Starts(message, from, move);
      out := "{" + head + "," + Slice(message, start + |head| + 2, i);
      HeadAndKind(message, start, head, i);
      while i < |message| && message[i] != '}'
        invariant Valid() && move >= old(move)
        invariant letters == old(letters) + Counted(message, from, move)
        invariant i <= |message| ==> Between(message, move, branches) && out == Written(message, from, move)
        invariant i > |message| ==> Cut(message, from, move, branches, out)
        decreases halt - move
      {
        ghost var was := move;
        BeforeTheEnd(message, was, halt);
        BetweenMove(message, was, branches);
        if message[i] == '{' {
          i, move := i + 1, move + 1;
          var text := Text(true);
          out := out + "{" + text + "}";
          if i < |message| {
            BranchRead(message, from, was, move, branches, text);
            move := move + 1;
          } else {
            BranchCut(message, from, was, move, branches, text);
          }
          i := i + 1;
        } else {
          WrittenJoin(message, from, was, was + 1);
          out := out + [message[i]];
          i, move := i + 1, move + 1;
        }
      }
      if i < |message| {
        BetweenMove(message, move, branches);
        WrittenJoin(message, from, move, move + 1);
        move := move + 1;
        BranchesClose(message, from, move, out + "}");
      } else if i == |message| {
        BranchesEnd(message, from, move, out);
      } else {
        CutCloses(message, from, move, out);
      }
      i := i + 1;
      out := out + "}";
    }
  }

  /** An argument without branches owes nothing of its own, wherever the message ends. */
  lemma NothingOwed(m: string, from: nat, upto: nat)
    requires
      var s, e := Run(m, from).state, Run(m, upto).state;
      && s.mode.Text? && e.branches == s.branches
      && (e.mode.Text? || e.mode.Head? || e.mode.Copy? || (e.mode.Kind? && !Branching(e.mode.read)))
    ensures Owed(Run(m, upto).state) == Owed(Run(m, from).state)
  {}

  /** The entry point: renders a message and wraps it. */
  method PseudoMessage(message: string) returns (out: string)
    requires Returns(message)
    ensures out == Pseudo(message)
  {
    hide Written, Counted, Body;
    var t := new Transformer(message);
    var body := t.Text(false);
    AnyEndWillDo(message, t.move);
    if t.letters == 0 { return body; }
    out := "[" + body + " " + Dots(Padding(t.letters)) + "]";
  }
}
