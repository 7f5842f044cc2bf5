/** The pseudo-locale as a machine: what each character of a message is, read left to right with a
    count of open branches, independently of the recursive descent that does the work, and with the
    one jump that descent makes: back to the start, at a `<` with no `>` after it (i18n/pseudo.ts). */
module PseudoSpec {
  import opened FixedPoint

  function AccentSmall(c: char): char {
    match c
    case 'a' => 'å' case 'b' => 'ƀ' case 'c' => 'ç' case 'd' => 'ð'
    case 'e' => 'é' case 'f' => 'ƒ' case 'g' => 'ĝ' case 'h' => 'ĥ'
    case 'i' => 'î' case 'j' => 'ĵ' case 'k' => 'ķ' case 'l' => 'ļ'
    case 'm' => 'ɱ' case 'n' => 'ñ' case 'o' => 'ö' case 'p' => 'þ'
    case 'q' => 'ǫ' case 'r' => 'ŕ' case 's' => 'š' case 't' => 'ţ'
    case 'u' => 'ü' case 'v' => 'ṽ' case 'w' => 'ŵ' case 'x' => 'ẋ'
    case 'y' => 'ý' case 'z' => 'ž'
    case _ => c
  }

  function AccentCapital(c: char): char {
    match c
    case 'A' => 'Å' case 'B' => 'Ɓ' case 'C' => 'Ç' case 'D' => 'Ð'
    case 'E' => 'É' case 'F' => 'Ƒ' case 'G' => 'Ĝ' case 'H' => 'Ĥ'
    case 'I' => 'Î' case 'J' => 'Ĵ' case 'K' => 'Ķ' case 'L' => 'Ļ'
    case 'M' => 'Ṁ' case 'N' => 'Ñ' case 'O' => 'Ö' case 'P' => 'Þ'
    case 'Q' => 'Ǫ' case 'R' => 'Ŕ' case 'S' => 'Š' case 'T' => 'Ţ'
    case 'U' => 'Û' case 'V' => 'Ṽ' case 'W' => 'Ŵ' case 'X' => 'Ẋ'
    case 'Y' => 'Ý' case 'Z' => 'Ž'
    case _ => c
  }

  function Accent(c: char): char {
    if 'a' <= c <= 'z' then AccentSmall(c) else if 'A' <= c <= 'Z' then AccentCapital(c) else c
  }

  function PlainSmall(c: char): char {
    match c
    case 'å' => 'a' case 'ƀ' => 'b' case 'ç' => 'c' case 'ð' => 'd'
    case 'é' => 'e' case 'ƒ' => 'f' case 'ĝ' => 'g' case 'ĥ' => 'h'
    case 'î' => 'i' case 'ĵ' => 'j' case 'ķ' => 'k' case 'ļ' => 'l'
    case 'ɱ' => 'm' case 'ñ' => 'n' case 'ö' => 'o' case 'þ' => 'p'
    case 'ǫ' => 'q' case 'ŕ' => 'r' case 'š' => 's' case 'ţ' => 't'
    case 'ü' => 'u' case 'ṽ' => 'v' case 'ŵ' => 'w' case 'ẋ' => 'x'
    case 'ý' => 'y' case 'ž' => 'z'
    case _ => c
  }

  function PlainCapital(c: char): char {
    match c
    case 'Å' => 'A' case 'Ɓ' => 'B' case 'Ç' => 'C' case 'Ð' => 'D'
    case 'É' => 'E' case 'Ƒ' => 'F' case 'Ĝ' => 'G' case 'Ĥ' => 'H'
    case 'Î' => 'I' case 'Ĵ' => 'J' case 'Ķ' => 'K' case 'Ļ' => 'L'
    case 'Ṁ' => 'M' case 'Ñ' => 'N' case 'Ö' => 'O' case 'Þ' => 'P'
    case 'Ǫ' => 'Q' case 'Ŕ' => 'R' case 'Š' => 'S' case 'Ţ' => 'T'
    case 'Û' => 'U' case 'Ṽ' => 'V' case 'Ŵ' => 'W' case 'Ẋ' => 'X'
    case 'Ý' => 'Y' case 'Ž' => 'Z'
    case _ => c
  }

  function Unaccent(c: char): char {
    if PlainSmall(c) != c then PlainSmall(c) else PlainCapital(c)
  }

  predicate IsLetter(c: char) {
    'A' <= c <= 'Z' || 'a' <= c <= 'z'
  }

  lemma OthersStay(c: char)
    requires !IsLetter(c)
    ensures Accent(c) == c
  {}

  /** What ECMAScript's trim strips. */
  predicate IsSpace(c: char) {
    || c in "\t\n\U{000B}\U{000C}\r \U{00A0}\U{1680}\U{2028}\U{2029}\U{202F}\U{205F}\U{3000}\U{FEFF}"
    || '\U{2000}' <= c <= '\U{200A}'
  }

  function TrimLeft(s: string): string {
    if s != [] && IsSpace(s[0]) then TrimLeft(s[1..]) else s
  }

  function TrimRight(s: string): string {
    if s != [] && IsSpace(s[|s| - 1]) then TrimRight(s[..|s| - 1]) else s
  }

  /** Argument types whose braces hold text. */
  predicate Branching(kind: string) {
    TrimRight(TrimLeft(kind)) in {"plural", "select", "selectordinal"}
  }

  // ---- The machine -----------------------------------------------------------------------------

  datatype Mode =
    | Text                  // the message itself, or one branch of a plural or select
    | Tag                   // from `<` to `>`
    | Head                  // an argument's name
    | Kind(read: string)    // its type, as far as it has been read
    | Copy(depth: nat)      // the rest of an argument that holds no text
    | Selectors             // between the branches

  /** `branches` are the ones being read around this point. */
  datatype State = State(branches: nat, mode: Mode)

  const START := State(0, Text)

  function Next(s: State, c: char): State {
    match s.mode
    case Text =>
      if c == '}' && s.branches > 0 then State(s.branches - 1, Selectors)
      else if c == '{' then s.(mode := Head)
      else if c == '<' then s.(mode := Tag)
      else s
    case Tag => if c == '>' then s.(mode := Text) else s
    case Head => if c == '}' then s.(mode := Text) else if c == ',' then s.(mode := Kind("")) else s
    case Kind(read) =>
      if c == '}' then s.(mode := Text)
      else if c == ',' then s.(mode := if Branching(read) then Selectors else Copy(1))
      else s.(mode := Kind(read + [c]))
    case Copy(depth) =>
      if c == '{' then s.(mode := Copy(depth + 1))
      else if c == '}' then s.(mode := if depth <= 1 then Text else Copy(depth - 1))
      else s
    case Selectors =>
      if c == '}' then s.(mode := Text) else if c == '{' then State(s.branches + 1, Text) else s
  }

  /** Where indexOf(c, from) finds c, or -1. */
  function IndexOf(m: string, c: char, from: nat): (k: int)
    requires from <= |m|
    ensures k == -1 ==> forall j :: from <= j < |m| ==> m[j] != c
    ensures k != -1 ==> from <= k < |m| && m[k] == c && forall j :: from <= j < k ==> m[j] != c
    decreases |m| - from
  {
    if from == |m| then -1 else if m[from] == c then from else IndexOf(m, c, from + 1)
  }

  datatype Conf = Conf(pos: nat, state: State)

  /** A tag that is never closed: the search answers -1, and position -1 + 1 is next. */
  predicate Lost(m: string, c: Conf) {
    c.pos < |m| && c.state.mode.Text? && m[c.pos] == '<' && IndexOf(m, '>', c.pos) == -1
  }

  function Move(m: string, c: Conf): Conf {
    if c.pos >= |m| then c
    else if Lost(m, c) then Conf(0, c.state)
    else Conf(c.pos + 1, Next(c.state, m[c.pos]))
  }

  /** The machine after n moves; at the end of the message it stays. */
  function Run(m: string, n: nat): (c: Conf)
    ensures c.pos <= |m|
  {
    if n == 0 then Conf(0, START) else Move(m, Run(m, n - 1))
  }

  /** What one move writes: only text is accented. */
  function Emitted(m: string, c: Conf): string {
    if c.pos >= |m| || Lost(m, c) then ""
    else [if c.state.mode.Text? then Accent(m[c.pos]) else m[c.pos]]
  }

  function LettersAt(m: string, c: Conf): nat {
    if c.pos < |m| && c.state.mode.Text? && IsLetter(m[c.pos]) then 1 else 0
  }

  /** What the moves from one to another write, and how many letters of text they read. */
  function Written(m: string, from: nat, upto: nat): string
    decreases upto
  {
    if from >= upto then "" else Written(m, from, upto - 1) + Emitted(m, Run(m, upto - 1))
  }

  function Counted(m: string, from: nat, upto: nat): nat
    decreases upto
  {
    if from >= upto then 0 else Counted(m, from, upto - 1) + LettersAt(m, Run(m, upto - 1))
  }

  /** Closers owed when the message ends here: two for every branch, one for an argument between them. */
  function Owed(s: State): nat {
    2 * s.branches + (if s.mode.Selectors? || (s.mode.Kind? && Branching(s.mode.read)) then 1 else 0)
  }

  function Closers(n: int): string {
    seq(if n > 0 then n else 0, _ => '}')
  }

  ghost predicate EndsAt(m: string, n: nat) {
    Run(m, n).pos == |m|
  }

  /** The machine gets to the end of the message. */
  ghost predicate Returns(m: string) {
    exists n: nat :: EndsAt(m, n)
  }

  ghost function Halt(m: string): (n: nat)
    requires Returns(m)
    ensures EndsAt(m, n)
  {
    var n: nat :| EndsAt(m, n);
    n
  }

  ghost function Body(m: string): string
    requires Returns(m)
  {
    Written(m, 0, Halt(m)) + Closers(Owed(Run(m, Halt(m)).state))
  }

  const PAD: char := '\U{00B7}'

  /** ceil(0.35 * letters), at least two. */
  function Padding(letters: nat): (n: nat)
    ensures n >= 2
  {
    var n := (35 * letters + 99) / 100;
    if n < 2 then 2 else n
  }

  function Dots(n: nat): string {
    seq(n, _ => PAD)
  }

  function Wrap(body: string, letters: nat): string {
    if letters == 0 then body else "[" + body + " " + Dots(Padding(letters)) + "]"
  }

  ghost function Pseudo(m: string): string
    requires Returns(m)
  {
    Wrap(Body(m), Counted(m, 0, Halt(m)))
  }

  // ---- At the end it stays -------------------------------------------------------------------------

  lemma {:induction false} StaysAtTheEnd(m: string, n: nat, later: nat)
    requires EndsAt(m, n) && n <= later
    ensures Run(m, later) == Run(m, n)
    ensures Written(m, 0, later) == Written(m, 0, n) && Counted(m, 0, later) == Counted(m, 0, n)
    decreases later
  {
    if n < later { StaysAtTheEnd(m, n, later - 1); }
  }

  /** Before the end there are moves left. */
  lemma BeforeTheEnd(m: string, n: nat, end: nat)
    requires EndsAt(m, end) && Run(m, n).pos < |m|
    ensures n < end
  {
    if end <= n { StaysAtTheEnd(m, end, n); }
  }

  /** It does not matter at which move past the end one looks. */
  lemma AnyEndWillDo(m: string, n: nat)
    requires EndsAt(m, n)
    ensures Returns(m)
    ensures Body(m) == Written(m, 0, n) + Closers(Owed(Run(m, n).state))
    ensures Counted(m, 0, Halt(m)) == Counted(m, 0, n)
  {
    if n <= Halt(m) { StaysAtTheEnd(m, n, Halt(m)); } else { StaysAtTheEnd(m, Halt(m), n); }
  }
}
