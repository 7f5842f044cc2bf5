/** The textual form of a page cursor, `<block>-<logIndex>-<recordIndex>` (ledger/activity.go). */
module CursorText {
  import opened FixedPoint
  import opened Decimal
  import opened Sorting

  datatype Parsed = Cursor(coord: Coord) | Malformed(part: Part)

  datatype Part = WrongShape | BadBlock | BadLogIndex | BadRecordIndex

  function Text(c: Coord): string {
    Format(c.block) + "-" + Format(c.logIndex) + "-" + Format(c.record)
  }

  /** Unicode white space, as strings.TrimSpace strips it. */
  predicate IsSpace(c: char) {
    || c in "\t\n\U{000B}\U{000C}\r \U{0085}\U{00A0}\U{1680}\U{2028}\U{2029}\U{202F}\U{205F}\U{3000}"
    || '\U{2000}' <= c <= '\U{200A}'
  }

  function TrimLeft(s: string): string {
    if s != [] && IsSpace(s[0]) then TrimLeft(s[1..]) else s
  }

  function TrimRight(s: string): string {
    if s != [] && IsSpace(s[|s| - 1]) then TrimRight(s[..|s| - 1]) else s
  }

  function Split(s: string, separator: char): (parts: seq<string>)
    ensures |parts| > 0
  {
    if s == [] then [""]
    else
      var rest := Split(s[1..], separator);
      if s[0] == separator then [""] + rest else [[s[0]] + rest[0]] + rest[1..]
  }

  /** ParseUint in base ten, for a width given by its exclusive bound. */
  function ParseUint(s: string, bound: nat): Option<nat> {
    var n := ParseDigits(s);
    if n.Some? && n.value < bound then n else None
  }

  const BLOCK_BOUND := 0x1_0000_0000_0000_0000
  const LOG_BOUND := 0x1_0000_0000
  const RECORD_BOUND := 0x1_0000

  predicate InRange(c: Coord) {
    c.block < BLOCK_BOUND && c.logIndex < LOG_BOUND && c.record < RECORD_BOUND
  }

  function ParseActivityCursor(raw: string): Parsed {
    var parts := Split(TrimRight(TrimLeft(raw)), '-');
    if |parts| != 3 then Malformed(WrongShape)
    else
      var block := ParseUint(parts[0], BLOCK_BOUND);
      if block.None? then Malformed(BadBlock)
      else
        var log := ParseUint(parts[1], LOG_BOUND);
        if log.None? then Malformed(BadLogIndex)
        else
          var record := ParseUint(parts[2], RECORD_BOUND);
          if record.None? then Malformed(BadRecordIndex)
          else Cursor(Coord(block.value, log.value, record.value))
  }

  lemma {:induction false} SplitOnce(a: string, b: string, separator: char)
    requires separator !in a
    ensures Split(a + [separator] + b, separator) == [a] + Split(b, separator)
    decreases |a|
  {
    var s := a + [separator] + b;
    if a == [] {
      assert s[1..] == b;
    } else {
      assert s[1..] == a[1..] + [separator] + b;
      SplitOnce(a[1..], b, separator);
      assert a == [a[0]] + a[1..];
    }
  }

  lemma {:induction false} SplitNowhere(a: string, separator: char)
    requires separator !in a
    ensures Split(a, separator) == [a]
    decreases |a|
  {
    if a != [] {
      SplitNowhere(a[1..], separator);
      assert a == [a[0]] + a[1..];
    }
  }

  lemma DigitsOnly(s: string, c: char)
    requires forall i :: 0 <= i < |s| ==> IsDigit(s[i])
    requires !IsDigit(c)
    ensures c !in s
  {}

  lemma SplitInThree(a: string, b: string, d: string)
    requires '-' !in a && '-' !in b && '-' !in d
    ensures Split(a + "-" + b + "-" + d, '-') == [a, b, d]
  {
    var rest := b + ['-'] + d;
    assert a + "-" + b + "-" + d == a + ['-'] + rest;
    SplitOnce(a, rest, '-');
    SplitOnce(b, d, '-');
    SplitNowhere(d, '-');
  }

  lemma NothingToTrim(s: string)
    requires s != [] && IsDigit(s[0]) && IsDigit(s[|s| - 1])
    ensures TrimRight(TrimLeft(s)) == s
  {
    DigitsAreNotSpace(s[0]);
    DigitsAreNotSpace(s[|s| - 1]);
    hide IsSpace;
  }

  lemma DigitsAreNotSpace(c: char)
    requires IsDigit(c)
    ensures !IsSpace(c)
  {}

  lemma TextShape(c: Coord)
    ensures Split(Text(c), '-') == [Format(c.block), Format(c.logIndex), Format(c.record)]
    ensures TrimRight(TrimLeft(Text(c))) == Text(c)
  {
    hide Split, TrimLeft, TrimRight, Format, IsSpace;
    var a, b, d := Format(c.block), Format(c.logIndex), Format(c.record);
    DigitsOnly(a, '-');
    DigitsOnly(b, '-');
    DigitsOnly(d, '-');
    SplitInThree(a, b, d);
    var s := a + "-" + b + "-" + d;
    assert s[0] == a[0] && s[|s| - 1] == d[|d| - 1];
    NothingToTrim(s);
  }

  /** Reading back what was written gives the same cursor, for every cursor the widths can hold, and
      never a different one: out of range, it is refused at the first part that does not fit. */
  lemma ParseUndoesText(c: Coord)
    ensures ParseActivityCursor(Text(c)) ==
            if c.block >= BLOCK_BOUND then Malformed(BadBlock)
            else if c.logIndex >= LOG_BOUND then Malformed(BadLogIndex)
            else if c.record >= RECORD_BOUND then Malformed(BadRecordIndex)
            else Cursor(c)
  {
    hide Split, TrimLeft, TrimRight, ParseDigits, Format, Text;
    TextShape(c);
    ParseUndoesFormat(c.block);
    ParseUndoesFormat(c.logIndex);
    ParseUndoesFormat(c.record);
  }

  /** Three runs of digits, each in its width. */
  predicate Spelled(s: string, a: string, b: string, d: string) {
    && s == a + "-" + b + "-" + d
    && ParseUint(a, BLOCK_BOUND).Some? && ParseUint(b, LOG_BOUND).Some? && ParseUint(d, RECORD_BOUND).Some?
  }

  lemma {:induction false} ParsedAreDigits(s: string)
    ensures ParseDigits(s).Some? ==> s != [] && forall i :: 0 <= i < |s| ==> IsDigit(s[i])
  {
    if |s| > 1 {
      ParsedAreDigits(s[..|s| - 1]);
      assert ParseDigits(s).Some? ==> forall i :: 0 <= i < |s| - 1 ==> s[i] == s[..|s| - 1][i];
    }
  }

  lemma {:induction false} SplitJoins(s: string)
    ensures
      var parts := Split(s, '-');
      && (|parts| == 1 ==> s == parts[0])
      && (|parts| == 2 ==> s == parts[0] + "-" + parts[1])
      && (|parts| == 3 ==> s == parts[0] + "-" + parts[1] + "-" + parts[2])
  {
    if s != [] { SplitJoins(s[1..]); }
  }

  lemma {:induction false} TrimmedWhiteSpace(left: string, s: string, right: string)
    requires forall i :: 0 <= i < |left| ==> IsSpace(left[i])
    requires forall i :: 0 <= i < |right| ==> IsSpace(right[i])
    requires s != [] && !IsSpace(s[0]) && !IsSpace(s[|s| - 1])
    ensures TrimRight(TrimLeft(left + s + right)) == s
    decreases |left| + |right|
  {
    hide IsSpace;
    if left != [] {
      assert (left + s + right)[1..] == left[1..] + s + right;
      TrimmedWhiteSpace(left[1..], s, right);
    } else if right != [] {
      var all := left + s + right;
      assert all == s + right && all[..|all| - 1] == left + s + right[..|right| - 1];
      TrimmedWhiteSpace(left, s, right[..|right| - 1]);
    } else {
      assert left + s + right == s;
    }
  }

  predicate Blank(s: string) {
    forall i :: 0 <= i < |s| ==> IsSpace(s[i])
  }

  /** Nothing but three numbers that fit, joined by dashes, is accepted, white space around them aside. */
  lemma OnlySpellingsAreAccepted(raw: string)
    requires ParseActivityCursor(raw).Cursor?
    ensures exists a, b, d :: Spelled(TrimRight(TrimLeft(raw)), a, b, d)
  {
    var s := TrimRight(TrimLeft(raw));
    var parts := Split(s, '-');
    SplitJoins(s);
    assert Spelled(s, parts[0], parts[1], parts[2]);
  }

  /** And all of those are, white space and leading zeros not mattering. */
  lemma SpellingsAreAccepted(left: string, a: string, b: string, d: string, right: string)
    requires Spelled(a + "-" + b + "-" + d, a, b, d) && Blank(left) && Blank(right)
    ensures ParseActivityCursor(left + (a + "-" + b + "-" + d) + right) ==
      Cursor(Coord(ParseDigits(a).value, ParseDigits(b).value, ParseDigits(d).value))
  {
    hide IsSpace, Split, TrimLeft, TrimRight;
    var s := a + "-" + b + "-" + d;
    ParsedAreDigits(a);
    ParsedAreDigits(b);
    ParsedAreDigits(d);
    DigitsOnly(a, '-');
    DigitsOnly(b, '-');
    DigitsOnly(d, '-');
    SplitInThree(a, b, d);
    assert s[0] == a[0] && s[|s| - 1] == d[|d| - 1];
    DigitsAreNotSpace(s[0]);
    DigitsAreNotSpace(s[|s| - 1]);
    TrimmedWhiteSpace(left, s, right);
  }

  lemma ParsedIsInRange(raw: string)
    requires ParseActivityCursor(raw).Cursor?
    ensures
      var c := ParseActivityCursor(raw).coord;
      InRange(c) && c.block < BLOCK_BOUND && c.logIndex < LOG_BOUND && c.record < RECORD_BOUND
  {}

  /** Whatever spelling was accepted (white space around it, leading zeros), printing the result and
      reading it again is stable; and nothing out of range is ever accepted. */
  lemma AcceptedCursorsRoundTrip(raw: string)
    requires ParseActivityCursor(raw).Cursor?
    ensures InRange(ParseActivityCursor(raw).coord)
    ensures ParseActivityCursor(Text(ParseActivityCursor(raw).coord)) == ParseActivityCursor(raw)
  {
    ParsedIsInRange(raw);
    hide ParseActivityCursor, Text, InRange;
    ParseUndoesText(ParseActivityCursor(raw).coord);
  }

  /** Two cursors never share a spelling. */
  lemma TextIsInjective(c: Coord, d: Coord)
    requires Text(c) == Text(d)
    ensures c == d
  {
    TextShape(c);
    TextShape(d);
    ParseUndoesFormat(c.block);
    ParseUndoesFormat(d.block);
    ParseUndoesFormat(c.logIndex);
    ParseUndoesFormat(d.logIndex);
    ParseUndoesFormat(c.record);
    ParseUndoesFormat(d.record);
  }
}
