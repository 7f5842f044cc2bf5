/** Settling and refunding: the remembered search answers as a fresh one would, a round is resolved only
    at its boundary, and refunded only when the adapter accepts nothing (keeper/keeper.go, feed.go). */
module KeeperSettlement {
  import opened FixedPoint
  import opened Ledger
  import opened Feed
  import opened KeeperRules
  import opened KeeperDesk
  import opened KeeperCursor
  import opened KeeperActions
  import opened KeeperRuns

  // ---- The feed --------------------------------------------------------------------------------------

  function UpdatedIn(book: Reader, id: nat): Option<nat> {
    if book(id).Data? then Some(book(id).updatedAt) else None
  }

  /** One feed that only appends: whatever is looked up, now or later, is what `book` says of that id, or
      fails. The head is read with its own timestamp. */
  ghost predicate FeedServes(v: FeedView, book: Reader) {
    v.head.Ok? && v.head.value.Some? ==>
      var head := v.head.value.value;
      && LatestRead(book, head.id, head.updatedAt)
      && forall j :: 0 < j < head.id ==> v.read(j) == book(j) || v.read(j).ReadFailed?
  }

  ghost predicate FeedsServe(w: World, book: Reader) {
    forall id: nat :: FeedServes(w.feed(id), book)
  }

  function Ideal(book: Reader, head: nat, closeTime: nat): Result<Option<nat>> {
    CloseRoundFrom(book, Some(head), UpdatedIn(book, head), closeTime)
  }

  /** A search that got an answer got the one the feed itself holds. */
  lemma {:induction false} SearchRefines(read: Reader, book: Reader, closeTime: nat, lo: nat, hi: nat)
    requires lo < hi && Search(read, closeTime, lo, hi).Ok?
    requires forall j :: 0 < j < hi ==> read(j) == book(j) || read(j).ReadFailed?
    ensures Search(book, closeTime, lo, hi) == Search(read, closeTime, lo, hi)
    ensures lo <= Search(read, closeTime, lo, hi).value < hi
    decreases hi - lo
  {
    if hi - lo > 1 {
      var mid := lo + (hi - lo) / 2;
      if Feed.Holds(read, closeTime, mid) { SearchRefines(read, book, closeTime, mid, hi); }
      else { SearchRefines(read, book, closeTime, lo, mid); }
    }
  }

  lemma AnswersAreIdeal(v: FeedView, book: Reader, closeTime: nat)
    requires FeedServes(v, book) && v.head.Ok? && v.head.value.Some?
    requires CloseRoundFrom(v.read, Some(v.head.value.value.id), v.head.value.value.updatedAt, closeTime).Ok?
    ensures
      var head := v.head.value.value;
      CloseRoundFrom(v.read, Some(head.id), head.updatedAt, closeTime) == Ideal(book, head.id, closeTime)
  {
    var head := v.head.value.value;
    if head.id > 0 && head.updatedAt.Some? && head.updatedAt.value > closeTime {
      SearchRefines(v.read, book, closeTime, 0, head.id);
    }
  }

  // ---- The memo --------------------------------------------------------------------------------------

  predicate MemoRight(k: Key, memo: Memo, book: Reader, rounds: seq<Round>) {
    1 <= k.round <= |rounds| && Ideal(book, memo.head, rounds[k.round - 1].closeTime) == Result.Ok(memo.candidate)
  }

  predicate MemosRight(d: Desk, book: Reader, rounds: seq<Round>) {
    forall k :: k in d.searched ==> MemoRight(k, d.searched[k], book, rounds)
  }

  lemma MemosLater(d: Desk, book: Reader, before: seq<Round>, after: seq<Round>)
    requires MemosRight(d, book, before) && Evolves(before, after)
    ensures MemosRight(d, book, after)
  {}

  /** What the search step knows once it has looked: nothing yet past the close, or the ideal answer at
      the head, from the memo or afresh. */
  lemma SearchIsIdeal(d: Desk, w: World, m: Market, id: nat, closeTime: nat, book: Reader, rounds: seq<Round>)
    requires !m.event && MemosRight(d, book, rounds) && FeedServes(w.feed(id), book)
    requires 1 <= id <= |rounds| && rounds[id - 1].closeTime == closeTime
    ensures
      var found := FindSettlement(d, w, m, id, closeTime);
      var v := w.feed(id);
      && MemosRight(found.desk, book, rounds)
      && (found.answer.Ok? ==> v.head.Ok?)
      && (found.answer.Ok? && v.head.value.None? ==> found.answer == Result.Ok(None))
      && (found.answer.Ok? && v.head.value.Some? ==>
            var ideal := Ideal(book, v.head.value.value.id, closeTime);
            ideal.Ok? && found.answer == VettedIfAny(w, id, ideal.value))
  {
    hide Search, LatestRead;
    var v := w.feed(id);
    if v.head.Ok? && v.head.value.Some? {
      var head := v.head.value.value;
      assert UpdatedIn(book, head.id) == head.updatedAt by { LatestIsUpdated(book, head.id, head.updatedAt); }
      var probe := Key(m.address, id, SearchFeed);
      if probe in d.searched { assert MemoRight(probe, d.searched[probe], book, rounds); }
      if CloseRoundFrom(v.read, Some(head.id), head.updatedAt, closeTime).Ok? { AnswersAreIdeal(v, book, closeTime); }
    }
  }

  lemma LatestIsUpdated(book: Reader, id: nat, updatedAt: Option<nat>)
    requires LatestRead(book, id, updatedAt)
    ensures UpdatedIn(book, id) == updatedAt
  {}

  /** Reading every round below the head, a search from scratch would answer. */
  predicate AllRead(v: FeedView) {
    v.head.Ok? && v.head.value.Some? ==> forall j :: 0 < j < v.head.value.value.id ==> !v.read(j).ReadFailed?
  }

  lemma {:induction false} SearchIsAnswered(read: Reader, closeTime: nat, lo: nat, hi: nat)
    requires lo < hi && forall j :: 0 < j < hi ==> !read(j).ReadFailed?
    ensures Search(read, closeTime, lo, hi).Ok?
    decreases hi - lo
  {
    if hi - lo > 1 {
      var mid := lo + (hi - lo) / 2;
      SearchIsAnswered(read, closeTime, mid, hi);
      SearchIsAnswered(read, closeTime, lo, mid);
    }
  }

  /** Reading every round below the head, the search step finds what the feed itself holds. */
  lemma FoundIsIdeal(d: Desk, w: World, m: Market, id: nat, closeTime: nat, book: Reader, rounds: seq<Round>)
    requires !m.event && MemosRight(d, book, rounds) && FeedServes(w.feed(id), book) && AllRead(w.feed(id))
    requires 1 <= id <= |rounds| && rounds[id - 1].closeTime == closeTime && w.feed(id).head.Ok?
    ensures
      var head, answer := w.feed(id).head.value, FindSettlement(d, w, m, id, closeTime).answer;
      if head.None? then answer == Result.Ok(None)
      else
        var ideal := Ideal(book, head.value.id, closeTime);
        ideal.Ok? && answer == VettedIfAny(w, id, ideal.value)
  {
    hide Search, LatestRead, Vetted;
    var v := w.feed(id);
    if v.head.value.Some? {
      var head := v.head.value.value;
      LatestIsUpdated(book, head.id, head.updatedAt);
      var probe := Key(m.address, id, SearchFeed);
      if probe in d.searched { assert MemoRight(probe, d.searched[probe], book, rounds); }
      if head.id > 0 {
        SearchIsAnswered(v.read, closeTime, 0, head.id);
        SearchRefines(v.read, book, closeTime, 0, head.id);
      }
      AnswersAreIdeal(v, book, closeTime);
    }
  }

  /** The memo agrees with a fresh search at the current head: forgetting it would change nothing but the
      number of reads. */
  lemma MemoAgrees(d: Desk, w: World, m: Market, id: nat, closeTime: nat, book: Reader, rounds: seq<Round>)
    requires MemosRight(d, book, rounds) && FeedServes(w.feed(id), book) && AllRead(w.feed(id))
    requires 1 <= id <= |rounds| && rounds[id - 1].closeTime == closeTime
    ensures FindSettlement(d, w, m, id, closeTime).answer ==
      FindSettlement(d.(searched := map[]), w, m, id, closeTime).answer
  {
    if !m.event && w.feed(id).head.Ok? {
      hide FindSettlement, AllRead, FeedServes, Ideal, MemoRight;
      FoundIsIdeal(d, w, m, id, closeTime, book, rounds);
      FoundIsIdeal(d.(searched := map[]), w, m, id, closeTime, book, rounds);
    }
  }

  // ---- What is sent ----------------------------------------------------------------------------------

  /** The feed as published up to a head. */
  function Published(book: Reader, head: Option<FeedHead>): Reader {
    (j: nat) => if head.Some? && j <= head.value.id then book(j) else NoData
  }

  /** An adapter that takes only the boundary pair of what is published; a question's oracle ignores which
      feed round it is asked about. */
  ghost predicate AdapterIsStrict(w: World, m: Market, id: nat, closeTime: nat, book: Reader) {
    if m.event then forall f: nat :: w.readable(id, f) == w.readable(id, 0)
    else w.feed(id).head.Ok? ==>
      forall f: nat :: w.readable(id, f) == Result.Ok(true) ==>
        BoundaryPair(Published(book, w.feed(id).head.value), closeTime, f)
  }

  /** The published part of the feed is in order at this close. */
  ghost predicate FeedInOrder(w: World, id: nat, closeTime: nat, book: Reader) {
    w.feed(id).head.Ok? && w.feed(id).head.value.Some? ==>
      Monotone(book, closeTime, w.feed(id).head.value.value.id) && Readable(book, w.feed(id).head.value.value.id)
  }

  ghost predicate NothingAccepted(w: World, id: nat) {
    forall f: nat :: w.readable(id, f) != Result.Ok(true)
  }

  /** A resolve names an accepted round which, for a price market, is the boundary of the close. */
  ghost predicate ResolvesRight(w: World, m: Market, id: nat, closeTime: nat, book: Reader, f: nat) {
    w.readable(id, f) == Result.Ok(true) && (if m.event then f == 0 else BoundaryPair(book, closeTime, f))
  }

  lemma FoundIsTheBoundary(d: Desk, w: World, m: Market, id: nat, closeTime: nat, book: Reader, rounds: seq<Round>)
    requires MemosRight(d, book, rounds) && FeedServes(w.feed(id), book)
    requires 1 <= id <= |rounds| && rounds[id - 1].closeTime == closeTime
    requires FindSettlement(d, w, m, id, closeTime).answer.Ok?
      && FindSettlement(d, w, m, id, closeTime).answer.value.Some?
    ensures ResolvesRight(w, m, id, closeTime, book, FindSettlement(d, w, m, id, closeTime).answer.value.value)
  {
    if !m.event {
      hide FindSettlement;
      SearchIsIdeal(d, w, m, id, closeTime, book, rounds);
      var head := w.feed(id).head.value.value;
      LatestIsUpdated(book, head.id, head.updatedAt);
      AnswerIsABoundaryPair(book, head.id, head.updatedAt, closeTime);
    }
  }

  lemma NothingFoundIsNothingAccepted(d: Desk, w: World, m: Market, id: nat, closeTime: nat, book: Reader,
                                      rounds: seq<Round>)
    requires MemosRight(d, book, rounds) && FeedServes(w.feed(id), book)
    requires 1 <= id <= |rounds| && rounds[id - 1].closeTime == closeTime
    requires AdapterIsStrict(w, m, id, closeTime, book) && FeedInOrder(w, id, closeTime, book)
    requires FindSettlement(d, w, m, id, closeTime).answer == Result.Ok(None)
    ensures NothingAccepted(w, id)
  {
    if !m.event {
      hide FindSettlement;
      SearchIsIdeal(d, w, m, id, closeTime, book, rounds);
      var head := w.feed(id).head.value;
      forall f: nat ensures w.readable(id, f) != Result.Ok(true) {
        if w.readable(id, f) == Result.Ok(true) { AcceptedIsIdeal(book, head, closeTime, f); }
      }
    }
  }

  /** The one round a strict adapter can accept is the one the search looks for. */
  lemma AcceptedIsIdeal(book: Reader, head: Option<FeedHead>, closeTime: nat, f: nat)
    requires BoundaryPair(Published(book, head), closeTime, f)
    requires head.Some? ==> LatestRead(book, head.value.id, head.value.updatedAt)
    requires head.Some? ==> Monotone(book, closeTime, head.value.id) && Readable(book, head.value.id)
    ensures head.Some? && Ideal(book, head.value.id, closeTime) == Result.Ok(Some(f))
  {
    LatestIsUpdated(book, head.value.id, head.value.updatedAt);
    MonotoneSearchIsComplete(book, head.value.id, head.value.updatedAt, closeTime);
    assert f < head.value.id && BoundaryPair(book, closeTime, f);
  }

  /** Every transaction of a pass in its place: resolves name the boundary, and a refund is sent only when
      the adapter accepts no feed round at all. */
  ghost predicate Warranted(tx: Tx, w: World, m: Market, book: Reader, rounds: seq<Round>) {
    match tx
    case ResolveTx(id, f) =>
      1 <= id <= |rounds| && ResolvesRight(w, m, id, rounds[id - 1].closeTime, book, f)
    case VoidUnsettledTx(id) =>
      && 1 <= id <= |rounds|
      && (AdapterIsStrict(w, m, id, rounds[id - 1].closeTime, book)
          && FeedInOrder(w, id, rounds[id - 1].closeTime, book)
          ==> NothingAccepted(w, id))
    case _ => true
  }

  ghost predicate AllWarranted(sent: seq<Sent>, w: World, m: Market, book: Reader, rounds: seq<Round>) {
    forall i :: 0 <= i < |sent| ==> Warranted(sent[i].tx, w, m, book, rounds)
  }

  lemma RoundIsWarranted(d: Desk, t: Terms, w: World, m: Market, id: nat, r: Round, now: nat, book: Reader,
                         rounds: seq<Round>)
    requires MemosRight(d, book, rounds) && FeedServes(w.feed(id), book)
    requires 1 <= id <= |rounds| && rounds[id - 1].closeTime == r.closeTime
    ensures
      var o := DriveRound(d, t, w, m, id, r, now);
      MemosRight(o.desk, book, rounds) && AllWarranted(o.sent, w, m, book, rounds)
  {
    hide FindSettlement, Ideal, ResolvesRight, AdapterIsStrict, FeedInOrder, NothingAccepted, FeedServes, Ready;
    var found := FindSettlement(d, w, m, id, r.closeTime);
    if m.event {
      EventsKeepNoMemo(d, w, m, id, r.closeTime);
    } else {
      SearchIsIdeal(d, w, m, id, r.closeTime, book, rounds);
    }
    if found.answer.Ok? {
      if found.answer.value.Some? {
        FoundIsTheBoundary(d, w, m, id, r.closeTime, book, rounds);
      } else if AdapterIsStrict(w, m, id, r.closeTime, book) && FeedInOrder(w, id, r.closeTime, book) {
        NothingFoundIsNothingAccepted(d, w, m, id, r.closeTime, book, rounds);
      }
    }
  }

  lemma EventsKeepNoMemo(d: Desk, w: World, m: Market, id: nat, closeTime: nat)
    requires m.event
    ensures FindSettlement(d, w, m, id, closeTime).desk == d
  {}

  lemma {:induction false} ScanIsWarranted(s: Scan, t: Terms, w: World, m: Market, now: nat, id: nat, count: nat,
                                           book: Reader, before: seq<Round>, after: seq<Round>)
    requires Serves(w, before, after) && FeedsServe(w, book) && 1 <= id && count <= |after|
    requires MemosRight(s.desk, book, after) && AllWarranted(s.sent, w, m, book, after)
    ensures
      var e := ScanFrom(s, t, w, m, now, id, count);
      MemosRight(e.desk, book, after) && AllWarranted(e.sent, w, m, book, after)
    decreases count + 1 - id
  {
    hide Serves, DriveRound, Warranted, MemoRight, FeedsServe;
    if id <= count && w.roundAt(id).Ok? {
      var r := w.roundAt(id).value;
      var latest := if id == count then r else s.latest;
      if Terminal(r) {
        var desk := if s.advance then Passed(s.desk, m.address, id) else s.desk;
        ScanIsWarranted(s.(desk := desk, latest := latest), t, w, m, now, id + 1, count, book, before, after);
      } else {
        ReadTimes(w, before, after, id);
        var one := DriveRound(s.desk, t, w, m, id, r, now);
        FeedServesAt(w, book, id);
        RoundIsWarranted(s.desk, t, w, m, id, r, now, book, after);
        ScanIsWarranted(Scan(one.desk, s.sent + one.sent, latest, false, s.complete), t, w, m, now, id + 1, count, book,
                        before, after);
      }
    }
  }

  lemma ReadTimes(w: World, before: seq<Round>, after: seq<Round>, id: nat)
    requires Serves(w, before, after) && 1 <= id <= |after| && w.roundAt(id).Ok?
    ensures after[id - 1].closeTime == w.roundAt(id).value.closeTime
  {
    assert ReadOf(w, before, after, id);
  }

  lemma FeedServesAt(w: World, book: Reader, id: nat)
    requires FeedsServe(w, book)
    ensures FeedServes(w.feed(id), book)
  {}

  lemma OpeningIsWarranted(d: Desk, t: Terms, w: World, m: Market, now: nat, book: Reader, rounds: seq<Round>)
    ensures AllWarranted(OpenRound(d, t, w, m, now).sent, w, m, book, rounds)
    ensures OpenRound(d, t, w, m, now).desk.searched == d.searched
  {
    hide SchedulePlan, ScheduleProblem, NextSchedule;
  }

  /** A pass keeps every memo right, and sends nothing unwarranted. */
  lemma PassIsWarranted(d: Desk, t: Terms, w: World, m: Market, now: nat, book: Reader, before: seq<Round>,
                        after: seq<Round>)
    requires Serves(w, before, after) && FeedsServe(w, book) && MemosRight(d, book, before)
    ensures
      var o := Drive(d, t, w, m, now);
      MemosRight(o.desk, book, after) && AllWarranted(o.sent, w, m, book, after)
  {
    hide Serves, ScanFrom, OpenRound, Warranted, MemoRight, FeedsServe;
    ServedEvolves(w, before, after);
    MemosLater(d, book, before, after);
    if w.count.Ok? {
      var start := Scan(d, [], ZERO_ROUND, true, true);
      ScanIsWarranted(start, t, w, m, now, Start(d), w.count.value, book, before, after);
      var s := ScanFrom(start, t, w, m, now, Start(d), w.count.value);
      OpeningIsWarranted(s.desk.(pending := !s.advance), t, w, m, now, book, after);
    }
  }

  // ---- Nothing left out ------------------------------------------------------------------------------

  /** The boundary of a close, as far as the feed has been published. */
  predicate BoundaryNow(w: World, id: nat, closeTime: nat, book: Reader, f: nat) {
    && w.feed(id).head.Ok? && w.feed(id).head.value.Some?
    && f < w.feed(id).head.value.value.id && BoundaryPair(book, closeTime, f)
  }

  /** What a round that is to be settled calls for: a resolve at the boundary the adapter accepts; or, when a
      refund is due and it does not accept that one, or there is none, a refund by the owner. */
  ghost predicate CallsFor(w: World, m: Market, id: nat, r: Round, now: nat, book: Reader, tx: Tx) {
    match tx
    case ResolveTx(_, f) =>
      && w.readable(id, f) == Result.Ok(true)
      && if m.event then f == 0 else BoundaryNow(w, id, r.closeTime, book, f)
    case VoidUnsettledTx(_) =>
      && ActionFor(r, m.timing, now).RefundUnsettled? && w.owned(id) == Result.Ok(true)
      && if m.event then w.readable(id, 0) == Result.Ok(false)
         else forall f: nat :: BoundaryNow(w, id, r.closeTime, book, f) ==> w.readable(id, f) == Result.Ok(false)
    case _ => false
  }

  /** A round to be settled that is off backoff, on a feed that answers and is in order at its close. */
  ghost predicate Settleable(d: Desk, w: World, m: Market, id: nat, r: Round, now: nat, book: Reader) {
    var a := ActionFor(r, m.timing, now);
    && (a.ResolveIt? || a.RefundUnsettled?) && Ready(d, Key(m.address, id, a), w.wall)
    && (m.event || (w.feed(id).head.Ok? && AllRead(w.feed(id)) && FeedInOrder(w, id, r.closeTime, book)))
  }

  lemma RoundIsSettled(d: Desk, t: Terms, w: World, m: Market, id: nat, r: Round, now: nat, book: Reader,
                       rounds: seq<Round>, tx: Tx)
    requires MemosRight(d, book, rounds) && FeedServes(w.feed(id), book)
    requires 1 <= id <= |rounds| && rounds[id - 1].closeTime == r.closeTime
    requires Settleable(d, w, m, id, r, now, book) && CallsFor(w, m, id, r, now, book, tx) && RoundIn(tx) == id
    ensures
      var sent := DriveRound(d, t, w, m, id, r, now).sent;
      |sent| == 1 && sent[0].tx == tx
  {
    if !m.event {
      hide FindSettlement, Monotone, Readable, Ideal, BoundaryPair;
      FoundIsIdeal(d, w, m, id, r.closeTime, book, rounds);
      if w.feed(id).head.value.Some? { IdealIsTheBoundary(w, id, r.closeTime, book); }
    }
  }

  lemma IdealIsTheBoundary(w: World, id: nat, closeTime: nat, book: Reader)
    requires FeedServes(w.feed(id), book) && FeedInOrder(w, id, closeTime, book)
    requires w.feed(id).head.Ok? && w.feed(id).head.value.Some?
    ensures
      var ideal := Ideal(book, w.feed(id).head.value.value.id, closeTime);
      && ideal.Ok?
      && (forall f: nat :: ideal.value == Some(f) <==> BoundaryNow(w, id, closeTime, book, f))
  {
    hide CloseRoundFrom;
    var head := w.feed(id).head.value.value;
    LatestIsUpdated(book, head.id, head.updatedAt);
    MonotoneSearchIsComplete(book, head.id, head.updatedAt, closeTime);
  }

  lemma {:induction false} ScanSettles(s: Scan, t: Terms, w: World, m: Market, now: nat, id: nat, count: nat,
                                       target: nat, book: Reader, before: seq<Round>, after: seq<Round>, tx: Tx)
    requires Serves(w, before, after) && FeedsServe(w, book) && MemosRight(s.desk, book, after)
    requires 1 <= id <= target <= count <= |after| && Answered(w, id, target) && RoundIn(tx) == target
    requires Settleable(s.desk, w, m, target, w.roundAt(target).value, now, book)
    requires CallsFor(w, m, target, w.roundAt(target).value, now, book, tx)
    ensures IsSent(ScanFrom(s, t, w, m, now, id, count).sent, tx)
    decreases target - id
  {
    hide DriveRound, Serves, FeedsServe, MemoRight, CallsFor, ActionFor, AllRead, FeedInOrder, Ready;
    var r := w.roundAt(id).value;
    var key := Key(m.address, target, ActionFor(w.roundAt(target).value, m.timing, now));
    var latest := if id == count then r else s.latest;
    var one := DriveRound(s.desk, t, w, m, id, r, now);
    var next := Scan(one.desk, s.sent + one.sent, latest, false, s.complete);
    ReadTimes(w, before, after, id);
    FeedServesAt(w, book, id);
    if id == target {
      TerminalNeedsNothing(r, m, now);
      RoundIsSettled(s.desk, t, w, m, id, r, now, book, after, tx);
      ScanOnlyAdds(next, t, w, m, now, id + 1, count);
      assert next.sent[|s.sent|] == one.sent[0];
    } else if Terminal(r) {
      var desk := if s.advance then Passed(s.desk, m.address, id) else s.desk;
      PassingKeepsReady(s.desk, w, m.address, id, key);
      ScanSettles(s.(desk := desk, latest := latest), t, w, m, now, id + 1, count, target, book, before, after, tx);
    } else {
      OtherBackoffsStay(s.desk, t, w, m, id, r, now, key);
      RoundIsWarranted(s.desk, t, w, m, id, r, now, book, after);
      ScanSettles(next, t, w, m, now, id + 1, count, target, book, before, after, tx);
    }
  }

  lemma TerminalNeedsNothing(r: Round, m: Market, now: nat)
    ensures Terminal(r) ==> ActionFor(r, m.timing, now).NoAction?
  {}

  lemma PassingKeepsReady(d: Desk, w: World, a: Address, id: nat, key: Key)
    requires Ready(d, key, w.wall)
    ensures Ready(Passed(d, a, id), key, w.wall)
  {}

  lemma PassSettles(d: Desk, t: Terms, w: World, m: Market, now: nat, target: nat, book: Reader,
                    before: seq<Round>, after: seq<Round>, tx: Tx)
    requires Serves(w, before, after) && FeedsServe(w, book) && MemosRight(d, book, before)
    requires w.count.Ok? && Start(d) <= target <= w.count.value && Answered(w, Start(d), target)
    requires Settleable(d, w, m, target, w.roundAt(target).value, now, book) && RoundIn(tx) == target
    requires CallsFor(w, m, target, w.roundAt(target).value, now, book, tx)
    ensures IsSent(Drive(d, t, w, m, now).sent, tx)
  {
    hide ScanFrom, OpenRound, Settleable, CallsFor, MemoRight, FeedsServe;
    ServedEvolves(w, before, after);
    MemosLater(d, book, before, after);
    var start := Scan(d, [], ZERO_ROUND, true, true);
    ScanSettles(start, t, w, m, now, Start(d), w.count.value, target, book, before, after, tx);
    var sent, all := ScanFrom(start, t, w, m, now, Start(d), w.count.value).sent, Drive(d, t, w, m, now).sent;
    var i :| 0 <= i < |sent| && sent[i].tx == tx;
    assert sent <= all && all[i].tx == tx;
  }

  // ---- Over whole runs -------------------------------------------------------------------------------

  ghost predicate FeedsServeRun(run: seq<Step>, book: Reader) {
    forall i :: 0 <= i < |run| && run[i].event.Ticked? ==> FeedsServe(run[i].event.world, book)
  }

  predicate SeatMemosRight(seat: Seat, book: Reader, rounds: seq<Round>) {
    seat.Driven? ==> MemosRight(seat.desk, book, rounds)
  }

  lemma StepKeepsMemos(x: Watch, s: Step, m: Market, book: Reader)
    requires Possible(x.rounds, s) && SeatMemosRight(x.seat, book, x.rounds)
    requires s.event.Ticked? ==> FeedsServe(s.event.world, book)
    ensures SeatMemosRight(SeatAfter(x.seat, s.event, m), book, s.after)
    ensures s.event.Ticked? ==> AllWarranted(SentBy(x.seat, s.event, m), s.event.world, m, book, s.after)
  {
    hide Serves, Drive, Warranted, MemoRight, FeedsServe, Evolves;
    if x.seat.Driven? {
      if s.event.Ticked? {
        PassIsWarranted(x.seat.desk, s.event.terms, s.event.world, m, s.event.now, book, x.rounds, s.after);
      } else {
        MemosLater(x.seat.desk, book, x.rounds, s.after);
      }
    }
  }

  lemma {:induction false} EveryRunKeepsMemos(x: Watch, run: seq<Step>, m: Market, book: Reader)
    requires SeatMemosRight(x.seat, book, x.rounds) && PossibleRun(x.rounds, run) && FeedsServeRun(run, book)
    ensures SeatMemosRight(WatchRun(x, run, m).seat, book, WatchRun(x, run, m).rounds)
    decreases |run|
  {
    hide SeatMemosRight, Possible, FeedsServe, SeatAfter;
    if run != [] {
      StepKeepsMemos(x, run[0], m, book);
      RoundsFollow(x, run[0], m);
      assert FeedsServeRun(run[1..], book) by {
        forall i | 0 <= i < |run| - 1 ensures run[1..][i] == run[i + 1] {}
      }
      EveryRunKeepsMemos(WatchAfter(x, run[0], m), run[1..], m, book);
    }
  }

  /** In every reachable state, over any feed that only appends: the remembered search is the one a fresh
      search would make at the feed's head. */
  lemma ReachableMemosAgree(x: Watch, run: seq<Step>, m: Market, book: Reader, w: World, id: nat)
    requires Fresh(x) && PossibleRun(x.rounds, run) && FeedsServeRun(run, book)
    requires WatchRun(x, run, m).seat.Driven? && 1 <= id <= |WatchRun(x, run, m).rounds|
    requires FeedServes(w.feed(id), book) && AllRead(w.feed(id))
    ensures
      var d, closeTime := WatchRun(x, run, m).seat.desk, WatchRun(x, run, m).rounds[id - 1].closeTime;
      FindSettlement(d, w, m, id, closeTime).answer == FindSettlement(d.(searched := map[]), w, m, id, closeTime).answer
  {
    EveryRunKeepsMemos(x, run, m, book);
    MemoAgrees(WatchRun(x, run, m).seat.desk, w, m, id, WatchRun(x, run, m).rounds[id - 1].closeTime, book,
               WatchRun(x, run, m).rounds);
  }

  /** And every transaction of the next poll is warranted: a round is resolved at the boundary of its
      close, and refunded as unsettled only if the adapter accepts no feed round at that moment. */
  lemma ReachablePollsAreWarranted(x: Watch, run: seq<Step>, s: Step, m: Market, book: Reader)
    requires Fresh(x) && PossibleRun(x.rounds, run) && FeedsServeRun(run, book)
    requires Possible(WatchRun(x, run, m).rounds, s) && s.event.Ticked? && FeedsServe(s.event.world, book)
    ensures AllWarranted(SentBy(WatchRun(x, run, m).seat, s.event, m), s.event.world, m, book, s.after)
  {
    EveryRunKeepsMemos(x, run, m, book);
    StepKeepsMemos(WatchRun(x, run, m), s, m, book);
  }

  /** Nor is anything left unsettled: whatever a round that is off backoff calls for is sent by the next poll
      that reaches it. */
  lemma ReachablePollsSettle(x: Watch, run: seq<Step>, s: Step, m: Market, book: Reader, target: nat, tx: Tx)
    requires Fresh(x) && PossibleRun(x.rounds, run) && FeedsServeRun(run, book)
    requires Possible(WatchRun(x, run, m).rounds, s) && s.event.Ticked? && FeedsServe(s.event.world, book)
    requires WatchRun(x, run, m).seat.Driven? && s.event.world.count.Ok?
    requires Start(WatchRun(x, run, m).seat.desk) <= target <= s.event.world.count.value
    requires Answered(s.event.world, Start(WatchRun(x, run, m).seat.desk), target)
    requires
      var w, r := s.event.world, s.event.world.roundAt(target).value;
      && Settleable(WatchRun(x, run, m).seat.desk, w, m, target, r, s.event.now, book)
      && CallsFor(w, m, target, r, s.event.now, book, tx) && RoundIn(tx) == target
    ensures IsSent(SentBy(WatchRun(x, run, m).seat, s.event, m), tx)
  {
    hide Drive, Settleable, CallsFor, Serves, MemoRight, FeedsServe;
    EveryRunKeepsMemos(x, run, m, book);
    var before := WatchRun(x, run, m);
    PassSettles(before.seat.desk, s.event.terms, s.event.world, m, s.event.now, target, book, before.rounds, s.after,
                tx);
  }
}
