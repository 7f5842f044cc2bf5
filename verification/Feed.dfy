/** The settlement search (keeper/feed.go): a binary search over a sparse price feed, for the round
    whose price was still the newest at a close. */
module Feed {
  import opened FixedPoint

  /** One read of a feed round. `NoData` is an answer; `ReadFailed` is the question not asked. */
  datatype Read = Data(updatedAt: nat) | NoData | ReadFailed

  type Reader = nat -> Read

  datatype Result<+T> = Ok(value: T) | Err

  /** What the search looks for the end of: ids that are empty, or dated no later than the close. */
  predicate Holds(read: Reader, closeTime: nat, id: nat) {
    read(id).NoData? || (read(id).Data? && read(id).updatedAt <= closeTime)
  }

  /** What the loop converges to from (lo, hi], failing on the first unreadable round it meets. */
  function Search(read: Reader, closeTime: nat, lo: nat, hi: nat): Result<nat>
    requires lo < hi
    decreases hi - lo
  {
    if hi - lo <= 1 then Ok(lo)
    else
      var mid := lo + (hi - lo) / 2;
      if read(mid).ReadFailed? then Err
      else if Holds(read, closeTime, mid) then Search(read, closeTime, mid, hi)
      else Search(read, closeTime, lo, mid)
  }

  /** FindCloseRoundFrom as a function; None is the source's nil. */
  function CloseRoundFrom(read: Reader, latestID: Option<nat>, latest: Option<nat>,
                          closeTime: nat): Result<Option<nat>> {
    if latestID.None? || latestID.value == 0 then Ok(None)
    else if latest.None? || latest.value <= closeTime then Ok(None)
    else
      match Search(read, closeTime, 0, latestID.value)
      case Err => Err
      case Ok(lo) =>
        if lo == 0 then Ok(None)
        else match read(lo)
          case ReadFailed => Err
          case NoData => Ok(None)
          case Data(_) => Ok(Some(lo))
  }

  function Pow2(k: nat): (p: nat)
    ensures p > 0
  {
    if k == 0 then 1 else 2 * Pow2(k - 1)
  }

  /** After `asked` halvings of n a gap is left, whichever power of two covers n. */
  ghost predicate Halving(n: nat, asked: nat, gap: nat) {
    forall k: nat :: n <= Pow2(k) ==> asked <= k && gap <= Pow2(k - asked)
  }

  lemma HalvingGoesOn(n: nat, asked: nat, gap: nat)
    requires Halving(n, asked, gap) && gap > 1
    ensures Halving(n, asked + 1, gap / 2) && Halving(n, asked + 1, gap - gap / 2)
  {
    forall k: nat | n <= Pow2(k)
      ensures asked + 1 <= k && gap - gap / 2 <= Pow2(k - asked - 1)
    {
      assert gap <= Pow2(k - asked);
    }
  }

  /** The search as the source runs it, counting its reads: at most ceil(log2(latestID)) in the
      loop and one more for the candidate. */
  method FindCloseRoundFrom(read: Reader, latestID: Option<nat>, latest: Option<nat>, closeTime: nat)
    returns (answer: Result<Option<nat>>, asked: nat)
    ensures answer == CloseRoundFrom(read, latestID, latest, closeTime)
    ensures latestID.None? ==> asked == 0
    ensures latestID.Some? ==> forall k: nat :: latestID.value <= Pow2(k) ==> asked <= k + 1
  {
    hide Pow2;
    asked := 0;
    if latestID.None? || latestID.value == 0 {
      return Ok(None), asked;
    }
    if latest.None? || latest.value <= closeTime {
      return Ok(None), asked;
    }
    var lo, hi := 0, latestID.value;
    while hi - lo > 1
      invariant 0 <= lo < hi <= latestID.value
      invariant Search(read, closeTime, 0, latestID.value) == Search(read, closeTime, lo, hi)
      invariant Halving(latestID.value, asked, hi - lo)
    {
      HalvingGoesOn(latestID.value, asked, hi - lo);
      var mid := lo + (hi - lo) / 2;
      asked := asked + 1;
      if read(mid).ReadFailed? {
        return Err, asked;
      }
      if Holds(read, closeTime, mid) {
        lo := mid;
      } else {
        hi := mid;
      }
    }
    if lo == 0 {
      return Ok(None), asked;
    }
    asked := asked + 1;
    match read(lo)
    case ReadFailed => answer := Err;
    case NoData => answer := Ok(None);
    case Data(_) => answer := Ok(Some(lo));
  }

  /** The entry point for a caller that has not read the newest round yet. */
  method FindCloseRound(read: Reader, latestID: Option<nat>, closeTime: nat) returns (answer: Result<Option<nat>>)
    ensures latestID.None? || latestID.value == 0 ==> answer == Ok(None)
    ensures latestID.Some? && latestID.value > 0 ==>
      answer == match read(latestID.value)
                case ReadFailed => Err
                case NoData => Ok(None)
                case Data(u) => CloseRoundFrom(read, latestID, Some(u), closeTime)
  {
    if latestID.None? || latestID.value == 0 {
      return Ok(None);
    }
    var first := read(latestID.value);
    if first.ReadFailed? {
      return Err;
    }
    var latest := if first.Data? then Some(first.updatedAt) else None;
    var asked;
    answer, asked := FindCloseRoundFrom(read, latestID, latest, closeTime);
  }

  // ---- What an answer is worth ---------------------------------------------------------------

  /** What the settlement adapter verifies: the close falls between the round's date, inclusive, and its
      successor's. */
  predicate BoundaryPair(read: Reader, closeTime: nat, id: nat) {
    && id > 0
    && read(id).Data? && read(id).updatedAt <= closeTime
    && read(id + 1).Data? && read(id + 1).updatedAt > closeTime
  }

  /** `latest` is what reading `latestID` gives. */
  predicate LatestRead(read: Reader, latestID: nat, latest: Option<nat>) {
    read(latestID) == if latest.Some? then Data(latest.value) else NoData
  }

  /** The loop ends where `Holds` gives over, on any feed at all. */
  lemma {:induction false} SearchEndsOnAHandOver(read: Reader, closeTime: nat, lo: nat, hi: nat)
    requires lo < hi
    requires lo == 0 || Holds(read, closeTime, lo)
    requires read(hi).Data? && read(hi).updatedAt > closeTime
    requires Search(read, closeTime, lo, hi).Ok?
    ensures
      var r := Search(read, closeTime, lo, hi).value;
      && lo <= r < hi
      && (r == 0 || Holds(read, closeTime, r))
      && read(r + 1).Data? && read(r + 1).updatedAt > closeTime
    decreases hi - lo
  {
    if hi - lo > 1 {
      var mid := lo + (hi - lo) / 2;
      if Holds(read, closeTime, mid) {
        SearchEndsOnAHandOver(read, closeTime, mid, hi);
      } else {
        SearchEndsOnAHandOver(read, closeTime, lo, mid);
      }
    }
  }

  /** A returned round is a boundary pair below the head, monotone feed or not. */
  lemma AnswerIsABoundaryPair(read: Reader, latestID: nat, latest: Option<nat>, closeTime: nat)
    requires LatestRead(read, latestID, latest)
    requires CloseRoundFrom(read, Some(latestID), latest, closeTime).Ok?
    requires CloseRoundFrom(read, Some(latestID), latest, closeTime).value.Some?
    ensures
      var id := CloseRoundFrom(read, Some(latestID), latest, closeTime).value.value;
      id < latestID && BoundaryPair(read, closeTime, id)
  {
    SearchEndsOnAHandOver(read, closeTime, 0, latestID);
  }

  /** `Holds` is true below every id it is true at. */
  predicate Monotone(read: Reader, closeTime: nat, upTo: nat) {
    forall i, j :: 1 <= i < j <= upTo && Holds(read, closeTime, j) ==> Holds(read, closeTime, i)
  }

  predicate Readable(read: Reader, upTo: nat) {
    forall i :: 1 <= i <= upTo ==> !read(i).ReadFailed?
  }

  /** A feed whose empty ids all lie below its first round and whose timestamps never go back is
      monotone at every close. */
  lemma OrderlyFeedsAreMonotone(read: Reader, first: nat, upTo: nat, closeTime: nat)
    requires forall i :: 1 <= i <= upTo ==> if i < first then read(i).NoData? else read(i).Data?
    requires forall i, j :: first <= i < j <= upTo && 1 <= i && read(i).Data? && read(j).Data?
               ==> read(i).updatedAt <= read(j).updatedAt
    ensures Monotone(read, closeTime, upTo) && Readable(read, upTo)
  {}

  lemma {:induction false} SearchReads(read: Reader, closeTime: nat, lo: nat, hi: nat)
    requires lo < hi && Readable(read, hi)
    ensures Search(read, closeTime, lo, hi).Ok?
    decreases hi - lo
  {
    if hi - lo > 1 {
      var mid := lo + (hi - lo) / 2;
      if Holds(read, closeTime, mid) { SearchReads(read, closeTime, mid, hi); }
      else { SearchReads(read, closeTime, lo, mid); }
    }
  }

  lemma HandOversMeet(read: Reader, closeTime: nat, upTo: nat, id: nat, r: nat)
    requires Monotone(read, closeTime, upTo)
    requires 0 < id < upTo && Holds(read, closeTime, id) && !Holds(read, closeTime, id + 1)
    requires r < upTo && (r == 0 || Holds(read, closeTime, r)) && !Holds(read, closeTime, r + 1)
    ensures id == r
  {}

  /** On a readable, monotone feed the search decides the question: it returns an id exactly when
      that id is a boundary pair below the head, and nil exactly when there is none. */
  lemma MonotoneSearchIsComplete(read: Reader, latestID: nat, latest: Option<nat>, closeTime: nat)
    requires LatestRead(read, latestID, latest)
    requires Monotone(read, closeTime, latestID) && Readable(read, latestID)
    ensures CloseRoundFrom(read, Some(latestID), latest, closeTime).Ok?
    ensures
      var answer := CloseRoundFrom(read, Some(latestID), latest, closeTime).value;
      && (forall id: nat :: answer == Some(id) <==> id < latestID && BoundaryPair(read, closeTime, id))
      && (answer.None? <==> forall id: nat :: id < latestID ==> !BoundaryPair(read, closeTime, id))
  {
    var result := CloseRoundFrom(read, Some(latestID), latest, closeTime);
    if latestID > 0 && latest.Some? && latest.value > closeTime {
      SearchReads(read, closeTime, 0, latestID);
      SearchEndsOnAHandOver(read, closeTime, 0, latestID);
      var r := Search(read, closeTime, 0, latestID).value;
      assert result.Ok?;
      forall id: nat | 0 < id < latestID && BoundaryPair(read, closeTime, id)
        ensures id == r && result.value == Some(id)
      {
        HandOversMeet(read, closeTime, latestID, id, r);
      }
      if result.value.Some? { AnswerIsABoundaryPair(read, latestID, latest, closeTime); }
    } else {
      assert result == Ok(None);
      forall id: nat | 0 < id < latestID
        ensures !BoundaryPair(read, closeTime, id)
      {
        assert Holds(read, closeTime, latestID);
        assert id + 1 < latestID ==> Holds(read, closeTime, id + 1);
      }
    }
  }

  /** The search reads nothing above the head it was given. */
  lemma {:induction false} SearchReadsBelowTheHead(read: Reader, read': Reader, closeTime: nat, lo: nat, hi: nat)
    requires lo < hi
    requires forall i :: 0 < i < hi ==> read(i) == read'(i)
    ensures Search(read, closeTime, lo, hi) == Search(read', closeTime, lo, hi)
    decreases hi - lo
  {
    if hi - lo > 1 {
      var mid := lo + (hi - lo) / 2;
      SearchReadsBelowTheHead(read, read', closeTime, mid, hi);
      SearchReadsBelowTheHead(read, read', closeTime, lo, mid);
    }
  }

  lemma AnswerDependsOnTheHeadOnly(read: Reader, read': Reader, latestID: nat, latest: Option<nat>, closeTime: nat)
    requires forall i :: 0 < i < latestID ==> read(i) == read'(i)
    ensures CloseRoundFrom(read, Some(latestID), latest, closeTime)
         == CloseRoundFrom(read', Some(latestID), latest, closeTime)
  {
    if latestID > 0 && latest.Some? && latest.value > closeTime {
      SearchReadsBelowTheHead(read, read', closeTime, 0, latestID);
      if Search(read, closeTime, 0, latestID).Ok? { SearchStaysBelow(read, closeTime, 0, latestID); }
    }
  }

  lemma {:induction false} SearchStaysBelow(read: Reader, closeTime: nat, lo: nat, hi: nat)
    requires lo < hi && Search(read, closeTime, lo, hi).Ok?
    ensures lo <= Search(read, closeTime, lo, hi).value < hi
    decreases hi - lo
  {
    if hi - lo > 1 {
      var mid := lo + (hi - lo) / 2;
      if Holds(read, closeTime, mid) { SearchStaysBelow(read, closeTime, mid, hi); }
      else { SearchStaysBelow(read, closeTime, lo, mid); }
    }
  }
}
