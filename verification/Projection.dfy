/** Folding round events into rounds and into one account's positions (ledger/rounds.go). */
module Projection {
  import opened FixedPoint
  import opened Decimal
  import opened Ledger
  import opened Sorting
  import Parimutuel

  datatype Lifecycle = QuestionOpen | QuestionProposed | QuestionChallenged | QuestionFinal | QuestionAbandoned

  /** Times are unix seconds, None for the zero time. */
  datatype QuestionState = QuestionState(
    oracle: string, state: Lifecycle, outcome: string,
    proposer: Address, proposedAt: Option<int>, evidenceURI: string, evidenceDigest: string,
    proposerStake: Option<int>, challengeClosesAt: Option<int>,
    challenger: Address, challengedAt: Option<int>, rulingDueAt: Option<int>,
    arbiter: Address, ruledAt: Option<int>, reasonURI: string, paidTo: string,
    abandonedAt: Option<int>)

  const NEW_QUESTION := QuestionState("", QuestionOpen, "", "", None, "", "", None, None, "", None, None, "", None, "",
                                      "", None)

  datatype Round = Round(
    market: Address, roundID: nat, status: Parimutuel.Status,
    openTime: Option<int>, lockTime: Option<int>, closeTime: Option<int>,
    upPool: nat, downPool: nat,
    lockPrice: Option<int>, closePrice: Option<int>,
    winner: string, rakeTaken: Option<int>, voidReason: string,
    question: Option<QuestionState>,
    lastBlock: nat)

  function NewRound(ref: RoundRef): Round {
    Round(ref.market, ref.roundID, Parimutuel.Unset, None, None, None, 0, 0, None, None, "", None, "", None, 0)
  }

  /** A missing key reads as the empty string. */
  function Text(data: map<Field, string>, key: Field): string {
    if key in data then data[key] else ""
  }

  /** big.Int.SetString(s, 10): an optional sign and at least one digit. */
  function BigField(data: map<Field, string>, key: Field): Option<int> {
    var s := Text(data, key);
    var signed := s != [] && (s[0] == '-' || s[0] == '+');
    var magnitude := ParseDigits(if signed then s[1..] else s);
    if magnitude.None? then None
    else
      var m: int := magnitude.value;
      Some(if signed && s[0] == '-' then -m else m)
  }

  function UnixField(data: map<Field, string>, key: Field): Option<int> {
    BigField(data, key)
  }

  function Question(r: Round): QuestionState {
    r.question.GetOr(NEW_QUESTION)
  }

  function ApplyRoundEvent(r: Round, e: RoundEvent): Round {
    var data := e.body.data;
    match e.prov.eventName
    case RoundOpened =>
      r.(status := Parimutuel.Open, openTime := UnixField(data, OpenTime),
         lockTime := UnixField(data, LockTime), closeTime := UnixField(data, CloseTime))
    case PositionTaken =>
      if e.body.amount.None? then r
      else (match e.body.side
            case Up => r.(upPool := r.upPool + e.body.amount.value)
            case Down => r.(downPool := r.downPool + e.body.amount.value)
            case NoSide => r)
    case RoundStrikeSet => r.(lockPrice := BigField(data, StrikePrice))
    case RoundLocked => r.(status := Parimutuel.Locked, lockPrice := BigField(data, LockPrice))
    case RoundResolved =>
      r.(status := Parimutuel.Resolved, closePrice := BigField(data, ClosePrice),
         winner := Text(data, Winner), rakeTaken := BigField(data, RakeTaken))
    case RoundVoided => r.(status := Parimutuel.Void, voidReason := Text(data, Reason))
    case MarketSet => r.(question := Some(Question(r).(oracle := Text(data, OracleField))))
    case Proposed =>
      r.(question := Some(Question(r).(
        state := QuestionProposed, proposer := e.body.account, outcome := Text(data, OutcomeField),
        evidenceURI := Text(data, EvidenceURI), evidenceDigest := Text(data, EvidenceDigest),
        proposerStake := BigField(data, ProposerStake),
        challengeClosesAt := UnixField(data, ChallengeClosesAt), proposedAt := Some(e.prov.blockTime))))
    case Challenged =>
      r.(question := Some(Question(r).(
        state := QuestionChallenged, challenger := e.body.account,
        rulingDueAt := UnixField(data, RulingDueAt), challengedAt := Some(e.prov.blockTime))))
    case Ruled =>
      r.(question := Some(Question(r).(
        arbiter := e.body.account, outcome := Text(data, OutcomeField), reasonURI := Text(data, ReasonURI),
        paidTo := Text(data, Paid), ruledAt := Some(e.prov.blockTime))))
    case Finalised =>
      r.(question := Some(Question(r).(state := QuestionFinal, outcome := Text(data, OutcomeField))))
    case Abandoned =>
      r.(question := Some(Question(r).(state := QuestionAbandoned, abandonedAt := UnixField(data, At))))
    case _ => r
  }

  function LogCoord(e: RoundEvent): Coord {
    Coord(e.prov.blockNumber, e.prov.logIndex, 0)
  }

  /** One event folded into its round, creating it on first sight. */
  function Absorb(r: Option<Round>, e: RoundEvent): Round {
    var r := r.GetOr(NewRound(RefOf(e)));
    ApplyRoundEvent(if e.prov.blockNumber > r.lastBlock then r.(lastBlock := e.prov.blockNumber) else r, e)
  }

  /** One round's fold, from what it was so far. */
  function FoldRound(r: Option<Round>, ref: RoundRef, events: seq<RoundEvent>): Option<Round>
    decreases |events|
  {
    if events == [] then r
    else FoldRound(if RefOf(events[0]) == ref then Some(Absorb(r, events[0])) else r, ref, events[1..])
  }

  /** The rounds named, in order of first appearance, after those already seen. */
  function RefsFrom(seen: seq<RoundRef>, events: seq<RoundEvent>): seq<RoundRef>
    decreases |events|
  {
    if events == [] then seen
    else RefsFrom(if RefOf(events[0]) in seen then seen else seen + [RefOf(events[0])], events[1..])
  }

  /** What the events say about one round. */
  function RoundOf(ref: RoundRef, events: seq<RoundEvent>): Option<Round> {
    FoldRound(None, ref, Sort(LogCoord, events))
  }

  function RefsOf(events: seq<RoundEvent>): seq<RoundRef> {
    RefsFrom([], Sort(LogCoord, events))
  }

  function Lookup<T>(m: map<RoundRef, T>, ref: RoundRef): Option<T> {
    if ref in m then Some(m[ref]) else None
  }

  /** `rounds` lists each round the events name, once, in order of its first log. */
  ghost predicate Projects(events: seq<RoundEvent>, rounds: seq<Round>) {
    && |rounds| == |RefsOf(events)|
    && forall k :: 0 <= k < |rounds| ==> RoundOf(RefsOf(events)[k], events) == Some(rounds[k])
  }

  method Project(events: seq<RoundEvent>) returns (out: seq<Round>)
    ensures Projects(events, out)
  {
    var sorted := Sort(LogCoord, events);
    var byRef: map<RoundRef, Round> := map[];
    var order: seq<RoundRef> := [];
    var i := 0;
    while i < |sorted|
      invariant 0 <= i <= |sorted|
      invariant forall ref :: ref in byRef <==> ref in order
      invariant RefsFrom(order, sorted[i..]) == RefsFrom([], sorted)
      invariant forall ref :: FoldRound(Lookup(byRef, ref), ref, sorted[i..]) == FoldRound(None, ref, sorted)
    {
      var e := sorted[i];
      var ref := RefOf(e);
      assert sorted[i..][1..] == sorted[i + 1..];
      ghost var before := byRef;
      if ref !in byRef {
        byRef := byRef[ref := NewRound(ref)];
        order := order + [ref];
      }
      var r := byRef[ref];
      if e.prov.blockNumber > r.lastBlock {
        r := r.(lastBlock := e.prov.blockNumber);
      }
      byRef := byRef[ref := ApplyRoundEvent(r, e)];
      assert byRef[ref] == Absorb(Lookup(before, ref), e);
      assert forall other :: other != ref ==> Lookup(byRef, other) == Lookup(before, other);
      i := i + 1;
    }
    assert sorted[i..] == [];
    out := [];
    for k := 0 to |order|
      invariant |out| == k
      invariant forall n :: 0 <= n < k ==> Lookup(byRef, order[n]) == Some(out[n])
    {
      out := out + [byRef[order[k]]];
    }
    forall k | 0 <= k < |out|
      ensures RoundOf(RefsOf(events)[k], events) == Some(out[k])
    {
      assert FoldRound(Lookup(byRef, order[k]), order[k], []) == Lookup(byRef, order[k]);
    }
  }

  // ---- One account's positions -------------------------------------------------------------

  datatype AccountPosition = AccountPosition(
    market: Address, roundID: nat, account: Address,
    upStake: nat, downStake: nat,
    claimed: bool, claimedAmount: nat, leveraged: bool,
    openedAt: int, lastTime: int, lastBlock: nat)

  /** A position and whether anything was staked in it, which is what makes it one. */
  datatype Involvement = Involvement(position: AccountPosition, staked: bool)

  function NewInvolvement(account: Address, e: RoundEvent): Involvement {
    Involvement(AccountPosition(e.body.market, e.body.roundID, account, 0, 0, false, 0, false,
                                e.prov.blockTime, e.prov.blockTime, 0), false)
  }

  function ApplyPositionEvent(i: Involvement, account: Address, e: RoundEvent): Involvement {
    var p := i.position;
    match e.prov.eventName
    case PositionTaken =>
      if e.body.amount.None? then i
      else
        var amount := e.body.amount.value;
        var funder := Text(e.body.data, Funder);
        Involvement(
          p.(upStake := p.upStake + (if e.body.side.Up? then amount else 0),
             downStake := p.downStake + (if e.body.side.Down? then amount else 0),
             leveraged := p.leveraged || (funder != "" && funder != account)),
          true)
    case Claimed =>
      i.(position := p.(claimed := true, claimedAmount := p.claimedAmount + e.body.amount.GetOr(0)))
    case _ => i
  }

  function Touch(i: Option<Involvement>, account: Address, e: RoundEvent): Involvement {
    var i := i.GetOr(NewInvolvement(account, e));
    var p := i.position;
    ApplyPositionEvent(
      i.(position := p.(lastTime := e.prov.blockTime,
                        lastBlock := if e.prov.blockNumber > p.lastBlock then e.prov.blockNumber else p.lastBlock)),
      account, e)
  }

  function FoldPosition(i: Option<Involvement>, account: Address, ref: RoundRef,
                        events: seq<RoundEvent>): Option<Involvement>
    decreases |events|
  {
    if events == [] then i
    else FoldPosition(if RefOf(events[0]) == ref then Some(Touch(i, account, events[0])) else i,
                      account, ref, events[1..])
  }

  function Naming(account: Address): RoundEvent -> bool {
    (e: RoundEvent) => e.body.account == account && account != ""
  }

  /** The account's position in one round, if it staked anything there. */
  function PositionOf(account: Address, ref: RoundRef, events: seq<RoundEvent>): Option<AccountPosition> {
    var i := FoldPosition(None, account, ref, Sort(LogCoord, Filter(Naming(account), events)));
    if i.Some? && i.value.staked then Some(i.value.position) else None
  }

  /** The positions as a map; the order of the source's list is not part of this model. */
  method ProjectPositions(events: seq<RoundEvent>, account: Address) returns (out: map<RoundRef, AccountPosition>)
    ensures forall ref :: Lookup(out, ref) == PositionOf(account, ref, events)
  {
    var sorted := Sort(LogCoord, Filter(Naming(account), events));
    var byRef: map<RoundRef, AccountPosition> := map[];
    var staked: set<RoundRef> := {};
    var order: seq<RoundRef> := [];
    var i := 0;
    while i < |sorted|
      invariant 0 <= i <= |sorted|
      invariant forall ref :: ref in byRef <==> ref in order
      invariant staked <= byRef.Keys
      invariant forall ref :: FoldPosition(Involved(byRef, staked, ref), account, ref, sorted[i..])
                           == FoldPosition(None, account, ref, sorted)
    {
      var e := sorted[i];
      var ref := RefOf(e);
      assert sorted[i..][1..] == sorted[i + 1..];
      ghost var byRef0, staked0 := byRef, staked;
      if ref !in byRef {
        byRef := byRef[ref := NewInvolvement(account, e).position];
        order := order + [ref];
      }
      var p := byRef[ref];
      p := p.(lastTime := e.prov.blockTime);
      if e.prov.blockNumber > p.lastBlock {
        p := p.(lastBlock := e.prov.blockNumber);
      }
      var applied := ApplyPositionEvent(Involvement(p, ref in staked), account, e);
      byRef := byRef[ref := applied.position];
      if applied.staked {
        staked := staked + {ref};
      }
      OneTouched(byRef0, staked0, byRef, staked, account, e, sorted[i..]);
      i := i + 1;
    }
    assert sorted[i..] == [];
    out := map ref | ref in byRef && ref in staked :: byRef[ref];
    forall ref
      ensures Lookup(out, ref) == PositionOf(account, ref, events)
    {
      assert FoldPosition(Involved(byRef, staked, ref), account, ref, []) == Involved(byRef, staked, ref);
    }
  }

  function Involved(byRef: map<RoundRef, AccountPosition>, staked: set<RoundRef>, ref: RoundRef): Option<Involvement> {
    if ref in byRef then Some(Involvement(byRef[ref], ref in staked)) else None
  }

  /** One turn of the loop is one turn of every fold. */
  lemma OneTouched(byRef: map<RoundRef, AccountPosition>, staked: set<RoundRef>,
                   byRef': map<RoundRef, AccountPosition>, staked': set<RoundRef>,
                   account: Address, e: RoundEvent, rest: seq<RoundEvent>)
    requires rest != [] && rest[0] == e
    requires Involved(byRef', staked', RefOf(e)) == Some(Touch(Involved(byRef, staked, RefOf(e)), account, e))
    requires forall other :: other != RefOf(e) ==> Involved(byRef', staked', other) == Involved(byRef, staked, other)
    ensures forall ref :: FoldPosition(Involved(byRef', staked', ref), account, ref, rest[1..])
                       == FoldPosition(Involved(byRef, staked, ref), account, ref, rest)
  {}
}
