/** What the projection reports of a round is its contracts' last word on each point: decoding to text,
    storing in any order, sorting and folding lose nothing (indexer/rounds.go, event_oracle.go,
    ledger/rounds.go). */
module RoundHistory {
  import opened FixedPoint
  import opened Decimal
  import opened Ledger
  import opened Chain
  import opened Decoder
  import opened Sorting
  import opened Projection
  import opened ProjectionLaws
  import Parimutuel

  /** One log of a round's market, or of the oracle that answers it. */
  datatype Emitted = Emitted(event: Event, oracle: Option<EventOracle>, time: int)

  function Decode(em: Emitted): Result<Drafts> {
    if em.oracle.None? then DecodeRound(em.event) else DecodeEventOracle(em.oracle.value, em.event)
  }

  /** The row is what the log decodes to, filed under its round. */
  predicate DecodesTo(em: Emitted, row: RoundEvent, ref: RoundRef) {
    && Decode(em).Ok? && |Decode(em).value.rounds| == 1
    && row.body == Decode(em).value.rounds[0].(market := ref.market)
    && row.prov.eventName == NameOf(em.event) && row.prov.blockTime == em.time
    && RefOf(row) == ref
  }

  predicate History(raw: seq<Emitted>, rows: seq<RoundEvent>, ref: RoundRef) {
    |raw| == |rows| && forall i :: 0 <= i < |raw| ==> DecodesTo(raw[i], rows[i], ref)
  }

  /** The latest log that says anything of a kind. */
  function Latest<T>(says: Emitted -> Option<T>, raw: seq<Emitted>): Option<T> {
    if raw == [] then None
    else
      var last := says(raw[|raw| - 1]);
      if last.Some? then last else Latest(says, raw[..|raw| - 1])
  }

  function Total(amount: Emitted -> nat, raw: seq<Emitted>): nat {
    if raw == [] then 0 else Total(amount, raw[..|raw| - 1]) + amount(raw[|raw| - 1])
  }

  // ---- What each log says ------------------------------------------------------------------------

  function SaysStatus(em: Emitted): Option<Parimutuel.Status> {
    match em.event
    case RoundOpenedLog(_, _, _, _) => Some(Parimutuel.Open)
    case RoundLockedLog(_, _, _) => Some(Parimutuel.Locked)
    case RoundResolvedLog(_, _, _, _) => Some(Parimutuel.Resolved)
    case RoundVoidedLog(_, _) => Some(Parimutuel.Void)
    case _ => None
  }

  datatype Times = Times(open: nat, lock: nat, close: nat)

  function SaysTimes(em: Emitted): Option<Times> {
    if em.event.RoundOpenedLog? then Some(Times(em.event.openTime, em.event.lockTime, em.event.closeTime)) else None
  }

  function SaysLevel(em: Emitted): Option<nat> {
    match em.event
    case RoundStrikeSetLog(_, strike) => Some(strike)
    case RoundLockedLog(_, price, _) => Some(price)
    case _ => None
  }

  /** The contract numbers its sides 0 and 1, and its outcomes 0, 1 and 2. */
  const SIDES: seq<string> := ["up", "down"]
  const OUTCOMES: seq<string> := ["none", "yes", "no"]

  datatype Verdict = Verdict(price: nat, winner: nat, rake: nat)

  function SaysVerdict(em: Emitted): Option<Verdict> {
    match em.event
    case RoundResolvedLog(_, price, winner, rake) => Some(Verdict(price, winner, rake))
    case _ => None
  }

  function SaysReason(em: Emitted): Option<string> {
    if em.event.RoundVoidedLog? then Some(em.event.reason) else None
  }

  function StakeOn(side: nat): Emitted -> nat {
    (em: Emitted) => if em.event.PositionTakenLog? && em.event.side == side then em.event.amount else 0
  }

  function SaysLifecycle(em: Emitted): Option<Lifecycle> {
    match em.event
    case ProposedLog(_, _, _, _, _, _) => Some(QuestionProposed)
    case ChallengedLog(_, _) => Some(QuestionChallenged)
    case FinalisedLog(_) => Some(QuestionFinal)
    case AbandonedLog(_) => Some(QuestionAbandoned)
    case _ => None
  }

  /** The claim, the ruling and the final answer all say an outcome. */
  function SaysOutcome(em: Emitted): Option<nat> {
    match em.event
    case ProposedLog(outcome, _, _, _, _, _) => Some(outcome)
    case RuledLog(outcome, _, _, _) => Some(outcome)
    case FinalisedLog(outcome) => Some(outcome)
    case _ => None
  }

  function SaysOracle(em: Emitted): Option<Address> {
    if em.event.MarketSetLog? && em.oracle.Some? then Some(em.oracle.value.oracle) else None
  }

  datatype Claim = Claim(proposer: Address, uri: string, digest: string, stake: nat, closes: nat, at: int)

  function SaysClaim(em: Emitted): Option<Claim> {
    match em.event
    case ProposedLog(_, proposer, uri, digest, stake, closes) =>
      Some(Claim(proposer, uri, digest, stake, closes, em.time))
    case _ => None
  }

  datatype Challenge = Challenge(challenger: Address, due: nat, at: int)

  function SaysChallenge(em: Emitted): Option<Challenge> {
    match em.event
    case ChallengedLog(challenger, due) => Some(Challenge(challenger, due, em.time))
    case _ => None
  }

  datatype Ruling = Ruling(arbiter: Address, paid: Address, uri: string, at: int)

  function SaysRuling(em: Emitted): Option<Ruling> {
    match em.event
    case RuledLog(_, arbiter, paid, uri) => Some(Ruling(arbiter, paid, uri, em.time))
    case _ => None
  }

  function SaysAbandoned(em: Emitted): Option<nat> {
    if em.event.AbandonedLog? then Some(em.event.at) else None
  }

  /** Whether any log makes the round a question. */
  predicate Asked(raw: seq<Emitted>) {
    exists i :: 0 <= i < |raw| && raw[i].oracle.Some?
  }

  function AsInt(n: Option<nat>): Option<int> {
    if n.None? then None else Some(n.value)
  }

  /** What a history says on every point a round is reported by. */
  datatype Said = Said(
    status: Option<Parimutuel.Status>, times: Option<Times>, level: Option<nat>, verdict: Option<Verdict>,
    reason: Option<string>, up: nat, down: nat,
    asked: bool, lifecycle: Option<Lifecycle>, outcome: Option<nat>, oracle: Option<Address>,
    claim: Option<Claim>, challenge: Option<Challenge>, ruling: Option<Ruling>, abandoned: Option<nat>)

  function SaidBy(raw: seq<Emitted>): Said {
    Said(Latest(SaysStatus, raw), Latest(SaysTimes, raw), Latest(SaysLevel, raw), Latest(SaysVerdict, raw),
         Latest(SaysReason, raw), Total(StakeOn(0), raw), Total(StakeOn(1), raw),
         Asked(raw), Latest(SaysLifecycle, raw), Latest(SaysOutcome, raw), Latest(SaysOracle, raw),
         Latest(SaysClaim, raw), Latest(SaysChallenge, raw), Latest(SaysRuling, raw), Latest(SaysAbandoned, raw))
  }

  predicate ReportsRound(r: Round, said: Said) {
    && r.status == said.status.GetOr(Parimutuel.Unset)
    && (match said.times
        case None => r.openTime.None? && r.lockTime.None? && r.closeTime.None?
        case Some(t) => r.openTime == Some(t.open) && r.lockTime == Some(t.lock) && r.closeTime == Some(t.close))
    && r.lockPrice == AsInt(said.level)
    && (match said.verdict
        case None => r.closePrice.None? && r.winner == "" && r.rakeTaken.None?
        case Some(v) =>
          && r.closePrice == Some(v.price) && r.rakeTaken == Some(v.rake)
          && v.winner < |SIDES| && r.winner == SIDES[v.winner])
    && r.voidReason == said.reason.GetOr("")
    && r.upPool == said.up && r.downPool == said.down
  }

  predicate ReportsClaim(q: QuestionState, said: Option<Claim>) {
    match said
    case None =>
      && q.proposer == "" && q.evidenceURI == "" && q.evidenceDigest == ""
      && q.proposerStake.None? && q.challengeClosesAt.None? && q.proposedAt.None?
    case Some(c) =>
      && q.proposer == c.proposer && q.evidenceURI == c.uri && q.evidenceDigest == c.digest
      && q.proposerStake == Some(c.stake) && q.challengeClosesAt == Some(c.closes) && q.proposedAt == Some(c.at)
  }

  predicate ReportsChallenge(q: QuestionState, said: Option<Challenge>) {
    match said
    case None => q.challenger == "" && q.rulingDueAt.None? && q.challengedAt.None?
    case Some(c) => q.challenger == c.challenger && q.rulingDueAt == Some(c.due) && q.challengedAt == Some(c.at)
  }

  predicate ReportsRuling(q: QuestionState, said: Option<Ruling>) {
    match said
    case None => q.arbiter == "" && q.reasonURI == "" && q.paidTo == "" && q.ruledAt.None?
    case Some(r) => q.arbiter == r.arbiter && q.reasonURI == r.uri && q.paidTo == r.paid && q.ruledAt == Some(r.at)
  }

  predicate ReportsQuestion(r: Round, said: Said) {
    var q := Question(r);
    && (r.question.Some? <==> said.asked)
    && q.state == said.lifecycle.GetOr(QuestionOpen)
    && (match said.outcome
        case None => q.outcome == ""
        case Some(n) => n < |OUTCOMES| && q.outcome == OUTCOMES[n])
    && q.oracle == said.oracle.GetOr("")
    && ReportsClaim(q, said.claim) && ReportsChallenge(q, said.challenge) && ReportsRuling(q, said.ruling)
    && q.abandonedAt == AsInt(said.abandoned)
  }

  predicate Reports(r: Round, said: Said) {
    ReportsRound(r, said) && ReportsQuestion(r, said)
  }

  // ---- Through the text and back -------------------------------------------------------------------

  /** A number written into a row reads back as itself. */
  lemma FieldReadsBack(data: map<Field, string>, key: Field, n: nat)
    requires key in data && data[key] == Format(n)
    ensures BigField(data, key) == Some(n)
  {
    ParseUndoesFormat(n);
  }

  /** So does one with a sign. */
  lemma SignedNumbersReadBack(data: map<Field, string>, key: Field, sign: char, n: nat)
    requires key in data && data[key] == [sign] + Format(n) && sign in "+-"
    ensures BigField(data, key) == Some(if sign == '-' then 0 - n else n)
  {
    hide Format, ParseDigits;
    ParseUndoesFormat(n);
    assert data[key][1..] == Format(n) && data[key][0] == sign;
  }

  lemma {:induction false} FoldRoundSnoc(r: Option<Round>, ref: RoundRef, rows: seq<RoundEvent>, row: RoundEvent)
    requires RefOf(row) == ref
    ensures FoldRound(r, ref, rows + [row]) == Some(Absorb(FoldRound(r, ref, rows), row))
    decreases |rows|
  {
    if rows == [] {
      assert (rows + [row])[1..] == [];
    } else {
      assert (rows + [row])[1..] == rows[1..] + [row];
      FoldRoundSnoc(if RefOf(rows[0]) == ref then Some(Absorb(r, rows[0])) else r, ref, rows[1..], row);
    }
  }

  lemma LatestOfMore<T>(says: Emitted -> Option<T>, raw: seq<Emitted>, em: Emitted)
    ensures Latest(says, raw + [em]) == if says(em).Some? then says(em) else Latest(says, raw)
  {}

  lemma TotalOfMore(amount: Emitted -> nat, raw: seq<Emitted>, em: Emitted)
    ensures Total(amount, raw + [em]) == Total(amount, raw) + amount(em)
  {}

  lemma AskedOfMore(raw: seq<Emitted>, em: Emitted)
    ensures Asked(raw + [em]) <==> Asked(raw) || em.oracle.Some?
  {
    var all := raw + [em];
    assert all[|raw|] == em;
    forall i | 0 <= i < |raw| ensures all[i] == raw[i] {}
  }

  function Newer<T>(says: Option<T>, before: Option<T>): Option<T> {
    if says.Some? then says else before
  }

  function More(said: Said, em: Emitted): Said {
    Said(Newer(SaysStatus(em), said.status), Newer(SaysTimes(em), said.times), Newer(SaysLevel(em), said.level),
         Newer(SaysVerdict(em), said.verdict), Newer(SaysReason(em), said.reason),
         said.up + StakeOn(0)(em), said.down + StakeOn(1)(em),
         said.asked || em.oracle.Some?, Newer(SaysLifecycle(em), said.lifecycle), Newer(SaysOutcome(em), said.outcome),
         Newer(SaysOracle(em), said.oracle), Newer(SaysClaim(em), said.claim),
         Newer(SaysChallenge(em), said.challenge), Newer(SaysRuling(em), said.ruling),
         Newer(SaysAbandoned(em), said.abandoned))
  }

  lemma MoreIsSaid(raw: seq<Emitted>, em: Emitted)
    ensures SaidBy(raw + [em]) == More(SaidBy(raw), em)
  {
    hide Latest, Total, Asked;
    LatestOfMore(SaysStatus, raw, em);
    LatestOfMore(SaysTimes, raw, em);
    LatestOfMore(SaysLevel, raw, em);
    LatestOfMore(SaysVerdict, raw, em);
    LatestOfMore(SaysReason, raw, em);
    LatestOfMore(SaysLifecycle, raw, em);
    LatestOfMore(SaysOutcome, raw, em);
    LatestOfMore(SaysOracle, raw, em);
    LatestOfMore(SaysClaim, raw, em);
    LatestOfMore(SaysChallenge, raw, em);
    LatestOfMore(SaysRuling, raw, em);
    LatestOfMore(SaysAbandoned, raw, em);
    TotalOfMore(StakeOn(0), raw, em);
    TotalOfMore(StakeOn(1), raw, em);
    AskedOfMore(raw, em);
  }

  /** A market's log says nothing about the question, and an oracle's nothing else. */
  lemma QuestionUntouched(r: Round, r': Round, said: Said, said': Said)
    requires ReportsQuestion(r, said) && r'.question == r.question
    requires said' == said.(status := said'.status, times := said'.times, level := said'.level,
                            verdict := said'.verdict, reason := said'.reason, up := said'.up, down := said'.down)
    ensures ReportsQuestion(r', said')
  {}

  lemma RoundUntouched(r: Round, r': Round, said: Said, said': Said)
    requires ReportsRound(r, said) && r' == r.(question := r'.question)
    requires said == said'.(asked := said.asked, lifecycle := said.lifecycle, outcome := said.outcome,
                            oracle := said.oracle, claim := said.claim, challenge := said.challenge,
                            ruling := said.ruling, abandoned := said.abandoned)
    ensures ReportsRound(r', said')
  {}

  lemma OpenedApplied(r: Round, em: Emitted, row: RoundEvent, ref: RoundRef, said: Said)
    requires DecodesTo(em, row, ref) && em.oracle.None? && em.event.RoundOpenedLog? && Reports(r, said)
    ensures Reports(ApplyRoundEvent(r, row), More(said, em))
  {
    hide BigField, Format, DecodeEventOracle, ReportsQuestion;
    QuestionUntouched(r, ApplyRoundEvent(r, row), said, More(said, em));
    FieldReadsBack(row.body.data, OpenTime, em.event.openTime);
    FieldReadsBack(row.body.data, LockTime, em.event.lockTime);
    FieldReadsBack(row.body.data, CloseTime, em.event.closeTime);
  }

  lemma LevelApplied(r: Round, em: Emitted, row: RoundEvent, ref: RoundRef, said: Said)
    requires DecodesTo(em, row, ref) && em.oracle.None? && Reports(r, said)
    requires em.event.RoundStrikeSetLog? || em.event.RoundLockedLog?
    ensures Reports(ApplyRoundEvent(r, row), More(said, em))
  {
    hide BigField, Format, DecodeEventOracle, ReportsQuestion;
    QuestionUntouched(r, ApplyRoundEvent(r, row), said, More(said, em));
    if em.event.RoundStrikeSetLog? {
      FieldReadsBack(row.body.data, StrikePrice, em.event.strikePrice);
    } else {
      FieldReadsBack(row.body.data, LockPrice, em.event.lockPrice);
    }
  }

  lemma ResolvedApplied(r: Round, em: Emitted, row: RoundEvent, ref: RoundRef, said: Said)
    requires DecodesTo(em, row, ref) && em.oracle.None? && em.event.RoundResolvedLog? && Reports(r, said)
    ensures Reports(ApplyRoundEvent(r, row), More(said, em))
  {
    hide BigField, Format, DecodeEventOracle, ReportsQuestion;
    QuestionUntouched(r, ApplyRoundEvent(r, row), said, More(said, em));
    FieldReadsBack(row.body.data, ClosePrice, em.event.closePrice);
    FieldReadsBack(row.body.data, RakeTaken, em.event.rakeTaken);
  }

  lemma StakeRow(em: Emitted, row: RoundEvent, ref: RoundRef)
    requires DecodesTo(em, row, ref) && em.oracle.None? && em.event.PositionTakenLog?
    ensures row.prov.eventName.PositionTaken? && row.body.amount == Some(em.event.amount)
    ensures if row.body.side.Up? then em.event.side == 0 else row.body.side.Down? && em.event.side == 1
  {
    hide Format, DecodeEventOracle;
  }

  lemma StakeApplied(r: Round, em: Emitted, row: RoundEvent, ref: RoundRef, said: Said)
    requires DecodesTo(em, row, ref) && em.oracle.None? && em.event.PositionTakenLog? && Reports(r, said)
    ensures Reports(ApplyRoundEvent(r, row), More(said, em))
  {
    StakeRow(em, row, ref);
    hide DecodesTo, BigField, ReportsQuestion;
    QuestionUntouched(r, ApplyRoundEvent(r, row), said, More(said, em));
  }

  lemma OtherRowApplied(r: Round, em: Emitted, row: RoundEvent, ref: RoundRef, said: Said)
    requires DecodesTo(em, row, ref) && em.oracle.None? && Reports(r, said)
    requires em.event.RoundVoidedLog? || em.event.ClaimedLog?
    ensures Reports(ApplyRoundEvent(r, row), More(said, em))
  {
    hide BigField, Format, DecodeEventOracle, ReportsQuestion;
    QuestionUntouched(r, ApplyRoundEvent(r, row), said, More(said, em));
  }

  lemma RoundRowApplied(r: Round, em: Emitted, row: RoundEvent, ref: RoundRef, said: Said)
    requires DecodesTo(em, row, ref) && em.oracle.None? && Reports(r, said)
    ensures Reports(ApplyRoundEvent(r, row), More(said, em))
  {
    OnlyTheseDecode(em, row, ref);
    hide DecodesTo, Reports, ApplyRoundEvent, More;
    if em.event.RoundOpenedLog? {
      OpenedApplied(r, em, row, ref, said);
    } else if em.event.RoundStrikeSetLog? || em.event.RoundLockedLog? {
      LevelApplied(r, em, row, ref, said);
    } else if em.event.RoundResolvedLog? {
      ResolvedApplied(r, em, row, ref, said);
    } else if em.event.PositionTakenLog? {
      StakeApplied(r, em, row, ref, said);
    } else {
      OtherRowApplied(r, em, row, ref, said);
    }
  }

  /** The logs of a market that are kept at all. */
  lemma OnlyTheseDecode(em: Emitted, row: RoundEvent, ref: RoundRef)
    requires DecodesTo(em, row, ref) && em.oracle.None?
    ensures em.event.RoundOpenedLog? || em.event.RoundStrikeSetLog? || em.event.RoundLockedLog?
      || em.event.RoundResolvedLog?
         || em.event.PositionTakenLog? || em.event.RoundVoidedLog? || em.event.ClaimedLog?
  {}

  lemma ClaimRow(em: Emitted, row: RoundEvent, ref: RoundRef)
    requires DecodesTo(em, row, ref) && em.oracle.Some? && em.event.ProposedLog?
    ensures row.prov.eventName.Proposed? && row.prov.blockTime == em.time && row.body.account == em.event.proposer
    ensures em.event.outcome < |OUTCOMES| && Text(row.body.data, OutcomeField) == OUTCOMES[em.event.outcome]
    ensures Text(row.body.data, EvidenceURI) == em.event.evidenceURI
    ensures Text(row.body.data, EvidenceDigest) == em.event.evidenceDigest
    ensures BigField(row.body.data, ChallengeClosesAt) == Some(em.event.challengeClosesAt)
    ensures BigField(row.body.data, ProposerStake) == Some(em.event.proposerStake)
  {
    hide BigField, Format, DecodeRound;
    FieldReadsBack(row.body.data, ChallengeClosesAt, em.event.challengeClosesAt);
    FieldReadsBack(row.body.data, ProposerStake, em.event.proposerStake);
  }

  lemma ClaimApplied(r: Round, em: Emitted, row: RoundEvent, ref: RoundRef, said: Said)
    requires DecodesTo(em, row, ref) && em.oracle.Some? && em.event.ProposedLog? && Reports(r, said)
    ensures Reports(ApplyRoundEvent(r, row), More(said, em))
  {
    ClaimRow(em, row, ref);
    hide DecodesTo, BigField, Text, ReportsRound;
    RoundUntouched(r, ApplyRoundEvent(r, row), said, More(said, em));
  }

  lemma RulingApplied(r: Round, em: Emitted, row: RoundEvent, ref: RoundRef, said: Said)
    requires DecodesTo(em, row, ref) && em.oracle.Some? && em.event.RuledLog? && Reports(r, said)
    ensures Reports(ApplyRoundEvent(r, row), More(said, em))
  {
    hide BigField, Format, DecodeRound, ReportsRound;
    RoundUntouched(r, ApplyRoundEvent(r, row), said, More(said, em));
  }

  lemma FinalAnswerApplied(r: Round, em: Emitted, row: RoundEvent, ref: RoundRef, said: Said)
    requires DecodesTo(em, row, ref) && em.oracle.Some? && em.event.FinalisedLog? && Reports(r, said)
    ensures Reports(ApplyRoundEvent(r, row), More(said, em))
  {
    hide BigField, Format, DecodeRound, ReportsRound;
    RoundUntouched(r, ApplyRoundEvent(r, row), said, More(said, em));
  }

  lemma ChallengeApplied(r: Round, em: Emitted, row: RoundEvent, ref: RoundRef, said: Said)
    requires DecodesTo(em, row, ref) && em.oracle.Some? && em.event.ChallengedLog? && Reports(r, said)
    ensures Reports(ApplyRoundEvent(r, row), More(said, em))
  {
    hide BigField, Format, DecodeRound, ReportsRound;
    RoundUntouched(r, ApplyRoundEvent(r, row), said, More(said, em));
    FieldReadsBack(row.body.data, RulingDueAt, em.event.rulingDueAt);
  }

  lemma QuestionSetApplied(r: Round, em: Emitted, row: RoundEvent, ref: RoundRef, said: Said)
    requires DecodesTo(em, row, ref) && em.oracle.Some? && em.event.MarketSetLog? && Reports(r, said)
    ensures Reports(ApplyRoundEvent(r, row), More(said, em))
  {
    hide BigField, Format, DecodeRound, ReportsRound;
    RoundUntouched(r, ApplyRoundEvent(r, row), said, More(said, em));
  }

  lemma AbandonmentApplied(r: Round, em: Emitted, row: RoundEvent, ref: RoundRef, said: Said)
    requires DecodesTo(em, row, ref) && em.oracle.Some? && em.event.AbandonedLog? && Reports(r, said)
    ensures Reports(ApplyRoundEvent(r, row), More(said, em))
  {
    hide BigField, Format, DecodeRound, ReportsRound;
    RoundUntouched(r, ApplyRoundEvent(r, row), said, More(said, em));
    FieldReadsBack(row.body.data, At, em.event.at);
  }

  /** The logs of an event oracle that are kept at all. */
  lemma OnlyTheseAnswer(em: Emitted, row: RoundEvent, ref: RoundRef)
    requires DecodesTo(em, row, ref) && em.oracle.Some?
    ensures em.event.ProposedLog? || em.event.RuledLog? || em.event.FinalisedLog? || em.event.ChallengedLog?
         || em.event.MarketSetLog? || em.event.AbandonedLog?
  {
    hide Format, DecodeRound;
  }

  lemma OracleRowApplied(r: Round, em: Emitted, row: RoundEvent, ref: RoundRef, said: Said)
    requires DecodesTo(em, row, ref) && em.oracle.Some? && Reports(r, said)
    ensures Reports(ApplyRoundEvent(r, row), More(said, em))
  {
    OnlyTheseAnswer(em, row, ref);
    hide DecodesTo, Reports, ApplyRoundEvent, More;
    if em.event.ProposedLog? {
      ClaimApplied(r, em, row, ref, said);
    } else if em.event.ChallengedLog? {
      ChallengeApplied(r, em, row, ref, said);
    } else if em.event.RuledLog? {
      RulingApplied(r, em, row, ref, said);
    } else if em.event.FinalisedLog? {
      FinalAnswerApplied(r, em, row, ref, said);
    } else if em.event.MarketSetLog? {
      QuestionSetApplied(r, em, row, ref, said);
    } else {
      AbandonmentApplied(r, em, row, ref, said);
    }
  }

  lemma NothingIsReported(ref: RoundRef)
    ensures Reports(NewRound(ref), SaidBy([]))
  {}

  lemma HeightDoesNotMatter(r: Round, said: Said, height: nat)
    requires Reports(r, said)
    ensures Reports(r.(lastBlock := height), said)
  {}

  lemma {:induction false} FoldReports(raw: seq<Emitted>, rows: seq<RoundEvent>, ref: RoundRef)
    requires History(raw, rows, ref) && raw != []
    ensures FoldRound(None, ref, rows).Some? && Reports(FoldRound(None, ref, rows).value, SaidBy(raw))
    decreases |raw|
  {
    hide Reports, DecodesTo, ApplyRoundEvent, SaidBy, More;
    var n := |raw| - 1;
    var em, row := raw[n], rows[n];
    assert raw == raw[..n] + [em] && rows == rows[..n] + [row];
    assert DecodesTo(em, row, ref);
    RowIsOf(em, row, ref);
    FoldRoundSnoc(None, ref, rows[..n], row);
    MoreIsSaid(raw[..n], em);
    var before := FoldRound(None, ref, rows[..n]).GetOr(NewRound(ref));
    if n == 0 {
      assert rows[..n] == [] && raw[..n] == [];
      NothingIsReported(ref);
    } else {
      FoldReports(raw[..n], rows[..n], ref);
    }
    HeightDoesNotMatter(before, SaidBy(raw[..n]), row.prov.blockNumber);
    var met := if row.prov.blockNumber > before.lastBlock then before.(lastBlock := row.prov.blockNumber) else before;
    if em.oracle.None? {
      RoundRowApplied(met, em, row, ref, SaidBy(raw[..n]));
    } else {
      OracleRowApplied(met, em, row, ref, SaidBy(raw[..n]));
    }
  }

  lemma RowIsOf(em: Emitted, row: RoundEvent, ref: RoundRef)
    requires DecodesTo(em, row, ref)
    ensures RefOf(row) == ref
  {}

  predicate InOrder(rows: seq<RoundEvent>) {
    forall i, j :: 0 <= i < j < |rows| ==> Before(LogCoord(rows[i]), LogCoord(rows[j]))
  }

  lemma {:induction false} InOrderIsSorted(rows: seq<RoundEvent>)
    requires InOrder(rows)
    ensures Sort(LogCoord, rows) == rows
    decreases |rows|
  {
    if rows != [] {
      var rest := rows[1..];
      assert rows == [rows[0]] + rest;
      forall i, j | 0 <= i < j < |rest| ensures Before(LogCoord(rest[i]), LogCoord(rest[j])) {
        assert rest[i] == rows[i + 1] && rest[j] == rows[j + 1];
      }
      InOrderIsSorted(rest);
      if rest != [] { assert Before(LogCoord(rows[0]), LogCoord(rows[1])); }
    }
  }

  lemma InOrderIsDistinct(rows: seq<RoundEvent>)
    requires InOrder(rows)
    ensures DistinctKeys(LogCoord, rows)
  {}

  /** The reported round is the contracts' last word: whatever other rounds' rows are stored with it, and
      in whatever order, its status, times, level, verdict, reason, pools and question are those the latest
      log to say so gave. */
  lemma TheReportIsTheLastWord(raw: seq<Emitted>, rows: seq<RoundEvent>, stored: seq<RoundEvent>, ref: RoundRef)
    requires History(raw, rows, ref) && raw != [] && InOrder(rows)
    requires multiset(Filter(OfRound(ref), stored)) == multiset(rows)
    ensures RoundOf(ref, stored).Some? && Reports(RoundOf(ref, stored).value, SaidBy(raw))
  {
    hide Reports, History, InOrder, Sort, Filter, SaidBy;
    RoundOfIsLocal(ref, stored);
    InOrderIsDistinct(rows);
    SortIsCanonical(LogCoord, rows, Filter(OfRound(ref), stored));
    InOrderIsSorted(rows);
    FoldReports(raw, rows, ref);
  }
}
