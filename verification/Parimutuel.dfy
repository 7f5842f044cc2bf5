/** The parimutuel rules of finance/rounds.go: phases, odds and claims. */
module Parimutuel {
  import opened FixedPoint

  datatype Phase = PhaseOpen | PhaseCutoff | PhaseObservation | PhaseResolved | PhaseVoid

  /** The stored status; the empty string a round has before RoundOpened is `Unset`. */
  datatype Status = Unset | Open | Locked | Resolved | Void

  predicate EntryIsOpen(status: Status, openTime: int, lockTime: int, entryCutoff: int, now: int) {
    status.Open? && openTime <= now < lockTime - entryCutoff
  }

  function PhaseOf(status: Status, openTime: int, lockTime: int, entryCutoff: int, now: int): Phase {
    match status
    case Resolved => PhaseResolved
    case Void => PhaseVoid
    case Locked => PhaseObservation
    case _ => if EntryIsOpen(status, openTime, lockTime, entryCutoff, now) then PhaseOpen else PhaseCutoff
  }

  /** Defined when the rake leaves something, as the contract's rake ceiling guarantees. */
  function Odds(sidePool: nat, upPool: nat, downPool: nat, rake: nat): nat
    requires rake <= WAD
  {
    if sidePool == 0 then 0
    else
      var pool := upPool + downPool;
      MulDiv(pool - RakeOf(pool, rake), WAD, sidePool)
  }

  /** The cut of a pool at a WAD rate. */
  function RakeOf(pool: nat, rake: nat): (r: nat)
    requires rake <= WAD
    ensures r <= pool
  {
    MulDivMono(pool, pool, rake, WAD, WAD);
    MulDivExact(pool, WAD);
    MulDiv(pool, rake, WAD)
  }

  datatype Position = Position(upStake: nat, downStake: nat, claimed: bool)

  /** `winner` is "up" or anything else, which the source reads as down. */
  function Claimable(pos: Position, status: Status, winner: string, upPool: nat, downPool: nat, rakeTaken: nat): nat
    requires rakeTaken <= upPool + downPool
  {
    if pos.claimed then 0
    else if status.Void? then pos.upStake + pos.downStake
    else if !status.Resolved? then 0
    else
      var stake := WinningStake(pos, winner);
      var winningPool := if winner == "up" then upPool else downPool;
      if stake == 0 || winningPool == 0 then 0
      else MulDiv(upPool + downPool - rakeTaken, stake, winningPool)
  }

  function WinningStake(pos: Position, winner: string): nat {
    if winner == "up" then pos.upStake else pos.downStake
  }

  // ---- Conservation ------------------------------------------------------------------------

  function SumUp(ps: seq<Position>): nat {
    if ps == [] then 0 else ps[0].upStake + SumUp(ps[1..])
  }

  function SumDown(ps: seq<Position>): nat {
    if ps == [] then 0 else ps[0].downStake + SumDown(ps[1..])
  }

  function SumWinning(ps: seq<Position>, winner: string): nat {
    if winner == "up" then SumUp(ps) else SumDown(ps)
  }

  function Winners(ps: seq<Position>, winner: string): nat {
    if ps == [] then 0 else (if WinningStake(ps[0], winner) > 0 then 1 else 0) + Winners(ps[1..], winner)
  }

  function TotalClaimable(ps: seq<Position>, status: Status, winner: string, upPool: nat, downPool: nat,
                          rakeTaken: nat): nat
    requires rakeTaken <= upPool + downPool
  {
    if ps == [] then 0
    else
      Claimable(ps[0], status, winner, upPool, downPool, rakeTaken)
      + TotalClaimable(ps[1..], status, winner, upPool, downPool, rakeTaken)
  }

  /** What the positions that have claimed were owed when they did. */
  function TotalPaid(ps: seq<Position>, status: Status, winner: string, upPool: nat, downPool: nat,
                     rakeTaken: nat): nat
    requires rakeTaken <= upPool + downPool
  {
    if ps == [] then 0
    else
      (if ps[0].claimed then Claimable(ps[0].(claimed := false), status, winner, upPool, downPool, rakeTaken) else 0)
      + TotalPaid(ps[1..], status, winner, upPool, downPool, rakeTaken)
  }

  function Unclaimed(ps: seq<Position>): seq<Position> {
    if ps == [] then [] else (if ps[0].claimed then [] else [ps[0]]) + Unclaimed(ps[1..])
  }

  /** A claim is the stake's share of the pool less the rake, rounded down; a refund is the stake. Nobody is
      owed anything twice, nor before a round is settled. */
  lemma AClaimIsTheShare(pos: Position, status: Status, winner: string, upPool: nat, downPool: nat, rakeTaken: nat)
    requires rakeTaken <= upPool + downPool
    ensures
      var owed := Claimable(pos, status, winner, upPool, downPool, rakeTaken);
      var stake, pool := if winner == "up" then pos.upStake else pos.downStake, if winner == "up" then upPool
        else downPool;
      && (pos.claimed || !(status.Resolved? || status.Void?) ==> owed == 0)
      && (!pos.claimed && status.Void? ==> owed == pos.upStake + pos.downStake)
      && (!pos.claimed && status.Resolved? && pool > 0 ==>
            owed * pool <= (upPool + downPool - rakeTaken) * stake < (owed + 1) * pool)
      && (status.Resolved? && pool == 0 ==> owed == 0)
  {}

  /** The floors of a resolved round, added up: between the exact share and one unit per winner
      below it, whoever has claimed already. */
  lemma {:induction false} SharesOfTheWinners(ps: seq<Position>, winner: string, upPool: nat, downPool: nat,
                                              rakeTaken: nat)
    requires rakeTaken <= upPool + downPool
    requires 0 < if winner == "up" then upPool else downPool
    ensures
      var pool := if winner == "up" then upPool else downPool;
      var net := upPool + downPool - rakeTaken;
      var all := TotalClaimable(ps, Resolved, winner, upPool, downPool, rakeTaken)
               + TotalPaid(ps, Resolved, winner, upPool, downPool, rakeTaken);
      && all * pool <= net * SumWinning(ps, winner)
      && net * SumWinning(ps, winner) <= all * pool + Winners(ps, winner) * (pool - 1)
  {
    var pool := if winner == "up" then upPool else downPool;
    var net := upPool + downPool - rakeTaken;
    if ps != [] {
      SharesOfTheWinners(ps[1..], winner, upPool, downPool, rakeTaken);
      var stake := WinningStake(ps[0], winner);
      var mine := Claimable(ps[0].(claimed := false), Resolved, winner, upPool, downPool, rakeTaken);
      var rest := TotalClaimable(ps[1..], Resolved, winner, upPool, downPool, rakeTaken)
                + TotalPaid(ps[1..], Resolved, winner, upPool, downPool, rakeTaken);
      OneShare(net, stake, pool);
      assert mine == MulDiv(net, stake, pool);
      OwedOrPaid(ps[0], Resolved, winner, upPool, downPool, rakeTaken);
      var stakes, w := SumWinning(ps[1..], winner), Winners(ps[1..], winner);
      AddAtMost(mine, rest, net, stake, stakes, pool);
      AddAtLeast(mine, rest, net, stake, stakes, pool, if stake > 0 then 1 else 0, w);
    }
  }

  /** A position is owed its due once. */
  lemma OwedOrPaid(pos: Position, status: Status, winner: string, upPool: nat, downPool: nat, rakeTaken: nat)
    requires rakeTaken <= upPool + downPool
    ensures
      Claimable(pos, status, winner, upPool, downPool, rakeTaken)
      == if pos.claimed then 0 else Claimable(pos.(claimed := false), status, winner, upPool, downPool, rakeTaken)
  {
    assert !pos.claimed ==> pos == pos.(claimed := false);
  }

  lemma OneShare(net: nat, stake: nat, pool: nat)
    requires pool > 0
    ensures MulDiv(net, stake, pool) * pool <= net * stake
    ensures net * stake <= MulDiv(net, stake, pool) * pool + (if stake > 0 then 1 else 0) * (pool - 1)
    ensures stake == 0 ==> MulDiv(net, stake, pool) == 0
  {}

  lemma AddAtMost(mine: nat, rest: nat, net: nat, stake: nat, stakes: nat, pool: nat)
    requires mine * pool <= net * stake && rest * pool <= net * stakes
    ensures (mine + rest) * pool <= net * (stake + stakes)
  {}

  lemma AddAtLeast(mine: nat, rest: nat, net: nat, stake: nat, stakes: nat, pool: nat, k: nat, w: nat)
    requires net * stake <= mine * pool + k * (pool - 1)
    requires net * stakes <= rest * pool + w * (pool - 1)
    ensures net * (stake + stakes) <= (mine + rest) * pool + (k + w) * (pool - 1)
  {}

  lemma FlooredTotal(total: nat, net: nat, pool: nat, n: nat)
    requires pool > 0 && n > 0
    requires net * pool <= total * pool + n * (pool - 1)
    ensures net - total <= n - 1
  {}

  /** What is owed is owed to the positions that have not claimed, and to nobody else. */
  lemma {:induction false} OnlyTheUnclaimedAreOwed(ps: seq<Position>, status: Status, winner: string, upPool: nat,
                                                   downPool: nat, rakeTaken: nat)
    requires rakeTaken <= upPool + downPool
    ensures TotalClaimable(ps, status, winner, upPool, downPool, rakeTaken)
         == TotalClaimable(Unclaimed(ps), status, winner, upPool, downPool, rakeTaken)
  {
    if ps != [] {
      var rest := Unclaimed(ps[1..]);
      OnlyTheUnclaimedAreOwed(ps[1..], status, winner, upPool, downPool, rakeTaken);
      assert ([ps[0]] + rest)[1..] == rest && [] + rest == rest;
    }
  }

  /** Everything a resolved round has paid out and still owes fits in the pool less the rake, and with n
      winners at most n-1 units of it stay behind as dust, whoever has claimed so far. */
  lemma PayoutsConserveThePool(ps: seq<Position>, winner: string, upPool: nat, downPool: nat, rakeTaken: nat)
    requires rakeTaken <= upPool + downPool
    requires SumUp(ps) == upPool && SumDown(ps) == downPool
    ensures
      var all := TotalClaimable(ps, Resolved, winner, upPool, downPool, rakeTaken)
               + TotalPaid(ps, Resolved, winner, upPool, downPool, rakeTaken);
      && all <= upPool + downPool - rakeTaken
      && (Winners(ps, winner) > 0 ==> upPool + downPool - rakeTaken - all <= Winners(ps, winner) - 1)
  {
    hide TotalClaimable, TotalPaid, Winners, SumUp, SumDown, Quotient;
    var pool := if winner == "up" then upPool else downPool;
    var net := upPool + downPool - rakeTaken;
    var all := TotalClaimable(ps, Resolved, winner, upPool, downPool, rakeTaken)
             + TotalPaid(ps, Resolved, winner, upPool, downPool, rakeTaken);
    var n := Winners(ps, winner);
    if pool == 0 {
      NothingToShare(ps, winner, upPool, downPool, rakeTaken);
    } else {
      SharesOfTheWinners(ps, winner, upPool, downPool, rakeTaken);
      MulCancel(all, net + 1, pool) by { assert (net + 1) * pool == net * pool + pool; }
      if n > 0 { FlooredTotal(all, net, pool, n); }
    }
  }

  lemma {:induction false} NothingToShare(ps: seq<Position>, winner: string, upPool: nat, downPool: nat, rakeTaken: nat)
    requires rakeTaken <= upPool + downPool
    requires (if winner == "up" then upPool else downPool) == 0
    requires SumWinning(ps, winner) == 0
    ensures TotalClaimable(ps, Resolved, winner, upPool, downPool, rakeTaken) == 0
    ensures TotalPaid(ps, Resolved, winner, upPool, downPool, rakeTaken) == 0
    ensures Winners(ps, winner) == 0
  {
    if ps != [] { NothingToShare(ps[1..], winner, upPool, downPool, rakeTaken); }
  }

  /** A voided round gives back exactly the pool, each stake once, and an unsettled one nothing. */
  lemma {:induction false} VoidRefundsThePool(ps: seq<Position>, status: Status, winner: string, upPool: nat,
                                              downPool: nat, rakeTaken: nat)
    requires rakeTaken <= upPool + downPool
    requires !status.Resolved?
    ensures TotalClaimable(ps, status, winner, upPool, downPool, rakeTaken)
          + TotalPaid(ps, status, winner, upPool, downPool, rakeTaken)
         == if status.Void? then SumUp(ps) + SumDown(ps) else 0
  {
    if ps != [] { VoidRefundsThePool(ps[1..], status, winner, upPool, downPool, rakeTaken); }
  }

  /** ceil(stake / WAD) */
  function CeilWad(stake: nat): nat {
    (stake + WAD - 1) / WAD
  }

  /** The quoted odds never promise more than a claim pays, and promise at most ceil(stake/WAD)
      units less, when the rake taken is the quoted fraction of the pool, rounded down. */
  lemma OddsNeverOverstate(pos: Position, winner: string, upPool: nat, downPool: nat, rake: nat, rakeTaken: nat)
    requires rake <= WAD && !pos.claimed && rakeTaken <= upPool + downPool
    requires rakeTaken * WAD <= (upPool + downPool) * rake < (rakeTaken + 1) * WAD
    ensures
      var side := if winner == "up" then upPool else downPool;
      var quoted := MulDiv(WinningStake(pos, winner), Odds(side, upPool, downPool, rake), WAD);
      var paid := Claimable(pos, Resolved, winner, upPool, downPool, rakeTaken);
      quoted <= paid <= quoted + CeilWad(WinningStake(pos, winner))
  {
    var side := if winner == "up" then upPool else downPool;
    var stake := WinningStake(pos, winner);
    var pool := upPool + downPool;
    QuotientAtLeast(rakeTaken, pool * rake, WAD);
    QuotientBelow(rakeTaken + 1, pool * rake, WAD);
    assert RakeOf(pool, rake) == rakeTaken;
    if side == 0 || stake == 0 {
      QuotientBelow(1, 0, WAD);
    } else {
      QuotedAgainstPaid(stake, pool - rakeTaken, side);
    }
  }

  lemma QuotedAgainstPaid(stake: nat, net: nat, side: nat)
    requires side > 0 && stake > 0
    ensures
      var quoted := MulDiv(stake, MulDiv(net, WAD, side), WAD);
      var paid := MulDiv(net, stake, side);
      quoted <= paid <= quoted + CeilWad(stake)
  {
    var odds := MulDiv(net, WAD, side);
    var quoted, paid := MulDiv(stake, odds, WAD), MulDiv(net, stake, side);
    QuotedAtMostPaid(quoted, odds, stake, net, side);
    QuotientAtLeast(quoted, net * stake, side);
    PaidUnderQuoted(paid, odds, stake, net, side);
    assert stake * (odds + 1) == stake * odds + stake;
    assert paid * WAD < (quoted + 1) * WAD + stake;
    assert CeilWad(stake) * WAD >= stake;
    MulCancel(paid, quoted + CeilWad(stake) + 1, WAD);
  }

  lemma QuotedAtMostPaid(quoted: nat, odds: nat, stake: nat, net: nat, side: nat)
    requires quoted * WAD <= stake * odds && odds * side <= net * WAD
    ensures quoted * side <= net * stake
  {}

  lemma PaidUnderQuoted(paid: nat, odds: nat, stake: nat, net: nat, side: nat)
    requires side > 0 && stake > 0
    requires paid * side <= net * stake && net * WAD < (odds + 1) * side
    ensures paid * WAD < stake * (odds + 1)
  {}
}
