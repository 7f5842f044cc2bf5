/** The keeper itself: its maps, and the methods that update them in place, each proved to do to one
    market's desk what KeeperDesk says and nothing to any other's (keeper/keeper.go). */
module Keeper {
  import opened FixedPoint
  import opened Ledger
  import opened Feed
  import opened Strike
  import opened KeeperRules
  import opened KeeperDesk

  /** The entries of a keyed map that belong to one market. */
  function Of<V>(t: map<Key, V>, a: Address): map<Key, V> {
    map k | k in t && k.market == a :: t[k]
  }

  function Without<V>(t: map<Key, V>, a: Address): map<Key, V> {
    map k | k in t && k.market != a :: t[k]
  }

  function Flag(t: map<Address, bool>, a: Address): bool {
    a in t && t[a]
  }

  function Get<V>(t: map<Address, V>, a: Address): Option<V> {
    if a in t then Some(t[a]) else None
  }

  function CursorIn(t: map<Address, nat>, a: Address): nat {
    if a in t then t[a] else 0
  }

  lemma PutOf<V>(t: map<Key, V>, k: Key, v: V, a: Address)
    ensures Of(t[k := v], a) == if k.market == a then Of(t, a)[k := v] else Of(t, a)
  {}

  lemma DropOf<V>(t: map<Key, V>, keys: set<Key>, a: Address)
    ensures (forall k :: k in keys ==> k.market == a) ==> Of(t - keys, a) == Of(t, a) - keys
    ensures (forall k :: k in keys ==> k.market != a) ==> Of(t - keys, a) == Of(t, a)
  {}

  lemma WithoutOf<V>(t: map<Key, V>, gone: Address, a: Address)
    ensures Of(Without(t, gone), a) == if a == gone then map[] else Of(t, a)
  {}

  predicate DrivenIn(markets: seq<Market>, a: Address) {
    exists i :: 0 <= i < |markets| && markets[i].address == a
  }

  predicate DistinctMarkets(markets: seq<Market>) {
    forall i, j :: 0 <= i < j < |markets| ==> markets[i].address != markets[j].address
  }

  lemma DrivenSnoc(markets: seq<Market>, m: Market)
    ensures forall a :: DrivenIn(markets + [m], a) <==> DrivenIn(markets, a) || a == m.address
    ensures DistinctMarkets(markets) && !DrivenIn(markets, m.address) ==> DistinctMarkets(markets + [m])
  {
    var more := markets + [m];
    assert more[|markets|] == m;
    forall a ensures DrivenIn(more, a) <==> DrivenIn(markets, a) || a == m.address {
      if DrivenIn(markets, a) {
        var i :| 0 <= i < |markets| && markets[i].address == a;
        assert more[i].address == a;
      }
    }
  }

  /** Going one market further along a set without repeats. */
  lemma DrivenNext(markets: seq<Market>, i: nat)
    requires i < |markets|
    ensures forall a :: DrivenIn(markets[..i + 1], a) <==> DrivenIn(markets[..i], a) || a == markets[i].address
    ensures DistinctMarkets(markets) ==> !DrivenIn(markets[..i], markets[i].address)
    ensures DrivenIn(markets, markets[i].address)
  {}

  predicate DistinctListings(listed: seq<Listing>) {
    forall i, j :: 0 <= i < j < |listed| ==> listed[i].market.address != listed[j].market.address
  }

  predicate ListedIn(listed: seq<Listing>, a: Address) {
    exists i :: 0 <= i < |listed| && listed[i].market.address == a
  }

  predicate JoinsIn(listed: seq<Listing>, a: Address, cfg: Config) {
    exists i :: 0 <= i < |listed| && listed[i].market.address == a && Drivable(listed[i], cfg)
  }

  lemma NothingDriven()
    ensures forall a :: !DrivenIn([], a)
    ensures DistinctMarkets([])
  {}

  lemma JoinersAreListed(listed: seq<Listing>, cfg: Config)
    ensures forall a :: JoinsIn(listed, a, cfg) ==> ListedIn(listed, a)
  {}

  lemma NothingJoins(cfg: Config)
    ensures forall a :: !JoinsIn([], a, cfg)
  {}

  lemma JoinsNext(listed: seq<Listing>, j: nat, cfg: Config)
    requires j < |listed| && DistinctListings(listed)
    ensures forall a :: JoinsIn(listed[..j + 1], a, cfg) <==>
      JoinsIn(listed[..j], a, cfg) || (a == listed[j].market.address && Drivable(listed[j], cfg))
    ensures !JoinsIn(listed[..j], listed[j].market.address, cfg) && ListedIn(listed, listed[j].market.address)
    ensures Drivable(listed[j], cfg) <==> ValidateMarket(listed[j].market, listed[j].horizon, cfg).None?
    ensures forall i :: 0 <= i < j ==> listed[i].market.address != listed[j].market.address
  {
    forall a ensures JoinsIn(listed[..j + 1], a, cfg) <==>
      JoinsIn(listed[..j], a, cfg) || (a == listed[j].market.address && Drivable(listed[j], cfg))
    {
      if JoinsIn(listed[..j], a, cfg) {
        var i :| 0 <= i < j && listed[..j][i].market.address == a && Drivable(listed[..j][i], cfg);
        assert listed[..j + 1][i] == listed[i];
      }
      if a == listed[j].market.address && Drivable(listed[j], cfg) { assert listed[..j + 1][j] == listed[j]; }
    }
  }

  class Keeper {
    const cfg: Config
    var markets: seq<Market>
    var maxBackoff: nat
    var cursor: map<Address, nat>
    var retry: map<Key, Attempt>
    var notOwner: map<Address, bool>
    var refusal: map<Address, string>
    var pending: map<Address, bool>
    var retiring: map<Address, bool>
    var rejected: map<Address, Refusal>
    var searched: map<Key, Memo>

    constructor (markets: seq<Market>, cfg: Config)
      requires DistinctMarkets(markets)
      ensures Valid() && this.markets == markets && this.cfg == cfg
      ensures forall a :: DeskOf(a) == EMPTY_DESK
    {
      this.cfg := cfg;
      this.markets := markets;
      maxBackoff := BackoffLimit(markets);
      cursor, retry, searched := map[], map[], map[];
      notOwner, refusal, pending, retiring, rejected := map[], map[], map[], map[], map[];
    }

    function DeskOf(a: Address): Desk
      reads this
    {
      Desk(CursorIn(cursor, a), Flag(pending, a), Flag(retiring, a), Flag(notOwner, a), Get(refusal, a),
           Of(retry, a), Of(searched, a))
    }

    function MyTerms(): Terms
      reads this
    {
      Terms(cfg, maxBackoff)
    }

    /** Nothing is changed but what is remembered of market a. */
    twostate predicate OnlyDesk(a: Address)
      reads this
    {
      && markets == old(markets) && maxBackoff == old(maxBackoff) && rejected == old(rejected)
      && forall b :: b != a ==> DeskOf(b) == old(DeskOf(b))
    }

    method PutRetry(key: Key, attempt: Attempt)
      modifies this`retry
      ensures OnlyDesk(key.market)
      ensures DeskOf(key.market) == old(DeskOf(key.market)).(retry := old(DeskOf(key.market)).retry[key := attempt])
    {
      forall a { PutOf(retry, key, attempt, a); }
      retry := retry[key := attempt];
    }

    method DropRetry(a: Address, keys: set<Key>)
      requires forall k :: k in keys ==> k.market == a
      modifies this`retry
      ensures OnlyDesk(a)
      ensures DeskOf(a) == old(DeskOf(a)).(retry := old(DeskOf(a)).retry - keys)
    {
      forall b { DropOf(retry, keys, b); }
      retry := retry - keys;
    }

    method PutMemo(key: Key, memo: Memo)
      modifies this`searched
      ensures OnlyDesk(key.market)
      ensures DeskOf(key.market) == old(DeskOf(key.market)).(searched := old(DeskOf(key.market)).searched[key := memo])
    {
      forall a { PutOf(searched, key, memo, a); }
      searched := searched[key := memo];
    }

    method DropMemo(key: Key)
      modifies this`searched
      ensures OnlyDesk(key.market)
      ensures DeskOf(key.market) == old(DeskOf(key.market)).(searched := old(DeskOf(key.market)).searched - {key})
    {
      forall a { DropOf(searched, {key}, a); }
      searched := searched - {key};
    }

    method IsReady(key: Key, wall: nat) returns (ready: bool)
      ensures ready == Ready(DeskOf(key.market), key, wall)
    {
      ready := key !in retry || wall >= retry[key].next;
    }

    method Fail(key: Key, wall: nat)
      modifies this`retry
      ensures OnlyDesk(key.market)
      ensures DeskOf(key.market) ==
              old(DeskOf(key.market)).(retry := Failed(old(DeskOf(key.market)).retry, old(MyTerms()), key, wall))
    {
      var failures := if key in retry then retry[key].failures + 1 else 1;
      var delay := cfg.pollInterval;
      var doubled := 0;
      while doubled < 8 && doubled < failures - 1
        invariant 0 <= doubled <= 8 && doubled <= failures - 1
        invariant delay == Shift(cfg.pollInterval, doubled)
      {
        delay := 2 * delay;
        doubled := doubled + 1;
      }
      if delay > maxBackoff { delay := maxBackoff; }
      PutRetry(key, Attempt(wall + delay, failures));
    }

    /** Sends one transaction; its backoff ends when it lands and grows when it does not. */
    method SendTx(w: World, key: Key, tx: Tx) returns (sent: seq<Sent>)
      modifies this`retry
      ensures OnlyDesk(key.market)
      ensures Outcome(DeskOf(key.market), sent) == Send(old(DeskOf(key.market)), old(MyTerms()), w, key, tx)
    {
      var landed := w.lands(key.round, key.action);
      if landed {
        DropRetry(key.market, {key});
      } else {
        Fail(key, w.wall);
      }
      sent := [Sent(tx, landed)];
    }

    method FindSettlementRound(w: World, m: Market, id: nat, closeTime: nat) returns (answer: Result<Option<nat>>)
      modifies this`searched
      ensures OnlyDesk(m.address)
      ensures Found(DeskOf(m.address), answer) == FindSettlement(old(DeskOf(m.address)), w, m, id, closeTime)
    {
      if m.event { return Vetted(w, id, 0); }
      var head := w.feed(id).head;
      if head.Err? { return Err; }
      if head.value.None? { return Ok(None); }
      var latest := head.value.value;
      if latest.updatedAt.None? || latest.updatedAt.value <= closeTime { return Ok(None); }
      var probe := Key(m.address, id, SearchFeed);
      var candidate: Option<nat>;
      if probe in searched && searched[probe].head == latest.id {
        candidate := searched[probe].candidate;
      } else {
        var found, asked := FindCloseRoundFrom(w.feed(id).read, Some(latest.id), latest.updatedAt, closeTime);
        if found.Err? { return Err; }
        candidate := found.value;
        PutMemo(probe, Memo(latest.id, candidate));
      }
      if candidate.None? { return Ok(None); }
      return Vetted(w, id, candidate.value);
    }

    method SettleRound(w: World, m: Market, id: nat, r: Round, action: Action) returns (sent: seq<Sent>)
      modifies this`searched, this`retry
      ensures OnlyDesk(m.address)
      ensures Outcome(DeskOf(m.address), sent) == Settle(old(DeskOf(m.address)), old(MyTerms()), w, m, id, r, action)
    {
      var answer := FindSettlementRound(w, m, id, r.closeTime);
      if answer.Err? { return []; }
      if answer.value.Some? {
        sent := SendTx(w, Key(m.address, id, ResolveIt), ResolveTx(id, answer.value.value));
        return;
      }
      if action != RefundUnsettled { return []; }
      if w.owned(id) != Ok(true) { return []; }
      sent := SendTx(w, Key(m.address, id, RefundUnsettled), VoidUnsettledTx(id));
    }

    method DriveOne(w: World, m: Market, id: nat, r: Round, now: nat) returns (sent: seq<Sent>)
      modifies this`searched, this`retry
      ensures OnlyDesk(m.address)
      ensures Outcome(DeskOf(m.address), sent) == DriveRound(old(DeskOf(m.address)), old(MyTerms()), w, m, id, r, now)
    {
      var action := ActionFor(r, m.timing, now);
      if action.NoAction? { return []; }
      var ready := IsReady(Key(m.address, id, action), w.wall);
      if !ready { return []; }
      if action.LockIt? {
        sent := SendTx(w, Key(m.address, id, LockIt), LockTx(id));
      } else if action.VoidUnlocked? {
        sent := SendTx(w, Key(m.address, id, VoidUnlocked), VoidUnlockedTx(id));
      } else {
        sent := SettleRound(w, m, id, r, action);
      }
    }

    /** Terminal is terminal: a settled round takes its backoffs and its memo with it. */
    method Forget(m: Market, id: nat)
      modifies this`searched, this`retry
      ensures OnlyDesk(m.address)
      ensures
        var d := old(DeskOf(m.address));
        DeskOf(m.address) ==
          d.(retry := d.retry - RoundKeys(m.address, id), searched := d.searched - {Key(m.address, id, SearchFeed)})
    {
      DropRetry(m.address, RoundKeys(m.address, id));
      DropMemo(Key(m.address, id, SearchFeed));
    }

    method OpenNextRound(w: World, m: Market, now: nat) returns (sent: seq<Sent>)
      modifies this`notOwner, this`refusal, this`retry
      ensures OnlyDesk(m.address)
      ensures Outcome(DeskOf(m.address), sent) == OpenRound(old(DeskOf(m.address)), old(MyTerms()), w, m, now)
    {
      hide DeskOf, NextSchedule, ScheduleProblem, SchedulePlan, Send, StrikeFor, Ready;
      sent := [];
      if w.owned(0).Err? { return; }
      SetNotOwner(m.address, !w.owned(0).value);
      if !w.owned(0).value { return; }
      var plan := SchedulePlan(m, w.opening.horizon, cfg);
      if plan.Unplannable? { return; }
      var schedule := NextSchedule(now, cfg.lead, plan.entryWindow, plan.observation);
      if ScheduleProblem(schedule, m.timing.entryCutoff, now).Some? { return; }
      if w.opening.gate.Err? { return; }
      if w.opening.gate.value.Refused? {
        SetRefusal(m.address, Some(w.opening.gate.value.code));
        return;
      }
      SetRefusal(m.address, None);
      var key := Key(m.address, 0, OpenNext);
      var ready := IsReady(key, w.wall);
      if !ready { return; }
      if !m.strikeAtOpen {
        sent := SendTx(w, key, OpenTx(schedule, None));
        return;
      }
      if w.opening.spot.Err? || w.opening.spot.value.None? { return; }
      var strike := StrikeFor(w.opening.spot.value.value);
      if strike.None? { return; }
      sent := SendTx(w, key, OpenTx(schedule, strike));
    }

    method SetNotOwner(a: Address, on: bool)
      modifies this`notOwner
      ensures OnlyDesk(a) && DeskOf(a) == old(DeskOf(a)).(notOwner := on)
    {
      notOwner := notOwner[a := on];
    }

    method SetRefusal(a: Address, code: Option<string>)
      modifies this`refusal
      ensures OnlyDesk(a) && DeskOf(a) == old(DeskOf(a)).(refusal := code)
    {
      if code.Some? {
        refusal := refusal[a := code.value];
      } else {
        refusal := refusal - {a};
      }
    }

    /** The cursor past one more settled round. */
    method PassOver(m: Market, id: nat)
      modifies this`cursor, this`searched, this`retry
      ensures OnlyDesk(m.address)
      ensures DeskOf(m.address) == Passed(old(DeskOf(m.address)), m.address, id)
    {
      cursor := cursor[m.address := id + 1];
      Forget(m, id);
    }

    /** The rounds from the cursor up, each given the one action it needs. */
    method ScanRounds(w: World, m: Market, now: nat, count: nat) returns (s: Scan)
      modifies this`cursor, this`searched, this`retry
      ensures OnlyDesk(m.address) && s.desk == DeskOf(m.address)
      ensures
        var d := old(DeskOf(m.address));
        s == ScanFrom(Scan(d, [], ZERO_ROUND, true, true), old(MyTerms()), w, m, now, Start(d), count)
    {
      hide DriveRound, Of, DrivenIn;
      ghost var terms, before := MyTerms(), DeskOf(m.address);
      var start := CursorIn(cursor, m.address);
      if start == 0 { start := 1; }
      var latest, advance, sent := ZERO_ROUND, true, [];
      var id := start;
      while id <= count
        invariant OnlyDesk(m.address)
        invariant ScanFrom(Scan(before, [], ZERO_ROUND, true, true), terms, w, m, now, Start(before), count)
               == ScanFrom(Scan(DeskOf(m.address), sent, latest, advance, true), terms, w, m, now, id, count)
        decreases if id <= count then count + 1 - id else 0
      {
        if w.roundAt(id).Err? { return Scan(DeskOf(m.address), sent, latest, advance, false); }
        var round := w.roundAt(id).value;
        if id == count { latest := round; }
        if Terminal(round) {
          if advance { PassOver(m, id); }
        } else {
          advance := false;
          var one := DriveOne(w, m, id, round, now);
          sent := sent + one;
        }
        id := id + 1;
      }
      return Scan(DeskOf(m.address), sent, latest, advance, true);
    }

    method DriveMarket(w: World, m: Market, now: nat) returns (sent: seq<Sent>)
      modifies this`cursor, this`pending, this`searched, this`retry, this`notOwner, this`refusal
      ensures OnlyDesk(m.address)
      ensures Outcome(DeskOf(m.address), sent) == Drive(old(DeskOf(m.address)), old(MyTerms()), w, m, now)
    {
      hide ScanFrom, OpenRound, Of, DrivenIn;
      if w.count.Err? { return []; }
      var scan := ScanRounds(w, m, now, w.count.value);
      sent := scan.sent;
      if !scan.complete { return; }
      // Only a complete pass gets this far; otherwise the previous answer stands.
      pending := pending[m.address := !scan.advance];
      if !cfg.openRounds || Flag(retiring, m.address) || m.event
        || !NeedsNewRound(scan.latest, m.timing.entryCutoff, now) {
        return;
      }
      var newest := OpenNextRound(w, m, now);
      sent := sent + newest;
    }

    // ---- The set of markets ------------------------------------------------------------------------

    predicate Drives(a: Address)
      reads this
    {
      DrivenIn(markets, a)
    }

    ghost function SeatOf(a: Address): Seat
      reads this
    {
      if Drives(a) then Driven(DeskOf(a)) else Absent
    }

    /** One seat a market, nothing remembered of the others, and the backoff limit of this set. */
    ghost predicate Valid()
      reads this
    {
      && DistinctMarkets(markets)
      && (forall a :: !Drives(a) ==> DeskOf(a) == EMPTY_DESK)
      && maxBackoff == BackoffLimit(markets)
    }

    /** Drops every entry for one market, in every map. */
    method ForgetMarket(m: Market)
      modifies this
      ensures markets == old(markets) && maxBackoff == old(maxBackoff)
      ensures DeskOf(m.address) == EMPTY_DESK
      ensures m.address !in cursor && m.address !in notOwner && m.address !in refusal
      ensures m.address !in pending && m.address !in retiring && m.address !in rejected
      ensures forall k :: k in retry || k in searched ==> k.market != m.address
      ensures forall b :: b != m.address ==> DeskOf(b) == old(DeskOf(b)) && Get(rejected, b) == old(Get(rejected, b))
    {
      cursor := cursor - {m.address};
      notOwner := notOwner - {m.address};
      refusal := refusal - {m.address};
      pending := pending - {m.address};
      retiring := retiring - {m.address};
      rejected := rejected - {m.address};
      forall b { WithoutOf(retry, m.address, b); }
      forall b { WithoutOf(searched, m.address, b); }
      retry := Without(retry, m.address);
      searched := Without(searched, m.address);
    }

    /** Lets go of every retiring market that has nothing pending. */
    method RetireFinished()
      requires Valid()
      modifies this
      ensures Valid()
      ensures forall a :: SeatOf(a) == Retired(old(SeatOf(a)))
      ensures forall a :: Get(rejected, a) == old(Get(rejected, a)) || Drives(a) != old(Drives(a))
    {
      hide Of, BackoffLimit;
      if |retiring| == 0 { return; }
      var next := DropFinished();
      label Dropped:
      markets := next;
      maxBackoff := BackoffLimit(next);
      forall a ensures DeskOf(a) == old@Dropped(DeskOf(a)) {}
    }

    method DropFinished() returns (next: seq<Market>)
      requires Valid()
      modifies this
      ensures markets == old(markets) && maxBackoff == old(maxBackoff) && DistinctMarkets(next)
      ensures forall a :: DrivenIn(next, a) <==> old(Drives(a)) && Retired(old(SeatOf(a))).Driven?
      ensures forall a :: DeskOf(a) == DeskIn(Retired(old(SeatOf(a))))
      ensures forall a ::
        Get(rejected, a) == old(Get(rejected, a)) || (old(Drives(a)) && Retired(old(SeatOf(a))).Absent?)
    {
      hide DeskOf, DrivenIn, DistinctMarkets, BackoffLimit, Get, Flag;
      next := [];
      NothingDriven();
      var i := 0;
      while i < |markets|
        invariant i <= |markets| && markets == old(markets) && maxBackoff == old(maxBackoff)
        invariant DistinctMarkets(next)
        invariant forall a :: DrivenIn(next, a) <==> DrivenIn(markets[..i], a) && Retired(old(SeatOf(a))).Driven?
        invariant forall a ::
          DeskOf(a) ==
            if DrivenIn(markets[..i], a) && Retired(old(SeatOf(a))).Absent? then EMPTY_DESK else old(DeskOf(a))
        invariant forall a ::
          Get(rejected, a) == old(Get(rejected, a)) || (old(Drives(a)) && Retired(old(SeatOf(a))).Absent?)
      {
        var m := markets[i];
        DrivenNext(markets, i);
        var finished := Finished(m);
        if finished {
          ForgetMarket(m);
        } else {
          DrivenSnoc(next, m);
          next := next + [m];
        }
        i := i + 1;
      }
      assert markets[..i] == markets;
    }

    method HasPending(m: Market) returns (waiting: bool)
      ensures waiting == DeskOf(m.address).pending
    {
      waiting := Flag(pending, m.address);
    }

    method Finished(m: Market) returns (finished: bool)
      ensures finished == (DeskOf(m.address).retiring && !DeskOf(m.address).pending)
    {
      finished := Flag(retiring, m.address) && !Flag(pending, m.address);
    }

    /** One registry read: markets join, stay, retire or leave, each by its seat's rule. */
    method RefreshMarkets(listing: Result<seq<Listing>>)
      requires Valid() && (listing.Ok? ==> DistinctListings(listing.value))
      modifies this
      ensures Valid()
      ensures listing.Err? ==> unchanged(this)
      ensures listing.Ok? ==> forall a ::
        SeatOf(a) == Refreshed(old(SeatOf(a)), ListedIn(listing.value, a), JoinsIn(listing.value, a, cfg))
      ensures listing.Ok? ==> forall i :: 0 <= i < |listing.value| && !old(Drives(listing.value[i].market.address)) ==>
        Get(rejected, listing.value[i].market.address) ==
          ValidateMarket(listing.value[i].market, listing.value[i].horizon, cfg)
    {
      hide Of, JoinsIn, ListedIn, DrivenIn;
      if listing.Err? { return; }
      JoinersAreListed(listing.value, cfg);
      forall i | 0 <= i < |listing.value| ensures ListedIn(listing.value, listing.value[i].market.address) {
        JoinsNext(listing.value, i, cfg);
      }
      var kept := KeepListed(listing.value);
      var next := AddListed(listing.value, kept);
      markets := next;
      maxBackoff := BackoffLimit(next);
    }

    /** The second half: the newly listed markets, added or refused. */
    method AddListed(listed: seq<Listing>, kept: seq<Market>) returns (next: seq<Market>)
      requires DistinctListings(listed) && DistinctMarkets(kept)
      requires forall a :: ListedIn(listed, a) && !DrivenIn(kept, a) ==> DeskOf(a) == EMPTY_DESK
      modifies this`pending, this`rejected
      ensures DistinctMarkets(next)
      ensures forall a :: DrivenIn(next, a) <==> DrivenIn(kept, a) || JoinsIn(listed, a, cfg)
      ensures forall a ::
        DeskOf(a) ==
          if JoinsIn(listed, a, cfg) && !DrivenIn(kept, a) then EMPTY_DESK.(pending := true) else old(DeskOf(a))
      ensures forall i :: 0 <= i < |listed| && !DrivenIn(kept, listed[i].market.address) ==>
        Get(rejected, listed[i].market.address) == ValidateMarket(listed[i].market, listed[i].horizon, cfg)
    {
      hide DeskOf, DrivenIn, JoinsIn, ListedIn, ValidateMarket, DistinctMarkets;
      next := kept;
      var j := 0;
      NothingJoins(cfg);
      while j < |listed|
        invariant j <= |listed|
        invariant DistinctMarkets(next)
        invariant forall a :: DrivenIn(next, a) <==> DrivenIn(kept, a) || JoinsIn(listed[..j], a, cfg)
        invariant forall a ::
          DeskOf(a) ==
            if JoinsIn(listed[..j], a, cfg) && !DrivenIn(kept, a) then EMPTY_DESK.(pending := true)
            else old(DeskOf(a))
        invariant forall i :: 0 <= i < j && !DrivenIn(kept, listed[i].market.address) ==>
          Get(rejected, listed[i].market.address) == ValidateMarket(listed[i].market, listed[i].horizon, cfg)
      {
        var m := listed[j].market;
        JoinsNext(listed, j, cfg);
        if !DrivenIn(kept, m.address) {
          var why := ValidateMarket(m, listed[j].horizon, cfg);
          Note(m.address, why);
          if why.None? {
            SetPending(m.address);
            DrivenSnoc(next, m);
            next := next + [m];
          }
        }
        j := j + 1;
      }
      assert listed[..j] == listed;
    }

    method SetRetiring(a: Address, on: bool)
      modifies this`retiring
      ensures OnlyDesk(a) && DeskOf(a) == old(DeskOf(a)).(retiring := on)
    {
      retiring := if on then retiring[a := true] else retiring - {a};
    }

    method SetPending(a: Address)
      modifies this`pending
      ensures OnlyDesk(a) && DeskOf(a) == old(DeskOf(a)).(pending := true)
    {
      pending := pending[a := true];
    }

    /** Why a listing is refused, or nothing once it is not. */
    method Note(a: Address, why: Option<Refusal>)
      modifies this`rejected
      ensures forall b :: DeskOf(b) == old(DeskOf(b))
      ensures Get(rejected, a) == why
      ensures forall b :: b != a ==> Get(rejected, b) == old(Get(rejected, b))
    {
      if why.Some? {
        rejected := rejected[a := why.value];
      } else {
        rejected := rejected - {a};
      }
    }

    /** The first half of a refresh: what becomes of the markets already driven. */
    method KeepListed(listed: seq<Listing>) returns (next: seq<Market>)
      requires Valid()
      modifies this
      ensures markets == old(markets) && maxBackoff == old(maxBackoff) && DistinctMarkets(next)
      ensures forall a :: DrivenIn(next, a) <==>
        old(Drives(a)) && Refreshed(old(SeatOf(a)), ListedIn(listed, a), false).Driven?
      ensures forall a :: DeskOf(a) == DeskIn(Refreshed(old(SeatOf(a)), ListedIn(listed, a), false))
    {
      hide DeskOf, DrivenIn, ListedIn, DistinctMarkets, Flag, Get, BackoffLimit;
      next := [];
      NothingDriven();
      var i := 0;
      while i < |markets|
        invariant i <= |markets| && markets == old(markets) && maxBackoff == old(maxBackoff)
        invariant DistinctMarkets(next)
        invariant forall a :: DrivenIn(next, a) <==>
          DrivenIn(markets[..i], a) && Refreshed(old(SeatOf(a)), ListedIn(listed, a), false).Driven?
        invariant forall a ::
          DeskOf(a) ==
            if DrivenIn(markets[..i], a) then DeskIn(Refreshed(old(SeatOf(a)), ListedIn(listed, a), false))
            else old(DeskOf(a))
      {
        var m := markets[i];
        DrivenNext(markets, i);
        var waiting := HasPending(m);
        if ListedIn(listed, m.address) {
          SetRetiring(m.address, false);
        } else if waiting {
          SetRetiring(m.address, true);
        } else {
          ForgetMarket(m);
        }
        if ListedIn(listed, m.address) || waiting {
          DrivenSnoc(next, m);
          next := next + [m];
        }
        i := i + 1;
      }
      assert markets[..i] == markets;
    }

    /** One poll: every market driven once, in order, then the finished ones retired. */
    method Tick(clock: Result<nat>, world: Address -> World) returns (sent: map<Address, seq<Sent>>)
      requires Valid()
      modifies this
      ensures Valid()
      ensures clock.Err? ==> unchanged(this) && sent == map[]
      ensures clock.Ok? ==> forall i :: 0 <= i < |old(markets)| ==>
        var m := old(markets)[i];
        var o := Drive(old(DeskOf(m.address)), old(MyTerms()), world(m.address), m, clock.value);
        SeatOf(m.address) == Retired(Driven(o.desk)) && m.address in sent && sent[m.address] == o.sent
      ensures clock.Ok? ==> forall a :: !old(Drives(a)) ==> SeatOf(a).Absent?
    {
      hide Drive, Of;
      sent := map[];
      if clock.Err? { return; }
      ghost var terms := MyTerms();
      var i := 0;
      while i < |markets|
        invariant i <= |markets| && markets == old(markets) && MyTerms() == terms
        invariant forall a :: !DrivenIn(markets[..i], a) ==> DeskOf(a) == old(DeskOf(a))
        invariant forall j :: 0 <= j < i ==>
          var m := markets[j];
          var o := Drive(old(DeskOf(m.address)), terms, world(m.address), m, clock.value);
          DeskOf(m.address) == o.desk && m.address in sent && sent[m.address] == o.sent
      {
        var m := markets[i];
        DrivenNext(markets, i);
        var one := DriveMarket(world(m.address), m, clock.value);
        sent := sent[m.address := one];
        i := i + 1;
      }
      assert markets[..i] == markets;
      assert forall j :: 0 <= j < |markets| ==> Drives(markets[j].address);
      RetireFinished();
    }
  }

  /** Starting up refuses what a refresh would only skip. */
  method NewKeeper(listed: seq<Listing>, cfg: Config) returns (k: Keeper?)
    requires DistinctListings(listed)
    ensures k == null <==>
      listed == [] || cfg.pollInterval == 0 || exists i :: 0 <= i < |listed| && !Drivable(listed[i], cfg)
    ensures k != null ==> fresh(k) && k.Valid() && k.cfg == cfg
    ensures k != null ==> forall a :: k.SeatOf(a) == if ListedIn(listed, a) then Driven(EMPTY_DESK) else Absent
  {
    if |listed| == 0 || cfg.pollInterval == 0 { return null; }
    var i := 0;
    var markets: seq<Market> := [];
    while i < |listed|
      invariant i <= |listed| && |markets| == i
      invariant forall j :: 0 <= j < i ==> Drivable(listed[j], cfg) && markets[j] == listed[j].market
    {
      if ValidateMarket(listed[i].market, listed[i].horizon, cfg).Some? {
        assert !Drivable(listed[i], cfg);
        return null;
      }
      markets := markets + [listed[i].market];
      i := i + 1;
    }
    forall a ensures DrivenIn(markets, a) <==> ListedIn(listed, a) {
      if ListedIn(listed, a) {
        var j :| 0 <= j < |listed| && listed[j].market.address == a;
        assert markets[j].address == a;
      }
    }
    k := new Keeper(markets, cfg);
  }
}
