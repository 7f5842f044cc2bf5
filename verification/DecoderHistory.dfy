/** The decoder change the replay was written for: nominal flows added after the balance entries
    that were already in the table (events.go, the notes on Transfer and Supplied). */
module DecoderHistory {
  import opened FixedPoint
  import opened Ledger
  import opened Chain
  import opened Decoder
  import opened Rows
  import opened Replay

  /** Decoders that read the same logs and only append records to what they derived. */
  ghost predicate Appends(previous: LogDecoder, current: LogDecoder) {
    forall e :: match (previous(e), current(e))
                case (Ok(p), Ok(c)) => p.entries <= c.entries && p.rounds <= c.rounds
                case (Err, Err) => true
                case _ => false
  }

  ghost predicate SameDeployment(previous: seq<ContractSpec>, current: seq<ContractSpec>) {
    && |previous| == |current|
    && forall i :: 0 <= i < |previous| ==>
         previous[i] == current[i].(decode := previous[i].decode) && Appends(previous[i].decode, current[i].decode)
  }

  lemma {:induction false} SpecsCorrespond(previous: seq<ContractSpec>, current: seq<ContractSpec>, address: Address)
    requires SameDeployment(previous, current)
    ensures SpecFor(previous, address).Some? <==> SpecFor(current, address).Some?
    ensures SpecFor(previous, address).Some? ==>
      var p, c := SpecFor(previous, address).value, SpecFor(current, address).value;
      p == c.(decode := p.decode) && Appends(p.decode, c.decode)
  {
    if previous != [] {
      assert forall i :: 0 <= i < |previous| - 1 ==>
        previous[1..][i] == previous[i + 1] && current[1..][i] == current[i + 1];
      SpecsCorrespond(previous[1..], current[1..], address);
    }
  }

  lemma LogBeginsAlike(previous: seq<ContractSpec>, current: seq<ContractSpec>, h: nat, b: Block, l: Log)
    requires SameDeployment(previous, current)
    ensures Decoded(previous, h, b, l).entries <= Decoded(current, h, b, l).entries
    ensures Decoded(previous, h, b, l).rounds <= Decoded(current, h, b, l).rounds
  {
    SpecsCorrespond(previous, current, l.address);
    if !l.removed && SpecFor(previous, l.address).Some? {
      var p, c := SpecFor(previous, l.address).value, SpecFor(current, l.address).value;
      assert match (p.decode(l.event), c.decode(l.event))
             case (Ok(x), Ok(y)) => x.entries <= y.entries && x.rounds <= y.rounds
             case (Err, Err) => true
             case _ => false;
    }
  }

  /** Appending decoders are all a replay needs. */
  lemma AppendingDecodersExtend(previous: seq<ContractSpec>, current: seq<ContractSpec>)
    requires SameDeployment(previous, current)
    ensures Extends(EntrySource(previous), EntrySource(current))
    ensures Extends(RoundSource(previous), RoundSource(current))
    ensures Watched(previous) == Watched(current)
  {
    forall h: nat, b: Block, l: Log
      ensures BeginsAlike(EntrySource(previous), EntrySource(current), h, b, l)
      ensures BeginsAlike(RoundSource(previous), RoundSource(current), h, b, l)
    {
      LogBeginsAlike(previous, current, h, b, l);
    }
    forall a: Address ensures a in Watched(previous) <==> a in Watched(current) {
      SpecsCorrespond(previous, current, a);
      SpecForWatched(previous, a);
      SpecForWatched(current, a);
    }
  }

  /** The vault decoder while a transfer was recorded only as the balances it moved. */
  function DecodeVaultBefore(e: Event): Result<Drafts> {
    match e
    case TransferLog(from, to, value) =>
      EntriesOnly((if from != ZERO_ADDRESS then [EntryBody(Balance, from, Shares, Neg(value), to)] else [])
                  + (if to != ZERO_ADDRESS then [EntryBody(Balance, to, Shares, value, from)] else []))
    case _ => DecodeVault(e)
  }

  /** The pool decoder while the nominal amounts were discarded. */
  function DecodePoolBefore(e: Event): Result<Drafts> {
    match e
    case SuppliedLog(user, _, scaled) => EntriesOnly([EntryBody(Balance, user, SupplyScaled, scaled, "")])
    case PoolWithdrawnLog(user, _, scaled) => EntriesOnly([EntryBody(Balance, user, SupplyScaled, Neg(scaled), "")])
    case _ => DecodePool(e)
  }

  /** Today's decoders only append to those. */
  lemma FlowsWereAppended()
    ensures Appends(DecodeVaultBefore, DecodeVault) && Appends(DecodePoolBefore, DecodePool)
  {}

  /** Had the flows been put in front of the balances, the replay would not be safe: the balance
      records would have moved to other indices. */
  lemma FlowsInFrontWouldNotAppend(from: Address, to: Address, value: nat)
    requires from != ZERO_ADDRESS && to != ZERO_ADDRESS
    ensures
      var flowsFirst: LogDecoder := (e: Event) =>
        if e == TransferLog(from, to, value)
        then EntriesOnly(TransferEntries(from, to, value)[2..] + TransferEntries(from, to, value)[..2])
        else DecodeVault(e);
      !Appends(DecodeVaultBefore, flowsFirst)
  {
    var flowsFirst: LogDecoder := (e: Event) =>
      if e == TransferLog(from, to, value)
      then EntriesOnly(TransferEntries(from, to, value)[2..] + TransferEntries(from, to, value)[..2])
      else DecodeVault(e);
    var l := TransferLog(from, to, value);
    var before, after := DecodeVaultBefore(l).value.entries, flowsFirst(l).value.entries;
    assert before[0].kind.Balance? && after[0].kind.Flow?;
    assert !(before <= after);
  }
}
