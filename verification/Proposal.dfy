/**
 The block builder: byte and gas budgets, the baseFee gate, and the senders it strands.

 `Choose` is the decision on one offered transaction in unbounded arithmetic; the selector, with
 its signed byte counter and unsigned gas counter, is proved to make the same decisions. The last
 part joins the builder to the check validators run on its blocks.
 */
module Proposal {
  import opened Common
  import opened Seqs
  import P = ProtoSize
  import B = BlockList

  type Denom = string

  /** A transaction offered by the mempool with its bytes. `fees` and `gas` matter if it is a FeeTx. */
  datatype Offer = Offer(tx: Option<B.Tx>, bz: Bytes, isFeeTx: bool, gas: nat, fees: map<Denom, nat>)

  datatype Limits = Limits(maxTxBytes: nat, maxBlockGas: nat)

  /** The gate of one proposal: the base fee and the denomination it is paid in. */
  datatype Gate = Gate(baseFee: int, denom: Denom)

  /** What the base fee retriever returns; a nil base fee disables the gate. */
  datatype Fetched = Fetched(baseFee: Option<int>, denom: Denom)

  function RoundGate(fetched: Option<Fetched>): (gate: Option<Gate>) {
    if fetched.Some? && fetched.value.baseFee.Some?
    then Some(Gate(fetched.value.baseFee.value, fetched.value.denom))
    else None
  }

  // ---------------------------------------------------------------------------------------
  // One proposal, on values

  function Fee(o: Offer, denom: Denom): (n: nat) { if denom in o.fees then o.fees[denom] else 0 }

  /** Quo of the arbitrary-precision integers, on a non-negative dividend. */
  function Quo(a: nat, b: nat): (q: nat)
    requires b > 0
  {
    if a < b then 0 else 1 + Quo(a - b, b)
  }

  /** The gate compares the fee per gas, rounded down, with the base fee. */
  predicate Gated(gate: Option<Gate>, o: Offer) {
    && o.isFeeTx && gate.Some? && gate.value.denom != "" && o.gas > 0
    && Quo(Fee(o, gate.value.denom), o.gas) < gate.value.baseFee
  }

  function Size(o: Offer): (n: nat) { P.ProtoSizeForTx(o.bz) }

  function GasOf(o: Offer): (n: nat) { if o.isFeeTx then o.gas else 0 }

  function TotalSize(os: seq<Offer>): (n: nat) { Total(Size, os) }

  function TotalGas(os: seq<Offer>): (n: nat) { Total(GasOf, os) }

  datatype Selection = Selection(chosen: seq<Offer>, skipped: seq<Bytes>)

  predicate Full(lim: Limits, s: Selection) {
    || TotalSize(s.chosen) >= lim.maxTxBytes
    || (lim.maxBlockGas > 0 && TotalGas(s.chosen) >= lim.maxBlockGas)
  }

  /** The tests before the gas budget: refused, stranded by the gate, or let through. */
  datatype Screening = Refused | Stranded | Passed

  function Screen(lim: Limits, gate: Option<Gate>, valid: Offer -> bool, chosen: seq<Offer>, o: Offer): (v: Screening) {
    if !valid(o) || TotalSize(chosen) + Size(o) > lim.maxTxBytes then Refused
    else if Gated(gate, o) then Stranded
    else Passed
  }

  function Admit(lim: Limits, chosen: seq<Offer>, o: Offer): (r: seq<Offer>) {
    if lim.maxBlockGas > 0 && TotalGas(chosen) + GasOf(o) > lim.maxBlockGas then chosen else chosen + [o]
  }

  function Choose(lim: Limits, gate: Option<Gate>, valid: Offer -> bool, s: Selection, o: Offer): (r: Selection) {
    match Screen(lim, gate, valid, s.chosen, o)
    case Refused => s
    case Stranded => s.(skipped := s.skipped + [o.bz])
    case Passed => s.(chosen := Admit(lim, s.chosen, o))
  }

  function ChooseAll(lim: Limits, gate: Option<Gate>, valid: Offer -> bool, s: Selection,
      os: seq<Offer>): (r: Selection) {
    if os == [] then s else Choose(lim, gate, valid, ChooseAll(lim, gate, valid, s, os[..|os| - 1]), os[|os| - 1])
  }

  function Raw(os: seq<Offer>): (r: seq<Bytes>) { seq(|os|, i requires 0 <= i < |os| => os[i].bz) }

  // ---------------------------------------------------------------------------------------
  // The selector

  /** The offer fits the types of the code: gas is a uint64, and its bytes fit in memory. */
  predicate Typed(o: Offer) { o.gas < TWO_64 && Size(o) < TWO_63 }

  class ExtTxSelector {
    var selectedTxs: seq<Bytes>
    var totalBytes: int
    var totalGas: nat
    var baseFee: Option<int>
    var evmDenom: Denom
    var gateSkipped: seq<Bytes>
    ghost var chosen: seq<Offer>

    /** The counters are the totals of what was selected and respect the limits. */
    ghost predicate Valid(lim: Limits)
      reads this`selectedTxs, this`totalBytes, this`totalGas, this`chosen
    {
      && selectedTxs == Raw(chosen)
      && totalBytes == TotalSize(chosen) <= lim.maxTxBytes
      && totalGas == (if lim.maxBlockGas > 0 then TotalGas(chosen) else 0)
      && (lim.maxBlockGas > 0 ==> totalGas <= lim.maxBlockGas)
    }

    /** A selector between two proposals. */
    ghost predicate Blank()
      reads this
    {
      selectedTxs == [] && totalBytes == 0 && totalGas == 0 && baseFee.None? && chosen == []
    }

    ghost function Value(): (s: Selection)
      reads this`chosen, this`gateSkipped
    {
      Selection(chosen, gateSkipped)
    }

    constructor ()
      ensures Blank() && gateSkipped == []
    {
      selectedTxs, totalBytes, totalGas, baseFee, evmDenom, gateSkipped, chosen := [], 0, 0, None, "", [], [];
    }

    /** Skipped bytes survive Clear; they leave only through DrainGateSkipped. */
    method Clear()
      modifies this
      ensures Blank() && gateSkipped == old(gateSkipped)
    {
      selectedTxs, totalBytes, totalGas, baseFee, evmDenom := [], 0, 0, None, "";
      chosen := [];
    }

    method DrainGateSkipped() returns (out: seq<Bytes>)
      modifies this`gateSkipped
      ensures out == old(gateSkipped) && gateSkipped == []
    {
      out := gateSkipped;
      gateSkipped := [];
    }

    /** What the gate is for the next offer. */
    ghost function CurrentGate(fetched: Option<Fetched>): (gate: Option<Gate>)
      reads this`baseFee, this`evmDenom
    {
      if baseFee.Some? then Some(Gate(baseFee.value, evmDenom)) else RoundGate(fetched)
    }

    /** Reads the gate once per proposal; `fetched` is what the retriever returns, if there is one. */
    method GateBaseFee(fetched: Option<Fetched>) returns (gate: Option<Gate>)
      modifies this`baseFee, this`evmDenom
      ensures gate == old(CurrentGate(fetched)) == CurrentGate(fetched)
      ensures gate.Some? ==> baseFee.Some?
    {
      if baseFee.None? && fetched.Some? {
        baseFee, evmDenom := fetched.value.baseFee, fetched.value.denom;
      }
      return if baseFee.Some? then Some(Gate(baseFee.value, evmDenom)) else None;
    }

    /** The gate is consulted for fee transactions only. */
    method IsGated(fetched: Option<Fetched>, o: Offer) returns (gated: bool)
      modifies this`baseFee, this`evmDenom
      ensures gated == Gated(old(CurrentGate(fetched)), o)
      ensures CurrentGate(fetched) == old(CurrentGate(fetched))
    {
      if !o.isFeeTx { return false; }
      var gate := GateBaseFee(fetched);
      return Gated(gate, o);
    }

    method IsFull(lim: Limits) returns (stop: bool)
      requires Valid(lim) && lim.maxTxBytes < TWO_63
      ensures stop == Full(lim, Value())
    {
      return Wrap(totalBytes) >= lim.maxTxBytes || (lim.maxBlockGas > 0 && totalGas >= lim.maxBlockGas);
    }

    method FitsBytes(lim: Limits, o: Offer) returns (fits: bool)
      requires Valid(lim) && Typed(o) && lim.maxTxBytes < TWO_63
      ensures fits == (TotalSize(chosen) + Size(o) <= lim.maxTxBytes)
    {
      return Wrap(Wrap(totalBytes) + Wrap(Size(o))) <= lim.maxTxBytes;
    }

    /** The gas budget and the selection itself, once bytes and gate have let the offer through. */
    method Take(lim: Limits, o: Offer)
      requires Valid(lim) && Typed(o) && lim.maxTxBytes < TWO_63 && lim.maxBlockGas < TWO_64
      requires TotalSize(chosen) + Size(o) <= lim.maxTxBytes
      modifies this`selectedTxs, this`totalBytes, this`totalGas, this`chosen
      ensures Valid(lim)
      ensures chosen == Admit(lim, old(chosen), o)
    {
      TotalsAppend(chosen, o);
      if lim.maxBlockGas > 0 && o.isFeeTx {
        if o.gas > Wrap(lim.maxBlockGas - totalGas) { return; }
        totalGas := Wrap(totalGas + o.gas);
      }
      selectedTxs := selectedTxs + [o.bz];
      totalBytes := totalBytes + Size(o);
      chosen := chosen + [o];
    }

    /** Validity, the byte budget and the gate. */
    method ScreenOffer(lim: Limits, fetched: Option<Fetched>, valid: Offer -> bool, o: Offer) returns (v: Screening)
      requires Valid(lim) && Typed(o) && lim.maxTxBytes < TWO_63
      modifies this`baseFee, this`evmDenom
      ensures v == Screen(lim, old(CurrentGate(fetched)), valid, chosen, o)
      ensures CurrentGate(fetched) == old(CurrentGate(fetched))
    {
      var fits := FitsBytes(lim, o);
      if !valid(o) || !fits { return Refused; }
      var gated := IsGated(fetched, o);
      return if gated then Stranded else Passed;
    }

    method Consider(lim: Limits, fetched: Option<Fetched>, valid: Offer -> bool, o: Offer)
      requires Valid(lim) && Typed(o) && lim.maxTxBytes < TWO_63 && lim.maxBlockGas < TWO_64
      modifies this
      ensures Valid(lim)
      ensures Value() == Choose(lim, old(CurrentGate(fetched)), valid, old(Value()), o)
      ensures CurrentGate(fetched) == old(CurrentGate(fetched))
    {
      var v := ScreenOffer(lim, fetched, valid, o);
      match v {
        case Refused =>
        case Stranded => gateSkipped := gateSkipped + [o.bz];
        case Passed => Take(lim, o);
      }
    }

    /** maxTxBytes comes from a non-negative int64 field of the request. */
    method SelectTxForProposal(lim: Limits, fetched: Option<Fetched>, valid: Offer -> bool,
        o: Offer) returns (stop: bool)
      requires Valid(lim) && Typed(o) && lim.maxTxBytes < TWO_63 && lim.maxBlockGas < TWO_64
      modifies this
      ensures Valid(lim)
      ensures Value() == Choose(lim, old(CurrentGate(fetched)), valid, old(Value()), o)
      ensures stop == Full(lim, Value())
      ensures CurrentGate(fetched) == old(CurrentGate(fetched))
    {
      Consider(lim, fetched, valid, o);
      stop := IsFull(lim);
    }
  }

  lemma TotalsAppend(os: seq<Offer>, o: Offer)
    ensures TotalSize(os + [o]) == TotalSize(os) + Size(o)
    ensures TotalGas(os + [o]) == TotalGas(os) + if o.isFeeTx then o.gas else 0
    ensures Raw(os + [o]) == Raw(os) + [o.bz]
  {
    TotalAppend(Size, os, o);
    TotalAppend(GasOf, os, o);
  }

  // ---------------------------------------------------------------------------------------
  // Every proposal

  lemma {:induction false} QuoBelow(a: nat, b: nat, q: int)
    requires b > 0
    ensures Quo(a, b) < q <==> a < q * b
  {
    if a >= b {
      QuoBelow(a - b, b, q - 1);
      assert (q - 1) * b == q * b - b;
    } else if q >= 1 {
      assert q * b >= b;
    } else {
      assert q * b <= 0;
    }
  }

  /** The rounded division decides exactly whether the fee covers baseFee times gas. */
  lemma GateExact(gate: Gate, o: Offer)
    requires o.isFeeTx && gate.denom != ""
    ensures Gated(Some(gate), o) <==> Fee(o, gate.denom) < gate.baseFee * o.gas
  {
    if o.gas > 0 { QuoBelow(Fee(o, gate.denom), o.gas, gate.baseFee); }
  }

  ghost predicate WithinLimits(lim: Limits, s: Selection) {
    && TotalSize(s.chosen) <= lim.maxTxBytes
    && (lim.maxBlockGas > 0 ==> TotalGas(s.chosen) <= lim.maxBlockGas)
  }

  predicate Pays(gate: Option<Gate>, o: Offer) {
    o.isFeeTx && gate.Some? && gate.value.denom != "" ==> Fee(o, gate.value.denom) >= gate.value.baseFee * o.gas
  }

  lemma UngatedPays(gate: Option<Gate>, o: Offer)
    requires !Gated(gate, o)
    ensures Pays(gate, o)
  {
    if o.isFeeTx && gate.Some? && gate.value.denom != "" { GateExact(gate.value, o); }
  }

  /** Over any sequence of offers in one proposal, what is chosen stays within both budgets. */
  lemma {:induction false} ChosenWithinLimits(lim: Limits, gate: Option<Gate>, valid: Offer -> bool, os: seq<Offer>)
    ensures WithinLimits(lim, ChooseAll(lim, gate, valid, Selection([], []), os))
  {
    if os != [] {
      ChosenWithinLimits(lim, gate, valid, os[..|os| - 1]);
      TotalsAppend(ChooseAll(lim, gate, valid, Selection([], []), os[..|os| - 1]).chosen, os[|os| - 1]);
    }
  }

  /** Each chosen transaction was offered and valid, and pays at least baseFee times its gas. */
  lemma {:induction false} ChosenPay(lim: Limits, gate: Option<Gate>, valid: Offer -> bool, os: seq<Offer>, o: Offer)
    requires o in ChooseAll(lim, gate, valid, Selection([], []), os).chosen
    ensures o in os && valid(o) && Pays(gate, o)
  {
    var front, last := os[..|os| - 1], os[|os| - 1];
    if o in ChooseAll(lim, gate, valid, Selection([], []), front).chosen {
      ChosenPay(lim, gate, valid, front, o);
    } else {
      UngatedPays(gate, o);
    }
  }

  /** A block that is full stays full, whatever is offered next. */
  lemma {:induction false} FullForGood(lim: Limits, gate: Option<Gate>, valid: Offer -> bool, s: Selection,
      os: seq<Offer>)
    requires Full(lim, s)
    ensures Full(lim, ChooseAll(lim, gate, valid, s, os))
  {
    if os != [] {
      FullForGood(lim, gate, valid, s, os[..|os| - 1]);
      TotalsAppend(ChooseAll(lim, gate, valid, s, os[..|os| - 1]).chosen, os[|os| - 1]);
    }
  }

  // ---------------------------------------------------------------------------------------
  // Exactly what is selected

  /** The offer pays less than the base fee the retriever returned, if it returned one. */
  predicate Underpays(fetched: Option<Fetched>, o: Offer) {
    && o.isFeeTx && fetched.Some? && fetched.value.baseFee.Some? && fetched.value.denom != ""
    && Fee(o, fetched.value.denom) < fetched.value.baseFee.value * o.gas
  }

  lemma UnderpaysIsGated(fetched: Option<Fetched>, o: Offer)
    ensures Gated(RoundGate(fetched), o) <==> Underpays(fetched, o)
  {
    var gate := RoundGate(fetched);
    if o.isFeeTx && gate.Some? && gate.value.denom != "" { GateExact(gate.value, o); }
  }

  predicate FitsBytesOf(lim: Limits, before: seq<Offer>, o: Offer) {
    TotalSize(before) + P.ProtoSizeForTx(o.bz) <= lim.maxTxBytes
  }

  predicate FitsGasOf(lim: Limits, before: seq<Offer>, o: Offer) {
    lim.maxBlockGas > 0 && o.isFeeTx ==> TotalGas(before) + o.gas <= lim.maxBlockGas
  }

  /** What one proposal has selected after the first `n` offers. */
  function ChosenFrom(lim: Limits, fetched: Option<Fetched>, valid: Offer -> bool, os: seq<Offer>, n: nat)
    : (r: seq<Offer>)
    requires n <= |os|
  {
    ChooseAll(lim, RoundGate(fetched), valid, Selection([], []), os[..n]).chosen
  }

  /** Offer `i` is valid, pays, and fits beside what was selected before it. */
  predicate SelectsAt(lim: Limits, fetched: Option<Fetched>, valid: Offer -> bool, os: seq<Offer>, i: int) {
    && 0 <= i < |os| && valid(os[i]) && !Underpays(fetched, os[i])
    && FitsBytesOf(lim, ChosenFrom(lim, fetched, valid, os, i), os[i])
    && FitsGasOf(lim, ChosenFrom(lim, fetched, valid, os, i), os[i])
  }

  /** Offer `i` is valid and its bytes fit, but it does not pay. */
  predicate StrandsAt(lim: Limits, fetched: Option<Fetched>, valid: Offer -> bool, os: seq<Offer>, i: int) {
    && 0 <= i < |os| && valid(os[i]) && Underpays(fetched, os[i])
    && FitsBytesOf(lim, ChosenFrom(lim, fetched, valid, os, i), os[i])
  }

  ghost function Selects(lim: Limits, fetched: Option<Fetched>, valid: Offer -> bool, os: seq<Offer>)
    : (keep: nat -> bool) {
    i => SelectsAt(lim, fetched, valid, os, i)
  }

  ghost function Strands(lim: Limits, fetched: Option<Fetched>, valid: Offer -> bool, os: seq<Offer>)
    : (keep: nat -> bool) {
    i => StrandsAt(lim, fetched, valid, os, i)
  }

  lemma ChooseStep(lim: Limits, fetched: Option<Fetched>, valid: Offer -> bool, os: seq<Offer>, i: nat)
    requires i < |os|
    requires lim.maxBlockGas > 0 ==> TotalGas(ChosenFrom(lim, fetched, valid, os, i)) <= lim.maxBlockGas
    ensures var s := ChooseAll(lim, RoundGate(fetched), valid, Selection([], []), os[..i]);
            ChooseAll(lim, RoundGate(fetched), valid, Selection([], []), os[..i + 1]) ==
            Selection(s.chosen + (if SelectsAt(lim, fetched, valid, os, i) then [os[i]] else []),
                s.skipped + if StrandsAt(lim, fetched, valid, os, i) then [os[i].bz] else [])
  {
    assert os[..i + 1][..i] == os[..i];
    UnderpaysIsGated(fetched, os[i]);
  }

  lemma {:induction false} ChosenPrefix(lim: Limits, fetched: Option<Fetched>, valid: Offer -> bool, os: seq<Offer>,
      n: nat, selects: nat -> bool, strands: nat -> bool)
    requires n <= |os|
    requires forall i: nat :: i < n ==> selects(i) == SelectsAt(lim, fetched, valid, os, i)
    requires forall i: nat :: i < n ==> strands(i) == StrandsAt(lim, fetched, valid, os, i)
    ensures ChooseAll(lim, RoundGate(fetched), valid, Selection([], []), os[..n]) ==
            Selection(Picked(os[..n], selects), Raw(Picked(os[..n], strands)))
  {
    if n > 0 {
      ChosenPrefix(lim, fetched, valid, os, n - 1, selects, strands);
      ChosenWithinLimits(lim, RoundGate(fetched), valid, os[..n - 1]);
      ChooseStep(lim, fetched, valid, os, n - 1);
      PickedNext(os, selects, n - 1);
      PickedNext(os, strands, n - 1);
      RawAppend(Picked(os[..n - 1], strands), os[n - 1]);
    }
  }

  lemma RawAppend(os: seq<Offer>, o: Offer)
    ensures Raw(os + [o]) == Raw(os) + [o.bz] && Raw(os + []) == Raw(os) + []
  {
    assert os + [] == os;
  }

  /**
   Every offer is decided as it should be: an offer is selected if and only if it is valid, pays
   the base fee for its gas, and fits beside what was selected before it; what is stranded is
   exactly what is valid and fits in bytes but underpays. Both keep the order of the offers.
   */
  lemma ChosenExact(lim: Limits, fetched: Option<Fetched>, valid: Offer -> bool, os: seq<Offer>)
    ensures var s := ChooseAll(lim, RoundGate(fetched), valid, Selection([], []), os);
            && s.chosen == Picked(os, Selects(lim, fetched, valid, os))
            && s.skipped == Raw(Picked(os, Strands(lim, fetched, valid, os)))
            && Subsequence(s.chosen, os)
  {
    ChosenPrefix(lim, fetched, valid, os, |os|, Selects(lim, fetched, valid, os), Strands(lim, fetched, valid, os));
    assert os[..|os|] == os;
    PickedIsSubsequence(os, Selects(lim, fetched, valid, os));
  }

  /** A block is full when a budget is used up to the last unit. */
  lemma FullExact(lim: Limits, gate: Option<Gate>, valid: Offer -> bool, os: seq<Offer>)
    ensures var s := ChooseAll(lim, gate, valid, Selection([], []), os);
            Full(lim, s) <==>
            (TotalSize(s.chosen) == lim.maxTxBytes ||
             (lim.maxBlockGas > 0 && TotalGas(s.chosen) == lim.maxBlockGas))
  {
    ChosenWithinLimits(lim, gate, valid, os);
  }

  /** Stopping at a full block loses nothing, except transactions that declare no gas when only gas ran out. */
  lemma FullTakesNothing(lim: Limits, gate: Option<Gate>, valid: Offer -> bool, s: Selection, o: Offer)
    requires Full(lim, s) && (TotalSize(s.chosen) >= lim.maxTxBytes || (o.isFeeTx && o.gas > 0))
    ensures Choose(lim, gate, valid, s, o).chosen == s.chosen
  {
  }

  // ---------------------------------------------------------------------------------------
  // Rounds

  /** The offers of one PrepareProposal round and whether the inner handler succeeded. */
  datatype Round = Round(lim: Limits, fetched: Option<Fetched>, offers: seq<Offer>, succeeds: bool)

  function RoundAfter(round: Round, valid: Offer -> bool, n: nat): (s: Selection)
    requires n <= |round.offers|
  {
    ChooseAll(round.lim, RoundGate(round.fetched), valid, Selection([], []), round.offers[..n])
  }

  predicate FullAfter(round: Round, valid: Offer -> bool, n: nat)
    requires n <= |round.offers|
  {
    Full(round.lim, RoundAfter(round, valid, n))
  }

  /** None of the first offers, before the n-th, filled the block. */
  ghost predicate NotFullBefore(round: Round, valid: Offer -> bool, n: nat)
    requires n <= |round.offers|
  {
    forall m :: 0 < m < n ==> !FullAfter(round, valid, m)
  }

  class MempoolProposalHandler {
    const extSel: ExtTxSelector
    const hasManager: bool
    var stagedBytes: seq<Bytes>        // what was handed to StageSkippedSenders, over all rounds

    constructor (extSel: ExtTxSelector, hasManager: bool)
      ensures this.extSel == extSel && this.hasManager == hasManager && stagedBytes == []
    {
      this.extSel, this.hasManager, stagedBytes := extSel, hasManager, [];
    }

    /** The first `n` offers of the round have been made. */
    ghost predicate Offered(round: Round, valid: Offer -> bool, n: nat)
      reads extSel
    {
      && n <= |round.offers| && extSel.Valid(round.lim)
      && extSel.CurrentGate(round.fetched) == RoundGate(round.fetched) && extSel.Value() == RoundAfter(round, valid, n)
    }

    method OfferOne(round: Round, valid: Offer -> bool, n: nat) returns (stop: bool)
      requires round.lim.maxTxBytes < TWO_63 && round.lim.maxBlockGas < TWO_64
      requires Offered(round, valid, n) && n < |round.offers| && Typed(round.offers[n])
      modifies extSel
      ensures Offered(round, valid, n + 1) && stop == FullAfter(round, valid, n + 1)
    {
      RoundNext(round, valid, n);
      stop := extSel.SelectTxForProposal(round.lim, round.fetched, valid, round.offers[n]);
    }

    /** The offers of the pool, one after the other until the selector says stop. */
    method OfferAll(round: Round, valid: Offer -> bool) returns (offered: nat)
      requires round.lim.maxTxBytes < TWO_63 && round.lim.maxBlockGas < TWO_64
      requires forall o :: o in round.offers ==> Typed(o)
      requires extSel.Blank() && extSel.gateSkipped == []
      modifies extSel
      ensures Offered(round, valid, offered)
      ensures offered < |round.offers| ==> FullAfter(round, valid, offered)
      ensures NotFullBefore(round, valid, offered)
    {
      var stop := false;
      offered := 0;
      while offered < |round.offers| && !stop
        invariant Offered(round, valid, offered)
        invariant stop == (offered > 0 && FullAfter(round, valid, offered))
        invariant NotFullBefore(round, valid, offered)
      {
        stop := OfferOne(round, valid, offered);
        offered := offered + 1;
      }
    }

    /**
     One round. Offers are made until the block is full; the skipped bytes are drained whether or
     not the round succeeds, and are staged if it does.
     */
    method PrepareProposal(round: Round, valid: Offer -> bool) returns (txs: seq<Bytes>, offered: nat)
      requires round.lim.maxTxBytes < TWO_63 && round.lim.maxBlockGas < TWO_64
      requires forall o :: o in round.offers ==> Typed(o)
      requires extSel.Blank() && extSel.gateSkipped == []
      modifies this, extSel
      ensures offered <= |round.offers|
      ensures var s := RoundAfter(round, valid, offered);
              && txs == Raw(s.chosen)
              && (offered < |round.offers| ==> Full(round.lim, s))
              && stagedBytes == old(stagedBytes) + (if round.succeeds && hasManager then s.skipped else [])
      ensures NotFullBefore(round, valid, offered)
      ensures extSel.Blank() && extSel.gateSkipped == []
    {
      offered := OfferAll(round, valid);
      txs := extSel.selectedTxs;
      extSel.Clear();
      var skipped := extSel.DrainGateSkipped();
      if round.succeeds && hasManager && |skipped| > 0 {
        stagedBytes := stagedBytes + skipped;
      }
    }
  }

  lemma RoundNext(round: Round, valid: Offer -> bool, n: nat)
    requires n < |round.offers|
    ensures RoundAfter(round, valid, n + 1) ==
            Choose(round.lim, RoundGate(round.fetched), valid, RoundAfter(round, valid, n), round.offers[n])
  {
    assert round.offers[..n + 1][..n] == round.offers[..n];
  }

  // ---------------------------------------------------------------------------------------
  // Builder and validators agree

  /** The builder's validity check: the blocklist, applied to the pooled transaction. */
  ghost predicate Honest(codec: B.Codec, blocklist: set<string>, decode: Bytes -> Option<B.Tx>, valid: Offer -> bool) {
    forall o :: valid(o) ==> B.Accepts(codec, blocklist, decode, o.tx, o.bz)
  }

  /** Decoding the bytes of an offer gives the signers and messages of the pooled transaction. */
  ghost predicate DecodesBack(decode: Bytes -> Option<B.Tx>, o: Offer) {
    o.tx.Some? ==> decode(o.bz) == o.tx
  }

  /**
   An honestly built proposal is accepted by every validator with the same blocklist: each
   transaction it contains passes the check ProcessProposal makes on the bytes alone.
   */
  lemma HonestProposalAccepted(codec: B.Codec, blocklist: set<string>, decode: Bytes -> Option<B.Tx>, lim: Limits,
      gate: Option<Gate>, valid: Offer -> bool, os: seq<Offer>, bz: Bytes)
    requires Honest(codec, blocklist, decode, valid)
    requires forall o :: o in os ==> DecodesBack(decode, o)
    requires bz in Raw(ChooseAll(lim, gate, valid, Selection([], []), os).chosen)
    ensures B.Accepts(codec, blocklist, decode, None, bz)
  {
    var chosen := ChooseAll(lim, gate, valid, Selection([], []), os).chosen;
    var i :| 0 <= i < |chosen| && chosen[i].bz == bz;
    ChosenPay(lim, gate, valid, os, chosen[i]);
    assert DecodesBack(decode, chosen[i]);
  }

  /**
   One round of an honest proposer followed by the check of a validator: the block is accepted.
   The two handlers share nothing but the decoder, the codec and the list.
   */
  method ProposeAndProcess(proposer: MempoolProposalHandler, validator: B.ProposalHandler, round: Round,
      valid: Offer -> bool)
    returns (txs: seq<Bytes>, accept: bool)
    requires round.lim.maxTxBytes < TWO_63 && round.lim.maxBlockGas < TWO_64
    requires forall o :: o in round.offers ==> Typed(o) && DecodesBack(validator.decode, o)
    requires proposer.extSel.Blank() && proposer.extSel.gateSkipped == []
    requires Honest(validator.codec, validator.blocklist, validator.decode, valid)
    modifies proposer, proposer.extSel
    ensures accept
    ensures exists n :: 0 <= n <= |round.offers| && txs == Raw(RoundChosen(round, valid, n))
  {
    var offered;
    txs, offered := proposer.PrepareProposal(round, valid);
    assert txs == Raw(RoundChosen(round, valid, offered));
    forall bz | bz in txs ensures B.Accepts(validator.codec, validator.blocklist, validator.decode, None, bz) {
      HonestProposalAccepted(validator.codec, validator.blocklist, validator.decode,
                             round.lim, RoundGate(round.fetched), valid, round.offers[..offered], bz);
    }
    accept := validator.ProcessProposal(txs);
  }

  /** What a round selects from its first `n` offers. */
  function RoundChosen(round: Round, valid: Offer -> bool, n: nat): (os: seq<Offer>)
    requires n <= |round.offers|
  {
    RoundAfter(round, valid, n).chosen
  }
}
