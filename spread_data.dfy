/**
 * Spread synthesis (SpreadData in vnpy/trader/object.py): per-leg ticks are
 * folded into one virtual instrument whose last price is the basis, a
 * coefficient-weighted sum of leg prices, and whose top of book is built
 * from the legs' quotes.
 *
 * Legs are addressed by their position in the leg list; the symbol-keyed
 * dictionaries of the source become sequences aligned with that list.
 */
module Spread {
  import opened Wrappers
  import opened TraderObject

  /** Pricing mode. Any mode string other than 'ltp' and 'mid' is `OtherMode`. */
  datatype Mode = Ltp | Mid | OtherMode

  datatype SpreadError =
    | KeyError(symbol: string)   // tick for a symbol that is not a leg
    | AttributeError             // 'mid' full recompute reads a quote off a coefficient

  /* ---------- stored leg snapshots; an empty slot prices at 0, as the source's defaults do ---------- */

  function StoredLast(o: Option<Tick>): real { if o.Some? then o.value.lastPrice else 0.0 }

  function StoredMid(o: Option<Tick>): real { if o.Some? then o.value.Mid() else 0.0 }

  function StoredBid(o: Option<Tick>): real { if o.Some? then o.value.bidPrice1 else 0.0 }

  function StoredAsk(o: Option<Tick>): real { if o.Some? then o.value.askPrice1 else 0.0 }

  function Max0(c: real): real { if c > 0.0 then c else 0.0 }

  function Min0(c: real): real { if c < 0.0 then c else 0.0 }

  function Abs(c: real): real { if c < 0.0 then -c else c }

  /* ---------- full recomputations over the first n legs ---------- */

  /** Σ coef × last price over the first n legs. */
  function LtpBasis(coefs: seq<real>, ticks: seq<Option<Tick>>, n: nat): real
    requires n <= |coefs| && n <= |ticks|
  {
    if n == 0 then 0.0
    else LtpBasis(coefs, ticks, n - 1) + coefs[n - 1] * StoredLast(ticks[n - 1])
  }

  /** The synthetic bid_price_1: Σ max(0,c)·ask + min(0,c)·bid. */
  function SyntheticBid(coefs: seq<real>, ticks: seq<Option<Tick>>, n: nat): real
    requires n <= |coefs| && n <= |ticks|
  {
    if n == 0 then 0.0
    else
      var c := coefs[n - 1];
      SyntheticBid(coefs, ticks, n - 1) + (Max0(c) * StoredAsk(ticks[n - 1]) + Min0(c) * StoredBid(ticks[n - 1]))
  }

  /** The synthetic ask_price_1: the mirror sum, Σ max(0,c)·bid + min(0,c)·ask. */
  function SyntheticAsk(coefs: seq<real>, ticks: seq<Option<Tick>>, n: nat): real
    requires n <= |coefs| && n <= |ticks|
  {
    if n == 0 then 0.0
    else
      var c := coefs[n - 1];
      SyntheticAsk(coefs, ticks, n - 1) + (Max0(c) * StoredBid(ticks[n - 1]) + Min0(c) * StoredAsk(ticks[n - 1]))
  }

  /** Σ |c|·(ask − bid) over the first n legs: the cost of crossing every leg's quote. */
  function QuoteWidth(coefs: seq<real>, ticks: seq<Option<Tick>>, n: nat): real
    requires n <= |coefs| && n <= |ticks|
  {
    if n == 0 then 0.0
    else QuoteWidth(coefs, ticks, n - 1) + Abs(coefs[n - 1]) * (StoredAsk(ticks[n - 1]) - StoredBid(ticks[n - 1]))
  }

  /** Number of legs among the first n that have not quoted yet. */
  function NoneCount(ticks: seq<Option<Tick>>, n: nat): nat
    requires n <= |ticks|
  {
    if n == 0 then 0
    else NoneCount(ticks, n - 1) + (if ticks[n - 1].None? then 1 else 0)
  }

  /** Readiness: every leg has stored a tick. */
  ghost predicate AllQuoted(ticks: seq<Option<Tick>>)
  {
    forall j :: 0 <= j < |ticks| ==> ticks[j].Some?
  }

  ghost predicate Distinct(legs: seq<string>)
  {
    forall a, b :: 0 <= a < b < |legs| ==> legs[a] != legs[b]
  }

  /**
   * The slot of a symbol in the leg list (the dictionary lookup): the first
   * leg with that symbol, or nothing when the symbol is not a leg.
   */
  function LegIndex(legs: seq<string>, symbol: string): (k: Option<nat>)
    ensures k.None? <==> symbol !in legs
    ensures k.Some? ==> k.value < |legs| && legs[k.value] == symbol &&
                        forall j :: 0 <= j < k.value ==> legs[j] != symbol
  {
    LegIndexFrom(legs, symbol, 0)
  }

  /** The first leg at or after position `from` with the given symbol. */
  function LegIndexFrom(legs: seq<string>, symbol: string, from: nat): (k: Option<nat>)
    requires from <= |legs|
    ensures k.None? <==> forall j :: from <= j < |legs| ==> legs[j] != symbol
    ensures k.Some? ==> from <= k.value < |legs| && legs[k.value] == symbol &&
                        forall j :: from <= j < k.value ==> legs[j] != symbol
    decreases |legs| - from
  {
    if from == |legs| then None
    else if legs[from] == symbol then Some(from)
    else LegIndexFrom(legs, symbol, from + 1)
  }

  /* ---------- lemmas ---------- */

  /** No leg is missing exactly when the none-count is zero. */
  lemma {:induction false} NoneCountZero(ticks: seq<Option<Tick>>, n: nat)
    requires n <= |ticks|
    ensures NoneCount(ticks, n) == 0 <==> forall j :: 0 <= j < n ==> ticks[j].Some?
  {
    if n > 0 {
      NoneCountZero(ticks, n - 1);
    }
  }

  /**
   * Storing tick t in slot i moves the weighted last-price sum by exactly
   * coef[i] × (t.last − previously stored last); this is why the incremental
   * update agrees with a full recomputation.
   */
  lemma {:induction false} LtpBasisStore(coefs: seq<real>, ticks: seq<Option<Tick>>, i: nat, t: Tick, n: nat)
    requires n <= |coefs| && n <= |ticks| && i < |ticks|
    ensures LtpBasis(coefs, ticks[i := Some(t)], n) ==
            LtpBasis(coefs, ticks, n) + (if i < n then coefs[i] * (t.lastPrice - StoredLast(ticks[i])) else 0.0)
  {
    if n > 0 {
      LtpBasisStore(coefs, ticks, i, t, n - 1);
      if i == n - 1 {
        var c := coefs[i];
        assert c * t.lastPrice == c * StoredLast(ticks[i]) + c * (t.lastPrice - StoredLast(ticks[i]));
      }
    }
  }

  /** Per leg, the synthetic bid exceeds the synthetic ask by |c|·(ask − bid). */
  lemma LegWidth(c: real, bid: real, ask: real)
    ensures (Max0(c) * ask + Min0(c) * bid) - (Max0(c) * bid + Min0(c) * ask) == Abs(c) * (ask - bid)
  {
  }

  /** bid_price_1 − ask_price_1 of the synthetic quote is Σ |c|·(ask − bid). */
  lemma {:induction false} SyntheticWidth(coefs: seq<real>, ticks: seq<Option<Tick>>, n: nat)
    requires n <= |coefs| && n <= |ticks|
    ensures SyntheticBid(coefs, ticks, n) - SyntheticAsk(coefs, ticks, n) == QuoteWidth(coefs, ticks, n)
  {
    if n > 0 {
      SyntheticWidth(coefs, ticks, n - 1);
      LegWidth(coefs[n - 1], StoredBid(ticks[n - 1]), StoredAsk(ticks[n - 1]));
    }
  }

  /**
   * When no leg's quote is crossed (ask ≥ bid), the synthetic bid_price_1 is
   * at least the synthetic ask_price_1: the labels are the reverse of the
   * usual order, as the source builds them.
   */
  lemma {:induction false} SyntheticQuoteOrder(coefs: seq<real>, ticks: seq<Option<Tick>>, n: nat)
    requires n <= |coefs| && n <= |ticks|
    requires forall j :: 0 <= j < n ==> StoredAsk(ticks[j]) >= StoredBid(ticks[j])
    ensures QuoteWidth(coefs, ticks, n) >= 0.0
    ensures SyntheticBid(coefs, ticks, n) >= SyntheticAsk(coefs, ticks, n)
  {
    if n > 0 {
      SyntheticQuoteOrder(coefs, ticks, n - 1);
      var w := StoredAsk(ticks[n - 1]) - StoredBid(ticks[n - 1]);
      assert Abs(coefs[n - 1]) * w >= 0.0;
    }
    SyntheticWidth(coefs, ticks, n);
  }

  /* ---------- two-leg closed forms (update_basis_on_tick) ---------- */

  function PairLtpBasis(c1: real, c2: real, t1: Tick, t2: Tick): real
  {
    c1 * t1.lastPrice + c2 * t2.lastPrice
  }

  function PairMidBasis(c1: real, c2: real, t1: Tick, t2: Tick): real
  {
    (c1 * (t1.askPrice1 + t1.bidPrice1) + c2 * (t2.askPrice1 + t2.bidPrice1)) * 0.5
  }

  /** Two-leg bid_price_1: buy leg 1 at its ask, sell leg 2 at its bid. */
  function PairBid(t1: Tick, t2: Tick): real { t1.askPrice1 - t2.bidPrice1 }

  /** Two-leg ask_price_1: leg 1 bid minus leg 2 ask. */
  function PairAsk(t1: Tick, t2: Tick): real { t1.bidPrice1 - t2.askPrice1 }

  /**
   * The two-leg closed forms agree with the list version: the 'ltp' basis for
   * any coefficients, the 'mid' basis with each leg weighted by its own mid,
   * and the quotes when the coefficients are [1, −1].
   */
  lemma TwoLegAgreement(c1: real, c2: real, t1: Tick, t2: Tick)
    ensures LtpBasis([c1, c2], [Some(t1), Some(t2)], 2) == PairLtpBasis(c1, c2, t1, t2)
    ensures PairMidBasis(c1, c2, t1, t2) == c1 * t1.Mid() + c2 * t2.Mid()
    ensures SyntheticBid([1.0, -1.0], [Some(t1), Some(t2)], 2) == PairBid(t1, t2)
    ensures SyntheticAsk([1.0, -1.0], [Some(t1), Some(t2)], 2) == PairAsk(t1, t2)
  {
    var coefs, ticks := [c1, c2], [Some(t1), Some(t2)];
    assert LtpBasis(coefs, ticks, 1) == c1 * t1.lastPrice;
    var unit := [1.0, -1.0];
    assert SyntheticBid(unit, ticks, 1) == t1.askPrice1;
    assert SyntheticAsk(unit, ticks, 1) == t1.bidPrice1;
  }

  /* ---------- the loops of update_basis_on_tick_list ---------- */

  /** The none_count loop: how many legs have not quoted yet. */
  method CountMissing(ticks: seq<Option<Tick>>) returns (count: nat)
    ensures count == NoneCount(ticks, |ticks|)
    ensures count == 0 <==> AllQuoted(ticks)
  {
    count := 0;
    var j := 0;
    while j < |ticks|
      invariant 0 <= j <= |ticks|
      invariant count == NoneCount(ticks, j)
    {
      if ticks[j].None? {
        count := count + 1;
      }
      j := j + 1;
    }
    NoneCountZero(ticks, |ticks|);
  }

  /** The readiness-time 'ltp' recompute: Σ coef × last over every leg. */
  method WeightedLast(coefs: seq<real>, ticks: seq<Option<Tick>>) returns (acc: real)
    requires |coefs| == |ticks| && AllQuoted(ticks)
    ensures acc == LtpBasis(coefs, ticks, |ticks|)
  {
    acc := 0.0;
    var j := 0;
    while j < |ticks|
      invariant 0 <= j <= |ticks|
      invariant acc == LtpBasis(coefs, ticks, j)
    {
      acc := acc + coefs[j] * ticks[j].value.lastPrice;
      j := j + 1;
    }
  }

  /** The synthetic top-of-book loop over every leg. */
  method SyntheticQuotes(coefs: seq<real>, ticks: seq<Option<Tick>>) returns (bid: real, ask: real)
    requires |coefs| == |ticks| && AllQuoted(ticks)
    ensures bid == SyntheticBid(coefs, ticks, |ticks|)
    ensures ask == SyntheticAsk(coefs, ticks, |ticks|)
  {
    bid, ask := 0.0, 0.0;
    var j := 0;
    while j < |ticks|
      invariant 0 <= j <= |ticks|
      invariant bid == SyntheticBid(coefs, ticks, j)
      invariant ask == SyntheticAsk(coefs, ticks, j)
    {
      var c := coefs[j];
      var leg := ticks[j].value;
      bid := bid + (Max0(c) * leg.askPrice1 + Min0(c) * leg.bidPrice1);
      ask := ask + (Max0(c) * leg.bidPrice1 + Min0(c) * leg.askPrice1);
      j := j + 1;
    }
  }

  /* ---------- the N-leg spread as a state machine ---------- */

  /** The mutable part of a SpreadData: stored leg ticks, running basis, synthetic tick. */
  datatype SpreadState = SpreadState(legTicks: seq<Option<Tick>>, basis: real, spreadTick: Option<Tick>)

  /** The price the incremental update tracks: last price in 'ltp' mode, mid in any other. */
  function ModePrice(mode: Mode, o: Option<Tick>): real
  {
    if mode == Ltp then StoredLast(o) else StoredMid(o)
  }

  /**
   * The synthetic tick refreshed in place: new time, basis and quotes; its
   * gateway, symbol and exchange are kept.
   */
  function Refreshed(t: Tick, datetime: int, basis: real, bid: real, ask: real): (r: Tick)
    ensures r.gatewayName == t.gatewayName && r.symbol == t.symbol && r.exchange == t.exchange
  {
    Tick(t.gatewayName, t.symbol, t.exchange, datetime, basis, bid, ask)
  }

  /**
   * The synthesizer's invariant. Once the synthetic tick exists every leg
   * has quoted, the tick carries the basis and the quotes of the stored
   * legs, the mode is 'ltp' (in any other mode the readiness recompute
   * fails, so the spread never becomes ready), and the running basis
   * equals the full weighted sum of the stored last prices. In 'ltp' mode
   * the synthetic tick exists as soon as every leg has quoted.
   */
  ghost predicate SpreadInvariant(ticker: string, legs: seq<string>, coefs: seq<real>, mode: Mode, s: SpreadState)
  {
    && |coefs| == |legs| && |s.legTicks| == |legs|
    && (s.spreadTick.Some? ==>
          && AllQuoted(s.legTicks)
          && s.spreadTick.value.symbol == ticker
          && s.spreadTick.value.lastPrice == s.basis
          && s.spreadTick.value.bidPrice1 == SyntheticBid(coefs, s.legTicks, |legs|)
          && s.spreadTick.value.askPrice1 == SyntheticAsk(coefs, s.legTicks, |legs|)
          && mode == Ltp
          && s.basis == LtpBasis(coefs, s.legTicks, |legs|))
    && (mode == Ltp && |legs| > 0 && AllQuoted(s.legTicks) ==> s.spreadTick.Some?)
  }

  /**
   * update_basis_on_tick_list on a state: the new state and the value it
   * returns or the error it raises. The full 'mid' recompute at readiness
   * reads a quote off a coefficient and raises after zeroing the basis.
   */
  function TickListUpdate(ticker: string, legs: seq<string>, coefs: seq<real>, mode: Mode,
                          s: SpreadState, tick: Tick): (SpreadState, Result<real, SpreadError>)
    requires |coefs| == |legs| && |s.legTicks| == |legs|
  {
    match LegIndex(legs, tick.VtSymbol())
    case None => (s, Err(KeyError(tick.VtSymbol())))
    case Some(i) =>
      var stored := s.legTicks[i := Some(tick)];
      if NoneCount(stored, |stored|) > 0 then (s.(legTicks := stored), Ok(0.0))
      else if s.spreadTick.None? && mode != Ltp then (SpreadState(stored, 0.0, None), Err(AttributeError))
      else ReadyUpdate(ticker, coefs, mode, s, i, tick)
  }

  /** The update once every leg has quoted: the new basis and the rebuilt synthetic tick. */
  function ReadyUpdate(ticker: string, coefs: seq<real>, mode: Mode, s: SpreadState, i: nat, tick: Tick)
    : (SpreadState, Result<real, SpreadError>)
    requires i < |s.legTicks| && |coefs| == |s.legTicks|
  {
    var stored := s.legTicks[i := Some(tick)];
    var b := if s.spreadTick.None? then LtpBasis(coefs, stored, |stored|)
             else s.basis + coefs[i] * (ModePrice(mode, Some(tick)) - ModePrice(mode, s.legTicks[i]));
    var bid, ask := SyntheticBid(coefs, stored, |stored|), SyntheticAsk(coefs, stored, |stored|);
    var next := if s.spreadTick.None? then Tick(tick.gatewayName, ticker, tick.exchange, tick.datetime, b, bid, ask)
                else Refreshed(s.spreadTick.value, tick.datetime, b, bid, ask);
    (SpreadState(stored, b, Some(next)), Ok(b))
  }

  /** A tick for a symbol that is not a leg fails with KeyError and changes nothing. */
  lemma UpdateUnknownLeg(ticker: string, legs: seq<string>, coefs: seq<real>, mode: Mode, s: SpreadState, tick: Tick)
    requires |coefs| == |legs| && |s.legTicks| == |legs|
    ensures var u := TickListUpdate(ticker, legs, coefs, mode, s, tick);
            && (tick.VtSymbol() !in legs <==> u.1 == Err(KeyError(tick.VtSymbol())))
            && (tick.VtSymbol() !in legs ==> u.0 == s)
  {
  }

  /** Otherwise the tick overwrites its own leg's snapshot and no other. */
  lemma UpdateStoresTick(ticker: string, legs: seq<string>, coefs: seq<real>, mode: Mode, s: SpreadState, tick: Tick)
    requires |coefs| == |legs| && |s.legTicks| == |legs|
    requires tick.VtSymbol() in legs
    ensures var u := TickListUpdate(ticker, legs, coefs, mode, s, tick);
            var k := LegIndex(legs, tick.VtSymbol()).value;
            && u.0.legTicks == s.legTicks[k := Some(tick)]
            && legs[k] == tick.VtSymbol()
  {
  }

  /** Until every leg has quoted the update returns 0 and leaves basis and synthetic tick alone. */
  lemma UpdateNotReady(ticker: string, legs: seq<string>, coefs: seq<real>, mode: Mode, s: SpreadState, tick: Tick)
    requires |coefs| == |legs| && |s.legTicks| == |legs|
    requires tick.VtSymbol() in legs
    requires !AllQuoted(s.legTicks[LegIndex(legs, tick.VtSymbol()).value := Some(tick)])
    ensures var u := TickListUpdate(ticker, legs, coefs, mode, s, tick);
            u.1 == Ok(0.0) && u.0.basis == s.basis && u.0.spreadTick == s.spreadTick
  {
    var u := TickListUpdate(ticker, legs, coefs, mode, s, tick);
    NoneCountZero(u.0.legTicks, |u.0.legTicks|);
  }

  /**
   * The tick that completes readiness: in 'ltp' mode the basis is the full
   * weighted sum and a synthetic tick is created with it and the synthetic
   * quotes; in any other mode the update fails with the basis zeroed.
   */
  lemma UpdateReadiness(ticker: string, legs: seq<string>, coefs: seq<real>, mode: Mode, s: SpreadState, tick: Tick)
    requires |coefs| == |legs| && |s.legTicks| == |legs|
    requires tick.VtSymbol() in legs && s.spreadTick.None?
    requires AllQuoted(s.legTicks[LegIndex(legs, tick.VtSymbol()).value := Some(tick)])
    ensures var u := TickListUpdate(ticker, legs, coefs, mode, s, tick);
            var stored := u.0.legTicks;
            && (mode == Ltp ==>
                  && u.0.basis == LtpBasis(coefs, stored, |legs|)
                  && u.1 == Ok(u.0.basis)
                  && u.0.spreadTick == Some(Tick(tick.gatewayName, ticker, tick.exchange, tick.datetime, u.0.basis,
                                                 SyntheticBid(coefs, stored, |legs|),
                                                 SyntheticAsk(coefs, stored, |legs|))))
            && (mode != Ltp ==> u.1 == Err(AttributeError) && u.0.basis == 0.0 && u.0.spreadTick == None)
  {
    var u := TickListUpdate(ticker, legs, coefs, mode, s, tick);
    NoneCountZero(u.0.legTicks, |u.0.legTicks|);
  }

  /**
   * After readiness: the basis moves by coef × (new − old) of the mode's
   * price and the synthetic tick is refreshed with the new quotes and basis.
   */
  lemma UpdateIncremental(ticker: string, legs: seq<string>, coefs: seq<real>, mode: Mode, s: SpreadState, tick: Tick)
    requires |coefs| == |legs| && |s.legTicks| == |legs|
    requires tick.VtSymbol() in legs && s.spreadTick.Some?
    requires AllQuoted(s.legTicks[LegIndex(legs, tick.VtSymbol()).value := Some(tick)])
    ensures var u := TickListUpdate(ticker, legs, coefs, mode, s, tick);
            var k := LegIndex(legs, tick.VtSymbol()).value;
            && u.0.basis == s.basis + coefs[k] * (ModePrice(mode, Some(tick)) - ModePrice(mode, s.legTicks[k]))
            && u.1 == Ok(u.0.basis)
            && u.0.spreadTick == Some(Refreshed(s.spreadTick.value, tick.datetime, u.0.basis,
                                                SyntheticBid(coefs, u.0.legTicks, |legs|),
                                                SyntheticAsk(coefs, u.0.legTicks, |legs|)))
  {
    var i := LegIndex(legs, tick.VtSymbol()).value;
    var stored := s.legTicks[i := Some(tick)];
    NoneCountZero(stored, |stored|);
    var u := ReadyUpdate(ticker, coefs, mode, s, i, tick);
    assert TickListUpdate(ticker, legs, coefs, mode, s, tick) == u;
    var b := s.basis + coefs[i] * (ModePrice(mode, Some(tick)) - ModePrice(mode, s.legTicks[i]));
    var bid, ask := SyntheticBid(coefs, stored, |legs|), SyntheticAsk(coefs, stored, |legs|);
    assert u.0 == SpreadState(stored, b, Some(Refreshed(s.spreadTick.value, tick.datetime, b, bid, ask)));
    assert u.1.Ok? && u.1.value == b;
  }

  /**
   * The update keeps the invariant; in particular, in 'ltp' mode the
   * incrementally maintained basis of a ready spread always equals the full
   * weighted sum of the stored last prices.
   */
  lemma {:induction false} UpdateKeepsInvariant(ticker: string, legs: seq<string>, coefs: seq<real>, mode: Mode,
                                                s: SpreadState, tick: Tick)
    requires SpreadInvariant(ticker, legs, coefs, mode, s)
    ensures var (s', r) := TickListUpdate(ticker, legs, coefs, mode, s, tick);
            && SpreadInvariant(ticker, legs, coefs, mode, s')
            && (r.Ok? && s'.spreadTick.Some? ==> r == Ok(LtpBasis(coefs, s'.legTicks, |legs|)))
  {
    var (s', r) := TickListUpdate(ticker, legs, coefs, mode, s, tick);
    var k := LegIndex(legs, tick.VtSymbol());
    if k.Some? {
      var i := k.value;
      NoneCountZero(s'.legTicks, |s'.legTicks|);
      if s.spreadTick.Some? && AllQuoted(s'.legTicks) {
        LtpBasisStore(coefs, s.legTicks, i, tick, |legs|);
      }
    }
  }

  /* ---------- the N-leg spread ---------- */

  class SpreadData {
    const ticker: string
    const legs: seq<string>       // leg_str_list
    const coefs: seq<real>        // leg_coef_dict, aligned with legs
    const mode: Mode
    var legTicks: seq<Option<Tick>>   // leg_tick_dict, aligned with legs
    var basis: real
    var spreadTick: Option<Tick>

    /** The fields update_basis_on_tick_list changes, as a value. */
    function State(): SpreadState
      reads this
    {
      SpreadState(legTicks, basis, spreadTick)
    }

    ghost predicate Valid()
      reads this
    {
      SpreadInvariant(ticker, legs, coefs, mode, State())
    }

    /** Registers the legs, each with no tick and the coefficient at its position. */
    constructor (ticker: string, legStrList: seq<string>, coefList: seq<real>, mode: Mode)
      requires Distinct(legStrList)
      requires |legStrList| <= |coefList|
      ensures Valid()
      ensures this.ticker == ticker && legs == legStrList && this.mode == mode
      ensures coefs == coefList[..|legStrList|]
      ensures |legTicks| == |legs| && forall j :: 0 <= j < |legTicks| ==> legTicks[j].None?
      ensures basis == 0.0 && spreadTick == None
    {
      var ticks: seq<Option<Tick>> := [];
      var cs: seq<real> := [];
      var k := 0;
      while k < |legStrList|
        invariant 0 <= k <= |legStrList|
        invariant |ticks| == k && forall j :: 0 <= j < k ==> ticks[j].None?
        invariant cs == coefList[..k]
      {
        ticks := ticks + [None];
        cs := cs + [coefList[k]];
        k := k + 1;
      }
      assert k > 0 ==> !AllQuoted(ticks) by {
        if k > 0 { assert ticks[0].None?; }
      }
      this.ticker := ticker;
      legs := legStrList;
      coefs := cs;
      this.mode := mode;
      legTicks := ticks;
      basis := 0.0;
      spreadTick := None;
    }

    /**
     * update_basis_on_tick_list: store the tick for its leg; stay silent
     * until every leg has quoted; on the tick that completes readiness
     * compute the basis in full; afterwards move it by coef × (new − old);
     * on every ready update rebuild the synthetic top of book.
     */
    method UpdateBasisOnTickList(tick: Tick) returns (r: Result<real, SpreadError>)
      requires Valid()
      modifies this
      ensures Valid()
      ensures (State(), r) == TickListUpdate(ticker, legs, coefs, mode, old(State()), tick)
    {
      UpdateKeepsInvariant(ticker, legs, coefs, mode, State(), tick);
      var symbol := tick.VtSymbol();
      var slot := LegIndex(legs, symbol);
      if slot.None? {
        return Err(KeyError(symbol));
      }
      var i := slot.value;
      var previous, lastTick := legTicks[i], spreadTick;
      assert lastTick.Some? ==> mode == Ltp;
      var stored := legTicks[i := Some(tick)];
      legTicks := stored;

      // readiness check
      var noneCount := CountMissing(stored);
      if noneCount > 0 {
        return Ok(0.0);
      }

      var acc: real;
      if lastTick.None? {
        if mode != Ltp {
          basis := 0.0;
          return Err(AttributeError);
        }
        acc := WeightedLast(coefs, stored);
      } else {
        // Only an 'ltp' spread is ever ready: in any other mode the readiness
        // recompute fails, so the 'mid' incremental step is never reached.
        acc := basis + coefs[i] * (tick.lastPrice - StoredLast(previous));
      }

      // synthetic top of book
      var bid, ask := SyntheticQuotes(coefs, stored);
      var next := if lastTick.None? then Tick(tick.gatewayName, ticker, tick.exchange, tick.datetime, acc, bid, ask)
                  else Refreshed(lastTick.value, tick.datetime, acc, bid, ask);
      basis, spreadTick := acc, Some(next);
      return Ok(acc);
    }
  }

  /**
   * Two legs with coefficients [1, −1]: last trades 105 and 100 give a basis
   * of 5 on the readiness tick; leg A trading at 106 then moves it to 6 and
   * leaves leg B's snapshot as it was.
   */
  method ScenarioTwoLegBasis()
  {
    var spread := new SpreadData("SPD", ["A.X", "B.X"], [1.0, -1.0], Ltp);
    var a := Tick("gw", "A", "X", 1, 105.0, 104.0, 106.0);
    var b := Tick("gw", "B", "X", 2, 100.0, 99.0, 101.0);
    assert a.VtSymbol() == "A.X" && b.VtSymbol() == "B.X";
    assert LegIndex(spread.legs, "A.X") == Some(0);
    assert LegIndex(spread.legs, "B.X") == Some(1);

    var r := spread.UpdateBasisOnTickList(a);
    assert spread.legTicks[1].None?;
    assert r == Ok(0.0) && spread.spreadTick.None?;

    r := spread.UpdateBasisOnTickList(b);
    assert spread.legTicks == [Some(a), Some(b)];
    assert LtpBasis(spread.coefs, spread.legTicks, 1) == 105.0;
    assert r == Ok(5.0) && spread.spreadTick.value.lastPrice == 5.0;

    var a2 := a.(datetime := 3, lastPrice := 106.0);
    assert a2.VtSymbol() == "A.X";
    ghost var ready := spread.State();
    r := spread.UpdateBasisOnTickList(a2);
    UpdateIncremental(spread.ticker, spread.legs, spread.coefs, spread.mode, ready, a2);
    assert r == Ok(6.0) && spread.legTicks[1] == Some(b);
  }

  /* ---------- the two-leg spread ---------- */

  /**
   * The older two-leg form of SpreadData: the spread is recomputed in closed
   * form from the two stored leg ticks on every update once both have quoted.
   */
  class TwoLegSpread {
    const ticker: string
    const leg1: string
    const leg2: string
    const coef1: real   // coef_list[0]
    const coef2: real   // coef_list[1]
    const mode: Mode
    var leg1Tick: Option<Tick>
    var leg2Tick: Option<Tick>
    var basis: real
    var spreadTick: Option<Tick>

    /**
     * The synthetic tick exists exactly when both legs have quoted; it then
     * carries the basis and the closed-form quotes of the stored legs, and the
     * basis is the closed form of the mode ('ltp' or 'mid').
     */
    ghost predicate Valid()
      reads this
    {
      && (spreadTick.Some? <==> leg1Tick.Some? && leg2Tick.Some?)
      && (spreadTick.Some? ==>
            && spreadTick.value.symbol == ticker
            && spreadTick.value.lastPrice == basis
            && spreadTick.value.bidPrice1 == PairBid(leg1Tick.value, leg2Tick.value)
            && spreadTick.value.askPrice1 == PairAsk(leg1Tick.value, leg2Tick.value)
            && (mode == Ltp ==> basis == PairLtpBasis(coef1, coef2, leg1Tick.value, leg2Tick.value))
            && (mode == Mid ==> basis == PairMidBasis(coef1, coef2, leg1Tick.value, leg2Tick.value)))
    }

    constructor (ticker: string, leg1: string, leg2: string, coef1: real, coef2: real, mode: Mode)
      ensures Valid()
      ensures this.ticker == ticker && this.leg1 == leg1 && this.leg2 == leg2
      ensures this.coef1 == coef1 && this.coef2 == coef2 && this.mode == mode
      ensures leg1Tick == None && leg2Tick == None && basis == 0.0 && spreadTick == None
    {
      this.ticker := ticker;
      this.leg1 := leg1;
      this.leg2 := leg2;
      this.coef1 := coef1;
      this.coef2 := coef2;
      this.mode := mode;
      leg1Tick, leg2Tick := None, None;
      basis := 0.0;
      spreadTick := None;
    }

    /**
     * update_basis_on_tick: store the tick if it belongs to leg 1 (else leg 2);
     * return 0 until both legs have quoted; then recompute the basis and the
     * quotes and create or refresh the synthetic tick.
     */
    method UpdateBasisOnTick(tick: Tick) returns (r: real)
      requires Valid()
      modifies this
      ensures Valid()
      ensures leg1Tick == (if tick.VtSymbol() == leg1 then Some(tick) else old(leg1Tick))
      ensures leg2Tick == (if tick.VtSymbol() != leg1 && tick.VtSymbol() == leg2 then Some(tick) else old(leg2Tick))
      ensures leg1Tick.None? || leg2Tick.None? ==>
                r == 0.0 && basis == old(basis) && spreadTick == old(spreadTick)
      ensures leg1Tick.Some? && leg2Tick.Some? ==>
                && r == basis
                && (mode == OtherMode ==> basis == old(basis))
                && spreadTick.Some? && spreadTick.value.datetime == tick.datetime
                && (old(spreadTick).None? ==>
                      spreadTick.value == Tick(tick.gatewayName, ticker, tick.exchange, tick.datetime, basis,
                                               PairBid(leg1Tick.value, leg2Tick.value),
                                               PairAsk(leg1Tick.value, leg2Tick.value)))
                && (old(spreadTick).Some? ==>
                      spreadTick.value.gatewayName == old(spreadTick).value.gatewayName &&
                      spreadTick.value.exchange == old(spreadTick).value.exchange)
    {
      var symbol := tick.VtSymbol();
      if symbol == leg1 {
        leg1Tick := Some(tick);
      } else if symbol == leg2 {
        leg2Tick := Some(tick);
      }
      if leg1Tick.None? || leg2Tick.None? {
        return 0.0;
      }
      var t1, t2 := leg1Tick.value, leg2Tick.value;
      if mode == Ltp {
        basis := PairLtpBasis(coef1, coef2, t1, t2);
      } else if mode == Mid {
        basis := PairMidBasis(coef1, coef2, t1, t2);
      }
      var bid, ask := PairBid(t1, t2), PairAsk(t1, t2);
      if spreadTick.None? {
        spreadTick := Some(Tick(tick.gatewayName, ticker, tick.exchange, tick.datetime, basis, bid, ask));
      } else {
        spreadTick := Some(Refreshed(spreadTick.value, tick.datetime, basis, bid, ask));
      }
      return basis;
    }
  }
}
