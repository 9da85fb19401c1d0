/**
 * The spread-arbitrage CTA strategy (vnpy/app/cta_strategy/strategies/spread_arbitrage.py):
 * parsing of a spread ticker "SPC_leg1&leg2" into its two leg symbols, and the
 * tick callback that feeds the synthetic spread tick to the bar generator once
 * both legs have quoted.
 */
module SpreadArbitrage {
  import opened Wrappers
  import opened TraderObject
  import Spread

  /* ---------- Python's str.split with a one-character separator ---------- */

  /** `s.split(sep)`: the pieces between separators, always at least one. */
  function Split(s: string, sep: char): (parts: seq<string>)
    ensures |parts| >= 1
    ensures forall p :: p in parts ==> sep !in p
    decreases |s|
  {
    if |s| == 0 then [""]
    else
      var rest := Split(s[1..], sep);
      if s[0] == sep then [""] + rest
      else [[s[0]] + rest[0]] + rest[1..]
  }

  /** `sep.join(parts)`. */
  function Join(parts: seq<string>, sep: char): string
    requires |parts| >= 1
    decreases |parts|
  {
    if |parts| == 1 then parts[0] else parts[0] + [sep] + Join(parts[1..], sep)
  }

  /** Joining the pieces of a split gives back the string. */
  lemma {:induction false} JoinSplit(s: string, sep: char)
    ensures Join(Split(s, sep), sep) == s
    decreases |s|
  {
    if |s| > 0 {
      var rest := Split(s[1..], sep);
      JoinSplit(s[1..], sep);
      if s[0] == sep {
        assert ([""] + rest)[1..] == rest;
      } else if |rest| == 1 {
        assert Split(s, sep) == [[s[0]] + rest[0]];
      } else {
        var parts := Split(s, sep);
        assert parts[1..] == rest[1..];
        assert Join(rest, sep) == rest[0] + [sep] + Join(rest[1..], sep);
        assert s == [s[0]] + s[1..];
      }
    }
  }

  /** There is one more piece than there are separators. */
  lemma {:induction false} SplitCount(s: string, sep: char)
    ensures |Split(s, sep)| == multiset(s)[sep] + 1
    decreases |s|
  {
    if |s| > 0 {
      SplitCount(s[1..], sep);
      assert s == [s[0]] + s[1..];
      assert multiset(s) == multiset{s[0]} + multiset(s[1..]);
    }
  }

  /** Splitting a string that starts with a separator-free piece `a`. */
  lemma {:induction false} SplitPrefix(a: string, rest: string, sep: char)
    requires sep !in a
    ensures Split(a + rest, sep) == [a + Split(rest, sep)[0]] + Split(rest, sep)[1..]
    decreases |a|
  {
    var tail := Split(rest, sep);
    if |a| == 0 {
      assert a + rest == rest;
      assert a + tail[0] == tail[0];
      assert tail == [tail[0]] + tail[1..];
    } else {
      SplitPrefix(a[1..], rest, sep);
      var s := a + rest;
      assert s[0] == a[0] && a[0] != sep;
      assert s[1..] == a[1..] + rest;
      var r := Split(s[1..], sep);
      assert r == [a[1..] + tail[0]] + tail[1..];
      assert Split(s, sep) == [[s[0]] + r[0]] + r[1..];
      assert [a[0]] + (a[1..] + tail[0]) == a + tail[0];
      assert r[1..] == tail[1..];
    }
  }

  /** Splitting what was joined from separator-free pieces gives back the pieces. */
  lemma {:induction false} SplitJoin(parts: seq<string>, sep: char)
    requires |parts| >= 1
    requires forall p :: p in parts ==> sep !in p
    ensures Split(Join(parts, sep), sep) == parts
    decreases |parts|
  {
    if |parts| == 1 {
      SplitPrefix(parts[0], "", sep);
      assert parts[0] + "" == parts[0];
    } else {
      assert parts[1..][0] == parts[1];
      SplitJoin(parts[1..], sep);
      var tail := [sep] + Join(parts[1..], sep);
      assert parts[0] + [sep] + Join(parts[1..], sep) == parts[0] + tail;
      SplitPrefix(parts[0], tail, sep);
      assert tail[0] == sep && tail[1..] == Join(parts[1..], sep);
      assert Split(tail, sep) == [""] + parts[1..];
      assert parts[0] + "" == parts[0];
      assert parts == [parts[0]] + parts[1..];
    }
  }

  /* ---------- convert_spread_ticker ---------- */

  datatype TickerError =
    | UnpackMismatch(parts: nat)     // vt_symbol.split('_') does not unpack into two names
    | ContractCount(given: nat)      // '2 contracts expected. %d given'

  /** A parsed spread ticker: the prefix before '_' and the leg symbols in order. */
  datatype SpreadTicker = SpreadTicker(prefix: string, vtSymbolList: seq<string>)

  /**
   * convert_spread_ticker without its final construction of the spread:
   * the ticker must contain exactly one '_', and the part after it exactly
   * one '&'. On success the leg list holds leg 1 then leg 2, and prefix,
   * '_', leg 1, '&', leg 2 spell the ticker back.
   */
  function ParseSpreadTicker(vtSymbol: string): (r: Result<SpreadTicker, TickerError>)
    ensures r.Ok? ==>
              && |r.value.vtSymbolList| == 2
              && vtSymbol == r.value.prefix + "_" + r.value.vtSymbolList[0] + "&" + r.value.vtSymbolList[1]
              && '_' !in r.value.prefix
              && '_' !in r.value.vtSymbolList[0] && '_' !in r.value.vtSymbolList[1]
              && '&' !in r.value.vtSymbolList[0] && '&' !in r.value.vtSymbolList[1]
    ensures (r.Err? && r.error.UnpackMismatch?) <==> multiset(vtSymbol)['_'] != 1
    ensures r.Err? && r.error.UnpackMismatch? ==> r.error.parts == multiset(vtSymbol)['_'] + 1
    ensures r.Err? && r.error.ContractCount? ==>
              && |Split(vtSymbol, '_')| == 2
              && r.error.given == multiset(Split(vtSymbol, '_')[1])['&'] + 1
              && r.error.given != 2
  {
    var parts := Split(vtSymbol, '_');
    SplitCount(vtSymbol, '_');
    if |parts| != 2 then Err(UnpackMismatch(|parts|))
    else
      var contracts := Split(parts[1], '&');
      SplitCount(parts[1], '&');
      if |contracts| != 2 then Err(ContractCount(|contracts|))
      else
        TwoPieces(vtSymbol, '_');
        TwoPieces(parts[1], '&');
        ParsedShape(vtSymbol, parts[0], parts[1], contracts[0], contracts[1]);
        Ok(SpreadTicker(parts[0], contracts))
  }

  /** Reassociation of the two splits, and the separators the legs inherit from the contracts part. */
  lemma ParsedShape(s: string, prefix: string, contracts: string, leg1: string, leg2: string)
    requires s == prefix + ['_'] + contracts
    requires contracts == leg1 + ['&'] + leg2
    requires '_' !in contracts
    ensures s == prefix + "_" + leg1 + "&" + leg2
    ensures '_' !in leg1 && '_' !in leg2
  {
  }

  /** A string that splits into two pieces is the first, the separator, then the second. */
  lemma TwoPieces(s: string, sep: char)
    requires |Split(s, sep)| == 2
    ensures s == Split(s, sep)[0] + [sep] + Split(s, sep)[1]
  {
    var parts := Split(s, sep);
    JoinSplit(s, sep);
    assert Join(parts, sep) == parts[0] + [sep] + Join(parts[1..], sep);
    assert parts[1..] == [parts[1]];
  }

  /** Conversely, every well-formed "prefix_leg1&leg2" parses back into its parts. */
  lemma ParseRoundTrip(prefix: string, leg1: string, leg2: string)
    requires '_' !in prefix && '_' !in leg1 && '_' !in leg2
    requires '&' !in leg1 && '&' !in leg2
    ensures ParseSpreadTicker(prefix + "_" + leg1 + "&" + leg2) == Ok(SpreadTicker(prefix, [leg1, leg2]))
  {
    var contracts := leg1 + "&" + leg2;
    assert Join([leg1, leg2], '&') == contracts;
    SplitJoin([leg1, leg2], '&');
    assert '_' !in contracts;
    assert Join([prefix, contracts], '_') == prefix + "_" + leg1 + "&" + leg2;
    SplitJoin([prefix, contracts], '_');
  }

  /* ---------- the strategy ---------- */

  class SpreadArbitrageStrategy {
    const vtSymbol: string
    const spread: Spread.TwoLegSpread
    var vtSymbolList: seq<string>
    var barTicks: seq<Tick>   // the ticks handed to the bar generator, in order

    ghost predicate Valid()
      reads this, spread
    {
      spread.Valid()
    }

    constructor (vtSymbol: string, spread: Spread.TwoLegSpread)
      requires spread.Valid()
      ensures Valid()
      ensures this.vtSymbol == vtSymbol && this.spread == spread
      ensures vtSymbolList == [] && barTicks == []
    {
      this.vtSymbol := vtSymbol;
      this.spread := spread;
      vtSymbolList := [];
      barTicks := [];
    }

    /** on_init: split the strategy's ticker into its legs, or raise without changing them. */
    method ConvertSpreadTicker() returns (r: Outcome<TickerError>)
      modifies this`vtSymbolList
      ensures ParseSpreadTicker(vtSymbol).Ok? ==>
                r == Pass && vtSymbolList == ParseSpreadTicker(vtSymbol).value.vtSymbolList
      ensures ParseSpreadTicker(vtSymbol).Err? ==>
                r == Fail(ParseSpreadTicker(vtSymbol).error) && vtSymbolList == old(vtSymbolList)
    {
      var parsed := ParseSpreadTicker(vtSymbol);
      match parsed
      case Ok(t) =>
        vtSymbolList := t.vtSymbolList;
        r := Pass;
      case Err(e) =>
        r := Fail(e);
    }

    /**
     * on_tick: update the spread; forward the synthetic tick to the bar
     * generator only once it exists, that is once both legs have quoted.
     */
    method OnTick(tick: Tick)
      requires Valid()
      modifies this`barTicks, spread
      ensures Valid()
      ensures spread.leg1Tick == (if tick.VtSymbol() == spread.leg1 then Some(tick) else old(spread.leg1Tick))
      ensures spread.leg2Tick == (if tick.VtSymbol() != spread.leg1 && tick.VtSymbol() == spread.leg2
                                  then Some(tick) else old(spread.leg2Tick))
      ensures spread.spreadTick.Some? <==> spread.leg1Tick.Some? && spread.leg2Tick.Some?
      ensures spread.spreadTick.None? ==> barTicks == old(barTicks)
      ensures spread.spreadTick.Some? ==>
                barTicks == old(barTicks) + [spread.spreadTick.value] &&
                spread.spreadTick.value.lastPrice == spread.basis &&
                spread.spreadTick.value.datetime == tick.datetime
      // until both legs have quoted the spread's basis and synthetic tick stay as they were
      ensures spread.leg1Tick.None? || spread.leg2Tick.None? ==>
                spread.basis == old(spread.basis) && spread.spreadTick == old(spread.spreadTick)
      // the basis follows the mode's closed form; any other mode leaves it alone
      ensures spread.spreadTick.Some? && spread.mode == Spread.Ltp ==>
                spread.basis == Spread.PairLtpBasis(spread.coef1, spread.coef2, spread.leg1Tick.value, spread.leg2Tick.value)
      ensures spread.spreadTick.Some? && spread.mode == Spread.Mid ==>
                spread.basis == Spread.PairMidBasis(spread.coef1, spread.coef2, spread.leg1Tick.value, spread.leg2Tick.value)
      ensures spread.mode == Spread.OtherMode ==> spread.basis == old(spread.basis)
      // an existing synthetic tick is refreshed in place: gateway and exchange are kept
      ensures old(spread.spreadTick).Some? ==>
                && spread.spreadTick.Some?
                && spread.spreadTick.value.gatewayName == old(spread.spreadTick).value.gatewayName
                && spread.spreadTick.value.exchange == old(spread.spreadTick).value.exchange
      // a synthetic tick created by this tick carries that tick's gateway and exchange
      ensures old(spread.spreadTick).None? && spread.spreadTick.Some? ==>
                && spread.spreadTick.value.gatewayName == tick.gatewayName
                && spread.spreadTick.value.exchange == tick.exchange
    {
      var _ := spread.UpdateBasisOnTick(tick);
      if spread.spreadTick.Some? {
        barTicks := barTicks + [spread.spreadTick.value];
      }
    }
  }
}
