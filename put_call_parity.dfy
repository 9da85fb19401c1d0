/**
 * The put-call parity strategy (vnpy/app/portfolio_strategy/strategies/put_call_parity_arb.py):
 * once the call, the put and the hedge have all quoted, the strategy prices a
 * synthetic underlying from the option mids, call − put + strike, and its
 * spread against the hedge instrument's mid. The rate and time-to-expiry
 * parameters are carried but never read: nothing is discounted.
 */
module PutCallParity {
  import opened Wrappers
  import opened TraderObject

  /** calc_benchmark: 'mid', or any other string. */
  datatype Benchmark = MidBenchmark | OtherBenchmark

  datatype ParityError =
    | KeyError(ticker: string)     // a configured ticker is not in the tick dictionary
    | MissingMidAttribute          // the log line reads a `mid` the calculation never set

  /** The put-call parity forward: call mid − put mid + strike. */
  function SyntheticUnderlying(call: Tick, put: Tick, strike: real): real
  {
    call.Mid() - put.Mid() + strike
  }

  class PutCallParityArb {
    const callTicker: string
    const putTicker: string
    const hedgeTicker: string
    const strikePrice: real
    const riskFreeRate: real
    const time2Expiry: real
    const calcBenchmark: Benchmark
    var tickDict: map<string, Option<Tick>>
    var mids: map<string, real>            // the `mid` attribute set on each stored tick
    var syntheticUnderlying: real
    var underlyingSpread: real
    var underlying: Option<Tick>
    var lastTickTime: Option<int>

    /** Every entry of the tick dictionary holds a tick. */
    ghost predicate Ready()
      reads this
    {
      forall k :: k in tickDict ==> tickDict[k].Some?
    }

    constructor (callTicker: string, putTicker: string, hedgeTicker: string,
                 strikePrice: real, riskFreeRate: real, time2Expiry: real, calcBenchmark: Benchmark)
      ensures this.callTicker == callTicker && this.putTicker == putTicker && this.hedgeTicker == hedgeTicker
      ensures this.strikePrice == strikePrice && this.riskFreeRate == riskFreeRate
      ensures this.time2Expiry == time2Expiry && this.calcBenchmark == calcBenchmark
      ensures tickDict == map[] && mids == map[]
      ensures syntheticUnderlying == 0.0 && underlyingSpread == 0.0
      ensures underlying == None && lastTickTime == None
    {
      this.callTicker := callTicker;
      this.putTicker := putTicker;
      this.hedgeTicker := hedgeTicker;
      this.strikePrice := strikePrice;
      this.riskFreeRate := riskFreeRate;
      this.time2Expiry := time2Expiry;
      this.calcBenchmark := calcBenchmark;
      tickDict := map[];
      mids := map[];
      syntheticUnderlying, underlyingSpread := 0.0, 0.0;
      underlying, lastTickTime := None, None;
    }

    /**
     * on_init: reset the synthetic underlying and mark the three configured
     * tickers as not yet quoted; entries for other tickers are kept.
     */
    method OnInit()
      modifies this`tickDict, this`syntheticUnderlying
      ensures tickDict == old(tickDict)[callTicker := None][putTicker := None][hedgeTicker := None]
      ensures syntheticUnderlying == 0.0
      ensures !Ready()
    {
      syntheticUnderlying := 0.0;
      tickDict := tickDict[callTicker := None];
      tickDict := tickDict[putTicker := None];
      tickDict := tickDict[hedgeTicker := None];
      assert hedgeTicker in tickDict && tickDict[hedgeTicker].None?;
    }

    /**
     * calc_synthetic_undelrying: in 'mid' mode attach a mid to every stored
     * tick, then set the synthetic underlying and its spread against the
     * hedge. A configured ticker missing from the dictionary raises a
     * KeyError at the first read of it.
     */
    method CalcSyntheticUnderlying() returns (r: Outcome<ParityError>)
      requires Ready()
      modifies this`mids, this`syntheticUnderlying, this`underlyingSpread
      ensures calcBenchmark == OtherBenchmark ==>
                mids == old(mids) && syntheticUnderlying == old(syntheticUnderlying) &&
                underlyingSpread == old(underlyingSpread) &&
                r == Fail(if hedgeTicker in tickDict then MissingMidAttribute else KeyError(hedgeTicker))
      ensures calcBenchmark == MidBenchmark ==>
                forall k :: k in tickDict ==> k in mids && mids[k] == tickDict[k].value.Mid()
      ensures calcBenchmark == MidBenchmark && callTicker !in tickDict ==>
                r == Fail(KeyError(callTicker)) &&
                syntheticUnderlying == old(syntheticUnderlying) && underlyingSpread == old(underlyingSpread)
      ensures calcBenchmark == MidBenchmark && callTicker in tickDict && putTicker !in tickDict ==>
                r == Fail(KeyError(putTicker)) &&
                syntheticUnderlying == old(syntheticUnderlying) && underlyingSpread == old(underlyingSpread)
      ensures calcBenchmark == MidBenchmark && callTicker in tickDict && putTicker in tickDict ==>
                syntheticUnderlying ==
                  SyntheticUnderlying(tickDict[callTicker].value, tickDict[putTicker].value, strikePrice)
      ensures calcBenchmark == MidBenchmark && callTicker in tickDict && putTicker in tickDict &&
              hedgeTicker !in tickDict ==>
                r == Fail(KeyError(hedgeTicker)) && underlyingSpread == old(underlyingSpread)
      ensures calcBenchmark == MidBenchmark && callTicker in tickDict && putTicker in tickDict &&
              hedgeTicker in tickDict ==>
                r == Pass && underlyingSpread == syntheticUnderlying - tickDict[hedgeTicker].value.Mid()
    {
      if calcBenchmark == OtherBenchmark {
        if hedgeTicker !in tickDict {
          return Fail(KeyError(hedgeTicker));
        }
        return Fail(MissingMidAttribute);
      }
      var stored := tickDict;
      var m := mids;
      var pending := stored.Keys;
      while pending != {}
        invariant pending <= stored.Keys
        invariant forall k :: k in stored && k !in pending ==> k in m && m[k] == stored[k].value.Mid()
        decreases pending
      {
        var k :| k in pending;
        var t := stored[k].value;
        m := m[k := 0.5 * (t.askPrice1 + t.bidPrice1)];
        pending := pending - {k};
      }
      mids := m;
      if callTicker !in stored {
        return Fail(KeyError(callTicker));
      }
      if putTicker !in stored {
        return Fail(KeyError(putTicker));
      }
      syntheticUnderlying := m[callTicker] - m[putTicker] + strikePrice;
      if hedgeTicker !in stored {
        return Fail(KeyError(hedgeTicker));
      }
      underlyingSpread := syntheticUnderlying - m[hedgeTicker];
      return Pass;
    }

    /**
     * on_tick: store the tick under its symbol, registered or not; return
     * quietly while any entry lacks a tick; otherwise record the hedge tick
     * and the triggering tick's time and recompute the synthetic underlying.
     */
    method OnTick(tick: Tick) returns (r: Outcome<ParityError>)
      modifies this
      ensures tickDict == old(tickDict)[tick.VtSymbol() := Some(tick)]
      ensures !Ready() ==>
                r == Pass && mids == old(mids) &&
                syntheticUnderlying == old(syntheticUnderlying) && underlyingSpread == old(underlyingSpread) &&
                underlying == old(underlying) && lastTickTime == old(lastTickTime)
      ensures Ready() && hedgeTicker !in tickDict ==>
                r == Fail(KeyError(hedgeTicker)) && mids == old(mids) &&
                syntheticUnderlying == old(syntheticUnderlying) && underlyingSpread == old(underlyingSpread) &&
                underlying == old(underlying) && lastTickTime == old(lastTickTime)
      ensures Ready() && hedgeTicker in tickDict ==>
                underlying == tickDict[hedgeTicker] && lastTickTime == Some(tick.datetime)
      ensures Ready() && hedgeTicker in tickDict && calcBenchmark == OtherBenchmark ==>
                r == Fail(MissingMidAttribute) && mids == old(mids) &&
                syntheticUnderlying == old(syntheticUnderlying) && underlyingSpread == old(underlyingSpread)
      ensures Ready() && hedgeTicker in tickDict && calcBenchmark == MidBenchmark ==>
                forall k :: k in tickDict ==> k in mids && mids[k] == tickDict[k].value.Mid()
      ensures Ready() && hedgeTicker in tickDict && calcBenchmark == MidBenchmark && callTicker !in tickDict ==>
                r == Fail(KeyError(callTicker)) &&
                syntheticUnderlying == old(syntheticUnderlying) && underlyingSpread == old(underlyingSpread)
      ensures Ready() && hedgeTicker in tickDict && calcBenchmark == MidBenchmark &&
              callTicker in tickDict && putTicker !in tickDict ==>
                r == Fail(KeyError(putTicker)) &&
                syntheticUnderlying == old(syntheticUnderlying) && underlyingSpread == old(underlyingSpread)
      ensures Ready() && calcBenchmark == MidBenchmark &&
              callTicker in tickDict && putTicker in tickDict && hedgeTicker in tickDict ==>
                && r == Pass
                && syntheticUnderlying ==
                     SyntheticUnderlying(tickDict[callTicker].value, tickDict[putTicker].value, strikePrice)
                && underlyingSpread == syntheticUnderlying - tickDict[hedgeTicker].value.Mid()
      // Parity: when the option mids obey C − P = F − K for the hedge's mid F,
      // the synthetic underlying is F and the spread is zero.
      ensures Ready() && calcBenchmark == MidBenchmark &&
              callTicker in tickDict && putTicker in tickDict && hedgeTicker in tickDict &&
              tickDict[callTicker].value.Mid() - tickDict[putTicker].value.Mid() ==
                tickDict[hedgeTicker].value.Mid() - strikePrice ==>
                syntheticUnderlying == tickDict[hedgeTicker].value.Mid() && underlyingSpread == 0.0
    {
      tickDict := tickDict[tick.VtSymbol() := Some(tick)];
      var pending := tickDict.Keys;
      while pending != {}
        invariant pending <= tickDict.Keys
        invariant forall k :: k in tickDict && k !in pending ==> tickDict[k].Some?
        decreases pending
      {
        var k :| k in pending;
        if tickDict[k].None? {
          return Pass;
        }
        pending := pending - {k};
      }
      if hedgeTicker !in tickDict {
        return Fail(KeyError(hedgeTicker));
      }
      underlying := tickDict[hedgeTicker];
      lastTickTime := Some(tick.datetime);
      r := CalcSyntheticUnderlying();
    }
  }
}
