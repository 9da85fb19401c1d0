# Spread synthesis in vnpy, modelled in Dafny

This project models the spread-synthesis core of a vnpy-based trading
system. That core turns quotes on several instruments (the *legs*) into one
virtual *spread* instrument.

- `SpreadData` (vnpy/trader/object.py) stores each leg's latest tick. It stays
  silent until every leg has quoted. On the tick that completes readiness it
  computes the *basis* as the coefficient-weighted sum of the legs' last
  prices. After that it moves the basis by `coef × (new − old)` on each tick.
  On every ready update it rebuilds a synthetic top of book from
  `max(0,c)` / `min(0,c)` weights. The older two-leg method
  `update_basis_on_tick` recomputes the same quantities in closed form.
- The spread-arbitrage CTA strategy splits a spread ticker `SPC_leg1&leg2`
  into its legs. It forwards the synthetic tick to its bar generator only
  after both legs have quoted.
- The put-call parity strategy waits until the call, the put and the hedge
  have all quoted. It then prices a synthetic underlying
  `call.mid − put.mid + strike` and the spread of that against the hedge mid.
- Small helpers on the trader records are modelled too: order activity, order
  creation from a request, cancel requests, and the spread position table.

Files:

- `wrappers.dfy`: `Option`, `Result` and `Outcome`. These stand for Python's
  `None` and for the exceptions the source raises.
- `trader_object.dfy`: module `TraderObject`, holding the records and pure
  helpers of vnpy/trader/object.py.
- `spread_data.dfy`: module `Spread`. It holds the specification functions
  (full recomputations), the lemmas about them, and the classes `SpreadData`
  (N legs) and `TwoLegSpread`.
- `spread_arbitrage.dfy`: module `SpreadArbitrage`, covering `str.split`,
  ticker parsing and the strategy class.
- `put_call_parity.dfy`: module `PutCallParity`, holding the strategy class.

`Spread.ScenarioTwoLegBasis` in `spread_data.dfy` is a worked example: it checks a
two-leg `SpreadData` against the contracts of `UpdateBasisOnTickList`. The legs quote 105 and 100, so
the basis becomes 5; then a leg-1 tick at 106 moves it to 6.

How the model represents the source:

- Prices and coefficients are `real`. Timestamps are opaque `int` stamps.
- The symbol-keyed dictionaries of `SpreadData` become sequences aligned with
  the leg list, and a leg is found through `LegIndex`.
- Every piece of state is owned by its instance. The source keeps
  `leg_tick_dict`, `leg_coef_dict`, `positionDict` and `tick_dict` as
  class-level dictionaries shared by all instances; the model does not.
- The N-leg update is specified by a function on values: `Spread.TickListUpdate`
  maps the old state (stored leg ticks, basis, synthetic tick) and a tick to
  the new state and the returned value or raised error. The method
  `Spread.SpreadData.UpdateBasisOnTickList` is proved to produce exactly that.
- The central invariant is `Spread.SpreadInvariant`, which the class's `Valid`
  applies to its fields. Once the synthetic tick exists, the mode is `'ltp'`,
  the running basis equals the full weighted sum `LtpBasis` of the stored
  legs, and the synthetic tick carries that basis and the quotes
  `SyntheticBid` / `SyntheticAsk`. The lemma `UpdateKeepsInvariant` proves
  that every update keeps it, using `LtpBasisStore` for the incremental step.

Behaviour that the model keeps exactly as the code has it:

- A tick for an unregistered leg raises `KeyError`. It is not logged and
  dropped.
- Ticks with non-positive prices are accepted.
- The quote the code calls `bid_price_1` is the price of buying the spread,
  `Σ max(0,c)·ask + min(0,c)·bid`, and `ask_price_1` is the mirror sum. The
  labels are kept as written. `SyntheticQuoteOrder` proves that with uncrossed
  leg quotes this "bid" is never below this "ask".
- In `'mid'` mode the readiness-time full recompute reads `ask_price_1` off a
  coefficient (object.py:349-351), so it raises. The model returns
  `Err(AttributeError)` after storing the tick and zeroing the basis, as the
  code does. A `'mid'` spread therefore never becomes ready, and the invariant
  `Spread.SpreadInvariant` records that it never has a synthetic tick.

## Model

| member | source | states |
|---|---|---|
| `TraderObject.OrderData.IsActive` | vnpy/trader/object.py:128-135 | true exactly for SUBMITTING, NOTTRADED and PARTTRADED; false exactly for ALLTRADED, CANCELLED and REJECTED |
| `TraderObject.OrderData.CreateCancelRequest` | vnpy/trader/object.py:137-144 | the request copies the order's id, symbol and exchange, so it addresses the same `symbol.exchange` |
| `TraderObject.OrderRequest.CreateOrderData` | vnpy/trader/object.py:508-524 | carries the given order id and gateway name; copies symbol, exchange, type, direction, offset, price, volume and reference; traded is 0, status SUBMITTING, no datetime; so the new order is active, with the same vt_symbol and vt_orderid `gateway.orderid` |
| `TraderObject.ZipPositionsSpec` | vnpy/trader/object.py:217 | `dict(zip(...))` has exactly the tickers as keys, and each ticker maps to the position paired with its last occurrence |
| `TraderObject.NewSpreadPositionData` | vnpy/trader/object.py:211-217 | an empty position list maps every ticker (and nothing else) to no position; unequal lengths fail the assertion; otherwise ticker i maps to position i, last occurrence winning |
| `TraderObject.SpreadPositionDistinct` | vnpy/trader/object.py:216-217 | with distinct tickers and equal lengths, ticker i maps to position i exactly |
| `Spread.LegIndex` | vnpy/trader/object.py:323 | the lookup finds a slot exactly when the symbol is a registered leg, and that slot holds the symbol |
| `Spread.NoneCountZero` | vnpy/trader/object.py:333-338 | the none-count is zero exactly when every leg has a stored tick (the readiness gate) |
| `Spread.LtpBasisStore` | vnpy/trader/object.py:341-356 | storing a tick in slot i changes the full weighted last-price sum by exactly `coef[i] × (new last − old stored last)`, so the incremental update equals a full recompute |
| `Spread.LegWidth` | vnpy/trader/object.py:365-369 | per leg, the synthetic bid term minus the ask term is `abs(c)·(ask − bid)` |
| `Spread.SyntheticWidth` | vnpy/trader/object.py:362-369 | synthetic `bid_price_1 − ask_price_1` equals `Σ abs(c)·(ask − bid)` over the legs |
| `Spread.SyntheticQuoteOrder` | vnpy/trader/object.py:362-369 | when every leg has ask ≥ bid, that width is non-negative and the synthetic `bid_price_1 ≥ ask_price_1` |
| `Spread.TwoLegAgreement` | vnpy/trader/object.py:418-426 | the two-leg 'ltp' basis equals the list version's weighted sum; the two-leg 'mid' basis is the coefficient-weighted sum of leg mids; with coefficients [1, −1] the two-leg quotes equal the list version's |
| `Spread.SpreadData.constructor` | vnpy/trader/object.py:313-319 | registers each leg with no tick and the coefficient at its own position; basis 0, no synthetic tick; the invariant holds |
| `Spread.Refreshed` | vnpy/trader/object.py:396-399 | refreshing the synthetic tick in place keeps its gateway, symbol and exchange |
| `Spread.CountMissing` | vnpy/trader/object.py:333-338 | the none-count loop computes `NoneCount` over every leg, and its result is zero exactly when every leg has quoted |
| `Spread.WeightedLast` | vnpy/trader/object.py:341-345 | the readiness-time 'ltp' loop computes the full weighted sum `LtpBasis` over every leg |
| `Spread.SyntheticQuotes` | vnpy/trader/object.py:361-369 | the quote loop computes `SyntheticBid` and `SyntheticAsk` over every leg |
| `Spread.UpdateUnknownLeg` | vnpy/trader/object.py:323 | the update raises KeyError exactly when the tick's symbol is not a leg, and then the state is unchanged |
| `Spread.UpdateStoresTick` | vnpy/trader/object.py:323-330 | for a leg's tick, the new stored ticks are the old ones with that leg's slot, and only it, overwritten by the tick |
| `Spread.UpdateNotReady` | vnpy/trader/object.py:332-338 | while some leg has not quoted, the update returns 0 and leaves basis and synthetic tick unchanged |
| `Spread.UpdateReadiness` | vnpy/trader/object.py:341-394 | on the tick that completes readiness: in 'ltp' the basis is `Σ coef × last`, it is returned, and a new synthetic tick carries it with the synthetic quotes; in any other mode the update raises AttributeError with the basis zeroed and no synthetic tick |
| `Spread.UpdateIncremental` | vnpy/trader/object.py:352-401 | after readiness: the basis moves by `coef × (new − old)` of the mode's price (last in 'ltp', mid otherwise), it is returned, and the synthetic tick is refreshed with the new time, basis and quotes |
| `Spread.UpdateKeepsInvariant` | vnpy/trader/object.py:322-401 | every update keeps the invariant: a synthetic tick exists only in 'ltp' mode, once every leg has quoted, carrying the basis and the synthetic quotes; an 'ltp' spread with every leg quoted has one; and a returned basis of a ready spread equals the full recompute `Σ coef × last` |
| `Spread.SpreadData.UpdateBasisOnTickList` | vnpy/trader/object.py:322-401 | the new stored ticks, basis, synthetic tick and the result are exactly `TickListUpdate` of the old state, and the invariant is kept |
| `Spread.TwoLegSpread.constructor` | vnpy/trader/object.py:289-306 | both leg ticks absent, basis 0, no synthetic tick |
| `Spread.TwoLegSpread.UpdateBasisOnTick` | vnpy/trader/object.py:403-458 | stores the tick for leg 1, or else for leg 2; returns 0 and changes nothing else until both legs are seen; then the basis is `c0·l1.last + c1·l2.last` ('ltp'), `0.5·(c0·(a1+b1) + c1·(a2+b2))` ('mid') or unchanged (other modes), the quotes are `l1.ask − l2.bid` and `l1.bid − l2.ask`, and the synthetic tick exists exactly when both legs have quoted |
| `SpreadArbitrage.Split` | vnpy/app/cta_strategy/strategies/spread_arbitrage.py:40 | `str.split` yields at least one piece and no piece contains the separator |
| `SpreadArbitrage.JoinSplit` | vnpy/app/cta_strategy/strategies/spread_arbitrage.py:40 | joining the pieces with the separator gives back the string |
| `SpreadArbitrage.SplitCount` | vnpy/app/cta_strategy/strategies/spread_arbitrage.py:40-45 | the number of pieces is the number of separators plus one |
| `SpreadArbitrage.SplitJoin` | vnpy/app/cta_strategy/strategies/spread_arbitrage.py:47 | splitting a join of separator-free pieces gives back the pieces |
| `SpreadArbitrage.ParseSpreadTicker` | vnpy/app/cta_strategy/strategies/spread_arbitrage.py:38-50 | fails to unpack exactly when the ticker does not hold exactly one `_`; otherwise, when the contracts part does not split into 2 on `&`, fails with its piece count, the number of `&` in it plus one; on success returns leg 1 then leg 2, which contain neither `_` nor `&`, and prefix + `_` + leg1 + `&` + leg2 is the ticker |
| `SpreadArbitrage.ParseRoundTrip` | vnpy/app/cta_strategy/strategies/spread_arbitrage.py:40-50 | every ticker of the form prefix `_` leg1 `&` leg2 (no `_` anywhere else, no `&` in the legs) parses to exactly those parts |
| `SpreadArbitrage.SpreadArbitrageStrategy.constructor` | vnpy/app/cta_strategy/strategies/spread_arbitrage.py:26-36 | empty leg list, nothing forwarded to the bar generator |
| `SpreadArbitrage.SpreadArbitrageStrategy.ConvertSpreadTicker` | vnpy/app/cta_strategy/strategies/spread_arbitrage.py:38-50 | on success `vt_symbol_list` is the parsed leg list; on failure the error is raised and the list is unchanged |
| `SpreadArbitrage.SpreadArbitrageStrategy.OnTick` | vnpy/app/cta_strategy/strategies/spread_arbitrage.py:70-80 | updates the spread; the synthetic tick, carrying the basis and the tick's time, is appended to the bar generator's input exactly when it exists, that is once both legs have quoted; until then the spread's basis and synthetic tick are unchanged; once ready the basis is the 'ltp' or 'mid' closed form of the stored legs, and any other mode leaves it unchanged; an existing synthetic tick is refreshed in place, keeping its gateway and exchange, and a newly created one carries the triggering tick's gateway and exchange |
| `PutCallParity.PutCallParityArb.constructor` | vnpy/app/portfolio_strategy/strategies/put_call_parity_arb.py:10-57 | empty tick dictionary, synthetic underlying and spread 0, no hedge tick and no last tick time |
| `PutCallParity.PutCallParityArb.OnInit` | vnpy/app/portfolio_strategy/strategies/put_call_parity_arb.py:59-67 | synthetic underlying reset to 0; call, put and hedge entries marked as not quoted, other entries kept; so the strategy is not ready |
| `PutCallParity.PutCallParityArb.CalcSyntheticUnderlying` | vnpy/app/portfolio_strategy/strategies/put_call_parity_arb.py:86-97 | in 'mid' mode every stored ticker gets its mid `0.5·(ask+bid)`, the synthetic underlying becomes `call.mid − put.mid + strike` and the spread `synthetic − hedge.mid`, without reading the rate or the expiry; a missing configured ticker raises KeyError at its first read; another benchmark fails at the log line with the results unchanged |
| `PutCallParity.PutCallParityArb.OnTick` | vnpy/app/portfolio_strategy/strategies/put_call_parity_arb.py:99-116 | the tick is always stored under its symbol, registered or not; while any entry lacks a tick nothing else changes; a missing hedge entry raises KeyError; otherwise the hedge tick and the triggering tick's time are recorded; another benchmark fails at the log line with mids, synthetic underlying and spread unchanged; in 'mid' mode every entry gets its mid, a missing call or put raises KeyError with the results unchanged, and with all three present the synthetic underlying is `call.mid − put.mid + strike` and the spread `synthetic − hedge.mid`; when the mids obey parity C − P = F − K for the hedge mid F, the synthetic underlying is F and the spread is 0 |

## Left out

- `update_basis_on_bar` (vnpy/trader/object.py:460-471): it reads an attribute `leg1Coeff` that is never defined and bar fields that start as None, so it has no behaviour to model.
- `TradeData.to_dict` (vnpy/trader/object.py:172-180): it reads a `time` attribute that does not exist and calls `Direction.int`, which lives in `vnpy/trader/constant.py`; that file is not part of this model.
- The `SpreadData(...)` call at the end of `convert_spread_ticker` (spread_arbitrage.py:51-52): its keyword arguments do not match the constructor at object.py:313. The strategy's spread is instead passed to `SpreadArbitrageStrategy`'s constructor.
- The readiness-time `'mid'` recompute (object.py:349-351) is modelled only as the failure it raises. `TickListUpdate` keeps the `'mid'` incremental step (object.py:357-360), but the invariant shows that no state reachable from the constructor gets there, so `UpdateBasisOnTickList` computes only the `'ltp'` step.
- `Spread.SpreadData.constructor`: takes the mode as a parameter and keeps it fixed. In the source, `mode` is a class default that callers may reassign at any time; the invariant is stated for a fixed mode.
- `Spread.SpreadData.constructor`: requires distinct leg symbols, because the source's dictionaries collapse duplicates and `leg_str_list.index` (object.py:319) always picks the first one. It also requires at least as many coefficients as legs; with fewer, the source raises IndexError during construction.
- `Spread.TwoLegSpread.constructor`: the constructor at object.py:313 never sets `leg1` and `leg2`, which `update_basis_on_tick` reads. The model takes both legs and the two coefficients `coef_list[0]`, `coef_list[1]` as constructor arguments.
- `Spread.SpreadData` and `Spread.TwoLegSpread` are one class in the source (object.py:281-471). Its two update methods share `basis`, `spreadTick`, `mode`, `coef_list` and `ticker`. The model splits them into two classes, so calling both methods on one object, and the interference between them, is not modelled.
- The synthetic tick is a value, not a shared mutable object. Its refresh writes datetime, quotes and last price and keeps the other fields, as the source's in-place update does. Aliasing of that object by other holders is not modelled.
- `PutCallParity.PutCallParityArb.OnTick`: `calc_benchmark` (put_call_parity_arb.py:28, 35-36) is a strategy variable that may be reassigned; the model fixes it at construction. So the `MissingMidAttribute` outcome assumes the benchmark was never 'mid': a tick that once received a `mid` under 'mid' would be logged instead of raising.
- `PutCallParity.PutCallParityArb.constructor`: the class default `underlying = 0` (put_call_parity_arb.py:18) is modelled as `None`, the absence of a hedge tick, since `on_tick` only ever stores a tick there.
- `PutCallParity.PutCallParityArb.constructor`: `self.vt_symbol = vt_symbols[0]` (put_call_parity_arb.py:54) raises IndexError on an empty symbol list; the model takes no symbol list, so that failure is not modelled.
- The `mid` attribute the put-call parity calculation attaches to each tick object is modelled as the map `mids`, keyed by ticker.
- Logging (`write_log`), `put_event`, `put_strategy_event`, `load_bars` and `get_pos` are not modelled, and neither are the `on_start`, `on_stop`, `on_bar`, `on_order` and `on_trade` callbacks, which only log or post events. The position lookup in `on_init` (put_call_parity_arb.py:69-72) is left out with them.
- `BarGenerator` and `ArrayManager` are external collaborators. The bar generator is modelled only by the sequence of ticks handed to it.
- Floating-point rounding: prices and coefficients are exact reals. Float accumulation order and `-0.0` are not modelled.
- The remaining record dataclasses and their `__post_init__` string formatting are not modelled, beyond `vt_symbol = symbol + "." + exchange` and `vt_orderid`.
- `run.py` (GUI and engine wiring) and the Black-76 build script `setup.py` are not modelled: they contain no spread logic.
- The moving-average signal engine and the fill/imbalance reconciler do not appear in the modelled source files, so they are not modelled.
