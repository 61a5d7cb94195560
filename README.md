# RAI price feed: polynomial price model and throttled feed

This project models two pieces of UMA's financial-templates library that derive a
synthetic price for RAI (reflexer.finance):

- **`PriceModel`** (`price_model.dfy`). It evaluates the quadratic polynomial
  `c + P·(p + pp·P + pr·R + pt·T) + R·(r + rr·R + rt·T) + T·(t + tt·T)` in the redemption
  price `P`, the redemption rate `R` and the time `T`, and divides it by `q`. It clamps
  the result below at `l`, then above at `h` when `h` is truthy. Otherwise it rounds with
  JavaScript's `Math.round`, which rounds ties towards +∞ (`floor(x + 1/2)`, section
  21.3.2.28 of ECMAScript 2023). Every coefficient is read with `|| default`, so an absent
  coefficient and a zero coefficient behave the same. `q` falls back to 10^12, so the
  divisor is never zero. All the other coefficients fall back to 0.
- **`RaiPriceFeed`** (`rai_price_feed.dfy`). It decodes RAI's offset-encoded fixed-point
  readings: a raw value above 10^27/2 means `raw − 10^27`. It evaluates the model on the
  decoded redemption price and rate. It keeps `price` and `lastUpdateTime`, both unset
  until the first refresh. `update()` refreshes only when the feed has never updated, or
  when `now ≥ lastUpdateTime + minTimeBetweenUpdates` (default 60). Historical queries
  evaluate the model on the readings at a resolved block and change no state. The feed
  class has mutable `Option` fields. `Update` is proved against the step function
  `Step`, and lemmas about `Step` and about runs of updates (`Run`, `Refreshes`) state
  the throttle properties.
- `wrappers.dfy` holds the `Option` and `Result` datatypes.

Abstractions:
- The chain reads are inputs. The live read is an `Option<Readings>`, where `None` means
  the contract call failed. The historical read is a `Result<Readings, FeedError>`, which
  is either the readings at the block the block finder found for the time, or the error
  (`BlockResolutionError`, `ChainReadError`).
- The clock `getTime()` is the `now` parameter of `Update`.
- Arithmetic is exact: coefficients and the model's value are `real`, and readings and
  times are integers.
- The BN conversion of `_getPrice` is the identity. `GetPriceIsWhole` shows that the
  value is a whole number whenever `l` and a truthy `h` are whole numbers. Only then does
  the conversion to an integer make sense.
- The constructor's logger, ABI, provider and clock are modelled only as present or absent.

Behaviours of the code that the model keeps, and that a reader might not expect:
- `result ≥ l` is not an invariant. A fractional `l` can be undercut by rounding
  (`FractionalFloorUndercut`). A truthy `h` below `l` wins whenever the floor is passed
  (`CeilingBelowFloorWins`). `AtLeastFloor` and `WithinBounds` give the conditions under
  which the bound does hold.
- A model with only `c` set does not always evaluate to `round(c / 10^12)`. The default
  floor 0 turns every negative constant into 0 (`OnlyConstant`).
- A ceiling of exactly 0 is falsy and is ignored (`ZeroCeilingIgnored`). A divisor of 0
  becomes 10^12 (`Divisor`).
- `minTimeBetweenUpdates` falls back to 60 only when it is left out. This is a
  destructuring default, not `||`, so a configured 0 stays 0 (`Configure`).
- A failed read of the live chain leaves both fields untouched, and the next call tries
  again. The spacing property (`RefreshesAreSpaced`) is therefore about successful
  refreshes, not about read attempts.

## Model

| member | source | states |
|---|---|---|
| `PriceModel.New` | packages/financial-templates-lib/src/price-feed/PriceModel.js:9-14 | construction succeeds exactly when a coefficient dictionary is given, and keeps it; a null or undefined one fails with `CoefsRequired` |
| `PriceModel.Divisor` | packages/financial-templates-lib/src/price-feed/PriceModel.js:17 | the divisor is `q` when `q` is truthy and 10^12 otherwise, so it is never zero |
| `PriceModel.MathRound` | packages/financial-templates-lib/src/price-feed/PriceModel.js:49 | `Math.round(x)` is the integer `n` with `n − 1/2 ≤ x < n + 1/2` (ties go up) |
| `PriceModel.MathRoundUnique` | packages/financial-templates-lib/src/price-feed/PriceModel.js:49 | that integer is unique: any `n` with `n − 1/2 ≤ x < n + 1/2` is `Math.round(x)` |
| `PriceModel.MathRoundMonotone` | packages/financial-templates-lib/src/price-feed/PriceModel.js:49 | `Math.round` is monotone |
| `PriceModel.MathRoundKeepsWholeBounds` | packages/financial-templates-lib/src/price-feed/PriceModel.js:49 | rounding a value at least (at most) a whole number stays at least (at most) it |
| `PriceModel.Evaluate` | packages/financial-templates-lib/src/price-feed/PriceModel.js:16-50 | the result is the floor, the truthy ceiling, or a whole number |
| `PriceModel.NumeratorIsExpanded` | packages/financial-templates-lib/src/price-feed/PriceModel.js:33-38 | the factored polynomial equals the sum of its ten monomials, each times its coefficient |
| `PriceModel.ExpandedIsAdditive` | packages/financial-templates-lib/src/price-feed/PriceModel.js:33-38 | the monomial sum is linear in the coefficients |
| `PriceModel.TermsAreAdditive` | packages/financial-templates-lib/src/price-feed/PriceModel.js:33-38 | for the same divisor, coefficients that add up give scaled values that add up: each term contributes independently |
| `PriceModel.AllFalsyGiveZero` | packages/financial-templates-lib/src/price-feed/PriceModel.js:17-38 | whenever every coefficient, `l` and `h` are absent or zero (whatever `q` is), and in particular for the empty dictionary, every input evaluates to 0 |
| `PriceModel.FloorClamp` | packages/financial-templates-lib/src/price-feed/PriceModel.js:41-43 | a scaled value below `l` gives exactly `l`, with no rounding and no ceiling check |
| `PriceModel.CeilingClamp` | packages/financial-templates-lib/src/price-feed/PriceModel.js:45-47 | a scaled value at least `l` and above a truthy `h` gives exactly `h` |
| `PriceModel.Unclamped` | packages/financial-templates-lib/src/price-feed/PriceModel.js:49 | otherwise the result is `floor(scaled + 1/2)` |
| `PriceModel.ZeroCeilingIgnored` | packages/financial-templates-lib/src/price-feed/PriceModel.js:45 | `h = 0` is falsy: any value at or above the floor is only rounded |
| `PriceModel.AtLeastFloor` | packages/financial-templates-lib/src/price-feed/PriceModel.js:41-49 | for a whole `l`, and no truthy `h` below it, the result is at least `l` |
| `PriceModel.WithinBounds` | packages/financial-templates-lib/src/price-feed/PriceModel.js:41-49 | for whole `l ≤ h` with `h` truthy, the result lies in `[l, h]` |
| `PriceModel.WholeResult` | packages/financial-templates-lib/src/price-feed/PriceModel.js:41-49 | for a whole `l` and a whole or falsy `h`, every result is a whole number |
| `PriceModel.FractionalFloorUndercut` | packages/financial-templates-lib/src/price-feed/PriceModel.js:41-49 | with `l = 0.4` and a scaled value of 0.45, the result is 0, below the floor |
| `PriceModel.CeilingBelowFloorWins` | packages/financial-templates-lib/src/price-feed/PriceModel.js:41-47 | with `l = 5`, `h = 1` and a scaled value of 6, the result is 1 |
| `PriceModel.OnlyConstant` | packages/financial-templates-lib/src/price-feed/PriceModel.js:17-43 | with only `c` set, the result is 0 for negative `c` and `round(c / 10^12)` otherwise |
| `PriceModel.ClampVectors` | packages/financial-templates-lib/test/price-feed/PriceModel.js:4-27 | at (10, 100, 1000): `{}` gives 0, `{c:6,q:3,l:3}` gives 3, `{c:6,q:3,h:1}` gives 1, `{c:6,q:3}` gives 2, `{c:1e13}` gives 10 |
| `PriceModel.LinearTermVector` | packages/financial-templates-lib/test/price-feed/PriceModel.js:29-32 | `{p:2,r:3,t:5,q:1}` at (10, 100, 1000) gives 5320 |
| `PriceModel.QuadraticTermVector` | packages/financial-templates-lib/test/price-feed/PriceModel.js:34-37 | `{pp:2,rr:3,tt:5,q:1}` at (10, 100, 1000) gives 5030200 |
| `PriceModel.PriceRateTermVector` | packages/financial-templates-lib/test/price-feed/PriceModel.js:39-42 | `{pr:2,q:1}` at (10, 100, 1000) gives 2000 |
| `PriceModel.PriceTimeTermVector` | packages/financial-templates-lib/test/price-feed/PriceModel.js:44-47 | `{pt:2,q:1}` at (10, 100, 1000) gives 20000 |
| `PriceModel.RateTimeTermVector` | packages/financial-templates-lib/test/price-feed/PriceModel.js:49-52 | `{rt:2,q:1}` at (10, 100, 1000) gives 200000 |
| `RaiPriceFeed.ConvertRai2Bn` | packages/financial-templates-lib/src/price-feed/RaiPriceFeed.js:97-104 | the decoded value is `raw` or `raw − 10^27`, and `raw − 10^27` for every `raw ≥ 10^27`; for `raw < 10^27` it lies in `(−5·10^26, 5·10^26]` and is negative exactly when `raw > 5·10^26` |
| `RaiPriceFeed.DecodeEncode` | packages/financial-templates-lib/src/price-feed/RaiPriceFeed.js:97-104 | decoding the offset encoding of any value in `(−5·10^26, 5·10^26]` gives the value back |
| `RaiPriceFeed.EncodeDecode` | packages/financial-templates-lib/src/price-feed/RaiPriceFeed.js:97-104 | every raw reading below 10^27 is the encoding of its decoded value |
| `RaiPriceFeed.DecodeBoundary` | packages/financial-templates-lib/src/price-feed/RaiPriceFeed.js:100 | `5·10^26` decodes to itself; `5·10^26 + 1` decodes to a negative value |
| `RaiPriceFeed.GetPrice` | packages/financial-templates-lib/src/price-feed/RaiPriceFeed.js:72-80 | `_getPrice` decodes both readings and evaluates the model at the timestamp; its value is the floor, the truthy ceiling, or a whole number |
| `RaiPriceFeed.GetPriceOfEncoded` | packages/financial-templates-lib/src/price-feed/RaiPriceFeed.js:72-80 | `_getPrice` on readings that encode a price and a rate is `evaluate(price, rate, timestamp)` |
| `RaiPriceFeed.GetPriceIsWhole` | packages/financial-templates-lib/src/price-feed/RaiPriceFeed.js:78-80 | for whole `l` and `h`, `_getPrice` is a whole number, so its integer conversion is exact |
| `RaiPriceFeed.Step` | packages/financial-templates-lib/src/price-feed/RaiPriceFeed.js:64-70 | one `update()`: it is throttled exactly when the feed has updated and `now < lastUpdateTime + minTimeBetweenUpdates`; it refreshes exactly when not throttled and the read succeeds, storing `_getPrice("latest", now)` and `now`; otherwise the state is unchanged |
| `RaiPriceFeed.FirstUpdate` | packages/financial-templates-lib/src/price-feed/RaiPriceFeed.js:64-69 | a feed that never updated refreshes at any `now`, storing `_getPrice("latest", now)` and `now` |
| `RaiPriceFeed.ThrottleReadsNothing` | packages/financial-templates-lib/src/price-feed/RaiPriceFeed.js:66 | if `now < lastUpdateTime + minTimeBetweenUpdates`, the state is unchanged and the outcome is the same whatever the chain holds |
| `RaiPriceFeed.RefreshOverwrites` | packages/financial-templates-lib/src/price-feed/RaiPriceFeed.js:66-68 | if `now ≥ lastUpdateTime + minTimeBetweenUpdates`, a successful read overwrites both fields with the fresh price and `now` |
| `RaiPriceFeed.FailedReadKeepsState` | packages/financial-templates-lib/src/price-feed/RaiPriceFeed.js:67 | a failed read leaves both fields as they were and reports `ChainReadError` when a refresh was due |
| `RaiPriceFeed.FieldsSetTogether` | packages/financial-templates-lib/src/price-feed/RaiPriceFeed.js:66-69 | `price` is set exactly when `lastUpdateTime` is, before and after every update |
| `RaiPriceFeed.RefreshesAreSpaced` | packages/financial-templates-lib/src/price-feed/RaiPriceFeed.js:64-70 | in any run of updates, successive successful refreshes are at least `minTimeBetweenUpdates` apart, and the first is at least that long after the initial update time |
| `RaiPriceFeed.RunKeepsLastRefresh` | packages/financial-templates-lib/src/price-feed/RaiPriceFeed.js:64-70 | after a run, `lastUpdateTime` is the time of the last successful refresh, or the initial value if none |
| `RaiPriceFeed.LastUpdateTimeMonotone` | packages/financial-templates-lib/src/price-feed/RaiPriceFeed.js:64-70 | with a non-negative interval, `lastUpdateTime` stays set and never decreases over a run |
| `RaiPriceFeed.ThrottleScenario` | packages/financial-templates-lib/src/price-feed/RaiPriceFeed.js:64-70 | with the default interval, updates at 0, 30 and 60 refresh at 0 and 60 only; after 0 and 30 the state is that of the first refresh |
| `RaiPriceFeed.Configure` | packages/financial-templates-lib/src/price-feed/RaiPriceFeed.js:20-40 | construction fails on the first missing required argument, in the source's order, and succeeds only when all are given; it builds the model from `coefs`, names the feed `Rai-<address>` and uses an interval of 60 when none is given |
| `RaiPriceFeed.RaiPriceFeed.constructor` | packages/financial-templates-lib/src/price-feed/RaiPriceFeed.js:20-40 | a new feed has the given settings and no price and no update time |
| `RaiPriceFeed.RaiPriceFeed.Create` | packages/financial-templates-lib/src/price-feed/RaiPriceFeed.js:20-40 | construction either fails with the error `Configure` gives, or returns a fresh feed with its settings and an unset state |
| `RaiPriceFeed.RaiPriceFeed.GetCurrentPrice` | packages/financial-templates-lib/src/price-feed/RaiPriceFeed.js:42-44 | returns the stored price, unset before the first refresh; a function, so no state changes |
| `RaiPriceFeed.RaiPriceFeed.GetHistoricalPrice` | packages/financial-templates-lib/src/price-feed/RaiPriceFeed.js:46-49 | succeeds exactly when the block lookup and the read succeed, propagates their error otherwise, and returns `_getPrice` at that block and time; it reads no mutable field |
| `RaiPriceFeed.RaiPriceFeed.GetLastUpdateTime` | packages/financial-templates-lib/src/price-feed/RaiPriceFeed.js:51-53 | returns the stored update time, unset before the first refresh |
| `RaiPriceFeed.RaiPriceFeed.GetLookback` | packages/financial-templates-lib/src/price-feed/RaiPriceFeed.js:55-58 | always `Infinity` |
| `RaiPriceFeed.RaiPriceFeed.GetPriceFeedDecimals` | packages/financial-templates-lib/src/price-feed/RaiPriceFeed.js:60-62 | always 9 |
| `RaiPriceFeed.RaiPriceFeed.Update` | packages/financial-templates-lib/src/price-feed/RaiPriceFeed.js:64-70 | the new `price`/`lastUpdateTime` and the outcome are those of `Step` from the old state: throttled (no read, nothing changes), refreshed (both fields overwritten), or failed (nothing changes) |
| `RaiPriceFeed.HistoricalMatchesRefresh` | packages/financial-templates-lib/src/price-feed/RaiPriceFeed.js:46-49 | a historical query at `t` gives the price that a refresh at clock value `t` on the same readings would store |
| `RaiPriceFeed.TestRateDecodes` | packages/financial-templates-lib/test/price-feed/RaiPriceFeed.js:37-42 | raw rate 999999999874279187558202799 decodes to −125720812441797201 |
| `RaiPriceFeed.BasicCurrentPrice` | packages/financial-templates-lib/test/price-feed/RaiPriceFeed.js:37-42 | with `{r:1, c:1e18}`, raw price 0 and that raw rate, the first update stores 874279 |
| `RaiPriceFeed.MostRecentPrice` | packages/financial-templates-lib/test/price-feed/RaiPriceFeed.js:44-51 | with raw rate 999999999674279187558202799 (the last write), the first update stores 674279 |

## Left out

- Contract binding and the `redemptionPrice()`/`redemptionRate()` calls
  (`RaiPriceFeed.js:35,73-76`): these are network I/O. Their results are parameters. The
  two reads of one evaluation fail or succeed together.
- `BlockFinder` (`RaiPriceFeed.js:3,39,47`): its timestamp-to-block search and cache are
  not part of this model. `GetHistoricalPrice` receives its outcome together with the
  readings at that block.
- Console and winston logging (`RaiPriceFeed.js:82-93`): observability only.
- `BN` string conversion (`RaiPriceFeed.js:79-80`): it is the identity. `String` prints a
  non-integer result (possible only with a fractional `l` or `h`) with a decimal point. It
  prints a result of magnitude 10^21 or more in exponent form, such as `"4e+42"`; with
  `pp` set, a redemption price near 10^27 gives such a result. What bn.js makes of either
  string is not modelled.
- IEEE-754 doubles: the source computes in binary64 and the model computes exactly.
  - `_convertRai2Bn` (`RaiPriceFeed.js:99-103`): `Number(value)` rounds a 27-digit
    reading, and `one = 1e27` is itself the double 1000000000000000013287555072. So the
    source's sign test `value > one / 2` is false for every reading from 5·10^26 + 1 up
    to about 5·10^26 + 4.1·10^10. Those readings decode to about +5·10^26, where the model
    gives about −5·10^26.
  - For a raw reading near 10^27, the rounding of the reading and of `one` together can
    put its decoded value off by up to about 8·10^10.
  - `DecodeBoundary` and `TestRateDecodes` are statements about exact arithmetic. In
    doubles, 5·10^26 + 1 stays positive, and the rate reading of `TestRateDecodes`
    decodes to −125720770860023808 rather than −125720812441797201.
  - The double arithmetic of `evaluate` also rounds, so large inputs can differ from the
    source in their last digits. For the readings of `BasicCurrentPrice` and
    `MostRecentPrice`, doubles give the same results, 874279 and 674279.
- `this.coefs = coefs` (`PriceModel.js:13`) keeps a reference to the caller's dictionary,
  so a later change to it would show in later `evaluate` calls. The model holds an
  immutable copy of the dictionary and does not capture that aliasing.
- `NaN`, strings and other non-number coefficient values, and falsy non-null `coefs`
  (such as `0` or `""`), are not modelled. A coefficient is a number or absent.
- `async` interleaving and the last-writer-wins race between overlapping `update()` calls:
  `Update` is atomic and sequential.
- The `PriceFeedInterface` base class, which is not part of this model, and the test
  harness (RaiMock, truffle, winston setup).
- The UUID string is stored and not read by any operation. `Rai-` followed by the address
  is the whole of what the source does with it.
