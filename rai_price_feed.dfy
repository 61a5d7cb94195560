/**
 * The RAI price feed: it decodes the redemption price and redemption rate read from
 * RAI's OracleRelay contract, evaluates the polynomial price model on them, keeps the
 * most recent result and refreshes it at most once per throttle interval.
 *
 * The chain and the block finder are abstract: a read of the live state is an
 * `Option<Readings>` (None when the call fails), a historical read is a
 * `Result<Readings, FeedError>` (the block could not be found, or the call failed),
 * and the clock is the `now` passed to `Update`.
 */
module RaiPriceFeed {
  import opened Wrappers
  import PriceModel

  /** RAI's fixed-point unit (RAY, 10^27); the encoding is offset by it. */
  const One: int := 1_000_000_000_000_000_000_000_000_000

  /** The throttle interval used when none is configured. */
  const DefaultMinTimeBetweenUpdates: int := 60

  /** Decimals of every price the feed reports. */
  const PriceFeedDecimals: int := 9

  // ---------------------------------------------------------------- decoding

  /**
   * `_convertRai2Bn`: a raw reading above half the unit encodes a negative value
   * (raw - 10^27); any other reading is the value itself.
   */
  function ConvertRai2Bn(raw: nat): (v: int)
    ensures raw < One ==> -(One / 2) < v <= One / 2
    ensures raw < One ==> (v < 0 <==> raw > One / 2)
    ensures v == raw || v == raw - One
    ensures raw >= One ==> v == raw - One
  {
    if raw > One / 2 then raw - One else raw
  }

  /** The encoding that `ConvertRai2Bn` inverts: negative values are offset by 10^27. */
  function EncodeRai(v: int): (raw: nat)
    requires -(One / 2) < v <= One / 2
    ensures raw < One
  {
    if v < 0 then v + One else v
  }

  /** Decoding an encoded value gives the value back. */
  lemma DecodeEncode(v: int)
    requires -(One / 2) < v <= One / 2
    ensures ConvertRai2Bn(EncodeRai(v)) == v
  {
  }

  /** Every raw reading below 10^27 is the encoding of its decoded value. */
  lemma EncodeDecode(raw: nat)
    requires raw < One
    ensures EncodeRai(ConvertRai2Bn(raw)) == raw
  {
  }

  /** The boundary: exactly half the unit decodes as non-negative, one more as negative. */
  lemma DecodeBoundary()
    ensures ConvertRai2Bn(One / 2) == 500_000_000_000_000_000_000_000_000
    ensures ConvertRai2Bn(One / 2 + 1) == -499_999_999_999_999_999_999_999_999
  {
  }

  // ------------------------------------------------------------- evaluation

  /** The two raw values one evaluation reads. */
  datatype Readings = Readings(redemptionPriceRaw: nat, redemptionRateRaw: nat)

  datatype FeedError = ChainReadError | BlockResolutionError

  /** `_getPrice`: decode both readings and evaluate the model at the given time. */
  function GetPrice(model: PriceModel.PriceModel, rd: Readings, timestamp: int): (r: real)
    ensures r == PriceModel.Floor(model.coefs)
         || (PriceModel.Truthy(model.coefs.h) && r == model.coefs.h.value)
         || PriceModel.IsWhole(r)
  {
    PriceModel.Evaluate(model,
      ConvertRai2Bn(rd.redemptionPriceRaw) as real,
      ConvertRai2Bn(rd.redemptionRateRaw) as real,
      timestamp as real)
  }

  /** On readings that encode a price and a rate, `_getPrice` evaluates the model on them. */
  lemma GetPriceOfEncoded(model: PriceModel.PriceModel, price: int, rate: int, timestamp: int)
    requires -(One / 2) < price <= One / 2 && -(One / 2) < rate <= One / 2
    ensures GetPrice(model, Readings(EncodeRai(price), EncodeRai(rate)), timestamp)
         == PriceModel.Evaluate(model, price as real, rate as real, timestamp as real)
  {
    DecodeEncode(price);
    DecodeEncode(rate);
  }

  /**
   * With a whole floor and a whole (or falsy) ceiling, `_getPrice` is a whole number,
   * so its conversion to an arbitrary-precision integer loses nothing.
   */
  lemma GetPriceIsWhole(model: PriceModel.PriceModel, rd: Readings, timestamp: int)
    requires PriceModel.IsWhole(PriceModel.Floor(model.coefs))
    requires PriceModel.Truthy(model.coefs.h) ==> PriceModel.IsWhole(model.coefs.h.value)
    ensures PriceModel.IsWhole(GetPrice(model, rd, timestamp))
  {
    PriceModel.WholeResult(model,
      ConvertRai2Bn(rd.redemptionPriceRaw) as real,
      ConvertRai2Bn(rd.redemptionRateRaw) as real,
      timestamp as real);
  }

  // ---------------------------------------------------------- the feed state

  /** The feed's mutable state: both fields are unset until the first refresh. */
  datatype FeedState = FeedState(price: Option<real>, lastUpdateTime: Option<int>)

  const Initial: FeedState := FeedState(None, None)

  /** What one `update()` call did: nothing (throttled), a refresh, or a failed read. */
  datatype UpdateOutcome = Throttled | Refreshed | Failed(error: FeedError)

  datatype Transition = Transition(state: FeedState, outcome: UpdateOutcome)

  /** The feed refreshes when it has never updated or a full interval has passed. */
  predicate ShouldRefresh(minTimeBetweenUpdates: int, last: Option<int>, now: int)
  {
    last.None? || now >= last.value + minTimeBetweenUpdates
  }

  /**
   * One `update()` at clock value `now`, with `latest` the readings of the live
   * chain: throttled, it reads nothing; otherwise a successful read overwrites both
   * fields and a failed one leaves them as they were.
   */
  function Step(model: PriceModel.PriceModel, minTimeBetweenUpdates: int, s: FeedState,
                now: int, latest: Option<Readings>): (t: Transition)
    ensures t.outcome == Throttled <==> !ShouldRefresh(minTimeBetweenUpdates, s.lastUpdateTime, now)
    ensures t.outcome == Refreshed <==> ShouldRefresh(minTimeBetweenUpdates, s.lastUpdateTime, now) && latest.Some?
    ensures t.outcome != Refreshed ==> t.state == s
    ensures t.outcome == Refreshed ==>
      t.state == FeedState(Some(GetPrice(model, latest.value, now)), Some(now))
  {
    if !ShouldRefresh(minTimeBetweenUpdates, s.lastUpdateTime, now) then
      Transition(s, Throttled)
    else match latest
      case None => Transition(s, Failed(ChainReadError))
      case Some(rd) => Transition(FeedState(Some(GetPrice(model, rd, now)), Some(now)), Refreshed)
  }

  /** The first update always reads and, when the read succeeds, stores its price and time. */
  lemma FirstUpdate(model: PriceModel.PriceModel, minTime: int, now: int, rd: Readings)
    ensures var t := Step(model, minTime, Initial, now, Some(rd));
      t.outcome == Refreshed && t.state == FeedState(Some(GetPrice(model, rd, now)), Some(now))
  {
  }

  /** Inside the interval, update leaves the state as it is, whatever the chain holds. */
  lemma ThrottleReadsNothing(model: PriceModel.PriceModel, minTime: int, s: FeedState, now: int,
                             a: Option<Readings>, b: Option<Readings>)
    requires s.lastUpdateTime.Some? && now < s.lastUpdateTime.value + minTime
    ensures Step(model, minTime, s, now, a) == Transition(s, Throttled)
    ensures Step(model, minTime, s, now, a) == Step(model, minTime, s, now, b)
  {
  }

  /** Once the interval has passed, a successful read overwrites both fields. */
  lemma RefreshOverwrites(model: PriceModel.PriceModel, minTime: int, s: FeedState, now: int, rd: Readings)
    requires s.lastUpdateTime.Some? && now >= s.lastUpdateTime.value + minTime
    ensures Step(model, minTime, s, now, Some(rd))
         == Transition(FeedState(Some(GetPrice(model, rd, now)), Some(now)), Refreshed)
  {
  }

  /** A failed read propagates its error and keeps the previous price and time. */
  lemma FailedReadKeepsState(model: PriceModel.PriceModel, minTime: int, s: FeedState, now: int)
    ensures Step(model, minTime, s, now, None).state == s
    ensures Step(model, minTime, s, now, None).outcome
         == if ShouldRefresh(minTime, s.lastUpdateTime, now) then Failed(ChainReadError) else Throttled
  {
  }

  /** A price is stored exactly when a time is: the two fields are set together. */
  lemma FieldsSetTogether(model: PriceModel.PriceModel, minTime: int, s: FeedState, now: int, latest: Option<Readings>)
    requires s.price.Some? <==> s.lastUpdateTime.Some?
    ensures var n := Step(model, minTime, s, now, latest).state;
      n.price.Some? <==> n.lastUpdateTime.Some?
  {
  }

  // --------------------------------------------------------- runs of updates

  /** One call of `update()`: the clock value and the live readings it would see. */
  datatype Call = Call(now: int, latest: Option<Readings>)

  /** The state after a sequence of `update()` calls, run one after another. */
  function Run(model: PriceModel.PriceModel, minTime: int, s: FeedState, calls: seq<Call>): FeedState
    decreases |calls|
  {
    if |calls| == 0 then s
    else Run(model, minTime, Step(model, minTime, s, calls[0].now, calls[0].latest).state, calls[1..])
  }

  /** The clock values at which the calls of a run refreshed the feed, in order. */
  function Refreshes(model: PriceModel.PriceModel, minTime: int, s: FeedState, calls: seq<Call>): seq<int>
    decreases |calls|
  {
    if |calls| == 0 then []
    else
      var t := Step(model, minTime, s, calls[0].now, calls[0].latest);
      (if t.outcome == Refreshed then [calls[0].now] else [])
      + Refreshes(model, minTime, t.state, calls[1..])
  }

  /** Refresh times `ts` are at least one interval apart, and one interval after `last`. */
  predicate Spaced(minTime: int, last: Option<int>, ts: seq<int>)
  {
    (last.Some? && |ts| > 0 ==> last.value + minTime <= ts[0])
    && forall i :: 0 <= i < |ts| - 1 ==> ts[i] + minTime <= ts[i + 1]
  }

  /** In any run, successive refreshes are at least `minTimeBetweenUpdates` apart. */
  lemma {:induction false} RefreshesAreSpaced(model: PriceModel.PriceModel, minTime: int, s: FeedState, calls: seq<Call>)
    ensures Spaced(minTime, s.lastUpdateTime, Refreshes(model, minTime, s, calls))
    decreases |calls|
  {
    if |calls| > 0 {
      var t := Step(model, minTime, s, calls[0].now, calls[0].latest);
      var rest := Refreshes(model, minTime, t.state, calls[1..]);
      RefreshesAreSpaced(model, minTime, t.state, calls[1..]);
      if t.outcome == Refreshed {
        var ts := [calls[0].now] + rest;
        assert Refreshes(model, minTime, s, calls) == ts;
        assert t.state.lastUpdateTime == Some(calls[0].now);
        forall i | 0 <= i < |ts| - 1
          ensures ts[i] + minTime <= ts[i + 1]
        {
          if i > 0 {
            assert ts[i] == rest[i - 1] && ts[i + 1] == rest[i];
          }
        }
      } else {
        assert Refreshes(model, minTime, s, calls) == rest;
        assert t.state == s;
      }
    }
  }

  /** After a run, the stored time is that of the last refresh, or the initial one if none. */
  lemma {:induction false} RunKeepsLastRefresh(model: PriceModel.PriceModel, minTime: int, s: FeedState, calls: seq<Call>)
    ensures var ts := Refreshes(model, minTime, s, calls);
      Run(model, minTime, s, calls).lastUpdateTime == if |ts| == 0 then s.lastUpdateTime else Some(ts[|ts| - 1])
    decreases |calls|
  {
    if |calls| > 0 {
      var t := Step(model, minTime, s, calls[0].now, calls[0].latest);
      RunKeepsLastRefresh(model, minTime, t.state, calls[1..]);
      var rest := Refreshes(model, minTime, t.state, calls[1..]);
      if t.outcome == Refreshed {
        assert Refreshes(model, minTime, s, calls) == [calls[0].now] + rest;
      } else {
        assert Refreshes(model, minTime, s, calls) == rest;
      }
    }
  }

  /** With a non-negative interval the stored update time never goes backwards. */
  lemma {:induction false} LastUpdateTimeMonotone(model: PriceModel.PriceModel, minTime: int, s: FeedState, calls: seq<Call>)
    requires minTime >= 0 && s.lastUpdateTime.Some?
    ensures Run(model, minTime, s, calls).lastUpdateTime.Some?
    ensures Run(model, minTime, s, calls).lastUpdateTime.value >= s.lastUpdateTime.value
    decreases |calls|
  {
    if |calls| > 0 {
      var t := Step(model, minTime, s, calls[0].now, calls[0].latest);
      LastUpdateTimeMonotone(model, minTime, t.state, calls[1..]);
    }
  }

  /** The default throttle: update at 0, again at 30 (throttled), then at 60 (refreshes). */
  lemma ThrottleScenario(model: PriceModel.PriceModel, a: Readings, b: Readings, c: Readings)
    ensures Refreshes(model, DefaultMinTimeBetweenUpdates, Initial,
                      [Call(0, Some(a)), Call(30, Some(b)), Call(60, Some(c))]) == [0, 60]
    ensures Run(model, DefaultMinTimeBetweenUpdates, Initial,
                [Call(0, Some(a)), Call(30, Some(b))]) == FeedState(Some(GetPrice(model, a, 0)), Some(0))
  {
    var m, w := model, DefaultMinTimeBetweenUpdates;
    var c0, c1, c2 := Call(0, Some(a)), Call(30, Some(b)), Call(60, Some(c));
    var s1 := Step(m, w, Initial, 0, Some(a)).state;
    assert s1 == FeedState(Some(GetPrice(m, a, 0)), Some(0));
    assert Step(m, w, s1, 30, Some(b)) == Transition(s1, Throttled);
    var s3 := Step(m, w, s1, 60, Some(c)).state;
    assert Step(m, w, s1, 60, Some(c)).outcome == Refreshed;
    assert [c0, c1, c2][1..] == [c1, c2] && [c1, c2][1..] == [c2] && [c2][1..] == [];
    assert Refreshes(m, w, s1, [c2]) == [60] + Refreshes(m, w, s3, []);
    assert Refreshes(m, w, s1, [c1, c2]) == [] + Refreshes(m, w, s1, [c2]);
    assert Refreshes(m, w, Initial, [c0, c1, c2]) == [0] + Refreshes(m, w, s1, [c1, c2]);
    assert [c0, c1][1..] == [c1] && [c1][1..] == [];
    assert Run(m, w, s1, [c1]) == Run(m, w, s1, []);
  }

  // ------------------------------------------------------------ construction

  /** The constructor's required arguments, in the order in which it checks them. */
  datatype Dependency = Coefs | Logger | RaiAbi | Web3 | RaiAddress | GetTime

  /**
   * The constructor's argument object. The logger, ABI, provider and clock are only
   * present or absent here; `minTimeBetweenUpdates` is None when it is left out.
   */
  datatype FeedConfig = FeedConfig(
    coefs: Option<PriceModel.Coefs>,
    logger: bool,
    raiAbi: bool,
    web3: bool,
    raiAddress: Option<string>,
    getTime: bool,
    minTimeBetweenUpdates: Option<int>)

  /** What a constructed feed is made of, besides its mutable state. */
  datatype Settings = Settings(model: PriceModel.PriceModel, uuid: string, minTimeBetweenUpdates: int)

  datatype ConstructionError = Required(missing: Dependency)

  /** Whether a required argument is truthy; an empty address string is not. */
  predicate Provided(cfg: FeedConfig, d: Dependency)
  {
    match d
    case Coefs => cfg.coefs.Some?
    case Logger => cfg.logger
    case RaiAbi => cfg.raiAbi
    case Web3 => cfg.web3
    case RaiAddress => cfg.raiAddress.Some? && cfg.raiAddress.value != ""
    case GetTime => cfg.getTime
  }

  /** The position of each check in the constructor. */
  function Rank(d: Dependency): nat
  {
    match d
    case Coefs => 0
    case Logger => 1
    case RaiAbi => 2
    case Web3 => 3
    case RaiAddress => 4
    case GetTime => 5
  }

  /**
   * The constructor's checks and defaults: it fails on the first required argument
   * that is missing; otherwise it builds the model from the coefficients, names the
   * feed after the address and takes the interval, 60 when left out.
   */
  function Configure(cfg: FeedConfig): (r: Result<Settings, ConstructionError>)
    ensures r.Ok? <==> forall d :: Provided(cfg, d)
    ensures r.Err? ==> !Provided(cfg, r.error.missing)
    ensures r.Err? ==> forall d :: Rank(d) < Rank(r.error.missing) ==> Provided(cfg, d)
    ensures r.Ok? ==> r.value.model.coefs == cfg.coefs.value
    ensures r.Ok? ==> cfg.raiAddress.Some? && r.value.uuid == "Rai-" + cfg.raiAddress.value
    ensures r.Ok? && cfg.minTimeBetweenUpdates.None? ==> r.value.minTimeBetweenUpdates == 60
    ensures r.Ok? && cfg.minTimeBetweenUpdates.Some? ==> r.value.minTimeBetweenUpdates == cfg.minTimeBetweenUpdates.value
  {
    if !Provided(cfg, Coefs) then Err(Required(Coefs))
    else if !Provided(cfg, Logger) then Err(Required(Logger))
    else if !Provided(cfg, RaiAbi) then Err(Required(RaiAbi))
    else if !Provided(cfg, Web3) then Err(Required(Web3))
    else if !Provided(cfg, RaiAddress) then Err(Required(RaiAddress))
    else if !Provided(cfg, GetTime) then Err(Required(GetTime))
    else
      var minTime := match cfg.minTimeBetweenUpdates
        case None => DefaultMinTimeBetweenUpdates
        case Some(n) => n;
      Ok(Settings(PriceModel.New(cfg.coefs).value, "Rai-" + cfg.raiAddress.value, minTime))
  }

  // ---------------------------------------------------------------- the feed

  /**
   * The result type of `getLookback()` across price feeds: other feeds report a finite
   * number of seconds; this feed always reports Infinity.
   */
  datatype Lookback = Seconds(n: real) | Infinity

  class RaiPriceFeed {
    const model: PriceModel.PriceModel
    const uuid: string
    const minTimeBetweenUpdates: int
    var price: Option<real>
    var lastUpdateTime: Option<int>

    /** A feed built from checked settings, not yet updated. */
    constructor (settings: Settings)
      ensures Config() == settings
      ensures State() == Initial
    {
      model := settings.model;
      uuid := settings.uuid;
      minTimeBetweenUpdates := settings.minTimeBetweenUpdates;
      price := None;
      lastUpdateTime := None;
    }

    /** `new RaiPriceFeed({...})`: fails on the first missing argument, never half-built. */
    static method Create(cfg: FeedConfig) returns (r: Result<RaiPriceFeed, ConstructionError>)
      ensures r.Err? <==> Configure(cfg).Err?
      ensures r.Err? ==> r.error == Configure(cfg).error
      ensures r.Ok? ==> fresh(r.value) && r.value.Config() == Configure(cfg).value
      ensures r.Ok? ==> r.value.State() == Initial
    {
      match Configure(cfg)
      case Err(e) => r := Err(e);
      case Ok(settings) =>
        var feed := new RaiPriceFeed(settings);
        r := Ok(feed);
    }

    /** The immutable part of the feed. */
    function Config(): Settings
    {
      Settings(model, uuid, minTimeBetweenUpdates)
    }

    /** The mutable part of the feed. */
    function State(): FeedState
      reads this
    {
      FeedState(price, lastUpdateTime)
    }

    /** `getCurrentPrice()`: the stored price, None before the first refresh. */
    function GetCurrentPrice(): (r: Option<real>)
      reads this
      ensures r == State().price
    {
      price
    }

    /**
     * `getHistoricalPrice(time)`: `atBlock` is what the block finder and the chain give
     * for `time`. It reads none of the mutable fields.
     */
    function GetHistoricalPrice(time: int, atBlock: Result<Readings, FeedError>): (r: Result<real, FeedError>)
      ensures r.Ok? <==> atBlock.Ok?
      ensures r.Err? ==> r.error == atBlock.error
      ensures r.Ok? ==> r.value == GetPrice(model, atBlock.value, time)
    {
      match atBlock
      case Err(e) => Err(e)
      case Ok(rd) => Ok(GetPrice(model, rd, time))
    }

    /** `getLastUpdateTime()`: the stored time, None before the first refresh. */
    function GetLastUpdateTime(): (r: Option<int>)
      reads this
      ensures r == State().lastUpdateTime
    {
      lastUpdateTime
    }

    /** `getLookback()`: this feed can look back as far as the chain goes. */
    function GetLookback(): (r: Lookback)
      ensures r == Infinity
    {
      Infinity
    }

    /** `getPriceFeedDecimals()`: always 9. */
    function GetPriceFeedDecimals(): (r: int)
      ensures r == 9
    {
      PriceFeedDecimals
    }

    /**
     * `update()` at clock value `now`, with `latest` the live chain's readings (None
     * when the read fails). Throttled, nothing changes; a refresh sets both fields.
     */
    method Update(now: int, latest: Option<Readings>) returns (outcome: UpdateOutcome)
      modifies this
      ensures State() == Step(model, minTimeBetweenUpdates, old(State()), now, latest).state
      ensures outcome == Step(model, minTimeBetweenUpdates, old(State()), now, latest).outcome
    {
      if lastUpdateTime.None? || now >= lastUpdateTime.value + minTimeBetweenUpdates {
        match latest
        case None =>
          outcome := Failed(ChainReadError);
        case Some(rd) =>
          price := Some(GetPrice(model, rd, now));
          lastUpdateTime := Some(now);
          outcome := Refreshed;
      } else {
        outcome := Throttled;
      }
    }
  }

  /** A historical query at time t agrees with the price a refresh at clock value t would store. */
  lemma HistoricalMatchesRefresh(feed: RaiPriceFeed, s: FeedState, t: int, rd: Readings)
    requires ShouldRefresh(feed.minTimeBetweenUpdates, s.lastUpdateTime, t)
    ensures feed.GetHistoricalPrice(t, Ok(rd))
         == Ok(Step(feed.model, feed.minTimeBetweenUpdates, s, t, Some(rd)).state.price.value)
  {
  }

  // ------------------------------------------------------ end-to-end vectors

  /** The coefficients of the feed's test: r = 1, c = 10^18, q left at its default. */
  const TestCoefs: PriceModel.Coefs :=
    PriceModel.NoCoefs.(r := Some(1.0), c := Some(1_000_000_000_000_000_000.0))

  /** Raw rate 999999999874279187558202799 decodes to -125720812441797201. */
  lemma TestRateDecodes()
    ensures ConvertRai2Bn(999_999_999_874_279_187_558_202_799) == -125_720_812_441_797_201
  {
  }

  /** The "basic current price" test: a first update with raw price 0 stores 874279. */
  lemma BasicCurrentPrice(now: int)
    ensures Step(PriceModel.PriceModel(TestCoefs), DefaultMinTimeBetweenUpdates, Initial, now,
                 Some(Readings(0, 999_999_999_874_279_187_558_202_799))).state.price
         == Some(874279.0)
  {
    var P, R := 0.0, -125_720_812_441_797_201.0;
    PriceModel.NumeratorIsExpanded(TestCoefs, P, R, now as real);
  }

  /** The "most recent price" test: the update sees the last rate written, 674279. */
  lemma MostRecentPrice(now: int)
    ensures Step(PriceModel.PriceModel(TestCoefs), DefaultMinTimeBetweenUpdates, Initial, now,
                 Some(Readings(0, 999_999_999_674_279_187_558_202_799))).state.price
         == Some(674279.0)
  {
    var P, R := 0.0, -325_720_812_441_797_201.0;
    PriceModel.NumeratorIsExpanded(TestCoefs, P, R, now as real);
  }
}
