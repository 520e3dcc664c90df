/**
  The stock agent (stock_agent.py) around its model call: the derived
  signals, the input guard, the parse fallback and the completion of the
  reply against the response schema. The model's reply is the parameter
  `reply`; the prompt text it is given is not modelled.
 */
module StockAgent {
  import opened Wrappers
  import opened PyJson
  import opened ReplyJson
  import PriceTrend

  /** The `derived_signals` dictionary. */
  datatype Signals = Signals(trendLabel: string, aboveSma20: bool, aboveSma50: bool,
                             crossover: Option<string>, volatilityLabel: Option<string>, daysWindow: Json)

  /** The returned dictionary: `{"error": e}` or the analysis with its metrics. */
  datatype StockResult =
    | StockError(error: Json)
    | StockAnalysis(analysisTechnical: Json, summaryPlain: Json, flags: Json, metrics: Fields, rawModelText: string)

  const TREND_UP := 0.05
  const TREND_DOWN := -0.05
  const VOL_LOW := 0.20
  const VOL_MODERATE := 0.35

  const BULLISH := "Bullish (20D above 50D)"
  const BEARISH := "Bearish (20D below 50D)"
  const NEUTRAL := "Neutral (20D ~ 50D)"
  const NO_PRICE_DATA := "No price data provided"

  /** `JSON_CONTRACT`: two text entries and the `flags` dictionary. */
  const STOCK_SCHEMA: Schema := [("analysis_technical", TextTemplate), ("summary_plain", TextTemplate), ("flags", DictTemplate)]

  /** A price field holds a number, `null`, or nothing: the values the comparisons accept. */
  predicate NumericOrAbsent(priceData: Fields, k: string) {
    Get(priceData, k).None? || Get(priceData, k).value.Null? || Get(priceData, k).value.Num?
  }

  /** `price_data.get(k)` as an optional number. */
  function NumField(priceData: Fields, k: string): (x: Option<real>)
    ensures x.Some? <==> Get(priceData, k).Some? && Get(priceData, k).value.Num?
    ensures x.Some? ==> Get(priceData, k) == Some(Num(x.value))
  {
    match Get(priceData, k)
    case Some(Num(n)) => Some(n)
    case _ => None
  }

  /** The `sample` entry, if present, is a list of (date, close) pairs. */
  predicate WellFormedSample(priceData: Fields) {
    match Get(priceData, "sample")
    case None => true
    case Some(sample) => sample.Arr? && forall i :: 0 <= i < |sample.elems| ==> sample.elems[i].Arr? && |sample.elems[i].elems| == 2
  }

  /** The inputs `_derive_signals` and the payload comprehension accept. */
  predicate WellTypedPriceData(priceData: Fields) {
    && NumericOrAbsent(priceData, "latest_close") && NumericOrAbsent(priceData, "sma20")
    && NumericOrAbsent(priceData, "sma50") && NumericOrAbsent(priceData, "pct_change")
    && NumericOrAbsent(priceData, "annualized_vol")
    && WellFormedSample(priceData)
  }

  /** `trend_label`, with an absent `pct_change` counting as 0. */
  function TrendLabel(pct: Option<real>): (trend: string)
    ensures trend == "Up" <==> pct.GetOr(0.0) > TREND_UP
    ensures trend == "Down" <==> pct.GetOr(0.0) < TREND_DOWN
    ensures trend == "Flat" <==> TREND_DOWN <= pct.GetOr(0.0) <= TREND_UP
  {
    var p := pct.GetOr(0.0);
    if p > TREND_UP then "Up" else if p < TREND_DOWN then "Down" else "Flat"
  }

  function TrendRank(trend: string): int {
    if trend == "Down" then 0 else if trend == "Flat" then 1 else 2
  }

  /** A larger change never gives a lower trend label. */
  lemma {:induction false} TrendMonotone(p: real, q: real)
    requires p <= q
    ensures TrendRank(TrendLabel(Some(p))) <= TrendRank(TrendLabel(Some(q)))
  {
  }

  /** `latest is not None and sma is not None and latest > sma`. */
  function AboveSma(latest: Option<real>, sma: Option<real>): (above: bool)
    ensures above <==> latest.Some? && sma.Some? && latest.value > sma.value
  {
    latest.Some? && sma.Some? && latest.value > sma.value
  }

  /** `crossover`: `None` unless both averages are present. */
  function Crossover(sma20: Option<real>, sma50: Option<real>): (c: Option<string>)
    ensures c.None? <==> sma20.None? || sma50.None?
    ensures c == Some(BULLISH) <==> sma20.Some? && sma50.Some? && sma20.value > sma50.value
    ensures c == Some(BEARISH) <==> sma20.Some? && sma50.Some? && sma20.value < sma50.value
    ensures c == Some(NEUTRAL) <==> sma20.Some? && sma50.Some? && sma20.value == sma50.value
  {
    if sma20.Some? && sma50.Some? then
      if sma20.value > sma50.value then Some(BULLISH)
      else if sma20.value < sma50.value then Some(BEARISH)
      else Some(NEUTRAL)
    else None
  }

  /** `volatility_label`: `None` iff the volatility is absent. */
  function VolatilityLabel(vol: Option<real>): (tier: Option<string>)
    ensures tier.None? <==> vol.None?
    ensures tier == Some("Low") <==> vol.Some? && vol.value < VOL_LOW
    ensures tier == Some("Moderate") <==> vol.Some? && VOL_LOW <= vol.value < VOL_MODERATE
    ensures tier == Some("High") <==> vol.Some? && vol.value >= VOL_MODERATE
  {
    match vol
    case None => None
    case Some(v) => if v < VOL_LOW then Some("Low") else if v < VOL_MODERATE then Some("Moderate") else Some("High")
  }

  function VolatilityRank(tier: Option<string>): int {
    if tier == Some("Low") then 0 else if tier == Some("Moderate") then 1 else 2
  }

  /** A larger volatility never gives a calmer label. */
  lemma {:induction false} VolatilityMonotone(v: real, w: real)
    requires v <= w
    ensures VolatilityRank(VolatilityLabel(Some(v))) <= VolatilityRank(VolatilityLabel(Some(w)))
  {
  }

  /** `days_window`: `days` if truthy, else the sample's length if non-zero, else `None`. */
  function DaysWindow(priceData: Fields): (d: Json)
    requires WellFormedSample(priceData)
    ensures Truthy(GetOr(priceData, "days", Null)) ==> d == GetOr(priceData, "days", Null)
    ensures !Truthy(GetOr(priceData, "days", Null)) ==>
      var sample := GetOr(priceData, "sample", Arr([]));
      d == if sample.elems == [] then Null else Num(|sample.elems| as real)
  {
    var days := GetOr(priceData, "days", Null);
    if Truthy(days) then days
    else
      var n := Len(GetOr(priceData, "sample", Arr([])));
      if n != 0 then Num(n as real) else Null
  }

  /** `_derive_signals`. */
  function DeriveSignals(priceData: Fields): (s: Signals)
    requires WellTypedPriceData(priceData)
    ensures s.trendLabel == TrendLabel(NumField(priceData, "pct_change"))
    ensures s.aboveSma20 <==> AboveSma(NumField(priceData, "latest_close"), NumField(priceData, "sma20"))
    ensures s.aboveSma50 <==> AboveSma(NumField(priceData, "latest_close"), NumField(priceData, "sma50"))
    ensures s.crossover == Crossover(NumField(priceData, "sma20"), NumField(priceData, "sma50"))
    ensures s.volatilityLabel == VolatilityLabel(NumField(priceData, "annualized_vol"))
    ensures s.daysWindow == DaysWindow(priceData)
  {
    var latest := NumField(priceData, "latest_close");
    var sma20 := NumField(priceData, "sma20");
    var sma50 := NumField(priceData, "sma50");
    Signals(TrendLabel(NumField(priceData, "pct_change")), AboveSma(latest, sma20), AboveSma(latest, sma50),
      Crossover(sma20, sma50), VolatilityLabel(NumField(priceData, "annualized_vol")), DaysWindow(priceData))
  }

  /** A dictionary holding a price report's metrics is an input the signal derivation accepts. */
  lemma {:induction false} ReportedWellTyped(o: Fields, report: PriceTrend.PriceReport)
    requires report.PriceMetrics? && PriceTrend.ReportedBy(o, report)
    ensures WellTypedPriceData(o)
  {
    var sample := PriceTrend.SampleJson(report.sample);
    assert forall i :: 0 <= i < |sample.elems| ==> sample.elems[i] in sample.elems;
  }

  /** Signals derived from a dictionary holding a price report's metrics follow those metrics. */
  lemma {:induction false} SignalsOfReported(o: Fields, report: PriceTrend.PriceReport)
    requires report.PriceMetrics? && PriceTrend.ReportedBy(o, report)
    ensures var s := DeriveSignals(o);
      && s.trendLabel == TrendLabel(report.pctChange)
      && s.aboveSma20 == AboveSma(Some(report.latestClose), report.sma20)
      && s.aboveSma50 == AboveSma(Some(report.latestClose), report.sma50)
      && s.crossover == Crossover(report.sma20, report.sma50)
      && s.volatilityLabel == VolatilityLabel(report.annualizedVol)
      && s.daysWindow == (if report.sample == [] then Null else Num(|report.sample| as real))
  {
  }

  /**
    A successful `price_trend` report is accepted by the signal derivation, and
    the labels follow the report's metrics; the window is the sample's length,
    as no `days` key is present.
   */
  lemma {:induction false} SignalsOfPriceReport(report: PriceTrend.PriceReport)
    requires report.PriceMetrics?
    ensures WellTypedPriceData(PriceTrend.PriceJson(report))
    ensures var s := DeriveSignals(PriceTrend.PriceJson(report));
      && s.trendLabel == TrendLabel(report.pctChange)
      && s.aboveSma20 == AboveSma(Some(report.latestClose), report.sma20)
      && s.aboveSma50 == AboveSma(Some(report.latestClose), report.sma50)
      && s.crossover == Crossover(report.sma20, report.sma50)
      && s.volatilityLabel == VolatilityLabel(report.annualizedVol)
      && s.daysWindow == (if report.sample == [] then Null else Num(|report.sample| as real))
  {
    var o := PriceTrend.PriceJson(report);
    PriceTrend.PriceJsonLookups(report);
    ReportedWellTyped(o, report);
    SignalsOfReported(o, report);
  }

  function OptStr(x: Option<string>): Json {
    match x
    case Some(s) => Str(s)
    case None => Null
  }

  /** The keys of the `derived_signals` dictionary, in the source's order. */
  const SIGNAL_KEYS: seq<string> :=
    ["trend_label", "above_sma20", "above_sma50", "crossover", "volatility_label", "days_window"]

  lemma {:induction false} SignalKeysDistinct()
    ensures forall i, j :: 0 <= i < j < |SIGNAL_KEYS| ==> SIGNAL_KEYS[i] != SIGNAL_KEYS[j]
  {
    assert SIGNAL_KEYS[1] != SIGNAL_KEYS[2] by { assert SIGNAL_KEYS[1][9] != SIGNAL_KEYS[2][9]; }
  }

  /** The signals as JSON values, in the order of their keys; a missing label is `null`. */
  function SignalValues(s: Signals): (vals: seq<Json>)
    ensures |vals| == |SIGNAL_KEYS|
  {
    [Str(s.trendLabel), Bool(s.aboveSma20), Bool(s.aboveSma50),
     OptStr(s.crossover), OptStr(s.volatilityLabel), s.daysWindow]
  }

  /** The `derived_signals` dictionary. */
  function SignalsJson(s: Signals): (o: Fields)
    ensures Keys(o) == SIGNAL_KEYS
    ensures forall i :: 0 <= i < |o| ==> o[i].1 == SignalValues(s)[i]
  {
    var vals := SignalValues(s);
    var o := seq(|SIGNAL_KEYS|, i requires 0 <= i < |SIGNAL_KEYS| => (SIGNAL_KEYS[i], vals[i]));
    KeysFromPositions(o, SIGNAL_KEYS);
    o
  }

  /** Reading the `derived_signals` dictionary back gives each signal under its own key. */
  lemma {:induction false} SignalsJsonReadsBack(s: Signals)
    ensures forall i :: 0 <= i < |SIGNAL_KEYS| ==> Get(SignalsJson(s), SIGNAL_KEYS[i]) == Some(SignalValues(s)[i])
  {
    var o := SignalsJson(s);
    SignalKeysDistinct();
    GetOfDistinct(o);
    forall i | 0 <= i < |SIGNAL_KEYS| ensures Get(o, SIGNAL_KEYS[i]) == Some(SignalValues(s)[i]) {
      assert o[i].0 == Keys(o)[i];
    }
  }

  /** `_empty_payload()`: the parse fallback. */
  function EmptyStockPayload(): (p: Fields)
    ensures Keys(p) == SchemaKeys(STOCK_SCHEMA)
  {
    [("analysis_technical", Str("")), ("summary_plain", Str("")),
     ("flags", Obj([("positives", Arr([])), ("red_flags", Arr([]))]))]
  }

  /** The fallback already holds every schema key, so the fill loop leaves it as it is. */
  lemma {:induction false} EmptyPayloadComplete()
    ensures Missing(EmptyStockPayload(), STOCK_SCHEMA) == []
  {
    var p := EmptyStockPayload();
    assert HasKey(p, "analysis_technical") && HasKey(p, "summary_plain") && HasKey(p, "flags");
    assert STOCK_SCHEMA[..2][..1] == STOCK_SCHEMA[..1];
    assert STOCK_SCHEMA[..3][..2] == STOCK_SCHEMA[..2];
    assert STOCK_SCHEMA[..1][..0] == [];
    assert STOCK_SCHEMA[..3] == STOCK_SCHEMA;
  }

  /**
    The reply's dictionary after the fill loop, read back with `get`: a key the
    reply holds keeps its value, a missing one reads as the fill default.
   */
  method CompleteReply(parsed: Fields) returns (analysisTechnical: Json, summaryPlain: Json, flags: Json)
    ensures analysisTechnical == GetOr(parsed, "analysis_technical", Str(""))
    ensures summaryPlain == GetOr(parsed, "summary_plain", Str(""))
    ensures flags == GetOr(parsed, "flags", Obj([]))
  {
    var filled := FillMissingKeys(parsed, STOCK_SCHEMA);
    var flagsDefault := Obj([("positives", Arr([])), ("red_flags", Arr([]))]);
    CompletedValue(parsed, STOCK_SCHEMA, 0, Str(""));
    CompletedValue(parsed, STOCK_SCHEMA, 1, Str(""));
    CompletedValue(parsed, STOCK_SCHEMA, 2, flagsDefault);
    analysisTechnical := GetOr(filled, "analysis_technical", Str(""));
    summaryPlain := GetOr(filled, "summary_plain", Str(""));
    flags := GetOr(filled, "flags", flagsDefault);
  }

  /**
    `analyze_stock_price`. Empty or error-carrying input returns the error
    without the model (the result does not depend on `reply`); a reply that
    parses to something other than a dictionary makes the fill loop raise.
   */
  method AnalyzeStockPrice(priceData: Fields, reply: string, parse: string -> Option<Json>) returns (r: Outcome<StockResult>)
    requires priceData != [] && !HasKey(priceData, "error") ==> WellTypedPriceData(priceData)
    ensures priceData == [] || HasKey(priceData, "error") ==>
      r == Returns(StockError(GetOr(priceData, "error", Str(NO_PRICE_DATA))))
    ensures priceData != [] && !HasKey(priceData, "error") ==>
      var parsed := SafeParse(reply, Obj(EmptyStockPayload()), parse);
      && (r.Raises? <==> !parsed.Obj?)
      && (r.Returns? ==>
        && r.value.StockAnalysis?
        && r.value.analysisTechnical == GetOr(parsed.fields, "analysis_technical", Str(""))
        && r.value.summaryPlain == GetOr(parsed.fields, "summary_plain", Str(""))
        && r.value.flags == GetOr(parsed.fields, "flags", Obj([]))
        && r.value.metrics == Put(priceData, "derived_signals", Obj(SignalsJson(DeriveSignals(priceData))))
        && r.value.rawModelText == reply)
  {
    if priceData == [] || HasKey(priceData, "error") {
      return Returns(StockError(GetOr(priceData, "error", Str(NO_PRICE_DATA))));
    }
    var signals := DeriveSignals(priceData);
    var parsed := SafeParse(reply, Obj(EmptyStockPayload()), parse);
    if !parsed.Obj? {
      return Raises;
    }
    var analysisTechnical, summaryPlain, flags := CompleteReply(parsed.fields);
    r := Returns(StockAnalysis(analysisTechnical, summaryPlain, flags,
      Put(priceData, "derived_signals", Obj(SignalsJson(signals))), reply));
  }
}
