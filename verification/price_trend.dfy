/**
  Price metrics (price_trend.py): the computation `pull_price_trend_yf` runs
  over the fetched daily history. The history fetch itself is an input: a
  list of (date, optional close) rows, or the message of the exception the
  fetch raised. The volatility formula (`pstdev` of log returns times
  `sqrt(252)`) is the parameter `annualize`, applied to the price ratios whose
  logarithms the source takes.
 */
module PriceTrend {
  import opened Wrappers
  import opened PyJson

  /** One row of the history: the formatted date and the close (`None` for NaN). */
  datatype PriceRow = PriceRow(date: string, close: Option<real>)

  /** The result of `ticker.history`: a frame, or the message of what it raised. */
  datatype History = FetchRaised(message: string) | Frame(rows: seq<PriceRow>)

  /** The returned dictionary: `{"error": msg}` or the seven metrics. */
  datatype PriceReport =
    | PriceError(message: string)
    | PriceMetrics(latestClose: real, oldestClose: real, pctChange: Option<real>,
                   sma20: Option<real>, sma50: Option<real>, annualizedVol: Option<real>,
                   sample: seq<(string, real)>)

  const NO_DATA := "No price data returned"
  const INDEX_ERROR := "list index out of range"
  const DOMAIN_ERROR := "math domain error"
  const SAMPLE_SIZE: nat := 5

  /** `dropna` then the `closes` comprehension: the rows with a close, in order. */
  function Closes(rows: seq<PriceRow>): (cs: seq<(string, real)>)
    ensures |cs| <= |rows|
    ensures forall i :: 0 <= i < |cs| ==> PriceRow(cs[i].0, Some(cs[i].1)) in rows
    ensures cs == [] <==> forall i :: 0 <= i < |rows| ==> rows[i].close.None?
  {
    if rows == [] then []
    else
      var rest := Closes(rows[1..]);
      assert forall i :: 0 <= i < |rest| ==> PriceRow(rest[i].0, Some(rest[i].1)) in rows by {
        forall i | 0 <= i < |rest| ensures PriceRow(rest[i].0, Some(rest[i].1)) in rows {
          assert PriceRow(rest[i].0, Some(rest[i].1)) in rows[1..];
        }
      }
      assert (forall i :: 0 <= i < |rows| ==> rows[i].close.None?) <==>
        rows[0].close.None? && forall i :: 0 <= i < |rows[1..]| ==> rows[1..][i].close.None? by {
        if rows[0].close.None? && forall i :: 0 <= i < |rows[1..]| ==> rows[1..][i].close.None? {
          forall i | 0 <= i < |rows| ensures rows[i].close.None? {
            if i > 0 { assert rows[i] == rows[1..][i - 1]; }
          }
        }
      }
      match rows[0].close
      case None => rest
      case Some(c) => [(rows[0].date, c)] + rest
  }

  /** What one row contributes to the closes. */
  function RowClose(r: PriceRow): seq<(string, real)> {
    if r.close.Some? then [(r.date, r.close.value)] else []
  }

  /** One row contributes its close exactly when it has one. */
  lemma {:induction false} ClosesOne(r: PriceRow)
    ensures Closes([r]) == RowClose(r)
  {
    assert [r][1..] == [];
  }

  lemma {:induction false} ClosesCons(rows: seq<PriceRow>)
    requires rows != []
    ensures Closes(rows) == RowClose(rows[0]) + Closes(rows[1..])
  {
  }

  /**
    The closes of a concatenation are the closes of each part, so with
    `ClosesOne` the closes are every present close, in row order.
   */
  lemma {:induction false} ClosesAppend(a: seq<PriceRow>, b: seq<PriceRow>)
    ensures Closes(a + b) == Closes(a) + Closes(b)
  {
    if a == [] {
      assert a + b == b;
    } else {
      var ab := a + b;
      assert ab[0] == a[0] && ab[1..] == a[1..] + b;
      ClosesAppend(a[1..], b);
      ClosesCons(ab);
      ClosesCons(a);
      ConcatAssoc(RowClose(a[0]), Closes(a[1..]), Closes(b));
    }
  }

  lemma {:induction false} ConcatAssoc<T>(x: seq<T>, y: seq<T>, z: seq<T>)
    ensures x + (y + z) == (x + y) + z
  {
  }

  /** The close values, `list(closes_series.values)`. */
  function Values(cs: seq<(string, real)>): (vs: seq<real>)
    ensures |vs| == |cs| && forall i :: 0 <= i < |cs| ==> vs[i] == cs[i].1
  {
    seq(|cs|, i requires 0 <= i < |cs| => cs[i].1)
  }

  function Sum(xs: seq<real>): real {
    if xs == [] then 0.0 else xs[0] + Sum(xs[1..])
  }

  /** The arithmetic mean of a non-empty list. */
  function Mean(xs: seq<real>): real
    requires xs != []
  {
    Sum(xs) / (|xs| as real)
  }

  lemma {:induction false} SumBounds(xs: seq<real>, lo: real, hi: real)
    requires forall i :: 0 <= i < |xs| ==> lo <= xs[i] <= hi
    ensures (|xs| as real) * lo <= Sum(xs) <= (|xs| as real) * hi
  {
    if xs != [] {
      SumBounds(xs[1..], lo, hi);
    }
  }

  /** A mean lies between any lower and upper bound of the values. */
  lemma {:induction false} MeanBounds(xs: seq<real>, lo: real, hi: real)
    requires xs != []
    requires forall i :: 0 <= i < |xs| ==> lo <= xs[i] <= hi
    ensures lo <= Mean(xs) <= hi
  {
    SumBounds(xs, lo, hi);
    var n := |xs| as real;
    assert n * lo <= Sum(xs) <= n * hi;
    assert Mean(xs) * n == Sum(xs);
  }

  /** `tail(w).mean() if len(series) >= w else None`. */
  function MovingAverage(vs: seq<real>, w: nat): (m: Option<real>)
    requires w > 0
    ensures m.Some? <==> |vs| >= w
  {
    if |vs| >= w then Some(Mean(vs[|vs| - w..])) else None
  }

  /** A present moving average is the mean of the last `w` closes, so it lies within their range. */
  lemma {:induction false} MovingAverageWithinWindow(vs: seq<real>, w: nat, lo: real, hi: real)
    requires w > 0 && |vs| >= w
    requires forall i :: |vs| - w <= i < |vs| ==> lo <= vs[i] <= hi
    ensures lo <= MovingAverage(vs, w).value <= hi
  {
    var window := vs[|vs| - w..];
    assert forall i :: 0 <= i < |window| ==> window[i] == vs[|vs| - w + i];
    MeanBounds(window, lo, hi);
  }

  /** A constant series has that constant as its moving average. */
  lemma {:induction false} MovingAverageOfConstant(vs: seq<real>, w: nat, c: real)
    requires w > 0 && |vs| >= w
    requires forall i :: 0 <= i < |vs| ==> vs[i] == c
    ensures MovingAverage(vs, w) == Some(c)
  {
    MovingAverageWithinWindow(vs, w, c, c);
  }

  /** `latest / oldest - 1.0 if oldest else None`. */
  function PctChange(latest: real, oldest: real): (p: Option<real>)
    ensures p.Some? <==> oldest != 0.0
    ensures p.Some? ==> (p.value + 1.0) * oldest == latest
  {
    if oldest != 0.0 then Some(latest / oldest - 1.0) else None
  }

  /** Both members of a consecutive pair are truthy, the guard of the `logrets` comprehension. */
  predicate UsablePair(vs: seq<real>, i: int) {
    1 <= i < |vs| && vs[i - 1] != 0.0 && vs[i] != 0.0
  }

  /** The ratios `vals[i] / vals[i-1]` whose logarithms form `logrets`, in order. */
  function Ratios(vs: seq<real>): (rs: seq<real>)
    ensures |vs| >= 1 ==> |rs| <= |vs| - 1
    ensures |vs| <= 1 ==> rs == []
  {
    if |vs| < 2 then []
    else (if vs[0] != 0.0 && vs[1] != 0.0 then [vs[1] / vs[0]] else []) + Ratios(vs[1..])
  }

  /**
    The `logrets` comprehension walks `range(1, len(vals))`: one more close adds
    the ratio of the new last pair when both its members are non-zero, and
    nothing else, so every usable pair contributes its ratio, in order.
   */
  lemma {:induction false} RatiosSnoc(vs: seq<real>, x: real)
    ensures Ratios(vs + [x]) ==
      Ratios(vs) + (if vs != [] && vs[|vs| - 1] != 0.0 && x != 0.0 then [x / vs[|vs| - 1]] else [])
  {
    var vx := vs + [x];
    if |vs| == 1 {
      assert vx == [vs[0], x] && vx[1..] == [x];
      assert Ratios(vx) == (if vs[0] != 0.0 && x != 0.0 then [x / vs[0]] else []) + Ratios([x]);
    } else if |vs| >= 2 {
      assert vx[0] == vs[0] && vx[1] == vs[1] && vx[1..] == vs[1..] + [x];
      RatiosSnoc(vs[1..], x);
      var head := if vs[0] != 0.0 && vs[1] != 0.0 then [vs[1] / vs[0]] else [];
      assert Ratios(vx) == head + Ratios(vx[1..]);
      assert Ratios(vs) == head + Ratios(vs[1..]);
      assert vs[1..][|vs[1..]| - 1] == vs[|vs| - 1];
      ConcatAssoc(head, Ratios(vs[1..]), if vs[|vs| - 1] != 0.0 && x != 0.0 then [x / vs[|vs| - 1]] else []);
    }
  }

  /** There are ratios exactly when some consecutive pair is usable. */
  lemma {:induction false} RatiosExist(vs: seq<real>)
    ensures Ratios(vs) != [] <==> exists i :: UsablePair(vs, i)
  {
    if |vs| >= 2 {
      var tail := vs[1..];
      RatiosExist(tail);
      var head := if vs[0] != 0.0 && vs[1] != 0.0 then [vs[1] / vs[0]] else [];
      assert Ratios(vs) == head + Ratios(tail);
      if head != [] {
        assert UsablePair(vs, 1);
      } else if Ratios(tail) != [] {
        var i :| UsablePair(tail, i);
        assert UsablePair(vs, i + 1);
      }
      if exists i :: UsablePair(vs, i) {
        var i :| UsablePair(vs, i);
        if i > 1 { assert UsablePair(tail, i - 1); }
      }
    }
  }

  /** `r` is the ratio `vs[i] / vs[i-1]` of the usable consecutive pair ending at `i`. */
  predicate PairRatio(vs: seq<real>, i: int, r: real) {
    UsablePair(vs, i) && r == vs[i] / vs[i - 1]
  }

  /** Each ratio is the ratio of a usable consecutive pair. */
  lemma {:induction false} RatiosFromPairs(vs: seq<real>)
    ensures forall r :: r in Ratios(vs) ==> exists i :: PairRatio(vs, i, r)
  {
    if |vs| >= 2 {
      var tail := vs[1..];
      RatiosFromPairs(tail);
      var head := if vs[0] != 0.0 && vs[1] != 0.0 then [vs[1] / vs[0]] else [];
      assert Ratios(vs) == head + Ratios(tail);
      forall r | r in Ratios(vs) ensures exists i :: PairRatio(vs, i, r) {
        if r in head {
          assert PairRatio(vs, 1, r);
        } else {
          var i :| PairRatio(tail, i, r);
          PairRatioShift(vs, i, r);
        }
      }
    }
  }

  lemma {:induction false} PairRatioShift(vs: seq<real>, i: int, r: real)
    requires |vs| >= 1 && PairRatio(vs[1..], i, r)
    ensures PairRatio(vs, i + 1, r)
  {
    assert vs[1..][i] == vs[i + 1] && vs[1..][i - 1] == vs[i];
  }

  /** `math.log` accepts every ratio: none is negative (none is 0, by the pair guard). */
  predicate LogDefined(ratios: seq<real>) {
    forall i :: 0 <= i < |ratios| ==> ratios[i] >= 0.0
  }

  /**
    `pull_price_trend_yf` after the fetch. Every exception inside the `try`
    becomes `{"error": str(e)}`: the fetch's own, indexing an empty `closes`
    (all closes missing) and `math.log` of a negative ratio.
   */
  function PullPriceTrend(history: History, annualize: seq<real> -> real): (r: PriceReport)
    ensures history.FetchRaised? ==> r == PriceError(history.message)
    ensures history == Frame([]) ==> r == PriceError(NO_DATA)
    ensures history.Frame? && history.rows != [] && Closes(history.rows) == [] ==> r == PriceError(INDEX_ERROR)
    ensures r.PriceMetrics? ==> history.Frame? && Closes(history.rows) != []
    ensures history.Frame? && Closes(history.rows) != [] ==>
      var ratios := Ratios(Values(Closes(history.rows)));
      && (r.PriceMetrics? <==> LogDefined(ratios))
      && (!LogDefined(ratios) ==> r == PriceError(DOMAIN_ERROR))
  {
    match history
    case FetchRaised(message) => PriceError(message)
    case Frame(rows) =>
      if rows == [] then PriceError(NO_DATA)
      else
        var closes := Closes(rows);
        if closes == [] then PriceError(INDEX_ERROR)
        else
          var vals := Values(closes);
          var latest := closes[|closes| - 1].1;
          var oldest := closes[0].1;
          var ratios := Ratios(vals);
          if !LogDefined(ratios) then PriceError(DOMAIN_ERROR)
          else
            var sampleStart := if |closes| > SAMPLE_SIZE then |closes| - SAMPLE_SIZE else 0;
            PriceMetrics(latest, oldest, PctChange(latest, oldest),
              MovingAverage(vals, 20), MovingAverage(vals, 50),
              if ratios != [] then Some(annualize(ratios)) else None,
              closes[sampleStart..])
  }

  /** The metrics, stated over the non-missing closes. */
  lemma {:induction false} PriceMetricsCharacterised(rows: seq<PriceRow>, annualize: seq<real> -> real)
    requires PullPriceTrend(Frame(rows), annualize).PriceMetrics?
    ensures var r := PullPriceTrend(Frame(rows), annualize);
      var closes := Closes(rows);
      && closes != []
      && r.latestClose == closes[|closes| - 1].1
      && r.oldestClose == closes[0].1
      && (r.pctChange.Some? <==> r.oldestClose != 0.0)
      && (r.sma20.Some? <==> |closes| >= 20)
      && (r.sma50.Some? <==> |closes| >= 50)
      && (r.sma20.Some? ==> r.sma20.value == Mean(Values(closes)[|closes| - 20..]))
      && (r.sma50.Some? ==> r.sma50.value == Mean(Values(closes)[|closes| - 50..]))
      && r.pctChange == PctChange(r.latestClose, r.oldestClose)
      && (r.annualizedVol.Some? <==> exists i :: UsablePair(Values(closes), i))
      && |r.sample| == (if |closes| < 5 then |closes| else 5)
      && r.sample == closes[|closes| - |r.sample|..]
  {
    var closes := Closes(rows);
    var vals := Values(closes);
    RatiosExist(vals);
    var r := PullPriceTrend(Frame(rows), annualize);
    var ratios := Ratios(vals);
    var sampleStart := if |closes| > SAMPLE_SIZE then |closes| - SAMPLE_SIZE else 0;
    assert r == PriceMetrics(closes[|closes| - 1].1, closes[0].1, PctChange(closes[|closes| - 1].1, closes[0].1),
      MovingAverage(vals, 20), MovingAverage(vals, 50),
      if ratios != [] then Some(annualize(ratios)) else None,
      closes[sampleStart..]);
  }

  /** The keys of the returned metrics, in the source's order. */
  const METRIC_KEYS: seq<string> := [
    "latest_close", "oldest_close", "pct_change", "sma20", "sma50", "annualized_vol", "sample"]

  /** The metrics' values, in the order of their keys. */
  function MetricValues(r: PriceReport): (vals: seq<Json>)
    requires r.PriceMetrics?
    ensures |vals| == |METRIC_KEYS|
  {
    [Num(r.latestClose), Num(r.oldestClose), NumOrNull(r.pctChange), NumOrNull(r.sma20), NumOrNull(r.sma50),
     NumOrNull(r.annualizedVol), SampleJson(r.sample)]
  }

  /** The returned dictionary: `{"error": message}`, or the metrics under their keys. */
  function PriceJson(r: PriceReport): (o: Fields)
    ensures r.PriceError? ==> o == [("error", Str(r.message))]
    ensures r.PriceMetrics? ==> Keys(o) == METRIC_KEYS
    ensures r.PriceMetrics? ==> forall i :: 0 <= i < |o| ==> o[i].1 == MetricValues(r)[i]
  {
    if r.PriceError? then [("error", Str(r.message))]
    else
      var vals := MetricValues(r);
      var o := seq(|METRIC_KEYS|, i requires 0 <= i < |METRIC_KEYS| => (METRIC_KEYS[i], vals[i]));
      KeysFromPositions(o, METRIC_KEYS);
      o
  }

  /** The `sample` list: one `[date, close]` pair per sampled row. */
  function SampleJson(sample: seq<(string, real)>): (j: Json)
    ensures j.Arr? && |j.elems| == |sample|
    ensures forall i :: 0 <= i < |sample| ==> j.elems[i] == Arr([Str(sample[i].0), Num(sample[i].1)])
    ensures forall e :: e in j.elems ==> e.Arr? && |e.elems| == 2
  {
    Arr(seq(|sample|, i requires 0 <= i < |sample| => Arr([Str(sample[i].0), Num(sample[i].1)])))
  }

  lemma {:induction false} MetricKeysDistinct()
    ensures forall i, j :: 0 <= i < j < |METRIC_KEYS| ==> METRIC_KEYS[i] != METRIC_KEYS[j]
    ensures forall i :: 0 <= i < |METRIC_KEYS| ==> METRIC_KEYS[i] != "days" && METRIC_KEYS[i] != "error"
  {
    forall i, j | 0 <= i < j < |METRIC_KEYS| ensures METRIC_KEYS[i] != METRIC_KEYS[j] {
      var a, b := METRIC_KEYS[i], METRIC_KEYS[j];
      assert i == 0 && j == 1 ==> a[0] != b[0];
      assert i == 3 && j == 4 ==> a[3] != b[3];
    }
    forall i | 0 <= i < |METRIC_KEYS| ensures METRIC_KEYS[i] != "days" && METRIC_KEYS[i] != "error" {
      var a := METRIC_KEYS[i];
      assert |a| != 4;
      assert |a| == 5 ==> a[0] == 's';
    }
  }

  /** `o` holds the report's metrics under their keys, and neither `days` nor `error`. */
  predicate ReportedBy(o: Fields, r: PriceReport)
    requires r.PriceMetrics?
  {
    && Get(o, "latest_close") == Some(Num(r.latestClose))
    && Get(o, "oldest_close") == Some(Num(r.oldestClose))
    && Get(o, "pct_change") == Some(NumOrNull(r.pctChange))
    && Get(o, "sma20") == Some(NumOrNull(r.sma20))
    && Get(o, "sma50") == Some(NumOrNull(r.sma50))
    && Get(o, "annualized_vol") == Some(NumOrNull(r.annualizedVol))
    && Get(o, "sample") == Some(SampleJson(r.sample))
    && !HasKey(o, "days") && !HasKey(o, "error")
  }

  /**
    A report is `{"error": ...}` exactly when no metric is produced, and each
    metric is read back from the dictionary under its own key.
   */
  lemma {:induction false} PriceJsonLookups(r: PriceReport)
    ensures r.PriceError? ==> PriceJson(r) == [("error", Str(r.message))]
    ensures r.PriceMetrics? ==> ReportedBy(PriceJson(r), r)
  {
    if r.PriceMetrics? {
      var o := PriceJson(r);
      var vals := MetricValues(r);
      MetricsFound(r);
      assert Get(o, METRIC_KEYS[0]) == Some(vals[0]);
      assert Get(o, METRIC_KEYS[1]) == Some(vals[1]);
      assert Get(o, METRIC_KEYS[2]) == Some(vals[2]);
      assert Get(o, METRIC_KEYS[3]) == Some(vals[3]);
      assert Get(o, METRIC_KEYS[4]) == Some(vals[4]);
      assert Get(o, METRIC_KEYS[5]) == Some(vals[5]);
      assert Get(o, METRIC_KEYS[6]) == Some(vals[6]);
    }
  }

  /** Each metric key finds its value; `days` and `error` are absent. */
  lemma {:induction false} MetricsFound(r: PriceReport)
    requires r.PriceMetrics?
    ensures var o := PriceJson(r);
      && (forall i :: 0 <= i < |METRIC_KEYS| ==> Get(o, METRIC_KEYS[i]) == Some(MetricValues(r)[i]))
      && !HasKey(o, "days") && !HasKey(o, "error")
  {
    var o := PriceJson(r);
    MetricKeysDistinct();
    forall i | 0 <= i < |o| ensures Get(o, METRIC_KEYS[i]) == Some(MetricValues(r)[i]) {
      assert o[i].0 == Keys(o)[i];
      assert forall j :: 0 <= j < i ==> o[j].0 == Keys(o)[j];
      GetFirstOccurrence(o, i);
    }
  }
}
