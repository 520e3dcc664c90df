/**
  The fetch hub (collect_raw_data.py): the bundle `collect_raw_data` builds
  from the four pulls, and the file name and path `persist_raw_json` writes
  to. The registry, the company-facts document, the price history and the
  news response are inputs, each given for the argument its pull receives;
  the directory creation and the file write are not modelled.
 */
module CollectRawData {
  import opened Wrappers
  import opened PyJson
  import Resolver
  import SecFinancials
  import PriceTrend
  import FinnhubNews

  /** The collected bundle: `meta`, `sec`, `prices` and `news`. */
  datatype RawBundle = RawBundle(
    meta: Resolver.ResolvedTicker,
    sec: Option<SecFinancials.Financials>,
    prices: PriceTrend.PriceReport,
    news: FinnhubNews.NewsResult)

  /** The external services, each a function of the argument the pull passes it. */
  datatype Sources = Sources(
    registry: Option<seq<Resolver.RegistryEntry>>,
    companyFacts: string -> Option<SecFinancials.FactsDoc>,
    history: string -> PriceTrend.History,
    annualize: seq<real> -> real,
    newsApiKey: string,
    companyNews: string -> Option<Json>,
    toIso: Json -> Option<string>)

  /**
    `collect_raw_data`: resolution first; a failed resolution (`None`) makes
    `resolved["cik"]` raise before any other pull. The SEC pull receives the
    resolved CIK; the price and news pulls receive the ticker as given.
   */
  function CollectRawData(ticker: string, src: Sources): (r: Outcome<RawBundle>)
    requires Resolver.ResolveTickerToCik(ticker, src.registry).Some? ==>
      FinnhubNews.FetchedWellTyped(src.companyNews(ticker))
    ensures Resolver.ResolveTickerToCik(ticker, src.registry).None? ==> r.Raises?
    ensures r.Returns? ==>
      && r.value.meta == Resolver.ResolveTickerToCik(ticker, src.registry).value
      && r.value.meta.ticker == Resolver.Upper(ticker)
      && r.value.sec == SecFinancials.PullSecFinancials(src.companyFacts(r.value.meta.cik))
      && r.value.prices == PriceTrend.PullPriceTrend(src.history(ticker), src.annualize)
      && Returns(r.value.news) == FinnhubNews.FinnhubNewsDigest(src.newsApiKey, src.companyNews(ticker), src.toIso)
    ensures Resolver.ResolveTickerToCik(ticker, src.registry).Some? ==>
      (r.Raises? <==> FinnhubNews.FinnhubNewsDigest(src.newsApiKey, src.companyNews(ticker), src.toIso).Raises?)
  {
    match Resolver.ResolveTickerToCik(ticker, src.registry)
    case None => Raises
    case Some(resolved) =>
      var sec := SecFinancials.PullSecFinancials(src.companyFacts(resolved.cik));
      var prices := PriceTrend.PullPriceTrend(src.history(ticker), src.annualize);
      match FinnhubNews.FinnhubNewsDigest(src.newsApiKey, src.companyNews(ticker), src.toIso)
      case Raises => Raises
      case Returns(news) => Returns(RawBundle(resolved, sec, prices, news))
  }

  /**
    Tickers differing only in case reach the same company: the same `meta` and
    the same SEC figures, while the price and news pulls still see each
    spelling as given.
   */
  lemma {:induction false} CaseReachesSameCompany(t1: string, t2: string, src: Sources)
    requires Resolver.Upper(t1) == Resolver.Upper(t2)
    requires FinnhubNews.FetchedWellTyped(src.companyNews(t1)) && FinnhubNews.FetchedWellTyped(src.companyNews(t2))
    ensures CollectRawData(t1, src).Returns? && CollectRawData(t2, src).Returns? ==>
      CollectRawData(t1, src).value.meta == CollectRawData(t2, src).value.meta &&
      CollectRawData(t1, src).value.sec == CollectRawData(t2, src).value.sec
  {
    Resolver.CaseInsensitive(t1, t2, src.registry);
  }

  /** The resolved ticker as a dictionary: ticker, cik and title, in that order. */
  function MetaJson(m: Resolver.ResolvedTicker): (o: Fields)
    ensures Keys(o) == ["ticker", "cik", "title"]
    ensures Get(o, "ticker") == Some(Str(m.ticker))
    ensures Get(o, "cik") == Some(Str(m.cik))
    ensures Get(o, "title") == Some(Str(m.title))
  {
    var o := [("ticker", Str(m.ticker)), ("cik", Str(m.cik)), ("title", Str(m.title))];
    assert |o[0].0| == 6 && |o[1].0| == 3 && |o[2].0| == 5;
    GetFirstOccurrence(o, 1);
    GetFirstOccurrence(o, 2);
    o
  }

  function NewsJson(n: FinnhubNews.NewsResult): Fields {
    match n
    case NewsError(e) => [("error", e)]
    case NewsDigest(count, sample) =>
      [("count", Num(count as real)), ("sample", Arr(seq(|sample|, i requires 0 <= i < |sample| => Obj(sample[i]))))]
  }

  const BUNDLE_KEYS: seq<string> := ["meta", "sec", "prices", "news"]

  /** The returned dictionary: exactly the four keys, each holding its pull's dictionary. */
  function BundleJson(b: RawBundle): (o: Fields)
    ensures Keys(o) == BUNDLE_KEYS
    ensures Get(o, "sec") == Some(Obj(SecFinancials.FinancialsJson(b.sec)))
    ensures Get(o, "prices") == Some(Obj(PriceTrend.PriceJson(b.prices)))
  {
    var vals := BundleValues(b);
    var o := seq(|BUNDLE_KEYS|, i requires 0 <= i < |BUNDLE_KEYS| => (BUNDLE_KEYS[i], vals[i]));
    KeysFromPositions(o, BUNDLE_KEYS);
    assert |o[0].0| == 4 && |o[1].0| == 3 && |o[2].0| == 6;
    GetFirstOccurrence(o, 1);
    GetFirstOccurrence(o, 2);
    o
  }

  /** The values of the bundle dict, in key order. */
  function BundleValues(b: RawBundle): seq<Json> {
    [Obj(MetaJson(b.meta)), Obj(SecFinancials.FinancialsJson(b.sec)),
     Obj(PriceTrend.PriceJson(b.prices)), Obj(NewsJson(b.news))]
  }

  /** Every key of the bundle dict reads back its pull's dict. */
  lemma {:induction false} BundleJsonReadsBack(b: RawBundle)
    ensures forall i :: 0 <= i < |BUNDLE_KEYS| ==> Get(BundleJson(b), BUNDLE_KEYS[i]) == Some(BundleValues(b)[i])
  {
    var o := BundleJson(b);
    assert forall i :: 0 <= i < |o| ==> o[i] == (BUNDLE_KEYS[i], BundleValues(b)[i]);
    assert |o[0].0| == 4 && |o[1].0| == 3 && |o[2].0| == 6 && o[3].0[0] != o[0].0[0];
    GetOfDistinct(o);
  }

  /** The bundle's `meta` and `news` entries hold the company dict and the news dict. */
  lemma {:induction false} BundleMetaAndNews(b: RawBundle)
    ensures Get(BundleJson(b), "meta") == Some(Obj(MetaJson(b.meta)))
    ensures Get(BundleJson(b), "news") == Some(Obj(NewsJson(b.news)))
  {
    BundleJsonReadsBack(b);
    assert BUNDLE_KEYS[0] == "meta" && BUNDLE_KEYS[3] == "news";
  }

  /** `strftime`'s format gives a stamp only when timestamps are on; `now` is the formatted clock. */
  function Stamp(withTimestamp: bool, now: string): string {
    if withTimestamp then now else ""
  }

  /**
    `persist_raw_json`'s file name: a non-empty `filename` as given, otherwise
    `{ticker}_raw_{stamp}.json`, or `{ticker}_raw.json` when the stamp is empty.
   */
  function RawFileName(ticker: string, filename: Option<string>, stamp: string): (name: string)
    ensures filename.Some? && filename.value != "" ==> name == filename.value
  {
    if filename.Some? && filename.value != "" then filename.value
    else ticker + "_raw" + (if stamp != "" then "_" + stamp else "") + ".json"
  }

  /** A generated name splits back into the ticker, the stamp and the `.json` suffix. */
  lemma {:induction false} RawFileNameParts(ticker: string, filename: Option<string>, stamp: string)
    requires filename.None? || filename.value == ""
    ensures var name := RawFileName(ticker, filename, stamp);
      && name[..|ticker|] == ticker
      && name[|ticker|..|ticker| + 4] == "_raw"
      && name[|name| - 5..] == ".json"
      && (stamp == "" ==> |name| == |ticker| + 9)
      && (stamp != "" ==> name[|ticker| + 4] == '_' && name[|ticker| + 5..|name| - 5] == stamp)
  {
    var middle := if stamp != "" then "_" + stamp else "";
    var name := ticker + "_raw" + middle + ".json";
    assert name == ticker + ("_raw" + middle + ".json");
    assert name[|ticker|..] == "_raw" + middle + ".json";
    assert name[|ticker| + 4..] == middle + ".json";
  }

  /** Two generated names are equal only for the same ticker and stamp. */
  lemma {:induction false} RawFileNameInjective(t1: string, s1: string, t2: string, s2: string)
    requires |t1| == |t2|
    requires RawFileName(t1, None, s1) == RawFileName(t2, None, s2)
    ensures t1 == t2 && s1 == s2
  {
    RawFileNameParts(t1, None, s1);
    RawFileNameParts(t2, None, s2);
  }

  /** The string form of `Path(out_dir) / base`, without Path's normalisation of inner segments. */
  function JoinPath(outDir: string, base: string): (path: string)
    ensures |path| >= |base| && path[|path| - |base|..] == base
    ensures base != [] && base[0] == '/' ==> path == base
  {
    if base != [] && base[0] == '/' then base
    else if outDir == "" then base
    else
      var dir := StripTrailingSlashes(outDir);
      assert (dir + "/" + base)[|dir| + 1..] == base;
      dir + "/" + base
  }

  /** `out_dir` without trailing separators (the root stays `""`, so the join yields `/base`). */
  function StripTrailingSlashes(s: string): (r: string)
    ensures |r| <= |s| && r == s[..|r|]
    ensures r == [] || r[|r| - 1] != '/'
  {
    if s == [] || s[|s| - 1] != '/' then s else StripTrailingSlashes(s[..|s| - 1])
  }

  /** `persist_raw_json`'s returned path. */
  function PersistPath(ticker: string, outDir: string, filename: Option<string>, withTimestamp: bool, now: string): (path: string)
    ensures var base := RawFileName(ticker, filename, Stamp(withTimestamp, now));
      |path| >= |base| && path[|path| - |base|..] == base
  {
    JoinPath(outDir, RawFileName(ticker, filename, Stamp(withTimestamp, now)))
  }

  /** A relative name joined to a directory not ending in a separator gets exactly one `/` between them. */
  lemma {:induction false} JoinRelative(dir: string, base: string)
    requires dir != "" && dir[|dir| - 1] != '/' && (base == [] || base[0] != '/')
    ensures JoinPath(dir, base) == dir + "/" + base
  {
  }

  /** With a stamp and no file name, the name is `{ticker}_raw_{stamp}.json`, which is relative unless the ticker is. */
  lemma {:induction false} StampedRawName(ticker: string, now: string)
    requires now != "" && (ticker == [] || ticker[0] != '/')
    ensures var base := RawFileName(ticker, None, now);
      && base == ticker + "_raw_" + now + ".json"
      && base[0] != '/'
  {
    var base := ticker + "_raw_" + now + ".json";
    assert ticker + "_raw" + ("_" + now) + ".json" == base;
    if ticker != [] { assert base[0] == ticker[0]; } else { assert base[0] == '_'; }
  }

  /** With the defaults, the file is `reports/{ticker}_raw_{stamp}.json`. */
  lemma {:induction false} DefaultPersistPath(ticker: string, now: string)
    requires now != "" && (ticker == [] || ticker[0] != '/')
    ensures PersistPath(ticker, "reports", None, true, now) == "reports/" + ticker + "_raw_" + now + ".json"
  {
    StampedRawName(ticker, now);
    var base := RawFileName(ticker, None, now);
    var dir := "reports";
    assert dir[|dir| - 1] == 's';
    JoinRelative(dir, base);
    assert dir + "/" + base == "reports/" + ticker + "_raw_" + now + ".json";
  }
}
