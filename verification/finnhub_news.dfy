/**
  News sampling (finnhub_news.py): what `pull_finnhub_news` does with the
  fetched company-news list. The API key, the fetch result and the timestamp
  formatter (`fromtimestamp(ts, utc).strftime(...)`, which may raise) are
  inputs.
 */
module FinnhubNews {
  import opened Wrappers
  import opened PyJson
  import opened StableSort

  /** The returned dictionary: `{"error": e}` or `{"count": n, "sample": items}`. */
  datatype NewsResult = NewsError(error: Json) | NewsDigest(count: nat, sample: seq<Fields>)

  const MISSING_KEY := "Missing FINNHUB_API_KEY"
  const FETCH_FAILED := "Failed to get news"
  const SAMPLE_LIMIT: nat := 20

  /** The sort key `x.get("datetime", 0)`. */
  function NewsKey(item: Fields): SortKey {
    match Get(item, "datetime")
    case Some(Num(t)) => SortKey(t, 0.0)
    case _ => SortKey(0.0, 0.0)
  }

  /**
    Every item's `datetime` is a number or absent: the sort compares these
    values, and other types are outside this model.
   */
  predicate NumericDatetimes(elems: seq<Json>) {
    forall i :: 0 <= i < |elems| && elems[i].Obj? ==>
      Get(elems[i].fields, "datetime").None? || Get(elems[i].fields, "datetime").value.Num?
  }

  predicate FetchedWellTyped(fetched: Option<Json>) {
    fetched.Some? && fetched.value.Arr? ==> NumericDatetimes(fetched.value.elems)
  }

  /** Every element is a dictionary (otherwise `x.get` raises in the sort key). */
  predicate AllObjects(elems: seq<Json>) {
    forall i :: 0 <= i < |elems| ==> elems[i].Obj?
  }

  function ObjectFields(elems: seq<Json>): (items: seq<Fields>)
    requires AllObjects(elems)
    ensures |items| == |elems| && forall i :: 0 <= i < |elems| ==> elems[i] == Obj(items[i])
  {
    seq(|elems|, i requires 0 <= i < |elems| => elems[i].fields)
  }

  /**
    The `try` block for one kept item: it gains `datetime_iso` when the
    conversion of `it.get("datetime", 0)` succeeds, and is left unchanged otherwise.
   */
  function Enrich(item: Fields, toIso: Json -> Option<string>): Fields {
    match toIso(GetOr(item, "datetime", Num(0.0)))
    case Some(iso) => Put(item, "datetime_iso", Str(iso))
    case None => item
  }

  /**
    Enrichment adds or replaces `datetime_iso` exactly when the conversion
    succeeds, and alters no other key and not the timestamp the sort used.
   */
  lemma {:induction false} EnrichKeepsItem(item: Fields, toIso: Json -> Option<string>)
    ensures var r := Enrich(item, toIso);
      var iso := toIso(GetOr(item, "datetime", Num(0.0)));
      && (iso.Some? ==> Get(r, "datetime_iso") == Some(Str(iso.value)))
      && (iso.None? ==> r == item)
      && (forall k :: k != "datetime_iso" ==> Get(r, k) == Get(item, k))
      && (Keys(r) == Keys(item) || Keys(r) == Keys(item) + ["datetime_iso"])
      && NewsKey(r) == NewsKey(item)
  {
  }

  /** The enrichment loop's effect on the kept items. */
  function EnrichAll(items: seq<Fields>, toIso: Json -> Option<string>): (r: seq<Fields>)
    ensures |r| == |items| && forall i :: 0 <= i < |items| ==> r[i] == Enrich(items[i], toIso)
  {
    seq(|items|, i requires 0 <= i < |items| => Enrich(items[i], toIso))
  }

  /** The `for it in items` loop, updating each kept item in place. */
  method EnrichSample(items: array<Fields>, toIso: Json -> Option<string>)
    modifies items
    ensures items[..] == EnrichAll(old(items[..]), toIso)
  {
    ghost var before := items[..];
    var i := 0;
    while i < items.Length
      invariant 0 <= i <= items.Length
      invariant forall j :: 0 <= j < i ==> items[j] == Enrich(before[j], toIso)
      invariant forall j :: i <= j < items.Length ==> items[j] == before[j]
    {
      items[i] := Enrich(items[i], toIso);
      i := i + 1;
    }
  }

  /** Python's `not data or isinstance(data, dict) and data.get("error")`. */
  predicate IsErrorShape(data: Json) {
    !Truthy(data) || (data.Obj? && Truthy(GetOr(data.fields, "error", Null)))
  }

  /** The items kept before enrichment: the first 20 of the stable descending sort. */
  function Ranked(items: seq<Fields>): (top: seq<Fields>)
    ensures |top| == if |items| < SAMPLE_LIMIT then |items| else SAMPLE_LIMIT
  {
    var sorted := SortDesc(items, NewsKey);
    sorted[..if |sorted| < SAMPLE_LIMIT then |sorted| else SAMPLE_LIMIT]
  }

  /**
    `pull_finnhub_news` after the fetch; `fetched` is `None` when the request
    failed. A truthy non-list, or a list holding a non-dictionary, makes the
    sort raise.
   */
  function FinnhubNewsDigest(apiKey: string, fetched: Option<Json>, toIso: Json -> Option<string>): (r: Outcome<NewsResult>)
    requires FetchedWellTyped(fetched)
    ensures apiKey == "" ==> r == Returns(NewsError(Str(MISSING_KEY)))
    ensures apiKey != "" && fetched.None? ==> r == Returns(NewsError(Str(FETCH_FAILED)))
    ensures r.Returns? && r.value.NewsDigest? ==>
      fetched.Some? && fetched.value.Arr? && r.value.count == |fetched.value.elems| > 0
    ensures apiKey != "" && fetched.Some? && fetched.value.Arr? ==>
      (r.Raises? <==> fetched.value.elems != [] && !AllObjects(fetched.value.elems))
  {
    if apiKey == "" then Returns(NewsError(Str(MISSING_KEY)))
    else match fetched
      case None => Returns(NewsError(Str(FETCH_FAILED)))
      case Some(data) =>
        if IsErrorShape(data) then
          Returns(NewsError(if data.Obj? then GetOr(data.fields, "error", Null) else Str(FETCH_FAILED)))
        else if !data.Arr? || !AllObjects(data.elems) then Raises
        else
          var items := ObjectFields(data.elems);
          Returns(NewsDigest(|data.elems|, EnrichAll(Ranked(items), toIso)))
  }

  /**
    The imperative form: sorts into a new list, keeps the first 20 in a
    buffer and enriches them in place.
   */
  method PullFinnhubNews(apiKey: string, fetched: Option<Json>, toIso: Json -> Option<string>) returns (r: Outcome<NewsResult>)
    requires FetchedWellTyped(fetched)
    ensures r == FinnhubNewsDigest(apiKey, fetched, toIso)
  {
    if apiKey == "" {
      return Returns(NewsError(Str(MISSING_KEY)));
    }
    if fetched.None? {
      return Returns(NewsError(Str(FETCH_FAILED)));
    }
    var data := fetched.value;
    if IsErrorShape(data) {
      return Returns(NewsError(if data.Obj? then GetOr(data.fields, "error", Null) else Str(FETCH_FAILED)));
    }
    if !data.Arr? || !AllObjects(data.elems) {
      return Raises;
    }
    var top := Ranked(ObjectFields(data.elems));
    var buffer := new Fields[|top|](i requires 0 <= i < |top| => top[i]);
    assert buffer[..] == top;
    EnrichSample(buffer, toIso);
    r := Returns(NewsDigest(|data.elems|, buffer[..]));
  }

  /** An empty list, like any falsy response, is an error and never a count of 0. */
  lemma {:induction false} EmptyListIsError(apiKey: string, toIso: Json -> Option<string>)
    requires apiKey != ""
    ensures FinnhubNewsDigest(apiKey, Some(Arr([])), toIso) == Returns(NewsError(Str(FETCH_FAILED)))
    ensures FinnhubNewsDigest(apiKey, Some(Obj([])), toIso) == Returns(NewsError(Null))
  {
  }

  /** A dictionary carrying a truthy `error` is reported with that error. */
  lemma {:induction false} ErrorDictReported(apiKey: string, fields: Fields, toIso: Json -> Option<string>)
    requires apiKey != "" && Truthy(GetOr(fields, "error", Null))
    ensures FinnhubNewsDigest(apiKey, Some(Obj(fields)), toIso) == Returns(NewsError(GetOr(fields, "error", Null)))
  {
  }

  /**
    The sample: at most 20 items, each an enriched input item; non-increasing
    by timestamp; every kept timestamp at least every dropped one; items with
    equal timestamps kept in input order.
   */
  lemma {:induction false} SampleCharacterised(apiKey: string, elems: seq<Json>, toIso: Json -> Option<string>)
    requires apiKey != "" && elems != [] && AllObjects(elems) && NumericDatetimes(elems)
    ensures var r := FinnhubNewsDigest(apiKey, Some(Arr(elems)), toIso);
      var items := ObjectFields(elems);
      var top := Ranked(items);
      && r == Returns(NewsDigest(|elems|, EnrichAll(top, toIso)))
      && |r.value.sample| == (if |elems| < SAMPLE_LIMIT then |elems| else SAMPLE_LIMIT)
      && multiset(top) <= multiset(items)
      && NonIncreasing(r.value.sample, NewsKey)
      && (forall x, y :: x in multiset(items) - multiset(top) && y in top ==> !Above(NewsKey(x), NewsKey(y)))
      && (forall k :: IsPrefix(WithKey(top, NewsKey, k), WithKey(items, NewsKey, k)))
  {
    var items := ObjectFields(elems);
    DigestOfObjects(apiKey, elems, toIso);
    RankedIsTop(items);
    EnrichKeepsOrder(Ranked(items), toIso);
  }

  /** A non-empty list of dictionaries is digested, never reported as an error. */
  lemma {:induction false} DigestOfObjects(apiKey: string, elems: seq<Json>, toIso: Json -> Option<string>)
    requires apiKey != "" && elems != [] && AllObjects(elems) && NumericDatetimes(elems)
    ensures FinnhubNewsDigest(apiKey, Some(Arr(elems)), toIso) ==
      Returns(NewsDigest(|elems|, EnrichAll(Ranked(ObjectFields(elems)), toIso)))
  {
    assert Truthy(Arr(elems));
  }

  /** The kept items are the top of the stable descending sort, in its order. */
  lemma {:induction false} RankedIsTop(items: seq<Fields>)
    ensures var top := Ranked(items);
      && multiset(top) <= multiset(items)
      && NonIncreasing(top, NewsKey)
      && (forall x, y :: x in multiset(items) - multiset(top) && y in top ==> !Above(NewsKey(x), NewsKey(y)))
      && (forall k :: IsPrefix(WithKey(top, NewsKey, k), WithKey(items, NewsKey, k)))
  {
    TopOfSortDesc(items, NewsKey, if |items| < SAMPLE_LIMIT then |items| else SAMPLE_LIMIT);
  }

  /** Enrichment leaves every ranking key alone, so a descending sample stays descending. */
  lemma {:induction false} EnrichKeepsOrder(top: seq<Fields>, toIso: Json -> Option<string>)
    requires NonIncreasing(top, NewsKey)
    ensures NonIncreasing(EnrichAll(top, toIso), NewsKey)
  {
    var sample := EnrichAll(top, toIso);
    forall i, j | 0 <= i < j < |sample| ensures !Above(NewsKey(sample[j]), NewsKey(sample[i])) {
      EnrichKeepsItem(top[i], toIso);
      EnrichKeepsItem(top[j], toIso);
    }
  }
}
