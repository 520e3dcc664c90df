/**
  The news agent (news_agent.py) around its model call: the projection and
  filter of the input items, the empty-input answer, the parse fallback and
  the `setdefault` completion of the reply. The model's reply is the
  parameter `reply`; `json.dumps` is the parameter `dumps`.
 */
module NewsAgent {
  import opened Wrappers
  import opened PyJson
  import opened ReplyJson

  /** `NEWS_ANALYSIS_JSON_SCHEMA`: list entries and text entries. */
  const NEWS_SCHEMA: Schema := [
    ("relevant_articles", ListTemplate), ("themes", ListTemplate), ("sentiment", TextTemplate),
    ("risks", ListTemplate), ("opportunities", ListTemplate), ("pro_summary", TextTemplate),
    ("plain_summary", TextTemplate)]

  const NEUTRAL := "neutral"

  /** The returned dictionary: `raw_articles`, `analysis_json` and `raw_model_text`. */
  datatype NewsAnalysis = NewsAnalysis(rawArticles: seq<Fields>, analysisJson: Fields, rawModelText: string)

  /** `n.get("datetime_iso", "") or n.get("date", "")`. */
  function ArticleDate(n: Fields): (d: Json)
    ensures Truthy(GetOr(n, "datetime_iso", Str(""))) ==> d == GetOr(n, "datetime_iso", Str(""))
    ensures !Truthy(GetOr(n, "datetime_iso", Str(""))) ==> d == GetOr(n, "date", Str(""))
  {
    var iso := GetOr(n, "datetime_iso", Str(""));
    if Truthy(iso) then iso else GetOr(n, "date", Str(""))
  }

  const ARTICLE_KEYS: seq<string> := ["headline", "summary", "source", "date"]

  /** The projected values, in the order of the article keys. */
  function ArticleValues(n: Fields): (vals: seq<Json>)
    ensures |vals| == |ARTICLE_KEYS|
  {
    [GetOr(n, "headline", Str("")), GetOr(n, "summary", Str("")), GetOr(n, "source", Str("")), ArticleDate(n)]
  }

  /** The projection of one input item onto the four article keys. */
  function Article(n: Fields): (a: Fields)
    ensures Keys(a) == ARTICLE_KEYS
    ensures forall i :: 0 <= i < |a| ==> a[i].1 == ArticleValues(n)[i]
  {
    var vals := ArticleValues(n);
    var a := seq(|ARTICLE_KEYS|, i requires 0 <= i < |ARTICLE_KEYS| => (ARTICLE_KEYS[i], vals[i]));
    KeysFromPositions(a, ARTICLE_KEYS);
    a
  }

  /** An article holds exactly the four keys, each read from the item with `""` for a missing key. */
  lemma {:induction false} ArticleFields(n: Fields)
    ensures Keys(Article(n)) == ["headline", "summary", "source", "date"]
    ensures Get(Article(n), "headline") == Some(GetOr(n, "headline", Str("")))
    ensures Get(Article(n), "summary") == Some(GetOr(n, "summary", Str("")))
    ensures Get(Article(n), "source") == Some(GetOr(n, "source", Str("")))
    ensures Get(Article(n), "date") == Some(ArticleDate(n))
  {
    var a := Article(n);
    var vals := ArticleValues(n);
    forall i | 0 <= i < |a| ensures Get(a, ARTICLE_KEYS[i]) == Some(vals[i]) {
      forall j | 0 <= j < i ensures a[j].0 != a[i].0 {
        assert a[j].0 == Keys(a)[j] && a[i].0 == Keys(a)[i];
        var x, y := ARTICLE_KEYS[j], ARTICLE_KEYS[i];
        assert j == 1 && i == 2 ==> x[1] != y[1];
      }
      assert a[i].0 == Keys(a)[i];
      GetFirstOccurrence(a, i);
    }
    assert Get(a, ARTICLE_KEYS[0]) == Some(vals[0]);
    assert Get(a, ARTICLE_KEYS[1]) == Some(vals[1]);
    assert Get(a, ARTICLE_KEYS[2]) == Some(vals[2]);
    assert Get(a, ARTICLE_KEYS[3]) == Some(vals[3]);
  }

  /** The comprehension's filter: `n.get("summary")` is truthy. */
  predicate HasSummary(n: Fields) {
    Truthy(GetOr(n, "summary", Null))
  }

  /**
    The `items` comprehension: each item with a truthy summary, projected, in
    input order. A non-dictionary item makes `n.get` raise.
   */
  function Articles(newsSample: seq<Json>): (r: Outcome<seq<Fields>>)
    ensures r.Returns? ==> |r.value| <= |newsSample|
  {
    if newsSample == [] then Returns([])
    else if !newsSample[0].Obj? then Raises
    else
      var rest := Articles(newsSample[1..]);
      match rest
      case Raises => Raises
      case Returns(tail) =>
        Returns(Kept(newsSample[0].fields) + tail)
  }

  /** What one dictionary item contributes: its projection if its summary is truthy. */
  function Kept(n: Fields): seq<Fields> {
    if HasSummary(n) then [Article(n)] else []
  }

  /** The comprehension runs item by item: the first item's contribution, then the rest's. */
  lemma {:induction false} ArticlesStep(s: seq<Json>)
    requires s != []
    ensures Articles(s).Returns? <==> s[0].Obj? && Articles(s[1..]).Returns?
    ensures Articles(s).Returns? ==> Articles(s).value == Kept(s[0].fields) + Articles(s[1..]).value
  {
  }

  /** The comprehension raises exactly when some item is not a dictionary. */
  lemma {:induction false} ArticlesRaises(newsSample: seq<Json>)
    ensures Articles(newsSample).Raises? <==> exists i :: 0 <= i < |newsSample| && !newsSample[i].Obj?
  {
    if newsSample != [] {
      ArticlesRaises(newsSample[1..]);
      assert forall i :: 1 <= i < |newsSample| ==> newsSample[i] == newsSample[1..][i - 1];
    }
  }

  /** The items of a concatenation are the items of each part, in order. */
  lemma {:induction false} ArticlesAppend(a: seq<Json>, b: seq<Json>)
    requires Articles(a).Returns? && Articles(b).Returns?
    ensures Articles(a + b) == Returns(Articles(a).value + Articles(b).value)
  {
    if a == [] {
      assert a + b == b;
      assert Articles(a).value + Articles(b).value == Articles(b).value;
    } else {
      ArticlesStep(a);
      ArticlesAppend(a[1..], b);
      ArticlesAppendCons(a, b);
    }
  }

  /** The inductive step of `ArticlesAppend`: prepending one dictionary item. */
  lemma {:induction false} ArticlesAppendCons(a: seq<Json>, b: seq<Json>)
    requires a != [] && a[0].Obj?
    requires Articles(a[1..]).Returns? && Articles(b).Returns?
    requires Articles(a[1..] + b) == Returns(Articles(a[1..]).value + Articles(b).value)
    ensures Articles(a + b) == Returns(Kept(a[0].fields) + Articles(a[1..]).value + Articles(b).value)
  {
    var ab := a + b;
    assert ab[0] == a[0];
    assert ab[1..] == a[1..] + b;
    ArticlesStep(ab);
    var h, r, w := Kept(a[0].fields), Articles(a[1..]).value, Articles(b).value;
    assert h + (r + w) == h + r + w;
  }

  /** One item is kept, as its projection, exactly when its summary is truthy. */
  lemma {:induction false} ArticlesOfOne(n: Fields)
    ensures Articles([Obj(n)]) == Returns(if HasSummary(n) then [Article(n)] else [])
  {
    var s := [Obj(n)];
    assert s[1..] == [];
    assert Articles(s[1..]) == Returns([]);
    assert Kept(n) + [] == Kept(n);
  }

  /** Every kept item has exactly the four article keys and carries the input's truthy summary. */
  lemma {:induction false} ArticlesHaveSummaries(newsSample: seq<Json>)
    requires Articles(newsSample).Returns?
    ensures forall a :: a in Articles(newsSample).value ==> Keys(a) == ARTICLE_KEYS && Truthy(GetOr(a, "summary", Null))
  {
    if newsSample != [] {
      ArticlesStep(newsSample);
      ArticlesHaveSummaries(newsSample[1..]);
      var n := newsSample[0].fields;
      ArticleFields(n);
      assert HasKey(Article(n), "summary");
    }
  }

  /** No item survives exactly when every item is a dictionary without a truthy summary. */
  lemma {:induction false} NoArticlesIffNoSummaries(newsSample: seq<Json>)
    ensures Articles(newsSample) == Returns([]) <==>
      forall i :: 0 <= i < |newsSample| ==> newsSample[i].Obj? && !HasSummary(newsSample[i].fields)
  {
    if newsSample != [] {
      NoArticlesIffNoSummaries(newsSample[1..]);
      assert forall i :: 1 <= i < |newsSample| ==> newsSample[i] == newsSample[1..][i - 1];
    }
  }

  /** `_empty_payload()`: the schema's keys with `[]` and `""`, and a `"neutral"` sentiment. */
  function EmptyNewsPayload(): (p: Fields)
    ensures |p| == |NEWS_SCHEMA| && forall i :: 0 <= i < |p| ==> p[i].0 == NEWS_SCHEMA[i].0
    ensures forall i :: 0 <= i < |p| && i != 2 ==> p[i].1 == DefaultFor(NEWS_SCHEMA[i].1)
    ensures p[2] == ("sentiment", Str(NEUTRAL))
  {
    [("relevant_articles", Arr([])), ("themes", Arr([])), ("sentiment", Str(NEUTRAL)),
     ("risks", Arr([])), ("opportunities", Arr([])), ("pro_summary", Str("")), ("plain_summary", Str(""))]
  }

  /** The fallback already holds every schema key, so the completion leaves it as it is. */
  lemma {:induction false} EmptyNewsPayloadComplete()
    ensures Missing(EmptyNewsPayload(), NEWS_SCHEMA) == []
  {
    SchemaShapedComplete(EmptyNewsPayload(), NEWS_SCHEMA);
  }

  lemma {:induction false} NewsSchemaDistinct()
    ensures DistinctKeys(NEWS_SCHEMA)
  {
    forall i, j | 0 <= i < j < |NEWS_SCHEMA| ensures NEWS_SCHEMA[i].0 != NEWS_SCHEMA[j].0 {
      var a, b := NEWS_SCHEMA[i].0, NEWS_SCHEMA[j].0;
      assert i == 4 && j == 6 ==> a[0] != b[0];
    }
  }

  /**
    `analyze_news`. With no surviving item the fixed empty analysis is returned
    and the model is not consulted; otherwise the reply is parsed with the
    brace-window fallback and completed with `setdefault`, which raises when
    the reply parses to something other than a dictionary.
   */
  method AnalyzeNews(newsSample: seq<Json>, reply: string, parse: string -> Option<Json>, dumps: Json -> string)
    returns (r: Outcome<NewsAnalysis>)
    ensures Articles(newsSample).Raises? ==> r.Raises?
    ensures Articles(newsSample) == Returns([]) ==>
      r == Returns(NewsAnalysis([], EmptyNewsPayload(), dumps(Obj(EmptyNewsPayload()))))
    ensures Articles(newsSample).Returns? && Articles(newsSample).value != [] ==>
      var parsed := SafeParse(reply, Obj(EmptyNewsPayload()), parse);
      && (r.Raises? <==> !parsed.Obj?)
      && (r.Returns? ==>
        && r.value.rawArticles == Articles(newsSample).value
        && r.value.rawModelText == reply
        && r.value.analysisJson == parsed.fields + Missing(parsed.fields, NEWS_SCHEMA)
        && (forall k :: HasKey(r.value.analysisJson, k) <==> HasKey(parsed.fields, k) || k in SchemaKeys(NEWS_SCHEMA))
        && (forall k :: HasKey(parsed.fields, k) ==> Get(r.value.analysisJson, k) == Get(parsed.fields, k))
        && (forall i :: 0 <= i < |NEWS_SCHEMA| && !HasKey(parsed.fields, NEWS_SCHEMA[i].0) ==>
              Get(r.value.analysisJson, NEWS_SCHEMA[i].0) == Some(DefaultFor(NEWS_SCHEMA[i].1))))
  {
    var items := Articles(newsSample);
    if items.Raises? {
      return Raises;
    }
    if items.value == [] {
      var empty := EmptyNewsPayload();
      return Returns(NewsAnalysis([], empty, dumps(Obj(empty))));
    }
    var parsed := SafeParse(reply, Obj(EmptyNewsPayload()), parse);
    if !parsed.Obj? {
      return Raises;
    }
    NewsSchemaDistinct();
    var filled := FillMissingKeys(parsed.fields, NEWS_SCHEMA);
    r := Returns(NewsAnalysis(items.value, filled, reply));
  }

  /**
    `_get_news_sample`: the `sample` list if there is one, else the `results`
    list, else nothing.
   */
  function GetNewsSample(news: Json): (items: seq<Json>)
    ensures news.Obj? && HasKey(news.fields, "sample") && GetOr(news.fields, "sample", Null).Arr? ==>
      items == GetOr(news.fields, "sample", Null).elems
    ensures items != [] ==>
      news.Obj? && (Get(news.fields, "sample") == Some(Arr(items)) || Get(news.fields, "results") == Some(Arr(items)))
    ensures (news.Obj? && !(HasKey(news.fields, "sample") && GetOr(news.fields, "sample", Null).Arr?)
      && HasKey(news.fields, "results") && GetOr(news.fields, "results", Null).Arr?) ==>
      items == GetOr(news.fields, "results", Null).elems
  {
    if !news.Obj? then []
    else match Get(news.fields, "sample")
      case Some(Arr(s)) => s
      case _ =>
        match Get(news.fields, "results")
        case Some(Arr(s)) => s
        case _ => []
  }

  /** A digest's sample reaches the agent in full; an error dictionary yields no item. */
  lemma {:induction false} NewsSampleOfDigest(count: real, sample: seq<Json>, e: Json)
    ensures GetNewsSample(Obj([("count", Num(count)), ("sample", Arr(sample))])) == sample
    ensures GetNewsSample(Obj([("error", e)])) == []
  {
    var o: Fields := [("count", Num(count)), ("sample", Arr(sample))];
    assert o[0].0 != "sample" by { assert |o[0].0| != 6; }
    GetFirstOccurrence(o, 1);
    var err: Fields := [("error", e)];
    assert !HasKey(err, "sample") && !HasKey(err, "results") by {
      assert Keys(err) == ["error"];
    }
  }
}
