/**
  The SEC agent (sec_agent.py) around its model call: the required-field
  guard, the parse fallback and the completion of the reply against the
  response schema. The model's reply is the parameter `reply`.
 */
module SecAgent {
  import opened Wrappers
  import opened PyJson
  import opened ReplyJson
  import SecFinancials

  /** The fields the analysis needs, in the order the error message lists them. */
  const REQUIRED_FIELDS: seq<string> := [
    "revenue", "gross_profit", "operating_income", "net_income",
    "cash", "current_assets", "current_liabilities", "equity",
    "total_debt", "gross_margin", "operating_margin",
    "current_ratio", "debt_to_equity"]

  const MISSING_PREFIX := "Missing required SEC fields: "

  /** `SEC_JSON_SCHEMA`: three text entries and five list entries. */
  const SEC_SCHEMA: Schema := [
    ("analyst_summary", TextTemplate), ("plain_summary", TextTemplate), ("profitability", ListTemplate),
    ("liquidity", ListTemplate), ("solvency", ListTemplate), ("red_flags", ListTemplate),
    ("green_flags", ListTemplate), ("verdict", TextTemplate)]

  /** The returned dictionary: `{"error": message}` or the metrics with the analysis. */
  datatype SecResult =
    | SecError(error: string)
    | SecAnalysis(metrics: Fields, analysisJson: Json, rawModelText: string)

  /** `k not in sec_data or sec_data[k] is None`. */
  predicate Unreported(secData: Fields, k: string) {
    Get(secData, k).None? || Get(secData, k) == Some(Null)
  }

  /** The `missing` comprehension over `required`, in its order. */
  function MissingFields(secData: Fields, required: seq<string>): (m: seq<string>)
    ensures forall k :: k in m <==> k in required && Unreported(secData, k)
    ensures |m| <= |required|
  {
    if required == [] then []
    else (if Unreported(secData, required[0]) then [required[0]] else []) + MissingFields(secData, required[1..])
  }

  /** The missing fields of a concatenation are those of each part, in order. */
  lemma {:induction false} MissingFieldsAppend(secData: Fields, a: seq<string>, b: seq<string>)
    ensures MissingFields(secData, a + b) == MissingFields(secData, a) + MissingFields(secData, b)
  {
    if a == [] {
      assert a + b == b;
    } else {
      assert (a + b)[0] == a[0];
      assert (a + b)[1..] == a[1..] + b;
      MissingFieldsAppend(secData, a[1..], b);
    }
  }

  /** Python's `repr` of a string free of quotes and backslashes. */
  function Quoted(k: string): string {
    "'" + k + "'"
  }

  /** The items of a list's `repr`, separated by `", "`. */
  function ReprItems(ks: seq<string>): string {
    if ks == [] then ""
    else if |ks| == 1 then Quoted(ks[0])
    else Quoted(ks[0]) + ", " + ReprItems(ks[1..])
  }

  /** Python's `str` of a list of strings, as the f-string formats `missing`. */
  function ListRepr(ks: seq<string>): (s: string)
    ensures |s| >= 2 && s[0] == '[' && s[|s| - 1] == ']'
    ensures s == "[]" <==> ks == []
  {
    var items := ReprItems(ks);
    assert ks != [] ==> items[0] == '\'';
    "[" + items + "]"
  }

  /** The message names a lone missing field in quotes. */
  lemma {:induction false} ListReprOne(k: string)
    ensures ListRepr([k]) == "['" + k + "']"
  {
  }

  /**
    Each listed field appears in the message in quotes, and the items are
    joined with `", "`: the message for `a + b` is that for `a` and that for
    `b`, joined.
   */
  lemma {:induction false} ReprItemsAppend(a: seq<string>, b: seq<string>)
    requires a != [] && b != []
    ensures ReprItems(a + b) == ReprItems(a) + ", " + ReprItems(b)
  {
    assert (a + b)[0] == a[0];
    assert (a + b)[1..] == a[1..] + b;
    if |a| > 1 {
      ReprItemsAppend(a[1..], b);
    }
  }

  /** `_empty_payload()`: every schema key with its fill default. */
  function EmptySecPayload(): (p: Fields)
    ensures |p| == |SEC_SCHEMA|
    ensures forall i :: 0 <= i < |p| ==> p[i] == (SEC_SCHEMA[i].0, DefaultFor(SEC_SCHEMA[i].1))
  {
    [("analyst_summary", Str("")), ("plain_summary", Str("")), ("profitability", Arr([])),
     ("liquidity", Arr([])), ("solvency", Arr([])), ("red_flags", Arr([])),
     ("green_flags", Arr([])), ("verdict", Str(""))]
  }

  /** The fallback already holds every schema key, so the fill loop leaves it as it is. */
  lemma {:induction false} EmptySecPayloadComplete()
    ensures Missing(EmptySecPayload(), SEC_SCHEMA) == []
  {
    SchemaShapedComplete(EmptySecPayload(), SEC_SCHEMA);
  }

  lemma {:induction false} SecSchemaDistinct()
    ensures DistinctKeys(SEC_SCHEMA)
  {
    forall i, j | 0 <= i < j < |SEC_SCHEMA| ensures SEC_SCHEMA[i].0 != SEC_SCHEMA[j].0 {
      var a, b := SEC_SCHEMA[i].0, SEC_SCHEMA[j].0;
      assert i == 0 && j == 6 ==> a[0] != b[0];
      assert i == 1 && j == 3 ==> a[0] != b[0];
      assert i == 4 && j == 7 ==> a[0] != b[0];
    }
  }

  /** Python's `k in s` for strings: `k` occurs in `s`. */
  predicate Substring(k: string, s: string) {
    exists i :: 0 <= i <= |s| && OccursAt(k, s, i)
  }

  predicate OccursAt(k: string, s: string, i: nat) {
    i + |k| <= |s| && s[i..i + |k|] == k
  }

  /** Python's `k in parsed` for a parsed list or string. */
  predicate Contains(parsed: Json, k: string)
    requires parsed.Arr? || parsed.Str?
  {
    if parsed.Arr? then Str(k) in parsed.elems else Substring(k, parsed.s)
  }

  /**
    The fill loop on a reply that is not a dictionary, one schema key at a
    time. The `in` test raises unless the reply is a list or a string; a key
    the reply does not contain is then assigned, and item assignment with a
    string key raises on a list and on a string alike. A contained key is
    skipped.
   */
  function FillNonDictLoop(parsed: Json, schema: Schema): (r: Outcome<Json>)
    requires !parsed.Obj?
  {
    if schema == [] then Returns(parsed)
    else if !(parsed.Arr? || parsed.Str?) then Raises
    else if !Contains(parsed, schema[0].0) then Raises
    else FillNonDictLoop(parsed, schema[1..])
  }

  /**
    The loop over a non-empty schema passes a non-dictionary reply through
    unchanged exactly when it is a list or string that contains every key,
    and raises otherwise.
   */
  lemma {:induction false} FillNonDictLoopPasses(parsed: Json, schema: Schema)
    requires !parsed.Obj? && schema != []
    ensures FillNonDictLoop(parsed, schema).Returns? ==> FillNonDictLoop(parsed, schema).value == parsed
    ensures FillNonDictLoop(parsed, schema).Returns? <==>
      (parsed.Arr? || parsed.Str?) && forall i :: 0 <= i < |schema| ==> Contains(parsed, schema[i].0)
  {
    if (parsed.Arr? || parsed.Str?) && Contains(parsed, schema[0].0) && |schema| > 1 {
      FillNonDictLoopPasses(parsed, schema[1..]);
      assert forall i :: 1 <= i < |schema| ==> schema[i] == schema[1..][i - 1];
    }
  }

  /** The fill loop over `SEC_JSON_SCHEMA` on a reply that is not a dictionary. */
  function FillNonDict(parsed: Json): (r: Outcome<Json>)
    requires !parsed.Obj?
    ensures r.Returns? ==> r.value == parsed
    ensures r.Returns? <==> (parsed.Arr? || parsed.Str?) && forall i :: 0 <= i < |SEC_SCHEMA| ==> Contains(parsed, SEC_SCHEMA[i].0)
  {
    FillNonDictLoopPasses(parsed, SEC_SCHEMA);
    FillNonDictLoop(parsed, SEC_SCHEMA)
  }

  /**
    `analyze_sec_financials`. A missing or `None` required field returns the
    error naming all of them, without the model; otherwise the reply is
    parsed with the brace-window fallback and completed against the schema.
    The metrics are the input as given.
   */
  method AnalyzeSecFinancials(secData: Fields, reply: string, parse: string -> Option<Json>) returns (r: Outcome<SecResult>)
    ensures MissingFields(secData, REQUIRED_FIELDS) != [] ==>
      r == Returns(SecError(MISSING_PREFIX + ListRepr(MissingFields(secData, REQUIRED_FIELDS))))
    ensures MissingFields(secData, REQUIRED_FIELDS) == [] ==>
      var parsed := SafeParse(reply, Obj(EmptySecPayload()), parse);
      && (parsed.Obj? ==> r.Returns?)
      && (!parsed.Obj? ==> (r.Returns? <==> FillNonDict(parsed).Returns?))
      && (r.Returns? ==>
        && r.value.SecAnalysis? && r.value.metrics == secData && r.value.rawModelText == reply
        && (parsed.Obj? ==> r.value.analysisJson == Obj(parsed.fields + Missing(parsed.fields, SEC_SCHEMA)))
        && (!parsed.Obj? ==> r.value.analysisJson == parsed))
  {
    var missing := MissingFields(secData, REQUIRED_FIELDS);
    if missing != [] {
      return Returns(SecError(MISSING_PREFIX + ListRepr(missing)));
    }
    var parsed := SafeParse(reply, Obj(EmptySecPayload()), parse);
    if parsed.Obj? {
      SecSchemaDistinct();
      var filled := FillMissingKeys(parsed.fields, SEC_SCHEMA);
      r := Returns(SecAnalysis(secData, Obj(filled), reply));
    } else {
      match FillNonDict(parsed)
      case Raises => r := Raises;
      case Returns(v) => r := Returns(SecAnalysis(secData, v, reply));
    }
  }

  /** An empty `sec` dictionary, the result of a failed pull, lacks every required field. */
  lemma {:induction false} EmptyMetricsAllMissing(required: seq<string>)
    ensures MissingFields([], required) == required
  {
    if required != [] {
      EmptyMetricsAllMissing(required[1..]);
      assert required == [required[0]] + required[1..];
    }
  }

  lemma {:induction false} RequiredFieldsDistinct()
    ensures forall i, j :: 0 <= i < j < |REQUIRED_FIELDS| ==> REQUIRED_FIELDS[i] != REQUIRED_FIELDS[j]
  {
    forall i, j | 0 <= i < j < |REQUIRED_FIELDS| ensures REQUIRED_FIELDS[i] != REQUIRED_FIELDS[j] {
      var a, b := REQUIRED_FIELDS[i], REQUIRED_FIELDS[j];
      assert i == 3 && j == 8 ==> a[0] != b[0];
      assert i == 1 && j == 9 ==> a[6] != b[6];
      assert i == 2 && j == 10 ==> a[10] != b[10];
      assert i == 5 && j == 12 ==> a[0] != b[0];
    }
  }

  /**
    On a dictionary holding exactly the required keys, in order, a field is
    reported missing exactly when its value is `None`.
   */
  lemma {:induction false} MissingOfRequiredShape(o: Fields)
    requires Keys(o) == REQUIRED_FIELDS
    ensures forall i :: 0 <= i < |o| ==> (o[i].0 in MissingFields(o, REQUIRED_FIELDS) <==> o[i].1.Null?)
  {
    forall i | 0 <= i < |o|
      ensures o[i].0 in REQUIRED_FIELDS && Get(o, o[i].0) == Some(o[i].1)
    {
      RequiredShapeGet(o, i);
    }
  }

  /** On the required shape each key is found with its own value. */
  lemma {:induction false} RequiredShapeGet(o: Fields, i: nat)
    requires Keys(o) == REQUIRED_FIELDS && i < |o|
    ensures o[i].0 == REQUIRED_FIELDS[i] && Get(o, o[i].0) == Some(o[i].1)
  {
    RequiredFieldsDistinct();
    forall j | 0 <= j < i ensures o[j].0 != o[i].0 {
      assert o[j].0 == Keys(o)[j];
    }
    assert o[i].0 == Keys(o)[i];
    GetFirstOccurrence(o, i);
  }

  /** Every figure of a pulled result is present. */
  predicate AllReported(f: SecFinancials.Financials) {
    forall i :: 0 <= i < |SecFinancials.Figures(f)| ==> SecFinancials.Figures(f)[i].Some?
  }

  /** The figures are all present exactly when no value of the result's dictionary is `null`. */
  lemma {:induction false} AllReportedIffNoNull(f: SecFinancials.Financials)
    ensures var o := SecFinancials.FinancialsJson(Some(f));
      AllReported(f) <==> forall i :: 0 <= i < |o| ==> !o[i].1.Null?
  {
    var o := SecFinancials.FinancialsJson(Some(f));
    var vs := SecFinancials.Figures(f);
    if AllReported(f) {
      forall i | 0 <= i < |o| ensures !o[i].1.Null? {
        assert vs[i].Some?;
      }
    } else {
      var i :| 0 <= i < |vs| && vs[i].None?;
      assert o[i].1.Null?;
    }
  }

  /** On the required shape, nothing is missing exactly when no value is `null`. */
  lemma {:induction false} NoneMissingIffNoNull(o: Fields)
    requires Keys(o) == REQUIRED_FIELDS
    ensures MissingFields(o, REQUIRED_FIELDS) == [] <==> forall i :: 0 <= i < |o| ==> !o[i].1.Null?
  {
    MissingOfRequiredShape(o);
    var m := MissingFields(o, REQUIRED_FIELDS);
    if m == [] {
      forall i | 0 <= i < |o| ensures !o[i].1.Null? {
        assert o[i].0 !in m;
      }
    } else {
      var k := m[0];
      assert k in REQUIRED_FIELDS;
      var i :| 0 <= i < |REQUIRED_FIELDS| && REQUIRED_FIELDS[i] == k;
      RequiredShapeGet(o, i);
      assert o[i].1.Null?;
    }
  }

  /**
    The dictionary `pull_sec_financials` returns reaches the model exactly when
    all thirteen figures are present; a failed pull (`{}`) never does.
   */
  lemma {:induction false} PulledFinancialsReachModel(f: SecFinancials.Financials)
    ensures MissingFields(SecFinancials.FinancialsJson(Some(f)), REQUIRED_FIELDS) == [] <==> AllReported(f)
    ensures MissingFields(SecFinancials.FinancialsJson(None), REQUIRED_FIELDS) == REQUIRED_FIELDS
  {
    var o := SecFinancials.FinancialsJson(Some(f));
    assert Keys(o) == REQUIRED_FIELDS;
    NoneMissingIffNoNull(o);
    AllReportedIffNoNull(f);
    EmptyMetricsAllMissing(REQUIRED_FIELDS);
  }
}
