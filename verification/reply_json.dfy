/**
  Recovering a JSON object from a model reply, and completing it against a
  response schema. The three agents share this logic: `_safe_json`
  (stock_agent.py), the inline parse of `analyze_news` (news_agent.py) and
  `_safe_parse_json` (sec_agent.py) are the same brace-window fallback, and
  each agent fills the schema keys the reply lacks. `json.loads` is the
  parameter `parse`, `None` where it raises `JSONDecodeError`.
 */
module ReplyJson {
  import opened Wrappers
  import opened PyJson

  /** Python's `txt.find(c)`: the first index of `c`, or -1. */
  function FindFirst(txt: string, c: char): (i: int)
    ensures i == -1 <==> c !in txt
    ensures i != -1 ==> 0 <= i < |txt| && txt[i] == c && forall j :: 0 <= j < i ==> txt[j] != c
  {
    if txt == [] then -1
    else if txt[0] == c then 0
    else
      var rest := FindFirst(txt[1..], c);
      assert c in txt <==> c in txt[1..] by { assert txt == [txt[0]] + txt[1..]; }
      if rest == -1 then -1 else rest + 1
  }

  /** Python's `txt.rfind(c)`: the last index of `c`, or -1. */
  function FindLast(txt: string, c: char): (i: int)
    ensures i == -1 <==> c !in txt
    ensures i != -1 ==> 0 <= i < |txt| && txt[i] == c && forall j :: i < j < |txt| ==> txt[j] != c
  {
    if txt == [] then -1
    else if txt[|txt| - 1] == c then |txt| - 1
    else
      assert c in txt <==> c in txt[..|txt| - 1] by { assert txt == txt[..|txt| - 1] + [txt[|txt| - 1]]; }
      FindLast(txt[..|txt| - 1], c)
  }

  /** `txt[start : end + 1]` when the first '{' precedes the last '}', else nothing. */
  function BraceWindow(txt: string): (w: Option<string>)
    ensures w.Some? <==> '{' in txt && '}' in txt && FindLast(txt, '}') > FindFirst(txt, '{')
    ensures w.Some? ==> |w.value| >= 2 && w.value[0] == '{' && w.value[|w.value| - 1] == '}'
  {
    var start, end := FindFirst(txt, '{'), FindLast(txt, '}');
    if start != -1 && end != -1 && end > start then Some(txt[start..end + 1]) else None
  }

  /**
    Text around an object is what the window strips: a reply made of a lead
    without '{', a body from '{' to '}' and a tail without '}' has that body
    as its window.
   */
  lemma {:induction false} BraceWindowStrips(lead: string, body: string, tail: string)
    requires '{' !in lead && '}' !in tail
    requires |body| >= 2 && body[0] == '{' && body[|body| - 1] == '}'
    ensures BraceWindow(lead + body + tail) == Some(body)
  {
    var txt := lead + body + tail;
    assert txt[|lead|] == '{';
    assert txt[|lead| + |body| - 1] == '}';
    assert FindFirst(txt, '{') == |lead| by {
      forall j | 0 <= j < |lead| ensures txt[j] != '{' {
        assert txt[j] == lead[j];
      }
    }
    assert FindLast(txt, '}') == |lead| + |body| - 1 by {
      forall j | |lead| + |body| - 1 < j < |txt| ensures txt[j] != '}' {
        assert txt[j] == tail[j - |lead| - |body|];
      }
    }
    assert txt[|lead|..|lead| + |body|] == body;
  }

  /** There is no window exactly when every '}' of the reply comes before every '{'. */
  lemma {:induction false} NoWindowIffBracesReversed(txt: string)
    ensures BraceWindow(txt).None? <==>
      forall i, j :: 0 <= i < |txt| && 0 <= j < |txt| && txt[i] == '{' && txt[j] == '}' ==> j < i
  {
    var start, end := FindFirst(txt, '{'), FindLast(txt, '}');
    if BraceWindow(txt).None? {
      forall i, j | 0 <= i < |txt| && 0 <= j < |txt| && txt[i] == '{' && txt[j] == '}' ensures j < i {
        assert txt[start] == '{' && txt[end] == '}';
      }
    } else {
      assert txt[start] == '{' && txt[end] == '}' && !(end < start);
    }
  }

  /**
    `_safe_json(txt, fallback)`: the whole reply if it parses, else the brace
    window if there is one and it parses, else the fallback.
   */
  function SafeParse(txt: string, fallback: Json, parse: string -> Option<Json>): (r: Json)
    ensures parse(txt).Some? ==> Some(r) == parse(txt)
    ensures parse(txt).None? && BraceWindow(txt).None? ==> r == fallback
    ensures r == fallback || Some(r) == parse(txt)
      || (BraceWindow(txt).Some? && Some(r) == parse(BraceWindow(txt).value))
  {
    match parse(txt)
    case Some(v) => v
    case None =>
      match BraceWindow(txt)
      case Some(window) => parse(window).GetOr(fallback)
      case None => fallback
  }

  /** Surrounding prose is stripped: an object wrapped in brace-free text is recovered. */
  lemma {:induction false} SafeParseRecovers(lead: string, body: string, tail: string, fallback: Json, parse: string -> Option<Json>)
    requires '{' !in lead && '}' !in tail
    requires |body| >= 2 && body[0] == '{' && body[|body| - 1] == '}'
    requires parse(lead + body + tail).None? && parse(body).Some?
    ensures SafeParse(lead + body + tail, fallback, parse) == parse(body).value
  {
    BraceWindowStrips(lead, body, tail);
  }

  /** The kind of a schema entry's template value. */
  datatype Template = TextTemplate | ListTemplate | DictTemplate

  /** A response schema: its keys in order, each with its template kind. */
  type Schema = seq<(string, Template)>

  /** The value a missing key receives: `[]` for lists, `{}` for dicts, `""` otherwise. */
  function DefaultFor(t: Template): Json {
    match t
    case ListTemplate => Arr([])
    case DictTemplate => Obj([])
    case TextTemplate => Str("")
  }

  function SchemaKeys(schema: Schema): (ks: seq<string>)
    ensures |ks| == |schema| && forall i :: 0 <= i < |schema| ==> ks[i] == schema[i].0
  {
    seq(|schema|, i requires 0 <= i < |schema| => schema[i].0)
  }

  /** The keys of a schema are distinct, as the keys of a dictionary literal are. */
  predicate DistinctKeys(schema: Schema) {
    forall i, j :: 0 <= i < j < |schema| ==> schema[i].0 != schema[j].0
  }

  /** The entries the fill loop appends: the schema keys `parsed` lacks, in schema order. */
  function Missing(parsed: Fields, schema: Schema): (m: Fields)
    ensures |m| <= |schema|
    ensures forall i :: 0 <= i < |m| ==> !HasKey(parsed, m[i].0)
  {
    if schema == [] then []
    else
      var (k, t) := schema[|schema| - 1];
      Missing(parsed, schema[..|schema| - 1]) + (if HasKey(parsed, k) then [] else [(k, DefaultFor(t))])
  }

  /** The appended keys are exactly the schema keys absent from `parsed`. */
  lemma {:induction false} MissingKeys(parsed: Fields, schema: Schema)
    requires DistinctKeys(schema)
    ensures forall k :: HasKey(Missing(parsed, schema), k) <==> k in SchemaKeys(schema) && !HasKey(parsed, k)
  {
    if schema != [] {
      var init := schema[..|schema| - 1];
      var (k, t) := schema[|schema| - 1];
      MissingKeys(parsed, init);
      KeysAppend(Missing(parsed, init), if HasKey(parsed, k) then [] else [(k, DefaultFor(t))]);
      assert SchemaKeys(schema) == SchemaKeys(init) + [k];
    }
  }

  /** The last schema key is not among the keys appended for the entries before it. */
  lemma {:induction false} LastNotMissingBefore(parsed: Fields, schema: Schema)
    requires DistinctKeys(schema) && schema != []
    ensures !HasKey(Missing(parsed, schema[..|schema| - 1]), schema[|schema| - 1].0)
  {
    var init := schema[..|schema| - 1];
    MissingKeys(parsed, init);
    forall i | 0 <= i < |init| ensures SchemaKeys(init)[i] != schema[|schema| - 1].0 {
      assert schema[i].0 != schema[|schema| - 1].0;
    }
  }

  /** Each schema key absent from `parsed` is appended with its type's default. */
  lemma {:induction false} MissingDefaults(parsed: Fields, schema: Schema)
    requires DistinctKeys(schema)
    ensures forall i :: 0 <= i < |schema| && !HasKey(parsed, schema[i].0) ==>
      Get(Missing(parsed, schema), schema[i].0) == Some(DefaultFor(schema[i].1))
  {
    forall i | 0 <= i < |schema| && !HasKey(parsed, schema[i].0)
      ensures Get(Missing(parsed, schema), schema[i].0) == Some(DefaultFor(schema[i].1))
    {
      MissingDefaultAt(parsed, schema, i);
    }
  }

  lemma {:induction false} MissingDefaultAt(parsed: Fields, schema: Schema, i: nat)
    requires DistinctKeys(schema) && i < |schema| && !HasKey(parsed, schema[i].0)
    ensures Get(Missing(parsed, schema), schema[i].0) == Some(DefaultFor(schema[i].1))
  {
    var init := schema[..|schema| - 1];
    var (k, t) := schema[|schema| - 1];
    var rest := Missing(parsed, init);
    var last: Fields := if HasKey(parsed, k) then [] else [(k, DefaultFor(t))];
    assert Missing(parsed, schema) == rest + last;
    GetAppend(rest, last, schema[i].0);
    if i < |init| {
      DistinctPrefix(schema, |schema| - 1);
      MissingDefaultAt(parsed, init, i);
      assert Get(rest, schema[i].0) == Some(DefaultFor(schema[i].1));
    } else {
      LastNotMissingBefore(parsed, schema);
      assert schema[i] == (k, t) && last == [(k, DefaultFor(t))];
      assert Get(last, k) == Some(DefaultFor(t));
    }
  }

  lemma {:induction false} DistinctPrefix(schema: Schema, n: nat)
    requires DistinctKeys(schema) && n <= |schema|
    ensures DistinctKeys(schema[..n])
    ensures forall i :: 0 <= i < n ==> schema[..n][i] == schema[i]
  {
  }

  /** A reply already holding every schema key gets nothing appended. */
  lemma {:induction false} NothingMissing(parsed: Fields, schema: Schema)
    requires forall i :: 0 <= i < |schema| ==> HasKey(parsed, schema[i].0)
    ensures Missing(parsed, schema) == []
  {
    if schema != [] {
      NothingMissing(parsed, schema[..|schema| - 1]);
    }
  }

  /** A payload holding the schema's keys in the schema's order is already complete. */
  lemma {:induction false} SchemaShapedComplete(p: Fields, schema: Schema)
    requires |p| == |schema| && forall i :: 0 <= i < |p| ==> p[i].0 == schema[i].0
    ensures Missing(p, schema) == []
  {
    forall i | 0 <= i < |schema| ensures HasKey(p, schema[i].0) {
      assert Keys(p)[i] == p[i].0;
    }
    NothingMissing(p, schema);
  }

  /** A schema key not yet visited is present before the round exactly when the reply has it. */
  lemma {:induction false} UnvisitedKey(parsed: Fields, schema: Schema, i: nat)
    requires DistinctKeys(schema) && i < |schema|
    ensures HasKey(parsed + Missing(parsed, schema[..i]), schema[i].0) <==> HasKey(parsed, schema[i].0)
  {
    var init := schema[..i];
    var k := schema[i].0;
    assert DistinctKeys(init);
    MissingKeys(parsed, init);
    KeysAppend(parsed, Missing(parsed, init));
    assert k !in SchemaKeys(init) by {
      forall j | 0 <= j < i ensures init[j].0 != k {
        assert schema[j].0 != schema[i].0;
      }
    }
  }

  /** One round of the fill loop takes the dictionary from the first `i` schema entries to the first `i + 1`. */
  lemma {:induction false} FillStep(parsed: Fields, schema: Schema, i: nat)
    requires DistinctKeys(schema) && i < |schema|
    ensures var before := parsed + Missing(parsed, schema[..i]);
      parsed + Missing(parsed, schema[..i + 1]) ==
        if HasKey(before, schema[i].0) then before else Put(before, schema[i].0, DefaultFor(schema[i].1))
  {
    var k, t := schema[i].0, schema[i].1;
    var m := Missing(parsed, schema[..i]);
    var before := parsed + m;
    MissingStep(parsed, schema, i);
    UnvisitedKey(parsed, schema, i);
    if HasKey(parsed, k) {
      assert m + [] == m;
    } else {
      PutNewKey(before, k, DefaultFor(t));
      AppendAssoc(parsed, m, [(k, DefaultFor(t))]);
    }
  }

  /** Visiting one more schema entry appends at most that entry's default. */
  lemma {:induction false} MissingStep(parsed: Fields, schema: Schema, i: nat)
    requires i < |schema|
    ensures Missing(parsed, schema[..i + 1]) ==
      Missing(parsed, schema[..i]) + (if HasKey(parsed, schema[i].0) then [] else [(schema[i].0, DefaultFor(schema[i].1))])
  {
    assert schema[..i + 1][..i] == schema[..i];
    assert schema[..i + 1][i] == schema[i];
  }

  lemma {:induction false} AppendAssoc<T>(a: seq<T>, b: seq<T>, c: seq<T>)
    ensures a + (b + c) == (a + b) + c
  {
  }

  /**
    The completed dictionary holds the reply's keys and the schema's, keeps the
    reply's values and gives each missing schema key its default.
   */
  lemma {:induction false} CompletedReply(parsed: Fields, schema: Schema)
    requires DistinctKeys(schema)
    ensures var filled := parsed + Missing(parsed, schema);
      && (forall k :: HasKey(filled, k) <==> HasKey(parsed, k) || k in SchemaKeys(schema))
      && (forall k :: HasKey(parsed, k) ==> Get(filled, k) == Get(parsed, k))
      && (forall i :: 0 <= i < |schema| && !HasKey(parsed, schema[i].0) ==>
            Get(filled, schema[i].0) == Some(DefaultFor(schema[i].1)))
  {
    var m := Missing(parsed, schema);
    MissingKeys(parsed, schema);
    MissingDefaults(parsed, schema);
    KeysAppend(parsed, m);
    forall k ensures HasKey(parsed, k) ==> Get(parsed + m, k) == Get(parsed, k) {
      GetAppend(parsed, m, k);
    }
    forall i | 0 <= i < |schema| && !HasKey(parsed, schema[i].0)
      ensures Get(parsed + m, schema[i].0) == Some(DefaultFor(schema[i].1))
    {
      GetAppend(parsed, m, schema[i].0);
    }
  }

  /** Reading a schema key from the completed reply gives the reply's value, or else the key's default. */
  lemma {:induction false} CompletedValue(parsed: Fields, schema: Schema, i: nat, default: Json)
    requires DistinctKeys(schema) && i < |schema|
    ensures GetOr(parsed + Missing(parsed, schema), schema[i].0, default) ==
      GetOr(parsed, schema[i].0, DefaultFor(schema[i].1))
  {
    CompletedReply(parsed, schema);
    assert schema[i].0 == SchemaKeys(schema)[i];
  }

  /**
    The fill loop: `for k, template in schema: if k not in parsed: parsed[k] = default`.
    `parsed` is the reply's dictionary, updated in place.
   */
  method FillMissingKeys(parsed: Fields, schema: Schema) returns (filled: Fields)
    requires DistinctKeys(schema)
    ensures filled == parsed + Missing(parsed, schema)
    ensures forall k :: HasKey(filled, k) <==> HasKey(parsed, k) || k in SchemaKeys(schema)
    ensures forall k :: HasKey(parsed, k) ==> Get(filled, k) == Get(parsed, k)
    ensures forall i :: 0 <= i < |schema| && !HasKey(parsed, schema[i].0) ==>
      Get(filled, schema[i].0) == Some(DefaultFor(schema[i].1))
  {
    filled := parsed;
    var i := 0;
    assert Missing(parsed, schema[..0]) == [];
    while i < |schema|
      invariant 0 <= i <= |schema|
      invariant filled == parsed + Missing(parsed, schema[..i])
    {
      FillStep(parsed, schema, i);
      if !HasKey(filled, schema[i].0) {
        filled := Put(filled, schema[i].0, DefaultFor(schema[i].1));
      }
      i := i + 1;
    }
    assert schema[..|schema|] == schema;
    CompletedReply(parsed, schema);
  }
}
