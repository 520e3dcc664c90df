/**
  Filing fact extraction (sec_financials.py): picks the latest annual value of
  an XBRL tag, chooses a unit group by priority, resolves each output field
  through a chain of fallback tags, sums the debt components and derives four
  ratios.
 */
module SecFinancials {
  import opened Wrappers
  import opened StableSort
  import opened PyJson

  /** The entry's `fy`: absent (counts as 0), an integer, or a value `int()` rejects. */
  datatype FiscalYear = FyAbsent | FyInt(year: int) | FyInvalid

  /**
    One XBRL fact. `fp` and `form` are `None` when absent or not strings;
    `end` is the parsed end date as an ordinal (0 is `datetime.min`), `None`
    when absent or unparseable; `val` is `float(val)`, `None` when that raises.
   */
  datatype FactEntry = FactEntry(fp: Option<string>, form: Option<string>, end: Option<nat>, fy: FiscalYear, val: Option<real>)

  /** A tag's `units`: unit name to fact list, in the document's key order. */
  type UnitGroups = seq<(string, seq<FactEntry>)>

  /**
    The fetched company-facts document (a truthy value). `usGaap` is
    `facts["facts"]["us-gaap"]`, `None` when that path does not exist; a tag
    without `units` maps to no unit groups, as `get("units", {})` gives.
   */
  datatype FactsDoc = FactsDoc(usGaap: Option<map<string, UnitGroups>>)

  /** The 13 output keys of `pull_sec_financials`. */
  datatype Financials = Financials(
    revenue: Option<real>, grossProfit: Option<real>, operatingIncome: Option<real>,
    netIncome: Option<real>, cash: Option<real>, currentAssets: Option<real>,
    currentLiabilities: Option<real>, equity: Option<real>, totalDebt: Option<real>,
    grossMargin: Option<real>, operatingMargin: Option<real>, currentRatio: Option<real>,
    debtToEquity: Option<real>)

  const UNIT_PRIORITY: seq<string> := ["USD", "USD/shares", "pure"]

  const REVENUE_TAGS: seq<string> := ["RevenueFromContractWithCustomerExcludingAssessedTax", "SalesRevenueNet", "Revenues"]
  const GROSS_PROFIT_TAGS: seq<string> := ["GrossProfit"]
  const OPERATING_INCOME_TAGS: seq<string> := ["OperatingIncomeLoss", "OperatingIncome"]
  const NET_INCOME_TAGS: seq<string> := ["NetIncomeLoss", "ProfitLoss"]
  const CURRENT_ASSETS_TAGS: seq<string> := ["AssetsCurrent"]
  const CURRENT_LIABILITIES_TAGS: seq<string> := ["LiabilitiesCurrent"]
  const EQUITY_TAGS: seq<string> := ["StockholdersEquityIncludingPortionAttributableToNoncontrollingInterest", "StockholdersEquity"]
  const CASH_TAGS: seq<string> := ["CashAndCashEquivalentsAtCarryingValue", "CashCashEquivalentsAndShortTermInvestments"]
  const LT_DEBT_TAGS: seq<string> := ["LongTermDebtNoncurrent", "LongTermDebt"]
  const CURRENT_LT_DEBT_TAGS: seq<string> := ["LongTermDebtCurrent"]
  const SHORT_TERM_BORROWINGS_TAGS: seq<string> := ["ShortTermBorrowings"]
  const COMMERCIAL_PAPER_TAGS: seq<string> := ["CommercialPaper"]

  const FINANCIALS_KEYS: seq<string> := [
    "revenue", "gross_profit", "operating_income", "net_income", "cash",
    "current_assets", "current_liabilities", "equity", "total_debt",
    "gross_margin", "operating_margin", "current_ratio", "debt_to_equity"]

  // ---------------------------------------------------------------------------
  // latest_annual_value
  // ---------------------------------------------------------------------------

  /** The annual filter: `fp == "FY"` or `form` in {10-K, 20-F}. */
  predicate IsAnnual(e: FactEntry) {
    e.fp == Some("FY") || e.form == Some("10-K") || e.form == Some("20-F")
  }

  /** The annual entries, in input order. */
  function AnnualEntries(values: seq<FactEntry>): (r: seq<FactEntry>)
    ensures |r| <= |values|
    ensures forall e :: e in r <==> e in values && IsAnnual(e)
    ensures forall e :: multiset(r)[e] == if IsAnnual(e) then multiset(values)[e] else 0
  {
    if values == [] then []
    else
      assert values == [values[0]] + values[1..];
      (if IsAnnual(values[0]) then [values[0]] else []) + AnnualEntries(values[1..])
  }

  /** Filtering a concatenation filters each part, so the filter keeps the input order. */
  lemma {:induction false} AnnualEntriesAppend(a: seq<FactEntry>, b: seq<FactEntry>)
    ensures AnnualEntries(a + b) == AnnualEntries(a) + AnnualEntries(b)
  {
    if a == [] {
      assert a + b == b;
    } else {
      var ab := a + b;
      assert ab[0] == a[0] && ab[1..] == a[1..] + b;
      AnnualEntriesAppend(a[1..], b);
      var head := if IsAnnual(a[0]) then [a[0]] else [];
      assert AnnualEntries(ab) == head + AnnualEntries(ab[1..]);
      assert AnnualEntries(a) == head + AnnualEntries(a[1..]);
      Reassociate(head, AnnualEntries(a[1..]), AnnualEntries(b));
    }
  }

  lemma {:induction false} Reassociate(x: seq<FactEntry>, y: seq<FactEntry>, z: seq<FactEntry>)
    ensures x + (y + z) == (x + y) + z
  {
  }

  /** The candidates: the annual entries, or every entry when none is annual. */
  function Candidates(values: seq<FactEntry>): (c: seq<FactEntry>)
    ensures (exists e :: e in values && IsAnnual(e)) ==> c == AnnualEntries(values)
    ensures (forall e :: e in values ==> !IsAnnual(e)) ==> c == values
    ensures c == [] <==> values == []
  {
    var annuals := AnnualEntries(values);
    if annuals == [] then values else annuals
  }

  /** `int(v.get("fy", 0))` where it does not raise. */
  function FiscalYearNumber(fy: FiscalYear): int {
    match fy
    case FyInt(y) => y
    case _ => 0
  }

  /** The sort key `(parse_date(v), int(fy))`; an unparseable date is `datetime.min`. */
  function FactKey(e: FactEntry): SortKey {
    SortKey(e.end.GetOr(0) as real, FiscalYearNumber(e.fy) as real)
  }

  /**
    `latest_annual_value`: the head of the candidates sorted by descending key,
    stably; `int(fy)` raising on any candidate makes the whole call raise.
   */
  function LatestAnnualValue(values: seq<FactEntry>): (r: Outcome<Option<FactEntry>>)
    ensures r == Raises <==> exists e :: e in Candidates(values) && e.fy.FyInvalid?
    ensures r == Returns(None) <==> values == []
    ensures r.Returns? && r.value.Some? ==> r.value.value in values
  {
    var annuals := Candidates(values);
    if exists e :: e in annuals && e.fy.FyInvalid? then Raises
    else
      var sorted := SortDesc(annuals, FactKey);
      if sorted == [] then Returns(None)
      else
        assert sorted[0] in multiset(annuals);
        Returns(Some(sorted[0]))
  }

  /**
    The imperative form of `latest_annual_value`: copies the candidates into a
    fresh array (the filtered list or `values[:]`), sorts that copy in place
    and reads its head; the caller's list is never written.
   */
  method LatestAnnual(values: seq<FactEntry>) returns (r: Outcome<Option<FactEntry>>)
    ensures r == LatestAnnualValue(values)
  {
    var candidates := Candidates(values);
    if exists e :: e in candidates && e.fy.FyInvalid? {
      return Raises;
    }
    var annuals := new FactEntry[|candidates|](i requires 0 <= i < |candidates| => candidates[i]);
    assert annuals[..] == candidates;
    SortDescInPlace(annuals, FactKey);
    if annuals.Length == 0 {
      r := Returns(None);
    } else {
      r := Returns(Some(annuals[0]));
    }
  }

  /**
    The chosen entry is the first candidate, in input order, whose
    (end date, fiscal year) is greatest among the candidates.
   */
  lemma {:induction false} LatestIsFirstMaximum(values: seq<FactEntry>)
    requires LatestAnnualValue(values).Returns? && LatestAnnualValue(values).value.Some?
    ensures exists j :: (IsFirstMaximum(Candidates(values), FactKey, j)
      && LatestAnnualValue(values).value.value == Candidates(values)[j])
  {
    SortDescHead(Candidates(values), FactKey);
  }

  /** Input order, not position in the file, breaks ties: the earlier entry wins. */
  lemma {:induction false} LatestPrefersEarlierOnTie(a: FactEntry, b: FactEntry)
    requires IsAnnual(a) && IsAnnual(b) && FactKey(a) == FactKey(b)
    requires !a.fy.FyInvalid? && !b.fy.FyInvalid?
    ensures LatestAnnualValue([a, b]) == Returns(Some(a))
  {
    AnnualPair(a, b);
    SortDescPair(a, b, FactKey);
    assert !exists e :: e in [a, b] && e.fy.FyInvalid?;
  }

  lemma {:induction false} AnnualPair(a: FactEntry, b: FactEntry)
    requires IsAnnual(a) && IsAnnual(b)
    ensures Candidates([a, b]) == [a, b]
  {
    assert [a, b][1..] == [b];
    assert AnnualEntries([b]) == [b] by { assert [b][1..] == []; }
  }

  // ---------------------------------------------------------------------------
  // get_us_gaap
  // ---------------------------------------------------------------------------

  function UnitKeys(units: UnitGroups): (ks: seq<string>)
    ensures |ks| == |units| && forall i :: 0 <= i < |units| ==> ks[i] == units[i].0
  {
    if units == [] then [] else [units[0].0] + UnitKeys(units[1..])
  }

  /** `units[key]` for a key that is present. */
  function UnitLookup(units: UnitGroups, key: string): seq<FactEntry>
    requires key in UnitKeys(units)
  {
    if units[0].0 == key then units[0].1 else UnitLookup(units[1..], key)
  }

  /** The group of the first key of `priority` present in `units`. */
  function FirstPreferred(units: UnitGroups, priority: seq<string>): Option<seq<FactEntry>> {
    if priority == [] then None
    else if priority[0] in UnitKeys(units) then Some(UnitLookup(units, priority[0]))
    else FirstPreferred(units, priority[1..])
  }

  /**
    The unit group `get_us_gaap` reads: the first of USD, USD/shares, pure
    present, replaced by the first group when that is missing or empty;
    `None` when the tag has no unit groups at all.
   */
  function PreferredUnitGroup(units: UnitGroups): Option<seq<FactEntry>> {
    var preferred := FirstPreferred(units, UNIT_PRIORITY);
    if (preferred.None? || preferred.value == []) && units != [] then Some(units[0].1)
    else preferred
  }

  /** The unit priority, stated case by case. */
  lemma {:induction false} UnitPreference(units: UnitGroups)
    ensures "USD" in UnitKeys(units) && UnitLookup(units, "USD") != []
      ==> PreferredUnitGroup(units) == Some(UnitLookup(units, "USD"))
    ensures "USD" !in UnitKeys(units) && "USD/shares" in UnitKeys(units) && UnitLookup(units, "USD/shares") != []
      ==> PreferredUnitGroup(units) == Some(UnitLookup(units, "USD/shares"))
    ensures "USD" !in UnitKeys(units) && "USD/shares" !in UnitKeys(units) && "pure" in UnitKeys(units)
        && UnitLookup(units, "pure") != []
      ==> PreferredUnitGroup(units) == Some(UnitLookup(units, "pure"))
    ensures (forall i :: 0 <= i < |UNIT_PRIORITY| ==> UNIT_PRIORITY[i] !in UnitKeys(units)) && units != []
      ==> PreferredUnitGroup(units) == Some(units[0].1)
    ensures PreferredUnitGroup(units).None? <==> units == []
  {
    var keys := UnitKeys(units);
    assert UNIT_PRIORITY[1..] == ["USD/shares", "pure"];
    assert UNIT_PRIORITY[1..][1..] == ["pure"];
    assert UNIT_PRIORITY[1..][1..][1..] == [];
    var third := FirstPreferred(units, ["pure"]);
    assert third == if "pure" in keys then Some(UnitLookup(units, "pure")) else None by {
      assert FirstPreferred(units, ["pure"][1..]) == None;
    }
    var second := FirstPreferred(units, ["USD/shares", "pure"]);
    assert second == if "USD/shares" in keys then Some(UnitLookup(units, "USD/shares")) else third;
    assert FirstPreferred(units, UNIT_PRIORITY) == if "USD" in keys then Some(UnitLookup(units, "USD")) else second;
    if units != [] {
      assert units[0].0 in keys;
    }
  }

  /**
    The loop of `get_us_gaap` over the preferred unit keys, stopping at the
    first present one, then the fallback to the first group.
   */
  method ChooseUnitGroup(units: UnitGroups) returns (group: Option<seq<FactEntry>>)
    ensures group == PreferredUnitGroup(units)
  {
    group := None;
    var i := 0;
    while i < |UNIT_PRIORITY|
      invariant 0 <= i <= |UNIT_PRIORITY|
      invariant group.None?
      invariant FirstPreferred(units, UNIT_PRIORITY) == FirstPreferred(units, UNIT_PRIORITY[i..])
    {
      var unitKey := UNIT_PRIORITY[i];
      assert UNIT_PRIORITY[i..][1..] == UNIT_PRIORITY[i + 1..];
      if unitKey in UnitKeys(units) {
        group := Some(UnitLookup(units, unitKey));
        break;
      }
      i := i + 1;
    }
    if (group.None? || group.value == []) && units != [] {
      group := Some(units[0].1);
    }
  }

  /**
    `get_us_gaap`: the `val` of the latest annual entry of the tag's chosen unit
    group; every failure the source catches (missing path, no unit groups,
    no entries, `int(fy)` or `float(val)` raising) gives `None`.
   */
  function GetUsGaap(doc: FactsDoc, tag: string): (r: Option<real>)
    ensures doc.usGaap.None? || tag !in doc.usGaap.value ==> r.None?
  {
    match doc.usGaap
    case None => None
    case Some(tags) =>
      if tag !in tags then None
      else match PreferredUnitGroup(tags[tag])
        case None => None
        case Some(group) =>
          match LatestAnnualValue(group)
          case Raises => None
          case Returns(latest) => if latest.Some? then latest.value.val else None
  }

  /** A present value is the `val` of an entry of the tag's chosen unit group. */
  lemma {:induction false} GetUsGaapFromGroup(doc: FactsDoc, tag: string)
    requires GetUsGaap(doc, tag).Some?
    ensures doc.usGaap.Some? && tag in doc.usGaap.value
    ensures var group := PreferredUnitGroup(doc.usGaap.value[tag]);
      group.Some? && exists e :: e in group.value && e.val == GetUsGaap(doc, tag)
  {
  }

  /**
    A present value is the `val` of the latest candidate of the tag's chosen
    unit group: the earliest candidate with the greatest (end, fy) key.
   */
  lemma {:induction false} GetUsGaapIsLatest(doc: FactsDoc, tag: string)
    requires GetUsGaap(doc, tag).Some?
    ensures doc.usGaap.Some? && tag in doc.usGaap.value && PreferredUnitGroup(doc.usGaap.value[tag]).Some?
    ensures var g := PreferredUnitGroup(doc.usGaap.value[tag]).value;
      exists j :: IsFirstMaximum(Candidates(g), FactKey, j) && Candidates(g)[j].val == GetUsGaap(doc, tag)
  {
    var g := PreferredUnitGroup(doc.usGaap.value[tag]).value;
    LatestIsFirstMaximum(g);
  }

  /**
    Conversely, for a tag with a chosen unit group, `get_us_gaap` is the `val`
    of what `latest_annual_value` picks, and `None` when that raises or finds
    nothing.
   */
  lemma {:induction false} GetUsGaapOfLatest(doc: FactsDoc, tag: string)
    requires doc.usGaap.Some? && tag in doc.usGaap.value && PreferredUnitGroup(doc.usGaap.value[tag]).Some?
    ensures var latest := LatestAnnualValue(PreferredUnitGroup(doc.usGaap.value[tag]).value);
      GetUsGaap(doc, tag) == if latest.Returns? && latest.value.Some? then latest.value.value.val else None
  {
  }

  // ---------------------------------------------------------------------------
  // pull_sec_financials
  // ---------------------------------------------------------------------------

  /** The values `g(t)` of a chain's tags, in order. */
  function TagValues(doc: FactsDoc, tags: seq<string>): (vs: seq<Option<real>>)
    ensures |vs| == |tags| && forall i :: 0 <= i < |tags| ==> vs[i] == GetUsGaap(doc, tags[i])
  {
    seq(|tags|, i requires 0 <= i < |tags| => GetUsGaap(doc, tags[i]))
  }

  /**
    Python's `v1 or v2 or ... or vn` over optional numbers: the first value
    that is present and non-zero, else the last one (`0.0` or `None`).
   */
  function FirstTruthy(vs: seq<Option<real>>): Option<real>
    requires vs != []
  {
    if |vs| == 1 || TruthyNum(vs[0]) then vs[0] else FirstTruthy(vs[1..])
  }

  /** The index whose value a chain yields. */
  function FirstTruthyIndex(vs: seq<Option<real>>): (j: nat)
    requires vs != []
    ensures j < |vs|
    ensures forall i :: 0 <= i < j ==> !TruthyNum(vs[i])
    ensures j < |vs| - 1 ==> TruthyNum(vs[j])
  {
    if |vs| == 1 || TruthyNum(vs[0]) then 0 else 1 + FirstTruthyIndex(vs[1..])
  }

  /**
    The chain yields the first truthy value, or the last value when none is
    truthy.
   */
  lemma {:induction false} FirstTruthyPicks(vs: seq<Option<real>>)
    requires vs != []
    ensures FirstTruthy(vs) == vs[FirstTruthyIndex(vs)]
    ensures (exists j :: 0 <= j < |vs| && TruthyNum(vs[j])) ==> TruthyNum(FirstTruthy(vs))
    ensures (forall j :: 0 <= j < |vs| ==> !TruthyNum(vs[j])) ==> FirstTruthy(vs) == vs[|vs| - 1]
  {
    if |vs| > 1 && !TruthyNum(vs[0]) {
      FirstTruthyPicks(vs[1..]);
      if exists j :: 0 <= j < |vs| && TruthyNum(vs[j]) {
        var j :| 0 <= j < |vs| && TruthyNum(vs[j]);
        assert vs[1..][j - 1] == vs[j];
      }
    }
  }

  /** The value of a fallback chain `g(t1) or g(t2) or ...`. */
  function FallbackChain(doc: FactsDoc, tags: seq<string>): Option<real>
    requires tags != []
  {
    FirstTruthy(TagValues(doc, tags))
  }

  /**
    A chain yields the value of one of its tags: the first truthy one, or the
    last tag's when none before it is truthy.
   */
  lemma {:induction false} FallbackChainPicks(doc: FactsDoc, tags: seq<string>)
    requires tags != []
    ensures exists j :: (0 <= j < |tags| && FallbackChain(doc, tags) == GetUsGaap(doc, tags[j])
      && (forall i :: 0 <= i < j ==> !TruthyNum(GetUsGaap(doc, tags[i])))
      && (j < |tags| - 1 ==> TruthyNum(FallbackChain(doc, tags))))
  {
    var vs := TagValues(doc, tags);
    FirstTruthyPicks(vs);
    var j := FirstTruthyIndex(vs);
    assert FallbackChain(doc, tags) == GetUsGaap(doc, tags[j]);
  }

  /** Python's `sum` over the present debt components (0 when none is present). */
  function DebtSum(components: seq<Option<real>>): real {
    if components == [] then 0.0 else components[0].GetOr(0.0) + DebtSum(components[1..])
  }

  /** `a / b` for a non-zero `b`. */
  function Ratio(numerator: real, denominator: real): (q: real)
    requires denominator != 0.0
    ensures q * denominator == numerator
  {
    numerator / denominator
  }

  /** A margin `x / revenue if revenue and x is not None else None`. */
  function Margin(numerator: Option<real>, revenue: Option<real>): (m: Option<real>)
    ensures m.Some? <==> TruthyNum(revenue) && numerator.Some?
    ensures m.Some? ==> m.value * revenue.value == numerator.value
  {
    if TruthyNum(revenue) && numerator.Some? then Some(Ratio(numerator.value, revenue.value)) else None
  }

  /** `current_ratio`: guarded by the truthiness of both operands. */
  function CurrentRatio(currentAssets: Option<real>, currentLiabilities: Option<real>): (c: Option<real>)
    ensures c.Some? <==> TruthyNum(currentAssets) && TruthyNum(currentLiabilities)
    ensures c.Some? ==> c.value * currentLiabilities.value == currentAssets.value
  {
    if TruthyNum(currentAssets) && TruthyNum(currentLiabilities)
    then Some(Ratio(currentAssets.value, currentLiabilities.value)) else None
  }

  /** `total_debt`: the sum, reported only when it is non-zero. */
  function TotalDebt(sum: real): (t: Option<real>)
    ensures t.Some? <==> sum != 0.0
    ensures t.Some? ==> t.value == sum
  {
    if sum != 0.0 then Some(sum) else None
  }

  /** `debt_to_equity`: the raw sum over a truthy equity, even when the sum is 0. */
  function DebtToEquity(sum: real, equity: Option<real>): (d: Option<real>)
    ensures d.Some? <==> TruthyNum(equity)
    ensures d.Some? ==> d.value * equity.value == sum
  {
    if TruthyNum(equity) then Some(Ratio(sum, equity.value)) else None
  }

  /** The output record built from the resolved fields. */
  function Assemble(
    revenue: Option<real>, grossProfit: Option<real>, operatingIncome: Option<real>,
    netIncome: Option<real>, currentAssets: Option<real>, currentLiabilities: Option<real>,
    equity: Option<real>, cash: Option<real>, ltDebt: Option<real>, currentLtDebt: Option<real>,
    shortTermBorrowings: Option<real>, commercialPaper: Option<real>): (f: Financials)
    ensures f.grossMargin.Some? <==> TruthyNum(revenue) && grossProfit.Some?
    ensures f.operatingMargin.Some? <==> TruthyNum(revenue) && operatingIncome.Some?
    ensures f.currentRatio.Some? <==> TruthyNum(currentAssets) && TruthyNum(currentLiabilities)
    ensures f.debtToEquity.Some? <==> TruthyNum(equity)
    ensures f.grossMargin.Some? ==> f.grossMargin.value * revenue.value == grossProfit.value
    ensures f.operatingMargin.Some? ==> f.operatingMargin.value * revenue.value == operatingIncome.value
    ensures f.currentRatio.Some? ==> f.currentRatio.value * currentLiabilities.value == currentAssets.value
    ensures var sum := DebtSum([ltDebt, currentLtDebt, shortTermBorrowings, commercialPaper]);
      && (f.totalDebt.Some? <==> sum != 0.0)
      && (f.totalDebt.Some? ==> f.totalDebt.value == sum)
      && (f.debtToEquity.Some? ==> f.debtToEquity.value * equity.value == sum)
    ensures f.revenue == revenue && f.grossProfit == grossProfit && f.operatingIncome == operatingIncome
      && f.netIncome == netIncome && f.cash == cash && f.currentAssets == currentAssets
      && f.currentLiabilities == currentLiabilities && f.equity == equity
  {
    var sum := DebtSum([ltDebt, currentLtDebt, shortTermBorrowings, commercialPaper]);
    Financials(revenue, grossProfit, operatingIncome, netIncome, cash, currentAssets, currentLiabilities,
      equity, TotalDebt(sum), Margin(grossProfit, revenue), Margin(operatingIncome, revenue),
      CurrentRatio(currentAssets, currentLiabilities), DebtToEquity(sum, equity))
  }

  /** The debt sum is the sum of the present components. */
  lemma {:induction false} DebtSumOfPresent(a: Option<real>, b: Option<real>, c: Option<real>, d: Option<real>)
    ensures DebtSum([a, b, c, d]) == a.GetOr(0.0) + b.GetOr(0.0) + c.GetOr(0.0) + d.GetOr(0.0)
    ensures a.None? && b.None? && c.None? && d.None? ==> DebtSum([a, b, c, d]) == 0.0
  {
    assert [a, b, c, d][1..] == [b, c, d];
    assert [b, c, d][1..] == [c, d];
    assert [c, d][1..] == [d];
    assert [d][1..] == [];
    assert DebtSum([d]) == d.GetOr(0.0);
    assert DebtSum([c, d]) == c.GetOr(0.0) + d.GetOr(0.0);
    assert DebtSum([b, c, d]) == b.GetOr(0.0) + c.GetOr(0.0) + d.GetOr(0.0);
  }

  /**
    `pull_sec_financials`: `fetched` is the company-facts document, `None` when
    the request failed or the document is falsy; the result is `None` for `{}`.
   */
  function PullSecFinancials(fetched: Option<FactsDoc>): (r: Option<Financials>)
    ensures r.None? <==> fetched.None?
    ensures r.Some? ==> var doc := fetched.value; var f := r.value;
      && f.revenue == FallbackChain(doc, REVENUE_TAGS) && f.grossProfit == FallbackChain(doc, GROSS_PROFIT_TAGS)
      && f.operatingIncome == FallbackChain(doc, OPERATING_INCOME_TAGS) && f.netIncome == FallbackChain(doc, NET_INCOME_TAGS)
      && f.currentAssets == FallbackChain(doc, CURRENT_ASSETS_TAGS)
      && f.currentLiabilities == FallbackChain(doc, CURRENT_LIABILITIES_TAGS)
      && f.equity == FallbackChain(doc, EQUITY_TAGS) && f.cash == FallbackChain(doc, CASH_TAGS)
    ensures r.Some? ==> var doc := fetched.value;
      r.value == Assemble(
        FallbackChain(doc, REVENUE_TAGS), FallbackChain(doc, GROSS_PROFIT_TAGS),
        FallbackChain(doc, OPERATING_INCOME_TAGS), FallbackChain(doc, NET_INCOME_TAGS),
        FallbackChain(doc, CURRENT_ASSETS_TAGS), FallbackChain(doc, CURRENT_LIABILITIES_TAGS),
        FallbackChain(doc, EQUITY_TAGS), FallbackChain(doc, CASH_TAGS),
        FallbackChain(doc, LT_DEBT_TAGS), FallbackChain(doc, CURRENT_LT_DEBT_TAGS),
        FallbackChain(doc, SHORT_TERM_BORROWINGS_TAGS), FallbackChain(doc, COMMERCIAL_PAPER_TAGS))
  {
    match fetched
    case None => None
    case Some(doc) =>
      Some(Assemble(
        FallbackChain(doc, REVENUE_TAGS), FallbackChain(doc, GROSS_PROFIT_TAGS),
        FallbackChain(doc, OPERATING_INCOME_TAGS), FallbackChain(doc, NET_INCOME_TAGS),
        FallbackChain(doc, CURRENT_ASSETS_TAGS), FallbackChain(doc, CURRENT_LIABILITIES_TAGS),
        FallbackChain(doc, EQUITY_TAGS), FallbackChain(doc, CASH_TAGS),
        FallbackChain(doc, LT_DEBT_TAGS), FallbackChain(doc, CURRENT_LT_DEBT_TAGS),
        FallbackChain(doc, SHORT_TERM_BORROWINGS_TAGS), FallbackChain(doc, COMMERCIAL_PAPER_TAGS)))
  }

  /** The thirteen figures of a result, in the order of the dictionary's keys. */
  function Figures(f: Financials): (vs: seq<Option<real>>)
    ensures |vs| == |FINANCIALS_KEYS|
  {
    [f.revenue, f.grossProfit, f.operatingIncome, f.netIncome, f.cash, f.currentAssets,
     f.currentLiabilities, f.equity, f.totalDebt, f.grossMargin, f.operatingMargin,
     f.currentRatio, f.debtToEquity]
  }

  /** The result as the source's dictionary: exactly the 13 keys, or `{}`. */
  function FinancialsJson(r: Option<Financials>): (o: Fields)
    ensures r.None? ==> o == []
    ensures r.Some? ==> Keys(o) == FINANCIALS_KEYS
    ensures r.Some? ==> forall i :: 0 <= i < |o| ==> o[i].1 == NumOrNull(Figures(r.value)[i])
  {
    match r
    case None => []
    case Some(f) =>
      var vals := Figures(f);
      var o := seq(|FINANCIALS_KEYS|, i requires 0 <= i < |FINANCIALS_KEYS| => (FINANCIALS_KEYS[i], NumOrNull(vals[i])));
      KeysFromPositions(o, FINANCIALS_KEYS);
      o
  }

  /**
    A document holding only the first revenue tag still yields that revenue:
    the chain does not need the later tags.
   */
  lemma {:induction false} RevenueFromFirstTag(doc: FactsDoc)
    requires TruthyNum(GetUsGaap(doc, REVENUE_TAGS[0]))
    ensures PullSecFinancials(Some(doc)).value.revenue == GetUsGaap(doc, REVENUE_TAGS[0])
  {
    assert TagValues(doc, REVENUE_TAGS)[0] == GetUsGaap(doc, REVENUE_TAGS[0]);
  }
}
