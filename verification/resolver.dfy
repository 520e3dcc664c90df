/**
  Ticker resolution (resolver.py): a first-match, case-insensitive search of
  the SEC ticker registry, returning the upper-cased ticker, the CIK as a
  zero-padded decimal string and the company title.
 */
module Resolver {
  import opened Wrappers

  /** The registry's `cik_str` value: normally an integer, possibly text. */
  datatype CikValue = CikNumber(n: int) | CikText(text: string)

  /**
    One registry entry. A `None` field is a key that is missing; for `ticker`
    it also stands for a value that is not a string (neither has `.upper()`).
   */
  datatype RegistryEntry = RegistryEntry(ticker: Option<string>, cikStr: Option<CikValue>, title: Option<string>)

  /** The resolved ticker: exactly the keys ticker, cik, title. */
  datatype ResolvedTicker = ResolvedTicker(ticker: string, cik: string, title: string)

  const CIK_WIDTH: nat := 10
  const UNKNOWN_TITLE := "Unknown"

  /** Python's `str.upper` on ASCII letters. */
  function UpperChar(c: char): char {
    if 'a' <= c <= 'z' then (c as int - 'a' as int + 'A' as int) as char else c
  }

  function Upper(s: string): (r: string)
    ensures |r| == |s|
    ensures forall i :: 0 <= i < |s| ==> r[i] == UpperChar(s[i])
  {
    if s == [] then [] else [UpperChar(s[0])] + Upper(s[1..])
  }

  function DigitChar(d: nat): char
    requires d < 10
  {
    ('0' as int + d) as char
  }

  predicate IsDigit(c: char) {
    '0' <= c <= '9'
  }

  /** The decimal digits of a natural number, without leading zeros. */
  function NatDigits(n: nat): (s: string)
    ensures |s| >= 1
    ensures forall i :: 0 <= i < |s| ==> IsDigit(s[i])
  {
    if n < 10 then [DigitChar(n)] else NatDigits(n / 10) + [DigitChar(n % 10)]
  }

  /** Python's `str(n)` for an integer. */
  function DecimalString(n: int): string {
    if n < 0 then "-" + NatDigits(-n) else NatDigits(n)
  }

  /** Python's `str(x)` for the registry's `cik_str` value. */
  function CikText(v: CikValue): string {
    match v
    case CikNumber(n) => DecimalString(n)
    case CikText(t) => t
  }

  function Zeros(n: nat): (z: string)
    ensures |z| == n && forall i :: 0 <= i < n ==> z[i] == '0'
  {
    if n == 0 then [] else "0" + Zeros(n - 1)
  }

  /**
    Python's `str.zfill(width)`: left-pads with '0' up to `width`, inserting the
    padding after a leading sign; a string at least `width` long is unchanged.
   */
  function ZFill(s: string, width: nat): (r: string)
    ensures |r| == if |s| >= width then |s| else width
    ensures |s| >= width ==> r == s
    ensures |s| < width && (s == [] || (s[0] != '+' && s[0] != '-')) ==> r == Zeros(width - |s|) + s
    ensures |s| < width && s != [] && (s[0] == '+' || s[0] == '-') ==> r == [s[0]] + Zeros(width - |s|) + s[1..]
  {
    if |s| >= width then s
    else if s != [] && (s[0] == '+' || s[0] == '-') then [s[0]] + Zeros(width - |s|) + s[1..]
    else Zeros(width - |s|) + s
  }

  /** The entry matches when the upper-cased tickers agree. */
  predicate Matches(e: RegistryEntry, ticker: string)
    requires e.ticker.Some?
  {
    Upper(e.ticker.value) == Upper(ticker)
  }

  /** The record built from a matching entry; `None` when `cik_str` is missing. */
  function Build(e: RegistryEntry, ticker: string): Option<ResolvedTicker> {
    match e.cikStr
    case None => None
    case Some(c) => Some(ResolvedTicker(Upper(ticker), ZFill(CikText(c), CIK_WIDTH), e.title.GetOr(UNKNOWN_TITLE)))
  }

  /**
    The loop over the registry's entries: the first matching entry decides;
    an entry without a usable ticker before it raises, which the source turns
    into `None`.
   */
  function FindEntry(entries: seq<RegistryEntry>, ticker: string): Option<ResolvedTicker> {
    if entries == [] then None
    else match entries[0].ticker
      case None => None
      case Some(t) =>
        if Upper(t) == Upper(ticker) then Build(entries[0], ticker)
        else FindEntry(entries[1..], ticker)
  }

  /**
    `resolve_ticker_to_cik`: `registry` is the fetched registry's entries in
    iteration order, or `None` when the request or its JSON decoding failed.
   */
  function ResolveTickerToCik(ticker: string, registry: Option<seq<RegistryEntry>>): (r: Option<ResolvedTicker>)
    ensures registry.None? ==> r.None?
    ensures r.Some? ==> r.value.ticker == Upper(ticker)
  {
    match registry
    case None => None
    case Some(entries) =>
      FirstMatchResolves(entries, ticker);
      FindEntry(entries, ticker)
  }

  /** Every entry before `j` has a ticker and does not match. */
  ghost predicate NoEarlierMatch(entries: seq<RegistryEntry>, ticker: string, j: int)
    requires 0 <= j <= |entries|
  {
    forall i :: 0 <= i < j ==> entries[i].ticker.Some? && !Matches(entries[i], ticker)
  }

  /**
    First match wins: the search succeeds exactly when some entry matches, every
    entry before it has a ticker and does not match, and that entry has a
    `cik_str`; the result is built from that entry alone.
   */
  lemma {:induction false} FirstMatchResolves(entries: seq<RegistryEntry>, ticker: string)
    ensures FindEntry(entries, ticker).Some? <==>
      exists j :: 0 <= j < |entries| && NoEarlierMatch(entries, ticker, j) && entries[j].ticker.Some?
        && Matches(entries[j], ticker) && entries[j].cikStr.Some?
    ensures forall j :: (0 <= j < |entries| && NoEarlierMatch(entries, ticker, j) && entries[j].ticker.Some?
        && Matches(entries[j], ticker)) ==> FindEntry(entries, ticker) == Build(entries[j], ticker)
  {
    if FindEntry(entries, ticker).Some? {
      FirstMatchFound(entries, ticker);
    }
    forall j | 0 <= j < |entries| && NoEarlierMatch(entries, ticker, j) && entries[j].ticker.Some?
      && Matches(entries[j], ticker)
      ensures FindEntry(entries, ticker) == Build(entries[j], ticker)
    {
      FirstMatchBuilds(entries, ticker, j);
    }
  }

  /** A successful search stops at a matching entry with a `cik_str`, all entries before it usable and not matching. */
  lemma {:induction false} FirstMatchFound(entries: seq<RegistryEntry>, ticker: string)
    requires FindEntry(entries, ticker).Some?
    ensures exists j :: (0 <= j < |entries| && NoEarlierMatch(entries, ticker, j) && entries[j].ticker.Some?
      && Matches(entries[j], ticker) && entries[j].cikStr.Some?)
  {
    if !Matches(entries[0], ticker) {
      var tail := entries[1..];
      FirstMatchFound(tail, ticker);
      var j :| 0 <= j < |tail| && NoEarlierMatch(tail, ticker, j) && tail[j].ticker.Some?
        && Matches(tail[j], ticker) && tail[j].cikStr.Some?;
      NoEarlierMatchShift(entries, ticker, j + 1);
    } else {
      assert NoEarlierMatch(entries, ticker, 0);
    }
  }

  /** The search returns the record built from the first matching entry. */
  lemma {:induction false} FirstMatchBuilds(entries: seq<RegistryEntry>, ticker: string, j: nat)
    requires j < |entries| && NoEarlierMatch(entries, ticker, j) && entries[j].ticker.Some?
    requires Matches(entries[j], ticker)
    ensures FindEntry(entries, ticker) == Build(entries[j], ticker)
  {
    if j > 0 {
      NoEarlierMatchShift(entries, ticker, j);
      FirstMatchBuilds(entries[1..], ticker, j - 1);
    }
  }

  /** Past the first entry, "no earlier match" is the first entry's check and the rest's. */
  lemma {:induction false} NoEarlierMatchShift(entries: seq<RegistryEntry>, ticker: string, j: int)
    requires 0 < j <= |entries|
    ensures j < |entries| ==> entries[j] == entries[1..][j - 1]
    ensures NoEarlierMatch(entries, ticker, j) <==>
      entries[0].ticker.Some? && !Matches(entries[0], ticker) && NoEarlierMatch(entries[1..], ticker, j - 1)
  {
    var tail := entries[1..];
    if NoEarlierMatch(entries, ticker, j) {
      forall i | 0 <= i < j - 1 ensures tail[i].ticker.Some? && !Matches(tail[i], ticker) {
        assert tail[i] == entries[i + 1];
      }
    }
    if entries[0].ticker.Some? && !Matches(entries[0], ticker) && NoEarlierMatch(tail, ticker, j - 1) {
      forall i | 0 < i < j ensures entries[i].ticker.Some? && !Matches(entries[i], ticker) {
        assert entries[i] == tail[i - 1];
      }
    }
  }

  /** No registry entry matching (all have tickers) gives `None`. */
  lemma {:induction false} NoMatchGivesNone(entries: seq<RegistryEntry>, ticker: string)
    requires forall i :: 0 <= i < |entries| ==> entries[i].ticker.Some? && !Matches(entries[i], ticker)
    ensures ResolveTickerToCik(ticker, Some(entries)) == None
  {
    if entries != [] {
      NoMatchGivesNone(entries[1..], ticker);
      assert forall i :: 0 <= i < |entries[1..]| ==> entries[1..][i] == entries[i + 1];
    }
  }

  /** Matching ignores case: tickers differing only in case resolve identically. */
  lemma {:induction false} CaseInsensitive(t1: string, t2: string, registry: Option<seq<RegistryEntry>>)
    requires Upper(t1) == Upper(t2)
    ensures ResolveTickerToCik(t1, registry) == ResolveTickerToCik(t2, registry)
  {
    if registry.Some? {
      CaseInsensitiveFind(registry.value, t1, t2);
    }
  }

  lemma {:induction false} CaseInsensitiveFind(entries: seq<RegistryEntry>, t1: string, t2: string)
    requires Upper(t1) == Upper(t2)
    ensures FindEntry(entries, t1) == FindEntry(entries, t2)
  {
    if entries != [] {
      CaseInsensitiveFind(entries[1..], t1, t2);
    }
  }

  /** The value of a string of decimal digits (leading zeros allowed). */
  function DigitsValue(s: string): nat
    requires forall i :: 0 <= i < |s| ==> IsDigit(s[i])
  {
    if s == [] then 0
    else
      assert IsDigit(s[|s| - 1]);
      DigitsValue(s[..|s| - 1]) * 10 + (s[|s| - 1] as int - '0' as int)
  }

  lemma {:induction false} NatDigitsValue(n: nat)
    ensures DigitsValue(NatDigits(n)) == n
  {
    if n >= 10 {
      var s := NatDigits(n);
      NatDigitsValue(n / 10);
      assert s[..|s| - 1] == NatDigits(n / 10);
    }
  }

  lemma {:induction false} LeadingZerosValue(k: nat, s: string)
    requires forall i :: 0 <= i < |s| ==> IsDigit(s[i])
    ensures forall i :: 0 <= i < |Zeros(k) + s| ==> IsDigit((Zeros(k) + s)[i])
    ensures DigitsValue(Zeros(k) + s) == DigitsValue(s)
  {
    var z := Zeros(k) + s;
    assert forall i :: 0 <= i < |z| ==> IsDigit(z[i]) by {
      forall i | 0 <= i < |z| ensures IsDigit(z[i]) {
        if i >= k { assert z[i] == s[i - k]; }
      }
    }
    if s == [] {
      assert z == Zeros(k);
      ZerosValue(k);
    } else {
      LeadingZerosValue(k, s[..|s| - 1]);
      assert z[..|z| - 1] == Zeros(k) + s[..|s| - 1];
    }
  }

  lemma {:induction false} ZerosValue(k: nat)
    ensures DigitsValue(Zeros(k)) == 0
  {
    if k > 0 {
      ZerosValue(k - 1);
      assert Zeros(k)[..k - 1] == Zeros(k - 1);
    }
  }

  /**
    For a non-negative integer `cik_str`, the CIK is a digit string of length
    max(10, number of digits) whose value is `cik_str`.
   */
  lemma {:induction false} CikRoundTrip(n: nat)
    ensures var cik := ZFill(CikText(CikNumber(n)), CIK_WIDTH);
      && (forall i :: 0 <= i < |cik| ==> IsDigit(cik[i]))
      && DigitsValue(cik) == n
      && |cik| == if |NatDigits(n)| >= 10 then |NatDigits(n)| else 10
  {
    var d := NatDigits(n);
    NatDigitsValue(n);
    if |d| < 10 {
      LeadingZerosValue(10 - |d|, d);
    }
  }
}
