# Multi-agent financial analysts — verified model of the data and agent core

This project models the deterministic core of a multi-agent financial analysis
pipeline. It does not model the network, the language model or the file system.

- **Resolver.** A ticker is resolved to an SEC CIK through the ticker registry.
- **Fetch hub.** The hub gathers one bundle per company:
  - SEC XBRL "company facts", condensed into a financials dict;
  - a daily price history, condensed into trend metrics;
  - Finnhub company news, condensed into a ranked and enriched sample.
- **Persistence.** The bundle can be saved under a stamped file name.
- **Analyst agents.** Three agents (stock price, news and SEC filings) each
  do the following:
  1. check and pre-process their input;
  2. send a prompt to a language model;
  3. parse its reply with a brace-window fallback;
  4. complete the parsed reply against a fixed key schema.

## How the Python program is represented

- **Python values** become the `PyJson.Json` datatype. A `dict` is an ordered
  association list (`PyJson.Fields`):
  - `.get` returns the value of the first entry with that key;
  - `d[k] = v` replaces that entry in place, or appends a new one at the end,
    which is how Python dicts order their keys.
- **None and exceptions.** `None` becomes `Wrappers.Option`. An exception that
  escapes a function becomes `Wrappers.Outcome.Raises`. An exception the source
  catches becomes whatever value the source returns in its handler.
- **Outside inputs** are parameters of the model:
  - the ticker registry, the SEC document, the price history and the Finnhub
    response, as they were fetched;
  - the language model's reply text;
  - `json.loads` (`parse`) and `json.dumps` (`dumps`);
  - `datetime.fromtimestamp(...).strftime(...)` (`toIso`);
  - the annualised standard deviation of the log returns (`annualize`);
  - the current time stamp (`now`).
- **Floats** are exact reals.
- **Sorting.** Python's stable `sort(..., reverse=True)` and
  `sorted(..., reverse=True)` are modelled once, in `StableSort`. That module
  has a functional insertion sort and an in-place array version proved equal
  to it. The sort is proved to be ordered, a permutation and stable (equal
  keys keep their input order). It is used for:
  - picking the latest annual XBRL fact;
  - ranking news by time stamp.

Where the code's behaviour is surprising, the model follows the code:

- **current_ratio** is reported only when current assets are non-zero, as
  well as current liabilities.
- **total_debt** is reported as null whenever the four debt components sum
  to 0, including when some were reported.
- **debt_to_equity** is reported whenever equity is non-zero, even when
  total_debt is null; it is then 0.

## Model

| member | source | states |
|---|---|---|
| PyJson.Get | stock_agent.py:30-34 | a dict lookup finds a value exactly when the key is present, and the value found is paired with that key in the dict |
| PyJson.Put | stock_agent.py:154-156 | item assignment keeps the key order (appending a new key at the end), maps the key to the new value and leaves every other key's value unchanged |
| PyJson.PutNewKey | stock_agent.py:154-156 | assigning a key that is absent appends exactly one entry at the end |
| PyJson.GetAppend | sec_agent.py:118-121 | when the fill loop appends defaults after the reply's entries, a lookup finds the reply's own value for a key the reply has, and the appended entry otherwise |
| PyJson.Len | finnhub_news.py:32 | a container is falsy exactly when its length is 0 |
| StableSort.SortDesc | sec_financials.py:28 | sorting yields a permutation of the input of the same length |
| StableSort.SortDescOrdered | sec_financials.py:28 | the sorted list is non-increasing in the sort key (reverse=True) |
| StableSort.SortDescStable | finnhub_news.py:34 | the sort is stable: for every key, the items with that key appear in the same order as in the input |
| StableSort.SortDescHead | sec_financials.py:29 | the head of the sorted list is the earliest item with a maximal key |
| StableSort.SortDescPair | sec_financials.py:28 | two items with equal keys, or already descending, keep their order |
| StableSort.TopOfSortDesc | finnhub_news.py:34 | the first m sorted items come from the input, are ordered, no dropped item has a higher key than a kept one, and each key's kept items are a prefix of that key's items |
| StableSort.InsertKeepsOrder | sec_financials.py:28 | inserting into a non-increasing list keeps it non-increasing |
| StableSort.InsertStable | finnhub_news.py:34 | inserting an item places it after every kept item with its key |
| StableSort.InsertInPlace | sec_financials.py:28 | shifting a[..i] right to open a slot puts a[i] after every element whose key is at least its key, leaving the tail alone |
| StableSort.SortDescStep | sec_financials.py:28 | sorting one more element is inserting it into the sorted prefix |
| StableSort.SortDescInPlace | sec_financials.py:28 | the in-place sort of an array leaves it equal to the sorted sequence of its old contents |
| Resolver.Upper | resolver.py:19 | upper-casing keeps the length and maps each character |
| Resolver.ResolveTickerToCik | resolver.py:10-28 | a registry that cannot be fetched gives None, and a resolved ticker is the upper-cased query |
| Resolver.FirstMatchResolves | resolver.py:17-25 | the lookup succeeds exactly when a first case-insensitive match with a CIK exists, and the result is built from the first matching entry |
| Resolver.NoMatchGivesNone | resolver.py:26-28 | a registry without a matching entry resolves to None |
| Resolver.CaseInsensitive | resolver.py:19 | tickers that differ only in letter case resolve to the same company |
| Resolver.CikRoundTrip | resolver.py:20 | the ten-digit padded CIK consists only of digits, has at least ten of them, and reads back as the registry number |
| SecFinancials.AnnualEntries | sec_financials.py:20 | the annual filter keeps exactly the FY or 10-K/20-F facts, with their multiplicities |
| SecFinancials.AnnualEntriesAppend | sec_financials.py:20 | the annual filter keeps the facts in their listed order: filtering a concatenation concatenates the filtered parts |
| SecFinancials.Candidates | sec_financials.py:20-22 | annual facts are the candidates when any exist, otherwise all facts, and no candidates only for no facts |
| SecFinancials.LatestAnnualValue | sec_financials.py:19-29 | the call raises exactly when a candidate's fiscal year is not an integer, gives None exactly for an empty list, and otherwise returns one of the facts |
| SecFinancials.LatestAnnual | sec_financials.py:19-29 | the sort-in-place implementation returns what the functional specification returns |
| SecFinancials.LatestIsFirstMaximum | sec_financials.py:28-29 | the chosen fact is the earliest candidate with the latest (end date, fiscal year) |
| SecFinancials.LatestPrefersEarlierOnTie | sec_financials.py:28-29 | of two annual facts with equal keys, the one listed first wins |
| SecFinancials.UnitPreference | sec_financials.py:36-41 | USD is preferred to USD/shares, then pure, otherwise the first unit group is used, and there is no group only when there are no units |
| SecFinancials.ChooseUnitGroup | sec_financials.py:36-41 | the loop with break picks the group the preference order specifies |
| SecFinancials.GetUsGaap | sec_financials.py:31-45 | a missing us-gaap section or tag gives None |
| SecFinancials.GetUsGaapFromGroup | sec_financials.py:40-43 | a reported value is the value of a fact in the preferred unit group of that tag |
| SecFinancials.GetUsGaapIsLatest | sec_financials.py:31-45 | a reported value comes from a tag with a preferred unit group, and is the value of the earliest candidate of that group with the latest (end date, fiscal year) |
| SecFinancials.GetUsGaapOfLatest | sec_financials.py:31-45 | for a present tag with a preferred unit group, the reported value is exactly the latest annual value of that group, and None when that call gives none or raises |
| SecFinancials.FirstTruthyIndex | sec_financials.py:55-62 | an `or` chain stops at the first truthy value, or at the last one |
| SecFinancials.FirstTruthyPicks | sec_financials.py:55-62 | the `or` chain gives a truthy value whenever any tag has one, and the last tag's value when none does |
| SecFinancials.FallbackChainPicks | sec_financials.py:55-62 | a fallback chain of tags reports the value of some tag, every earlier tag has no truthy value, and a tag other than the last is chosen only for a truthy value |
| SecFinancials.Margin | sec_financials.py:70-71 | a margin is present exactly when revenue is non-zero and the numerator is present, and times revenue it gives the numerator |
| SecFinancials.CurrentRatio | sec_financials.py:72 | the ratio is present exactly when both current assets and liabilities are non-zero, and times liabilities it gives assets |
| SecFinancials.DebtToEquity | sec_financials.py:73 | debt to equity is present exactly when equity is non-zero, and times equity gives the debt sum |
| SecFinancials.DebtSumOfPresent | sec_financials.py:64-68 | the debt sum adds the reported components and treats missing ones as 0 |
| SecFinancials.Assemble | sec_financials.py:68-89 | each derived figure is present exactly under its condition and is the right quotient, and the raw figures pass through unchanged |
| SecFinancials.PullSecFinancials | sec_financials.py:47-89 | no facts document gives the empty result; otherwise each of the eight raw figures is the fallback chain of its own tag list, and the whole result is those chains (with the four debt chains) assembled into the derived figures |
| SecFinancials.RevenueFromFirstTag | sec_financials.py:55 | a truthy value under the first revenue tag is the revenue |
| SecFinancials.FinancialsJson | sec_financials.py:75-89 | the result dict has the thirteen keys in order, each figure as its number or null, and is empty when nothing was fetched |
| PriceTrend.Closes | price_trend.py:14-15 | the close series keeps only rows with a close, and is empty exactly when no row has one |
| PriceTrend.ClosesOne | price_trend.py:14-15 | one row contributes its (date, close) pair exactly when it has a close |
| PriceTrend.ClosesAppend | price_trend.py:14-15 | the closes of concatenated rows are the concatenated closes, so every present close is kept, in row order |
| PriceTrend.MovingAverage | price_trend.py:20-21 | a moving average exists exactly when the series is at least as long as the window |
| PriceTrend.MovingAverageWithinWindow | price_trend.py:20-21 | a moving average lies between the least and greatest close in its window |
| PriceTrend.MovingAverageOfConstant | price_trend.py:20-21 | the moving average of a constant series is that constant |
| PriceTrend.MeanBounds | price_trend.py:20-21 | a mean lies between the bounds of its values |
| PriceTrend.PctChange | price_trend.py:18 | the change is present exactly when the first close is non-zero, and (change + 1) times the first close is the last close |
| PriceTrend.Ratios | price_trend.py:23-24 | there is at most one ratio per adjacent pair of closes, and none for fewer than two closes |
| PriceTrend.RatiosSnoc | price_trend.py:23-24 | appending a close adds exactly one ratio, new over previous, when both are non-zero, and no ratio otherwise, after the existing ones |
| PriceTrend.RatiosExist | price_trend.py:24-25 | there are log returns exactly when some adjacent pair of closes is non-zero |
| PriceTrend.RatiosFromPairs | price_trend.py:24 | every price ratio is the quotient of an adjacent non-zero pair of closes |
| PriceTrend.PullPriceTrend | price_trend.py:8-37 | a fetch error, an empty frame and a frame without closes each give their error, metrics are reported exactly when every ratio has a logarithm, and otherwise the error is the math domain error |
| PriceTrend.PriceMetricsCharacterised | price_trend.py:16-34 | the reported metrics are the last and first close, the percent change between them, SMAs present exactly for long enough series with the mean of the last 20 or 50 closes as value, a volatility exactly when a return exists, and the last at most five closes as the sample |
| PriceTrend.PriceJson | price_trend.py:27-37 | an error report is the single error entry, and a metrics report has the seven keys in order |
| PriceTrend.SampleJson | price_trend.py:34 | the sample is a list of (date, close) pairs in order |
| PriceTrend.MetricsFound | price_trend.py:27-35 | each metric is found under its key, and the dict has neither a days nor an error key |
| FinnhubNews.ObjectFields | finnhub_news.py:34-40 | a list of objects is read as the list of their dicts, in order |
| FinnhubNews.EnrichKeepsItem | finnhub_news.py:35-40 | enrichment adds the ISO time when it can be formatted, leaves the item alone when it cannot, and changes no other key and not the sort key |
| FinnhubNews.EnrichSample | finnhub_news.py:35-40 | the loop over the sample leaves each slot holding its enriched item |
| FinnhubNews.Ranked | finnhub_news.py:34 | the sample holds at most twenty items, and all items when there are fewer |
| FinnhubNews.FinnhubNewsDigest | finnhub_news.py:24-41 | a missing key and a failed fetch each give their error, a digest counts the whole non-empty list, and a non-empty list raises exactly when it holds a non-object |
| FinnhubNews.PullFinnhubNews | finnhub_news.py:24-41 | the implementation with an in-place enrichment loop returns what the digest specification returns |
| FinnhubNews.EmptyListIsError | finnhub_news.py:32-33 | an empty list gives the fetch-failure error, and an empty dict gives a null error |
| FinnhubNews.ErrorDictReported | finnhub_news.py:32-33 | a dict with a truthy error passes that error on |
| FinnhubNews.SampleCharacterised | finnhub_news.py:34-41 | the sample is the newest twenty items, ordered by time, taken stably from the input, and enriched |
| FinnhubNews.RankedIsTop | finnhub_news.py:34 | no dropped item is newer than a kept one, and items with the same time stamp keep their order |
| FinnhubNews.EnrichKeepsOrder | finnhub_news.py:35-40 | enrichment keeps the sample ordered by time |
| CollectRawData.CollectRawData | collect_raw_data.py:16-32 | an unresolved ticker raises; otherwise the bundle holds the resolved company and, for its CIK and ticker, the SEC, price and news results, and it raises exactly when the news step does |
| CollectRawData.CaseReachesSameCompany | collect_raw_data.py:27-29 | tickers that differ only in case give the same company and SEC figures |
| CollectRawData.BundleJson | collect_raw_data.py:32 | the bundle dict has the keys meta, sec, prices and news, in that order, holding the SEC and price dicts |
| CollectRawData.BundleJsonReadsBack | collect_raw_data.py:32 | each of the four bundle keys reads back its own pull's dict |
| CollectRawData.BundleMetaAndNews | collect_raw_data.py:32 | the `meta` entry holds the resolved company dict and the `news` entry the news dict |
| CollectRawData.MetaJson | resolver.py:21-25 | the company dict has the keys ticker, cik and title, in that order, each holding the resolved value |
| CollectRawData.RawFileName | collect_raw_data.py:52 | a non-empty file name given by the caller is used as it is |
| CollectRawData.RawFileNameParts | collect_raw_data.py:51-52 | the default name is the ticker, then `_raw`, then an optional `_` and stamp, then `.json` |
| CollectRawData.RawFileNameInjective | collect_raw_data.py:51-52 | for tickers of the same length, different tickers or stamps give different default names |
| CollectRawData.JoinPath | collect_raw_data.py:53 | the joined path ends with the file name, and an absolute file name replaces the directory |
| CollectRawData.StripTrailingSlashes | collect_raw_data.py:53 | stripping trailing separators leaves a prefix with no trailing separator |
| CollectRawData.PersistPath | collect_raw_data.py:38-56 | the returned path ends with the chosen file name |
| CollectRawData.DefaultPersistPath | collect_raw_data.py:41-53 | with the defaults the path is `reports/<ticker>_raw_<stamp>.json` |
| ReplyJson.FindFirst | stock_agent.py:177 | `find` gives -1 exactly when the character is absent, and otherwise its first position |
| ReplyJson.FindLast | stock_agent.py:177 | `rfind` gives -1 exactly when the character is absent, and otherwise its last position |
| ReplyJson.BraceWindow | stock_agent.py:177-178 | a window exists exactly when both braces occur and the last `}` follows the first `{`, and it starts with `{` and ends with `}` |
| ReplyJson.BraceWindowStrips | stock_agent.py:177-179 | text before the first `{` and after the last `}` is stripped off |
| ReplyJson.NoWindowIffBracesReversed | stock_agent.py:178 | there is no window exactly when every `}` comes before every `{` |
| ReplyJson.SafeParse | stock_agent.py:173-183 | valid JSON is returned as parsed; otherwise the result is the parsed window or the fallback, and the fallback when there is no window |
| ReplyJson.SafeParseRecovers | sec_agent.py:134-144 | a reply that is invalid only because of text around a valid object yields that object |
| ReplyJson.MissingKeys | sec_agent.py:118-121 | the keys filled in are exactly the schema keys the reply lacks |
| ReplyJson.Missing | sec_agent.py:118-121 | the fill adds at most one entry per schema key, and only keys the reply lacks |
| ReplyJson.MissingDefaults | sec_agent.py:118-121 | each missing key is filled with an empty list for list templates and an empty string otherwise |
| ReplyJson.NothingMissing | sec_agent.py:118-121 | a reply holding every schema key gets nothing added |
| ReplyJson.FillStep | sec_agent.py:118-121 | each loop step assigns the default exactly when the key is still absent |
| ReplyJson.CompletedReply | sec_agent.py:118-121 | the completed reply has the reply's keys plus the schema keys, keeps every value the reply gave, and holds the defaults for the rest |
| ReplyJson.CompletedValue | stock_agent.py:154-161 | after completion, reading a schema key with any default gives the reply's value or the schema default |
| ReplyJson.FillMissingKeys | stock_agent.py:154-156 | the fill loop appends the defaults for the missing schema keys and changes nothing else |
| StockAgent.NumField | stock_agent.py:30-34 | a metric is read as a number exactly when it is present and numeric, and then it is the number stored under the key |
| StockAgent.TrendLabel | stock_agent.py:36 | the trend is Up above +5%, Down below -5% and Flat in between, with a missing change counted as 0 |
| StockAgent.TrendMonotone | stock_agent.py:36 | a larger change never gives a lower trend label |
| StockAgent.Crossover | stock_agent.py:40-48 | the crossover is Bullish, Bearish or Neutral as the 20-day SMA is above, below or equal to the 50-day one, and absent when either is missing |
| StockAgent.VolatilityLabel | stock_agent.py:50-58 | volatility is Low below 0.20, Moderate below 0.35 and High otherwise, and absent when missing |
| StockAgent.VolatilityMonotone | stock_agent.py:50-58 | higher volatility never gives a lower tier |
| StockAgent.SignalsOfPriceReport | stock_agent.py:29-69 | the signals derived from a price report's dict are the labels of the report's own metrics, and the window is its sample length |
| StockAgent.SignalsJson | stock_agent.py:62-69 | the signals dict has its six keys in order, each holding its signal |
| StockAgent.SignalsJsonReadsBack | stock_agent.py:62-69 | reading each of the six signal keys from the signals dict gives that signal's value |
| StockAgent.EmptyStockPayload | stock_agent.py:186-191 | the fallback payload has exactly the schema keys, in schema order |
| StockAgent.EmptyPayloadComplete | stock_agent.py:186-191 | the fallback payload already has every schema key |
| StockAgent.CompleteReply | stock_agent.py:154-161 | after the fill loop the three fields are the reply's values or their schema defaults |
| StockAgent.AnalyzeStockPrice | stock_agent.py:115-167 | empty or error input returns the error; otherwise a non-object reply raises, and the result holds the completed reply's fields, the input metrics with the derived signals, and the raw reply |
| NewsAgent.ArticleFields | news_agent.py:93-98 | an article has headline, summary, source and date, in that order, each read with an empty default, the date being the ISO time when truthy and the plain date otherwise |
| NewsAgent.Article | news_agent.py:93-98 | an article has exactly the keys headline, summary, source and date, in that order |
| NewsAgent.Articles | news_agent.py:92-101 | building articles gives at most one article per item |
| NewsAgent.ArticlesRaises | news_agent.py:92-101 | building articles raises exactly when some input item is not a dict |
| NewsAgent.ArticlesAppend | news_agent.py:92-101 | the article list of a concatenation is the concatenation of the article lists |
| NewsAgent.ArticlesOfOne | news_agent.py:100 | a single item gives an article exactly when it has a truthy summary |
| NewsAgent.ArticlesHaveSummaries | news_agent.py:93-100 | every kept article has the four article keys and a truthy summary |
| NewsAgent.NoArticlesIffNoSummaries | news_agent.py:92-103 | there are no articles exactly when every item is a dict without a truthy summary |
| NewsAgent.EmptyNewsPayload | news_agent.py:154-163 | the fallback payload has the schema keys in order, with empty defaults and a neutral sentiment |
| NewsAgent.EmptyNewsPayloadComplete | news_agent.py:154-163 | the fallback payload already has every schema key |
| NewsAgent.AnalyzeNews | news_agent.py:82-151 | a non-dict item raises; no articles gives the empty payload and its dump; otherwise a non-object reply raises, and the result holds the articles, the raw reply and the reply completed with defaults |
| NewsAgent.GetNewsSample | news_agent.py:168-175 | the sample list is taken from `sample` when it is a list, else from `results` when that is a list, and a non-empty sample is always a list stored under one of those two keys |
| NewsAgent.NewsSampleOfDigest | news_agent.py:168-175 | a news digest yields its sample, and an error dict yields nothing |
| SecAgent.MissingFields | sec_agent.py:98 | a required field is listed as missing exactly when it is absent or null |
| SecAgent.MissingFieldsAppend | sec_agent.py:98 | missing fields are listed in the order of the required list |
| SecAgent.ListRepr | sec_agent.py:100 | the printed list is bracketed, and is `[]` exactly for no fields |
| SecAgent.ListReprOne | sec_agent.py:100 | one missing field prints as `['field']` |
| SecAgent.ReprItemsAppend | sec_agent.py:100 | the message lists the missing fields in their order, each in quotes, joined with `, `: the items for two lists are the items of each, joined |
| SecAgent.EmptySecPayload | sec_agent.py:147-157 | the fallback payload has each schema key with its empty default |
| SecAgent.EmptySecPayloadComplete | sec_agent.py:147-157 | the fallback payload already has every schema key |
| SecAgent.FillNonDictLoopPasses | sec_agent.py:119-121 | the key-by-key fill loop on a non-dict reply (the `in` test raises unless it is a list or string, and assigning a key it lacks raises) returns the reply unchanged exactly when it is a list or string containing every key, and raises otherwise |
| SecAgent.FillNonDict | sec_agent.py:119-121 | over the SEC schema, a list or string reply holding every schema key is kept unchanged and any other non-dict reply raises |
| SecAgent.AnalyzeSecFinancials | sec_agent.py:82-127 | missing fields give the error naming them; otherwise an object reply is completed with defaults, and the result holds the input figures and the raw reply |
| SecAgent.EmptyMetricsAllMissing | sec_agent.py:92-98 | with no figures every required field is reported missing |
| SecAgent.NoneMissingIffNoNull | sec_agent.py:92-98 | for a dict with exactly the required keys, nothing is missing exactly when no value is null |
| SecAgent.PulledFinancialsReachModel | sec_agent.py:92-100 | the financials dict passes the required-field check exactly when every figure is reported, and an empty result lacks every field |

## Left out

- HTTP requests, `requests`, the SEC and Finnhub endpoints and their
  headers are not modelled; what they returned is an input (`None` for a failed fetch).
- `fetch_json` in sec_financials.py and finnhub_news.py is not modelled beyond that
  input: its status check and JSON decoding are outside the model.
- yfinance and pandas are not modelled. The price history is an input, either
  a frame of dated rows with optional closes or the message of an exception
  raised while fetching.
- Logarithms, `statistics.pstdev` and `math.sqrt` are one function parameter
  (`annualize`) over the price ratios. The model states only when it is
  applied, and that a ratio without a logarithm makes the call report an error.
- The language-model chains, prompts and templates are not modelled. The model's
  reply is an input string.
- `json.loads` and `json.dumps` are function parameters; JSON syntax is not modelled.
- ISO-date parsing of XBRL `end` values is not modelled: each fact carries the
  parsed date as an ordinal, with `datetime.min` for dates that do not parse.
- `datetime.fromtimestamp(...).strftime(...)` is a function parameter (`toIso`).
  A failed conversion is its `None`, which the source swallows.
- `time.strftime` is not modelled; the stamp is the `now` input.
- Creating the output directory, writing the file and `load_raw_json` are
  file I/O and are not modelled.
- Reading API keys from the environment and `.env` is not modelled; the
  Finnhub key is an input.
- Logging, `print` and the `__main__` example blocks are not modelled.
- Upper-casing is modelled for ASCII letters only; other characters are kept.
- Floats are exact reals: rounding, infinities and NaN are not modelled.
- The in-place enrichment of the news items mutates dicts shared with the
  fetched list. The model enriches copies, so that aliasing is not captured.
- `Path` normalisation in `CollectRawData.JoinPath` is reduced to joining with
  one `/` after stripping trailing separators.
- `SecAgent.ListRepr` matches Python's `repr` only for field names without
  quotes or backslashes. The required field names are such names.
- The optional `days` parameters, ticker hints and target-company hints only
  shape requests and prompts, so they are not modelled.
- FinnhubNews.FinnhubNewsDigest requires every `datetime` in a fetched list to be
  numeric or absent. Other datetimes are outside the model: strings, booleans
  and `null` sort in Python, by Python's own rules or without any comparison,
  and mixed types raise while sorting.
- FinnhubNews.PullFinnhubNews has the same requirement on `datetime`.
- CollectRawData.CollectRawData has the same requirement on the fetched news.
- StockAgent.DeriveSignals requires the compared metrics to be numbers, `null`
  or absent, and the sample to be a list of two-element lists. Other inputs
  are outside the model: some of them give a result in Python (string or
  boolean metrics compare by Python's own rules, a two-character string
  unpacks as a pair), and others raise.
- StockAgent.AnalyzeStockPrice has the same requirement when the input is
  non-empty and has no error key.
- PyJson.Get reads the first entry with a key. `json.loads` keeps the last
  value of a duplicated object key; the model takes each parsed object as
  given and does not model duplicate keys.
- Resolver.ResolveTickerToCik reads a registry title as absent or a string. A
  JSON `null` title, which Python returns as `None`, is read as absent and
  gives `Unknown`.
