# CNC1 catalog scraper, modelled in Dafny

The scraper logs in to the cnc1.ru shop and reads a list of URLs typed into a web form. Two parsers and a login handle do the work:

- The **catalog parser** fetches catalog pages and maps each page to the list of product links on it. The key of each page is the text of its first `h1`, or its URL when it has none.
- The **page parser** fetches product pages and builds one row per URL. One column holds the URL, and each configured CSS selector fills a column with the stripped text of its first match. The rows become a data frame indexed by `URL`.
- The **login handle** posts a fixed login form once. Once logged in, it routes every request through its session.

The web interface contributes four pieces:

- splitting and validating the URL box;
- appending `SHOWALL_1=1` to catalog URLs;
- flattening the catalog result into product URLs;
- prefixing article numbers with `123-`.

Module by module:

- `Common`: `Option`, the exceptions the code can see, call outcomes, and the `str`-or-list URL argument.
- `Text`: Python's `strip`, `split`, `splitlines`, `join` and `in` on strings.
- `Html`: an abstract parsed document. It is a list of elements in document order. `select`, `select_one`, `find` and `get_text(strip=True)` are defined over it. CSS matching and the HTML parser are parameters (`Engine`).
- `Http`: requests and responses, `response.ok`, and a `Network` class. The class records every request sent and answers from a function of the request history.
- `Uri`: `urljoin`, modelled as RFC 3986 reference resolution:
  - the component split of Appendix B;
  - the transform of section 5.2.2, the merge of section 5.2.3 and `remove_dot_segments` of section 5.2.4;
  - recomposition by section 5.3.

  `urljoin` departs from the RFC in a few places, and the model follows `urljoin` there: a link with another scheme is returned as written, a network-path link keeps its path, and an empty query or fragment counts as absent. Parsing and recomposition are proved inverse. The resolution examples the scraper relies on are proved, and so is the fact that an absolute path without dot segments is kept.
- `Tables`: the two result shapes.
  - A data frame: the `pd.DataFrame(rows).set_index('URL')` of the page parser.
  - An insertion-ordered dictionary: the catalog result. Python's `dict` keeps first-insertion order.
- `Auth`: the `CNC1Auth` class.
- `PageParsing`: the `PageParser` class.
- `CatalogParsing`: the `CatalogParser` class.
- `WebUi`: `get_urls`, `_parse_catalog` and `_normalize_article`.

Both parsers are Dafny classes whose `Parse` method runs the source's loop. Each `Parse` is proved against a function of the inputs: `RunPages` for the page parser and `RunCatalog` for the catalog parser. The function gives the rows (or dictionary assignments), the network log and the exception that ended the loop, if any.

The properties proved about those functions are:

- one request per URL, in order;
- each row or entry belongs to its own URL;
- an escaping exception ends the loop for good;
- the key rule and the last-write-wins rule of the catalog dictionary.

Three behaviours of the source deserve a note:

- **Relative links resolve against the requested URL.** Resolution is against the URL that was requested, which is what `_extract_links(soup, url)` receives. It is not against the URL the server redirected to.
- **A per-URL failure does not always produce an empty entry.** The page parser turns `RequestException` and `ValueError` into an empty row. The catalog parser catches only `RequestException`: a `ValueError` ends its loop and propagates to the caller. Any other exception ends either loop.
- **A page parse over no URLs and no earlier rows raises `KeyError`.** The rows have no `URL` column for `set_index` to use. The web interface never calls the parser that way, because it only parses when the URL list is non-empty. So this is recorded as behaviour, not as a defect.

## Model

| member | source | states |
|---|---|---|
| Common.AsList | page_parser.py:21 | a URL string becomes the one-element list; a list is kept |
| Text.Strip | web_ui.py:55 | the result has no whitespace at either end |
| Text.StripSpec | web_ui.py:55 | the result is the slice of the input after its leading whitespace, is empty exactly when the input is all whitespace, and only whitespace follows it in the input |
| Text.StripEmpty | web_ui.py:55 | the result is empty exactly when the input is all whitespace |
| Text.StripSlice | web_ui.py:55 | the result is the slice of the input after its leading whitespace, and only whitespace follows it |
| Text.LeadingSpace | web_ui.py:55 | the length of the maximal run of whitespace at the start |
| Text.TrailingSpace | web_ui.py:55 | the length of the maximal run of whitespace at the end |
| Text.StripStripped | catalog_parser.py:70 | stripping a string without whitespace at its ends changes nothing |
| Text.StripChars | web_ui.py:55 | stripping only removes characters |
| Text.ContainsSuffix | auth.py:42 | a string contains any suffix of itself |
| Text.Split | web_ui.py:55 | `str.split` on one character gives at least one piece, and no piece contains the separator |
| Text.JoinSplit | web_ui.py:55 | joining the pieces with the separator gives the string back |
| Text.SplitAppend | web_ui.py:55 | splitting at a separator splits the two sides independently |
| Text.SplitWithoutSeparator | web_ui.py:54-58 | a string without the separator is its own single piece |
| Text.SplitLines | web_ui.py:53 | no line contains a line-break character |
| Text.LinesFrom | web_ui.py:53 | the lines from a partial line onward contain no line break |
| Text.SplitLinesSingle | web_ui.py:53 | a text without line breaks is one line, or no line when empty |
| Text.SplitLinesNewline | web_ui.py:53 | a `\n` ends the current line and the rest is split on its own |
| Html.Filter | catalog_parser.py:64 | the kept elements are exactly those of the input that satisfy the test, and no more of them than the input has |
| Html.Select | catalog_parser.py:64 | `soup.select(s)`: the elements the selector matches, in document order; `Filter` and `FilterAppend` state what that keeps |
| Html.SelectOne | page_parser.py:53 | `soup.select_one(s)`: the first matching element or none; `SelectOneIsFirstSelected` ties it to `Select` |
| Html.Find | catalog_parser.py:58 | `soup.find(name)`: the first element with that tag or none; `PageKeySpec` states what it gives the page key |
| Html.GetText | page_parser.py:54 | `get_text(strip=True)`: the stripped text pieces concatenated; `GetTextIsStripped` states its ends carry no whitespace |
| Html.FilterAppend | catalog_parser.py:64-66 | filtering one more element at the end adds it at the end when it passes |
| Html.FirstIndex | page_parser.py:53 | the first position that satisfies the test, or the length |
| Html.FirstIsHeadOfFilter | page_parser.py:53 | the first satisfying element is the head of the filtered list |
| Html.SelectOneIsFirstSelected | page_parser.py:53 | `select_one(s)` is the first element of `select(s)`, or none when that is empty |
| Html.ConcatStripped | page_parser.py:54 | concatenating stripped strings gives a stripped string |
| Html.GetTextIsStripped | catalog_parser.py:59 | `get_text(strip=True)` never begins or ends with whitespace |
| Http.Network.constructor | auth.py:22 | a new network has sent nothing |
| Http.Network.Send | page_parser.py:43 | the request is appended to the log, and the answer is the responder's for the history before it |
| Http.IsOk | page_parser.py:30 | `response.ok`: false exactly for the 4xx and 5xx statuses; `RowForSpec` and `PageRowSpec` state which rows follow from it |
| Auth.LoginPayloadKeys | auth.py:29-38 | the login form has exactly its eight fields |
| Auth.LoginPayloadCredentials | auth.py:35-36 | the credentials fill `USER_LOGIN` and `USER_PASSWORD` |
| Auth.LoginPayloadRest | auth.py:29-38 | every field other than the two credentials is the same whatever the credentials are |
| Auth.FormFieldCount | auth.py:29-38 | the eight field names of the form are distinct |
| Auth.LoginPayload | auth.py:29-38 | the form `login` posts; `LoginPayloadKeys`, `LoginPayloadCredentials` and `LoginPayloadRest` state its fields |
| Auth.LoginSucceeded | auth.py:42 | the success test: status 200 and no `Ошибка` in the body; `Login` and `AfterLoginsMonotone` use it |
| Auth.WithDefaultAgent | auth.py:53-54 | `setdefault`: a caller's `User-Agent` is kept, a missing one becomes the browser string, and other headers pass through |
| Auth.HeaderDict.constructor | auth.py:53 | the caller's header dictionary holds the given items |
| Auth.CNC1Auth.constructor | auth.py:15-23 | the credentials are stored, a fresh session is created, the handle is not authenticated, and its default `User-Agent` is the browser string of the login headers |
| Auth.CNC1Auth.Login | auth.py:25-45 | exactly one POST of the fixed form to the login URL with the fixed headers; it returns true, and sets the flag, exactly when the status is 200 and the body lacks the marker; a failure leaves the flag; an exception propagates and changes nothing |
| Auth.CNC1Auth.Get | auth.py:47-55 | before login it sends nothing and returns `None`; after login it sends one GET through the session, with the caller's headers plus a default `User-Agent` written back into the caller's dictionary, and returns the answer |
| Auth.CNC1Auth.GetSession | auth.py:60-64 | the session is returned exactly when the handle is authenticated |
| Auth.CNC1Auth.IsAuthenticated | auth.py:57-58 | `is_authenticated()`: the flag that `Login` sets and `Get` and `GetSession` test; it is a plain read, so its partner is the contract of `Login` |
| Auth.AfterLogin | auth.py:40-45 | the flag after one login attempt: unchanged by an exception, set by a successful answer, never cleared; `AfterLoginsMonotone` states a run of them |
| Auth.AfterLoginsMonotone | auth.py:42-45 | after any run of login attempts the handle is authenticated exactly when it was before or some attempt got a successful answer |
| Tables.AllKeysUniform | page_parser.py:66 | rows that share one key set give a frame with exactly those columns |
| Tables.BuildDataFrame | page_parser.py:64-67 | `pd.DataFrame(data).set_index('URL')`; `BuildDataFrameShape`, `BuildDataFrameOfRows` and `BuildDataFrameAppend` state its shape |
| Tables.AllKeysHas | page_parser.py:66 | a column of `pd.DataFrame(rows)` is exactly a key some row has |
| Tables.BuildDataFrameShape | page_parser.py:64-67 | `KeyError`, and only that, exactly when no row has a `URL` key; otherwise one index entry and one row per row, `URL` not among the columns, and each row's `URL` cell as its index entry |
| Tables.BuildDataFrameOfRows | page_parser.py:64-67 | no rows raise `KeyError`; otherwise the frame has one row per row, indexed by the `URL` values in order, with the other keys as columns |
| Tables.BuildDataFrameAppend | page_parser.py:64-67 | a frame of earlier rows followed by new ones has one row per row, the non-`URL` keys as columns, and the new rows' `URL` values, in order, at the end of its index |
| Tables.Put | catalog_parser.py:43 | `d[k] = v` keeps the dictionary well formed and stores `v` under `k`, changes no other key, and appends `k` to the order only when it is new |
| Tables.PutAll | catalog_parser.py:34-45 | a run of assignments keeps the dictionary well formed, adds exactly the written keys, and keeps the old order as a prefix |
| Tables.PutAllSnoc | catalog_parser.py:43 | one more assignment at the end is one more `Put` |
| Tables.PutAllSize | catalog_parser.py:34-45 | a run adds at most one key per assignment |
| Tables.PutAllLastWins | catalog_parser.py:43 | each key holds the value of its last assignment |
| Tables.PutAllUntouched | catalog_parser.py:43 | a key that is never assigned keeps its value |
| PageParsing.FillRowKeys | page_parser.py:52-54 | the selector loop adds the selector columns to the row's keys |
| PageParsing.FillRowLastWins | page_parser.py:52-54 | a column holds the value of its last selector |
| PageParsing.FillRowKeeps | page_parser.py:50-54 | a key no selector names keeps its value |
| PageParsing.PageRow | page_parser.py:47-56 | the row `_parse_page` appends; `PageRowSpec` states its keys and cells |
| PageParsing.EmptyRow | page_parser.py:58-62 | the row `_add_empty_row` appends; `EmptyRowSpec` states its keys and cells |
| PageParsing.PageRowSpec | page_parser.py:47-56 | a fetched page's row has exactly `URL` and the selector columns; each column holds the stripped text of its selector's first match or `None`; `URL` holds the URL unless a column shadows it |
| PageParsing.EmptyRowSpec | page_parser.py:58-62 | a failed page's row has the same keys, with every selector column `None` |
| PageParsing.SameColumns | page_parser.py:52 | two selector lists with the same entries name the same columns |
| PageParsing.ReorderedSelectors | page_parser.py:52-54 | the row does not depend on the order of the selector dictionary |
| PageParsing.CatchPage | page_parser.py:44-45 | `RequestException` and `ValueError` become `None`; any other exception propagates unchanged; a returned value passes through |
| PageParsing.PageRequest | page_parser.py:38-43 | the request `_fetch_page` sends: a session GET with the default `User-Agent`, or an anonymous GET with no timeout; `Requests` and `PageParser.FetchPage` use it |
| PageParsing.RowFor | page_parser.py:28-34 | the row of one URL from what was fetched: the empty row for `None` or a response that is not ok, and the page's row otherwise; `RowForSpec` states its keys |
| PageParsing.RowForSpec | page_parser.py:28-34 | every row, fetched or failed, has the same keys and carries its own URL |
| PageParsing.Requests | page_parser.py:28-29 | one request per URL, in order |
| PageParsing.FetchedAtPrefix | page_parser.py:28-29 | what a URL fetches depends only on the URLs before it |
| PageParsing.PageStep | page_parser.py:28-34 | one turn of the loop sends one request; an escaping exception adds no row, and otherwise exactly one row is appended |
| PageParsing.PageStepRow | page_parser.py:29-34 | the appended row is the `RowFor` of what was fetched for the URL |
| PageParsing.RunPagesLog | page_parser.py:28-36 | one request per URL in order; the loop stops right after the first request whose exception escapes, and otherwise appends a row for every URL |
| PageParsing.RunPagesRow | page_parser.py:28-34 | the `i`-th row is the row of the `i`-th URL, built from what was fetched for it |
| PageParsing.RunPagesError | page_parser.py:28-29 | an escaping exception belongs to the first URL without a row and is neither `RequestException` nor `ValueError` |
| PageParsing.RunPagesStep | page_parser.py:28-34 | one turn of the loop |
| PageParsing.RunPages | page_parser.py:28-34 | the loop of `parse()` as a function of the URLs, the setup and the log; `RunPagesLog`, `RunPagesRow`, `RunPagesError` and `RunPagesStopped` state what it does |
| PageParsing.RunPagesVisit | page_parser.py:28-34 | one turn of the loop keeps `data`, the log and the exception in step with `RunPages` over one more URL; after an exception or the last URL that is the run over all of them |
| PageParsing.RunPagesStopped | page_parser.py:28-29 | after an escaping exception, later URLs are never requested and add nothing |
| PageParsing.RunPagesRowKeys | page_parser.py:28-34 | every row of a parse has `URL` and the selector columns as keys |
| PageParsing.WidgetRow | page_parser.py:47-56 | one URL whose page has `h1` text `Widget` and no `.price` gives the single row `URL`, `Title = Widget`, `Price = None` |
| PageParsing.PageParser.constructor | page_parser.py:21-24 | a URL string becomes a one-element list, and there are no rows yet |
| PageParsing.PageParser.Parse | page_parser.py:26-36 | `data` gains the rows of `RunPages`; the log gains its requests; the frame of `data` is returned unless an exception escaped, which is then raised |
| PageParsing.PageParser.CollectRows | page_parser.py:28-34 | the loop appends the rows of `RunPages` to `data`, leaves its log, and hands back its exception |
| PageParsing.PageParser.Visit | page_parser.py:29-34 | one turn: one request, then the row of `PageStep` or the exception that escaped |
| PageParsing.PageParser.BuildFrame | page_parser.py:64-67 | the frame built from the rows: `KeyError`, and only that, exactly when no row has a `URL` key; otherwise one index entry and one row per row, `URL` not among the columns, and each row's `URL` cell as its index entry |
| PageParsing.PageParser.FetchPage | page_parser.py:38-45 | one request: through the session when a logged-in handle is present, otherwise anonymous with no timeout; then the catch of `CatchPage` |
| PageParsing.PageParser.ParsePage | page_parser.py:47-56 | appends exactly the page's row |
| PageParsing.PageParser.AddEmptyRow | page_parser.py:58-62 | appends exactly the failed page's row |
| PageParsing.ParseResultEmpty | page_parser.py:36 | a parse that nothing interrupts leaves the rows empty exactly when there were no earlier rows and no URL, and the result is then `KeyError` |
| PageParsing.ParseResult | page_parser.py:36 | otherwise the result is a frame with one row per row, the selector columns, and new index entries that are the URLs in order |
| PageParsing.RunPagesUrls | page_parser.py:28-34 | without an escaping exception there is one row per URL, in order, each holding its own URL |
| PageParsing.KeepsRowKeys | page_parser.py:28-36 | earlier rows with the row keys, followed by a run's rows, all have the row keys |
| CatalogParsing.PageKeySpec | catalog_parser.py:56-59 | a page without `h1` is keyed by its URL; otherwise by the stripped text of its first `h1` |
| CatalogParsing.PageKey | catalog_parser.py:56-59 | `_get_page_key`; `PageKeySpec` states which key it gives |
| CatalogParsing.Href | catalog_parser.py:67-71 | the link one element contributes: its stripped `href` unless missing or blank; `LinksSpec` uses it |
| CatalogParsing.Links | catalog_parser.py:61-75 | `_extract_links` over the selected elements; `LinksSpec` states what it collects |
| CatalogParsing.LinksStep | catalog_parser.py:66-73 | one more element adds its link, when it has one, at the end |
| CatalogParsing.LinksSpec | catalog_parser.py:61-75 | one link per selected element with a non-blank `href`, in order, each resolved against the page URL, with duplicates kept |
| CatalogParsing.CatchCatalog | catalog_parser.py:53-54 | only `RequestException` becomes `None`; `ValueError` and every other exception propagate |
| CatalogParsing.CatalogRequest | catalog_parser.py:47-52 | the request `_fetch_page` sends: a session GET with the default `User-Agent`, or an anonymous GET with a 10-second timeout; `CatalogRequests` and `CatalogParser.FetchPage` use it |
| CatalogParsing.CatalogRequests | catalog_parser.py:34-35 | one request per URL, in order |
| CatalogParsing.CatalogFetchedAtPrefix | catalog_parser.py:34-35 | what a URL fetches depends only on the URLs before it |
| CatalogParsing.Entries | catalog_parser.py:34-43 | one dictionary assignment per visited URL |
| CatalogParsing.EntriesSnoc | catalog_parser.py:34-43 | one more visit adds one more assignment at the end, that visit's entry |
| CatalogParsing.CatalogStep | catalog_parser.py:34-43 | one turn of the loop sends one request; an escaping exception records no visit, and otherwise exactly the visit of this URL is recorded |
| CatalogParsing.RunCatalogVisit | catalog_parser.py:34-43 | the `i`-th visit is of the `i`-th URL and records what `_fetch_page` returned for it |
| CatalogParsing.RunCatalogLog | catalog_parser.py:34-45 | one request per URL in order; the loop stops right after an escaping exception, and otherwise visits every URL |
| CatalogParsing.RunCatalogWrite | catalog_parser.py:34-43 | the `i`-th assignment is the entry of the `i`-th URL, built from what was fetched for it |
| CatalogParsing.RunCatalogError | catalog_parser.py:34-35 | an escaping exception belongs to the first URL without a visit and is never `RequestException` |
| CatalogParsing.RunCatalogStep | catalog_parser.py:34-43 | one turn of the loop |
| CatalogParsing.RunCatalog | catalog_parser.py:34-43 | the loop of `parse()` as a function of the URLs, the setup and the log; `RunCatalogLog`, `RunCatalogWrite`, `RunCatalogError` and `RunCatalogStopped` state what it does |
| CatalogParsing.RunCatalogStopped | catalog_parser.py:34-35 | after an escaping exception, later URLs are never requested |
| CatalogParsing.EntryForSpec | catalog_parser.py:36-43 | a failed fetch or a status other than 200 maps the URL to `[]`; otherwise the page key maps to the page's resolved links |
| CatalogParsing.EntryFor | catalog_parser.py:36-43 | the assignment one URL makes from what was fetched; `EntryForSpec` states it |
| CatalogParsing.LinksTwice | catalog_parser.py:66-73 | two elements with the same link give it twice |
| CatalogParsing.HrefProduct | catalog_parser.py:67-71 | an `href` of `/p/9` is taken as it is |
| CatalogParsing.DuplicateLinksKept | catalog_parser.py:61-75 | two matching anchors with `href="/p/9"` on a page of `https://base/catalog` give `https://base/p/9` twice |
| CatalogParsing.CatalogResult | catalog_parser.py:32-45 | an uninterrupted parse adds at most one key per URL, keeps the old keys in front, and leaves each key with the links of the last URL that wrote it |
| CatalogParsing.CatalogParser.constructor | catalog_parser.py:27-30 | a URL string becomes a one-element list, and the result starts empty |
| CatalogParsing.CatalogParser.Parse | catalog_parser.py:32-45 | the result receives the assignments (`Entries`) of the visits of `RunCatalog`, in order; the log gains its requests; the result is returned unless an exception escaped |
| CatalogParsing.CatalogParser.CollectEntries | catalog_parser.py:34-43 | the loop makes the assignments of `RunCatalog` to the result, leaves its log, and hands back its exception |
| CatalogParsing.CatalogParser.Visit | catalog_parser.py:35-43 | one turn: one request, then the entry of the visit `CatalogStep` records assigned, or the exception that escaped with the result unchanged |
| CatalogParsing.CatalogParser.FetchPage | catalog_parser.py:47-54 | one request: through the session when logged in, otherwise anonymous with a 10-second timeout; then the catch of `CatchCatalog` |
| CatalogParsing.CatalogParser.ExtractLinks | catalog_parser.py:61-75 | the loop collects exactly `Links` of the selected elements |
| CatalogParsing.CatalogParser.AddEmptyResult | catalog_parser.py:77-79 | the URL is mapped to the empty list |
| Uri.IndexOfAny | catalog_parser.py:72 | the first position of a character from the set, or the length |
| Uri.LastSlash | catalog_parser.py:72 | the position of the last `/`, or -1 |
| Uri.IndexOfAnyConcat | catalog_parser.py:72 | the first position in `a + b` is found in `a`, or else in `b` |
| Uri.IndexOfAnyAt | catalog_parser.py:72 | the first position is determined by its defining properties |
| Uri.Parse | catalog_parser.py:72 | the component split of `urlsplit`, by Appendix B of RFC 3986; `ParseWellFormed`, `ParseRecompose` and `RecomposeParse` state it |
| Uri.Recompose | catalog_parser.py:72 | the string of a reference by section 5.3 of RFC 3986; `ParseRecompose` and `RecomposeParse` make it the inverse of `Parse` |
| Uri.FragmentRoundTrip | catalog_parser.py:72 | the fragment is read back from its text |
| Uri.QueryRoundTrip | catalog_parser.py:72 | a query without `#` is read back whole |
| Uri.PathRoundTrip | catalog_parser.py:72 | a path without `?` and `#` is read back whole |
| Uri.AuthorityRoundTrip | catalog_parser.py:72 | an authority without `/`, `?` and `#`, before an empty or absolute path, is read back whole |
| Uri.NoFalseAuthority | catalog_parser.py:72 | without an authority, a well-formed path cannot be read as one |
| Uri.SchemePresent | catalog_parser.py:72 | a scheme without `:`, `/`, `?` and `#` is read back whole |
| Uri.SchemeAbsentSlash | catalog_parser.py:72 | a text starting with `/` has no scheme |
| Uri.SchemeAbsentPath | catalog_parser.py:72 | a path whose first `:` is not before its first `/` is not read as a scheme |
| Uri.SchemeRoundTrip | catalog_parser.py:72 | the scheme of a well-formed reference is read back |
| Uri.ParseRecompose | catalog_parser.py:72 | parsing the text of a well-formed reference gives the reference back |
| Uri.AuthorityPart | catalog_parser.py:72 | after the scheme, the authority of a well-formed reference is read back whole |
| Uri.PathPart | catalog_parser.py:72 | after the authority, the path, query and fragment of a well-formed reference are read back whole |
| Uri.SchemeSplit | catalog_parser.py:72 | the scheme cut leaves no text out |
| Uri.AuthoritySplit | catalog_parser.py:72 | the authority cut leaves no text out |
| Uri.QuerySplit | catalog_parser.py:72 | the query cut leaves no text out |
| Uri.FragmentSplit | catalog_parser.py:72 | the fragment cut leaves no text out |
| Uri.ColonEndsScheme | catalog_parser.py:72 | a `:` before any `/`, `?` or `#` ends the scheme |
| Uri.RecomposeParse | catalog_parser.py:72 | every string is the text of the reference it parses to |
| Uri.TailSplit | catalog_parser.py:72 | the path, query and fragment cuts leave no text out |
| Uri.PathSplit | catalog_parser.py:72 | the path has no `?` or `#`, and what follows starts with one |
| Uri.PathAfterAuthority | catalog_parser.py:72 | after an authority the path is empty or absolute; without one it does not start with `//` |
| Uri.PathWithoutScheme | catalog_parser.py:72 | without a scheme, the path's first `:` or `/` is a `/` or comes first |
| Uri.ParseWellFormed | catalog_parser.py:72 | every string parses to a well-formed reference |
| Uri.Resolve | catalog_parser.py:72 | the target keeps the base's scheme and the reference's fragment; a reference with an authority keeps that authority, its path as written and its query; otherwise the target has the base's authority, an empty path takes the base's path and, lacking a query, the base's query, and a non-empty path keeps the reference's query |
| Uri.Tidy | catalog_parser.py:72 | an empty query or fragment becomes an absent one, and nothing else changes |
| Uri.UrlJoin | catalog_parser.py:72 | `urljoin`: the empty base and empty reference guards, a foreign scheme kept as written, and otherwise `Resolve` of the tidied parses; `JoinResolves` and `JoinOtherScheme` state the two cases and the examples below pin it down |
| Uri.JoinResolves | catalog_parser.py:72 | a non-empty reference without a scheme, or with the base's, joins to the recomposed resolution of the tidied parts |
| Uri.JoinOtherScheme | catalog_parser.py:72 | a non-empty reference with a scheme other than the base's joins to itself |
| Uri.RemoveDotSegments | catalog_parser.py:72 | `remove_dot_segments` of section 5.2.4 of RFC 3986; `PlainPathKept` and the dot-loop lemmas state what it does |
| Uri.Merge | catalog_parser.py:72 | the merge of section 5.2.3: the base path up to its last `/`, or `/` for a base with an authority and no path, followed by the reference path; `MergeParentExample` shows it |
| Uri.SegmentPath | catalog_parser.py:72 | the absolute path of a list of segments is empty or starts with `/`, and is not empty when there are segments |
| Uri.PlainSegmentsTail | catalog_parser.py:72 | in a list of plain segments each one is ordinary, the first and all the rest alike |
| Uri.PlainPathMoves | catalog_parser.py:72 | the loop of section 5.2.4 moves a path without dot segments to the output unchanged |
| Uri.PlainPathKept | catalog_parser.py:72 | `remove_dot_segments` leaves a path without dot segments unchanged |
| Uri.ResolvePlainPath | catalog_parser.py:72 | a reference without an authority whose path is absolute and without dot segments keeps its path, whatever the base |
| Uri.LastSlashAt | catalog_parser.py:72 | the last `/` is determined by its defining properties |
| Uri.DotLoopSegment | catalog_parser.py:72 | an ordinary segment moves to the output whole |
| Uri.DotLoopRuleE | catalog_parser.py:72 | a `/`-led input that no dot rule matches moves everything up to the next `/` to the output |
| Uri.OrdinarySegment | catalog_parser.py:72 | an ordinary segment matches no dot rule and ends at the next `/` |
| Uri.NotDotSegment | catalog_parser.py:72 | an ordinary segment is not a dot segment |
| Uri.SegmentEnd | catalog_parser.py:72 | a segment ends at the next `/` |
| Uri.DotLoopParent | catalog_parser.py:72 | `/../` drops the last output segment |
| Uri.ParseSiteBase | catalog_parser.py:72 | `https://site.example/cat/list` parses into its scheme, host and path |
| Uri.RecomposeSiteBase | catalog_parser.py:72 | the base of the example recomposes to its text |
| Uri.SiteBaseWellFormed | catalog_parser.py:72 | the base of the example is well formed |
| Uri.ParseParentRef | catalog_parser.py:72 | `../item?id=5` parses into a relative path and a query |
| Uri.RecomposeParentRef | catalog_parser.py:72 | the reference of the example recomposes to its text |
| Uri.ParentRefWellFormed | catalog_parser.py:72 | the reference of the example is well formed |
| Uri.MergeParentExample | catalog_parser.py:72 | merging `../item` with `/cat/list` gives `/cat/../item` |
| Uri.ParentDotsExample | catalog_parser.py:72 | removing the dot segments of `/cat/../item` gives `/item` |
| Uri.ParentPathExample | catalog_parser.py:72 | `../item` against `/cat/list` becomes `/item` |
| Uri.RecomposeItemExample | catalog_parser.py:72 | the resolved target recomposes to `https://site.example/item?id=5` |
| Uri.TidyParentExample | catalog_parser.py:72 | neither part of the parent example has an empty query or fragment |
| Uri.ResolveParentExample | catalog_parser.py:72 | `../item?id=5` against `/cat/list` resolves to the path `/item` with query `id=5` |
| Uri.JoinParentExample | catalog_parser.py:72 | `urljoin("https://site.example/cat/list", "../item?id=5")` is `https://site.example/item?id=5` |
| Uri.ParseCatalogBase | catalog_parser.py:72 | `https://base/catalog` parses into its scheme, host and path |
| Uri.RecomposeCatalogBase | catalog_parser.py:72 | the page URL of the example recomposes to its text |
| Uri.CatalogBaseWellFormed | catalog_parser.py:72 | the page URL of the example is well formed |
| Uri.ParseAbsoluteRef | catalog_parser.py:72 | `/p/9` parses into an absolute path alone |
| Uri.AbsolutePathExample | catalog_parser.py:72 | `/p/9` has no dot segments to remove |
| Uri.RecomposeProductExample | catalog_parser.py:72 | the resolved target recomposes to `https://base/p/9` |
| Uri.JoinAbsoluteExample | catalog_parser.py:72 | `urljoin("https://base/catalog", "/p/9")` is `https://base/p/9` |
| Uri.TidyCatalogBase | catalog_parser.py:72 | the page URL of the catalog examples has no empty query or fragment |
| Uri.TidyAbsoluteExample | catalog_parser.py:72 | neither part of the absolute-path example has an empty query or fragment |
| Uri.ResolveAbsoluteExample | catalog_parser.py:72 | `/p/9` against the catalog page resolves to its scheme, its host and the path `/p/9` |
| Uri.ParseBareFragment | catalog_parser.py:72 | `#` parses to an empty fragment alone |
| Uri.TidyBareFragmentExample | catalog_parser.py:72 | tidying drops the empty fragment of `#` |
| Uri.ResolveBareFragmentExample | catalog_parser.py:72 | an empty reference resolves to the base |
| Uri.JoinBareFragmentExample | catalog_parser.py:72 | `urljoin("https://base/catalog", "#")` is `https://base/catalog` |
| Uri.ParseQueryBase | catalog_parser.py:72 | `https://b/c?x=1` parses into its scheme, host, path and query |
| Uri.RecomposeQueryBase | catalog_parser.py:72 | the base with a query recomposes to its text |
| Uri.ParseBareQuery | catalog_parser.py:72 | `?` parses to an empty query alone |
| Uri.TidyBareQueryExample | catalog_parser.py:72 | tidying drops the empty query of `?` |
| Uri.ResolveBareQueryExample | catalog_parser.py:72 | an empty reference without a query takes the base's path and query |
| Uri.JoinBareQueryExample | catalog_parser.py:72 | `urljoin("https://b/c?x=1", "?")` is `https://b/c?x=1` |
| Uri.ParseNetworkRef | catalog_parser.py:72 | `//cdn/x/../y` parses into a host and a path |
| Uri.RecomposeNetworkRef | catalog_parser.py:72 | the network-path reference recomposes to its text |
| Uri.TidyNetworkExample | catalog_parser.py:72 | neither part of the network-path example has an empty query or fragment |
| Uri.ResolveNetworkExample | catalog_parser.py:72 | a network-path reference keeps its host and its path `/x/../y` as written |
| Uri.RecomposeNetworkTarget | catalog_parser.py:72 | the network-path target recomposes to `https://cdn/x/../y` |
| Uri.JoinNetworkPathExample | catalog_parser.py:72 | `urljoin("https://base/catalog", "//cdn/x/../y")` is `https://cdn/x/../y` |
| Uri.ParseMailRef | catalog_parser.py:72 | `mailto:shop@base` parses into a scheme and a path |
| Uri.RecomposeMailRef | catalog_parser.py:72 | the `mailto:` reference recomposes to its text |
| Uri.MailRefWellFormed | catalog_parser.py:72 | the `mailto:` reference is well formed |
| Uri.JoinOtherSchemeExample | catalog_parser.py:72 | `urljoin("https://base/catalog", "mailto:shop@base")` is `mailto:shop@base` |
| WebUi.WebOnly | web_ui.py:62-63 | exactly the candidates that start with `http://` or `https://` |
| WebUi.Candidates | web_ui.py:52-58 | the candidates of the first loop, line by line; `CandidatesShape`, `TwoLines`, `OneLine` and `CommaLikeNewline` state what they are |
| WebUi.Augment | web_ui.py:65-73 | the catalog-mode rewrite; `AugmentSpec` states it |
| WebUi.Validated | web_ui.py:61-74 | the accepted candidates, rewritten; `ValidatedSpec` and `ValidatedAreWebUrls` state them |
| WebUi.Rejected | web_ui.py:75-76 | the candidates `get_urls` warns about; `ValidatedSpec` states them |
| WebUi.GetUrls | web_ui.py:40-78 | the accepted URLs are `Validated` of the candidates of the lines, and the warned-about ones are `Rejected` of them |
| WebUi.CollectCandidates | web_ui.py:52-58 | the first loop collects exactly the candidates of the lines, in order |
| WebUi.CandidatesStep | web_ui.py:53-58 | one more line adds its own candidates at the end |
| WebUi.CheckCandidates | web_ui.py:61-78 | the second loop accepts and rewrites exactly `Validated` of the candidates and rejects exactly `Rejected` of them |
| WebUi.EmptyInputGivesNothing | web_ui.py:48-49 | an empty box gives no URLs and no warnings |
| WebUi.AugmentSpec | web_ui.py:65-73 | the rewrite keeps the URL as a prefix and a web URL web; outside catalog mode it changes nothing; in catalog mode the result has a query and `SHOWALL_1=1`; it is idempotent |
| WebUi.ValidatedSpec | web_ui.py:61-78 | the accepted URLs are the web candidates in order, each rewritten; the rejected ones are exactly the others; together they account for every candidate |
| WebUi.ValidatedAreWebUrls | web_ui.py:63-74 | every accepted URL starts with `http://` or `https://` |
| WebUi.StrippedPiecesAppend | web_ui.py:55 | the pieces of concatenated lists are the pieces of each |
| WebUi.LinePiecesAreCommaPieces | web_ui.py:54-58 | the two branches of the line loop agree: a line without commas is treated like its single comma piece |
| WebUi.TwoLines | web_ui.py:53 | two break-free parts joined by `\n` are two lines |
| WebUi.OneLine | web_ui.py:53 | two break-free parts joined by `,` are one line |
| WebUi.CommaJoinedPieces | web_ui.py:54-55 | a line's candidates are those of its two sides of a comma |
| WebUi.CommaLikeNewline | web_ui.py:52-58 | a comma and a line break separate candidates alike |
| WebUi.StrippedPiecesShape | web_ui.py:55 | every kept piece is trimmed, non-blank and made of characters of one input piece |
| WebUi.CandidatesShape | web_ui.py:52-58 | every candidate is trimmed, non-blank, and free of commas and line breaks |
| WebUi.JoinHasPieces | web_ui.py:55 | every character of a piece occurs in the joined string |
| WebUi.NormalizeCellInjective | web_ui.py:172 | two different cells never normalise to the same value |
| WebUi.NormalizeCell | web_ui.py:171-173 | the lambda of `_normalize_article`; `NormalizeCellInjective` and `NormalizeArticle` state what it does |
| WebUi.NormalizeArticle | web_ui.py:164-175 | index, columns and row keys are kept; a frame that is empty or lacks `Артикул` is returned unchanged; otherwise only `Артикул` changes, each present non-empty value getting the `123-` prefix |
| WebUi.ConcatValuesSpec | web_ui.py:146-152 | the flattened list has as many links as all the lists together; every link of every category is in it, and nothing else is |
| WebUi.FlattenCatalog | web_ui.py:146-152 | the loop yields the lists concatenated in key order |
| WebUi.ParseCatalog | web_ui.py:137-152 | a fresh catalog parser runs over the URLs; without an escaping exception, the result is its lists flattened in key order |

## Left out

- HTTP itself: connections, cookies, redirects and the cookie jar of the session. The network is a function from the request history and the new request to an answer or an exception. `self.session.get(url, headers=headers, **kwargs)` is modelled without extra keyword arguments, because no caller passes any.
- HTML parsing and CSS selector semantics are parameters (`Engine`). An exception from an invalid selector is not modelled.
- The response body is a string. The source hands `response.content` (bytes) to BeautifulSoup, and its encoding detection is not modelled. The login check reads `response.text`.
- pandas: column order, `NaN`, dtypes and the `df.copy()` of `_normalize_article` are not modelled. A missing cell and `None` are both `None`, and a frame's columns are a set.
- `urljoin` is modelled as RFC 3986 resolution with the departures of CPython's `urllib.parse` that the catalog pages meet: the empty-base and empty-reference guards, a reference with another scheme returned as written, a network-path reference keeping its path, and empty queries and fragments counting as absent.
- Uri.Resolve/Uri.UrlJoin: these CPython details are not modelled:
  - the scheme is not lowercased before it is compared with the base's;
  - tab, CR and LF are not removed from the reference, and leading C0 controls and spaces are not stripped;
  - a reference such as `//[bad` makes CPython raise `ValueError` ("Invalid IPv6 URL"). That call is outside the `try` of `_fetch_page`, so the error would end `parse()`; the model's `UrlJoin` always returns;
  - an empty authority, as in `///x`, counts as absent in CPython, but the model keeps it;
  - CPython has its own segment loop in place of section 5.2.4, and it drops the empty segments of a merged path;
  - the `;` parameters of the path are not split off;
  - the scheme characters are not validated;
  - a base scheme outside CPython's `uses_relative` list is not checked for.
- The Streamlit interface: the text box, buttons, progress bars, `StreamlitLogger` messages and `st.warning` texts. `get_urls` takes the box's text as a parameter and returns the rejected URLs instead of warning about them.
- `WebInterface.__init__`, `_init_auth`, `_parse_products`, `run`, `ResultDispatcher.preview_data`, the CSV and Excel exporters, and `config_reader.py`. They are I/O around the core. `_parse_catalog` and `_parse_products` take their selector configuration as parameters.
- Concurrency and the stop button of the interface.
- PageParsing.PageParser.Parse: the choice between session and anonymous request is taken once, when the parse starts. The source asks `is_authenticated()` before every fetch, but nothing in the loop can change the flag, so the two agree.
- PageParsing.PageParser.constructor: requires distinct column names. The source's selectors are a `dict`, whose keys are distinct by construction.
- CatalogParsing.CatalogParser.Parse: the result is returned as a value. The source returns `self.result` itself, so the caller's dictionary is the parser's own, and a second `parse()` on the same parser changes the dictionary an earlier call returned. That aliasing is not modelled.
