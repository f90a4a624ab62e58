/** `PageParser` (page_parser.py): for every URL, one row that maps the
    column `URL` to the URL and each selector's column to the stripped text
    of the first element the selector matches, or to `None`; a page that
    cannot be fetched, or whose status is a 4xx or 5xx, gives a row of
    `None`s.  The rows become a data frame indexed by `URL`. */
module PageParsing {
  import opened Common
  import opened Text
  import opened Html
  import opened Http
  import opened Auth
  import opened Tables

  /** The `selectors` dictionary in its iteration order: column name and
      CSS selector. */
  type Selectors = seq<(string, string)>

  /** The column names of the selectors. */
  function Columns(sel: Selectors): set<string>
  {
    set k | 0 <= k < |sel| :: sel[k].0
  }

  /** A dictionary has every key once. */
  predicate DistinctColumns(sel: Selectors)
  {
    forall i, j :: 0 <= i < j < |sel| ==> sel[i].0 != sel[j].0
  }

  /** The keys of every row the parser builds. */
  function RowKeys(sel: Selectors): set<string>
  {
    {UrlColumn} + Columns(sel)
  }

  /** The value `_parse_page` stores for one selector: the text of the first
      match, or `None` when nothing matches. */
  function ColumnValue(engine: Engine, doc: Document, selector: string): Cell
  {
    match SelectOne(engine, doc, selector)
    case None => None
    case Some(e) => Some(GetText(e))
  }

  /** `row` after the column assignments of the selectors, in order. */
  function FillRow(row: Row, sel: Selectors, engine: Engine, doc: Document): Row
  {
    if sel == [] then row
    else
      var (name, selector) := sel[|sel| - 1];
      FillRow(row, sel[..|sel| - 1], engine, doc)[name := ColumnValue(engine, doc, selector)]
  }

  /** The row `_parse_page` appends for a fetched page. */
  function PageRow(url: string, sel: Selectors, engine: Engine, doc: Document): Row
  {
    FillRow(map[UrlColumn := Some(url)], sel, engine, doc)
  }

  /** The row `_add_empty_row` appends. */
  function EmptyRow(url: string, sel: Selectors): Row
  {
    map[UrlColumn := Some(url)] + map c | c in Columns(sel) :: None
  }

  /** The column assignments add the selector columns to the row's keys. */
  lemma {:induction false} FillRowKeys(row: Row, sel: Selectors, engine: Engine, doc: Document)
    ensures FillRow(row, sel, engine, doc).Keys == row.Keys + Columns(sel)
  {
    if sel != [] {
      var init := sel[..|sel| - 1];
      FillRowKeys(row, init, engine, doc);
      assert Columns(sel) == Columns(init) + {sel[|sel| - 1].0} by {
        assert forall i :: 0 <= i < |init| ==> init[i] == sel[i];
      }
    }
  }

  /** A column that is assigned more than once keeps its last value. */
  lemma {:induction false} FillRowLastWins(row: Row, sel: Selectors, engine: Engine, doc: Document, i: nat)
    requires i < |sel|
    requires forall j :: i < j < |sel| ==> sel[j].0 != sel[i].0
    ensures sel[i].0 in FillRow(row, sel, engine, doc)
    ensures FillRow(row, sel, engine, doc)[sel[i].0] == ColumnValue(engine, doc, sel[i].1)
  {
    if i < |sel| - 1 {
      var init := sel[..|sel| - 1];
      FillRowLastWins(row, init, engine, doc, i);
    }
  }

  /** A key that no selector names keeps its value. */
  lemma {:induction false} FillRowKeeps(row: Row, sel: Selectors, engine: Engine, doc: Document, c: string)
    requires c in row
    requires forall j :: 0 <= j < |sel| ==> sel[j].0 != c
    ensures c in FillRow(row, sel, engine, doc)
    ensures FillRow(row, sel, engine, doc)[c] == row[c]
  {
    if sel != [] {
      FillRowKeeps(row, sel[..|sel| - 1], engine, doc, c);
    }
  }

  /** A fetched page's row has exactly the keys `URL` and the selector
      columns.  Each column holds the text of its selector's first match (or
      `None`), whatever the other selectors are; `URL` holds the URL unless a
      selector column is itself called `URL`. */
  lemma PageRowSpec(url: string, sel: Selectors, engine: Engine, doc: Document)
    requires DistinctColumns(sel)
    ensures PageRow(url, sel, engine, doc).Keys == RowKeys(sel)
    ensures forall i :: 0 <= i < |sel| ==> PageRow(url, sel, engine, doc)[sel[i].0] == ColumnValue(engine, doc, sel[i].1)
    ensures UrlColumn !in Columns(sel) ==> PageRow(url, sel, engine, doc)[UrlColumn] == Some(url)
  {
    var row := map[UrlColumn := Some(url)];
    FillRowKeys(row, sel, engine, doc);
    forall i | 0 <= i < |sel| ensures PageRow(url, sel, engine, doc)[sel[i].0] == ColumnValue(engine, doc, sel[i].1) {
      FillRowLastWins(row, sel, engine, doc, i);
    }
    if UrlColumn !in Columns(sel) {
      FillRowKeeps(row, sel, engine, doc, UrlColumn);
    }
  }

  /** A failed page's row has the same keys as a fetched page's row, and
      every selector column is `None`. */
  lemma EmptyRowSpec(url: string, sel: Selectors)
    ensures EmptyRow(url, sel).Keys == RowKeys(sel)
    ensures forall c :: c in Columns(sel) ==> EmptyRow(url, sel)[c] == None
    ensures UrlColumn !in Columns(sel) ==> EmptyRow(url, sel)[UrlColumn] == Some(url)
  {
  }

  /** Two selector lists with the same entries name the same columns. */
  lemma SameColumns(sel1: Selectors, sel2: Selectors)
    requires forall p :: p in sel1 <==> p in sel2
    ensures Columns(sel1) == Columns(sel2)
  {
    forall c | c in Columns(sel1) ensures c in Columns(sel2) {
      var i :| 0 <= i < |sel1| && sel1[i].0 == c;
      assert sel1[i] in sel2;
      var j :| 0 <= j < |sel2| && sel2[j] == sel1[i];
    }
    forall c | c in Columns(sel2) ensures c in Columns(sel1) {
      var j :| 0 <= j < |sel2| && sel2[j].0 == c;
      assert sel2[j] in sel1;
      var i :| 0 <= i < |sel1| && sel1[i] == sel2[j];
    }
  }

  /** The order in which the selectors are listed does not matter: two
      dictionaries with the same entries give the same row. */
  lemma ReorderedSelectors(url: string, sel1: Selectors, sel2: Selectors, engine: Engine, doc: Document)
    requires DistinctColumns(sel1) && DistinctColumns(sel2)
    requires forall p :: p in sel1 <==> p in sel2
    ensures PageRow(url, sel1, engine, doc) == PageRow(url, sel2, engine, doc)
  {
    PageRowSpec(url, sel1, engine, doc);
    PageRowSpec(url, sel2, engine, doc);
    SameColumns(sel1, sel2);
    var r1, r2 := PageRow(url, sel1, engine, doc), PageRow(url, sel2, engine, doc);
    forall c | c in r1 ensures r1[c] == r2[c] {
      if c in Columns(sel1) {
        var i :| 0 <= i < |sel1| && sel1[i].0 == c;
        assert sel1[i] in sel2;
        var j :| 0 <= j < |sel2| && sel2[j] == sel1[i];
        assert r1[c] == ColumnValue(engine, doc, sel1[i].1);
        assert r2[c] == ColumnValue(engine, doc, sel2[j].1);
      }
    }
    assert r1.Keys == r2.Keys;
  }

  /** The request `_fetch_page` sends: through the session, which adds the
      default `User-Agent`, or with the module-level `requests.get`, with no
      headers and no timeout. */
  function PageRequest(url: string, viaSession: bool, agent: string): Request
  {
    if viaSession then Request(GET, url, WithDefaultAgent(map[], agent), map[], ThroughSession)
    else Request(GET, url, map[], map[], Anonymous(None))
  }

  /** The `except (requests.RequestException, ValueError)` of `_fetch_page`:
      those two become `None`, any other exception propagates. */
  function CatchPage(o: Outcome<Option<Response>>): (r: Outcome<Option<Response>>)
    ensures r.Raised? <==> o.Raised? && o.exc != RequestException && o.exc != ValueError
    ensures r.Raised? ==> r == o
    ensures o.Returned? ==> r == o
    ensures o.Raised? && !r.Raised? ==> r == Returned(None)
  {
    match o
    case Returned(_) => o
    case Raised(e) => if e == RequestException || e == ValueError then Returned(None) else o
  }

  /** The row for one URL given what `_fetch_page` returned. */
  function RowFor(url: string, fetched: Option<Response>, sel: Selectors, engine: Engine): Row
  {
    match fetched
    case None => EmptyRow(url, sel)
    case Some(resp) => if !IsOk(resp) then EmptyRow(url, sel) else PageRow(url, sel, engine, engine.parse(resp.body))
  }

  /** Every row has the same keys, and its `URL` is the URL it was built
      for (unless a selector column shadows `URL`). */
  lemma RowForSpec(url: string, fetched: Option<Response>, sel: Selectors, engine: Engine)
    requires DistinctColumns(sel)
    ensures RowFor(url, fetched, sel, engine).Keys == RowKeys(sel)
    ensures UrlColumn !in Columns(sel) ==> RowFor(url, fetched, sel, engine)[UrlColumn] == Some(url)
  {
    EmptyRowSpec(url, sel);
    if fetched.Some? && IsOk(fetched.value) {
      PageRowSpec(url, sel, engine, engine.parse(fetched.value.body));
    }
  }

  /** What a parse depends on besides the URLs: the selectors, whether the
      session was logged in when the parse started, the HTML library and the
      network. */
  datatype Setup = Setup(selectors: Selectors, viaSession: bool, agent: string, engine: Engine, respond: Responder)

  /** The requests sent for `urls`, in order. */
  function Requests(urls: seq<string>, viaSession: bool, agent: string): (r: seq<Request>)
    ensures |r| == |urls|
    ensures forall i :: 0 <= i < |urls| ==> r[i] == PageRequest(urls[i], viaSession, agent)
  {
    if urls == [] then [] else Requests(urls[..|urls| - 1], viaSession, agent) + [PageRequest(urls[|urls| - 1], viaSession, agent)]
  }

  /** What `_fetch_page` returns for the `i`-th URL, once the requests for
      the URLs before it have been sent. */
  function FetchedAt(urls: seq<string>, i: nat, setup: Setup, log0: seq<Request>): Outcome<Option<Response>>
    requires i < |urls|
  {
    CatchPage(Lift(setup.respond(log0 + Requests(urls[..i], setup.viaSession, setup.agent), PageRequest(urls[i], setup.viaSession, setup.agent))))
  }

  /** The effect of the loop of `parse` over `urls`: the rows appended, the
      network log afterwards, and the exception that ended the loop early. */
  datatype PageRun = PageRun(rows: seq<Row>, log: seq<Request>, error: Option<Exception>)

  /** One turn of the loop of `parse` after `prev`: the page of `url` is
      requested; its row is appended, or the exception that escapes
      `_fetch_page` is recorded. */
  function PageStep(prev: PageRun, url: string, setup: Setup): (r: PageRun)
    ensures r.log == prev.log + [PageRequest(url, setup.viaSession, setup.agent)]
    ensures r.error.Some? ==> r.rows == prev.rows
    ensures r.error.None? ==> |r.rows| == |prev.rows| + 1 && r.rows == prev.rows + [r.rows[|prev.rows|]]
  {
    var req := PageRequest(url, setup.viaSession, setup.agent);
    match CatchPage(Lift(setup.respond(prev.log, req)))
    case Raised(e) => PageRun(prev.rows, prev.log + [req], Some(e))
    case Returned(fetched) => PageRun(prev.rows + [RowFor(url, fetched, setup.selectors, setup.engine)], prev.log + [req], None)
  }

  function RunPages(urls: seq<string>, setup: Setup, log0: seq<Request>): PageRun
  {
    if urls == [] then PageRun([], log0, None)
    else
      var prev := RunPages(urls[..|urls| - 1], setup, log0);
      if prev.error.Some? then prev else PageStep(prev, urls[|urls| - 1], setup)
  }

  /** A prefix of the URLs fetches what the whole list fetches there. */
  lemma FetchedAtPrefix(urls: seq<string>, n: nat, i: nat, setup: Setup, log0: seq<Request>)
    requires i < n <= |urls|
    ensures FetchedAt(urls[..n], i, setup, log0) == FetchedAt(urls, i, setup, log0)
  {
    assert urls[..n][..i] == urls[..i];
  }

  /** The loop of `parse` sends one request per URL, in the order of the
      URLs, and stops right after the first request whose exception
      escapes; without one it appends a row for every URL. */
  lemma {:induction false} RunPagesLog(urls: seq<string>, setup: Setup, log0: seq<Request>)
    ensures var run := RunPages(urls, setup, log0);
      && |run.rows| <= |urls|
      && (run.error.None? <==> |run.rows| == |urls|)
      && |run.log| == |log0| + (if run.error.None? then |urls| else |run.rows| + 1)
      && run.log == log0 + Requests(urls[..|run.log| - |log0|], setup.viaSession, setup.agent)
  {
    if urls != [] {
      var init := urls[..|urls| - 1];
      RunPagesLog(init, setup, log0);
      var prev := RunPages(init, setup, log0);
      if prev.error.Some? {
        var n := |prev.log| - |log0|;
        assert init[..n] == urls[..n];
      } else {
        assert init[..|init|] == init;
        assert urls[..|urls|] == urls;
      }
    }
  }

  /** Each row of the loop is the row of its own URL, built from what
      `_fetch_page` returned for it. */
  lemma {:induction false} RunPagesRow(urls: seq<string>, setup: Setup, log0: seq<Request>, i: nat)
    requires i < |RunPages(urls, setup, log0).rows|
    ensures i < |urls|
    ensures FetchedAt(urls, i, setup, log0).Returned?
    ensures RunPages(urls, setup, log0).rows[i]
            == RowFor(urls[i], FetchedAt(urls, i, setup, log0).value, setup.selectors, setup.engine)
  {
    assert urls != [];
    var init := urls[..|urls| - 1];
    var prev := RunPages(init, setup, log0);
    var run := RunPages(urls, setup, log0);
    assert run == if prev.error.Some? then prev else PageStep(prev, urls[|urls| - 1], setup);
    if i < |prev.rows| {
      assert run.rows[i] == prev.rows[i];
      RunPagesRow(init, setup, log0, i);
      FetchedAtPrefix(urls, |init|, i, setup, log0);
    } else {
      RunPagesLog(init, setup, log0);
      assert prev.log == log0 + Requests(init, setup.viaSession, setup.agent) by {
        assert init[..|init|] == init;
      }
      assert urls[..i] == init;
      PageStepRow(prev, urls[i], setup);
    }
  }

  /** A step that appends a row appends the row of what `_fetch_page`
      returned. */
  lemma PageStepRow(prev: PageRun, url: string, setup: Setup)
    requires |PageStep(prev, url, setup).rows| == |prev.rows| + 1
    ensures var fetched := CatchPage(Lift(setup.respond(prev.log, PageRequest(url, setup.viaSession, setup.agent))));
      && fetched.Returned?
      && PageStep(prev, url, setup).rows[|prev.rows|] == RowFor(url, fetched.value, setup.selectors, setup.engine)
  {
  }

  /** An exception that escapes the loop is the one `_fetch_page` let through
      for the first URL without a row, so it is never a `RequestException`
      or a `ValueError`. */
  lemma {:induction false} RunPagesError(urls: seq<string>, setup: Setup, log0: seq<Request>)
    ensures var run := RunPages(urls, setup, log0);
      run.error.Some? ==>
        && |run.rows| < |urls|
        && FetchedAt(urls, |run.rows|, setup, log0) == Raised(run.error.value)
        && run.error.value != RequestException && run.error.value != ValueError
  {
    if urls != [] {
      var init := urls[..|urls| - 1];
      RunPagesError(init, setup, log0);
      RunPagesLog(init, setup, log0);
      var prev := RunPages(init, setup, log0);
      if prev.error.Some? {
        FetchedAtPrefix(urls, |init|, |prev.rows|, setup, log0);
      } else {
        assert init[..|init|] == init;
        assert urls[..|init|] == init;
      }
    }
  }

  /** One turn of the loop of `parse`, as the loop itself takes it. */
  lemma RunPagesStep(urls: seq<string>, i: nat, setup: Setup, log0: seq<Request>)
    requires i < |urls|
    requires RunPages(urls[..i], setup, log0).error.None?
    ensures RunPages(urls[..i + 1], setup, log0) == PageStep(RunPages(urls[..i], setup, log0), urls[i], setup)
  {
    assert urls[..i + 1][..i] == urls[..i];
  }

  /** The bookkeeping of one turn of the loop of `parse`: a turn that
      appends the rows of `PageStep` to `data` and leaves the network log and
      the exception of that step keeps `data` and the log in step with
      `RunPages` over one more URL; after an exception, or after the last
      URL, that is the run over all of them. */
  lemma RunPagesVisit(urls: seq<string>, i: nat, setup: Setup, log0: seq<Request>,
                      data0: seq<Row>, before: seq<Row>, after: seq<Row>, log: seq<Request>, e: Option<Exception>)
    requires i < |urls|
    requires RunPages(urls[..i], setup, log0).error.None?
    requires before == data0 + RunPages(urls[..i], setup, log0).rows
    requires var prev := RunPages(urls[..i], setup, log0);
      var next := PageStep(prev, urls[i], setup);
      after == before + next.rows[|prev.rows|..] && log == next.log && e == next.error
    ensures var run := RunPages(urls[..i + 1], setup, log0);
      after == data0 + run.rows && log == run.log && e == run.error
    ensures e.Some? || i + 1 == |urls| ==> RunPages(urls, setup, log0) == RunPages(urls[..i + 1], setup, log0)
  {
    var prev := RunPages(urls[..i], setup, log0);
    RunPagesStep(urls, i, setup, log0);
    var run := RunPages(urls[..i + 1], setup, log0);
    assert prev.rows + run.rows[|prev.rows|..] == run.rows;
    if e.Some? {
      RunPagesStopped(urls, i + 1, setup, log0);
    } else if i + 1 == |urls| {
      assert urls[..i + 1] == urls;
    }
  }

  /** An escaping exception ends the loop for good: the URLs after it are
      never requested and add no rows. */
  lemma {:induction false} RunPagesStopped(urls: seq<string>, n: nat, setup: Setup, log0: seq<Request>)
    requires n <= |urls|
    requires RunPages(urls[..n], setup, log0).error.Some?
    ensures RunPages(urls, setup, log0) == RunPages(urls[..n], setup, log0)
    decreases |urls|
  {
    if n < |urls| {
      var init := urls[..|urls| - 1];
      assert init[..n] == urls[..n];
      RunPagesStopped(init, n, setup, log0);
    } else {
      assert urls[..n] == urls;
    }
  }


  /** The rows of any parse all have the keys `URL` and the selector
      columns. */
  lemma RunPagesRowKeys(urls: seq<string>, setup: Setup, log0: seq<Request>)
    requires DistinctColumns(setup.selectors)
    ensures forall i :: 0 <= i < |RunPages(urls, setup, log0).rows| ==>
      RunPages(urls, setup, log0).rows[i].Keys == RowKeys(setup.selectors)
  {
    var run := RunPages(urls, setup, log0);
    forall i | 0 <= i < |run.rows| ensures run.rows[i].Keys == RowKeys(setup.selectors) {
      RunPagesRow(urls, setup, log0, i);
      RowForSpec(urls[i], FetchedAt(urls, i, setup, log0).value, setup.selectors, setup.engine);
    }
  }

  /** One URL whose page has an `h1` reading `Widget` and no `.price`
      element gives one row: the URL, `Title` set to `Widget` and `Price`
      set to `None`. */
  lemma WidgetRow(setup: Setup, log0: seq<Request>, resp: Response, h1: Element)
    requires setup.selectors == [("Title", "h1"), ("Price", ".price")]
    requires setup.respond(log0, PageRequest("https://x/1", setup.viaSession, setup.agent)) == Returned(resp)
    requires IsOk(resp)
    requires SelectOne(setup.engine, setup.engine.parse(resp.body), "h1") == Some(h1)
    requires GetText(h1) == "Widget"
    requires SelectOne(setup.engine, setup.engine.parse(resp.body), ".price") == None
    ensures RunPages(["https://x/1"], setup, log0).error.None?
    ensures RunPages(["https://x/1"], setup, log0).rows
            == [map["URL" := Some("https://x/1"), "Title" := Some("Widget"), "Price" := None]]
  {
    var urls := ["https://x/1"];
    assert urls[..0] == [];
    var doc := setup.engine.parse(resp.body);
    var sel := setup.selectors;
    assert sel[..1] == [("Title", "h1")];
    assert sel[..1][..0] == [];
    var row := map[UrlColumn := Some("https://x/1")];
    assert ColumnValue(setup.engine, doc, "h1") == Some("Widget");
    assert ColumnValue(setup.engine, doc, ".price") == None;
    assert FillRow(row, sel[..1], setup.engine, doc) == row["Title" := Some("Widget")];
    assert FillRow(row, sel, setup.engine, doc) == row["Title" := Some("Widget")]["Price" := None];
  }

  class PageParser {
    const urls: seq<string>
    const selectors: Selectors
    const auth: CNC1Auth?
    var data: seq<Row>

    /** Every row collected so far has the keys `URL` and the selector
        columns. */
    predicate Valid()
      reads this
    {
      && DistinctColumns(selectors)
      && forall i :: 0 <= i < |data| ==> data[i].Keys == RowKeys(selectors)
    }

    /** A single URL string becomes a one-element list; no rows yet. */
    constructor (urls: UrlArg, selectors: Selectors, auth: CNC1Auth?)
      requires DistinctColumns(selectors)
      ensures this.urls == AsList(urls) && this.selectors == selectors && this.auth == auth
      ensures data == []
      ensures Valid()
    {
      this.urls := AsList(urls);
      this.selectors := selectors;
      this.auth := auth;
      data := [];
    }

    /** The session is used exactly when a logged-in handle was given. */
    function ViaSession(): bool
      reads this, auth
    {
      auth != null && auth.authenticated
    }

    /** The `User-Agent` the handle's session adds to requests that have
        none; it plays no part in a request sent without the session. */
    function Agent(): string
      reads this, auth
    {
      if auth != null then auth.userAgent else []
    }

    /** `parse()`: the rows of `RunPages` are appended to `data`; the data
        frame of all of `data` is returned unless an exception escaped. */
    method Parse(net: Network, engine: Engine) returns (r: Outcome<Frame>)
      requires Valid()
      modifies this`data, net`log
      ensures Valid()
      ensures var run := RunPages(urls, Setup(selectors, ViaSession(), Agent(), engine, net.respond), old(net.log));
        && data == old(data) + run.rows
        && net.log == run.log
        && (run.error.Some? ==> r == Raised(run.error.value))
        && (run.error.None? ==> r == BuildDataFrame(data))
    {
      ghost var setup := Setup(selectors, ViaSession(), Agent(), engine, net.respond);
      var e := CollectRows(net, engine);
      KeepsRowKeys(old(data), urls, setup, old(net.log));
      if e.Some? {
        return Raised(e.value);
      }
      r := BuildFrame();
    }

    /** The loop of `parse()` over the URLs: it appends the rows of
        `RunPages` and hands back the exception that ended it early. */
    method CollectRows(net: Network, engine: Engine) returns (e: Option<Exception>)
      modifies this`data, net`log
      ensures var run := RunPages(urls, Setup(selectors, ViaSession(), Agent(), engine, net.respond), old(net.log));
        && data == old(data) + run.rows
        && net.log == run.log
        && e == run.error
    {
      ghost var setup := Setup(selectors, ViaSession(), Agent(), engine, net.respond);
      ghost var log0 := net.log;
      ghost var run := RunPages([], setup, log0);
      var i := 0;
      while i < |urls|
        invariant 0 <= i <= |urls|
        invariant run == RunPages(urls[..i], setup, log0)
        invariant i == |urls| ==> run == RunPages(urls, setup, log0)
        invariant run.error.None?
        invariant data == old(data) + run.rows
        invariant net.log == run.log
      {
        ghost var before := data;
        e := Visit(urls[i], net, engine, run);
        RunPagesVisit(urls, i, setup, log0, old(data), before, data, net.log, e);
        run := RunPages(urls[..i + 1], setup, log0);
        if e.Some? {
          return;
        }
        i := i + 1;
      }
      e := None;
    }

    /** The body of the loop of `parse()` for one URL: `_fetch_page`, then
        `_add_empty_row` or `_parse_page`; an exception that escapes the
        fetch is handed back instead. */
    method Visit(url: string, net: Network, engine: Engine, ghost prev: PageRun) returns (e: Option<Exception>)
      requires net.log == prev.log
      modifies this`data, net`log
      ensures var next := PageStep(prev, url, Setup(selectors, ViaSession(), Agent(), engine, net.respond));
        && net.log == next.log
        && e == next.error
        && data == old(data) + next.rows[|prev.rows|..]
    {
      var response := FetchPage(url, net);
      match response
      case Raised(exc) =>
        e := Some(exc);
      case Returned(fetched) =>
        if fetched.None? || !IsOk(fetched.value) {
          AddEmptyRow(url);
        } else {
          ParsePage(url, fetched.value, engine);
        }
        e := None;
    }

    /** `_build_dataframe()`: `KeyError` exactly when no row has a `URL`
        key, and otherwise a frame indexed by the rows' URLs. */
    method BuildFrame() returns (r: Outcome<Frame>)
      ensures r == BuildDataFrame(data)
      ensures r.Raised? <==> forall i :: 0 <= i < |data| ==> UrlColumn !in data[i]
      ensures r.Raised? ==> r.exc == KeyError
      ensures r.Returned? ==>
        && |r.value.index| == |r.value.rows| == |data|
        && UrlColumn !in r.value.columns
        && forall i :: 0 <= i < |data| && UrlColumn in data[i] ==> r.value.index[i] == data[i][UrlColumn]
    {
      r := BuildDataFrame(data);
      BuildDataFrameShape(data);
    }

    /** `_fetch_page(url)`: the request of `PageRequest`, with `CatchPage`
        applied to its answer. */
    method FetchPage(url: string, net: Network) returns (r: Outcome<Option<Response>>)
      modifies net`log
      ensures net.log == old(net.log) + [PageRequest(url, ViaSession(), Agent())]
      ensures r == CatchPage(Lift(net.respond(old(net.log), PageRequest(url, ViaSession(), Agent()))))
    {
      var reply: Outcome<Option<Response>>;
      if auth != null && auth.IsAuthenticated() {
        reply := auth.Get(url, null, net);
      } else {
        var answer := net.Send(Request(GET, url, map[], map[], Anonymous(None)));
        reply := Lift(answer);
      }
      r := CatchPage(reply);
    }

    /** `_parse_page(url, response)`: appends the row of the page. */
    method ParsePage(url: string, response: Response, engine: Engine)
      modifies this`data
      ensures data == old(data) + [PageRow(url, selectors, engine, engine.parse(response.body))]
    {
      var soup := engine.parse(response.body);
      var row: Row := map[UrlColumn := Some(url)];
      var k := 0;
      while k < |selectors|
        invariant 0 <= k <= |selectors|
        invariant row == FillRow(map[UrlColumn := Some(url)], selectors[..k], engine, soup)
      {
        var (name, selector) := selectors[k];
        var element := SelectOne(engine, soup, selector);
        row := row[name := if element.Some? then Some(GetText(element.value)) else None];
        assert selectors[..k + 1][..k] == selectors[..k];
        k := k + 1;
      }
      assert selectors[..|selectors|] == selectors;
      data := data + [row];
    }

    /** `_add_empty_row(url)`: appends the row of a failed page. */
    method AddEmptyRow(url: string)
      modifies this`data
      ensures data == old(data) + [EmptyRow(url, selectors)]
    {
      var row: Row := map[UrlColumn := Some(url)];
      row := row + map c | c in Columns(selectors) :: None;
      data := data + [row];
    }
  }

  /** Rows with the keys `URL` and the selector columns, followed by the
      rows of a parse, all have those keys. */
  lemma KeepsRowKeys(old_data: seq<Row>, urls: seq<string>, setup: Setup, log0: seq<Request>)
    requires DistinctColumns(setup.selectors)
    requires forall i :: 0 <= i < |old_data| ==> old_data[i].Keys == RowKeys(setup.selectors)
    ensures var data := old_data + RunPages(urls, setup, log0).rows;
            forall i :: 0 <= i < |data| ==> data[i].Keys == RowKeys(setup.selectors)
  {
    RunPagesRowKeys(urls, setup, log0);
    var data := old_data + RunPages(urls, setup, log0).rows;
    forall i | 0 <= i < |data| ensures data[i].Keys == RowKeys(setup.selectors) {
      if i >= |old_data| {
        assert data[i] == RunPages(urls, setup, log0).rows[i - |old_data|];
      }
    }
  }

  /** A parse that nothing interrupts leaves `data` empty exactly when there
      were no earlier rows and no URL, and then building the frame raises
      pandas' `KeyError`. */
  lemma ParseResultEmpty(old_data: seq<Row>, urls: seq<string>, setup: Setup, log0: seq<Request>)
    requires RunPages(urls, setup, log0).error.None?
    ensures var data := old_data + RunPages(urls, setup, log0).rows;
      && (data == [] <==> old_data == [] && urls == [])
      && (data == [] ==> BuildDataFrame(data) == Raised(KeyError))
  {
    RunPagesLog(urls, setup, log0);
  }

  /** What a parse returns when nothing escapes and there is a row: a frame
      with one row per row of `data`, whose columns are the selector columns
      and whose index ends with the URLs, in order. */
  lemma ParseResult(old_data: seq<Row>, urls: seq<string>, setup: Setup, log0: seq<Request>)
    requires DistinctColumns(setup.selectors)
    requires UrlColumn !in Columns(setup.selectors)
    requires forall i :: 0 <= i < |old_data| ==> old_data[i].Keys == RowKeys(setup.selectors)
    requires RunPages(urls, setup, log0).error.None?
    requires old_data != [] || urls != []
    ensures var data := old_data + RunPages(urls, setup, log0).rows;
      && BuildDataFrame(data).Returned?
      && |BuildDataFrame(data).value.index| == |data|
      && BuildDataFrame(data).value.columns == Columns(setup.selectors)
      && BuildDataFrame(data).value.index[|old_data|..] == seq(|urls|, i requires 0 <= i < |urls| => Some(urls[i]))
  {
    RunPagesRowKeys(urls, setup, log0);
    RunPagesUrls(urls, setup, log0);
    var tail := seq(|urls|, i requires 0 <= i < |urls| => Some(urls[i]));
    BuildDataFrameAppend(old_data, RunPages(urls, setup, log0).rows, RowKeys(setup.selectors), tail);
    assert RowKeys(setup.selectors) - {UrlColumn} == Columns(setup.selectors);
  }

  /** A parse that nothing interrupts gives one row per URL, in order, each
      with its own URL in the `URL` column. */
  lemma RunPagesUrls(urls: seq<string>, setup: Setup, log0: seq<Request>)
    requires DistinctColumns(setup.selectors)
    requires UrlColumn !in Columns(setup.selectors)
    requires RunPages(urls, setup, log0).error.None?
    ensures |RunPages(urls, setup, log0).rows| == |urls|
    ensures forall i :: 0 <= i < |urls| ==>
      UrlColumn in RunPages(urls, setup, log0).rows[i] && RunPages(urls, setup, log0).rows[i][UrlColumn] == Some(urls[i])
  {
    RunPagesLog(urls, setup, log0);
    forall i | 0 <= i < |urls|
      ensures UrlColumn in RunPages(urls, setup, log0).rows[i] && RunPages(urls, setup, log0).rows[i][UrlColumn] == Some(urls[i])
    {
      RunPagesRow(urls, setup, log0, i);
      RowForSpec(urls[i], FetchedAt(urls, i, setup, log0).value, setup.selectors, setup.engine);
    }
  }
}
