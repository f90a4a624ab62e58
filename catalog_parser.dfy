/** `CatalogParser` (catalog_parser.py): for every URL, one entry of a
    dictionary whose key is the text of the page's first `h1` (or the URL
    when there is none) and whose value is the list of absolute links the
    link selector finds on the page; a page that cannot be fetched, or whose
    status is not 200, gives the URL with an empty list. */
module CatalogParsing {
  import opened Common
  import opened Text
  import opened Html
  import opened Http
  import opened Auth
  import opened Tables
  import opened Uri

  /** The timeout, in seconds, of an anonymous catalog request. */
  const CatalogTimeout := 10

  /** `_get_page_key`: the text of the first `h1`, or the URL. */
  function PageKey(doc: Document, url: string): string
  {
    match Find(doc, "h1")
    case None => url
    case Some(h) => GetText(h)
  }

  /** A page without `h1` is keyed by its URL; a page with `h1`s is keyed by
      the stripped text of the first of them, which therefore never begins or
      ends with whitespace. */
  lemma PageKeySpec(doc: Document, url: string)
    ensures (forall e :: e in doc.elements ==> e.tag != "h1") ==> PageKey(doc, url) == url
    ensures forall k :: 0 <= k < |doc.elements| && doc.elements[k].tag == "h1"
                        && (forall j :: 0 <= j < k ==> doc.elements[j].tag != "h1")
                        ==> PageKey(doc, url) == GetText(doc.elements[k])
    ensures PageKey(doc, url) == url || IsStripped(PageKey(doc, url))
  {
    var h := Find(doc, "h1");
    var i := FirstIndex(doc.elements, (e: Element) => e.tag == "h1");
    if h.Some? {
      GetTextIsStripped(h.value);
      assert doc.elements[i].tag == "h1";
    }
    forall k | 0 <= k < |doc.elements| && doc.elements[k].tag == "h1"
               && (forall j :: 0 <= j < k ==> doc.elements[j].tag != "h1")
      ensures PageKey(doc, url) == GetText(doc.elements[k])
    {
      assert i == k;
    }
  }

  /** The link `_extract_links` takes from one element: its `href`,
      stripped, unless it is missing or blank. */
  function Href(e: Element): Option<string>
  {
    if "href" in e.attrs && Strip(e.attrs["href"]) != [] then Some(Strip(e.attrs["href"])) else None
  }

  predicate HasHref(e: Element)
  {
    Href(e).Some?
  }

  /** `_extract_links` over the selected elements, in order. */
  function Links(els: seq<Element>, base: string): seq<string>
  {
    if els == [] then []
    else
      var e := els[|els| - 1];
      Links(els[..|els| - 1], base) + (if HasHref(e) then [UrlJoin(base, Href(e).value)] else [])
  }

  /** One more element adds its link, if it has one, at the end. */
  lemma LinksStep(els: seq<Element>, k: nat, base: string)
    requires k < |els|
    ensures Links(els[..k + 1], base)
            == Links(els[..k], base) + (if HasHref(els[k]) then [UrlJoin(base, Href(els[k]).value)] else [])
  {
    assert els[..k + 1][..k] == els[..k];
  }

  /** One link per selected element with a non-blank `href`, in document
      order, each resolved against the page URL; identical links are all
      kept. */
  lemma {:induction false} LinksSpec(els: seq<Element>, base: string)
    ensures var kept := Filter(els, HasHref);
      && |Links(els, base)| == |kept|
      && forall i :: 0 <= i < |kept| ==> Links(els, base)[i] == UrlJoin(base, Href(kept[i]).value)
  {
    if els != [] {
      var init, e := els[..|els| - 1], els[|els| - 1];
      LinksSpec(init, base);
      assert els == init + [e];
      FilterAppend(init, e, HasHref);
    }
  }

  /** The request `_fetch_page` sends: through the session, which adds the
      default `User-Agent`, or anonymously with a ten-second timeout. */
  function CatalogRequest(url: string, viaSession: bool, agent: string): Request
  {
    if viaSession then Request(GET, url, WithDefaultAgent(map[], agent), map[], ThroughSession)
    else Request(GET, url, map[], map[], Anonymous(Some(CatalogTimeout)))
  }

  /** The `except requests.RequestException` of `_fetch_page`: only that
      exception becomes `None`; a `ValueError` propagates, unlike in the page
      parser. */
  function CatchCatalog(o: Outcome<Option<Response>>): (r: Outcome<Option<Response>>)
    ensures r.Raised? <==> o.Raised? && o.exc != RequestException
    ensures r.Raised? ==> r == o
    ensures o.Returned? ==> r == o
    ensures o.Raised? && !r.Raised? ==> r == Returned(None)
  {
    match o
    case Returned(_) => o
    case Raised(e) => if e == RequestException then Returned(None) else o
  }

  /** The dictionary entry `parse` writes for one URL given what
      `_fetch_page` returned. */
  function EntryFor(url: string, fetched: Option<Response>, linkSelector: string, engine: Engine): (string, seq<string>)
  {
    match fetched
    case None => (url, [])
    case Some(resp) =>
      if resp.status != 200 then (url, [])
      else
        var doc := engine.parse(resp.body);
        (PageKey(doc, url), Links(Select(engine, doc, linkSelector), url))
  }

  /** What a parse depends on besides the URLs. */
  datatype CatalogSetup = CatalogSetup(linkSelector: string, viaSession: bool, agent: string, engine: Engine, respond: Responder)

  /** The requests sent for `urls`, in order. */
  function CatalogRequests(urls: seq<string>, viaSession: bool, agent: string): (r: seq<Request>)
    ensures |r| == |urls|
    ensures forall i :: 0 <= i < |urls| ==> r[i] == CatalogRequest(urls[i], viaSession, agent)
  {
    if urls == [] then [] else CatalogRequests(urls[..|urls| - 1], viaSession, agent) + [CatalogRequest(urls[|urls| - 1], viaSession, agent)]
  }

  /** What `_fetch_page` returns for the `i`-th URL, once the requests for
      the URLs before it have been sent. */
  function CatalogFetchedAt(urls: seq<string>, i: nat, setup: CatalogSetup, log0: seq<Request>): Outcome<Option<Response>>
    requires i < |urls|
  {
    CatchCatalog(Lift(setup.respond(log0 + CatalogRequests(urls[..i], setup.viaSession, setup.agent),
                                    CatalogRequest(urls[i], setup.viaSession, setup.agent))))
  }

  /** The effect of the loop of `parse` over `urls`: each URL that got an
      entry together with what `_fetch_page` returned for it, in order, the
      network log afterwards, and the exception that ended the loop early. */
  datatype CatalogRun = CatalogRun(visits: seq<(string, Option<Response>)>, log: seq<Request>, error: Option<Exception>)

  /** The most recent visit of a run. */
  function LastVisit(visits: seq<(string, Option<Response>)>): (string, Option<Response>)
    requires visits != []
  {
    visits[|visits| - 1]
  }

  /** The entry a visit writes. */
  function VisitEntry(v: (string, Option<Response>), setup: CatalogSetup): (string, seq<string>)
  {
    EntryFor(v.0, v.1, setup.linkSelector, setup.engine)
  }

  /** The dictionary assignments of a run, in order: one entry per visit. */
  function Entries(visits: seq<(string, Option<Response>)>, setup: CatalogSetup): (r: seq<(string, seq<string>)>)
    ensures |r| == |visits|
  {
    seq(|visits|, k requires 0 <= k < |visits| => VisitEntry(visits[k], setup))
  }

  /** One more visit gives one more assignment, that visit's entry. */
  lemma EntriesSnoc(visits: seq<(string, Option<Response>)>, v: (string, Option<Response>), setup: CatalogSetup)
    ensures Entries(visits + [v], setup) == Entries(visits, setup) + [VisitEntry(v, setup)]
  {
    var a, b := Entries(visits + [v], setup), Entries(visits, setup) + [VisitEntry(v, setup)];
    forall k | 0 <= k < |a| ensures a[k] == b[k] {
      if k < |visits| {
        assert (visits + [v])[k] == visits[k];
      }
    }
  }

  /** One turn of the loop of `parse` after `prev`: the page of `url` is
      requested; what `_fetch_page` returned is recorded, or the exception
      that escapes it is. */
  function CatalogStep(prev: CatalogRun, url: string, setup: CatalogSetup): (r: CatalogRun)
    ensures r.log == prev.log + [CatalogRequest(url, setup.viaSession, setup.agent)]
    ensures r.error.Some? ==> r.visits == prev.visits
    ensures r.error.None? ==> |r.visits| == |prev.visits| + 1 && r.visits == prev.visits + [LastVisit(r.visits)]
                              && LastVisit(r.visits).0 == url
  {
    var req := CatalogRequest(url, setup.viaSession, setup.agent);
    match CatchCatalog(Lift(setup.respond(prev.log, req)))
    case Raised(e) => CatalogRun(prev.visits, prev.log + [req], Some(e))
    case Returned(fetched) => CatalogRun(prev.visits + [(url, fetched)], prev.log + [req], None)
  }

  function RunCatalog(urls: seq<string>, setup: CatalogSetup, log0: seq<Request>): CatalogRun
  {
    if urls == [] then CatalogRun([], log0, None)
    else
      var prev := RunCatalog(urls[..|urls| - 1], setup, log0);
      if prev.error.Some? then prev else CatalogStep(prev, urls[|urls| - 1], setup)
  }

  /** A prefix of the URLs fetches what the whole list fetches there. */
  lemma CatalogFetchedAtPrefix(urls: seq<string>, n: nat, i: nat, setup: CatalogSetup, log0: seq<Request>)
    requires i < n <= |urls|
    ensures CatalogFetchedAt(urls[..n], i, setup, log0) == CatalogFetchedAt(urls, i, setup, log0)
  {
    assert urls[..n][..i] == urls[..i];
  }

  /** The loop of `parse` sends one request per URL, in the order of the
      URLs, and stops right after the first request whose exception
      escapes; without one it writes one entry per URL. */
  lemma {:induction false} RunCatalogLog(urls: seq<string>, setup: CatalogSetup, log0: seq<Request>)
    ensures var run := RunCatalog(urls, setup, log0);
      && |run.visits| <= |urls|
      && (run.error.None? <==> |run.visits| == |urls|)
      && |run.log| == |log0| + (if run.error.None? then |urls| else |run.visits| + 1)
      && run.log == log0 + CatalogRequests(urls[..|run.log| - |log0|], setup.viaSession, setup.agent)
  {
    if urls != [] {
      var init := urls[..|urls| - 1];
      RunCatalogLog(init, setup, log0);
      var prev := RunCatalog(init, setup, log0);
      var run := RunCatalog(urls, setup, log0);
      if prev.error.Some? {
        assert run == prev;
        var n := |prev.log| - |log0|;
        assert init[..n] == urls[..n];
      } else {
        var req := CatalogRequest(urls[|urls| - 1], setup.viaSession, setup.agent);
        assert run == CatalogStep(prev, urls[|urls| - 1], setup);
        assert init[..|init|] == init;
        assert urls[..|urls|] == urls;
        calc {
          run.log;
          prev.log + [req];
          (log0 + CatalogRequests(init, setup.viaSession, setup.agent)) + [req];
          log0 + (CatalogRequests(init, setup.viaSession, setup.agent) + [req]);
          log0 + CatalogRequests(urls, setup.viaSession, setup.agent);
        }
      }
    }
  }

  /** Each visit of the loop is of its own URL and records what
      `_fetch_page` returned for it. */
  lemma {:induction false} RunCatalogVisit(urls: seq<string>, setup: CatalogSetup, log0: seq<Request>, i: nat)
    requires i < |RunCatalog(urls, setup, log0).visits|
    ensures i < |urls|
    ensures CatalogFetchedAt(urls, i, setup, log0).Returned?
    ensures RunCatalog(urls, setup, log0).visits[i] == (urls[i], CatalogFetchedAt(urls, i, setup, log0).value)
  {
    assert urls != [];
    var init := urls[..|urls| - 1];
    var prev := RunCatalog(init, setup, log0);
    if i < |prev.visits| {
      RunCatalogVisit(init, setup, log0, i);
      CatalogFetchedAtPrefix(urls, |init|, i, setup, log0);
    } else {
      RunCatalogLog(init, setup, log0);
      assert init[..|init|] == init;
      assert urls[..|init|] == init;
    }
  }

  /** The `i`-th assignment of the loop is the entry of the `i`-th URL, built
      from what `_fetch_page` returned for it. */
  lemma RunCatalogWrite(urls: seq<string>, setup: CatalogSetup, log0: seq<Request>, i: nat)
    requires i < |RunCatalog(urls, setup, log0).visits|
    ensures i < |urls|
    ensures CatalogFetchedAt(urls, i, setup, log0).Returned?
    ensures Entries(RunCatalog(urls, setup, log0).visits, setup)[i]
            == EntryFor(urls[i], CatalogFetchedAt(urls, i, setup, log0).value, setup.linkSelector, setup.engine)
  {
    RunCatalogVisit(urls, setup, log0, i);
  }

  /** An exception that escapes the loop is the one `_fetch_page` let through
      for the first URL without an entry, so it is never a
      `RequestException`. */
  lemma {:induction false} RunCatalogError(urls: seq<string>, setup: CatalogSetup, log0: seq<Request>)
    ensures var run := RunCatalog(urls, setup, log0);
      run.error.Some? ==>
        && |run.visits| < |urls|
        && CatalogFetchedAt(urls, |run.visits|, setup, log0) == Raised(run.error.value)
        && run.error.value != RequestException
  {
    if urls != [] {
      var init := urls[..|urls| - 1];
      RunCatalogError(init, setup, log0);
      RunCatalogLog(init, setup, log0);
      var prev := RunCatalog(init, setup, log0);
      if prev.error.Some? {
        CatalogFetchedAtPrefix(urls, |init|, |prev.visits|, setup, log0);
      } else {
        assert init[..|init|] == init;
        assert urls[..|init|] == init;
      }
    }
  }

  /** One turn of the loop of `parse`, as the loop itself takes it. */
  lemma RunCatalogStep(urls: seq<string>, i: nat, setup: CatalogSetup, log0: seq<Request>)
    requires i < |urls|
    requires RunCatalog(urls[..i], setup, log0).error.None?
    ensures RunCatalog(urls[..i + 1], setup, log0) == CatalogStep(RunCatalog(urls[..i], setup, log0), urls[i], setup)
  {
    assert urls[..i + 1][..i] == urls[..i];
  }

  /** A proof step of the loop of `parse()`: after the last turn, the run
      over the prefix the loop counted is the run over all of the URLs. */
  lemma RunCatalogWhole(urls: seq<string>, n: nat, setup: CatalogSetup, log0: seq<Request>)
    requires n == |urls|
    ensures RunCatalog(urls[..n], setup, log0) == RunCatalog(urls, setup, log0)
  {
    assert urls[..n] == urls;
  }

  /** An escaping exception ends the loop for good. */
  lemma {:induction false} RunCatalogStopped(urls: seq<string>, n: nat, setup: CatalogSetup, log0: seq<Request>)
    requires n <= |urls|
    requires RunCatalog(urls[..n], setup, log0).error.Some?
    ensures RunCatalog(urls, setup, log0) == RunCatalog(urls[..n], setup, log0)
    decreases |urls|
  {
    if n < |urls| {
      var init := urls[..|urls| - 1];
      assert init[..n] == urls[..n];
      RunCatalogStopped(init, n, setup, log0);
    } else {
      assert urls[..n] == urls;
    }
  }

  /** An entry for a page that could not be fetched, or whose status is not
      200, is the URL with no links; otherwise the key is the page key and
      the links are those of `Links`. */
  lemma EntryForSpec(url: string, fetched: Option<Response>, linkSelector: string, engine: Engine)
    ensures (fetched.None? || fetched.value.status != 200) ==> EntryFor(url, fetched, linkSelector, engine) == (url, [])
    ensures fetched.Some? && fetched.value.status == 200 ==>
      var doc := engine.parse(fetched.value.body);
      var kept := Filter(Select(engine, doc, linkSelector), HasHref);
      && EntryFor(url, fetched, linkSelector, engine).0 == PageKey(doc, url)
      && |EntryFor(url, fetched, linkSelector, engine).1| == |kept|
      && forall i :: 0 <= i < |kept| ==> EntryFor(url, fetched, linkSelector, engine).1[i] == UrlJoin(url, Href(kept[i]).value)
  {
    if fetched.Some? && fetched.value.status == 200 {
      LinksSpec(Select(engine, engine.parse(fetched.value.body), linkSelector), url);
    }
  }

  /** Two elements with the same link give that link twice. */
  lemma LinksTwice(e1: Element, e2: Element, base: string, link: string)
    requires Href(e1) == Some(link) && Href(e2) == Some(link)
    ensures Links([e1, e2], base) == [UrlJoin(base, link), UrlJoin(base, link)]
  {
    assert [e1, e2][..1] == [e1];
    assert [e1][..0] == [];
    assert Links([e1], base) == [UrlJoin(base, link)];
  }

  /** An `href` of `/p/9` is taken as it is. */
  lemma HrefProduct(e: Element)
    requires "href" in e.attrs && e.attrs["href"] == "/p/9"
    ensures Href(e) == Some("/p/9")
  {
    assert IsStripped("/p/9");
    StripStripped("/p/9");
  }

  /** Two anchors that the link selector matches and that carry the same
      `href` give the same absolute link twice: links are not
      de-duplicated. */
  lemma DuplicateLinksKept(resp: Response, engine: Engine, e1: Element, e2: Element)
    requires resp.status == 200
    requires Select(engine, engine.parse(resp.body), "a.product") == [e1, e2]
    requires "href" in e1.attrs && e1.attrs["href"] == "/p/9"
    requires "href" in e2.attrs && e2.attrs["href"] == "/p/9"
    ensures EntryFor("https://base/catalog", Some(resp), "a.product", engine).1 == ["https://base/p/9", "https://base/p/9"]
  {
    HrefProduct(e1);
    HrefProduct(e2);
    LinksTwice(e1, e2, "https://base/catalog", "/p/9");
    JoinAbsoluteExample();
  }

  /** A parse that nothing interrupts adds at most one key per URL to the
      result, keeps the keys it had at the front, and leaves under each key
      the links of the last URL that wrote it. */
  lemma CatalogResult(old_result: OrderedDict<seq<string>>, urls: seq<string>, setup: CatalogSetup, log0: seq<Request>, i: nat)
    requires old_result.Valid()
    requires RunCatalog(urls, setup, log0).error.None?
    requires i < |RunCatalog(urls, setup, log0).visits|
    requires var w := Entries(RunCatalog(urls, setup, log0).visits, setup);
      forall j :: i < j < |w| ==> w[j].0 != w[i].0
    ensures var w := Entries(RunCatalog(urls, setup, log0).visits, setup);
      var result := PutAll(old_result, w);
      && |result.keys| <= |old_result.keys| + |urls|
      && old_result.keys <= result.keys
      && result.values[w[i].0] == w[i].1
  {
    RunCatalogLog(urls, setup, log0);
    var w := Entries(RunCatalog(urls, setup, log0).visits, setup);
    PutAllSize(old_result, w);
    PutAllLastWins(old_result, w, i);
  }

  class CatalogParser {
    const urls: seq<string>
    const linkSelector: string
    const auth: CNC1Auth?
    var result: OrderedDict<seq<string>>

    /** A single URL string becomes a one-element list; the result starts
        empty. */
    constructor (urls: UrlArg, linkSelector: string, auth: CNC1Auth?)
      ensures this.urls == AsList(urls) && this.linkSelector == linkSelector && this.auth == auth
      ensures result == EmptyDict()
      ensures result.Valid()
    {
      this.urls := AsList(urls);
      this.linkSelector := linkSelector;
      this.auth := auth;
      result := EmptyDict();
    }

    /** The session is used exactly when a logged-in handle was given. */
    function ViaSession(): bool
      reads this, auth
    {
      auth != null && auth.authenticated
    }

    /** The `User-Agent` the handle's session adds to requests that have
        none; it plays no part in a request sent without the session. */
    function Agent(): string
      reads this, auth
    {
      if auth != null then auth.userAgent else []
    }

    /** `parse()`: the assignments of `RunCatalog` are made to `result`, in
        order; the result is returned unless an exception escaped. */
    method Parse(net: Network, engine: Engine) returns (r: Outcome<OrderedDict<seq<string>>>)
      requires result.Valid()
      modifies this`result, net`log
      ensures result.Valid()
      ensures var run := RunCatalog(urls, CatalogSetup(linkSelector, ViaSession(), Agent(), engine, net.respond), old(net.log));
        && result == PutAll(old(result), Entries(run.visits, CatalogSetup(linkSelector, ViaSession(), Agent(), engine, net.respond)))
        && net.log == run.log
        && (run.error.Some? ==> r == Raised(run.error.value))
        && (run.error.None? ==> r == Returned(result))
    {
      var e := CollectEntries(net, engine);
      if e.Some? {
        return Raised(e.value);
      }
      r := Returned(result);
    }

    /** The loop of `parse()` over the URLs: it makes the assignments of
        `RunCatalog` and hands back the exception that ended it early. */
    method CollectEntries(net: Network, engine: Engine) returns (e: Option<Exception>)
      requires result.Valid()
      modifies this`result, net`log
      ensures var run := RunCatalog(urls, CatalogSetup(linkSelector, ViaSession(), Agent(), engine, net.respond), old(net.log));
        && result == PutAll(old(result), Entries(run.visits, CatalogSetup(linkSelector, ViaSession(), Agent(), engine, net.respond)))
        && net.log == run.log
        && e == run.error
    {
      ghost var setup := CatalogSetup(linkSelector, ViaSession(), Agent(), engine, net.respond);
      ghost var log0 := net.log;
      ghost var d0 := result;
      ghost var run := RunCatalog([], setup, log0);
      var i := 0;
      while i < |urls|
        invariant 0 <= i <= |urls|
        invariant run == RunCatalog(urls[..i], setup, log0)
        invariant run.error.None?
        invariant result == PutAll(d0, Entries(run.visits, setup))
        invariant net.log == run.log
      {
        ghost var before := result;
        e := Visit(urls[i], net, engine, run);
        RunCatalogStep(urls, i, setup, log0);
        ghost var next := CatalogStep(run, urls[i], setup);
        if e.None? {
          EntriesSnoc(run.visits, LastVisit(next.visits), setup);
          PutAllSnoc(d0, Entries(run.visits, setup), VisitEntry(LastVisit(next.visits), setup));
        }
        run := RunCatalog(urls[..i + 1], setup, log0);
        if e.Some? {
          RunCatalogStopped(urls, i + 1, setup, log0);
          return;
        }
        i := i + 1;
      }
      RunCatalogWhole(urls, i, setup, log0);
      e := None;
    }

    /** The body of the loop of `parse()` for one URL: `_fetch_page`, then
        `_add_empty_result` or the page key and `_extract_links`; an
        exception that escapes the fetch is handed back instead. */
    method Visit(url: string, net: Network, engine: Engine, ghost prev: CatalogRun) returns (e: Option<Exception>)
      requires result.Valid()
      requires net.log == prev.log
      modifies this`result, net`log
      ensures var next := CatalogStep(prev, url, CatalogSetup(linkSelector, ViaSession(), Agent(), engine, net.respond));
        && net.log == next.log
        && e == next.error
        && (e.Some? ==> result == old(result))
        && (e.None? ==> result == Put(old(result), VisitEntry(LastVisit(next.visits), CatalogSetup(linkSelector, ViaSession(), Agent(), engine, net.respond)).0,
                                      VisitEntry(LastVisit(next.visits), CatalogSetup(linkSelector, ViaSession(), Agent(), engine, net.respond)).1))
    {
      var response := FetchPage(url, net);
      match response
      case Raised(exc) =>
        e := Some(exc);
      case Returned(fetched) =>
        if fetched.None? || fetched.value.status != 200 {
          AddEmptyResult(url);
        } else {
          var soup := engine.parse(fetched.value.body);
          var key := PageKey(soup, url);
          var links := ExtractLinks(soup, url, engine);
          result := Put(result, key, links);
        }
        e := None;
    }

    /** `_fetch_page(url)`: the request of `CatalogRequest`, with
        `CatchCatalog` applied to its answer. */
    method FetchPage(url: string, net: Network) returns (r: Outcome<Option<Response>>)
      modifies net`log
      ensures net.log == old(net.log) + [CatalogRequest(url, ViaSession(), Agent())]
      ensures r == CatchCatalog(Lift(net.respond(old(net.log), CatalogRequest(url, ViaSession(), Agent()))))
    {
      var reply: Outcome<Option<Response>>;
      if auth != null && auth.IsAuthenticated() {
        reply := auth.Get(url, null, net);
      } else {
        var answer := net.Send(Request(GET, url, map[], map[], Anonymous(Some(CatalogTimeout))));
        reply := Lift(answer);
      }
      r := CatchCatalog(reply);
    }

    /** `_extract_links(soup, base_url)`: walks the selected elements and
        collects the resolved links. */
    method ExtractLinks(soup: Document, baseUrl: string, engine: Engine) returns (links: seq<string>)
      ensures links == Links(Select(engine, soup, linkSelector), baseUrl)
    {
      var elements := Select(engine, soup, linkSelector);
      links := [];
      var k := 0;
      while k < |elements|
        invariant 0 <= k <= |elements|
        invariant links == Links(elements[..k], baseUrl)
      {
        var el := elements[k];
        LinksStep(elements, k, baseUrl);
        if "href" in el.attrs {
          var href := Strip(el.attrs["href"]);
          if href != [] {
            links := links + [UrlJoin(baseUrl, href)];
          }
        }
        k := k + 1;
      }
      assert elements[..|elements|] == elements;
    }

    /** `_add_empty_result(url)`: the URL is mapped to an empty list. */
    method AddEmptyResult(url: string)
      requires result.Valid()
      modifies this`result
      ensures result == Put(old(result), url, [])
    {
      result := Put(result, url, []);
    }
  }
}
