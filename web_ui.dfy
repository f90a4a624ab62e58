/** The string handling of the web front end (web_ui.py): turning the text
    typed into the URL box into the list of URLs to parse
    (`InputManager.get_urls`), prefixing article numbers
    (`WebInterface._normalize_article`) and flattening a catalog result into
    one list of product links (`WebInterface._parse_catalog`).  The widgets
    themselves are not modelled: the text of the box is a parameter. */
module WebUi {
  import opened Common
  import opened Text
  import opened Html
  import opened Http
  import opened Auth
  import opened Tables
  import opened CatalogParsing

  /** The link type under which URLs are catalog pages. */
  const CatalogMode := "Каталог"

  /** The query parameter that makes a catalog page list all its items. */
  const ShowAll := "SHOWALL_1=1"

  /** `[u.strip() for u in ps if u.strip()]`. */
  function StrippedPieces(ps: seq<string>): seq<string>
  {
    if ps == [] then []
    else
      var u := Strip(ps[|ps| - 1]);
      StrippedPieces(ps[..|ps| - 1]) + (if u != [] then [u] else [])
  }

  /** The candidates one line of the box contributes: the trimmed non-blank
      pieces between its commas when it has one, or the trimmed line when it
      has none and is not blank. */
  function LinePieces(line: string): seq<string>
  {
    if ',' in line then StrippedPieces(Split(line, ','))
    else if Strip(line) != [] then [Strip(line)]
    else []
  }

  /** The candidates of all the lines, in order. */
  function Candidates(lines: seq<string>): seq<string>
  {
    if lines == [] then [] else Candidates(lines[..|lines| - 1]) + LinePieces(lines[|lines| - 1])
  }

  /** `url.startswith(("http://", "https://"))`. */
  predicate IsWebUrl(u: string)
  {
    "http://" <= u || "https://" <= u
  }

  /** The catalog-mode rewrite of a URL: `?SHOWALL_1=1` when it has no query
      mark, `&SHOWALL_1=1` when it has one and does not mention the parameter
      yet, nothing otherwise; other link types leave URLs as they are. */
  function Augment(u: string, linkType: string): string
  {
    if linkType != CatalogMode then u
    else if '?' in u then (if Contains(u, ShowAll) then u else u + "&" + ShowAll)
    else u + "?" + ShowAll
  }

  /** The accepted candidates, rewritten, in order. */
  function Validated(cands: seq<string>, linkType: string): seq<string>
  {
    if cands == [] then []
    else
      var u := cands[|cands| - 1];
      Validated(cands[..|cands| - 1], linkType) + (if IsWebUrl(u) then [Augment(u, linkType)] else [])
  }

  /** The rejected candidates (the ones `get_urls` warns about), in order. */
  function Rejected(cands: seq<string>): seq<string>
  {
    if cands == [] then []
    else
      var u := cands[|cands| - 1];
      Rejected(cands[..|cands| - 1]) + (if IsWebUrl(u) then [] else [u])
  }

  /** The candidates that start with a web scheme, in order. */
  function WebOnly(cands: seq<string>): (r: seq<string>)
    ensures forall u :: u in r <==> u in cands && IsWebUrl(u)
  {
    if cands == [] then []
    else
      var u := cands[|cands| - 1];
      WebOnly(cands[..|cands| - 1]) + (if IsWebUrl(u) then [u] else [])
  }

  /** `get_urls(link_type)` with the text of the box passed in: the accepted
      URLs, and the rejected candidates it shows warnings for. */
  method GetUrls(linkType: string, urlInput: string) returns (validUrls: seq<string>, rejected: seq<string>)
    ensures validUrls == Validated(Candidates(SplitLines(urlInput)), linkType)
    ensures rejected == Rejected(Candidates(SplitLines(urlInput)))
  {
    if urlInput == [] {
      return [], [];
    }
    var urls := CollectCandidates(SplitLines(urlInput));
    validUrls, rejected := CheckCandidates(urls, linkType);
  }

  /** The first loop of `get_urls`: the candidates of every line, in order. */
  method CollectCandidates(lines: seq<string>) returns (urls: seq<string>)
    ensures urls == Candidates(lines)
  {
    urls := [];
    var k := 0;
    while k < |lines|
      invariant 0 <= k <= |lines|
      invariant urls == Candidates(lines[..k])
    {
      var line := lines[k];
      CandidatesStep(lines, k);
      if ',' in line {
        urls := urls + StrippedPieces(Split(line, ','));
      } else {
        if Strip(line) != [] {
          urls := urls + [Strip(line)];
        }
      }
      k := k + 1;
    }
    assert lines[..|lines|] == lines;
  }

  /** One more line adds its own candidates at the end. */
  lemma CandidatesStep(lines: seq<string>, k: nat)
    requires k < |lines|
    ensures Candidates(lines[..k + 1]) == Candidates(lines[..k]) + LinePieces(lines[k])
  {
    assert lines[..k + 1][..k] == lines[..k];
  }

  /** The second loop of `get_urls`: each candidate is accepted, and
      rewritten for catalog mode, or rejected. */
  method CheckCandidates(urls: seq<string>, linkType: string) returns (validUrls: seq<string>, rejected: seq<string>)
    ensures validUrls == Validated(urls, linkType)
    ensures rejected == Rejected(urls)
  {
    validUrls, rejected := [], [];
    var j := 0;
    while j < |urls|
      invariant 0 <= j <= |urls|
      invariant validUrls == Validated(urls[..j], linkType)
      invariant rejected == Rejected(urls[..j])
    {
      var url := urls[j];
      if "http://" <= url || "https://" <= url {
        if linkType == CatalogMode {
          if '?' in url {
            if !Contains(url, ShowAll) {
              url := url + "&" + ShowAll;
            }
          } else {
            url := url + "?" + ShowAll;
          }
        }
        validUrls := validUrls + [url];
      } else {
        rejected := rejected + [url];
      }
      assert urls[..j + 1][..j] == urls[..j];
      j := j + 1;
    }
    assert urls[..|urls|] == urls;
  }

  /** An empty box gives no URLs and no warnings. */
  lemma EmptyInputGivesNothing(linkType: string)
    ensures Validated(Candidates(SplitLines("")), linkType) == []
    ensures Rejected(Candidates(SplitLines(""))) == []
  {
  }

  /** The rewrite keeps the URL as a prefix, so an accepted URL still starts
      with its web scheme; in catalog mode the result always has a query mark
      and mentions `SHOWALL_1=1`, and rewriting again changes nothing; in
      any other mode the URL is unchanged. */
  lemma AugmentSpec(u: string, linkType: string)
    ensures u <= Augment(u, linkType)
    ensures IsWebUrl(u) ==> IsWebUrl(Augment(u, linkType))
    ensures linkType != CatalogMode ==> Augment(u, linkType) == u
    ensures linkType == CatalogMode ==> '?' in Augment(u, linkType) && Contains(Augment(u, linkType), ShowAll)
    ensures Augment(Augment(u, linkType), linkType) == Augment(u, linkType)
  {
    if linkType == CatalogMode {
      if '?' in u {
        if !Contains(u, ShowAll) {
          ContainsSuffix(u + "&", ShowAll);
          assert (u + "&" + ShowAll)[..|u|] == u;
        }
      } else {
        ContainsSuffix(u + "?", ShowAll);
        assert (u + "?" + ShowAll)[|u|] == '?';
      }
    }
  }

  /** The accepted URLs are the web-scheme candidates in their order, each
      rewritten by `Augment`; the rejected ones are all the others, so every
      candidate ends up on exactly one of the two lists. */
  lemma {:induction false} ValidatedSpec(cands: seq<string>, linkType: string)
    ensures |Validated(cands, linkType)| == |WebOnly(cands)|
    ensures forall i :: 0 <= i < |WebOnly(cands)| ==> Validated(cands, linkType)[i] == Augment(WebOnly(cands)[i], linkType)
    ensures forall u :: u in Rejected(cands) <==> u in cands && !IsWebUrl(u)
    ensures |Validated(cands, linkType)| + |Rejected(cands)| == |cands|
  {
    if cands != [] {
      ValidatedSpec(cands[..|cands| - 1], linkType);
      assert cands == cands[..|cands| - 1] + [cands[|cands| - 1]];
    }
  }

  /** Every accepted URL starts with `http://` or `https://`. */
  lemma ValidatedAreWebUrls(cands: seq<string>, linkType: string)
    ensures forall v :: v in Validated(cands, linkType) ==> IsWebUrl(v)
  {
    ValidatedSpec(cands, linkType);
    forall v | v in Validated(cands, linkType) ensures IsWebUrl(v) {
      var i :| 0 <= i < |Validated(cands, linkType)| && Validated(cands, linkType)[i] == v;
      AugmentSpec(WebOnly(cands)[i], linkType);
    }
  }

  /** The pieces of concatenated lists are the pieces of each. */
  lemma {:induction false} StrippedPiecesAppend(a: seq<string>, b: seq<string>)
    ensures StrippedPieces(a + b) == StrippedPieces(a) + StrippedPieces(b)
  {
    if b != [] {
      StrippedPiecesAppend(a, b[..|b| - 1]);
      assert (a + b)[..|a + b| - 1] == a + b[..|b| - 1];
    } else {
      assert a + b == a;
    }
  }

  /** The two branches of the line loop agree: a line without commas gives
      what splitting it on commas would give. */
  lemma LinePiecesAreCommaPieces(line: string)
    ensures LinePieces(line) == StrippedPieces(Split(line, ','))
  {
    if ',' !in line {
      SplitWithoutSeparator(line, ',');
      assert [line][..0] == [];
    }
  }

  /** The lines of a text that is two break-free parts joined by `\n`. */
  lemma TwoLines(a: string, b: string)
    requires forall c :: c in a ==> !IsLineBreak(c)
    requires forall c :: c in b ==> !IsLineBreak(c)
    ensures SplitLines(a + "\n" + b) == [a] + if b == [] then [] else [b]
  {
    SplitLinesNewline(a, b, "");
    SplitLinesSingle(b, "");
    assert "" + a == a && "" + b == b;
  }

  /** Joining two break-free parts with a comma gives a single line. */
  lemma OneLine(a: string, b: string)
    requires forall c :: c in a ==> !IsLineBreak(c)
    requires forall c :: c in b ==> !IsLineBreak(c)
    ensures SplitLines(a + "," + b) == [a + "," + b]
  {
    var joined := a + "," + b;
    forall c | c in joined ensures !IsLineBreak(c) {
      var k :| 0 <= k < |joined| && joined[k] == c;
      if k < |a| {
        assert a[k] == c;
      } else if k > |a| {
        assert b[k - |a| - 1] == c;
      }
    }
    SplitLinesSingle(joined, "");
    assert "" + joined == joined;
  }

  /** The candidates of a line are those of its parts on either side of a
      comma. */
  lemma CommaJoinedPieces(a: string, b: string)
    ensures LinePieces(a + "," + b) == LinePieces(a) + LinePieces(b)
  {
    var joined := a + "," + b;
    LinePiecesAreCommaPieces(a);
    LinePiecesAreCommaPieces(b);
    LinePiecesAreCommaPieces(joined);
    assert joined == a + [','] + b;
    SplitAppend(a, b, ',');
    StrippedPiecesAppend(Split(a, ','), Split(b, ','));
  }

  /** A comma and a line break separate candidates alike: two texts without
      line breaks joined by either give the same candidates. */
  lemma CommaLikeNewline(a: string, b: string)
    requires forall c :: c in a ==> !IsLineBreak(c)
    requires forall c :: c in b ==> !IsLineBreak(c)
    ensures Candidates(SplitLines(a + "\n" + b)) == Candidates(SplitLines(a + "," + b))
  {
    var joined := a + "," + b;
    var newlineLines := if b == [] then [a] else [a, b];
    calc {
      Candidates(SplitLines(a + "\n" + b));
      { TwoLines(a, b); assert [a] + [b] == [a, b]; }
      Candidates(newlineLines);
      { assert [a][..0] == [];
        assert Candidates([a]) == LinePieces(a);
        if b != [] {
          assert [a, b][..1] == [a];
        } else {
          assert Strip(b) == [];
          assert LinePieces(a) + LinePieces(b) == LinePieces(a);
        } }
      LinePieces(a) + LinePieces(b);
      { CommaJoinedPieces(a, b); }
      LinePieces(joined);
      { assert [joined][..0] == []; }
      Candidates([joined]);
      { OneLine(a, b); }
      Candidates(SplitLines(joined));
    }
  }

  /** Every piece `StrippedPieces` keeps is trimmed, non-blank and made of
      characters of the pieces it came from. */
  lemma {:induction false} StrippedPiecesShape(ps: seq<string>)
    ensures forall u :: u in StrippedPieces(ps) ==>
      && u != [] && IsStripped(u)
      && exists k :: 0 <= k < |ps| && forall c :: c in u ==> c in ps[k]
  {
    if ps != [] {
      var init := ps[..|ps| - 1];
      StrippedPiecesShape(init);
      StripChars(ps[|ps| - 1]);
      forall u | u in StrippedPieces(init)
        ensures exists k :: 0 <= k < |ps| && forall c :: c in u ==> c in ps[k]
      {
        var k :| 0 <= k < |init| && forall c :: c in u ==> c in init[k];
        assert init[k] == ps[k];
      }
    }
  }

  /** Every candidate is trimmed and non-blank, and contains neither a comma
      nor a line break. */
  lemma {:induction false} CandidatesShape(lines: seq<string>)
    requires forall k, c :: 0 <= k < |lines| && c in lines[k] ==> !IsLineBreak(c)
    ensures forall u :: u in Candidates(lines) ==>
      && u != [] && IsStripped(u)
      && forall c :: c in u ==> c != ',' && !IsLineBreak(c)
  {
    if lines != [] {
      var init, line := lines[..|lines| - 1], lines[|lines| - 1];
      CandidatesShape(init);
      LinePiecesAreCommaPieces(line);
      StrippedPiecesShape(Split(line, ','));
      JoinSplit(line, ',');
      forall u | u in LinePieces(line)
        ensures forall c :: c in u ==> c != ',' && !IsLineBreak(c)
      {
        var ps := Split(line, ',');
        var k :| 0 <= k < |ps| && forall c :: c in u ==> c in ps[k];
        assert ps[k] in ps;
        JoinHasPieces(ps, k, ',');
      }
    }
  }

  /** Every character of a piece is a character of the joined string. */
  lemma {:induction false} JoinHasPieces(ps: seq<string>, k: nat, d: char)
    requires |ps| >= 1 && k < |ps|
    ensures forall c :: c in ps[k] ==> c in Join(ps, d)
  {
    if |ps| > 1 {
      if k > 0 {
        JoinHasPieces(ps[1..], k - 1, d);
      }
    }
  }

  /** `_normalize_article`'s column and prefix. */
  const ArticleColumn := "Артикул"
  const ArticlePrefix := "123-"

  /** The lambda of `_normalize_article`: a present, non-empty value gets the
      prefix; `None` (pandas' missing value) and the empty string, both
      falsy, stay as they are. */
  function NormalizeCell(c: Cell): Cell
  {
    match c
    case None => None
    case Some(s) => if s == [] then c else Some(ArticlePrefix + s)
  }

  /** Two different cells never normalise to the same cell, so no article
      number is lost or merged with another. */
  lemma NormalizeCellInjective(a: Cell, b: Cell)
    requires NormalizeCell(a) == NormalizeCell(b)
    ensures a == b
  {
    if a.Some? && b.Some? && a.value != [] && b.value != [] {
      assert a.value == (ArticlePrefix + a.value)[|ArticlePrefix|..];
      assert b.value == (ArticlePrefix + b.value)[|ArticlePrefix|..];
    }
  }

  /** `_normalize_article(df)`: when the frame has rows and an `Артикул`
      column, a copy in which that column is normalised cell by cell; the
      frame itself otherwise.  The index, the columns and every other cell
      are unchanged. */
  function NormalizeArticle(f: Frame): (r: Frame)
    ensures r.index == f.index && r.columns == f.columns && |r.rows| == |f.rows|
    ensures IsEmptyFrame(f) || ArticleColumn !in f.columns ==> r == f
    ensures forall i :: 0 <= i < |f.rows| ==> r.rows[i].Keys == f.rows[i].Keys
    ensures forall i, c :: 0 <= i < |f.rows| && c in f.rows[i] && c != ArticleColumn ==> r.rows[i][c] == f.rows[i][c]
    ensures !IsEmptyFrame(f) && ArticleColumn in f.columns ==>
      forall i :: 0 <= i < |f.rows| && ArticleColumn in f.rows[i] ==>
        r.rows[i][ArticleColumn] == NormalizeCell(f.rows[i][ArticleColumn])
  {
    if IsEmptyFrame(f) || ArticleColumn !in f.columns then f
    else
      Frame(f.index, f.columns,
            seq(|f.rows|, i requires 0 <= i < |f.rows| =>
              if ArticleColumn in f.rows[i] then f.rows[i][ArticleColumn := NormalizeCell(f.rows[i][ArticleColumn])]
              else f.rows[i]))
  }

  /** The links of a catalog result in the order of its keys. */
  function ConcatValues(keys: seq<string>, values: map<string, seq<string>>): seq<string>
    requires forall i :: 0 <= i < |keys| ==> keys[i] in values
  {
    if keys == [] then []
    else ConcatValues(keys[..|keys| - 1], values) + values[keys[|keys| - 1]]
  }

  /** The total number of links under `keys`. */
  function TotalLinks(keys: seq<string>, values: map<string, seq<string>>): nat
    requires forall i :: 0 <= i < |keys| ==> keys[i] in values
  {
    if keys == [] then 0 else TotalLinks(keys[..|keys| - 1], values) + |values[keys[|keys| - 1]]|
  }

  /** The flattened list is as long as all the lists together; every link of
      every category is in it, and nothing else is. */
  lemma {:induction false} ConcatValuesSpec(keys: seq<string>, values: map<string, seq<string>>)
    requires forall i :: 0 <= i < |keys| ==> keys[i] in values
    ensures |ConcatValues(keys, values)| == TotalLinks(keys, values)
    ensures forall i, j :: 0 <= i < |keys| && 0 <= j < |values[keys[i]]| ==> values[keys[i]][j] in ConcatValues(keys, values)
    ensures forall x :: x in ConcatValues(keys, values) ==> exists i :: 0 <= i < |keys| && x in values[keys[i]]
  {
    if keys != [] {
      var init := keys[..|keys| - 1];
      ConcatValuesSpec(init, values);
      forall x | x in ConcatValues(init, values)
        ensures exists i :: 0 <= i < |keys| && x in values[keys[i]]
      {
        var i :| 0 <= i < |init| && x in values[init[i]];
        assert init[i] == keys[i];
      }
      forall i, j | 0 <= i < |keys| && 0 <= j < |values[keys[i]]|
        ensures values[keys[i]][j] in ConcatValues(keys, values)
      {
        if i < |init| {
          assert init[i] == keys[i];
        } else {
          assert values[keys[i]][j] in values[keys[i]];
        }
      }
    }
  }

  /** The loop of `_parse_catalog` over the result: the lists of the
      categories, in the order of their keys. */
  method FlattenCatalog(result: OrderedDict<seq<string>>) returns (productUrls: seq<string>)
    requires result.Valid()
    ensures productUrls == ConcatValues(result.keys, result.values)
  {
    productUrls := [];
    var k := 0;
    while k < |result.keys|
      invariant 0 <= k <= |result.keys|
      invariant productUrls == ConcatValues(result.keys[..k], result.values)
    {
      productUrls := productUrls + result.values[result.keys[k]];
      assert result.keys[..k + 1][..k] == result.keys[..k];
      k := k + 1;
    }
    assert result.keys[..|result.keys|] == result.keys;
  }

  /** `_parse_catalog(urls)`: a fresh catalog parser over `urls` with the
      configured link selector and the front end's login handle; its result
      flattened.  An exception from the parser propagates. */
  method ParseCatalog(urls: seq<string>, linkSelector: string, auth: CNC1Auth?, net: Network, engine: Engine)
    returns (r: Outcome<seq<string>>)
    modifies net`log
    ensures var setup := CatalogSetup(linkSelector, auth != null && auth.authenticated, if auth != null then auth.userAgent else [], engine, net.respond);
      var run := RunCatalog(urls, setup, old(net.log));
      && net.log == run.log
      && (run.error.Some? ==> r == Raised(run.error.value))
      && (run.error.None? ==>
            var result := PutAll(EmptyDict(), Entries(run.visits, setup));
            r == Returned(ConcatValues(result.keys, result.values)))
  {
    var parser := new CatalogParser(UrlList(urls), linkSelector, auth);
    var catalogResult := parser.Parse(net, engine);
    match catalogResult
    case Raised(e) =>
      r := Raised(e);
    case Returned(result) =>
      var productUrls := FlattenCatalog(result);
      r := Returned(productUrls);
  }
}
