/** An abstract view of a parsed HTML document, standing in for
    BeautifulSoup.  A document is the sequence of its elements in document
    order; each element keeps its tag name, its attributes and the text
    nodes beneath it.  What a CSS selector matches and how bytes become a
    document are the `Engine`'s business and are not modelled. */
module Html {
  import opened Common
  import opened Text

  datatype Element = Element(tag: string, attrs: map<string, string>, strings: seq<string>)

  datatype Document = Document(elements: seq<Element>)

  /** The parts of the HTML library the scraper uses: building a document from
      a response body, and deciding whether an element matches a selector. */
  datatype Engine = Engine(parse: string -> Document, matches: (string, Element) -> bool)

  /** The elements of `els` that satisfy `p`, in their original order. */
  function Filter(els: seq<Element>, p: Element -> bool): (r: seq<Element>)
    ensures |r| <= |els|
    ensures forall e :: e in r <==> e in els && p(e)
    ensures forall i :: 0 <= i < |r| ==> p(r[i])
  {
    if els == [] then []
    else
      var rest := Filter(els[1..], p);
      assert els == [els[0]] + els[1..];
      if p(els[0]) then [els[0]] + rest else rest
  }

  /** Filtering a list with one more element at the end adds that element
      at the end when it satisfies `p`. */
  lemma {:induction false} FilterAppend(els: seq<Element>, e: Element, p: Element -> bool)
    ensures Filter(els + [e], p) == Filter(els, p) + if p(e) then [e] else []
  {
    if els != [] {
      FilterAppend(els[1..], e, p);
      assert (els + [e])[1..] == els[1..] + [e];
    } else {
      assert [e][1..] == [];
    }
  }

  /** The position of the first element of `els` that satisfies `p`, or
      `|els|` when none does. */
  function FirstIndex(els: seq<Element>, p: Element -> bool): (k: nat)
    ensures k <= |els|
    ensures forall j :: 0 <= j < k ==> !p(els[j])
    ensures k < |els| ==> p(els[k])
  {
    if els == [] || p(els[0]) then 0 else 1 + FirstIndex(els[1..], p)
  }

  /** The first element of `els` that satisfies `p`, if any. */
  function First(els: seq<Element>, p: Element -> bool): Option<Element>
  {
    var k := FirstIndex(els, p);
    if k < |els| then Some(els[k]) else None
  }

  /** `soup.select(selector)`: every matching element, in document order. */
  function Select(engine: Engine, doc: Document, selector: string): seq<Element>
  {
    Filter(doc.elements, (e: Element) => engine.matches(selector, e))
  }

  /** `soup.select_one(selector)`: the first matching element, if any. */
  function SelectOne(engine: Engine, doc: Document, selector: string): Option<Element>
  {
    First(doc.elements, (e: Element) => engine.matches(selector, e))
  }

  /** `soup.find(name)`: the first element with that tag name, if any. */
  function Find(doc: Document, name: string): Option<Element>
  {
    First(doc.elements, (e: Element) => e.tag == name)
  }

  /** Filtering keeps the first satisfying element at the front. */
  lemma {:induction false} FirstIsHeadOfFilter(els: seq<Element>, p: Element -> bool)
    ensures First(els, p) == if Filter(els, p) == [] then None else Some(Filter(els, p)[0])
  {
    if els != [] && !p(els[0]) {
      FirstIsHeadOfFilter(els[1..], p);
      var k := FirstIndex(els[1..], p);
      assert FirstIndex(els, p) == k + 1;
      if k < |els[1..]| {
        assert els[k + 1] == els[1..][k];
      }
    }
  }

  /** `select_one(s)` is the head of `select(s)`: BeautifulSoup's two queries
      agree on which element comes first. */
  lemma SelectOneIsFirstSelected(engine: Engine, doc: Document, selector: string)
    ensures SelectOne(engine, doc, selector)
            == if Select(engine, doc, selector) == [] then None
               else Some(Select(engine, doc, selector)[0])
  {
    FirstIsHeadOfFilter(doc.elements, (e: Element) => engine.matches(selector, e));
  }

  /** Python's `"".join(ps)`. */
  function Concat(ps: seq<string>): string
  {
    if ps == [] then [] else Concat(ps[..|ps| - 1]) + ps[|ps| - 1]
  }

  /** The text nodes of `ss`, each stripped. */
  function StripAll(ss: seq<string>): seq<string>
  {
    seq(|ss|, k requires 0 <= k < |ss| => Strip(ss[k]))
  }

  /** `element.get_text(strip=True)`: every text node below the element is
      stripped and the non-empty pieces are concatenated without separator. */
  function GetText(e: Element): string
  {
    Concat(StripAll(e.strings))
  }

  /** Concatenating strings that have no whitespace at their ends gives a
      string that has none at its ends either. */
  lemma {:induction false} ConcatStripped(ps: seq<string>)
    requires forall k :: 0 <= k < |ps| ==> IsStripped(ps[k])
    ensures IsStripped(Concat(ps))
  {
    if ps != [] {
      ConcatStripped(ps[..|ps| - 1]);
      var a, b := Concat(ps[..|ps| - 1]), ps[|ps| - 1];
      assert IsStripped(b);
      if a != [] && b != [] {
        assert (a + b)[0] == a[0];
        assert (a + b)[|a + b| - 1] == b[|b| - 1];
      } else if a == [] {
        assert a + b == b;
      } else {
        assert a + b == a;
      }
    }
  }

  /** The text an element yields never begins or ends with whitespace. */
  lemma GetTextIsStripped(e: Element)
    ensures IsStripped(GetText(e))
  {
    ConcatStripped(StripAll(e.strings));
  }
}
