/** Reference resolution as `urllib.parse.urljoin` performs it, modelled on
    section 5.2 of RFC 3986: a reference is split into its five components by
    the regular expression of Appendix B, the target is computed by the
    transform of section 5.2.2 (with the merge of 5.2.3 and the
    `remove_dot_segments` of 5.2.4) and recomposed by section 5.3.  Where
    `urljoin` departs from the RFC the model follows `urljoin`. */
module Uri {
  import opened Common

  /** The five components of a URI reference; an absent component is `None`,
      which is not the same as a present but empty one. */
  datatype Reference = Reference(scheme: Option<string>, authority: Option<string>, path: string,
                                 query: Option<string>, fragment: Option<string>)

  /** The position of the first character of `s` in `cs`, or `|s|`. */
  function IndexOfAny(s: string, cs: set<char>): (k: nat)
    ensures k <= |s|
    ensures forall j :: 0 <= j < k ==> s[j] !in cs
    ensures k < |s| ==> s[k] in cs
  {
    if s == [] || s[0] in cs then 0 else 1 + IndexOfAny(s[1..], cs)
  }

  /** The position of the last `/` of `s`, or -1. */
  function LastSlash(s: string): (k: int)
    ensures -1 <= k < |s|
    ensures k >= 0 ==> s[k] == '/'
    ensures forall j :: k < j < |s| ==> s[j] != '/'
  {
    if s == [] then -1 else if s[|s| - 1] == '/' then |s| - 1 else LastSlash(s[..|s| - 1])
  }

  /** A component cut off the front of a string, and what is left. */
  datatype Cut = Cut(part: Option<string>, rest: string)

  /** `(([^:/?#]+):)?` of Appendix B. */
  function TakeScheme(s: string): Cut
  {
    var k := IndexOfAny(s, {':', '/', '?', '#'});
    if 0 < k < |s| && s[k] == ':' then Cut(Some(s[..k]), s[k + 1..]) else Cut(None, s)
  }

  /** `(//([^/?#]*))?` of Appendix B. */
  function TakeAuthority(s: string): Cut
  {
    if |s| >= 2 && s[0] == '/' && s[1] == '/' then
      var a := IndexOfAny(s[2..], {'/', '?', '#'});
      Cut(Some(s[2..2 + a]), s[2 + a..])
    else Cut(None, s)
  }

  /** `(\?([^#]*))?` of Appendix B. */
  function TakeQuery(s: string): Cut
  {
    if s != [] && s[0] == '?' then
      var q := IndexOfAny(s[1..], {'#'});
      Cut(Some(s[1..1 + q]), s[1 + q..])
    else Cut(None, s)
  }

  /** `(#(.*))?` of Appendix B. */
  function TakeFragment(s: string): Option<string>
  {
    if s != [] && s[0] == '#' then Some(s[1..]) else None
  }

  /** Appendix B: `^(([^:/?#]+):)?(//([^/?#]*))?([^?#]*)(\?([^#]*))?(#(.*))?` */
  function Parse(s: string): Reference
  {
    var scheme := TakeScheme(s);
    var authority := TakeAuthority(scheme.rest);
    var p := IndexOfAny(authority.rest, {'?', '#'});
    var query := TakeQuery(authority.rest[p..]);
    Reference(scheme.part, authority.part, authority.rest[..p], query.part, TakeFragment(query.rest))
  }

  function SchemeText(scheme: Option<string>): string
  {
    if scheme.Some? then scheme.value + ":" else ""
  }

  function AuthorityText(authority: Option<string>): string
  {
    if authority.Some? then "//" + authority.value else ""
  }

  function QueryText(query: Option<string>): string
  {
    if query.Some? then "?" + query.value else ""
  }

  function FragmentText(fragment: Option<string>): string
  {
    if fragment.Some? then "#" + fragment.value else ""
  }

  /** Section 5.3: the string of a reference. */
  function Recompose(u: Reference): string
  {
    SchemeText(u.scheme) + AfterScheme(u)
  }

  /** The text of a reference after its scheme. */
  function AfterScheme(u: Reference): string
  {
    AuthorityText(u.authority) + AfterAuthority(u)
  }

  /** The text of a reference after its authority. */
  function AfterAuthority(u: Reference): string
  {
    u.path + AfterPath(u)
  }

  /** The text of a reference after its path. */
  function AfterPath(u: Reference): string
  {
    QueryText(u.query) + FragmentText(u.fragment)
  }

  /** No character of `s` is in `cs`. */
  predicate NoneOf(s: string, cs: set<char>)
  {
    forall i :: 0 <= i < |s| ==> s[i] !in cs
  }

  /** The references the parser can produce: those whose every component is
      free of the characters that would end it early, and whose path cannot
      be mistaken for an authority or (without a scheme) for a scheme. */
  predicate WellFormed(u: Reference)
  {
    && (u.scheme.Some? ==> u.scheme.value != [] && NoneOf(u.scheme.value, {':', '/', '?', '#'}))
    && (u.authority.Some? ==> NoneOf(u.authority.value, {'/', '?', '#'}) && (u.path == [] || u.path[0] == '/'))
    && (u.authority.None? ==> !("//" <= u.path))
    && NoneOf(u.path, {'?', '#'})
    && (u.scheme.None? ==>
          var k := IndexOfAny(u.path, {':', '/'});
          k == 0 || k == |u.path| || u.path[k] == '/')
    && (u.query.Some? ==> NoneOf(u.query.value, {'#'}))
  }

  /** The first position in `a + b` is the first in `a`, or failing that the
      first in `b` shifted by `|a|`. */
  lemma {:induction false} IndexOfAnyConcat(a: string, b: string, cs: set<char>)
    ensures IndexOfAny(a + b, cs) == if IndexOfAny(a, cs) < |a| then IndexOfAny(a, cs) else |a| + IndexOfAny(b, cs)
  {
    if a != [] {
      assert (a + b)[0] == a[0];
      if a[0] !in cs {
        assert (a + b)[1..] == a[1..] + b;
        IndexOfAnyConcat(a[1..], b, cs);
      }
    } else {
      assert a + b == b;
    }
  }

  /** The position is pinned down by its three properties. */
  lemma IndexOfAnyAt(s: string, cs: set<char>, k: nat)
    requires k <= |s|
    requires forall j :: 0 <= j < k ==> s[j] !in cs
    requires k < |s| ==> s[k] in cs
    ensures IndexOfAny(s, cs) == k
  {
  }

  /** Cutting the fragment off its own text gives it back. */
  lemma FragmentRoundTrip(f: Option<string>)
    ensures TakeFragment(FragmentText(f)) == f
  {
    if f.Some? {
      assert ("#" + f.value)[1..] == f.value;
    }
  }

  /** A query without `#`, followed by a fragment, is cut off whole. */
  lemma QueryRoundTrip(q: Option<string>, f: Option<string>)
    requires q.Some? ==> NoneOf(q.value, {'#'})
    ensures TakeQuery(QueryText(q) + FragmentText(f)) == Cut(q, FragmentText(f))
  {
    var fs := FragmentText(f);
    if q.Some? {
      var v := q.value;
      var s := "?" + v + fs;
      assert s[1..] == v + fs;
      IndexOfAnyConcat(v, fs, {'#'});
      assert IndexOfAny(s[1..], {'#'}) == |v|;
      assert s[1..1 + |v|] == v;
      assert s[1 + |v|..] == fs;
    }
  }

  /** A path without `?` and `#` ends where the query or fragment begins. */
  lemma PathRoundTrip(path: string, qf: string)
    requires NoneOf(path, {'?', '#'})
    requires qf == [] || qf[0] in {'?', '#'}
    ensures IndexOfAny(path + qf, {'?', '#'}) == |path|
    ensures (path + qf)[..|path|] == path && (path + qf)[|path|..] == qf
  {
    IndexOfAnyConcat(path, qf, {'?', '#'});
  }

  /** An authority without `/`, `?` and `#`, followed by a path that is
      empty or absolute, is cut off whole; without an authority nothing is
      cut as long as the rest does not begin with `//`. */
  lemma AuthorityRoundTrip(a: Option<string>, rest: string)
    requires a.Some? ==> NoneOf(a.value, {'/', '?', '#'}) && (rest == [] || rest[0] in {'/', '?', '#'})
    requires a.None? ==> !(|rest| >= 2 && rest[0] == '/' && rest[1] == '/')
    ensures TakeAuthority(AuthorityText(a) + rest) == Cut(a, rest)
  {
    if a.Some? {
      var v := a.value;
      var s := "//" + v + rest;
      assert s[2..] == v + rest;
      IndexOfAnyConcat(v, rest, {'/', '?', '#'});
      assert IndexOfAny(s[2..], {'/', '?', '#'}) == |v|;
      assert s[2..2 + |v|] == v;
      assert s[2 + |v|..] == rest;
    } else {
      assert AuthorityText(a) + rest == rest;
    }
  }

  /** The path part of a well-formed reference, with what follows it, does
      not begin with `//` unless an authority precedes it. */
  lemma NoFalseAuthority(u: Reference)
    requires WellFormed(u)
    requires u.authority.None?
    ensures var rest := AfterAuthority(u); !(|rest| >= 2 && rest[0] == '/' && rest[1] == '/')
  {
    var qf := AfterPath(u);
    var rest := AfterAuthority(u);
    if |u.path| >= 2 {
      assert u.path[..2] == rest[..2];
    } else if |u.path| == 1 && qf != [] {
      assert rest[1] == qf[0];
    } else if |u.path| == 0 {
      assert rest == qf;
    }
  }

  /** A non-empty scheme free of `:`, `/`, `?` and `#` is cut off whole. */
  lemma SchemePresent(v: string, rest: string)
    requires v != [] && NoneOf(v, {':', '/', '?', '#'})
    ensures TakeScheme(v + ":" + rest) == Cut(Some(v), rest)
  {
    var s := v + ":" + rest;
    IndexOfAnyConcat(v, ":" + rest, {':', '/', '?', '#'});
    assert s[|v|] == ':';
    assert s[..|v|] == v;
    assert s[|v| + 1..] == rest;
  }

  /** Without a scheme, a string that begins with `/` is not read as having
      one. */
  lemma SchemeAbsentSlash(rest: string)
    requires rest != [] && rest[0] == '/'
    ensures TakeScheme(rest) == Cut(None, rest)
  {
  }

  /** Without a scheme or an authority, a path whose first `:` (if any)
      comes after a `/` or at the very start is not read as having a
      scheme. */
  lemma SchemeAbsentPath(path: string, qf: string)
    requires NoneOf(path, {'?', '#'})
    requires var k := IndexOfAny(path, {':', '/'}); k == 0 || k == |path| || path[k] == '/'
    requires qf == [] || qf[0] in {'?', '#'}
    ensures TakeScheme(path + qf) == Cut(None, path + qf)
  {
    var cs := {':', '/', '?', '#'};
    var rest := path + qf;
    IndexOfAnyConcat(path, qf, cs);
    var kp := IndexOfAny(path, cs);
    if kp < |path| {
      IndexOfAnyAt(path, {':', '/'}, kp);
      assert rest[kp] == path[kp];
    } else if qf != [] {
      assert IndexOfAny(qf, cs) == 0;
      assert rest[|path|] == qf[0];
    }
  }

  /** The scheme of a well-formed reference is cut off whole, and a
      reference without scheme cannot be read as having one. */
  lemma SchemeRoundTrip(u: Reference)
    requires WellFormed(u)
    ensures TakeScheme(Recompose(u)) == Cut(u.scheme, AfterScheme(u))
  {
    if u.scheme.Some? {
      SchemePresent(u.scheme.value, AfterScheme(u));
    } else if u.authority.Some? {
      SchemeAbsentSlash(AfterScheme(u));
    } else {
      assert AfterScheme(u) == u.path + AfterPath(u);
      SchemeAbsentPath(u.path, AfterPath(u));
    }
  }

  /** Recomposing a well-formed reference and parsing the result gives the
      reference back. */
  lemma ParseRecompose(u: Reference)
    requires WellFormed(u)
    ensures Parse(Recompose(u)) == u
  {
    SchemeRoundTrip(u);
    AuthorityPart(u);
    PathPart(u);
  }

  /** After the scheme, the authority of a well-formed reference is cut off
      whole. */
  lemma AuthorityPart(u: Reference)
    requires WellFormed(u)
    ensures TakeAuthority(AfterScheme(u)) == Cut(u.authority, AfterAuthority(u))
  {
    if u.authority.None? {
      NoFalseAuthority(u);
    }
    AuthorityRoundTrip(u.authority, AfterAuthority(u));
  }

  /** After the authority, the path, the query and the fragment of a
      well-formed reference are cut off whole. */
  lemma PathPart(u: Reference)
    requires WellFormed(u)
    ensures var r := AfterAuthority(u);
            var p := IndexOfAny(r, {'?', '#'});
            && r[..p] == u.path
            && TakeQuery(r[p..]) == Cut(u.query, FragmentText(u.fragment))
            && TakeFragment(FragmentText(u.fragment)) == u.fragment
  {
    PathRoundTrip(u.path, AfterPath(u));
    QueryRoundTrip(u.query, u.fragment);
    FragmentRoundTrip(u.fragment);
  }

  /** What `TakeScheme` cuts off, put back in front of the rest, is the
      string; a scheme it finds is non-empty and free of `:`, `/`, `?` and
      `#`. */
  lemma SchemeSplit(s: string)
    ensures var c := TakeScheme(s);
            && s == SchemeText(c.part) + c.rest
            && (c.part.Some? ==> c.part.value != [] && NoneOf(c.part.value, {':', '/', '?', '#'}))
            && (c.part.None? ==> c.rest == s)
  {
    var k := IndexOfAny(s, {':', '/', '?', '#'});
    if 0 < k < |s| && s[k] == ':' {
      assert s == s[..k] + ":" + s[k + 1..];
    }
  }

  /** What `TakeAuthority` cuts off, put back in front of the rest, is the
      string; an authority it finds is free of `/`, `?` and `#` and is
      followed by one of them or by nothing. */
  lemma AuthoritySplit(s: string)
    ensures var c := TakeAuthority(s);
            && s == AuthorityText(c.part) + c.rest
            && (c.part.Some? ==> NoneOf(c.part.value, {'/', '?', '#'}) && (c.rest == [] || c.rest[0] in {'/', '?', '#'}))
            && (c.part.None? ==> c.rest == s && !(|s| >= 2 && s[0] == '/' && s[1] == '/'))
  {
    if |s| >= 2 && s[0] == '/' && s[1] == '/' {
      var a := IndexOfAny(s[2..], {'/', '?', '#'});
      assert s == "//" + s[2..2 + a] + s[2 + a..];
      assert s[2 + a..] == s[2..][a..];
    }
  }

  /** What `TakeQuery` cuts off a string that starts at a `?` or `#`, put
      back in front of the rest, is the string; a query it finds has no `#`
      and is followed by the fragment or by nothing. */
  lemma QuerySplit(s: string)
    requires s == [] || s[0] in {'?', '#'}
    ensures var c := TakeQuery(s);
            && s == QueryText(c.part) + c.rest
            && (c.part.Some? ==> NoneOf(c.part.value, {'#'}))
            && (c.rest == [] || c.rest[0] == '#')
  {
    if s != [] && s[0] == '?' {
      var q := IndexOfAny(s[1..], {'#'});
      assert s == "?" + s[1..1 + q] + s[1 + q..];
      assert s[1 + q..] == s[1..][q..];
      assert forall j :: 0 <= j < q ==> s[1..1 + q][j] == s[1..][j];
    }
  }

  /** A string that is empty or starts at a `#` is the text of its fragment. */
  lemma FragmentSplit(s: string)
    requires s == [] || s[0] == '#'
    ensures FragmentText(TakeFragment(s)) == s
  {
    if s != [] {
      assert s == "#" + s[1..];
    }
  }

  /** A `:` in a string, preceded only by characters other than `:`, `/`,
      `?` and `#`, is where the scheme ends. */
  lemma ColonEndsScheme(s: string, k: nat)
    requires 0 < k < |s| && s[k] == ':'
    requires forall j :: 0 <= j < k ==> s[j] !in {':', '/', '?', '#'}
    ensures TakeScheme(s).part == Some(s[..k])
  {
    IndexOfAnyAt(s, {':', '/', '?', '#'}, k);
  }

  /** Every string is the text of the reference it parses to. */
  lemma RecomposeParse(s: string)
    ensures Recompose(Parse(s)) == s
  {
    var sc := TakeScheme(s);
    var au := TakeAuthority(sc.rest);
    var u := Parse(s);
    TailSplit(au.rest);
    assert AfterAuthority(u) == au.rest;
    AuthoritySplit(sc.rest);
    assert AfterScheme(u) == sc.rest;
    SchemeSplit(s);
  }

  /** What follows the authority is the text of the path, query and
      fragment the parser cuts from it. */
  lemma TailSplit(r: string)
    ensures var p := IndexOfAny(r, {'?', '#'});
            var q := TakeQuery(r[p..]);
            r[..p] + (QueryText(q.part) + FragmentText(TakeFragment(q.rest))) == r
  {
    var p := IndexOfAny(r, {'?', '#'});
    var tail := r[p..];
    assert r[..p] + tail == r;
    QuerySplit(tail);
    FragmentSplit(TakeQuery(tail).rest);
  }

  /** The path the parser cuts off has no `?` or `#`, and what follows it
      starts at one of them or is empty. */
  lemma PathSplit(r: string)
    ensures var p := IndexOfAny(r, {'?', '#'});
            NoneOf(r[..p], {'?', '#'}) && (r[p..] == [] || r[p..][0] in {'?', '#'})
  {
    var p := IndexOfAny(r, {'?', '#'});
    assert forall j :: 0 <= j < p ==> r[..p][j] == r[j];
  }

  /** After an authority the path is empty or begins with `/`; without one
      it does not begin with `//`. */
  lemma PathAfterAuthority(a: Option<string>, r: string)
    requires a.Some? ==> r == [] || r[0] in {'/', '?', '#'}
    requires a.None? ==> !(|r| >= 2 && r[0] == '/' && r[1] == '/')
    ensures var path := r[..IndexOfAny(r, {'?', '#'})];
            && (a.Some? ==> path == [] || path[0] == '/')
            && (a.None? ==> !("//" <= path))
  {
    var path := r[..IndexOfAny(r, {'?', '#'})];
    if |path| >= 2 {
      assert path[..2] == r[..2];
    }
  }

  /** Without scheme and authority, the path's first `:` or `/` is a `/` or
      comes first: otherwise the parser would have read a scheme. */
  lemma PathWithoutScheme(s: string)
    requires TakeScheme(s).part.None?
    ensures var path := s[..IndexOfAny(s, {'?', '#'})];
            var kp := IndexOfAny(path, {':', '/'});
            kp == 0 || kp == |path| || path[kp] == '/'
  {
    var path := s[..IndexOfAny(s, {'?', '#'})];
    var kp := IndexOfAny(path, {':', '/'});
    PathSplit(s);
    if 0 < kp < |path| && path[kp] == ':' {
      ColonEndsScheme(s, kp);
    }
  }

  /** Every string parses to a well-formed reference. */
  lemma ParseWellFormed(s: string)
    ensures WellFormed(Parse(s))
  {
    var sc := TakeScheme(s);
    var au := TakeAuthority(sc.rest);
    var p := IndexOfAny(au.rest, {'?', '#'});
    SchemeSplit(s);
    AuthoritySplit(sc.rest);
    PathSplit(au.rest);
    PathAfterAuthority(au.part, au.rest);
    if sc.part.None? && au.part.None? {
      PathWithoutScheme(s);
    }
    QuerySplit(au.rest[p..]);
  }

  /** Section 5.2.4, step 2C and 2D: the output buffer without its last
      segment and the `/` before it. */
  function DropLastSegment(output: string): string
  {
    var k := LastSlash(output);
    if k < 0 then "" else output[..k]
  }

  /** Section 5.2.4: `remove_dot_segments`. */
  function RemoveDotSegments(path: string): string
  {
    DotLoop(path, "")
  }

  /** The loop of section 5.2.4 over the input buffer `input`, with `output`
      holding what has been moved out of it so far. */
  function DotLoop(input: string, output: string): string
    decreases |input|
  {
    if input == [] then output
    else if "../" <= input then DotLoop(input[3..], output)
    else if "./" <= input then DotLoop(input[2..], output)
    else if "/./" <= input then DotLoop(input[2..], output)
    else if input == "/." then DotLoop("/", output)
    else if "/../" <= input then DotLoop(input[3..], DropLastSegment(output))
    else if input == "/.." then DotLoop("/", DropLastSegment(output))
    else if input == "." || input == ".." then output
    else
      var start := if input[0] == '/' then 1 else 0;
      var n := start + IndexOfAny(input[start..], {'/'});
      assert n > 0;
      DotLoop(input[n..], output + input[..n])
  }

  /** Section 5.2.3: a relative path against the base. */
  function Merge(base: Reference, refPath: string): string
  {
    if base.authority.Some? && base.path == [] then "/" + refPath
    else base.path[..LastSlash(base.path) + 1] + refPath
  }

  /** `urlsplit` gives an empty string for a query or fragment that is
      missing and for one that is present but empty, and `urlunsplit` writes
      neither: to `urljoin` an empty query or fragment is an absent one. */
  function Tidy(u: Reference): (t: Reference)
    ensures t.scheme == u.scheme && t.authority == u.authority && t.path == u.path
    ensures t.query != Some("") && t.fragment != Some("")
    ensures u.query != Some("") ==> t.query == u.query
    ensures u.fragment != Some("") ==> t.fragment == u.fragment
  {
    u.(query := if u.query == Some("") then None else u.query,
       fragment := if u.fragment == Some("") then None else u.fragment)
  }

  /** The transform of `urljoin` for a reference whose scheme is absent or
      the base's.  It is that of section 5.2.2 except that a reference with
      an authority keeps its path as written, with no dot segments removed. */
  function Resolve(base: Reference, r: Reference): (t: Reference)
    ensures t.scheme == base.scheme
    ensures t.fragment == r.fragment
    ensures r.authority.Some? ==> t.authority == r.authority && t.path == r.path && t.query == r.query
    ensures r.authority.None? ==> t.authority == base.authority
    ensures r.authority.None? && r.path == [] ==>
              t.path == base.path && t.query == (if r.query.Some? then r.query else base.query)
    ensures r.path != [] ==> t.query == r.query
  {
    if r.authority.Some? then
      Reference(base.scheme, r.authority, r.path, r.query, r.fragment)
    else if r.path == [] then
      Reference(base.scheme, base.authority, base.path,
                if r.query.Some? then r.query else base.query, r.fragment)
    else if r.path[0] == '/' then
      Reference(base.scheme, base.authority, RemoveDotSegments(r.path), r.query, r.fragment)
    else
      Reference(base.scheme, base.authority, RemoveDotSegments(Merge(base, r.path)), r.query, r.fragment)
  }

  /** `urljoin(base, url)`: an empty base gives the reference unchanged, an
      empty reference gives the base unchanged, a reference with a scheme
      other than the base's is returned as it is, and otherwise the
      reference is resolved against the base, empty queries and fragments
      counting as absent. */
  function UrlJoin(base: string, url: string): string
  {
    if base == [] then url
    else if url == [] then base
    else
      var b := Tidy(Parse(base));
      var r := Tidy(Parse(url));
      if r.scheme.Some? && r.scheme != b.scheme then url
      else Recompose(Resolve(b, r))
  }

  /** `urljoin` of a non-empty base and a non-empty reference whose scheme
      is absent or the base's is the recomposed resolution. */
  lemma JoinResolves(base: string, url: string, b: Reference, r: Reference)
    requires base != [] && url != [] && Parse(base) == b && Parse(url) == r
    requires r.scheme.None? || r.scheme == b.scheme
    ensures UrlJoin(base, url) == Recompose(Resolve(Tidy(b), Tidy(r)))
  {
  }

  /** `urljoin` of a non-empty base and a non-empty reference with a scheme
      other than the base's is the reference as written. */
  lemma JoinOtherScheme(base: string, url: string, b: Reference, r: Reference)
    requires base != [] && url != [] && Parse(base) == b && Parse(url) == r
    requires r.scheme.Some? && r.scheme != b.scheme
    ensures UrlJoin(base, url) == url
  {
  }

  /** The absolute path made of the given segments, each after a `/`. */
  function SegmentPath(segs: seq<string>): (p: string)
    ensures p == [] || p[0] == '/'
    ensures segs != [] ==> p != []
  {
    if segs == [] then "" else "/" + segs[0] + SegmentPath(segs[1..])
  }

  /** No segment holds a `/`, and none is `.` or `..`. */
  predicate PlainSegments(segs: seq<string>)
  {
    forall k :: 0 <= k < |segs| ==> NoneOf(segs[k], {'/'}) && segs[k] != "." && segs[k] != ".."
  }

  /** The loop of section 5.2.4 moves a path without dot segments to the
      output as it is. */
  lemma {:induction false} PlainPathMoves(segs: seq<string>, output: string)
    requires PlainSegments(segs)
    ensures DotLoop(SegmentPath(segs), output) == output + SegmentPath(segs)
  {
    if segs != [] {
      var seg, rest := segs[0], SegmentPath(segs[1..]);
      PlainSegmentsTail(segs);
      calc {
        DotLoop(SegmentPath(segs), output);
        DotLoop("/" + seg + rest, output);
        { DotLoopSegment(seg, rest, output); }
        DotLoop(rest, output + "/" + seg);
        { PlainPathMoves(segs[1..], output + "/" + seg); }
        output + "/" + seg + rest;
        { MovedSegment(output, seg, rest); }
        output + SegmentPath(segs);
      }
    }
  }

  /** Moving `/seg` and then `rest` is moving `/seg` followed by `rest`. */
  lemma MovedSegment(output: string, seg: string, rest: string)
    ensures output + "/" + seg + rest == output + ("/" + seg + rest)
  {
  }

  /** The first segment of a plain list is ordinary, and the rest is plain. */
  lemma PlainSegmentsTail(segs: seq<string>)
    requires segs != [] && PlainSegments(segs)
    ensures NoneOf(segs[0], {'/'}) && segs[0] != "." && segs[0] != ".."
    ensures PlainSegments(segs[1..])
  {
    forall k | 0 <= k < |segs[1..]|
      ensures NoneOf(segs[1..][k], {'/'}) && segs[1..][k] != "." && segs[1..][k] != ".."
    {
      assert segs[1..][k] == segs[k + 1];
    }
  }

  /** `remove_dot_segments` leaves a path without dot segments unchanged. */
  lemma PlainPathKept(segs: seq<string>)
    requires PlainSegments(segs)
    ensures RemoveDotSegments(SegmentPath(segs)) == SegmentPath(segs)
  {
    PlainPathMoves(segs, "");
  }

  /** A reference without an authority whose path is absolute and free of
      dot segments keeps its path, whatever the base. */
  lemma ResolvePlainPath(base: Reference, r: Reference, segs: seq<string>)
    requires r.authority.None? && segs != [] && PlainSegments(segs) && r.path == SegmentPath(segs)
    ensures Resolve(base, r).path == r.path
  {
    PlainPathKept(segs);
  }

  /** The base of the example below, parsed. */
  lemma ParseSiteBase()
    ensures Parse("https://site.example/cat/list")
            == Reference(Some("https"), Some("site.example"), "/cat/list", None, None)
  {
    var base := Reference(Some("https"), Some("site.example"), "/cat/list", None, None);
    RecomposeSiteBase();
    SiteBaseWellFormed();
    ParseRecompose(base);
  }

  lemma RecomposeSiteBase()
    ensures Recompose(Reference(Some("https"), Some("site.example"), "/cat/list", None, None))
            == "https://site.example/cat/list"
  {
  }

  lemma SiteBaseWellFormed()
    ensures WellFormed(Reference(Some("https"), Some("site.example"), "/cat/list", None, None))
  {
  }

  /** The relative reference of the example below, parsed. */
  lemma ParseParentRef()
    ensures Parse("../item?id=5") == Reference(None, None, "../item", Some("id=5"), None)
  {
    var r := Reference(None, None, "../item", Some("id=5"), None);
    RecomposeParentRef();
    ParentRefWellFormed();
    ParseRecompose(r);
  }

  lemma RecomposeParentRef()
    ensures Recompose(Reference(None, None, "../item", Some("id=5"), None)) == "../item?id=5"
  {
  }

  lemma ParentRefWellFormed()
    ensures WellFormed(Reference(None, None, "../item", Some("id=5"), None))
  {
    IndexOfAnyAt("../item", {':', '/'}, 2);
  }

  /** The last `/` is pinned down by its two properties. */
  lemma LastSlashAt(s: string, k: nat)
    requires k < |s| && s[k] == '/'
    requires forall j :: k < j < |s| ==> s[j] != '/'
    ensures LastSlash(s) == k
  {
  }

  /** One step of section 5.2.4, rule 2E, on an ordinary segment: `/seg`
      moves to the output whole. */
  lemma DotLoopSegment(seg: string, rest: string, output: string)
    requires NoneOf(seg, {'/'}) && seg != "." && seg != ".."
    requires rest == [] || rest[0] == '/'
    ensures DotLoop("/" + seg + rest, output) == DotLoop(rest, output + "/" + seg)
  {
    var input := "/" + seg + rest;
    OrdinarySegment(seg, rest);
    DotLoopRuleE(input, output);
    AppendSegment(output, seg, input[..1 + |seg|]);
  }

  /** Moving `/seg` to the output is appending `/` and then `seg`. */
  lemma AppendSegment(output: string, seg: string, moved: string)
    requires moved == "/" + seg
    ensures output + moved == output + "/" + seg
  {
  }

  /** Rule 2E of section 5.2.4 on an input that starts with `/` and that
      rules 2A to 2D leave alone: everything up to the next `/` moves to the
      output. */
  lemma DotLoopRuleE(input: string, output: string)
    requires input != [] && input[0] == '/'
    requires !("/./" <= input) && input != "/." && !("/../" <= input) && input != "/.."
    ensures var n := 1 + IndexOfAny(input[1..], {'/'});
            DotLoop(input, output) == DotLoop(input[n..], output + input[..n])
  {
    assert !("../" <= input) && !("./" <= input) by {
      assert input[0] != '.';
    }
  }

  /** `/seg` followed by a path matches none of rules 2A to 2D of section
      5.2.4, and rule 2E moves exactly `/seg`. */
  lemma OrdinarySegment(seg: string, rest: string)
    requires NoneOf(seg, {'/'}) && seg != "." && seg != ".."
    requires rest == [] || rest[0] == '/'
    ensures var input := "/" + seg + rest;
            && input != [] && input[0] == '/'
            && !("../" <= input) && !("./" <= input)
            && !("/./" <= input) && input != "/." && !("/../" <= input) && input != "/.."
            && var n := 1 + IndexOfAny(input[1..], {'/'});
               n == 1 + |seg| && input[..n] == "/" + seg && input[n..] == rest
  {
    NotDotSegment(seg, rest);
    SegmentEnd(seg, rest);
  }

  /** `/seg` followed by a path is none of the dot segments. */
  lemma NotDotSegment(seg: string, rest: string)
    requires NoneOf(seg, {'/'}) && seg != "." && seg != ".."
    requires rest == [] || rest[0] == '/'
    ensures var input := "/" + seg + rest;
            !("/./" <= input) && input != "/." && !("/../" <= input) && input != "/.."
  {
    var input := "/" + seg + rest;
    if |seg| >= 2 {
      assert input[1] == seg[0] && input[2] == seg[1];
      if |seg| == 2 {
        assert seg == [seg[0], seg[1]];
      } else {
        assert input[3] == seg[2];
      }
    } else if |seg| == 1 {
      assert input[1] == seg[0];
      assert seg == [seg[0]];
    } else if rest != [] {
      assert input[1] == rest[0];
    }
  }

  /** In `/seg` followed by a path, the next `/` after the first is where
      the path begins. */
  lemma SegmentEnd(seg: string, rest: string)
    requires NoneOf(seg, {'/'})
    requires rest == [] || rest[0] == '/'
    ensures var input := "/" + seg + rest;
            var n := 1 + IndexOfAny(input[1..], {'/'});
            n == 1 + |seg| && input[..n] == "/" + seg && input[n..] == rest
  {
    var input := "/" + seg + rest;
    assert input[1..] == seg + rest;
    IndexOfAnyConcat(seg, rest, {'/'});
  }

  /** Rule 2C of section 5.2.4: `/../` drops the last output segment. */
  lemma DotLoopParent(rest: string, output: string)
    requires rest != [] && rest[0] == '/'
    ensures DotLoop("/.." + rest, output) == DotLoop(rest, DropLastSegment(output))
  {
    var input := "/.." + rest;
    assert input[0] == '/' && input[1] == '.' && input[2] == '.' && input[3] == '/';
    assert !("../" <= input) && !("./" <= input) && !("/./" <= input) && input != "/.";
    assert "/../" <= input;
    assert input[3..] == rest;
    assert DotLoop(input, output) == DotLoop(input[3..], DropLastSegment(output));
  }

  /** The relative path of the example below, merged with the base path:
      everything up to the base's last `/` is kept. */
  lemma MergeParentExample()
    ensures Merge(Reference(Some("https"), Some("site.example"), "/cat/list", None, None), "../item") == "/cat/../item"
  {
    LastSlashAt("/cat/list", 4);
    assert "/cat/list" == "/cat/" + "list";
  }

  /** `/cat/../item` loses `cat` and the `..` that climbs out of it. */
  lemma ParentDotsExample()
    ensures RemoveDotSegments("/cat/../item") == "/item"
  {
    calc {
      RemoveDotSegments("/cat/../item");
      DotLoop("/cat/../item", "");
      { assert "/cat/../item" == "/" + "cat" + ("/.." + "/item");
        DotLoopSegment("cat", "/.." + "/item", ""); }
      DotLoop("/.." + "/item", "" + "/" + "cat");
      { assert "" + "/" + "cat" == "/cat";
        DotLoopParent("/item", "/cat"); }
      DotLoop("/item", DropLastSegment("/cat"));
      { LastSlashAt("/cat", 0); }
      DotLoop("/item", "");
      { assert "/item" == "/" + "item" + "";
        DotLoopSegment("item", "", ""); }
      DotLoop("", "" + "/" + "item");
    }
  }

  /** The merged path of the example below, with its dot segments removed. */
  lemma ParentPathExample()
    ensures RemoveDotSegments(Merge(Reference(Some("https"), Some("site.example"), "/cat/list", None, None), "../item"))
            == "/item"
  {
    MergeParentExample();
    ParentDotsExample();
  }

  /** Neither the base nor the reference of the example below has an empty
      query or fragment. */
  lemma TidyParentExample()
    ensures Tidy(Reference(Some("https"), Some("site.example"), "/cat/list", None, None))
            == Reference(Some("https"), Some("site.example"), "/cat/list", None, None)
    ensures Tidy(Reference(None, None, "../item", Some("id=5"), None))
            == Reference(None, None, "../item", Some("id=5"), None)
  {
  }

  /** The reference of the example below, resolved. */
  lemma ResolveParentExample()
    ensures Resolve(Reference(Some("https"), Some("site.example"), "/cat/list", None, None),
                    Reference(None, None, "../item", Some("id=5"), None))
            == Reference(Some("https"), Some("site.example"), "/item", Some("id=5"), None)
  {
    ParentPathExample();
  }

  /** The target of the example below, recomposed. */
  lemma RecomposeItemExample()
    ensures Recompose(Reference(Some("https"), Some("site.example"), "/item", Some("id=5"), None))
            == "https://site.example/item?id=5"
  {
  }

  /** `urljoin("https://site.example/cat/list", "../item?id=5")` climbs out
      of `/cat/` and keeps the query: `"https://site.example/item?id=5"`. */
  lemma JoinParentExample()
    ensures UrlJoin("https://site.example/cat/list", "../item?id=5") == "https://site.example/item?id=5"
  {
    var b := Reference(Some("https"), Some("site.example"), "/cat/list", None, None);
    var r := Reference(None, None, "../item", Some("id=5"), None);
    var t := Reference(Some("https"), Some("site.example"), "/item", Some("id=5"), None);
    calc {
      UrlJoin("https://site.example/cat/list", "../item?id=5");
      { ParseSiteBase(); ParseParentRef();
        JoinResolves("https://site.example/cat/list", "../item?id=5", b, r); }
      Recompose(Resolve(Tidy(b), Tidy(r)));
      { TidyParentExample(); }
      Recompose(Resolve(b, r));
      { ResolveParentExample(); }
      Recompose(t);
      { RecomposeItemExample(); }
      "https://site.example/item?id=5";
    }
  }
  /** The catalog page of the example below, parsed. */
  lemma ParseCatalogBase()
    ensures Parse("https://base/catalog") == Reference(Some("https"), Some("base"), "/catalog", None, None)
  {
    var base := Reference(Some("https"), Some("base"), "/catalog", None, None);
    RecomposeCatalogBase();
    CatalogBaseWellFormed();
    ParseRecompose(base);
  }

  lemma RecomposeCatalogBase()
    ensures Recompose(Reference(Some("https"), Some("base"), "/catalog", None, None)) == "https://base/catalog"
  {
  }

  lemma CatalogBaseWellFormed()
    ensures WellFormed(Reference(Some("https"), Some("base"), "/catalog", None, None))
  {
  }

  /** The absolute-path reference of the example below, parsed. */
  lemma ParseAbsoluteRef()
    ensures Parse("/p/9") == Reference(None, None, "/p/9", None, None)
  {
    var r := Reference(None, None, "/p/9", None, None);
    assert "/p/9"[1] == 'p';
    assert IndexOfAny("/p/9", {':', '/'}) == 0;
    assert Recompose(r) == "/p/9";
    ParseRecompose(r);
  }

  /** The path of the example below has no dot segments to remove. */
  lemma AbsolutePathExample()
    ensures RemoveDotSegments("/p/9") == "/p/9"
  {
    calc {
      RemoveDotSegments("/p/9");
      DotLoop("/p/9", "");
      { assert "/p/9" == "/" + "p" + "/9";
        DotLoopSegment("p", "/9", ""); }
      DotLoop("/9", "" + "/" + "p");
      { assert "" + "/" + "p" == "/p";
        assert "/9" == "/" + "9" + "";
        DotLoopSegment("9", "", "/p"); }
      DotLoop("", "/p" + "/" + "9");
    }
  }

  /** `urljoin("https://base/catalog", "/p/9")` keeps the scheme and host of
      the page and takes the path of the link: `"https://base/p/9"`. */
  lemma JoinAbsoluteExample()
    ensures UrlJoin("https://base/catalog", "/p/9") == "https://base/p/9"
  {
    var b := Reference(Some("https"), Some("base"), "/catalog", None, None);
    var r := Reference(None, None, "/p/9", None, None);
    var t := Reference(Some("https"), Some("base"), "/p/9", None, None);
    calc {
      UrlJoin("https://base/catalog", "/p/9");
      { ParseCatalogBase(); ParseAbsoluteRef();
        JoinResolves("https://base/catalog", "/p/9", b, r); }
      Recompose(Resolve(Tidy(b), Tidy(r)));
      { TidyAbsoluteExample(); }
      Recompose(Resolve(b, r));
      { ResolveAbsoluteExample(); }
      Recompose(t);
      { RecomposeProductExample(); }
      "https://base/p/9";
    }
  }

  /** The target of the example above, recomposed. */
  lemma RecomposeProductExample()
    ensures Recompose(Reference(Some("https"), Some("base"), "/p/9", None, None)) == "https://base/p/9"
  {
  }

  /** A bare `#`, as pages often write it, parsed: an empty fragment. */
  lemma ParseBareFragment()
    ensures Parse("#") == Reference(None, None, "", None, Some(""))
  {
    var r := Reference(None, None, "", None, Some(""));
    assert Recompose(r) == "#";
    ParseRecompose(r);
  }

  /** `urljoin("https://base/catalog", "#")` is the page itself: the empty
      fragment is dropped. */
  lemma JoinBareFragmentExample()
    ensures UrlJoin("https://base/catalog", "#") == "https://base/catalog"
  {
    var b := Reference(Some("https"), Some("base"), "/catalog", None, None);
    var r := Reference(None, None, "", None, Some(""));
    var t := Reference(Some("https"), Some("base"), "/catalog", None, None);
    calc {
      UrlJoin("https://base/catalog", "#");
      { ParseCatalogBase(); ParseBareFragment();
        JoinResolves("https://base/catalog", "#", b, r); }
      Recompose(Resolve(Tidy(b), Tidy(r)));
      { TidyBareFragmentExample(); }
      Recompose(Resolve(b, Reference(None, None, "", None, None)));
      { ResolveBareFragmentExample(); }
      Recompose(t);
      { RecomposeCatalogBase(); }
      "https://base/catalog";
    }
  }

  /** A base with a query, parsed. */
  lemma ParseQueryBase()
    ensures Parse("https://b/c?x=1") == Reference(Some("https"), Some("b"), "/c", Some("x=1"), None)
  {
    var base := Reference(Some("https"), Some("b"), "/c", Some("x=1"), None);
    RecomposeQueryBase();
    ParseRecompose(base);
  }

  lemma RecomposeQueryBase()
    ensures Recompose(Reference(Some("https"), Some("b"), "/c", Some("x=1"), None)) == "https://b/c?x=1"
  {
  }

  /** A bare `?` parsed: an empty query. */
  lemma ParseBareQuery()
    ensures Parse("?") == Reference(None, None, "", Some(""), None)
  {
    var r := Reference(None, None, "", Some(""), None);
    assert Recompose(r) == "?";
    ParseRecompose(r);
  }

  /** `urljoin("https://b/c?x=1", "?")` keeps the query of the base: the
      empty query counts as absent. */
  lemma JoinBareQueryExample()
    ensures UrlJoin("https://b/c?x=1", "?") == "https://b/c?x=1"
  {
    var b := Reference(Some("https"), Some("b"), "/c", Some("x=1"), None);
    var r := Reference(None, None, "", Some(""), None);
    var t := Reference(Some("https"), Some("b"), "/c", Some("x=1"), None);
    calc {
      UrlJoin("https://b/c?x=1", "?");
      { ParseQueryBase(); ParseBareQuery();
        JoinResolves("https://b/c?x=1", "?", b, r); }
      Recompose(Resolve(Tidy(b), Tidy(r)));
      { TidyBareQueryExample(); }
      Recompose(Resolve(b, Reference(None, None, "", None, None)));
      { ResolveBareQueryExample(); }
      Recompose(t);
      { RecomposeQueryBase(); }
      "https://b/c?x=1";
    }
  }

  /** A network-path reference with a dot segment, parsed. */
  lemma ParseNetworkRef()
    ensures Parse("//cdn/x/../y") == Reference(None, Some("cdn"), "/x/../y", None, None)
  {
    var r := Reference(None, Some("cdn"), "/x/../y", None, None);
    RecomposeNetworkRef();
    assert IndexOfAny(r.path, {':', '/'}) == 0;
    ParseRecompose(r);
  }

  lemma RecomposeNetworkRef()
    ensures Recompose(Reference(None, Some("cdn"), "/x/../y", None, None)) == "//cdn/x/../y"
  {
  }

  /** `urljoin("https://base/catalog", "//cdn/x/../y")` takes the host of the
      reference and keeps its path as written: `"https://cdn/x/../y"`. */
  lemma JoinNetworkPathExample()
    ensures UrlJoin("https://base/catalog", "//cdn/x/../y") == "https://cdn/x/../y"
  {
    var b := Reference(Some("https"), Some("base"), "/catalog", None, None);
    var r := Reference(None, Some("cdn"), "/x/../y", None, None);
    var t := Reference(Some("https"), Some("cdn"), "/x/../y", None, None);
    calc {
      UrlJoin("https://base/catalog", "//cdn/x/../y");
      { ParseCatalogBase(); ParseNetworkRef();
        JoinResolves("https://base/catalog", "//cdn/x/../y", b, r); }
      Recompose(Resolve(Tidy(b), Tidy(r)));
      { TidyNetworkExample(); }
      Recompose(Resolve(b, r));
      { ResolveNetworkExample(); }
      Recompose(t);
      { RecomposeNetworkTarget(); }
      "https://cdn/x/../y";
    }
  }

  lemma RecomposeNetworkTarget()
    ensures Recompose(Reference(Some("https"), Some("cdn"), "/x/../y", None, None)) == "https://cdn/x/../y"
  {
  }

  /** A `mailto:` link, parsed. */
  lemma ParseMailRef()
    ensures Parse("mailto:shop@base") == Reference(Some("mailto"), None, "shop@base", None, None)
  {
    var r := Reference(Some("mailto"), None, "shop@base", None, None);
    RecomposeMailRef();
    MailRefWellFormed();
    ParseRecompose(r);
  }

  lemma RecomposeMailRef()
    ensures Recompose(Reference(Some("mailto"), None, "shop@base", None, None)) == "mailto:shop@base"
  {
  }

  lemma MailRefWellFormed()
    ensures WellFormed(Reference(Some("mailto"), None, "shop@base", None, None))
  {
    assert !("//" <= "shop@base") by {
      assert "shop@base"[0] == 's';
    }
  }

  /** `urljoin("https://base/catalog", "mailto:shop@base")` returns the link
      as it is, because its scheme is not the page's. */
  lemma JoinOtherSchemeExample()
    ensures UrlJoin("https://base/catalog", "mailto:shop@base") == "mailto:shop@base"
  {
    var b := Reference(Some("https"), Some("base"), "/catalog", None, None);
    var r := Reference(Some("mailto"), None, "shop@base", None, None);
    ParseCatalogBase();
    ParseMailRef();
    JoinOtherScheme("https://base/catalog", "mailto:shop@base", b, r);
  }

  /** The page URL of the catalog examples has no empty query or fragment. */
  lemma TidyCatalogBase()
    ensures var b := Reference(Some("https"), Some("base"), "/catalog", None, None);
            Tidy(b) == b
  {
  }

  /** The reference of the absolute-path example is tidy already. */
  lemma TidyAbsoluteExample()
    ensures Tidy(Reference(Some("https"), Some("base"), "/catalog", None, None))
            == Reference(Some("https"), Some("base"), "/catalog", None, None)
    ensures Tidy(Reference(None, None, "/p/9", None, None)) == Reference(None, None, "/p/9", None, None)
  {
    TidyCatalogBase();
  }

  /** `/p/9` against the catalog page: the base's scheme and host, the
      reference's path. */
  lemma ResolveAbsoluteExample()
    ensures Resolve(Reference(Some("https"), Some("base"), "/catalog", None, None),
                    Reference(None, None, "/p/9", None, None))
            == Reference(Some("https"), Some("base"), "/p/9", None, None)
  {
    AbsolutePathExample();
  }

  /** Tidying drops the empty fragment of a bare `#`. */
  lemma TidyBareFragmentExample()
    ensures Tidy(Reference(Some("https"), Some("base"), "/catalog", None, None))
            == Reference(Some("https"), Some("base"), "/catalog", None, None)
    ensures Tidy(Reference(None, None, "", None, Some(""))) == Reference(None, None, "", None, None)
  {
    TidyCatalogBase();
  }

  /** An empty reference resolves to the base. */
  lemma ResolveBareFragmentExample()
    ensures Resolve(Reference(Some("https"), Some("base"), "/catalog", None, None),
                    Reference(None, None, "", None, None))
            == Reference(Some("https"), Some("base"), "/catalog", None, None)
  {
  }

  /** Tidying drops the empty query of a bare `?`. */
  lemma TidyBareQueryExample()
    ensures Tidy(Reference(Some("https"), Some("b"), "/c", Some("x=1"), None))
            == Reference(Some("https"), Some("b"), "/c", Some("x=1"), None)
    ensures Tidy(Reference(None, None, "", Some(""), None)) == Reference(None, None, "", None, None)
  {
  }

  /** An empty reference without a query takes the base's query. */
  lemma ResolveBareQueryExample()
    ensures Resolve(Reference(Some("https"), Some("b"), "/c", Some("x=1"), None),
                    Reference(None, None, "", None, None))
            == Reference(Some("https"), Some("b"), "/c", Some("x=1"), None)
  {
  }

  /** The reference of the network-path example is tidy already. */
  lemma TidyNetworkExample()
    ensures Tidy(Reference(Some("https"), Some("base"), "/catalog", None, None))
            == Reference(Some("https"), Some("base"), "/catalog", None, None)
    ensures Tidy(Reference(None, Some("cdn"), "/x/../y", None, None))
            == Reference(None, Some("cdn"), "/x/../y", None, None)
  {
    TidyCatalogBase();
  }

  /** A network-path reference keeps its host and its path as written. */
  lemma ResolveNetworkExample()
    ensures Resolve(Reference(Some("https"), Some("base"), "/catalog", None, None),
                    Reference(None, Some("cdn"), "/x/../y", None, None))
            == Reference(Some("https"), Some("cdn"), "/x/../y", None, None)
  {
  }
}
