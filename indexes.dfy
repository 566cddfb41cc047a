/**
 * Link index pages (`simpleblog/extensions/indexes.py`): pages that list a
 * link to every entry of the blog instead of entries, ordered by cache key,
 * alphabetically by title, or chronologically.
 */
module Indexes {
  import opened Wrappers
  import opened Text
  import opened Order
  import opened Core
  import opened Timestamps
  import Named

  // ---------------------------------------------------------------------
  // str.format with one named field

  /** The placeholder `{name}` of a format string. */
  function Placeholder(name: string): (p: string)
    ensures |p| == |name| + 2 && p[0] == '{'
  {
    "{" + name + "}"
  }

  /**
   * `template.format(name=value)`: every `{name}` in the template replaced
   * by the value, everything else copied.
   */
  function Fill(template: string, name: string, value: string): (r: string)
    ensures '{' !in template ==> r == template
    decreases |template|
  {
    if template == [] then []
    else if StartsWith(template, Placeholder(name)) then
      value + Fill(template[|Placeholder(name)|..], name, value)
    else
      assert '{' !in template ==> '{' !in template[1..];
      [template[0]] + Fill(template[1..], name, value)
  }

  /** A template that starts with the placeholder starts with the value. */
  lemma FillLeading(name: string, value: string, rest: string)
    ensures Fill(Placeholder(name) + rest, name, value) == value + Fill(rest, name, value)
  {
    var t := Placeholder(name) + rest;
    assert t[..|Placeholder(name)|] == Placeholder(name);
    assert t[|Placeholder(name)|..] == rest;
  }

  /** A template that is the placeholder alone gives the value. */
  lemma FillOnly(name: string, value: string)
    ensures Fill(Placeholder(name), name, value) == value
  {
    FillLeading(name, value, "");
    assert Placeholder(name) + "" == Placeholder(name);
  }

  // ---------------------------------------------------------------------
  // BlogIndexPage

  /** The `config_vars` of `BlogIndexPage`. */
  datatype IndexConfig = IndexConfig(
    linkTemplate: string,
    suffixTemplate: string,
    titleTemplate: string,
    headingTemplate: string,
    headingAlpha: string,
    headingChrono: string,
    headingKey: string,
    sep: string)

  function DefaultConfig(): (c: IndexConfig)
    ensures c.linkTemplate == Placeholder("link") && c.titleTemplate == Placeholder("heading")
    ensures c.headingTemplate == Placeholder("label") + " Index" && c.suffixTemplate == ""
    ensures c.sep == "<br>"
  {
    IndexConfig("{link}", "", "{heading}", "{label} Index", "Alphabetical", "Chronological", "Key", "<br>")
  }

  /**
   * Which index a page is: `None` for the key index, `Some(true)` for the
   * alphabetical one, `Some(false)` for the chronological one.
   */
  type Alpha = Option<bool>

  /** The word that names the kind of index in its URL. */
  function KindWord(alpha: Alpha): (w: string)
    ensures w in {"key", "alpha", "chrono"}
    ensures '.' !in w && '/' !in w
  {
    match alpha
    case None => "key"
    case Some(true) => "alpha"
    case Some(false) => "chrono"
  }

  /** The label the heading template is filled with. */
  function HeadingLabel(cfg: IndexConfig, alpha: Alpha): string {
    match alpha
    case None => cfg.headingKey
    case Some(true) => cfg.headingAlpha
    case Some(false) => cfg.headingChrono
  }

  /** A link index page: no source, no entries. */
  datatype IndexPage = IndexPage(format: string, alpha: Alpha, urlpath: string, heading: string, title: string)

  /** `BlogIndexPage.__init__`. */
  function NewIndexPage(cfg: IndexConfig, format: string, alpha: Alpha): (p: IndexPage)
    ensures p.format == format && p.alpha == alpha
    ensures p.urlpath == "/index-" + KindWord(alpha) + "." + format
    ensures p.heading == Fill(cfg.headingTemplate, "label", HeadingLabel(cfg, alpha))
    ensures p.title == Fill(cfg.titleTemplate, "heading", p.heading)
  {
    var heading := Fill(cfg.headingTemplate, "label", HeadingLabel(cfg, alpha));
    IndexPage(format, alpha, "/index-" + KindWord(alpha) + "." + format, heading,
              Fill(cfg.titleTemplate, "heading", heading))
  }

  /** With the default templates the heading is the label and ` Index`, and the title is the heading. */
  lemma DefaultHeadings(format: string, alpha: Alpha)
    ensures var p := NewIndexPage(DefaultConfig(), format, alpha);
      && p.heading == HeadingLabel(DefaultConfig(), alpha) + " Index"
      && p.title == p.heading
  {
    var cfg := DefaultConfig();
    var lbl := HeadingLabel(cfg, alpha);
    FillLeading("label", lbl, " Index");
    assert '{' !in " Index";
    FillOnly("heading", lbl + " Index");
  }

  /** The kind of index a URL word names; `None` for any other word. */
  function KindOfWord(w: string): (r: Option<Alpha>)
    ensures r.Some? ==> KindWord(r.value) == w
  {
    if w == "key" then Some(None)
    else if w == "alpha" then Some(Some(true))
    else if w == "chrono" then Some(Some(false))
    else None
  }

  /** The format and kind of index a page URL path names, if it is one of an index page. */
  function ParseUrlpath(u: string): (r: Option<(string, Alpha)>)
    ensures r.Some? ==> u == "/index-" + KindWord(r.value.1) + "." + r.value.0
  {
    if !StartsWith(u, "/index-") then None
    else
      match SplitOnce(u[7..], ".")
      case None => None
      case Some((w, format)) =>
        match KindOfWord(w)
        case None => None
        case Some(alpha) =>
          assert u == u[..7] + u[7..];
          Some((format, alpha))
  }

  /** An index page's URL path tells its format and kind of index back. */
  lemma UrlpathRoundTrip(cfg: IndexConfig, format: string, alpha: Alpha)
    ensures ParseUrlpath(NewIndexPage(cfg, format, alpha).urlpath) == Some((format, alpha))
  {
    var u := NewIndexPage(cfg, format, alpha).urlpath;
    var w := KindWord(alpha);
    assert u == "/index-" + (w + "." + format);
    assert u[7..] == w + ['.'] + format;
    SplitOnceOfChar(w, '.', format);
  }

  /** Two index pages share a URL path only when they have the same format and kind. */
  lemma UrlpathsDistinct(cfg: IndexConfig, f1: string, a1: Alpha, f2: string, a2: Alpha)
    requires (f1, a1) != (f2, a2)
    ensures NewIndexPage(cfg, f1, a1).urlpath != NewIndexPage(cfg, f2, a2).urlpath
  {
    UrlpathRoundTrip(cfg, f1, a1);
    UrlpathRoundTrip(cfg, f2, a2);
  }

  // ---------------------------------------------------------------------
  // no_entries: the links in place of the entries

  /** What the link index reads of an entry. */
  datatype IndexEntry = IndexEntry(urlpath: string, cachekey: string, title: string, timestamp: Instant)

  /** The characters the pattern `[^A-Za-z\ ]` does not remove. */
  predicate IsLetterOrSpace(c: char) {
    ('A' <= c <= 'Z') || ('a' <= c <= 'z') || c == ' '
  }

  /** `sub(rexp, "", title)`: the title without anything but ASCII letters and spaces. */
  function AlphaTitle(title: string): (r: string)
    ensures forall i :: 0 <= i < |r| ==> IsLetterOrSpace(r[i])
    ensures (forall i :: 0 <= i < |title| ==> IsLetterOrSpace(title[i])) ==> r == title
  {
    AlphaTitleKeeps(title);
    FilterChars(title, IsLetterOrSpace)
  }

  lemma {:induction false} AlphaTitleKeeps(title: string)
    ensures (forall i :: 0 <= i < |title| ==> IsLetterOrSpace(title[i])) ==> FilterChars(title, IsLetterOrSpace) == title
    decreases |title|
  {
    if title != [] {
      AlphaTitleKeeps(title[1..]);
      assert title == [title[0]] + title[1..];
    }
  }

  /** The sort key of the entries: the cache key, the letters of the title, or the time stamp. */
  function IndexKey(alpha: Alpha): IndexEntry -> seq<int> {
    match alpha
    case None => (e: IndexEntry) => StrKey(e.cachekey)
    case Some(true) => (e: IndexEntry) => StrKey(AlphaTitle(e.title))
    case Some(false) => (e: IndexEntry) => Fields(e.timestamp)
  }

  /** `reverse`: only the chronological index lists the newest first. */
  function Reversed(alpha: Alpha): bool {
    alpha == Some(false)
  }

  /**
   * The suffix after an entry's link: none in the key index, otherwise the
   * suffix template formatted with the entry. `render` formats a template
   * with an entry; an empty template gives the empty string.
   */
  function Suffix(cfg: IndexConfig, alpha: Alpha, render: (string, IndexEntry) -> string, e: IndexEntry): (r: string)
    ensures alpha.None? || cfg.suffixTemplate == "" ==> r == ""
    ensures alpha.Some? && cfg.suffixTemplate != "" ==> r == render(cfg.suffixTemplate, e)
  {
    if alpha.None? || cfg.suffixTemplate == "" then "" else render(cfg.suffixTemplate, e)
  }

  /** The label of an entry's link: its cache key in the key index, its title otherwise. */
  function Label(alpha: Alpha, e: IndexEntry): string {
    if alpha.None? then e.cachekey else e.title
  }

  /** One entry's link, filled into the link template. */
  function IndexLink(cfg: IndexConfig, p: IndexPage, render: (string, IndexEntry) -> string, e: IndexEntry): (r: string)
    ensures cfg.linkTemplate == Placeholder("link") ==>
      r == "<a href=\"" + e.urlpath + "." + p.format + "\">" + Label(p.alpha, e) + "</a>" + Suffix(cfg, p.alpha, render, e)
  {
    var link := "<a href=\"" + e.urlpath + "." + p.format + "\">" + Label(p.alpha, e) + "</a>" + Suffix(cfg, p.alpha, render, e);
    FillOnly("link", link);
    Fill(cfg.linkTemplate, "link", link)
  }

  /** The links of the entries, in the given order. */
  function IndexLinks(cfg: IndexConfig, p: IndexPage, render: (string, IndexEntry) -> string, es: seq<IndexEntry>): (r: seq<string>)
    ensures |r| == |es|
    ensures forall i :: 0 <= i < |es| ==> r[i] == IndexLink(cfg, p, render, es[i])
  {
    if es == [] then [] else [IndexLink(cfg, p, render, es[0])] + IndexLinks(cfg, p, render, es[1..])
  }

  /**
   * `BlogIndexPage.no_entries`: the links to all entries of the blog, sorted
   * as the kind of index says, joined by the separator and a newline, filled
   * into the `index_links` field of the page's links template.
   */
  function NoEntries(cfg: IndexConfig, p: IndexPage, render: (string, IndexEntry) -> string,
                     linksTemplate: string, allEntries: seq<IndexEntry>): string
  {
    Fill(linksTemplate, "index_links",
         Join(IndexLinks(cfg, p, render, SortBy(allEntries, IndexKey(p.alpha), Reversed(p.alpha))), cfg.sep + Newline))
  }

  /**
   * The page lists one link per entry of the blog, each once, in the order
   * of the index: ascending cache keys, ascending letters of the titles, or
   * descending time stamps.
   */
  lemma NoEntriesOrder(cfg: IndexConfig, p: IndexPage, render: (string, IndexEntry) -> string,
                       linksTemplate: string, allEntries: seq<IndexEntry>)
    ensures exists s: seq<IndexEntry> ::
      && multiset(s) == multiset(allEntries)
      && NoEntries(cfg, p, render, linksTemplate, allEntries) == Fill(linksTemplate, "index_links", Join(IndexLinks(cfg, p, render, s), cfg.sep + Newline))
      && (p.alpha.None? ==>
            forall i, j :: 0 <= i < j < |s| ==> !LexLt(StrKey(s[j].cachekey), StrKey(s[i].cachekey)))
      && (p.alpha == Some(true) ==>
            forall i, j :: 0 <= i < j < |s| ==> !LexLt(StrKey(AlphaTitle(s[j].title)), StrKey(AlphaTitle(s[i].title))))
      && (p.alpha == Some(false) ==>
            forall i, j :: 0 <= i < j < |s| ==> !LexLt(Fields(s[i].timestamp), Fields(s[j].timestamp)))
  {
    var s := SortBy(allEntries, IndexKey(p.alpha), Reversed(p.alpha));
    SortBySorted(allEntries, IndexKey(p.alpha), Reversed(p.alpha));
    assert multiset(s) == multiset(allEntries);
    forall i, j | 0 <= i < j < |s|
      ensures p.alpha.None? ==> !LexLt(StrKey(s[j].cachekey), StrKey(s[i].cachekey))
      ensures p.alpha == Some(true) ==> !LexLt(StrKey(AlphaTitle(s[j].title)), StrKey(AlphaTitle(s[i].title)))
      ensures p.alpha == Some(false) ==> !LexLt(Fields(s[i].timestamp), Fields(s[j].timestamp))
    {
      assert !Before(IndexKey(p.alpha)(s[j]), IndexKey(p.alpha)(s[i]), Reversed(p.alpha));
    }
  }

  /** A blog of one entry gets a page with that entry's link alone; a blog of none, an empty list. */
  lemma NoEntriesSmall(cfg: IndexConfig, p: IndexPage, render: (string, IndexEntry) -> string,
                       linksTemplate: string, allEntries: seq<IndexEntry>)
    requires |allEntries| <= 1
    ensures allEntries == [] ==> NoEntries(cfg, p, render, linksTemplate, allEntries) == Fill(linksTemplate, "index_links", "")
    ensures |allEntries| == 1 ==>
      NoEntries(cfg, p, render, linksTemplate, allEntries) == Fill(linksTemplate, "index_links", IndexLink(cfg, p, render, allEntries[0]))
  {
    var s := SortBy(allEntries, IndexKey(p.alpha), Reversed(p.alpha));
    if |allEntries| == 1 {
      assert multiset(s) == multiset(allEntries);
      assert allEntries[0] in multiset(s);
      assert s == [allEntries[0]];
    }
  }

  // ---------------------------------------------------------------------
  // IndexesExtension

  /** The `config_vars` of `IndexesExtension`. */
  datatype IndexesFlags = IndexesFlags(alpha: bool, chrono: bool, key: bool, formats: set<string>)

  function DefaultFlags(): (f: IndexesFlags)
    ensures !f.alpha && f.chrono && !f.key && f.formats == {"html"}
  {
    IndexesFlags(false, true, false, {"html"})
  }

  /** The position of a kind of index in `link_index_alphas`. */
  function Rank(a: Alpha): nat {
    match a
    case None => 0
    case Some(false) => 1
    case Some(true) => 2
  }

  /** Whether the configuration asks for the kind of index. */
  predicate Wanted(flags: IndexesFlags, a: Alpha) {
    match a
    case None => flags.key
    case Some(false) => flags.chrono
    case Some(true) => flags.alpha
  }

  /**
   * `link_index_alphas`: each wanted kind of index once, the key index
   * first, then the chronological, then the alphabetical one.
   */
  method LinkIndexAlphas(flags: IndexesFlags) returns (r: seq<Alpha>)
    ensures forall a :: a in r <==> Wanted(flags, a)
    ensures forall i, j :: 0 <= i < j < |r| ==> Rank(r[i]) < Rank(r[j])
    ensures Distinct(r)
  {
    r := [];
    if flags.key {
      r := r + [None];
    }
    if flags.chrono {
      r := r + [Some(false)];
    }
    if flags.alpha {
      r := r + [Some(true)];
    }
  }

  /** The pages for some formats, each format with every kind, format by format. */
  function IndexPages(cfg: IndexConfig, formats: seq<string>, alphas: seq<Alpha>): seq<IndexPage>
    decreases |formats|
  {
    if formats == [] then []
    else
      var f := formats[|formats| - 1];
      IndexPages(cfg, formats[..|formats| - 1], alphas) + Row(cfg, f, alphas, |alphas|)
  }

  /**
   * The pages are exactly one per format and kind: every page has a listed
   * format and kind, every pair has its page, and there are as many pages
   * as pairs.
   */
  lemma {:induction false} IndexPagesCover(cfg: IndexConfig, formats: seq<string>, alphas: seq<Alpha>)
    ensures |IndexPages(cfg, formats, alphas)| == |formats| * |alphas|
    ensures forall k :: 0 <= k < |IndexPages(cfg, formats, alphas)| ==>
      && IndexPages(cfg, formats, alphas)[k].format in formats
      && IndexPages(cfg, formats, alphas)[k].alpha in alphas
      && IndexPages(cfg, formats, alphas)[k] == NewIndexPage(cfg, IndexPages(cfg, formats, alphas)[k].format, IndexPages(cfg, formats, alphas)[k].alpha)
    ensures forall f, a :: f in formats && a in alphas ==> NewIndexPage(cfg, f, a) in IndexPages(cfg, formats, alphas)
    decreases |formats|
  {
    if formats != [] {
      var init := formats[..|formats| - 1];
      var f := formats[|formats| - 1];
      IndexPagesCover(cfg, init, alphas);
      assert formats == init + [f];
      var row := Row(cfg, f, alphas, |alphas|);
      assert IndexPages(cfg, formats, alphas) == IndexPages(cfg, init, alphas) + row;
      assert |formats| * |alphas| == |init| * |alphas| + |alphas|;
      forall f', a | f' in formats && a in alphas
        ensures NewIndexPage(cfg, f', a) in IndexPages(cfg, formats, alphas)
      {
        if f' == f {
          var j :| 0 <= j < |alphas| && alphas[j] == a;
          assert row[j] == NewIndexPage(cfg, f', a);
        } else {
          assert f' in init;
        }
      }
    }
  }

  /** Distinct formats and kinds give pages with distinct URL paths. */
  lemma IndexPagesDistinctUrls(cfg: IndexConfig, formats: seq<string>, alphas: seq<Alpha>)
    requires Distinct(formats) && Distinct(alphas)
    ensures forall k, l :: 0 <= k < l < |IndexPages(cfg, formats, alphas)| ==>
      IndexPages(cfg, formats, alphas)[k].urlpath != IndexPages(cfg, formats, alphas)[l].urlpath
  {
    var ps := IndexPages(cfg, formats, alphas);
    IndexPagesPairs(cfg, formats, alphas);
    IndexPagesCover(cfg, formats, alphas);
    forall k, l | 0 <= k < l < |ps| ensures ps[k].urlpath != ps[l].urlpath {
      assert (ps[k].format, ps[k].alpha) != (ps[l].format, ps[l].alpha);
      UrlpathsDistinct(cfg, ps[k].format, ps[k].alpha, ps[l].format, ps[l].alpha);
    }
  }

  /** With distinct formats and kinds, no two pages have the same format and kind. */
  lemma {:induction false} IndexPagesPairs(cfg: IndexConfig, formats: seq<string>, alphas: seq<Alpha>)
    requires Distinct(formats) && Distinct(alphas)
    ensures forall k, l :: 0 <= k < l < |IndexPages(cfg, formats, alphas)| ==>
      (IndexPages(cfg, formats, alphas)[k].format, IndexPages(cfg, formats, alphas)[k].alpha) !=
      (IndexPages(cfg, formats, alphas)[l].format, IndexPages(cfg, formats, alphas)[l].alpha)
    decreases |formats|
  {
    if formats != [] {
      var init := formats[..|formats| - 1];
      var f := formats[|formats| - 1];
      IndexPagesPairs(cfg, init, alphas);
      IndexPagesCover(cfg, init, alphas);
      var front := IndexPages(cfg, init, alphas);
      var ps := IndexPages(cfg, formats, alphas);
      assert forall k :: 0 <= k < |front| ==> ps[k] == front[k];
      assert forall j :: 0 <= j < |alphas| ==> ps[|front| + j] == NewIndexPage(cfg, f, alphas[j]);
      forall i | 0 <= i < |init| ensures init[i] != f {
        assert init[i] == formats[i];
      }
    }
  }

  /**
   * `blog_mod_pages`: the existing pages kept, then one index page for every
   * format (in the order the set of formats yields them) and every wanted
   * kind of index.
   */
  method BlogModPages<P>(cfg: IndexConfig, flags: IndexesFlags, pages: seq<P>, asPage: IndexPage -> P)
    returns (r: seq<P>, order: seq<string>, alphas: seq<Alpha>)
    ensures forall f :: f in order <==> f in flags.formats
    ensures Distinct(order)
    ensures forall a :: a in alphas <==> Wanted(flags, a)
    ensures forall i, j :: 0 <= i < j < |alphas| ==> Rank(alphas[i]) < Rank(alphas[j])
    ensures r == pages + Pages(IndexPages(cfg, order, alphas), asPage)
  {
    alphas := LinkIndexAlphas(flags);
    order := Named.Enumerate(flags.formats);
    r := pages;
    for i := 0 to |order|
      invariant r == pages + Pages(IndexPages(cfg, order[..i], alphas), asPage)
    {
      IndexPagesNext(cfg, order, alphas, i);
      ghost var front := IndexPages(cfg, order[..i], alphas);
      for j := 0 to |alphas|
        invariant r == pages + Pages(front + Row(cfg, order[i], alphas, j), asPage)
      {
        RowNext(cfg, front, order[i], alphas, j, asPage);
        r := r + [asPage(NewIndexPage(cfg, order[i], alphas[j]))];
      }
    }
    assert order[..|order|] == order;
  }

  /** The pages for the first `i + 1` formats are those for the first `i` and the row of format `i`. */
  lemma IndexPagesNext(cfg: IndexConfig, order: seq<string>, alphas: seq<Alpha>, i: nat)
    requires i < |order|
    ensures IndexPages(cfg, order[..i + 1], alphas) == IndexPages(cfg, order[..i], alphas) + Row(cfg, order[i], alphas, |alphas|)
  {
    assert order[..i + 1][..i] == order[..i];
  }

  /** One more page of a row, as a page of the blog. */
  lemma RowNext<P>(cfg: IndexConfig, front: seq<IndexPage>, f: string, alphas: seq<Alpha>, j: nat, asPage: IndexPage -> P)
    requires j < |alphas|
    ensures Pages(front + Row(cfg, f, alphas, j + 1), asPage) == Pages(front + Row(cfg, f, alphas, j), asPage) + [asPage(NewIndexPage(cfg, f, alphas[j]))]
  {
    assert Row(cfg, f, alphas, j + 1) == Row(cfg, f, alphas, j) + [NewIndexPage(cfg, f, alphas[j])];
    assert front + Row(cfg, f, alphas, j + 1) == (front + Row(cfg, f, alphas, j)) + [NewIndexPage(cfg, f, alphas[j])];
    PagesSnoc(front + Row(cfg, f, alphas, j), NewIndexPage(cfg, f, alphas[j]), asPage);
  }

  /** The first `j` pages of a format's row. */
  function Row(cfg: IndexConfig, f: string, alphas: seq<Alpha>, j: nat): seq<IndexPage>
    requires j <= |alphas|
  {
    seq(j, m requires 0 <= m < j => NewIndexPage(cfg, f, alphas[m]))
  }

  /** The index pages as pages of the blog. */
  function Pages<P>(ps: seq<IndexPage>, asPage: IndexPage -> P): (r: seq<P>)
    ensures |r| == |ps|
    ensures forall k :: 0 <= k < |ps| ==> r[k] == asPage(ps[k])
  {
    seq(|ps|, k requires 0 <= k < |ps| => asPage(ps[k]))
  }

  lemma PagesSnoc<P>(a: seq<IndexPage>, x: IndexPage, asPage: IndexPage -> P)
    ensures Pages(a + [x], asPage) == Pages(a, asPage) + [asPage(x)]
  {
  }
}
