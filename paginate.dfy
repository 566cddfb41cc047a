/**
 * Pagination (`simpleblog/extensions/paginate.py`): a source of many
 * entries is replaced, in the list of sources, by pages of at most
 * `page_max_entries` entries each, linked to their newer and older
 * neighbours.
 */
module Paginate {
  import opened Wrappers
  import opened Text
  import opened Params
  import opened Dispatch

  /** The configuration variables of the extension and of `PageEntries`. */
  datatype PageConfig = PageConfig(
    maxEntries: nat,
    homeIncludePagenum: bool,
    titleTemplate: string,
    headingTemplate: string,
    newerLabel: string,
    olderLabel: string,
    formats: set<string>,
    forceShort: bool,
    linksIncludeSources: bool,
    linkSep: string)

  /** The defaults the two classes declare. */
  function DefaultConfig(): (c: PageConfig)
    ensures c.maxEntries == 10 && !c.homeIncludePagenum && c.formats == {"html"}
    ensures c.forceShort && !c.linksIncludeSources
  {
    PageConfig(10, false, "{title} - Page {pagenum}", "{heading} - Page {pagenum}",
               "Newer Entries", "Older Entries", {"html"}, true, false, "&nbsp;&nbsp;")
  }

  /** What pagination reads from a source: whether it is a container of entries, and its entries, titles and short URL. */
  datatype Listing<E> = Listing(isEntries: bool, entries: seq<E>, title: string, heading: string, urlshort: string)

  /** One page of a paginated source. */
  datatype PageEntries<E> = PageEntries(
    orig: Listing<E>,
    pagenum: nat,
    indexStart: nat,
    indexEnd: nat,
    urlshort: string,
    title: string,
    heading: string)

  /** A source after `blog_mod_sources`: left as it was, or one page of it. */
  datatype Source<E> = Orig(listing: Listing<E>) | Paged(page: PageEntries<E>)

  // ---------------------------------------------------------------------
  // counting and slicing

  function Min(a: int, b: int): int {
    if a <= b then a else b
  }

  /** `num_pages`: the number of pages of `maxEntries` entries that hold `n` entries. */
  function NumPages(n: nat, maxEntries: nat): (r: nat)
    requires maxEntries > 0
    ensures r * maxEntries >= n
    ensures r > 0 ==> (r - 1) * maxEntries < n
    ensures r == 0 <==> n == 0
  {
    var q := n / maxEntries;
    var rem := n % maxEntries;
    assert n == q * maxEntries + rem;
    var r := q + if rem > 0 then 1 else 0;
    assert r * maxEntries == q * maxEntries + (if rem > 0 then maxEntries else 0);
    assert r > 0 ==> (r - 1) * maxEntries == r * maxEntries - maxEntries;
    r
  }

  /** Python's slice `s[a:b]`: bounds past the end are clipped to it. */
  function Slice<E>(s: seq<E>, a: nat, b: nat): (r: seq<E>)
    requires a <= b
    ensures a <= |s| ==> |r| == Min(b, |s|) - a
    ensures a >= |s| ==> r == []
    ensures forall i :: 0 <= i < |r| ==> r[i] == s[a + i]
  {
    s[Min(a, |s|)..Min(b, |s|)]
  }

  // ---------------------------------------------------------------------
  // PageEntries

  /**
   * `PageEntries.__init__`: page `pagenum` (counted from 0) holds the
   * entries from `pagenum * maxEntries` on, `maxEntries` of them. The first
   * page keeps the source's title and heading unless the page number is to
   * be shown on it too; other pages fill the templates with the page number
   * counted from 1.
   */
  function NewPageEntries<E>(cfg: PageConfig, source: Listing<E>, pagenum: nat, fill: (string, map<string, string>) -> string): (p: PageEntries<E>)
    ensures p.orig == source && p.pagenum == pagenum && p.urlshort == source.urlshort
    ensures p.indexStart == pagenum * cfg.maxEntries && p.indexEnd == p.indexStart + cfg.maxEntries
    ensures pagenum == 0 && !cfg.homeIncludePagenum ==> p.title == source.title && p.heading == source.heading
    ensures pagenum > 0 || cfg.homeIncludePagenum ==>
      var attrs := map["title" := source.title, "heading" := source.heading, "pagenum" := NatStr(pagenum + 1)];
      p.title == fill(cfg.titleTemplate, attrs) && p.heading == fill(cfg.headingTemplate, attrs)
  {
    var start := pagenum * cfg.maxEntries;
    if pagenum == 0 && !cfg.homeIncludePagenum then
      PageEntries(source, pagenum, start, start + cfg.maxEntries, source.urlshort, source.title, source.heading)
    else
      var attrs := map["title" := source.title, "heading" := source.heading, "pagenum" := NatStr(pagenum + 1)];
      PageEntries(source, pagenum, start, start + cfg.maxEntries, source.urlshort, fill(cfg.titleTemplate, attrs), fill(cfg.headingTemplate, attrs))
  }

  /** `PageEntries._get_entries`: the page's window onto the source's entries. */
  function PageWindow<E>(p: PageEntries<E>): seq<E>
    requires p.indexStart <= p.indexEnd
  {
    Slice(p.orig.entries, p.indexStart, p.indexEnd)
  }

  /** The entries of `count` consecutive windows of `maxEntries`, concatenated. */
  function Windows<E>(s: seq<E>, maxEntries: nat, count: nat): seq<E>
    decreases count
  {
    if count == 0 then [] else Windows(s, maxEntries, count - 1) + Slice(s, (count - 1) * maxEntries, (count - 1) * maxEntries + maxEntries)
  }

  lemma {:induction false} WindowsPrefix<E>(s: seq<E>, maxEntries: nat, count: nat)
    ensures Windows(s, maxEntries, count) == s[..Min(count * maxEntries, |s|)]
    decreases count
  {
    if count > 0 {
      WindowsPrefix(s, maxEntries, count - 1);
      var a := (count - 1) * maxEntries;
      assert count * maxEntries == a + maxEntries;
      assert s[..Min(a, |s|)] + s[Min(a, |s|)..Min(a + maxEntries, |s|)] == s[..Min(a + maxEntries, |s|)];
    }
  }

  /**
   * The pages of a paginated source, read one after the other, are its
   * entries, each exactly once and in order; every page holds between one
   * and `maxEntries` entries.
   */
  lemma PagesPartition<E>(cfg: PageConfig, source: Listing<E>, fill: (string, map<string, string>) -> string)
    requires cfg.maxEntries > 0
    ensures Windows(source.entries, cfg.maxEntries, NumPages(|source.entries|, cfg.maxEntries)) == source.entries
    ensures forall k :: 0 <= k < NumPages(|source.entries|, cfg.maxEntries) ==>
      var w := PageWindow(NewPageEntries(cfg, source, k, fill));
      0 < |w| <= cfg.maxEntries && w == Slice(source.entries, k * cfg.maxEntries, k * cfg.maxEntries + cfg.maxEntries)
  {
    var n := NumPages(|source.entries|, cfg.maxEntries);
    WindowsPrefix(source.entries, cfg.maxEntries, n);
    assert source.entries[..|source.entries|] == source.entries;
    forall k | 0 <= k < n
      ensures 0 < |PageWindow(NewPageEntries(cfg, source, k, fill))| <= cfg.maxEntries
    {
      PageStartInside(|source.entries|, cfg.maxEntries, k);
    }
  }

  /** Every page of the count starts inside the entries. */
  lemma PageStartInside(n: nat, maxEntries: nat, k: nat)
    requires maxEntries > 0 && k < NumPages(n, maxEntries)
    ensures k * maxEntries < n
  {
    var r := NumPages(n, maxEntries);
    assert (r - 1 - k) * maxEntries >= 0;
    assert (r - 1) * maxEntries == k * maxEntries + (r - 1 - k) * maxEntries;
  }

  // ---------------------------------------------------------------------
  // URLs and page links

  /**
   * `make_urlpath`: seen from another page, page 0 is the source's own
   * short URL (its directory); otherwise page `pagenum` is
   * `{urlshort}index`, followed by the page number when it is not 0.
   */
  function MakeUrlpath(urlshort: string, current: nat, pagenum: nat): (r: string)
    ensures pagenum == 0 && current != 0 ==> r == urlshort
    ensures pagenum == 0 && current == 0 ==> r == urlshort + "index"
    ensures pagenum > 0 ==> r == urlshort + "index" + NatStr(pagenum)
  {
    if pagenum != current && pagenum == 0 then urlshort
    else urlshort + "index" + (if pagenum > 0 then NatStr(pagenum) else "")
  }

  /** `PageEntries.urlpath`: where the page itself is written. */
  function PageUrlpath<E>(p: PageEntries<E>): string {
    MakeUrlpath(p.urlshort, p.pagenum, p.pagenum)
  }

  /** Two pages of one source never share a URL. */
  lemma PageUrlpathsDistinct(urlshort: string, p: nat, q: nat)
    requires p != q
    ensures MakeUrlpath(urlshort, p, p) != MakeUrlpath(urlshort, q, q)
  {
    var base := urlshort + "index";
    if p > 0 && q > 0 {
      NatStrRoundTrip(p);
      NatStrRoundTrip(q);
      assert MakeUrlpath(urlshort, p, p)[|base|..] == NatStr(p);
      assert MakeUrlpath(urlshort, q, q)[|base|..] == NatStr(q);
    } else if p > 0 {
      assert |MakeUrlpath(urlshort, p, p)| > |base|;
    } else {
      assert |MakeUrlpath(urlshort, q, q)| > |base|;
    }
  }

  /** The anchor `<a href="{href}">{caption}</a>`. */
  function Anchor(href: string, caption: string): string {
    "<a href=\"" + href + "\">" + caption + "</a>"
  }

  /** One page link from page `current` to page `target`: the format suffix only when the target is not page 0. */
  function PageLink(urlshort: string, current: nat, target: nat, format: string, caption: string): (r: string)
    ensures target == current - 1 && target == 0 ==> r == Anchor(urlshort, caption)
    ensures target > 0 ==> r == Anchor(MakeUrlpath(urlshort, target, target) + "." + format, caption)
  {
    Anchor(MakeUrlpath(urlshort, current, target) + (if target > 0 then "." + format else ""), caption)
  }

  /**
   * `make_pagelinks`: the link to the newer page (the one before) and to the
   * older page (the one after); a link is empty when there is no such page.
   */
  function MakePagelinks<E>(cfg: PageConfig, p: PageEntries<E>, format: string): (r: (string, string))
    requires cfg.maxEntries > 0
    ensures r.0 != "" <==> p.pagenum > 0
    ensures r.1 != "" <==> p.pagenum + 1 < NumPages(|p.orig.entries|, cfg.maxEntries)
    ensures p.pagenum > 0 ==> r.0 == PageLink(p.urlshort, p.pagenum, p.pagenum - 1, format, cfg.newerLabel)
    ensures p.pagenum + 1 < NumPages(|p.orig.entries|, cfg.maxEntries) ==> r.1 == PageLink(p.urlshort, p.pagenum, p.pagenum + 1, format, cfg.olderLabel)
  {
    var last := NumPages(|p.orig.entries|, cfg.maxEntries) - 1;
    var newer := if p.pagenum * -1 < 0 then PageLink(p.urlshort, p.pagenum, p.pagenum - 1, format, cfg.newerLabel) else "";
    var older := if p.pagenum * 1 < last then PageLink(p.urlshort, p.pagenum, p.pagenum + 1, format, cfg.olderLabel) else "";
    (newer, older)
  }

  /**
   * The links of a page point at the files its neighbours are written to:
   * the older page's URL with the format, and the newer page's likewise,
   * except that the first page is reached by its directory URL.
   */
  lemma PagelinksReachNeighbours<E>(cfg: PageConfig, source: Listing<E>, k: nat, format: string, fill: (string, map<string, string>) -> string)
    requires cfg.maxEntries > 0
    ensures var links := MakePagelinks(cfg, NewPageEntries(cfg, source, k, fill), format);
      && (k == 1 ==> links.0 == Anchor(source.urlshort, cfg.newerLabel))
      && (k > 1 ==> links.0 == Anchor(PageUrlpath(NewPageEntries(cfg, source, k - 1, fill)) + "." + format, cfg.newerLabel))
      && (k + 1 < NumPages(|source.entries|, cfg.maxEntries) ==>
            links.1 == Anchor(PageUrlpath(NewPageEntries(cfg, source, k + 1, fill)) + "." + format, cfg.olderLabel))
  {
  }

  // ---------------------------------------------------------------------
  // the extension's hooks

  /** `page_get_link_source`: a page of a paginated source takes its neighbours' links from the original source. */
  function PageGetLinkSource<E>(source: Source<E>): (r: Res<Listing<E>>)
    ensures r.Val? <==> source.Paged?
    ensures source.Paged? ==> r.value == source.page.orig
    ensures source.Orig? ==> r == NoResult
  {
    match source
    case Paged(p) => Val(p.orig)
    case Orig(_) => NoResult
  }

  /** `page_mod_entry_params`: on every page after the first, entries are shown short, if so configured. */
  function PageModEntryParams<E>(cfg: PageConfig, source: Source<E>, params: Params): (r: Params)
    ensures params.Keys <= r.Keys <= params.Keys + {"force_short"}
    ensures forall k :: k in params && k != "force_short" ==> r[k] == params[k]
    ensures cfg.forceShort && source.Paged? && source.page.pagenum > 0 ==> "force_short" in r && r["force_short"] == Bool(true)
    ensures !(cfg.forceShort && source.Paged? && source.page.pagenum > 0) ==> r == params
  {
    if cfg.forceShort && source.Paged? && source.page.pagenum > 0 then params["force_short" := Bool(true)]
    else params
  }

  /** `page_link_sep.join(link for link in links if link)`, then a newline after it unless it is empty. */
  function PageLinksLine(links: seq<string>, sep: string): (r: string)
    ensures r == "" <==> forall i :: 0 <= i < |links| ==> links[i] == ""
    ensures r != "" ==> r == Join(NonEmpty(links), sep) + Newline
  {
    var joined := Join(NonEmpty(links), sep);
    JoinNonEmpty(NonEmpty(links), sep);
    if joined != "" then joined + Newline else ""
  }

  /**
   * `page_mod_attrs`: the attributes gain the page's newer and older links
   * and the line of all its non-empty links; with the source links included,
   * a missing `page_sourcelink_next` or `page_sourcelink_prev` is a KeyError.
   */
  function PageModAttrs<E>(cfg: PageConfig, source: Source<E>, format: string, attrs: map<string, string>): (r: Result<map<string, string>>)
    requires cfg.maxEntries > 0
    ensures r.Err? <==> cfg.linksIncludeSources && ("page_sourcelink_next" !in attrs || "page_sourcelink_prev" !in attrs)
    ensures r.Ok? ==> r.value.Keys == attrs.Keys + {"page_links", "page_link_newer", "page_link_older"}
    ensures r.Ok? ==> forall k :: k in attrs && k !in {"page_links", "page_link_newer", "page_link_older"} ==> r.value[k] == attrs[k]
    ensures r.Ok? && source.Orig? ==> r.value["page_link_newer"] == "" && r.value["page_link_older"] == ""
    ensures r.Ok? && source.Paged? ==> (r.value["page_link_newer"], r.value["page_link_older"]) == MakePagelinks(cfg, source.page, format)
    ensures r.Ok? && !cfg.linksIncludeSources ==> (r.value["page_links"] == "" <==> r.value["page_link_newer"] == "" && r.value["page_link_older"] == "")
    ensures r.Ok? && !cfg.linksIncludeSources ==>
      r.value["page_links"] == PageLinksLine([r.value["page_link_newer"], r.value["page_link_older"]], cfg.linkSep)
    ensures r.Ok? && cfg.linksIncludeSources ==>
      r.value["page_links"] == PageLinksLine([attrs["page_sourcelink_next"], r.value["page_link_newer"],
                                              r.value["page_link_older"], attrs["page_sourcelink_prev"]], cfg.linkSep)
  {
    var (newer, older) := if source.Paged? then MakePagelinks(cfg, source.page, format) else ("", "");
    if cfg.linksIncludeSources && ("page_sourcelink_next" !in attrs || "page_sourcelink_prev" !in attrs) then
      Err("KeyError")
    else
      var links := if cfg.linksIncludeSources then [attrs["page_sourcelink_next"], newer, older, attrs["page_sourcelink_prev"]] else [newer, older];
      assert !cfg.linksIncludeSources ==> links[0] == newer && links[1] == older;
      Ok(attrs["page_links" := PageLinksLine(links, cfg.linkSep)]["page_link_newer" := newer]["page_link_older" := older])
  }

  /** `paginate(source, format)`: a container in a paginated format with more entries than fit on a page. */
  predicate Paginates<E>(cfg: PageConfig, source: Listing<E>, format: string) {
    format in cfg.formats && source.isEntries && |source.entries| > cfg.maxEntries
  }

  // ---------------------------------------------------------------------
  // blog_mod_sources

  /** What one source becomes: its pages, in order and in its format, or itself. */
  function Expand<E>(cfg: PageConfig, source: Listing<E>, format: string, fill: (string, map<string, string>) -> string): (r: seq<(Source<E>, string)>)
    requires cfg.maxEntries > 0
    ensures Paginates(cfg, source, format) ==> |r| == NumPages(|source.entries|, cfg.maxEntries) >= 2
    ensures !Paginates(cfg, source, format) ==> r == [(Orig(source), format)]
    ensures forall k :: 0 <= k < |r| ==> r[k].1 == format
    ensures Paginates(cfg, source, format) ==> forall k :: 0 <= k < |r| ==> r[k].0 == Paged(NewPageEntries(cfg, source, k, fill))
  {
    if Paginates(cfg, source, format) then
      var n := NumPages(|source.entries|, cfg.maxEntries);
      seq(n, k requires 0 <= k < n => (Paged(NewPageEntries(cfg, source, k, fill)), format))
    else [(Orig(source), format)]
  }

  /** The new list of sources: every source expanded in turn. */
  function ExpandAll<E>(cfg: PageConfig, sources: seq<(Listing<E>, string)>, fill: (string, map<string, string>) -> string): seq<(Source<E>, string)>
    requires cfg.maxEntries > 0
    decreases |sources|
  {
    if sources == [] then []
    else
      var last := sources[|sources| - 1];
      ExpandAll(cfg, sources[..|sources| - 1], fill) + Expand(cfg, last.0, last.1, fill)
  }

  /** `blog_mod_sources`: the sources with every paginated one replaced by its pages. */
  method BlogModSources<E>(cfg: PageConfig, sources: seq<(Listing<E>, string)>, fill: (string, map<string, string>) -> string)
    returns (newsources: seq<(Source<E>, string)>)
    requires cfg.maxEntries > 0
    ensures newsources == ExpandAll(cfg, sources, fill)
  {
    newsources := [];
    for i := 0 to |sources|
      invariant newsources == ExpandAll(cfg, sources[..i], fill)
    {
      var (source, format) := sources[i];
      assert sources[..i + 1][..i] == sources[..i];
      if Paginates(cfg, source, format) {
        var n := NumPages(|source.entries|, cfg.maxEntries);
        var pages := seq(n, k requires 0 <= k < n => (Paged(NewPageEntries(cfg, source, k, fill)), format));
        newsources := newsources + pages;
      } else {
        newsources := newsources + [(Orig(source), format)];
      }
    }
    assert sources[..|sources|] == sources;
  }

  /** Where an output source came from: a page other than the first stands for nothing new. */
  function Back<E>(x: (Source<E>, string)): seq<(Listing<E>, string)> {
    match x.0
    case Orig(l) => [(l, x.1)]
    case Paged(p) => if p.pagenum == 0 then [(p.orig, x.1)] else []
  }

  /** The original sources read back from the new list: each kept source, and the first page of each paginated one. */
  function Originals<E>(xs: seq<(Source<E>, string)>): seq<(Listing<E>, string)>
    decreases |xs|
  {
    if xs == [] then [] else Originals(xs[..|xs| - 1]) + Back(xs[|xs| - 1])
  }

  lemma {:induction false} OriginalsAppend<E>(a: seq<(Source<E>, string)>, b: seq<(Source<E>, string)>)
    ensures Originals(a + b) == Originals(a) + Originals(b)
    decreases |b|
  {
    if b != [] {
      assert (a + b)[..|a + b| - 1] == a + b[..|b| - 1];
      assert (a + b)[|a + b| - 1] == b[|b| - 1];
      OriginalsAppend(a, b[..|b| - 1]);
    } else {
      assert a + b == a;
    }
  }

  lemma {:induction false} OriginalsOfPages<E>(xs: seq<(Source<E>, string)>)
    requires forall k :: 0 <= k < |xs| ==> xs[k].0.Paged? && xs[k].0.page.pagenum > 0
    ensures Originals(xs) == []
    decreases |xs|
  {
    if xs != [] {
      OriginalsOfPages(xs[..|xs| - 1]);
    }
  }

  /**
   * Pagination loses and reorders no source: reading the new list back,
   * each page 0 standing for its original source, gives the old list.
   */
  lemma {:induction false} ExpandAllOriginals<E>(cfg: PageConfig, sources: seq<(Listing<E>, string)>, fill: (string, map<string, string>) -> string)
    requires cfg.maxEntries > 0
    ensures Originals(ExpandAll(cfg, sources, fill)) == sources
    decreases |sources|
  {
    if sources != [] {
      var last := sources[|sources| - 1];
      var init := sources[..|sources| - 1];
      ExpandAllOriginals(cfg, init, fill);
      var done := ExpandAll(cfg, init, fill);
      var e := Expand(cfg, last.0, last.1, fill);
      assert ExpandAll(cfg, sources, fill) == done + e;
      OriginalsAppend(done, e);
      OriginalsExpand(cfg, last.0, last.1, fill);
      assert init + [last] == sources;
    }
  }

  /** One source, expanded and read back, is itself. */
  lemma OriginalsExpand<E>(cfg: PageConfig, source: Listing<E>, format: string, fill: (string, map<string, string>) -> string)
    requires cfg.maxEntries > 0
    ensures Originals(Expand(cfg, source, format, fill)) == [(source, format)]
  {
    var e := Expand(cfg, source, format, fill);
    if Paginates(cfg, source, format) {
      assert e == [e[0]] + e[1..];
      OriginalsAppend([e[0]], e[1..]);
      OriginalsOfPages(e[1..]);
      assert [e[0]][..0] == [];
    } else {
      assert e[..0] == [];
    }
  }

  /** With nothing to paginate, every source is kept, in order. */
  lemma {:induction false} NothingPaginated<E>(cfg: PageConfig, sources: seq<(Listing<E>, string)>, fill: (string, map<string, string>) -> string)
    requires cfg.maxEntries > 0
    requires forall i :: 0 <= i < |sources| ==> !Paginates(cfg, sources[i].0, sources[i].1)
    ensures |ExpandAll(cfg, sources, fill)| == |sources|
    ensures forall i :: 0 <= i < |sources| ==> ExpandAll(cfg, sources, fill)[i] == (Orig(sources[i].0), sources[i].1)
    decreases |sources|
  {
    if sources != [] {
      NothingPaginated(cfg, sources[..|sources| - 1], fill);
    }
  }
}
