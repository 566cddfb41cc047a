/**
 * Entry links (`simpleblog/extensions/links.py`): every entry of a linked
 * container gets `prev_in_*` and `next_in_*` attributes naming its
 * neighbours there, and a multisource (a kind such as tags, where an entry
 * belongs to several containers at once) gets lists of them; the links are
 * then rendered into the entry's page.
 */
module Links {
  import opened Wrappers
  import opened Text
  import opened Order
  import opened Params
  import opened Entries
  import Named
  import Core

  /** The configuration variables of the entries' link mixin. */
  datatype LinksConfig = LinksConfig(
    entrylinkSep: string,
    nextTemplate: string,
    nextTitleTemplate: string,
    prevTemplate: string,
    prevTitleTemplate: string,
    displaySourcetypes: set<string>)

  function DefaultConfig(): (c: LinksConfig)
    ensures c.entrylinkSep == "&nbsp;" && c.displaySourcetypes == {"entry"}
    ensures c.prevTitleTemplate != "" && c.nextTitleTemplate != ""
  {
    LinksConfig("&nbsp;", "next in {}", "Next in {}", "previous in {}", "Previous in {}", {"entry"})
  }

  /** The title and content templates a prefix selects: the previous ones for a prefix starting with `p`. */
  function TemplatesFor(cfg: LinksConfig, prefix: string): (r: (string, string))
    ensures StartsWith(prefix, "p") ==> r == (cfg.prevTitleTemplate, cfg.prevTemplate)
    ensures !StartsWith(prefix, "p") ==> r == (cfg.nextTitleTemplate, cfg.nextTemplate)
  {
    if StartsWith(prefix, "p") then (cfg.prevTitleTemplate, cfg.prevTemplate) else (cfg.nextTitleTemplate, cfg.nextTemplate)
  }

  /** How the entries' link templates are filled: `template.format(arg)` and the entry's permalink in a format. */
  datatype Render = Render(format1: (string, string) -> string, permalink: (Entry, string) -> string)

  /**
   * `get_entrylink`: without a neighbour, the content text alone; with one,
   * an anchor to its permalink around the content, carrying a `title`
   * attribute only when the title template gives a non-empty title.
   */
  function GetEntrylink(cfg: LinksConfig, rd: Render, t: Target, format: string, prefix: string): (r: string)
    ensures var (tt, tc) := TemplatesFor(cfg, prefix);
      var content := rd.format1(tc, t.container);
      && (t.entry.None? ==> r == content)
      && (t.entry.Some? && tt != "" && rd.format1(tt, Capitalize(t.container)) != "" ==>
            r == "<a href=\"" + rd.permalink(t.entry.value, format) + "\" title=\"" + rd.format1(tt, Capitalize(t.container)) + "\">" + content + "</a>")
      && (t.entry.Some? && (tt == "" || rd.format1(tt, Capitalize(t.container)) == "") ==>
            r == "<a href=\"" + rd.permalink(t.entry.value, format) + "\">" + content + "</a>")
  {
    var (tt, tc) := TemplatesFor(cfg, prefix);
    var content := rd.format1(tc, t.container);
    match t.entry
    case None => content
    case Some(e) =>
      var title := if tt != "" then Some(rd.format1(tt, Capitalize(t.container))) else None;
      var href := rd.permalink(e, format);
      if title.Some? && title.value != "" then "<a href=\"" + href + "\" title=\"" + title.value + "\">" + content + "</a>"
      else "<a href=\"" + href + "\">" + content + "</a>"
  }

  /** The separator between the links of a list: the entry link separator on a line of its own. */
  function ListSep(cfg: LinksConfig): string {
    Newline + cfg.entrylinkSep + Newline
  }

  function EntrylinkList(cfg: LinksConfig, rd: Render, ts: seq<Target>, format: string, prefix: string): (r: seq<string>)
    ensures |r| == |ts|
    ensures forall i :: 0 <= i < |ts| ==> r[i] == GetEntrylink(cfg, rd, ts[i], format, prefix)
  {
    seq(|ts|, i requires 0 <= i < |ts| => GetEntrylink(cfg, rd, ts[i], format, prefix))
  }

  /** `prev_next_link`: one link, or the links of a list joined by the list separator. */
  function PrevNextLink(cfg: LinksConfig, rd: Render, attr: LinkAttr, format: string, prefix: string): string {
    match attr
    case One(t) => GetEntrylink(cfg, rd, t, format, prefix)
    case Many(ts) => Join(EntrylinkList(cfg, rd, ts, format, prefix), ListSep(cfg))
  }

  /** A list of one neighbour renders as that neighbour alone; a longer list puts the separator between neighbours. */
  lemma PrevNextLinkList(cfg: LinksConfig, rd: Render, t: Target, rest: seq<Target>, format: string, prefix: string)
    ensures PrevNextLink(cfg, rd, Many([t]), format, prefix) == PrevNextLink(cfg, rd, One(t), format, prefix)
    ensures rest != [] ==>
              PrevNextLink(cfg, rd, Many([t] + rest), format, prefix) ==
              GetEntrylink(cfg, rd, t, format, prefix) + ListSep(cfg) + PrevNextLink(cfg, rd, Many(rest), format, prefix)
  {
    var all := EntrylinkList(cfg, rd, [t] + rest, format, prefix);
    assert all[1..] == EntrylinkList(cfg, rd, rest, format, prefix);
  }

  const PrevPrefix := "prev_in_"
  const NextPrefix := "next_in_"

  predicate IsLinkKey(k: string) {
    StartsWith(k, NextPrefix) || StartsWith(k, PrevPrefix)
  }

  /**
   * `prev_next_attrs`: every `next_in_*` and `prev_in_*` attribute of the
   * entry, rendered with the prefix it starts with.
   */
  function PrevNextAttrs(cfg: LinksConfig, rd: Render, links: map<string, LinkAttr>, format: string): (r: map<string, string>)
    ensures r.Keys == set k | k in links && IsLinkKey(k)
    ensures forall k :: k in links && StartsWith(k, PrevPrefix) ==> r[k] == PrevNextLink(cfg, rd, links[k], format, PrevPrefix)
    ensures forall k :: k in links && StartsWith(k, NextPrefix) ==> r[k] == PrevNextLink(cfg, rd, links[k], format, NextPrefix)
  {
    map k | k in links && IsLinkKey(k) :: PrevNextLink(cfg, rd, links[k], format, if StartsWith(k, NextPrefix) then NextPrefix else PrevPrefix)
  }

  /** `make_entrylinks`: the entry's links template filled with its link attributes, on pages of a displayed source type only. */
  function MakeEntrylinks(cfg: LinksConfig, rd: Render, links: map<string, LinkAttr>, format: string, sourcetype: string,
                          fillLinks: map<string, string> -> string): (r: string)
    ensures sourcetype !in cfg.displaySourcetypes ==> r == ""
    ensures sourcetype in cfg.displaySourcetypes ==> r == fillLinks(PrevNextAttrs(cfg, rd, links, format))
  {
    if sourcetype in cfg.displaySourcetypes then fillLinks(PrevNextAttrs(cfg, rd, links, format)) else ""
  }

  /** `entry_mod_attrs`: the attributes gain `entrylinks`. */
  function EntryModAttrs(attrs: map<string, string>, entrylinks: string): (r: map<string, string>)
    ensures r.Keys == attrs.Keys + {"entrylinks"} && r["entrylinks"] == entrylinks
    ensures forall k :: k in attrs && k != "entrylinks" ==> r[k] == attrs[k]
  {
    attrs["entrylinks" := entrylinks]
  }

  /** `page_mod_entry_params`: the entry parameters carry the page source's type. */
  function PageModEntryParams(params: Params, sourcetype: string): (r: Params)
    ensures r.Keys == params.Keys + {"sourcetype"} && r["sourcetype"] == Str(sourcetype)
    ensures forall k :: k in params && k != "sourcetype" ==> r[k] == params[k]
  {
    params["sourcetype" := Str(sourcetype)]
  }

  /** `page_mod_attrs`: a page whose source is an entry shows that entry's links; other pages show none. */
  function PageModAttrs(attrs: map<string, string>, sourceIsEntry: bool, entrylinks: string): (r: map<string, string>)
    ensures r.Keys == attrs.Keys + {"page_entrylinks"}
    ensures r["page_entrylinks"] == if sourceIsEntry then entrylinks else ""
    ensures forall k :: k in attrs && k != "page_entrylinks" ==> r[k] == attrs[k]
  {
    attrs["page_entrylinks" := if sourceIsEntry then entrylinks else ""]
  }

  // ---------------------------------------------------------------------
  // the link attributes of all entries, as values

  /** The link attributes of every entry. */
  type LinkState = map<Entry, map<string, LinkAttr>>

  function Get(st: LinkState, e: Entry): map<string, LinkAttr> {
    if e in st then st[e] else map[]
  }

  /** `setattr(e, key, v)`. */
  function Set(st: LinkState, e: Entry, key: string, v: LinkAttr): (r: LinkState)
    ensures r.Keys == st.Keys + {e}
    ensures Get(r, e) == Get(st, e)[key := v]
    ensures forall x :: x in st.Keys && x != e ==> r[x] == st[x]
  {
    st[e := Get(st, e)[key := v]]
  }

  /**
   * What `blog_mod_sources` reads from a source: its kind, the multisource
   * attribute of its kind (empty when none), the value of the property
   * configured for its kind (empty when none), its entries and whether they
   * are sorted newest first.
   */
  datatype SourceInfo = SourceInfo(sourcetype: string, multisource: string, prop: string, entries: seq<Entry>, reversed: bool)

  /** The label of the links: the property's value, or the source type. */
  function Label(s: SourceInfo): string {
    if s.prop != "" then s.prop else s.sourcetype
  }

  /**
   * The previous and next neighbours of entry `i`: the entries before and
   * after it (none at either end), exchanged when the source is sorted in
   * reverse.
   */
  function Neighbours(s: SourceInfo, i: nat): (r: (Target, Target))
    requires i < |s.entries|
    ensures r.0.container == Label(s) && r.1.container == Label(s)
  {
    var prevAttr := Target(if i > 0 then Some(s.entries[i - 1]) else None, Label(s));
    var nextAttr := Target(if i < |s.entries| - 1 then Some(s.entries[i + 1]) else None, Label(s));
    if s.reversed then (nextAttr, prevAttr) else (prevAttr, nextAttr)
  }

  /**
   * In reading order, the previous neighbour is the entry before (none for
   * the first) and the next one the entry after (none for the last); a
   * reversed source exchanges them.
   */
  lemma NeighboursAdjacent(s: SourceInfo, i: nat)
    requires i < |s.entries|
    ensures var (p, n) := Neighbours(s, i);
      var (before, after) := if s.reversed then (n, p) else (p, n);
      && (before.entry.Some? <==> i > 0) && (before.entry.Some? ==> before.entry.value == s.entries[i - 1])
      && (after.entry.Some? <==> i + 1 < |s.entries|) && (after.entry.Some? ==> after.entry.value == s.entries[i + 1])
  {
  }

  /** The attributes set on entry `i`: under the source type unless a multisource, and under the property when there is one. */
  function LinkAttrs(s: SourceInfo, i: nat): map<string, LinkAttr>
    requires i < |s.entries|
  {
    var (p, n) := Neighbours(s, i);
    (if s.multisource == "" then map[PrevPrefix + s.sourcetype := One(p), NextPrefix + s.sourcetype := One(n)] else map[])
    + (if s.prop != "" then map[PrevPrefix + s.prop := One(p), NextPrefix + s.prop := One(n)] else map[])
  }

  /** Entry `i`'s turn: its attributes gain those of `LinkAttrs`. */
  function LinkAt(st: LinkState, s: SourceInfo, i: nat): LinkState
    requires i < |s.entries|
  {
    st[s.entries[i] := Get(st, s.entries[i]) + LinkAttrs(s, i)]
  }

  function LinkUpTo(st: LinkState, s: SourceInfo, n: nat): LinkState
    requires n <= |s.entries|
  {
    if n == 0 then st else LinkAt(LinkUpTo(st, s, n - 1), s, n - 1)
  }

  /** The sources in order, a source repeated in consecutive places taken once (`groupby` on the source). */
  function Dedup(sources: seq<(SourceInfo, string)>): (r: seq<SourceInfo>)
    ensures sources == [] <==> r == []
    ensures sources != [] ==> r[|r| - 1] == sources[|sources| - 1].0
    decreases |sources|
  {
    if sources == [] then []
    else
      var d := Dedup(sources[..|sources| - 1]);
      var last := sources[|sources| - 1].0;
      if d != [] && d[|d| - 1] == last then d else d + [last]
  }

  /** The first part of `blog_mod_sources`: every linked source in turn links its entries. */
  function LinkSources(st: LinkState, srcs: seq<SourceInfo>, linked: set<string>): LinkState
    decreases |srcs|
  {
    if srcs == [] then st
    else
      var s := srcs[|srcs| - 1];
      var before := LinkSources(st, srcs[..|srcs| - 1], linked);
      if s.sourcetype in linked then LinkUpTo(before, s, |s.entries|) else before
  }

  /** The multisource attributes of the linked sources. */
  function Multisources(srcs: seq<SourceInfo>, linked: set<string>): set<string> {
    set i | 0 <= i < |srcs| && srcs[i].sourcetype in linked && srcs[i].multisource != "" :: srcs[i].multisource
  }

  /** The single neighbours stored under `prefix + name` for each name, in order; an AttributeError for a missing one. */
  function Collect(links: map<string, LinkAttr>, prefix: string, names: seq<string>): (r: Result<seq<Target>>)
    ensures r.Ok? <==> forall i :: 0 <= i < |names| ==> prefix + names[i] in links && links[prefix + names[i]].One?
    ensures r.Ok? ==> |r.value| == |names| && forall i :: 0 <= i < |names| ==> r.value[i] == links[prefix + names[i]].target
    decreases |names|
  {
    if names == [] then Ok([])
    else
      var k := prefix + names[0];
      if k !in links || !links[k].One? then Err("AttributeError")
      else match Collect(links, prefix, names[1..])
        case Err(e) => Err(e)
        case Ok(rest) => Ok([links[k].target] + rest)
  }

  /**
   * One entry and one multisource attribute: with at least one name (say
   * one tag), the lists of the entry's neighbours in each named container,
   * in sorted name order.
   */
  function MultiAt(st: LinkState, e: Entry, attr: string, namesOf: (Entry, string) -> set<string>): (r: Result<LinkState>)
    ensures namesOf(e, attr) == {} ==> r == Ok(st)
  {
    var names := SortedStrings(namesOf(e, attr));
    if names == [] then Ok(st)
    else
      match Collect(Get(st, e), PrevPrefix, names)
      case Err(m) => Err(m)
      case Ok(prevs) =>
        match Collect(Get(st, e), NextPrefix, names)
        case Err(m) => Err(m)
        case Ok(nexts) => Ok(Set(Set(st, e, PrevPrefix + attr, Many(prevs)), e, NextPrefix + attr, Many(nexts)))
  }

  function MultiAll(st: LinkState, e: Entry, attrs: seq<string>, namesOf: (Entry, string) -> set<string>): Result<LinkState>
    decreases |attrs|
  {
    if attrs == [] then Ok(st)
    else
      match MultiAll(st, e, attrs[..|attrs| - 1], namesOf)
      case Err(m) => Err(m)
      case Ok(st1) => MultiAt(st1, e, attrs[|attrs| - 1], namesOf)
  }

  /** The second part of `blog_mod_sources`: every entry of the blog, every multisource attribute. */
  function MultiLinks(st: LinkState, entries: seq<Entry>, attrs: seq<string>, namesOf: (Entry, string) -> set<string>): Result<LinkState>
    decreases |entries|
  {
    if entries == [] then Ok(st)
    else
      match MultiLinks(st, entries[..|entries| - 1], attrs, namesOf)
      case Err(m) => Err(m)
      case Ok(st1) => MultiAll(st1, entries[|entries| - 1], attrs, namesOf)
  }

  // ---------------------------------------------------------------------
  // what the link attributes are

  /** Writing the attributes of entry `i` touches no other entry. */
  lemma LinkAtOthers(st: LinkState, s: SourceInfo, i: nat, x: Entry)
    requires i < |s.entries| && x != s.entries[i]
    ensures Get(LinkAt(st, s, i), x) == Get(st, x)
  {
  }

  /**
   * The attributes `m` of entry `i` hold its neighbours: under the source
   * type unless the source is a multisource, and under the property when
   * there is one.
   */
  predicate HoldsNeighbours(m: map<string, LinkAttr>, s: SourceInfo, i: nat)
    requires i < |s.entries|
  {
    && (s.multisource == "" ==>
          PrevPrefix + s.sourcetype in m && m[PrevPrefix + s.sourcetype] == One(Neighbours(s, i).0)
          && NextPrefix + s.sourcetype in m && m[NextPrefix + s.sourcetype] == One(Neighbours(s, i).1))
    && (s.prop != "" ==>
          PrevPrefix + s.prop in m && m[PrevPrefix + s.prop] == One(Neighbours(s, i).0)
          && NextPrefix + s.prop in m && m[NextPrefix + s.prop] == One(Neighbours(s, i).1))
  }

  /** `m` keeps every attribute of `m0` except those named in `keys`. */
  predicate KeepsOthers(m0: map<string, LinkAttr>, m: map<string, LinkAttr>, keys: set<string>) {
    forall k :: k in m0 && k !in keys ==> k in m && m[k] == m0[k]
  }

  lemma PrefixesDiffer(a: string, b: string)
    ensures PrevPrefix + a != NextPrefix + b
  {
    assert (PrevPrefix + a)[0] == 'p' && (NextPrefix + b)[0] == 'n';
  }

  /** The attributes of entry `i` are its neighbours under exactly the names of `LinkKeys`. */
  lemma LinkAttrsHold(s: SourceInfo, i: nat)
    requires i < |s.entries|
    ensures HoldsNeighbours(LinkAttrs(s, i), s, i)
    ensures LinkAttrs(s, i).Keys == LinkKeys(s)
  {
    PrefixesDiffer(s.prop, s.prop);
    PrefixesDiffer(s.sourcetype, s.sourcetype);
    PrefixesDiffer(s.sourcetype, s.prop);
    PrefixesDiffer(s.prop, s.sourcetype);
  }

  /** Attributes holding the neighbours still hold them under attributes added beneath. */
  lemma HoldsUnder(m: map<string, LinkAttr>, a: map<string, LinkAttr>, s: SourceInfo, i: nat)
    requires i < |s.entries| && HoldsNeighbours(a, s, i)
    ensures HoldsNeighbours(m + a, s, i)
  {
  }

  /** After entry `i`'s turn, its attributes hold its neighbours and nothing else of it changed. */
  lemma LinkAtSelf(st: LinkState, s: SourceInfo, i: nat)
    requires i < |s.entries|
    ensures HoldsNeighbours(Get(LinkAt(st, s, i), s.entries[i]), s, i)
    ensures KeepsOthers(Get(st, s.entries[i]), Get(LinkAt(st, s, i), s.entries[i]), LinkKeys(s))
    ensures Get(LinkAt(st, s, i), s.entries[i]).Keys == Get(st, s.entries[i]).Keys + LinkKeys(s)
  {
    var m := Get(st, s.entries[i]);
    assert Get(LinkAt(st, s, i), s.entries[i]) == m + LinkAttrs(s, i);
    LinkAttrsHold(s, i);
    HoldsUnder(m, LinkAttrs(s, i), s, i);
  }

  /** The attribute names a source sets on its entries. */
  function LinkKeys(s: SourceInfo): set<string> {
    (if s.multisource == "" then {PrevPrefix + s.sourcetype, NextPrefix + s.sourcetype} else {})
    + (if s.prop != "" then {PrevPrefix + s.prop, NextPrefix + s.prop} else {})
  }

  /** Entries after the first `n` are untouched so far. */
  lemma {:induction false} LinkUpToOthers(st: LinkState, s: SourceInfo, n: nat, x: Entry)
    requires n <= |s.entries| && x !in s.entries[..n]
    ensures Get(LinkUpTo(st, s, n), x) == Get(st, x)
    decreases n
  {
    if n > 0 {
      assert s.entries[..n - 1] == s.entries[..n][..n - 1];
      LinkUpToOthers(st, s, n - 1, x);
      assert s.entries[n - 1] in s.entries[..n];
      LinkAtOthers(LinkUpTo(st, s, n - 1), s, n - 1, x);
    }
  }

  /**
   * In a source whose entries are distinct, once its entries are linked,
   * entry `i` has as previous and next attributes (under the source type
   * unless a multisource, and under the property when there is one)
   * exactly its neighbours, exchanged in a reversed source; its other
   * attributes are as they were.
   */
  lemma NeighbourLinks(st: LinkState, s: SourceInfo, n: nat, i: nat)
    requires n <= |s.entries| && i < n
    requires Core.Distinct(s.entries)
    ensures HoldsNeighbours(Get(LinkUpTo(st, s, n), s.entries[i]), s, i)
    ensures KeepsOthers(Get(st, s.entries[i]), Get(LinkUpTo(st, s, n), s.entries[i]), LinkKeys(s))
  {
    DistinctAround(s.entries, i, n);
    LaterTurnsKeep(st, s, i + 1, n, s.entries[i]);
    NeighbourLinksLast(st, s, i);
  }

  /** In a sequence without repeats, element `i` is neither before `i` nor between `i + 1` and `n`. */
  lemma DistinctAround(entries: seq<Entry>, i: nat, n: nat)
    requires i < n <= |entries| && Core.Distinct(entries)
    ensures entries[i] !in entries[..i] && entries[i] !in entries[i + 1..n]
  {
    forall j | i + 1 <= j < n ensures entries[j] != entries[i] {
    }
    forall j | 0 <= j < i ensures entries[j] != entries[i] {
    }
  }

  /** The turns of entries `k` to `n - 1` leave an entry that is none of them as it was after turn `k - 1`. */
  lemma {:induction false} LaterTurnsKeep(st: LinkState, s: SourceInfo, k: nat, n: nat, x: Entry)
    requires k <= n <= |s.entries| && x !in s.entries[k..n]
    ensures Get(LinkUpTo(st, s, n), x) == Get(LinkUpTo(st, s, k), x)
    decreases n
  {
    if k < n {
      assert s.entries[k..n - 1] == s.entries[k..n][..n - 1 - k];
      LaterTurnsKeep(st, s, k, n - 1, x);
      assert s.entries[n - 1] == s.entries[k..n][n - 1 - k];
      LinkAtOthers(LinkUpTo(st, s, n - 1), s, n - 1, x);
    }
  }

  /** A later entry's turn leaves an earlier, different entry as it was. */
  lemma LinkUpToStep(st: LinkState, s: SourceInfo, n: nat, x: Entry)
    requires n < |s.entries| && x != s.entries[n]
    ensures Get(LinkUpTo(st, s, n + 1), x) == Get(LinkUpTo(st, s, n), x)
  {
    LinkAtOthers(LinkUpTo(st, s, n), s, n, x);
  }

  lemma NeighbourLinksLast(st: LinkState, s: SourceInfo, i: nat)
    requires i < |s.entries|
    requires s.entries[i] !in s.entries[..i]
    ensures HoldsNeighbours(Get(LinkUpTo(st, s, i + 1), s.entries[i]), s, i)
    ensures KeepsOthers(Get(st, s.entries[i]), Get(LinkUpTo(st, s, i + 1), s.entries[i]), LinkKeys(s))
  {
    LinkUpToOthers(st, s, i, s.entries[i]);
    LinkAtSelf(LinkUpTo(st, s, i), s, i);
  }

  /**
   * A multisource attribute, for an entry with names: the lists follow the
   * sorted names, each element the neighbour stored under that name; with no
   * names nothing is set.
   */
  lemma MultiAtLists(st: LinkState, e: Entry, attr: string, namesOf: (Entry, string) -> set<string>)
    requires MultiAt(st, e, attr, namesOf).Ok? && namesOf(e, attr) != {}
    ensures var names := SortedStrings(namesOf(e, attr));
      var m := Get(MultiAt(st, e, attr, namesOf).value, e);
      && PrevPrefix + attr in m && m[PrevPrefix + attr].Many? && |m[PrevPrefix + attr].targets| == |names|
      && NextPrefix + attr in m && m[NextPrefix + attr].Many? && |m[NextPrefix + attr].targets| == |names|
      && forall i :: 0 <= i < |names| ==>
           m[PrevPrefix + attr].targets[i] == Get(st, e)[PrevPrefix + names[i]].target
           && m[NextPrefix + attr].targets[i] == Get(st, e)[NextPrefix + names[i]].target
  {
    var names := SortedStrings(namesOf(e, attr));
    var x :| x in namesOf(e, attr);
    assert x in names;
    assert (PrevPrefix + attr)[0] == 'p' && (NextPrefix + attr)[0] == 'n';
  }

  // ---------------------------------------------------------------------
  // the entries themselves

  /** The link attributes of the entries as values. */
  function Snapshot(objs: set<Entry>): LinkState
    reads objs
  {
    map e | e in objs :: e.links
  }

  /** The entries hold the attributes `st` says. */
  predicate Models(objs: set<Entry>, st: LinkState)
    reads objs
  {
    st.Keys == objs && forall e :: e in objs ==> e.links == st[e]
  }

  /** `setattr(e, key, v)` on the entry itself. */
  method SetLink(e: Entry, key: string, v: LinkAttr, ghost objs: set<Entry>, ghost st: LinkState) returns (ghost st': LinkState)
    requires e in objs && Models(objs, st)
    modifies e
    ensures st' == Set(st, e, key, v) && Models(objs, st')
  {
    e.links := e.links[key := v];
    st' := Set(st, e, key, v);
  }

  /** Two `setattr` calls on one entry. */
  method SetPair(e: Entry, k1: string, v1: LinkAttr, k2: string, v2: LinkAttr, ghost objs: set<Entry>, ghost st: LinkState)
    returns (ghost st': LinkState)
    requires e in objs && Models(objs, st)
    modifies e
    ensures st' == st[e := Get(st, e) + map[k1 := v1, k2 := v2]] && Models(objs, st')
  {
    st' := SetLink(e, k1, v1, objs, st);
    st' := SetLink(e, k2, v2, objs, st');
    SetTwice(st, e, k1, v1, k2, v2);
  }

  lemma SetTwice(st: LinkState, e: Entry, k1: string, v1: LinkAttr, k2: string, v2: LinkAttr)
    ensures Set(Set(st, e, k1, v1), e, k2, v2) == st[e := Get(st, e) + map[k1 := v1, k2 := v2]]
  {
    assert Get(st, e)[k1 := v1][k2 := v2] == Get(st, e) + map[k1 := v1, k2 := v2];
  }

  lemma UnionAssoc(m: map<string, LinkAttr>, a: map<string, LinkAttr>, b: map<string, LinkAttr>)
    ensures m + a + b == m + (a + b)
  {
  }

  /** The attributes of the entries of one linked source (the inner loop of `blog_mod_sources`). */
  method LinkEntries(s: SourceInfo, ghost objs: set<Entry>, ghost st0: LinkState) returns (ghost st: LinkState)
    requires forall i :: 0 <= i < |s.entries| ==> s.entries[i] in objs
    requires Models(objs, st0)
    modifies objs
    ensures st == LinkUpTo(st0, s, |s.entries|) && Models(objs, st)
  {
    st := st0;
    for index := 0 to |s.entries|
      invariant st == LinkUpTo(st0, s, index) && Models(objs, st)
    {
      var entry := s.entries[index];
      var (prevAttr, nextAttr) := Neighbours(s, index);
      ghost var before := st;
      LinkAtSteps(before, s, index);
      if s.multisource == "" {
        st := SetPair(entry, PrevPrefix + s.sourcetype, One(prevAttr), NextPrefix + s.sourcetype, One(nextAttr), objs, st);
      }
      assert st == TypeStep(before, s, index);
      if s.prop != "" {
        st := SetPair(entry, PrevPrefix + s.prop, One(prevAttr), NextPrefix + s.prop, One(nextAttr), objs, st);
      }
      assert st == PropStep(TypeStep(before, s, index), s, index);
    }
  }

  /** The first pair of `setattr` calls of entry `i`: under the source type, unless a multisource. */
  function TypeStep(st: LinkState, s: SourceInfo, i: nat): LinkState
    requires i < |s.entries|
  {
    var (p, n) := Neighbours(s, i);
    if s.multisource == "" then st[s.entries[i] := Get(st, s.entries[i]) + map[PrevPrefix + s.sourcetype := One(p), NextPrefix + s.sourcetype := One(n)]]
    else st
  }

  /** The second pair of `setattr` calls of entry `i`: under the property, when there is one. */
  function PropStep(st: LinkState, s: SourceInfo, i: nat): LinkState
    requires i < |s.entries|
  {
    var (p, n) := Neighbours(s, i);
    if s.prop != "" then st[s.entries[i] := Get(st, s.entries[i]) + map[PrevPrefix + s.prop := One(p), NextPrefix + s.prop := One(n)]]
    else st
  }

  /** Entry `i`'s turn is its two pairs of `setattr` calls. */
  lemma LinkAtSteps(st: LinkState, s: SourceInfo, i: nat)
    requires i < |s.entries| && s.entries[i] in st
    ensures LinkAt(st, s, i) == PropStep(TypeStep(st, s, i), s, i)
  {
    var (p, n) := Neighbours(s, i);
    var m := Get(st, s.entries[i]);
    var byType: map<string, LinkAttr> := if s.multisource == "" then map[PrevPrefix + s.sourcetype := One(p), NextPrefix + s.sourcetype := One(n)] else map[];
    var byProp: map<string, LinkAttr> := if s.prop != "" then map[PrevPrefix + s.prop := One(p), NextPrefix + s.prop := One(n)] else map[];
    var e := s.entries[i];
    assert LinkAttrs(s, i) == byType + byProp;
    UnionAssoc(m, byType, byProp);
    assert LinkAt(st, s, i) == st[e := m + byType + byProp];
    var t := TypeStep(st, s, i);
    if s.multisource == "" {
      assert t == st[e := m + byType];
    } else {
      assert m + byType == m;
      assert t == st[e := m + byType];
    }
    assert Get(t, e) == m + byType;
    if s.prop != "" {
      assert PropStep(t, s, i) == t[e := m + byType + byProp];
    } else {
      assert m + byType + byProp == m + byType;
      assert PropStep(t, s, i) == t[e := m + byType + byProp];
    }
  }

  /** The neighbour lists of one entry for one multisource attribute. */
  method LinkMulti(entry: Entry, attr: string, namesOf: (Entry, string) -> set<string>, ghost objs: set<Entry>, ghost st0: LinkState)
    returns (err: Option<string>, ghost st: LinkState)
    requires entry in objs && Models(objs, st0)
    modifies objs
    ensures MultiAt(st0, entry, attr, namesOf).Ok? <==> err.None?
    ensures err.None? ==> st == MultiAt(st0, entry, attr, namesOf).value && Models(objs, st)
  {
    st := st0;
    var names := SortedStrings(namesOf(entry, attr));
    if names == [] {
      return None, st;
    }
    var prevs := Collect(entry.links, PrevPrefix, names);
    var nexts := Collect(entry.links, NextPrefix, names);
    if prevs.Err? {
      return Some(prevs.msg), st;
    }
    st := SetLink(entry, PrevPrefix + attr, Many(prevs.value), objs, st);
    if nexts.Err? {
      return Some(nexts.msg), st;
    }
    st := SetLink(entry, NextPrefix + attr, Many(nexts.value), objs, st);
    err := None;
  }

  /** The first loop of `blog_mod_sources`: each run of a linked source links its entries and records its multisource. */
  method LinkAllSources(sources: seq<(SourceInfo, string)>, linked: set<string>, objs: set<Entry>, ghost st0: LinkState)
    returns (multisources: set<string>, ghost st: LinkState)
    requires forall i, j :: 0 <= i < |sources| && 0 <= j < |sources[i].0.entries| ==> sources[i].0.entries[j] in objs
    requires Models(objs, st0)
    modifies objs
    ensures st == LinkSources(st0, Dedup(sources), linked) && Models(objs, st)
    ensures multisources == Multisources(Dedup(sources), linked)
  {
    st := st0;
    multisources := {};
    ghost var srcs: seq<SourceInfo> := [];
    for i := 0 to |sources|
      invariant srcs == Dedup(sources[..i])
      invariant st == LinkSources(st0, srcs, linked) && Models(objs, st)
      invariant multisources == Multisources(srcs, linked)
    {
      DedupStep(sources, i);
      var source := sources[i].0;
      if i == 0 || source != sources[i - 1].0 {
        var added;
        added, st := LinkRun(source, linked, objs, srcs, st0, st);
        MultisourcesSnoc(srcs, source, linked);
        multisources := multisources + added;
        srcs := srcs + [source];
      }
    }
    assert sources[..|sources|] == sources;
  }

  /** One run of a source in that loop: its entries linked when its type is linked, and its multisource reported. */
  method LinkRun(source: SourceInfo, linked: set<string>, objs: set<Entry>, ghost srcs: seq<SourceInfo>,
                 ghost st0: LinkState, ghost st: LinkState)
    returns (added: set<string>, ghost st': LinkState)
    requires forall j :: 0 <= j < |source.entries| ==> source.entries[j] in objs
    requires st == LinkSources(st0, srcs, linked) && Models(objs, st)
    modifies objs
    ensures st' == LinkSources(st0, srcs + [source], linked) && Models(objs, st')
    ensures added == if source.sourcetype in linked && source.multisource != "" then {source.multisource} else {}
  {
    LinkSourcesSnoc(st0, srcs, source, linked);
    st' := st;
    added := {};
    if source.sourcetype in linked {
      if source.multisource != "" {
        added := {source.multisource};
      }
      st' := LinkEntries(source, objs, st);
    }
  }

  /** `groupby` one source further: a source equal to the one before it is not repeated. */
  lemma DedupStep(sources: seq<(SourceInfo, string)>, i: nat)
    requires i < |sources|
    ensures Dedup(sources[..i + 1]) ==
      if i == 0 || sources[i].0 != sources[i - 1].0 then Dedup(sources[..i]) + [sources[i].0] else Dedup(sources[..i])
  {
    assert sources[..i + 1][..i] == sources[..i];
    if i > 0 {
      assert sources[..i][i - 1] == sources[i - 1];
    }
  }

  lemma LinkSourcesSnoc(st: LinkState, srcs: seq<SourceInfo>, s: SourceInfo, linked: set<string>)
    ensures LinkSources(st, srcs + [s], linked) ==
      if s.sourcetype in linked then LinkUpTo(LinkSources(st, srcs, linked), s, |s.entries|) else LinkSources(st, srcs, linked)
  {
    assert (srcs + [s])[..|srcs|] == srcs;
  }

  /** The inner loop of the second part: every multisource attribute of one entry, in the given order. */
  method LinkEntryMulti(entry: Entry, order: seq<string>, namesOf: (Entry, string) -> set<string>, objs: set<Entry>, ghost st0: LinkState)
    returns (err: Option<string>, ghost st: LinkState)
    requires entry in objs && Models(objs, st0)
    modifies objs
    ensures MultiAll(st0, entry, order, namesOf).Ok? <==> err.None?
    ensures err.None? ==> MultiAll(st0, entry, order, namesOf) == Ok(st) && Models(objs, st)
  {
    st := st0;
    for j := 0 to |order|
      invariant MultiAll(st0, entry, order[..j], namesOf) == Ok(st)
      invariant Models(objs, st)
    {
      assert order[..j + 1][..j] == order[..j];
      err, st := LinkMulti(entry, order[j], namesOf, objs, st);
      if err.Some? {
        MultiAllStops(st0, entry, order, j + 1, namesOf);
        return;
      }
    }
    assert order[..|order|] == order;
    err := None;
  }

  /**
   * `blog_mod_sources`: the sources come back unchanged; the entries'
   * link attributes become what linking every (distinct consecutive) linked
   * source and then every multisource of every entry makes them, the
   * multisource attributes taken in the order `order` lists them. An
   * AttributeError stops it.
   */
  method BlogModSources(sources: seq<(SourceInfo, string)>, linked: set<string>, allEntries: seq<Entry>,
                        namesOf: (Entry, string) -> set<string>, objs: set<Entry>)
    returns (r: Result<seq<(SourceInfo, string)>>, order: seq<string>)
    requires forall i, j :: 0 <= i < |sources| && 0 <= j < |sources[i].0.entries| ==> sources[i].0.entries[j] in objs
    requires forall i :: 0 <= i < |allEntries| ==> allEntries[i] in objs
    modifies objs
    ensures forall a :: a in order <==> a in Multisources(Dedup(sources), linked)
    ensures r.Ok? ==> r.value == sources
    ensures var spec := MultiLinks(LinkSources(old(Snapshot(objs)), Dedup(sources), linked), allEntries, order, namesOf);
      r.Ok? <==> spec.Ok?
    ensures r.Ok? ==> Models(objs, MultiLinks(LinkSources(old(Snapshot(objs)), Dedup(sources), linked), allEntries, order, namesOf).value)
  {
    ghost var st0 := Snapshot(objs);
    var multisources;
    ghost var st;
    multisources, st := LinkAllSources(sources, linked, objs, st0);
    ghost var linkedSt := st;
    order := Named.Enumerate(multisources);
    for i := 0 to |allEntries|
      invariant MultiLinks(linkedSt, allEntries[..i], order, namesOf) == Ok(st)
      invariant Models(objs, st)
    {
      assert allEntries[..i + 1][..i] == allEntries[..i];
      var err;
      err, st := LinkEntryMulti(allEntries[i], order, namesOf, objs, st);
      if err.Some? {
        MultiLinksStops(linkedSt, allEntries, order, i + 1, namesOf);
        return Err(err.value), order;
      }
    }
    assert allEntries[..|allEntries|] == allEntries;
    r := Ok(sources);
  }

  lemma MultisourcesSnoc(srcs: seq<SourceInfo>, s: SourceInfo, linked: set<string>)
    ensures Multisources(srcs + [s], linked) == Multisources(srcs, linked) + (if s.sourcetype in linked && s.multisource != "" then {s.multisource} else {})
  {
    var all := srcs + [s];
    forall a | a in Multisources(srcs, linked) ensures a in Multisources(all, linked) {
      var i :| 0 <= i < |srcs| && srcs[i].sourcetype in linked && srcs[i].multisource != "" && srcs[i].multisource == a;
      assert all[i] == srcs[i];
    }
    if s.sourcetype in linked && s.multisource != "" {
      assert all[|srcs|] == s;
    }
  }

  /** An error for one attribute is an error for the entry. */
  lemma {:induction false} MultiAllStops(st: LinkState, e: Entry, attrs: seq<string>, j: nat, namesOf: (Entry, string) -> set<string>)
    requires 0 < j <= |attrs| && MultiAll(st, e, attrs[..j], namesOf).Err?
    ensures MultiAll(st, e, attrs, namesOf).Err?
    decreases |attrs| - j
  {
    if j < |attrs| {
      assert attrs[..j + 1][..j] == attrs[..j];
      MultiAllStops(st, e, attrs, j + 1, namesOf);
    } else {
      assert attrs[..j] == attrs;
    }
  }

  /** An error for one entry is an error for the blog. */
  lemma {:induction false} MultiLinksStops(st: LinkState, entries: seq<Entry>, attrs: seq<string>, i: nat, namesOf: (Entry, string) -> set<string>)
    requires 0 < i <= |entries| && MultiLinks(st, entries[..i], attrs, namesOf).Err?
    ensures MultiLinks(st, entries, attrs, namesOf).Err?
    decreases |entries| - i
  {
    if i < |entries| {
      assert entries[..i + 1][..i] == entries[..i];
      MultiLinksStops(st, entries, attrs, i + 1, namesOf);
    } else {
      assert entries[..i] == entries;
    }
  }
}
