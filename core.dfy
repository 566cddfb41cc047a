/**
 * The pieces of `simpleblog/__init__.py` outside the dispatch protocol:
 * prefixing the keys of a mapping, the neighbours of a container among the
 * containers of its kind, the blog's metadata set-up, and the paths of a
 * page.
 */
module Core {
  import opened Wrappers
  import opened Text

  // ---------------------------------------------------------------------
  // list comprehensions with a condition

  /** `[x for x in s if keep(x)]`. */
  function Filter<T>(s: seq<T>, keep: T -> bool): (r: seq<T>)
    ensures |r| <= |s|
    ensures forall i :: 0 <= i < |r| ==> keep(r[i]) && r[i] in s
    ensures forall i :: 0 <= i < |s| && keep(s[i]) ==> s[i] in r
  {
    if s == [] then []
    else (if keep(s[0]) then [s[0]] else []) + Filter(s[1..], keep)
  }

  /** The kept elements stay in their order: filtering a longer list extends the result. */
  lemma {:induction false} FilterSnoc<T>(s: seq<T>, x: T, keep: T -> bool)
    ensures Filter(s + [x], keep) == Filter(s, keep) + (if keep(x) then [x] else [])
    decreases |s|
  {
    if s != [] {
      assert (s + [x])[1..] == s[1..] + [x];
      FilterSnoc(s[1..], x, keep);
    }
  }

  // ---------------------------------------------------------------------
  // prefixed_keys

  /** `prefixed_keys(mapping, prefix)`: every key gains `prefix`, values are kept. */
  function PrefixedKeys<V>(m: map<string, V>, prefix: string): (r: map<string, V>)
    ensures forall k :: k in m ==> prefix + k in r && r[prefix + k] == m[k]
    ensures forall k :: k in r ==> StartsWith(k, prefix) && k[|prefix|..] in m
  {
    var keys := set k | k in m :: prefix + k;
    assert forall k :: k in m ==> (prefix + k)[|prefix|..] == k;
    map k | k in keys :: m[k[|prefix|..]]
  }

  /** The prefixed mapping has exactly as many entries as the original. */
  lemma {:induction false} PrefixedKeysSize<V>(m: map<string, V>, prefix: string)
    ensures |PrefixedKeys(m, prefix)| == |m|
    decreases |m|
  {
    if m != map[] {
      var k :| k in m;
      var rest := m - {k};
      PrefixedKeysSize(rest, prefix);
      var p := PrefixedKeys(rest, prefix);
      assert (prefix + k)[|prefix|..] == k;
      PrefixedKeysRemove(m, prefix, k);
      assert |PrefixedKeys(m, prefix).Keys| == |p.Keys| + 1;
    }
  }

  /** Leaving one key out of the mapping leaves its prefixed key out of the result. */
  lemma PrefixedKeysRemove<V>(m: map<string, V>, prefix: string, k: string)
    requires k in m
    ensures PrefixedKeys(m, prefix).Keys == PrefixedKeys(m - {k}, prefix).Keys + {prefix + k}
    ensures prefix + k !in PrefixedKeys(m - {k}, prefix)
  {
    var full := PrefixedKeys(m, prefix);
    var p := PrefixedKeys(m - {k}, prefix);
    assert (prefix + k)[|prefix|..] == k;
    forall x | x in full ensures x in p || x == prefix + k {
      if x[|prefix|..] != k {
        assert x == prefix + x[|prefix|..];
      }
    }
  }

  /** Removing the prefix again gives the original mapping back. */
  lemma PrefixedKeysInverse<V>(m: map<string, V>, prefix: string)
    ensures (map k | k in PrefixedKeys(m, prefix) :: k[|prefix|..] := PrefixedKeys(m, prefix)[k]) == m
  {
    var p := PrefixedKeys(m, prefix);
    var back := map k | k in p :: k[|prefix|..] := p[k];
    forall k | k in m ensures k in back && back[k] == m[k] {
      assert (prefix + k)[|prefix|..] == k;
    }
    forall k | k in back ensures k in m {
    }
  }

  // ---------------------------------------------------------------------
  // the neighbours of a container among its `sourcetype_sources`

  /** The first position of `x` in `s`, or `|s|` when it does not occur. */
  function FirstIndex<T(==)>(s: seq<T>, x: T): (i: nat)
    ensures i <= |s|
    ensures i < |s| ==> s[i] == x
    ensures forall j :: 0 <= j < i ==> s[j] != x
  {
    if s == [] then 0
    else if s[0] == x then 0
    else 1 + FirstIndex(s[1..], x)
  }

  /**
   * `sourcetype_index`: -1 for an empty list, otherwise `list.index`,
   * which raises `ValueError` for a container missing from the list.
   */
  function SourceIndex<T(==)>(sources: seq<T>, x: T): (r: Result<int>)
    ensures sources == [] ==> r == Ok(-1)
    ensures sources != [] ==> (r.Ok? <==> x in sources)
    ensures sources != [] && r.Ok? ==> 0 <= r.value < |sources| && sources[r.value] == x && x !in sources[..r.value]
  {
    if sources == [] then Ok(-1)
    else
      var i := FirstIndex(sources, x);
      if i < |sources| then Ok(i as int) else Err("list.index(x): x not in list")
  }

  /** `_get_next_source`: the container after this one, `None` at the end. */
  function NextSource<T(==)>(sources: seq<T>, x: T): Result<Option<T>> {
    match SourceIndex(sources, x)
    case Err(m) => Err(m)
    case Ok(i) => if i > -1 && i < |sources| - 1 then Ok(Some(sources[i + 1])) else Ok(None)
  }

  /** `_get_prev_source`: the container before this one, `None` at the start. */
  function PrevSource<T(==)>(sources: seq<T>, x: T): Result<Option<T>> {
    match SourceIndex(sources, x)
    case Err(m) => Err(m)
    case Ok(i) => if i > 0 then Ok(Some(sources[i - 1])) else Ok(None)
  }

  /** For the container at position `i` (its first occurrence): the neighbours are at `i + 1` and `i - 1`. */
  lemma Neighbours<T>(sources: seq<T>, i: nat)
    requires i < |sources| && sources[i] !in sources[..i]
    ensures NextSource(sources, sources[i]) == Ok(if i + 1 < |sources| then Some(sources[i + 1]) else None)
    ensures PrevSource(sources, sources[i]) == Ok(if i > 0 then Some(sources[i - 1]) else None)
  {
    FirstIndexAt(sources, i);
  }

  /** The first occurrence of an element is found at its position. */
  lemma {:induction false} FirstIndexAt<T>(s: seq<T>, i: nat)
    requires i < |s| && s[i] !in s[..i]
    ensures FirstIndex(s, s[i]) == i
  {
    if i > 0 {
      assert s[0] in s[..i];
      assert s[1..][i - 1] == s[i];
      assert s[1..][..i - 1] == s[..i][1..];
      FirstIndexAt(s[1..], i - 1);
    }
  }

  predicate Distinct<T(==)>(s: seq<T>) {
    forall i, j :: 0 <= i < j < |s| ==> s[i] != s[j]
  }

  /** In a list without repeats, the previous source of the next source is the container itself. */
  lemma PrevOfNext<T>(sources: seq<T>, x: T, y: T)
    requires Distinct(sources)
    requires NextSource(sources, x) == Ok(Some(y))
    ensures PrevSource(sources, y) == Ok(Some(x))
  {
    var i := FirstIndex(sources, x);
    assert sources[i + 1] == y;
    forall j | 0 <= j < i + 1 ensures sources[j] != y {
    }
    Neighbours(sources, i + 1);
  }

  // ---------------------------------------------------------------------
  // Blog.__init__: required and default metadata

  /** Every key of `small` is in `big` with the same value. */
  predicate Extends(small: map<string, string>, big: map<string, string>) {
    forall k :: k in small ==> k in big && big[k] == small[k]
  }

  lemma ExtendsTransitive(a: map<string, string>, b: map<string, string>, c: map<string, string>)
    requires Extends(a, b) && Extends(b, c)
    ensures Extends(a, c)
  {
  }

  /** The message of `BlogMetadataError` for a missing required key. */
  function MissingMessage(key: string): string {
    key + " missing from blog metadata"
  }

  /** The keys of a list of `(key, template)` items. */
  function ItemKeys(items: seq<(string, string)>): set<string> {
    set i | 0 <= i < |items| :: items[i].0
  }

  /**
   * `setdefault` applied to each item in turn: a key absent so far gets its
   * template filled in from the metadata as it stands at that step.
   */
  function SetDefaults(meta: map<string, string>, items: seq<(string, string)>,
                       fill: (string, map<string, string>) -> string): map<string, string>
    decreases |items|
  {
    if items == [] then meta
    else
      var m := SetDefaults(meta, items[..|items| - 1], fill);
      var k := items[|items| - 1].0;
      if k in m then m else m[k := fill(items[|items| - 1].1, m)]
  }

  /** The filled metadata has the old keys and the items' keys, and no others. */
  lemma {:induction false} SetDefaultsKeys(meta: map<string, string>, items: seq<(string, string)>,
                                           fill: (string, map<string, string>) -> string)
    ensures SetDefaults(meta, items, fill).Keys == meta.Keys + ItemKeys(items)
    decreases |items|
  {
    if items != [] {
      var init := items[..|items| - 1];
      SetDefaultsKeys(meta, init, fill);
      assert ItemKeys(items) == ItemKeys(init) + {items[|items| - 1].0} by {
        forall x | x in ItemKeys(items) ensures x in ItemKeys(init) + {items[|items| - 1].0} {
          var i :| 0 <= i < |items| && items[i].0 == x;
          if i < |items| - 1 {
            assert init[i].0 == x;
          }
        }
        forall x | x in ItemKeys(init) ensures x in ItemKeys(items) {
          var i :| 0 <= i < |init| && init[i].0 == x;
          assert items[i].0 == x;
        }
      }
    }
  }

  /** A key already present keeps its value: later steps only add keys. */
  lemma {:induction false} SetDefaultsExtends(meta: map<string, string>, items: seq<(string, string)>,
                                              fill: (string, map<string, string>) -> string)
    ensures Extends(meta, SetDefaults(meta, items, fill))
    decreases |items|
  {
    if items != [] {
      var m := SetDefaults(meta, items[..|items| - 1], fill);
      SetDefaultsExtends(meta, items[..|items| - 1], fill);
      ExtendsTransitive(meta, m, SetDefaults(meta, items, fill));
    }
  }

  /** Filling more items only adds keys to what the first `i` gave. */
  lemma {:induction false} SetDefaultsPrefix(meta: map<string, string>, items: seq<(string, string)>,
                                             fill: (string, map<string, string>) -> string, i: nat)
    requires i <= |items|
    ensures Extends(SetDefaults(meta, items[..i], fill), SetDefaults(meta, items, fill))
    decreases |items|
  {
    if i < |items| {
      var init := items[..|items| - 1];
      assert init[..i] == items[..i];
      SetDefaultsPrefix(meta, init, fill, i);
      ExtendsTransitive(SetDefaults(meta, items[..i], fill), SetDefaults(meta, init, fill), SetDefaults(meta, items, fill));
    } else {
      assert items[..i] == items;
    }
  }

  /**
   * The first item for a key absent from the loaded metadata decides its
   * value: its template filled in from the metadata after the items before it.
   */
  lemma SetDefaultsFirstWins(meta: map<string, string>, items: seq<(string, string)>,
                             fill: (string, map<string, string>) -> string, i: nat)
    requires i < |items| && items[i].0 !in meta
    requires forall j :: 0 <= j < i ==> items[j].0 != items[i].0
    ensures items[i].0 in SetDefaults(meta, items, fill)
    ensures SetDefaults(meta, items, fill)[items[i].0] == fill(items[i].1, SetDefaults(meta, items[..i], fill))
  {
    var k := items[i].0;
    var m := SetDefaults(meta, items[..i], fill);
    SetDefaultsKeys(meta, items[..i], fill);
    assert k !in ItemKeys(items[..i]);
    assert items[..i + 1][..i] == items[..i];
    assert SetDefaults(meta, items[..i + 1], fill) == m[k := fill(items[i].1, m)];
    SetDefaultsPrefix(meta, items, fill, i + 1);
  }

  class Blog {
    /** The blog's metadata, as loaded from the blog file and then completed. */
    var metadata: map<string, string>

    constructor (loaded: map<string, string>)
      ensures metadata == loaded
    {
      metadata := loaded;
    }

    /**
     * The checks of `Blog.__init__`: a required key missing from the
     * loaded metadata raises `BlogMetadataError`, naming one such key.
     */
    method CheckRequired(required: set<string>) returns (err: Option<string>)
      ensures err.None? <==> required <= metadata.Keys
      ensures err.Some? ==> exists k :: k in required && k !in metadata && err.value == MissingMessage(k)
    {
      var todo := required;
      while todo != {}
        invariant todo <= required
        invariant required - todo <= metadata.Keys
        decreases todo
      {
        var k :| k in todo;
        if k !in metadata {
          return Some(MissingMessage(k));
        }
        todo := todo - {k};
      }
      assert required - {} == required;
      return None;
    }

    /**
     * The defaults of `Blog.__init__`: the `(key, template)` items of
     * `default_metadata`, in its order, each applied with `setdefault`.
     */
    method FillDefaults(items: seq<(string, string)>, fill: (string, map<string, string>) -> string)
      modifies this
      ensures metadata == SetDefaults(old(metadata), items, fill)
    {
      var m := metadata;
      ghost var before := metadata;
      for i := 0 to |items|
        invariant m == SetDefaults(before, items[..i], fill)
      {
        assert items[..i + 1][..i] == items[..i];
        var (k, template) := items[i];
        if k !in m {
          m := m[k := fill(template, m)];
        }
      }
      assert items[..|items|] == items;
      metadata := m;
    }
  }

  // ---------------------------------------------------------------------
  // BlogPage

  /** What a page reads from its source: an entry, or a container of entries. */
  datatype SourceView<E> = SourceView(isEntry: bool, self: E, entries: seq<E>, title: string, heading: string, urlpath: string)

  datatype Page<E> = Page(source: SourceView<E>, title: string, heading: string, entries: seq<E>, format: string, urlpath: string)

  /** `BlogPage.__init__`: one page of `source` in `format`. */
  function NewPage<E>(source: SourceView<E>, format: string): (p: Page<E>)
    ensures p.title == source.title && p.heading == source.heading && p.format == format
    ensures source.isEntry ==> p.entries == [source.self]
    ensures !source.isEntry ==> p.entries == source.entries
    ensures p.urlpath == source.urlpath + "." + format
  {
    Page(source, source.title, source.heading, if source.isEntry then [source.self] else source.entries, format, source.urlpath + "." + format)
  }

  /** `os.path.join(*parts)`, folded from the left. */
  function JoinPaths(parts: seq<string>): string
    decreases |parts|
  {
    if parts == [] then ""
    else if |parts| == 1 then parts[0]
    else PathJoin(JoinPaths(parts[..|parts| - 1]), parts[|parts| - 1])
  }

  /** `BlogPage.filepath`: the URL path without its leading `/`, as a file path. */
  function FilePath(urlpath: string): string {
    JoinPaths(SplitOn(if urlpath == [] then [] else urlpath[1..], '/'))
  }

  /** Joining non-empty, slash-free parts as paths is joining them with `/`. */
  lemma {:induction false} JoinPathsPlain(parts: seq<string>)
    requires |parts| >= 1
    requires forall i :: 0 <= i < |parts| ==> parts[i] != [] && '/' !in parts[i]
    ensures JoinPaths(parts) == Join(parts, "/")
    ensures JoinPaths(parts) != [] && JoinPaths(parts)[|JoinPaths(parts)| - 1] != '/'
    decreases |parts|
  {
    if |parts| > 1 {
      var init := parts[..|parts| - 1];
      var last := parts[|parts| - 1];
      assert init + [last] == parts;
      JoinPathsPlain(init);
      JoinSnoc(init, last, "/");
      var a := JoinPaths(init);
      assert last[0] != '/' by {
        assert last[0] in last;
      }
      assert !StartsWith(last, "/");
      assert !EndsWith(a, "/");
      assert JoinPaths(parts) == a + "/" + last;
    }
  }

  /** A page whose URL path is `/` followed by slash-separated names is written at that path, relative. */
  lemma FilePathOfUrl(parts: seq<string>)
    requires |parts| >= 1
    requires forall i :: 0 <= i < |parts| ==> parts[i] != [] && '/' !in parts[i]
    ensures FilePath("/" + Join(parts, "/")) == Join(parts, "/")
  {
    assert ("/" + Join(parts, "/"))[1..] == Join(parts, "/");
    JoinSplitOn(parts, '/');
    JoinPathsPlain(parts);
  }

  /**
   * `BlogPage.source_links`: the links to the next and the previous source
   * of the link source, each empty when there is none.
   */
  function SourceLinks<A>(linkSource: Option<(Option<A>, Option<A>)>, link: A -> string): (r: (string, string))
    ensures linkSource.None? ==> r == ("", "")
    ensures linkSource.Some? ==> r.0 == (if linkSource.value.0.Some? then link(linkSource.value.0.value) else "")
    ensures linkSource.Some? ==> r.1 == (if linkSource.value.1.Some? then link(linkSource.value.1.value) else "")
  {
    match linkSource
    case None => ("", "")
    case Some((next, prev)) =>
      (if next.Some? then link(next.value) else "", if prev.Some? then link(prev.value) else "")
  }
}
