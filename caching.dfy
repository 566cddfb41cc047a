/**
 * The attribute cache of simpleblog (`simpleblog/caching.py`): one
 * key-to-value map per cache name, read lazily from a text file of
 * `"key value"` lines and written back, sorted, whenever a value had to be
 * computed.
 */
module Caching {
  import opened Wrappers
  import opened Text
  import opened Order

  /** The files the caches live in: file name to its lines. */
  class Disk {
    var files: map<string, seq<string>>

    constructor (files0: map<string, seq<string>>)
      ensures files == files0
    {
      files := files0;
    }
  }

  /**
   * A cache's `objtype`: one Python callable, seen on the two kinds of
   * argument it receives, a token read from the file and the value the
   * wrapped function computed. Either may raise.
   */
  datatype Objtype<!V> = Objtype(fromToken: string -> Result<V>, fromValue: V -> Result<V>)

  /** The settings a cache is created with, which decide its file format. */
  datatype Format<!V> = Format(reverse: bool, objtype: Option<Objtype<V>>, plain: string -> V, show: V -> string)

  function Reversed<T>(s: seq<T>): (r: seq<T>)
    ensures |r| == |s|
    ensures forall i :: 0 <= i < |s| ==> r[i] == s[|s| - 1 - i]
  {
    if s == [] then [] else Reversed(s[1..]) + [s[0]]
  }

  /**
   * One line of the file as a key and a value: split on whitespace,
   * reversed for a reversed cache, then key and value from the first two
   * tokens. With an `objtype` the value token goes through it and extra
   * tokens are ignored; without one the line must hold exactly two tokens.
   */
  function ParseLine<V>(line: string, fmt: Format<V>): (r: Result<(string, V)>)
    ensures r.Ok? ==> |Split(line)| >= 2
    ensures fmt.objtype.None? && r.Ok? ==> |Split(line)| == 2
  {
    var t := if fmt.reverse then Reversed(Split(line)) else Split(line);
    match fmt.objtype
    case Some(obj) =>
      if |t| < 2 then Err("tuple index out of range")
      else (match obj.fromToken(t[1])
        case Err(m) => Err(m)
        case Ok(v) => Ok((t[0], v)))
    case None =>
      if |t| != 2 then Err("dictionary update sequence element has the wrong length")
      else Ok((t[0], fmt.plain(t[1])))
  }

  /** The map built from the lines in order; a later line for a key wins. */
  function LoadLines<V>(lines: seq<string>, fmt: Format<V>): Result<map<string, V>> {
    if lines == [] then Ok(map[])
    else match LoadLines(lines[..|lines| - 1], fmt)
      case Err(m) => Err(m)
      case Ok(cache) =>
        match ParseLine(lines[|lines| - 1], fmt)
        case Err(m) => Err(m)
        case Ok(kv) => Ok(cache[kv.0 := kv.1])
  }

  /** The cache property: the file is opened unconditionally, so a missing one is an error. */
  function LoadFile<V>(files: map<string, seq<string>>, filename: string, fmt: Format<V>): Result<map<string, V>> {
    if filename !in files then Err("No such file or directory: " + filename)
    else LoadLines(files[filename], fmt)
  }

  /** The line `save` writes for one item, columns swapped for a reversed cache. */
  function LineOf<V>(k: string, v: V, fmt: Format<V>): string {
    if fmt.reverse then fmt.show(v) + " " + k + "\n" else k + " " + fmt.show(v) + "\n"
  }

  /** The lines of every item of `cache`. */
  function LinesOf<V>(cache: map<string, V>, fmt: Format<V>): set<string> {
    set k | k in cache :: LineOf(k, cache[k], fmt)
  }

  /** Each line at most once. */
  predicate NoDup(lines: seq<string>) {
    forall x :: x in lines ==> multiset(lines)[x] <= 1
  }

  lemma NoDupAppend(lines: seq<string>, x: string)
    requires NoDup(lines) && x !in lines
    ensures NoDup(lines + [x])
  {
    assert multiset(lines + [x]) == multiset(lines) + multiset{x};
  }

  /** The file contents for `cache`: each item's line once, in some order. */
  ghost predicate Encodes<V>(lines: seq<string>, cache: map<string, V>, fmt: Format<V>) {
    && |lines| == |cache|
    && (forall i :: 0 <= i < |lines| ==> lines[i] in LinesOf(cache, fmt))
    && NoDup(lines)
  }

  /** An item the file format can carry: key and value text are single tokens that read back. */
  ghost predicate Storable<V>(k: string, v: V, fmt: Format<V>) {
    && k != [] && NoSpace(k)
    && fmt.show(v) != [] && NoSpace(fmt.show(v))
    && (match fmt.objtype
        case Some(obj) => obj.fromToken(fmt.show(v)) == Ok(v)
        case None => fmt.plain(fmt.show(v)) == v)
  }

  ghost predicate AllStorable<V>(cache: map<string, V>, fmt: Format<V>) {
    forall k :: k in cache ==> Storable(k, cache[k], fmt)
  }

  /** The line written for a storable item reads back as that item. */
  lemma ParseLineOf<V>(k: string, v: V, fmt: Format<V>)
    requires Storable(k, v, fmt)
    ensures ParseLine(LineOf(k, v, fmt), fmt) == Ok((k, v))
  {
    if fmt.reverse {
      SplitPair(fmt.show(v), k);
      assert Reversed([fmt.show(v), k]) == [k, fmt.show(v)];
    } else {
      SplitPair(k, fmt.show(v));
    }
  }

  /** Distinct storable keys get distinct lines. */
  lemma LineOfInjective<V>(k1: string, v1: V, k2: string, v2: V, fmt: Format<V>)
    requires Storable(k1, v1, fmt) && Storable(k2, v2, fmt)
    requires LineOf(k1, v1, fmt) == LineOf(k2, v2, fmt)
    ensures k1 == k2
  {
    ParseLineOf(k1, v1, fmt);
    ParseLineOf(k2, v2, fmt);
  }

  /**
   * The round trip: when every item is storable, loading any file that
   * lists each item's line once, in any order, gives back the same map.
   */
  lemma {:induction false} LoadEncoded<V>(lines: seq<string>, cache: map<string, V>, fmt: Format<V>)
    requires AllStorable(cache, fmt)
    requires Encodes(lines, cache, fmt)
    ensures LoadLines(lines, fmt) == Ok(cache)
    decreases |lines|
  {
    if lines == [] {
      assert cache.Keys == {} by {
        assert |cache.Keys| == |cache| == 0;
      }
    } else {
      var k := EncodedKey(lines, cache, fmt);
      EncodesDropLast(lines, cache, fmt, k);
      LoadEncoded(lines[..|lines| - 1], cache - {k}, fmt);
      ParseLineOf(k, cache[k], fmt);
      assert (cache - {k})[k := cache[k]] == cache;
    }
  }

  /** The key whose line is the last of an encoding. */
  lemma EncodedKey<V>(lines: seq<string>, cache: map<string, V>, fmt: Format<V>) returns (k: string)
    requires Encodes(lines, cache, fmt) && lines != []
    ensures k in cache && lines[|lines| - 1] == LineOf(k, cache[k], fmt)
  {
    assert lines[|lines| - 1] in LinesOf(cache, fmt);
    k :| k in cache && lines[|lines| - 1] == LineOf(k, cache[k], fmt);
  }

  /** When two lines carry the same key, the later one's value is kept. */
  lemma LaterLineWins<V>(lines: seq<string>, a: string, b: string, fmt: Format<V>, k: string, v1: V, v2: V)
    requires LoadLines(lines, fmt).Ok?
    requires ParseLine(a, fmt) == Ok((k, v1)) && ParseLine(b, fmt) == Ok((k, v2))
    ensures LoadLines(lines + [a, b], fmt) == Ok(LoadLines(lines, fmt).value[k := v2])
  {
    var m := LoadLines(lines, fmt).value;
    LoadLinesSnoc(lines, a, fmt);
    assert lines + [a, b] == (lines + [a]) + [b];
    LoadLinesSnoc(lines + [a], b, fmt);
    assert m[k := v1][k := v2] == m[k := v2];
  }

  /** Loading one more line adds what it parses to, or fails with it. */
  lemma LoadLinesSnoc<V>(lines: seq<string>, line: string, fmt: Format<V>)
    ensures LoadLines(lines + [line], fmt) ==
      match LoadLines(lines, fmt)
      case Err(m) => Err(m)
      case Ok(cache) =>
        match ParseLine(line, fmt)
        case Err(m) => Err(m)
        case Ok(kv) => Ok(cache[kv.0 := kv.1])
  {
    assert (lines + [line])[..|lines|] == lines;
  }

  /** A line with an empty value text, `"key \n"`, cannot be read back, with or without `objtype`. */
  lemma EmptyValueUnreadable<V>(k: string, fmt: Format<V>)
    requires k != [] && NoSpace(k)
    ensures ParseLine(k + " \n", fmt).Err?
  {
    SplitToken(k, " \n");
    SplitAllSpace(" \n");
    assert Reversed([k]) == [k];
  }

  /**
   * A value text holding a space gives a line of three tokens: read through
   * `objtype` the tokens after the second are dropped, and without `objtype`
   * the line is an error.
   */
  lemma ExtraTokens<V>(a: string, b: string, c: string, fmt: Format<V>)
    requires a != [] && NoSpace(a) && b != [] && NoSpace(b) && c != [] && NoSpace(c)
    ensures var line := a + " " + b + " " + c + "\n";
      && (fmt.objtype.None? ==> ParseLine(line, fmt).Err?)
      && (fmt.objtype.Some? && !fmt.reverse ==>
            ParseLine(line, fmt) == match fmt.objtype.value.fromToken(b) case Err(m) => Err(m) case Ok(v) => Ok((a, v)))
      && (fmt.objtype.Some? && fmt.reverse ==>
            ParseLine(line, fmt) == match fmt.objtype.value.fromToken(b) case Err(m) => Err(m) case Ok(v) => Ok((c, v)))
  {
    SplitThree(a, b, c);
    assert Reversed([a, b, c]) == [c, b, a];
  }

  /** Three tokens separated by single spaces split into those tokens. */
  lemma SplitThree(a: string, b: string, c: string)
    requires a != [] && NoSpace(a) && b != [] && NoSpace(b) && c != [] && NoSpace(c)
    ensures Split(a + " " + b + " " + c + "\n") == [a, b, c]
  {
    var tail := b + " " + c + "\n";
    assert a + " " + b + " " + c + "\n" == a + " " + tail;
    SplitSpaced(a, tail);
    SplitPair(b, c);
  }

  /** Dropping the last line of an encoding encodes the map without that line's item. */
  lemma EncodesDropLast<V>(lines: seq<string>, cache: map<string, V>, fmt: Format<V>, k: string)
    requires Encodes(lines, cache, fmt) && lines != []
    requires k in cache && lines[|lines| - 1] == LineOf(k, cache[k], fmt)
    ensures Encodes(lines[..|lines| - 1], cache - {k}, fmt)
  {
    var last := lines[|lines| - 1];
    var rest := cache - {k};
    var prefix := lines[..|lines| - 1];
    assert lines == prefix + [last];
    assert multiset(lines) == multiset(prefix) + multiset{last};
    assert multiset(prefix)[last] == 0 by {
      assert last in lines;
    }
    forall i | 0 <= i < |prefix| ensures prefix[i] in LinesOf(rest, fmt) {
      assert prefix[i] == lines[i] && prefix[i] in multiset(prefix);
      var k' :| k' in cache && prefix[i] == LineOf(k', cache[k'], fmt);
      assert k' in rest;
    }
    forall x | x in prefix ensures multiset(prefix)[x] <= 1 {
      assert multiset(prefix)[x] <= multiset(lines)[x];
    }
    assert |rest| == |cache| - 1;
  }

  /** Lines compare as Python strings when `save` sorts them. */
  function LineKey(s: string): seq<int> {
    StrKey(s)
  }

  /**
   * What `save` leaves on disk: the cache file rewritten, sorted, with
   * exactly the lines of the items, and every other file as it was.
   */
  ghost predicate Saved<V>(before: map<string, seq<string>>, after: map<string, seq<string>>, filename: string, cache: map<string, V>, fmt: Format<V>) {
    && after.Keys == before.Keys + {filename}
    && (forall f :: f in before && f != filename ==> after[f] == before[f])
    && SortedBy(after[filename], LineKey, false)
    && Lists(after[filename], cache, fmt)
  }

  /**
   * `lines` holds one line per item of `cache` and nothing else; the lines
   * are distinct when the items are storable.
   */
  ghost predicate Lists<V>(lines: seq<string>, cache: map<string, V>, fmt: Format<V>) {
    && |lines| == |cache|
    && (forall i :: 0 <= i < |lines| ==> lines[i] in LinesOf(cache, fmt))
    && (forall k :: k in cache ==> LineOf(k, cache[k], fmt) in lines)
    && (AllStorable(cache, fmt) ==> NoDup(lines))
  }

  /** Sorting the lines keeps them a listing of the cache. */
  lemma SortKeepsLists<V>(lines: seq<string>, cache: map<string, V>, fmt: Format<V>)
    requires Lists(lines, cache, fmt)
    ensures Lists(SortBy(lines, LineKey, false), cache, fmt)
  {
    var sorted := SortBy(lines, LineKey, false);
    forall i | 0 <= i < |sorted| ensures sorted[i] in LinesOf(cache, fmt) {
      assert sorted[i] in multiset(lines);
    }
    forall k | k in cache ensures LineOf(k, cache[k], fmt) in sorted {
      assert LineOf(k, cache[k], fmt) in multiset(sorted);
    }
  }

  /** A saved cache of storable items is read back unchanged by a fresh cache object. */
  lemma SavedReloads<V>(before: map<string, seq<string>>, after: map<string, seq<string>>, filename: string, cache: map<string, V>, fmt: Format<V>)
    requires Saved(before, after, filename, cache, fmt)
    requires AllStorable(cache, fmt)
    ensures LoadFile(after, filename, fmt) == Ok(cache)
  {
    LoadEncoded(after[filename], cache, fmt);
  }

  /** The `cache` property's value: the memoised map, or the file read now. */
  function Loaded<V>(memo: Option<map<string, V>>, files: map<string, seq<string>>, filename: string, fmt: Format<V>): Result<map<string, V>> {
    if memo.Some? then Ok(memo.value) else LoadFile(files, filename, fmt)
  }

  /** A freshly computed value as stored: passed through `objtype` when there is one. */
  function Converted<V>(computed: Result<V>, fmt: Format<V>): Result<V> {
    match computed
    case Err(m) => Err(m)
    case Ok(v) => if fmt.objtype.Some? then fmt.objtype.value.fromValue(v) else Ok(v)
  }

  /**
   * One call of a `cached` property, as the value returned, whether the
   * wrapped function ran, and the memoised map afterwards.
   */
  function Lookup<V>(memo: Option<map<string, V>>, files: map<string, seq<string>>, filename: string, fmt: Format<V>, key: string, f: () -> Result<V>): (r: (Result<V>, bool, Option<map<string, V>>))
    ensures r.1 <==> Loaded(memo, files, filename, fmt).Ok? && key !in Loaded(memo, files, filename, fmt).value
    ensures r.0.Ok? ==> r.2.Some? && key in r.2.value && r.2.value[key] == r.0.value
    ensures r.2.Some? ==> Loaded(memo, files, filename, fmt).Ok? && Loaded(memo, files, filename, fmt).value.Keys <= r.2.value.Keys
    ensures r.1 ==> r.0 == Converted(f(), fmt)
    ensures Loaded(memo, files, filename, fmt).Err? ==> r.2 == memo && r.0.Err?
    ensures Loaded(memo, files, filename, fmt).Ok? && key in Loaded(memo, files, filename, fmt).value ==>
      r == (Ok(Loaded(memo, files, filename, fmt).value[key]), false, Some(Loaded(memo, files, filename, fmt).value))
    ensures r.1 ==> r.2 == Some(if Converted(f(), fmt).Ok?
                                then Loaded(memo, files, filename, fmt).value[key := Converted(f(), fmt).value]
                                else Loaded(memo, files, filename, fmt).value)
  {
    match Loaded(memo, files, filename, fmt)
    case Err(m) => (Err(m), false, memo)
    case Ok(cache) =>
      if key in cache then (Ok(cache[key]), false, Some(cache))
      else
        match Converted(f(), fmt)
        case Err(m) => (Err(m), true, Some(cache))
        case Ok(v) => (Ok(v), true, Some(cache[key := v]))
  }

  /** A value once stored is returned by every later call without running the function again. */
  lemma LookupMemoised<V>(memo: Option<map<string, V>>, files: map<string, seq<string>>, filename: string, fmt: Format<V>, key: string, f: () -> Result<V>, g: () -> Result<V>, files2: map<string, seq<string>>)
    requires Lookup(memo, files, filename, fmt, key, f).0.Ok?
    ensures var (r, _, memo2) := Lookup(memo, files, filename, fmt, key, f);
      Lookup(memo2, files2, filename, fmt, key, g) == (r, false, memo2)
  {
  }

  /** What `save` raises as written: a Python 3 `dict` has no `iteritems`. */
  const IterItemsError := "AttributeError: 'dict' object has no attribute 'iteritems'"

  /**
   * One call of a `cached` property as `caching.py` is written: on a miss
   * the value is stored in the memoised map before `save` is called, and
   * `save` raises on `self.cache.iteritems()`, so the call fails, the file
   * is not written, and the value stays in memory.
   */
  function LookupAsWritten<V>(memo: Option<map<string, V>>, files: map<string, seq<string>>, filename: string, fmt: Format<V>, key: string, f: () -> Result<V>): (r: (Result<V>, bool, Option<map<string, V>>))
    ensures r.0.Ok? <==> Loaded(memo, files, filename, fmt).Ok? && key in Loaded(memo, files, filename, fmt).value
    ensures r.1 <==> Loaded(memo, files, filename, fmt).Ok? && key !in Loaded(memo, files, filename, fmt).value
    ensures r.0.Ok? ==> r.0.value == Loaded(memo, files, filename, fmt).value[key]
    ensures r.1 && Converted(f(), fmt).Ok? ==>
      r.0 == Err(IterItemsError) && r.2 == Some(Loaded(memo, files, filename, fmt).value[key := Converted(f(), fmt).value])
  {
    var (v, called, memo2) := Lookup(memo, files, filename, fmt, key, f);
    if called && v.Ok? then (Err(IterItemsError), called, memo2) else (v, called, memo2)
  }

  /**
   * As written, a miss fails and leaves the file as it was, yet the next
   * call for the same key returns the value the failed call computed.
   */
  lemma MissFailsThenHits<V>(memo: Option<map<string, V>>, files: map<string, seq<string>>, filename: string, fmt: Format<V>, key: string, f: () -> Result<V>, g: () -> Result<V>)
    requires Loaded(memo, files, filename, fmt).Ok? && key !in Loaded(memo, files, filename, fmt).value
    requires Converted(f(), fmt).Ok?
    ensures var (r, called, memo2) := LookupAsWritten(memo, files, filename, fmt, key, f);
      && r == Err(IterItemsError) && called
      && LookupAsWritten(memo2, files, filename, fmt, key, g) == (Ok(Converted(f(), fmt).value), false, memo2)
  {
    var (r, called, memo2) := LookupAsWritten(memo, files, filename, fmt, key, f);
    assert memo2 == Some(Loaded(memo, files, filename, fmt).value[key := Converted(f(), fmt).value]);
  }

  /** An empty cache file and a plain cache: the first call for a key fails as written, where the intended call returns the value. */
  lemma FirstMissAsWritten()
    ensures var fmt := Format(false, None, (s: string) => s, (s: string) => s);
      && LookupAsWritten(None, map["cache" := []], "cache", fmt, "k", () => Ok("v")).0 == Err(IterItemsError)
      && Lookup(None, map["cache" := []], "cache", fmt, "k", () => Ok("v")).0 == Ok("v")
  {
  }

  class BlogCache<V> {
    const cachename: string
    /** The cache file: `cachename` inside the configured cache directory. */
    const filename: string
    const fmt: Format<V>
    const disk: Disk
    /** The memoised `cache` property: `None` until it has been read. */
    var cache: Option<map<string, V>>

    constructor (cachename: string, cacheDir: string, fmt: Format<V>, disk: Disk)
      ensures this.cachename == cachename && filename == PathJoin(cacheDir, cachename)
      ensures this.fmt == fmt && this.disk == disk && cache == None
    {
      this.cachename := cachename;
      filename := PathJoin(cacheDir, cachename);
      this.fmt := fmt;
      this.disk := disk;
      cache := None;
    }

    /** The `cache` property: read the file on first use, keep the map afterwards. */
    method Cache() returns (r: Result<map<string, V>>)
      modifies this
      ensures r == Loaded(old(cache), disk.files, filename, fmt)
      ensures cache == if r.Ok? then Some(r.value) else old(cache)
    {
      if cache.Some? {
        return Ok(cache.value);
      }
      r := LoadFile(disk.files, filename, fmt);
      if r.Ok? {
        cache := Some(r.value);
      }
    }

    /** `save`: rewrite the file with one line per item, sorted. */
    method Save()
      requires cache.Some?
      modifies disk
      ensures Saved(old(disk.files), disk.files, filename, cache.value, fmt)
    {
      var lines := Collect(cache.value, fmt);
      var sorted := SortBy(lines, LineKey, false);
      SortBySorted(lines, LineKey, false);
      SortKeepsLists(lines, cache.value, fmt);
      disk.files := disk.files[filename := sorted];
    }

    /** The unsorted lines `save` formats, one per item, in the map's iteration order. */
    static method Collect(items: map<string, V>, fmt: Format<V>) returns (lines: seq<string>)
      ensures Lists(lines, items, fmt)
    {
      var todo := items.Keys;
      lines := [];
      ghost var keys: seq<string> := [];
      while todo != {}
        invariant todo <= items.Keys
        invariant |keys| == |lines| && |lines| + |todo| == |items|
        invariant forall i :: 0 <= i < |lines| ==> keys[i] in items && keys[i] !in todo && lines[i] == LineOf(keys[i], items[keys[i]], fmt)
        invariant forall i :: 0 <= i < |lines| ==> lines[i] in LinesOf(items, fmt)
        invariant forall k :: k in items && k !in todo ==> LineOf(k, items[k], fmt) in lines
        invariant AllStorable(items, fmt) ==> NoDup(lines)
        decreases |todo|
      {
        var k :| k in todo;
        var line := LineOf(k, items[k], fmt);
        if AllStorable(items, fmt) {
          forall i | 0 <= i < |lines| ensures lines[i] != line {
            if lines[i] == line {
              LineOfInjective(keys[i], items[keys[i]], k, items[k], fmt);
            }
          }
          NoDupAppend(lines, line);
        }
        assert line in LinesOf(items, fmt);
        lines := lines + [line];
        keys := keys + [k];
        todo := todo - {k};
      }
    }

    /**
     * A call of the property `cached` wraps: the stored value for `key` if
     * there is one; otherwise `f` is run, its value stored and the file
     * saved. The caller's exception from `f` or from `objtype` propagates
     * and nothing is stored.
     */
    method Get(key: string, f: () -> Result<V>) returns (r: Result<V>, called: bool)
      modifies this, disk
      ensures (r, called, cache) == Lookup(old(cache), old(disk.files), filename, fmt, key, f)
      ensures called && r.Ok? ==> Saved(old(disk.files), disk.files, filename, cache.value, fmt)
      ensures !(called && r.Ok?) ==> disk.files == old(disk.files)
    {
      var loaded := Cache();
      if loaded.Err? {
        return Err(loaded.msg), false;
      }
      var items := loaded.value;
      if key in items {
        return Ok(items[key]), false;
      }
      called := true;
      r := Converted(f(), fmt);
      if r.Ok? {
        cache := Some(items[key := r.value]);
        Save();
      }
    }
  }

  /** `config.get('cache_dir', entries_dir)`. */
  function CacheDir(config: map<string, string>, entriesDir: string): (d: string)
    ensures "cache_dir" in config ==> d == config["cache_dir"]
    ensures "cache_dir" !in config ==> d == entriesDir
  {
    if "cache_dir" in config then config["cache_dir"] else entriesDir
  }

  /** `cache_map`: one cache object per cache name, created on first use. */
  class CacheMap<V> {
    var caches: map<string, BlogCache<V>>
    const disk: Disk

    predicate Valid()
      reads this
    {
      forall n :: n in caches ==> caches[n].cachename == n && caches[n].disk == disk
    }

    constructor (disk: Disk)
      ensures caches == map[] && this.disk == disk && Valid()
    {
      caches := map[];
      this.disk := disk;
    }

    /**
     * The wrapper `cached(cachename, reverse, objtype)` puts around a
     * property: the cache named `cachename` is created with these settings
     * on first use and reused, with the settings it was created with,
     * afterwards.
     */
    method Cached(cachename: string, fmt: Format<V>, cacheDir: string, key: string, f: () -> Result<V>) returns (r: Result<V>, called: bool)
      requires Valid()
      modifies this, caches.Values, disk
      ensures Valid()
      ensures caches.Keys == old(caches).Keys + {cachename}
      ensures forall n :: n in old(caches) ==> caches[n] == old(caches)[n]
      ensures cachename !in old(caches) ==> fresh(caches[cachename]) && caches[cachename].fmt == fmt && caches[cachename].filename == PathJoin(cacheDir, cachename)
      ensures var c := caches[cachename];
        (r, called, c.cache) == Lookup(if cachename in old(caches) then old(c.cache) else None, old(disk.files), c.filename, c.fmt, key, f)
      ensures var c := caches[cachename];
        called && r.Ok? ==> Saved(old(disk.files), disk.files, c.filename, c.cache.value, c.fmt)
      ensures !(called && r.Ok?) ==> disk.files == old(disk.files)
      ensures forall n :: n in old(caches) && n != cachename ==> caches[n].cache == old(caches[n].cache)
    {
      var c: BlogCache<V>;
      if cachename in caches {
        c := caches[cachename];
      } else {
        c := new BlogCache(cachename, cacheDir, fmt, disk);
        caches := caches[cachename := c];
      }
      r, called := c.Get(key, f);
    }
  }
}
