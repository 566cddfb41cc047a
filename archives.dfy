/**
 * Archives (`simpleblog/extensions/archives.py`): the entries bucketed by
 * the year, month or day of their time stamps, one archive page per bucket.
 */
module Archives {
  import opened Wrappers
  import opened Text
  import opened Order
  import opened Core
  import opened Named
  import opened Timestamps

  /** The configuration variables of an archive. */
  datatype ArchiveConfig = ArchiveConfig(
    prefix: string,
    useMonthnames: bool,
    longMonthnames: bool,
    yearTemplate: string,
    monthTemplate: string,
    dayTemplate: string)

  function DefaultConfig(): (c: ArchiveConfig)
    ensures c.prefix == "" && !c.useMonthnames && !c.longMonthnames
    ensures c.yearTemplate == "{year}" && c.monthTemplate == "{year}-{monthkey}" && c.dayTemplate == "{year}-{monthkey}-{daykey}"
  {
    ArchiveConfig("", false, false, "{year}", "{year}-{monthkey}", "{year}-{monthkey}-{daykey}")
  }

  /** The localized month names, short and long. */
  datatype MonthNames = MonthNames(short: int -> string, long: int -> string)

  /** `'{:02d}'.format(n)`: two digits at least, zero padded, and a minus sign before a negative number. */
  function Fmt02Int(n: int): (s: string)
    ensures 0 <= n < 100 ==> |s| == 2
  {
    if n < 0 then "-" + NatStr(-n) else Fmt02(n)
  }

  /** A non-negative number comes back from its two-digit form. */
  lemma Fmt02IntRoundTrip(n: int)
    requires n >= 0
    ensures ParseNat(Fmt02Int(n)) == Some(n)
  {
    Fmt02RoundTrip(n);
  }

  /** An archive: a year, a month of a year or a day of a month, with what its pages are named by. */
  datatype Archive = Archive(
    year: int, month: int, day: int,
    monthname: string, monthnameLong: string,
    monthkey: string, daykey: string,
    sortkey: seq<int>, urlshort: string, defaultTitle: string)

  /** The month as it appears in URLs and titles: two digits, or the (long) month name when configured. */
  function MonthKey(cfg: ArchiveConfig, names: MonthNames, month: int): (k: string)
    ensures month == 0 ==> k == ""
    ensures month != 0 && !cfg.useMonthnames ==> k == Fmt02Int(month)
    ensures month != 0 && cfg.useMonthnames ==> k == if cfg.longMonthnames then names.long(month) else names.short(month)
  {
    if month == 0 then ""
    else if !cfg.useMonthnames then Fmt02Int(month)
    else if !cfg.longMonthnames then names.short(month)
    else names.long(month)
  }

  /** The short URL before the prefix: the year, then the month key and the day key as far as the archive goes. */
  function BareUrlshort(year: int, monthkey: string, daykey: string, month: int, day: int): string {
    if month != 0 then
      if day != 0 then "/" + IntStr(year) + "/" + monthkey + "/" + daykey + "/"
      else "/" + IntStr(year) + "/" + monthkey + "/"
    else "/" + IntStr(year) + "/"
  }

  /**
   * `BlogArchiveEntries.__init__`: a month of zero makes a year archive (a
   * day is then ignored), a day of zero a month archive; the sort key, the
   * short URL and the default title follow; a prefix goes in front of the
   * short URL.
   */
  function NewArchive(cfg: ArchiveConfig, names: MonthNames, year: int, month: int, day: int): (a: Archive)
    ensures a.year == year && a.month == month && a.day == day
    ensures a.sortkey == if month == 0 then [year] else if day == 0 then [year, month] else [year, month, day]
    ensures a.defaultTitle == if month == 0 then cfg.yearTemplate else if day == 0 then cfg.monthTemplate else cfg.dayTemplate
    ensures a.monthkey == MonthKey(cfg, names, month) && a.daykey == Fmt02Int(day)
    ensures a.urlshort == (if cfg.prefix != "" then "/" + cfg.prefix else "") + BareUrlshort(year, a.monthkey, a.daykey, month, day)
  {
    var monthkey := MonthKey(cfg, names, month);
    var daykey := Fmt02Int(day);
    var mname := if month != 0 then names.short(month) else "";
    var mnameLong := if month != 0 then names.long(month) else "";
    var (sortkey, urlshort, title) :=
      if month != 0 then
        if day != 0 then ([year, month, day], "/" + IntStr(year) + "/" + monthkey + "/" + daykey + "/", cfg.dayTemplate)
        else ([year, month], "/" + IntStr(year) + "/" + monthkey + "/", cfg.monthTemplate)
      else ([year], "/" + IntStr(year) + "/", cfg.yearTemplate);
    Archive(year, month, day, mname, mnameLong, monthkey, daykey, sortkey,
            if cfg.prefix != "" then "/" + cfg.prefix + urlshort else urlshort, title)
  }

  function SortKey(a: Archive): seq<int> {
    a.sortkey
  }

  // ---------------------------------------------------------------------
  // reading a short URL back

  predicate AllDigits(s: string) {
    forall i :: 0 <= i < |s| ==> IsDigit(s[i])
  }

  /** The numbers a list of digit strings stands for; `None` when one is not a number. */
  function ParseAll(parts: seq<string>): (r: Option<seq<int>>)
    ensures r.Some? ==> |r.value| == |parts|
  {
    if parts == [] then Some([])
    else
      match (ParseNat(parts[0]), ParseAll(parts[1..]))
      case (Some(n), Some(rest)) => Some([n as int] + rest)
      case _ => None
  }

  /** The date a bare short URL `/Y/`, `/Y/M/` or `/Y/M/D/` names, as a sort key. */
  function ParseUrlshort(u: string): Option<seq<int>> {
    if |u| >= 2 && u[0] == '/' && u[|u| - 1] == '/' then ParseAll(SplitOn(u[1..|u| - 1], '/')) else None
  }

  lemma DigitsNoSlash(s: string)
    requires AllDigits(s)
    ensures '/' !in s
  {
    forall i | 0 <= i < |s| ensures s[i] != '/' {
      assert IsDigit(s[i]);
    }
  }

  lemma {:induction false} ParseAllOf(parts: seq<string>, vals: seq<int>)
    requires |parts| == |vals|
    requires forall i :: 0 <= i < |parts| ==> ParseNat(parts[i]).Some? && ParseNat(parts[i]).value as int == vals[i]
    ensures ParseAll(parts) == Some(vals)
    decreases |parts|
  {
    if parts != [] {
      ParseAllOf(parts[1..], vals[1..]);
      assert vals == [vals[0]] + vals[1..];
    }
  }

  /** Numbers written between slashes are read back. */
  lemma ParseJoined(parts: seq<string>, vals: seq<int>)
    requires |parts| == |vals| >= 1
    requires forall i :: 0 <= i < |parts| ==> ParseNat(parts[i]).Some? && ParseNat(parts[i]).value as int == vals[i]
    ensures ParseUrlshort("/" + Join(parts, "/") + "/") == Some(vals)
  {
    var u := "/" + Join(parts, "/") + "/";
    assert u[1..|u| - 1] == Join(parts, "/");
    forall i | 0 <= i < |parts| ensures '/' !in parts[i] {
      DigitsNoSlash(parts[i]);
    }
    JoinSplitOn(parts, '/');
    ParseAllOf(parts, vals);
  }

  /** The pieces of a bare short URL, between its slashes. */
  function UrlParts(year: int, monthkey: string, daykey: string, month: int, day: int): seq<string> {
    if month == 0 then [IntStr(year)] else if day == 0 then [IntStr(year), monthkey] else [IntStr(year), monthkey, daykey]
  }

  lemma BareUrlshortParts(year: int, monthkey: string, daykey: string, month: int, day: int)
    ensures BareUrlshort(year, monthkey, daykey, month, day) == "/" + Join(UrlParts(year, monthkey, daykey, month, day), "/") + "/"
  {
    var y := IntStr(year);
    if month != 0 && day == 0 {
      assert [y, monthkey][1..] == [monthkey];
    } else if month != 0 {
      assert [y, monthkey, daykey][1..] == [monthkey, daykey] && [monthkey, daykey][1..] == [daykey];
      assert Join([monthkey, daykey], "/") == monthkey + "/" + daykey;
      assert Join([y, monthkey, daykey], "/") == y + "/" + (monthkey + "/" + daykey);
    }
  }

  /** The short URL of an archive without a prefix and with numeric month keys, read back, is its sort key. */
  lemma UrlshortRoundTrip(cfg: ArchiveConfig, names: MonthNames, year: nat, month: nat, day: nat)
    requires cfg.prefix == "" && !cfg.useMonthnames
    ensures ParseUrlshort(NewArchive(cfg, names, year, month, day).urlshort) == Some(NewArchive(cfg, names, year, month, day).sortkey)
  {
    var a := NewArchive(cfg, names, year, month, day);
    var parts := UrlParts(year, a.monthkey, a.daykey, month, day);
    BareUrlshortParts(year, a.monthkey, a.daykey, month, day);
    assert |parts| == |a.sortkey|;
    forall i | 0 <= i < |parts| ensures ParseNat(parts[i]).Some? && ParseNat(parts[i]).value as int == a.sortkey[i] {
      if i == 0 {
        NatStrRoundTrip(year);
      } else if i == 1 {
        Fmt02IntRoundTrip(month);
      } else {
        Fmt02IntRoundTrip(day);
      }
    }
    ParseJoined(parts, a.sortkey);
  }

  /** A prefix only goes in front: the rest of the short URL is the archive's own. */
  lemma PrefixedUrlshort(cfg: ArchiveConfig, names: MonthNames, year: int, month: int, day: int)
    requires cfg.prefix != ""
    ensures NewArchive(cfg, names, year, month, day).urlshort == "/" + cfg.prefix + NewArchive(cfg.(prefix := ""), names, year, month, day).urlshort
  {
  }

  /** Archives of different dates have different short URLs (numeric month keys, whatever the prefix). */
  lemma UrlshortsDistinct(cfg: ArchiveConfig, names: MonthNames, y1: nat, m1: nat, d1: nat, y2: nat, m2: nat, d2: nat)
    requires !cfg.useMonthnames
    requires NewArchive(cfg, names, y1, m1, d1).sortkey != NewArchive(cfg, names, y2, m2, d2).sortkey
    ensures NewArchive(cfg, names, y1, m1, d1).urlshort != NewArchive(cfg, names, y2, m2, d2).urlshort
  {
    var bare := cfg.(prefix := "");
    var a1, a2 := NewArchive(cfg, names, y1, m1, d1), NewArchive(cfg, names, y2, m2, d2);
    var b1, b2 := NewArchive(bare, names, y1, m1, d1), NewArchive(bare, names, y2, m2, d2);
    assert b1.urlshort != b2.urlshort by {
      assert a1.sortkey == b1.sortkey && a2.sortkey == b2.sortkey;
      UrlshortRoundTrip(bare, names, y1, m1, d1);
      UrlshortRoundTrip(bare, names, y2, m2, d2);
    }
    if cfg.prefix != "" {
      assert b1.urlshort == a1.urlshort[|cfg.prefix| + 1..] by {
        PrefixedUrlshort(cfg, names, y1, m1, d1);
      }
      assert b2.urlshort == a2.urlshort[|cfg.prefix| + 1..] by {
        PrefixedUrlshort(cfg, names, y2, m2, d2);
      }
    } else {
      assert bare == cfg;
    }
  }

  // ---------------------------------------------------------------------
  // the buckets

  datatype Granularity = Years | Months | Days

  function Depth(g: Granularity): nat {
    match g
    case Years => 1
    case Months => 2
    case Days => 3
  }

  /** The bucket key of a time stamp: `t.year`, `(t.year, t.month)` or `(t.year, t.month, t.day)`. */
  function KeyOf(t: Instant, g: Granularity): (k: seq<int>)
    ensures |k| == Depth(g) && k == Fields(t)[..Depth(g)]
    ensures k[0] == t.year && (|k| > 1 ==> k[1] == t.month) && (|k| > 2 ==> k[2] == t.day)
  {
    match g
    case Years => [t.year]
    case Months => [t.year, t.month]
    case Days => [t.year, t.month, t.day]
  }

  /** A `defaultdict(list)`: the lists by key, and the keys in the order they were first added. */
  datatype Buckets<E> = Buckets(lists: map<seq<int>, seq<E>>, order: seq<seq<int>>)

  /** A `defaultdict` lookup: a missing key gives the empty list. */
  function Lookup<E>(b: Buckets<E>, k: seq<int>): seq<E> {
    if k in b.lists then b.lists[k] else []
  }

  /** `buckets[k].append(e)`: the list of `k` gains `e` at its end, a new key goes last in the order, nothing else changes. */
  function AddTo<E>(b: Buckets<E>, k: seq<int>, e: E): (r: Buckets<E>)
    ensures r.lists.Keys == b.lists.Keys + {k}
    ensures r.lists[k] == Lookup(b, k) + [e]
    ensures forall k' :: k' in b.lists && k' != k ==> r.lists[k'] == b.lists[k']
    ensures r.order == if k in b.lists then b.order else b.order + [k]
  {
    if k in b.lists then Buckets(b.lists[k := b.lists[k] + [e]], b.order)
    else Buckets(b.lists[k := [e]], b.order + [k])
  }

  lemma LookupAddTo<E>(b: Buckets<E>, kk: seq<int>, e: E, k: seq<int>)
    ensures Lookup(AddTo(b, kk, e), k) == Lookup(b, k) + (if kk == k then [e] else [])
  {
  }

  /** Whether an entry goes in the bucket `k`. */
  function InBucket<E>(stampOf: E -> Instant, g: Granularity, k: seq<int>): E -> bool {
    (e: E) => KeyOf(stampOf(e), g) == k
  }

  /** Every entry appended to the bucket of its time stamp, in order. */
  function Bucketed<E>(es: seq<E>, stampOf: E -> Instant, g: Granularity): Buckets<E>
    decreases |es|
  {
    if es == [] then Buckets(map[], [])
    else
      var e := es[|es| - 1];
      AddTo(Bucketed(es[..|es| - 1], stampOf, g), KeyOf(stampOf(e), g), e)
  }

  /** The bucket keys of the entries, entry by entry. */
  function KeysOf<E>(es: seq<E>, stampOf: E -> Instant, g: Granularity): (ks: seq<seq<int>>)
    ensures |ks| == |es|
    ensures forall i :: 0 <= i < |es| ==> ks[i] == KeyOf(stampOf(es[i]), g)
  {
    seq(|es|, i requires 0 <= i < |es| => KeyOf(stampOf(es[i]), g))
  }

  lemma KeysOfSnoc<E>(es: seq<E>, stampOf: E -> Instant, g: Granularity)
    requires es != []
    ensures KeysOf(es, stampOf, g) == KeysOf(es[..|es| - 1], stampOf, g) + [KeyOf(stampOf(es[|es| - 1]), g)]
  {
  }

  /** The keys are listed once each, a bucket per key used, and the buckets are the keys of the entries. */
  lemma {:induction false} BucketedKeys<E>(es: seq<E>, stampOf: E -> Instant, g: Granularity)
    ensures forall k :: k in Bucketed(es, stampOf, g).lists <==> k in Bucketed(es, stampOf, g).order
    ensures Distinct(Bucketed(es, stampOf, g).order)
    ensures forall k :: k in Bucketed(es, stampOf, g).lists <==> k in KeysOf(es, stampOf, g)
    decreases |es|
  {
    if es != [] {
      var init := es[..|es| - 1];
      var e := es[|es| - 1];
      BucketedKeys(init, stampOf, g);
      KeysOfSnoc(es, stampOf, g);
    }
  }

  /** The entries of bucket `k`, gathered from the end. */
  function BucketOf<E>(es: seq<E>, stampOf: E -> Instant, g: Granularity, k: seq<int>): seq<E>
    decreases |es|
  {
    if es == [] then []
    else BucketOf(es[..|es| - 1], stampOf, g, k) + (if KeyOf(stampOf(es[|es| - 1]), g) == k then [es[|es| - 1]] else [])
  }

  lemma {:induction false} LookupBucketed<E>(es: seq<E>, stampOf: E -> Instant, g: Granularity, k: seq<int>)
    ensures Lookup(Bucketed(es, stampOf, g), k) == BucketOf(es, stampOf, g, k)
    decreases |es|
  {
    if es != [] {
      var init := es[..|es| - 1];
      LookupBucketed(init, stampOf, g, k);
      LookupAddTo(Bucketed(init, stampOf, g), KeyOf(stampOf(es[|es| - 1]), g), es[|es| - 1], k);
    }
  }

  lemma {:induction false} BucketOfFilter<E>(es: seq<E>, stampOf: E -> Instant, g: Granularity, k: seq<int>)
    ensures BucketOf(es, stampOf, g, k) == Filter(es, InBucket(stampOf, g, k))
    decreases |es|
  {
    if es != [] {
      var init := es[..|es| - 1];
      var e := es[|es| - 1];
      BucketOfFilter(init, stampOf, g, k);
      assert es == init + [e];
      FilterSnoc(init, e, InBucket(stampOf, g, k));
    }
  }

  /** Each bucket holds exactly the entries of its key, in blog order (a key never used has none). */
  lemma BucketedLists<E>(es: seq<E>, stampOf: E -> Instant, g: Granularity, k: seq<int>)
    ensures Lookup(Bucketed(es, stampOf, g), k) == Filter(es, InBucket(stampOf, g, k))
  {
    LookupBucketed(es, stampOf, g, k);
    BucketOfFilter(es, stampOf, g, k);
  }

  lemma FirstIndexSnoc<T>(s: seq<T>, x: T, y: T)
    ensures FirstIndex(s + [x], y) == if y in s then FirstIndex(s, y) else if y == x then |s| else |s| + 1
  {
    var t := s + [x];
    if y in s {
      var k :| 0 <= k < |s| && s[k] == y;
      var i := FirstIndex(s, y);
      assert i <= k;
      assert t[i] == y;
    } else {
      assert forall k :: 0 <= k < |s| ==> t[k] != y;
      if y == x {
        assert t[|s|] == y;
      }
    }
  }

  /** The distinct elements of `ks` in the order of their first occurrence. */
  function FirstUses(ks: seq<seq<int>>): (r: seq<seq<int>>)
    ensures forall x :: x in r <==> x in ks
    ensures Distinct(r)
    decreases |ks|
  {
    if ks == [] then []
    else
      var r0 := FirstUses(ks[..|ks| - 1]);
      var k := ks[|ks| - 1];
      assert forall x :: x in ks <==> x in ks[..|ks| - 1] || x == k by {
        assert ks == ks[..|ks| - 1] + [k];
      }
      if k in r0 then r0 else r0 + [k]
  }

  /** `FirstUses` lists the elements in the order they first occur. */
  lemma {:induction false} FirstUsesOrder(ks: seq<seq<int>>)
    ensures forall i, j :: 0 <= i < j < |FirstUses(ks)| ==> FirstIndex(ks, FirstUses(ks)[i]) < FirstIndex(ks, FirstUses(ks)[j])
    decreases |ks|
  {
    if ks != [] {
      var init := ks[..|ks| - 1];
      var r0 := FirstUses(init);
      FirstUsesOrder(init);
      var k := ks[|ks| - 1];
      OrderSnoc(r0, init, k);
      assert ks == init + [k];
      assert FirstUses(ks) == if k in init then r0 else r0 + [k];
    }
  }

  /** The keys of the buckets are listed in the order the entries first use them. */
  lemma {:induction false} BucketOrder<E>(es: seq<E>, stampOf: E -> Instant, g: Granularity)
    ensures Bucketed(es, stampOf, g).order == FirstUses(KeysOf(es, stampOf, g))
    decreases |es|
  {
    if es != [] {
      var init := es[..|es| - 1];
      BucketOrder(init, stampOf, g);
      BucketedKeys(init, stampOf, g);
      KeysOfSnoc(es, stampOf, g);
      var ks := KeysOf(es, stampOf, g);
      assert ks[..|ks| - 1] == KeysOf(init, stampOf, g);
    }
  }

  /** Appending a key to the keys seen keeps the first-use order, and a new key goes last. */
  lemma OrderSnoc(order0: seq<seq<int>>, ks0: seq<seq<int>>, k: seq<int>)
    requires forall x :: x in order0 <==> x in ks0
    requires forall i, j :: 0 <= i < j < |order0| ==> FirstIndex(ks0, order0[i]) < FirstIndex(ks0, order0[j])
    ensures k in ks0 ==> forall i, j :: 0 <= i < j < |order0| ==> FirstIndex(ks0 + [k], order0[i]) < FirstIndex(ks0 + [k], order0[j])
    ensures k !in ks0 ==> forall i, j :: 0 <= i < j < |order0 + [k]| ==> FirstIndex(ks0 + [k], (order0 + [k])[i]) < FirstIndex(ks0 + [k], (order0 + [k])[j])
  {
    var ks := ks0 + [k];
    forall x | x in order0 ensures FirstIndex(ks, x) == FirstIndex(ks0, x) < |ks0| {
      FirstIndexSnoc(ks0, k, x);
      FirstIndexInside(ks0, x);
    }
    if k !in ks0 {
      FirstIndexSnoc(ks0, k, k);
      var order := order0 + [k];
      forall i, j | 0 <= i < j < |order| ensures FirstIndex(ks, order[i]) < FirstIndex(ks, order[j]) {
        assert order[i] == order0[i] && order[i] in order0;
        if j < |order0| {
          assert order[j] == order0[j] && order[j] in order0;
        }
      }
    } else {
      forall i, j | 0 <= i < j < |order0| ensures FirstIndex(ks, order0[i]) < FirstIndex(ks, order0[j]) {
        assert order0[i] in order0 && order0[j] in order0;
      }
    }
  }

  lemma FirstIndexInside<T>(s: seq<T>, x: T)
    requires x in s
    ensures FirstIndex(s, x) < |s|
  {
    var k :| 0 <= k < |s| && s[k] == x;
    assert FirstIndex(s, x) <= k;
  }

  // ---------------------------------------------------------------------
  // the archives

  /** The archive of a bucket key. */
  function ArchiveOfKey(cfg: ArchiveConfig, names: MonthNames, k: seq<int>): Archive
    requires 1 <= |k| <= 3
  {
    NewArchive(cfg, names, k[0], if |k| > 1 then k[1] else 0, if |k| > 2 then k[2] else 0)
  }

  /** One archive per bucket, in the buckets' order. */
  function ArchivesOf<E>(cfg: ArchiveConfig, names: MonthNames, b: Buckets<E>): (r: seq<Archive>)
    requires forall k :: k in b.order ==> 1 <= |k| <= 3
    ensures |r| == |b.order|
    ensures forall i :: 0 <= i < |r| ==> r[i] == ArchiveOfKey(cfg, names, b.order[i])
  {
    seq(|b.order|, i requires 0 <= i < |b.order| => ArchiveOfKey(cfg, names, b.order[i]))
  }

  /** Which granularities have archives, and which are linked from the blog's `archive_links`. */
  datatype ArchivesFlags = ArchivesFlags(years: bool, months: bool, days: bool, linkYears: bool, linkMonths: bool, linkDays: bool)

  /** The buckets of a granularity: filled when its archives are enabled, empty otherwise. */
  function Gathered<E>(on: bool, es: seq<E>, stampOf: E -> Instant, g: Granularity): (b: Buckets<E>)
    ensures forall k :: k in b.order ==> |k| == Depth(g)
  {
    if on then
      BucketedKeys(es, stampOf, g);
      Bucketed(es, stampOf, g)
    else Buckets(map[], [])
  }

  /** One more entry: its time stamp's bucket gains it, when the granularity is enabled. */
  lemma GatheredSnoc<E>(on: bool, es: seq<E>, i: nat, stampOf: E -> Instant, g: Granularity)
    requires i < |es|
    ensures Gathered(on, es[..i + 1], stampOf, g) ==
      if on then AddTo(Gathered(on, es[..i], stampOf, g), KeyOf(stampOf(es[i]), g), es[i]) else Gathered(on, es[..i], stampOf, g)
  {
    assert es[..i + 1][..i] == es[..i];
  }

  /** The archives of the enabled granularities: years, then months, then days. */
  function Enabled<A>(flags: ArchivesFlags, ys: seq<A>, ms: seq<A>, ds: seq<A>): seq<A> {
    (if flags.years then ys else []) + (if flags.months then ms else []) + (if flags.days then ds else [])
  }

  /** The archives of the enabled granularities whose links are wanted. */
  function Linked<A>(flags: ArchivesFlags, ys: seq<A>, ms: seq<A>, ds: seq<A>): seq<A> {
    (if flags.years && flags.linkYears then ys else [])
    + (if flags.months && flags.linkMonths then ms else [])
    + (if flags.days && flags.linkDays then ds else [])
  }

  /** The archives of the enabled granularities, years first, with those whose links are wanted. */
  method CollectArchives<A>(flags: ArchivesFlags, ys: seq<A>, ms: seq<A>, ds: seq<A>)
    returns (allArchives: seq<A>, archiveLinks: seq<A>)
    ensures allArchives == Enabled(flags, ys, ms, ds)
    ensures archiveLinks == Linked(flags, ys, ms, ds)
  {
    allArchives := [];
    archiveLinks := [];
    if flags.years {
      allArchives := allArchives + ys;
      if flags.linkYears {
        archiveLinks := archiveLinks + ys;
      }
    }
    if flags.months {
      allArchives := allArchives + ms;
      if flags.linkMonths {
        archiveLinks := archiveLinks + ms;
      }
    }
    if flags.days {
      allArchives := allArchives + ds;
      if flags.linkDays {
        archiveLinks := archiveLinks + ds;
      }
    }
  }

  /** The loop of `blog_mod_sources` that appends each entry to the buckets of its time stamp. */
  method FillBuckets<E>(flags: ArchivesFlags, allEntries: seq<E>, stampOf: E -> Instant)
    returns (years: Buckets<E>, months: Buckets<E>, days: Buckets<E>)
    ensures years == Gathered(flags.years, allEntries, stampOf, Years)
    ensures months == Gathered(flags.months, allEntries, stampOf, Months)
    ensures days == Gathered(flags.days, allEntries, stampOf, Days)
  {
    years, months, days := Buckets(map[], []), Buckets(map[], []), Buckets(map[], []);
    for i := 0 to |allEntries|
      invariant years == Gathered(flags.years, allEntries[..i], stampOf, Years)
      invariant months == Gathered(flags.months, allEntries[..i], stampOf, Months)
      invariant days == Gathered(flags.days, allEntries[..i], stampOf, Days)
    {
      var entry := allEntries[i];
      var t := stampOf(entry);
      GatheredSnoc(flags.years, allEntries, i, stampOf, Years);
      GatheredSnoc(flags.months, allEntries, i, stampOf, Months);
      GatheredSnoc(flags.days, allEntries, i, stampOf, Days);
      if flags.years {
        years := AddTo(years, KeyOf(t, Years), entry);
      }
      if flags.months {
        months := AddTo(months, KeyOf(t, Months), entry);
      }
      if flags.days {
        days := AddTo(days, KeyOf(t, Days), entry);
      }
    }
    assert allEntries[..|allEntries|] == allEntries;
  }

  /**
   * `ArchivesExtension.blog_mod_sources`: every entry goes, in blog order,
   * into the bucket of its year, month and day as far as those archives
   * are enabled; one archive per bucket (years, then months, then days);
   * the links to the linked ones, newest first, as the blog's
   * `archive_links`; and the archives appended to the sources in the
   * `html` format.
   */
  method BlogModSources<E, S>(blog: Blog, cfg: ArchiveConfig, names: MonthNames, flags: ArchivesFlags,
                              allEntries: seq<E>, stampOf: E -> Instant, sources: seq<(S, string)>,
                              asSource: Archive -> S, link: Archive -> string, sep: string)
    returns (r: seq<(S, string)>, years: Buckets<E>, months: Buckets<E>, days: Buckets<E>, allArchives: seq<Archive>)
    modifies blog
    ensures years == Gathered(flags.years, allEntries, stampOf, Years)
    ensures months == Gathered(flags.months, allEntries, stampOf, Months)
    ensures days == Gathered(flags.days, allEntries, stampOf, Days)
    ensures allArchives == Enabled(flags, ArchivesOf(cfg, names, years), ArchivesOf(cfg, names, months), ArchivesOf(cfg, names, days))
    ensures blog.metadata == old(blog.metadata)["archive_links" :=
      GetLinks(Linked(flags, ArchivesOf(cfg, names, years), ArchivesOf(cfg, names, months), ArchivesOf(cfg, names, days)), SortKey, true, link, sep)]
    ensures r == sources + HtmlSources(allArchives, asSource)
  {
    years, months, days := FillBuckets(flags, allEntries, stampOf);
    var archiveLinks;
    allArchives, archiveLinks := CollectArchives(flags, ArchivesOf(cfg, names, years), ArchivesOf(cfg, names, months), ArchivesOf(cfg, names, days));
    blog.metadata := blog.metadata["archive_links" := GetLinks(archiveLinks, SortKey, true, link, sep)];
    r := sources + HtmlSources(allArchives, asSource);
  }

  // ---------------------------------------------------------------------
  // an archive's entries and its sibling archives

  /** `_get_entries`: the bucket of the archive's own granularity. */
  function ArchiveEntries<E>(a: Archive, years: Buckets<E>, months: Buckets<E>, days: Buckets<E>): seq<E> {
    if a.month != 0 then
      if a.day != 0 then Lookup(days, [a.year, a.month, a.day]) else Lookup(months, [a.year, a.month])
    else Lookup(years, [a.year])
  }

  /** The buckets of one granularity. */
  function Pick<E>(g: Granularity, years: Buckets<E>, months: Buckets<E>, days: Buckets<E>): Buckets<E> {
    match g
    case Years => years
    case Months => months
    case Days => days
  }

  /**
   * An archive made from the bucket key `k` of entries lists exactly the
   * entries whose time stamp falls in its year, month or day, in blog
   * order, and at least one; its sort key is `k`.
   */
  lemma ArchiveEntriesExact<E>(cfg: ArchiveConfig, names: MonthNames, es: seq<E>, stampOf: E -> Instant,
                               years: Buckets<E>, months: Buckets<E>, days: Buckets<E>, g: Granularity, k: seq<int>)
    requires Pick(g, years, months, days) == Bucketed(es, stampOf, g)
    requires k in Bucketed(es, stampOf, g).order
    ensures |k| == Depth(g) && ArchiveOfKey(cfg, names, k).sortkey == k
    ensures ArchiveEntries(ArchiveOfKey(cfg, names, k), years, months, days) == Filter(es, InBucket(stampOf, g, k))
    ensures Filter(es, InBucket(stampOf, g, k)) != []
  {
    var i := KeyWitness(es, stampOf, g, k);
    KeyArchive(cfg, names, stampOf(es[i]), g, years, months, days);
    BucketedLists(es, stampOf, g, k);
    assert InBucket(stampOf, g, k)(es[i]);
    assert es[i] in Filter(es, InBucket(stampOf, g, k));
  }

  /** A bucket key is the key of some entry. */
  lemma KeyWitness<E>(es: seq<E>, stampOf: E -> Instant, g: Granularity, k: seq<int>) returns (i: nat)
    requires k in Bucketed(es, stampOf, g).order
    ensures i < |es| && KeyOf(stampOf(es[i]), g) == k
  {
    BucketedKeys(es, stampOf, g);
    var ks := KeysOf(es, stampOf, g);
    var j :| 0 <= j < |ks| && ks[j] == k;
    i := j;
  }

  /**
   * The archive of an entry's bucket key has that key as its sort key and
   * reads its entries from that bucket of the right granularity.
   */
  lemma KeyArchive<E>(cfg: ArchiveConfig, names: MonthNames, t: Instant, g: Granularity,
                      years: Buckets<E>, months: Buckets<E>, days: Buckets<E>)
    ensures ArchiveOfKey(cfg, names, KeyOf(t, g)).sortkey == KeyOf(t, g)
    ensures ArchiveEntries(ArchiveOfKey(cfg, names, KeyOf(t, g)), years, months, days) == Lookup(Pick(g, years, months, days), KeyOf(t, g))
  {
  }

  /** Whether archive `x` is a sibling of archive `a`. */
  predicate Sibling(a: Archive, x: Archive) {
    if a.month != 0 then
      if a.day != 0 then x.year == a.year && x.month == a.month else x.year == a.year && x.day == 0
    else x.month == 0 && x.day == 0
  }

  /** `_get_sourcetype_sources`: the archives that are siblings of `a`, ordered by sort key. */
  function SiblingArchives(a: Archive, all: seq<Archive>): seq<Archive> {
    SortBy(Filter(all, (x: Archive) => Sibling(a, x)), SortKey, false)
  }

  /** The siblings are exactly the matching archives, in ascending sort key order. */
  lemma SiblingArchivesSpec(a: Archive, all: seq<Archive>)
    ensures var r := SiblingArchives(a, all);
      && (forall x :: x in r <==> x in all && Sibling(a, x))
      && SortedBy(r, SortKey, false)
  {
    var f := Filter(all, (x: Archive) => Sibling(a, x));
    var r := SiblingArchives(a, all);
    SortBySorted(f, SortKey, false);
    assert multiset(r) == multiset(f);
    forall x ensures x in r <==> x in f {
      assert x in r <==> x in multiset(r);
      assert x in f <==> x in multiset(f);
    }
  }

  /**
   * The year archive of a month's year is among the month's siblings, and
   * the month archive of a day's month among the day's; year archives are
   * each other's siblings, and a month is no sibling of a year.
   */
  lemma SiblingsIncludeParent(cfg: ArchiveConfig, names: MonthNames, y: int, m: int, d: int)
    requires m != 0 && d != 0
    ensures Sibling(NewArchive(cfg, names, y, m, 0), NewArchive(cfg, names, y, 0, 0))
    ensures Sibling(NewArchive(cfg, names, y, m, d), NewArchive(cfg, names, y, m, 0))
    ensures forall y' :: Sibling(NewArchive(cfg, names, y, 0, 0), NewArchive(cfg, names, y', 0, 0))
    ensures !Sibling(NewArchive(cfg, names, y, 0, 0), NewArchive(cfg, names, y, m, 0))
  {
  }
}
