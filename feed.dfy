/**
 * Feeds (`simpleblog/extensions/feed.py`): RSS and Atom time stamps, the
 * relative links of entry bodies made absolute, and the archived feeds of
 * RFC 5005 (one per year, month or day of the entries; the newest one is
 * the current feed, the others are archives linked to their neighbours).
 */
module Feed {
  import opened Wrappers
  import opened Text
  import opened Order
  import opened Core
  import Timestamps

  type Instant = Timestamps.Instant

  /** The localised names of weekdays and months (Monday is 0, January is 1). */
  datatype Names = Names(weekdayname: int -> string, monthname: int -> string, monthnameLong: int -> string)

  /** The configuration variables of the feed entries. */
  datatype FeedConfig = FeedConfig(useMonthnames: bool, longMonthnames: bool, feedDirs: bool)

  // ---------------------------------------------------------------------
  // argument strings and URLs of the archived feeds

  /** The text of argument `i`: the month's name in place of its number when so configured. */
  function ArgText(cfg: FeedConfig, names: Names, args: seq<int>, i: nat): string
    requires i < |args|
  {
    if i == 1 && cfg.useMonthnames then
      (if cfg.longMonthnames then names.monthnameLong(args[1]) else names.monthname(args[1]))
    else IntStr(args[i])
  }

  /** The arguments as text, each padded on the left with `0` to two characters. */
  function ArgParts(cfg: FeedConfig, names: Names, args: seq<int>): (r: seq<string>)
    ensures |r| == |args|
    ensures forall i :: 0 <= i < |args| ==> r[i] == Pad2(ArgText(cfg, names, args, i))
  {
    seq(|args|, i requires 0 <= i < |args| => Pad2(ArgText(cfg, names, args, i)))
  }

  /** `argstr(sep, *args)`: the padded arguments joined by `sep`. */
  function Argstr(cfg: FeedConfig, names: Names, sep: string, args: seq<int>): string {
    Join(ArgParts(cfg, names, args), sep)
  }

  /**
   * Without month names, an argument string splits on its (non-digit)
   * separator into one piece per argument, each reading back as the number.
   */
  lemma ArgstrRoundTrip(cfg: FeedConfig, names: Names, c: char, args: seq<int>)
    requires !cfg.useMonthnames && !IsDigit(c)
    requires |args| >= 1 && forall i :: 0 <= i < |args| ==> args[i] >= 0
    ensures |SplitOn(Argstr(cfg, names, [c], args), c)| == |args|
    ensures forall i :: 0 <= i < |args| ==> ParseNat(SplitOn(Argstr(cfg, names, [c], args), c)[i]) == Some(args[i] as nat)
  {
    var parts := ArgParts(cfg, names, args);
    forall i | 0 <= i < |args|
      ensures parts[i] == Fmt02(args[i] as nat) && c !in parts[i]
    {
      var n := args[i] as nat;
      assert IntStr(args[i]) == NatStr(n);
      assert forall j :: 0 <= j < |Fmt02(n)| ==> Fmt02(n)[j] != c;
    }
    JoinSplitOn(parts, c);
    forall i | 0 <= i < |args| ensures ParseNat(parts[i]) == Some(args[i] as nat) {
      Fmt02RoundTrip(args[i] as nat);
    }
  }

  /** `args_urlshort`: `/Y/M/D/` with directories, `/Y-M-D` without. */
  function ArgsUrlshort(cfg: FeedConfig, names: Names, args: seq<int>): (r: string)
    ensures cfg.feedDirs ==> r == "/" + Argstr(cfg, names, "/", args) + "/"
    ensures !cfg.feedDirs ==> r == "/" + Argstr(cfg, names, "-", args)
  {
    if cfg.feedDirs then "/" + Argstr(cfg, names, "/", args) + "/"
    else "/" + Argstr(cfg, names, "-", args)
  }

  /** The URL path an archived feed is written to, without the format. */
  function ArchiveUrlpath(cfg: FeedConfig, names: Names, args: seq<int>): string {
    if cfg.feedDirs then ArgsUrlshort(cfg, names, args) + "index" else ArgsUrlshort(cfg, names, args)
  }

  /** The current feed is the blog's main index, at `/index`. */
  const CurrentUrlshort := "/"

  function CurrentUrlpath(): string {
    CurrentUrlshort + "index"
  }

  // ---------------------------------------------------------------------
  // which entries a feed holds

  /** The year, month and day of a time stamp. */
  function Ymd(t: Instant): seq<int> {
    [t.year, t.month, t.day]
  }

  /** `entry_match`: the time stamp's (year, month, day), cut to the length of `args`, is `args`. */
  predicate EntryMatch(t: Instant, args: seq<int>)
    ensures EntryMatch(t, args) <==> |args| <= 3 && forall i :: 0 <= i < |args| ==> Ymd(t)[i] == args[i]
  {
    var k := if |args| <= 3 then |args| else 3;
    Ymd(t)[..k] == args
  }

  /** `_get_entries`: the blog's entries that match, in the blog's order. */
  function FeedEntriesOf<E>(allEntries: seq<E>, stamp: E -> Instant, args: seq<int>): (r: seq<E>)
    ensures forall i :: 0 <= i < |r| ==> EntryMatch(stamp(r[i]), args)
    ensures forall i :: 0 <= i < |allEntries| && EntryMatch(stamp(allEntries[i]), args) ==> allEntries[i] in r
  {
    Filter(allEntries, (e: E) => EntryMatch(stamp(e), args))
  }

  // ---------------------------------------------------------------------
  // archive_feed_args

  /** The number of date fields the `archive_feeds` level keeps; any other value is a ValueError. */
  function ArchiveLevel(level: string): (r: Result<nat>)
    ensures r.Ok? <==> level in {"year", "month", "day"}
    ensures r.Ok? ==> 1 <= r.value <= 3
  {
    if level == "year" then Ok(1)
    else if level == "month" then Ok(2)
    else if level == "day" then Ok(3)
    else Err("ValueError")
  }

  /** The key of a time stamp at a level: its first `n` fields. */
  function KeyAt(t: Instant, n: nat): seq<int>
    requires n <= 3
  {
    Timestamps.Fields(t)[..n]
  }

  /** `[k for k, _ in groupby(s, key)]`: the key of each run of equal keys. */
  function GroupKeys<T>(s: seq<T>, key: T -> seq<int>): (r: seq<seq<int>>)
    ensures s == [] <==> r == []
    ensures s != [] ==> r[0] == key(s[0])
    ensures forall k :: k in r ==> exists i :: 0 <= i < |s| && key(s[i]) == k
    ensures forall i :: 0 <= i < |s| ==> key(s[i]) in r
    ensures forall g :: 0 < g < |r| ==> r[g] != r[g - 1]
    decreases |s|
  {
    if s == [] then []
    else
      var rest := GroupKeys(s[1..], key);
      if rest != [] && rest[0] == key(s[0]) then
        forall k | k in rest ensures exists i :: 0 <= i < |s| && key(s[i]) == k {
          var j :| 0 <= j < |s[1..]| && key(s[1..][j]) == k;
          assert key(s[j + 1]) == k;
        }
        forall i | 0 <= i < |s| ensures key(s[i]) in rest {
          if i > 0 { assert s[i] == s[1..][i - 1]; }
        }
        rest
      else
        var r := [key(s[0])] + rest;
        forall k | k in r ensures exists i :: 0 <= i < |s| && key(s[i]) == k {
          if k != key(s[0]) {
            var j :| 0 <= j < |s[1..]| && key(s[1..][j]) == k;
            assert key(s[j + 1]) == k;
          }
        }
        forall i | 0 <= i < |s| ensures key(s[i]) in r {
          if i > 0 { assert s[i] == s[1..][i - 1]; }
        }
        forall g | 0 < g < |r| ensures r[g] != r[g - 1] {
          if g > 1 { assert r[g] == rest[g - 1] && r[g - 1] == rest[g - 2]; }
        }
        r
  }

  /** The keys come in strictly increasing order. */
  predicate StrictlyAscending(keys: seq<seq<int>>) {
    forall i, j :: 0 <= i < j < |keys| ==> LexLt(keys[i], keys[j])
  }

  /** A list whose keys never decrease groups into strictly increasing keys. */
  lemma {:induction false} GroupKeysAscending<T>(s: seq<T>, key: T -> seq<int>)
    requires forall i, j :: 0 <= i < j < |s| ==> !LexLt(key(s[j]), key(s[i]))
    ensures StrictlyAscending(GroupKeys(s, key))
    decreases |s|
  {
    if s != [] {
      var tail := s[1..];
      forall i, j | 0 <= i < j < |tail| ensures !LexLt(key(tail[j]), key(tail[i])) {
        assert tail[i] == s[i + 1] && tail[j] == s[j + 1];
      }
      GroupKeysAscending(tail, key);
      var rest := GroupKeys(tail, key);
      if !(rest != [] && rest[0] == key(s[0])) && rest != [] {
        var m :| 0 <= m < |tail| && key(tail[m]) == rest[0];
        assert key(s[m + 1]) == rest[0];
        assert !LexLt(rest[0], key(s[0]));
        LexTotal(key(s[0]), rest[0]);
        AscendingCons(key(s[0]), rest);
      }
    }
  }

  /** A key below the first of strictly increasing keys can go in front of them. */
  lemma AscendingCons(x: seq<int>, rest: seq<seq<int>>)
    requires StrictlyAscending(rest) && rest != [] && LexLt(x, rest[0])
    ensures StrictlyAscending([x] + rest)
  {
    var r := [x] + rest;
    forall i, j | 0 <= i < j < |r| ensures LexLt(r[i], r[j]) {
      if i == 0 {
        if j > 1 {
          LexTransitive(x, rest[0], rest[j - 1]);
        }
      } else {
        assert r[i] == rest[i - 1] && r[j] == rest[j - 1];
      }
    }
  }

  /** A strict order between prefixes of the same length holds between the whole tuples. */
  lemma {:induction false} LexPrefix(x: seq<int>, y: seq<int>, n: nat)
    requires n <= |x| && n <= |y|
    requires LexLt(x[..n], y[..n])
    ensures LexLt(x, y)
    decreases n
  {
    assert x[..n] != [] && y[..n] != [];
    if x[0] == y[0] {
      assert x[..n][1..] == x[1..][..n - 1] && y[..n][1..] == y[1..][..n - 1];
      LexPrefix(x[1..], y[1..], n - 1);
    }
  }

  /**
   * `archive_feed_args`: the time stamps sorted, then grouped by their
   * first `n` fields (year; year and month; or year, month and day).
   */
  function ArchiveFeedArgs(stamps: seq<Instant>, n: nat): seq<seq<int>>
    requires n <= 3
  {
    GroupKeys(SortBy(stamps, (t: Instant) => Timestamps.Fields(t), false), (t: Instant) => KeyAt(t, n))
  }

  /**
   * The archive keys are strictly ascending (so each occurs once), every
   * entry's key is among them, and each of them is some entry's key.
   */
  lemma ArchiveFeedArgsSpec(stamps: seq<Instant>, n: nat)
    requires n <= 3
    ensures StrictlyAscending(ArchiveFeedArgs(stamps, n))
    ensures forall i :: 0 <= i < |stamps| ==> KeyAt(stamps[i], n) in ArchiveFeedArgs(stamps, n)
    ensures forall k :: k in ArchiveFeedArgs(stamps, n) ==> exists i :: 0 <= i < |stamps| && KeyAt(stamps[i], n) == k
    ensures |ArchiveFeedArgs(stamps, n)| <= |stamps|
    ensures forall k :: k in ArchiveFeedArgs(stamps, n) ==> |k| == n
  {
    ArchiveFeedArgsAscending(stamps, n);
    ArchiveFeedArgsCover(stamps, n);
    KeysFewer(SortBy(stamps, (t: Instant) => Timestamps.Fields(t), false), (t: Instant) => KeyAt(t, n));
  }

  /** Sorting by all fields sorts by the first `n`, so the grouped keys ascend. */
  lemma ArchiveFeedArgsAscending(stamps: seq<Instant>, n: nat)
    requires n <= 3
    ensures StrictlyAscending(ArchiveFeedArgs(stamps, n))
  {
    var fields := (t: Instant) => Timestamps.Fields(t);
    var key := (t: Instant) => KeyAt(t, n);
    var sorted := SortBy(stamps, fields, false);
    SortBySorted(stamps, fields, false);
    forall i, j | 0 <= i < j < |sorted| ensures !LexLt(key(sorted[j]), key(sorted[i])) {
      if LexLt(key(sorted[j]), key(sorted[i])) {
        LexPrefix(fields(sorted[j]), fields(sorted[i]), n);
      }
    }
    GroupKeysAscending(sorted, key);
  }

  /** Sorting keeps the time stamps, so the keys are exactly those of the stamps. */
  lemma ArchiveFeedArgsCover(stamps: seq<Instant>, n: nat)
    requires n <= 3
    ensures forall i :: 0 <= i < |stamps| ==> KeyAt(stamps[i], n) in ArchiveFeedArgs(stamps, n)
    ensures forall k :: k in ArchiveFeedArgs(stamps, n) ==> exists i :: 0 <= i < |stamps| && KeyAt(stamps[i], n) == k
  {
    var fields := (t: Instant) => Timestamps.Fields(t);
    var key := (t: Instant) => KeyAt(t, n);
    var sorted := SortBy(stamps, fields, false);
    SortBySorted(stamps, fields, false);
    forall i | 0 <= i < |stamps| ensures key(stamps[i]) in ArchiveFeedArgs(stamps, n) {
      assert stamps[i] in multiset(sorted);
      var j :| 0 <= j < |sorted| && sorted[j] == stamps[i];
    }
    forall k | k in ArchiveFeedArgs(stamps, n) ensures exists i :: 0 <= i < |stamps| && key(stamps[i]) == k {
      var j :| 0 <= j < |sorted| && key(sorted[j]) == k;
      assert sorted[j] in multiset(stamps);
      var i :| 0 <= i < |stamps| && stamps[i] == sorted[j];
    }
  }

  lemma {:induction false} KeysFewer<T>(s: seq<T>, key: T -> seq<int>)
    ensures |GroupKeys(s, key)| <= |s|
    decreases |s|
  {
    if s != [] { KeysFewer(s[1..], key); }
  }

  lemma AscendingDistinct(keys: seq<seq<int>>, i: nat, j: nat)
    requires StrictlyAscending(keys) && i < |keys| && j < |keys| && i != j
    ensures keys[i] != keys[j]
  {
    if i < j {
      if keys[i] == keys[j] { LexIrreflexive(keys[i]); }
    } else {
      if keys[i] == keys[j] { LexIrreflexive(keys[j]); }
    }
  }

  // ---------------------------------------------------------------------
  // BlogCurrentFeedEntries / BlogArchiveFeedEntries

  datatype FeedEntries = FeedEntries(
    arglist: seq<seq<int>>,
    args: seq<int>,
    argindex: nat,
    prevArgs: Option<seq<int>>,
    nextArgs: Option<seq<int>>,
    isCurrent: bool,
    title: string)

  /**
   * `BlogCurrentFeedEntries.__init__` (the archived kind passes
   * `isCurrent` false): the position of `args` in the list, a ValueError
   * when it is missing; an AssertionError unless exactly the last key is
   * the current feed. The previous key exists from the second position on;
   * the next key only up to the third-last, because the last key is the
   * current feed, not an archive.
   */
  function NewFeedEntries(cfg: FeedConfig, names: Names, arglist: seq<seq<int>>, args: seq<int>, isCurrent: bool): (r: Result<FeedEntries>)
    ensures r.Err? <==> args !in arglist || isCurrent != (FirstIndex(arglist, args) == |arglist| - 1)
    ensures r.Ok? ==> r.value.argindex < |arglist| && arglist[r.value.argindex] == args && args !in arglist[..r.value.argindex]
    ensures r.Ok? ==> r.value.isCurrent == isCurrent && r.value.args == args && r.value.arglist == arglist
    ensures r.Ok? ==> (r.value.prevArgs.Some? <==> r.value.argindex > 0)
    ensures r.Ok? && r.value.prevArgs.Some? ==> r.value.prevArgs.value == arglist[r.value.argindex - 1]
    ensures r.Ok? ==> (r.value.nextArgs.Some? <==> r.value.argindex < |arglist| - 2)
    ensures r.Ok? && r.value.nextArgs.Some? ==> r.value.nextArgs.value == arglist[r.value.argindex + 1]
    ensures r.Ok? ==> r.value.title == Argstr(cfg, names, "-", args)
  {
    var i := FirstIndex(arglist, args);
    if i == |arglist| then Err("ValueError")
    else if isCurrent != (i == |arglist| - 1) then Err("AssertionError")
    else
      assert args !in arglist[..i];
      var prev := if i > 0 then Some(arglist[i - 1]) else None;
      var next := if i < |arglist| - 2 then Some(arglist[i + 1]) else None;
      Ok(FeedEntries(arglist, args, i, prev, next, isCurrent, Argstr(cfg, names, "-", args)))
  }

  /** The position of a key in a list where it occurs once is where it stands. */
  lemma FirstIndexOfAscending(arglist: seq<seq<int>>, i: nat)
    requires StrictlyAscending(arglist) && i < |arglist|
    ensures FirstIndex(arglist, arglist[i]) == i
  {
    var k := FirstIndex(arglist, arglist[i]);
    if k != i {
      AscendingDistinct(arglist, i, k);
    }
  }

  /** The archive of every key but the last. */
  function ArchiveAt(cfg: FeedConfig, names: Names, arglist: seq<seq<int>>, i: nat): (f: FeedEntries)
    requires StrictlyAscending(arglist) && i < |arglist| - 1
    ensures NewFeedEntries(cfg, names, arglist, arglist[i], false) == Ok(f)
    ensures f.argindex == i && !f.isCurrent
  {
    FirstIndexOfAscending(arglist, i);
    NewFeedEntries(cfg, names, arglist, arglist[i], false).value
  }

  /** `current_feed_entries`: the feed of the last key; an IndexError when there are no keys. */
  function CurrentFeedEntries(cfg: FeedConfig, names: Names, arglist: seq<seq<int>>): (r: Result<FeedEntries>)
    requires StrictlyAscending(arglist)
    ensures r.Err? <==> arglist == []
    ensures r.Ok? ==> r.value.isCurrent && r.value.argindex == |arglist| - 1 && r.value.nextArgs.None?
    ensures r.Ok? ==> (r.value.prevArgs.Some? <==> |arglist| >= 2)
  {
    if arglist == [] then Err("IndexError")
    else
      FirstIndexOfAscending(arglist, |arglist| - 1);
      NewFeedEntries(cfg, names, arglist, arglist[|arglist| - 1], true)
  }

  /**
   * Every prev/next key a feed links to is the key of a generated archive:
   * one of all the keys but the last.
   */
  lemma LinkedArchivesExist(f: FeedEntries)
    requires f.argindex < |f.arglist|
    requires f.prevArgs.Some? ==> f.argindex > 0 && f.prevArgs.value == f.arglist[f.argindex - 1]
    requires f.nextArgs.Some? ==> f.argindex < |f.arglist| - 2 && f.nextArgs.value == f.arglist[f.argindex + 1]
    ensures f.prevArgs.Some? ==> f.prevArgs.value in f.arglist[..|f.arglist| - 1]
    ensures f.nextArgs.Some? ==> f.nextArgs.value in f.arglist[..|f.arglist| - 1]
  {
    var archived := f.arglist[..|f.arglist| - 1];
    if f.prevArgs.Some? {
      assert archived[f.argindex - 1] == f.prevArgs.value;
    }
    if f.nextArgs.Some? {
      assert archived[f.argindex + 1] == f.nextArgs.value;
    }
  }

  // ---------------------------------------------------------------------
  // archive_elements

  const ArchiveMarker := "<fh:archive />"

  /** `archive_current`: an archive names the current feed; the current feed names nothing. */
  function ArchiveCurrent(f: FeedEntries, rootUrl: string, format: string): (r: string)
    ensures f.isCurrent <==> r == ""
    ensures !f.isCurrent ==> r == "<link rel=\"current\" href=\"" + rootUrl + CurrentUrlpath() + "." + format + "\" />"
  {
    if !f.isCurrent then "<link rel=\"current\" href=\"" + rootUrl + "/index." + format + "\" />" else ""
  }

  /** `archive_rel(rel, format)`: the link to a neighbouring archive, empty when there is none. */
  function ArchiveRel(cfg: FeedConfig, names: Names, rel: string, args: Option<seq<int>>, rootUrl: string, format: string): (r: string)
    ensures r != "" <==> args.Some? && args.value != []
    ensures r != "" ==> r == "<link rel=\"" + rel + "-archive\" href=\"" + rootUrl + ArchiveUrlpath(cfg, names, args.value) + "." + format + "\" />"
  {
    if args.Some? && args.value != [] then
      "<link rel=\"" + rel + "-archive\" href=\"" + rootUrl + ArgsUrlshort(cfg, names, args.value) + (if cfg.feedDirs then "index" else "") + "." + format + "\" />"
    else ""
  }

  /** The four candidate elements: archive marker, current link, previous and next archive. */
  function ArchiveItems(cfg: FeedConfig, names: Names, f: FeedEntries, rootUrl: string, format: string): (r: seq<string>)
    ensures |r| == 4
    ensures r[0] == (if f.isCurrent then "" else ArchiveMarker)
    ensures r[1] == ArchiveCurrent(f, rootUrl, format)
    ensures r[2] == ArchiveRel(cfg, names, "prev", f.prevArgs, rootUrl, format)
    ensures r[3] == ArchiveRel(cfg, names, "next", f.nextArgs, rootUrl, format)
  {
    [if f.isCurrent then "" else ArchiveMarker, ArchiveCurrent(f, rootUrl, format),
     ArchiveRel(cfg, names, "prev", f.prevArgs, rootUrl, format), ArchiveRel(cfg, names, "next", f.nextArgs, rootUrl, format)]
  }

  /** `archive_elements`: the non-empty elements, one per line, between newlines. */
  function ArchiveElements(cfg: FeedConfig, names: Names, f: FeedEntries, rootUrl: string, format: string): (r: string)
    ensures |r| >= 2 && r[0] == '\n' && r[|r| - 1] == '\n'
    ensures r == Newline + Newline <==> forall i :: 0 <= i < 4 ==> ArchiveItems(cfg, names, f, rootUrl, format)[i] == ""
    ensures r == Newline + Join(NonEmpty(ArchiveItems(cfg, names, f, rootUrl, format)), Newline) + Newline
  {
    var items := ArchiveItems(cfg, names, f, rootUrl, format);
    var body := Join(NonEmpty(items), Newline);
    JoinNonEmpty(NonEmpty(items), Newline);
    assert (Newline + body + Newline == Newline + Newline) ==> body == "" by {
      if Newline + body + Newline == Newline + Newline {
        assert |body| == 0;
      }
    }
    Newline + body + Newline
  }

  /** The current feed carries no archive marker and no current link: only its link to the last archive, if any. */
  lemma CurrentFeedElements(cfg: FeedConfig, names: Names, arglist: seq<seq<int>>, rootUrl: string, format: string)
    requires StrictlyAscending(arglist) && |arglist| >= 2
    requires forall i :: 0 <= i < |arglist| ==> arglist[i] != []
    ensures CurrentFeedEntries(cfg, names, arglist).Ok?
    ensures var f := CurrentFeedEntries(cfg, names, arglist).value;
      ArchiveElements(cfg, names, f, rootUrl, format) ==
      Newline + ArchiveRel(cfg, names, "prev", Some(arglist[|arglist| - 2]), rootUrl, format) + Newline
  {
    var f := CurrentFeedEntries(cfg, names, arglist).value;
    assert f.prevArgs == Some(arglist[|arglist| - 2]);
    OnlyPrevElement(cfg, names, f, rootUrl, format);
  }

  /** A current feed with a previous archive and no next one shows only the link to the previous one. */
  lemma OnlyPrevElement(cfg: FeedConfig, names: Names, f: FeedEntries, rootUrl: string, format: string)
    requires f.isCurrent && f.nextArgs.None? && f.prevArgs.Some? && f.prevArgs.value != []
    ensures ArchiveElements(cfg, names, f, rootUrl, format) ==
      Newline + ArchiveRel(cfg, names, "prev", f.prevArgs, rootUrl, format) + Newline
  {
    var items := ArchiveItems(cfg, names, f, rootUrl, format);
    assert items[0] == "" && items[1] == "" && items[3] == "" && items[2] != "";
    OnlyThird(items);
  }

  /** Four items of which only the third is non-empty keep just that one. */
  lemma OnlyThird(items: seq<string>)
    requires |items| == 4 && items[0] == "" && items[1] == "" && items[3] == "" && items[2] != ""
    ensures NonEmpty(items) == [items[2]]
  {
    assert NonEmpty(items) == NonEmpty(items[1..]);
    assert items[1..][1..] == items[2..];
    assert NonEmpty(items[1..]) == NonEmpty(items[2..]);
    assert items[2..][1..] == items[3..];
    assert NonEmpty(items[2..]) == [items[2]] + NonEmpty(items[3..]);
    assert items[3..][1..] == [];
    assert NonEmpty(items[3..]) == [];
  }

  // ---------------------------------------------------------------------
  // time stamp formats

  /** Days before January 1 of `y` since January 1 of year 1 (proleptic Gregorian). */
  function DaysBeforeYear(y: int): int
    requires y >= 1
  {
    var p := y - 1;
    p * 365 + p / 4 - p / 100 + p / 400
  }

  function DaysBeforeMonth(y: int, m: int): int
    requires 1 <= m <= 12
    decreases m
  {
    if m == 1 then 0 else DaysBeforeMonth(y, m - 1) + Timestamps.DaysIn(y, m - 1)
  }

  /** `date.weekday()`: Monday is 0, Sunday is 6. */
  function Weekday(t: Instant): (w: int)
    ensures 0 <= w < 7
  {
    (DaysBeforeYear(t.year) + DaysBeforeMonth(t.year, t.month) + t.day + 6) % 7
  }

  /** January 1, 2013 was a Tuesday. */
  lemma WeekdayAnchor()
    ensures Weekday(Timestamps.DateTime(2013, 1, 1, 0, 0, 0, 0)) == 1
  {
    assert DaysBeforeYear(2013) == 734868;
  }

  /** The next day of the same month falls on the next weekday. */
  lemma NextDayWeekday(t: Instant)
    requires t.day < Timestamps.DaysIn(t.year, t.month)
    ensures Weekday(t.(day := t.day + 1)) == (Weekday(t) + 1) % 7
  {
    var n := DaysBeforeYear(t.year) + DaysBeforeMonth(t.year, t.month) + t.day + 6;
    assert Weekday(t) == n % 7;
    assert Weekday(t.(day := t.day + 1)) == (n + 1) % 7;
    assert n == 7 * (n / 7) + n % 7;
  }

  /** `atom_format`: `{year}-{MM}-{DD}T{hh}:{mm}:00Z`, seconds always `00`. */
  function AtomFormat(t: Instant): string {
    NatStr(t.year) + "-" + Fmt02(t.month) + "-" + Fmt02(t.day) + "T" + Fmt02(t.hour) + ":" + Fmt02(t.minute) + ":00Z"
  }

  lemma FourDigits(n: nat)
    requires 1000 <= n < 10000
    ensures |NatStr(n)| == 4
  {
    assert NatStr(n) == NatStr(n / 10) + [DigitChar(n % 10)];
    assert NatStr(n / 10) == NatStr(n / 100) + [DigitChar(n / 10 % 10)];
    assert NatStr(n / 100) == NatStr(n / 1000) + [DigitChar(n / 100 % 10)];
  }

  /**
   * An Atom time stamp of a four-digit year is 20 characters, and its
   * fields read back at fixed positions.
   */
  lemma AtomFields(t: Instant)
    requires t.year >= 1000
    ensures var s := AtomFormat(t);
      && |s| == 20
      && ParseNat(s[0..4]) == Some(t.year as nat) && s[4] == '-'
      && ParseNat(s[5..7]) == Some(t.month as nat) && s[7] == '-'
      && ParseNat(s[8..10]) == Some(t.day as nat) && s[10] == 'T'
      && ParseNat(s[11..13]) == Some(t.hour as nat) && s[13] == ':'
      && ParseNat(s[14..16]) == Some(t.minute as nat) && s[16..] == ":00Z"
  {
    FourDigits(t.year);
    NatStrRoundTrip(t.year);
    Fmt02RoundTrip(t.month);
    Fmt02RoundTrip(t.day);
    Fmt02RoundTrip(t.hour);
    Fmt02RoundTrip(t.minute);
    FixedFields(NatStr(t.year), Fmt02(t.month), Fmt02(t.day), Fmt02(t.hour), Fmt02(t.minute), ":00Z");
  }

  /** Where the fields of a `YYYY-MM-DDTHH:MM…` text sit. */
  lemma FixedFields(y: string, mo: string, d: string, h: string, mi: string, rest: string)
    requires |y| == 4 && |mo| == 2 && |d| == 2 && |h| == 2 && |mi| == 2
    ensures var s := y + "-" + mo + "-" + d + "T" + h + ":" + mi + rest;
      && |s| == 16 + |rest|
      && s[0..4] == y && s[4] == '-' && s[5..7] == mo && s[7] == '-' && s[8..10] == d && s[10] == 'T'
      && s[11..13] == h && s[13] == ':' && s[14..16] == mi && s[16..] == rest
  {
    var date := y + "-" + mo + "-" + d + "T";
    var time := h + ":" + mi + rest;
    assert y + "-" + mo + "-" + d + "T" + h + ":" + mi + rest == date + time;
    var s := date + time;
    assert s[0..4] == date[0..4] == y;
    assert s[5..7] == date[5..7] == mo;
    assert s[8..10] == date[8..10] == d;
    assert s[11..13] == time[0..2] == h;
    assert s[14..16] == time[3..5] == mi;
    assert s[16..] == time[5..] == rest;
  }

  /** `rss_format`: `{Www}, {DD} {Mon} {year} {hh}:{mm} GMT`. */
  function RssFormat(names: Names, t: Instant): (r: string)
    ensures StartsWith(r, names.weekdayname(Weekday(t)) + ", ")
    ensures EndsWith(r, " GMT")
  {
    var head := names.weekdayname(Weekday(t)) + ", ";
    var tail := Fmt02(t.day) + " " + names.monthname(t.month) + " " + NatStr(t.year) + " " + Fmt02(t.hour) + ":" + Fmt02(t.minute) + " GMT";
    assert (head + tail)[..|head|] == head;
    head + tail
  }

  /** Where the fields of a `DD {m} YYYY hh:mm GMT` text sit. */
  lemma RssTailLayout(d: string, m: string, y: string, h: string, mi: string)
    requires |d| == 2 && |y| == 4 && |h| == 2 && |mi| == 2
    ensures var s := d + " " + m + " " + y + " " + h + ":" + mi + " GMT";
      var b := 3 + |m|;
      && |s| == b + 15
      && s[0..2] == d && s[2] == ' ' && s[3..b] == m && s[b] == ' ' && s[b + 1..b + 5] == y && s[b + 5] == ' '
      && s[b + 6..b + 8] == h && s[b + 8] == ':' && s[b + 9..b + 11] == mi && s[b + 11..] == " GMT"
  {
    var u := y + " " + h + ":" + mi + " GMT";
    assert u[0..4] == y && u[5..7] == h && u[8..10] == mi && u[10..] == " GMT" by {
      assert u == (y + " ") + (h + ":") + (mi + " GMT");
    }
    var p := d + " " + m + " ";
    var s := d + " " + m + " " + y + " " + h + ":" + mi + " GMT";
    assert s == p + u;
    var b := 3 + |m|;
    assert s[0..2] == p[0..2] == d;
    assert s[3..b] == p[3..b] == m;
    assert s[b + 1..] == u;
  }

  /** Where the fields of a `{w}, DD {m} YYYY hh:mm GMT` text sit. */
  lemma RssLayout(w: string, d: string, m: string, y: string, h: string, mi: string)
    requires |d| == 2 && |y| == 4 && |h| == 2 && |mi| == 2
    ensures var s := (w + ", ") + (d + " " + m + " " + y + " " + h + ":" + mi + " GMT");
      var a := |w| + 2;
      var b := a + 3 + |m|;
      && |s| == b + 15
      && s[..|w|] == w && s[|w|..a] == ", " && s[a..a + 2] == d && s[a + 2] == ' '
      && s[a + 3..b] == m && s[b] == ' ' && s[b + 1..b + 5] == y && s[b + 5] == ' '
      && s[b + 6..b + 8] == h && s[b + 8] == ':' && s[b + 9..b + 11] == mi && s[b + 11..] == " GMT"
  {
    var tail := d + " " + m + " " + y + " " + h + ":" + mi + " GMT";
    RssTailLayout(d, m, y, h, mi);
    var s := (w + ", ") + tail;
    var a := |w| + 2;
    assert s[a..] == tail;
    assert s[..|w|] == w && s[|w|..a] == ", ";
  }

  /**
   * An RSS time stamp of a four-digit year reads, in order: the weekday
   * name and a comma, the two-digit day, the month name, the year, and the
   * two-digit hour and minute, with "GMT" last.
   */
  lemma RssFields(names: Names, t: Instant)
    requires t.year >= 1000
    ensures var s := RssFormat(names, t);
      var w := names.weekdayname(Weekday(t));
      var m := names.monthname(t.month);
      var a := |w| + 2;
      var b := a + 3 + |m|;
      && |s| == b + 15
      && s[..|w|] == w && s[|w|..a] == ", "
      && ParseNat(s[a..a + 2]) == Some(t.day as nat) && s[a + 2] == ' '
      && s[a + 3..b] == m && s[b] == ' '
      && ParseNat(s[b + 1..b + 5]) == Some(t.year as nat) && s[b + 5] == ' '
      && ParseNat(s[b + 6..b + 8]) == Some(t.hour as nat) && s[b + 8] == ':'
      && ParseNat(s[b + 9..b + 11]) == Some(t.minute as nat) && s[b + 11..] == " GMT"
  {
    FourDigits(t.year);
    NatStrRoundTrip(t.year);
    Fmt02RoundTrip(t.day);
    Fmt02RoundTrip(t.hour);
    Fmt02RoundTrip(t.minute);
    var w, m := names.weekdayname(Weekday(t)), names.monthname(t.month);
    var d, y, h, mi := Fmt02(t.day), NatStr(t.year), Fmt02(t.hour), Fmt02(t.minute);
    RssLayout(w, d, m, y, h, mi);
    var s := RssFormat(names, t);
    assert s == (w + ", ") + (d + " " + m + " " + y + " " + h + ":" + mi + " GMT");
    var a := |w| + 2;
    var b := a + 3 + |m|;
    assert s[a..a + 2] == d && s[b + 1..b + 5] == y && s[b + 6..b + 8] == h && s[b + 9..b + 11] == mi;
  }

  /** `timestamp_utc`: the stamp without microseconds, taken as UTC or converted from local time. */
  function TimestampUtc(t: Instant, utcTimestamps: bool, localToUtc: Instant -> Instant): (r: Instant)
    ensures utcTimestamps ==> Timestamps.Fields(r)[..6] == Timestamps.Fields(t)[..6] && r.microsecond == 0
  {
    var whole := Timestamps.DateTime(t.year, t.month, t.day, t.hour, t.minute, t.second, 0);
    if utcTimestamps then whole else localToUtc(whole)
  }

  /** The latest of some time stamps (`max`). */
  function Latest(stamps: seq<Instant>): (r: Instant)
    requires stamps != []
    ensures r in stamps
    ensures forall i :: 0 <= i < |stamps| ==> !LexLt(Timestamps.Fields(r), Timestamps.Fields(stamps[i]))
    decreases |stamps|
  {
    if |stamps| == 1 then
      LexIrreflexive(Timestamps.Fields(stamps[0]));
      stamps[0]
    else
      var rest := Latest(stamps[1..]);
      assert forall i :: 1 <= i < |stamps| ==> stamps[i] == stamps[1..][i - 1];
      if LexLt(Timestamps.Fields(stamps[0]), Timestamps.Fields(rest)) then
        LexAsymmetric(Timestamps.Fields(stamps[0]), Timestamps.Fields(rest));
        rest
      else
        LexTotal(Timestamps.Fields(stamps[0]), Timestamps.Fields(rest));
        forall i | 0 <= i < |stamps| ensures !LexLt(Timestamps.Fields(stamps[0]), Timestamps.Fields(stamps[i])) {
          if i == 0 {
            LexIrreflexive(Timestamps.Fields(stamps[0]));
          } else if LexLt(Timestamps.Fields(stamps[0]), Timestamps.Fields(stamps[i])) {
            if Timestamps.Fields(stamps[0]) != Timestamps.Fields(rest) {
              LexTransitive(Timestamps.Fields(rest), Timestamps.Fields(stamps[0]), Timestamps.Fields(stamps[i]));
            }
          }
        }
        stamps[0]
  }

  // ---------------------------------------------------------------------
  // fixup_relative_links

  /** The characters `[A-Za-z0-9\-\/\.]` a relative link may hold. */
  predicate LinkChar(c: char) {
    ('A' <= c <= 'Z') || ('a' <= c <= 'z') || ('0' <= c <= '9') || c == '-' || c == '/' || c == '.'
  }

  /** The length of the longest run of link characters at the start of `s`. */
  function LinkRun(s: string): (k: nat)
    ensures k <= |s|
    ensures forall i :: 0 <= i < k ==> LinkChar(s[i])
    ensures k < |s| ==> !LinkChar(s[k])
  {
    if s != [] && LinkChar(s[0]) then 1 + LinkRun(s[1..]) else 0
  }

  const Opening := "<a href=\"/"

  /**
   * `fixup_relative_links`: each `<a href="/{path}"` whose path is one or
   * more link characters becomes `<a href="{root}/{path}"`, scanning left
   * to right without overlaps; everything else is kept.
   */
  function Fixup(html: string, rootUrl: string): string
    decreases |html|
  {
    if html == [] then []
    else if StartsWith(html, Opening) && 0 < LinkRun(html[10..]) && 10 + LinkRun(html[10..]) < |html| && html[10 + LinkRun(html[10..])] == '"' then
      var k := LinkRun(html[10..]);
      "<a href=\"" + rootUrl + "/" + html[10..10 + k] + "\"" + Fixup(html[11 + k..], rootUrl)
    else [html[0]] + Fixup(html[1..], rootUrl)
  }

  /** Text without a root-relative anchor is left as it is. */
  lemma {:induction false} FixupNoLinks(html: string, rootUrl: string)
    requires forall j: nat :: !OccursAt(html, Opening, j)
    ensures Fixup(html, rootUrl) == html
    decreases |html|
  {
    if html != [] {
      assert !OccursAt(html, Opening, 0);
      ShiftOccurs(html, Opening);
      forall j: nat ensures !OccursAt(html[1..], Opening, j) {
        assert !OccursAt(html, Opening, j + 1);
      }
      FixupNoLinks(html[1..], rootUrl);
    }
  }

  lemma FixupKeeps(html: string, rootUrl: string)
    ensures (forall j: nat :: !OccursAt(html, Opening, j)) ==> Fixup(html, rootUrl) == html
  {
    if forall j: nat :: !OccursAt(html, Opening, j) {
      FixupNoLinks(html, rootUrl);
    }
  }

  /** A root-relative anchor at the start is made absolute, and the rest is fixed in turn. */
  lemma FixupLink(path: string, rest: string, rootUrl: string)
    requires path != [] && forall i :: 0 <= i < |path| ==> LinkChar(path[i])
    ensures Fixup(Opening + path + "\"" + rest, rootUrl) == "<a href=\"" + rootUrl + "/" + path + "\"" + Fixup(rest, rootUrl)
  {
    var html := Opening + path + "\"" + rest;
    assert html[..10] == Opening;
    assert html[10..] == path + "\"" + rest;
    RunOf(path, rest);
    assert html[10..10 + |path|] == path;
    assert html[11 + |path|..] == rest;
  }

  lemma {:induction false} RunOf(path: string, rest: string)
    requires forall i :: 0 <= i < |path| ==> LinkChar(path[i])
    ensures LinkRun(path + "\"" + rest) == |path|
    decreases |path|
  {
    if path != [] {
      assert (path + "\"" + rest)[1..] == path[1..] + "\"" + rest;
      RunOf(path[1..], rest);
    }
  }

  // ---------------------------------------------------------------------
  // the extension's hooks

  /** `feed_formats`: the index formats that are feeds. */
  function FeedFormats(indexFormats: set<string>): (r: set<string>)
    ensures forall f :: f in r <==> f in indexFormats && (f == "rss" || f == "atom")
  {
    {"rss", "atom"} * indexFormats
  }

  /** `archive_feed_formats`: only Atom feeds are archived. */
  function ArchiveFeedFormats(indexFormats: set<string>): (r: set<string>)
    ensures r <= FeedFormats(indexFormats)
    ensures forall f :: f in r <==> f in indexFormats && f == "atom"
  {
    {"atom"} * indexFormats
  }

  /** `entry_mod_body`: in a feed format the relative links become absolute. */
  function EntryModBody(body: string, format: string, feedFormats: set<string>, rootUrl: string): (r: string)
    ensures format !in feedFormats ==> r == body
    ensures (forall j: nat :: !OccursAt(body, Opening, j)) ==> r == body
  {
    if format in feedFormats then
      FixupKeeps(body, rootUrl);
      Fixup(body, rootUrl)
    else body
  }

  /** The templates the entry attributes are filled from. */
  datatype FeedTemplates = FeedTemplates(rssId: string, rssCategory: string, atomId: string, atomCategory: string)

  function DefaultTemplates(): (t: FeedTemplates)
    ensures t.rssId == t.atomId == "{cachekey}" && t.rssCategory == t.atomCategory == "entries"
  {
    FeedTemplates("{cachekey}", "entries", "{cachekey}", "entries")
  }

  /** The keys `entry_mod_attrs` adds for the feed formats in use. */
  function FeedKeys(feedFormats: set<string>): set<string> {
    (if "rss" in feedFormats || "atom" in feedFormats then {"root_url", "author", "email"} else {})
    + (if "rss" in feedFormats then {"id_rss", "category_rss", "timestamp_rss"} else {})
    + (if "atom" in feedFormats then {"id_atom", "category_atom", "timestamp_atom"} else {})
  }

  /**
   * `entry_mod_attrs`: with a feed format, the attributes gain the blog's
   * `root_url`, `author` and `email` (a KeyError when one is missing), then
   * per format the id and category templates filled from those attributes
   * and the entry's time stamp in that format.
   */
  function EntryModAttrs(feedFormats: set<string>, metadata: map<string, string>, attrs: map<string, string>,
                         tmpl: FeedTemplates, fill: (string, map<string, string>) -> string,
                         stampRss: string, stampAtom: string): (r: Result<map<string, string>>)
    ensures r.Err? <==> ("rss" in feedFormats || "atom" in feedFormats) && !({"root_url", "author", "email"} <= metadata.Keys)
    ensures r.Ok? ==> r.value.Keys == attrs.Keys + FeedKeys(feedFormats)
  {
    var doRss := "rss" in feedFormats;
    var doAtom := "atom" in feedFormats;
    if !(doRss || doAtom) then Ok(attrs)
    else if !({"root_url", "author", "email"} <= metadata.Keys) then Err("KeyError")
    else
      var a1 := attrs["root_url" := metadata["root_url"]]["author" := metadata["author"]]["email" := metadata["email"]];
      var a2 := if doRss then a1["id_rss" := fill(tmpl.rssId, a1)]["category_rss" := fill(tmpl.rssCategory, a1)]["timestamp_rss" := stampRss] else a1;
      var a3 := if doAtom then a2["id_atom" := fill(tmpl.atomId, a2)]["category_atom" := fill(tmpl.atomCategory, a2)]["timestamp_atom" := stampAtom] else a2;
      Ok(a3)
  }

  /** `entry_mod_attrs` changes no attribute but the feed ones. */
  lemma EntryModAttrsKeeps(feedFormats: set<string>, metadata: map<string, string>, attrs: map<string, string>,
                           tmpl: FeedTemplates, fill: (string, map<string, string>) -> string,
                           stampRss: string, stampAtom: string)
    ensures var r := EntryModAttrs(feedFormats, metadata, attrs, tmpl, fill, stampRss, stampAtom);
      r.Ok? ==> forall k :: k in attrs && k !in FeedKeys(feedFormats) ==> r.value[k] == attrs[k]
  {
  }

  /** `entry_mod_attrs` copies the blog's `root_url`, `author` and `email`. */
  lemma EntryModAttrsValues(feedFormats: set<string>, metadata: map<string, string>, attrs: map<string, string>,
                            tmpl: FeedTemplates, fill: (string, map<string, string>) -> string,
                            stampRss: string, stampAtom: string)
    ensures var r := EntryModAttrs(feedFormats, metadata, attrs, tmpl, fill, stampRss, stampAtom);
      r.Ok? && ("rss" in feedFormats || "atom" in feedFormats) ==>
        forall k :: k in {"root_url", "author", "email"} ==> k in r.value && r.value[k] == metadata[k]
  {
  }

  /** The entry's time stamp in each feed format is set by `entry_mod_attrs`. */
  lemma EntryModAttrsStamps(feedFormats: set<string>, metadata: map<string, string>, attrs: map<string, string>,
                            tmpl: FeedTemplates, fill: (string, map<string, string>) -> string,
                            stampRss: string, stampAtom: string)
    ensures var r := EntryModAttrs(feedFormats, metadata, attrs, tmpl, fill, stampRss, stampAtom);
      r.Ok? && "rss" in feedFormats ==> "timestamp_rss" in r.value && r.value["timestamp_rss"] == stampRss
    ensures var r := EntryModAttrs(feedFormats, metadata, attrs, tmpl, fill, stampRss, stampAtom);
      r.Ok? && "atom" in feedFormats ==> "timestamp_atom" in r.value && r.value["timestamp_atom"] == stampAtom
  {
  }

  /** The language of an RSS feed: `language`, followed by `-` and the lower-cased `country` when there is one. */
  function RssLanguage(metadata: map<string, string>): (r: Result<string>)
    ensures r.Err? <==> "language" !in metadata
    ensures r.Ok? && "country" !in metadata ==> r.value == metadata["language"]
    ensures r.Ok? && "country" in metadata ==> r.value == metadata["language"] + "-" + Lower(metadata["country"])
  {
    if "language" !in metadata then Err("KeyError")
    else if "country" in metadata then Ok(metadata["language"] + "-" + Lower(metadata["country"]))
    else Ok(metadata["language"])
  }

  /** The attributes `page_mod_attrs` sets for a page in `format`. */
  function FeedAttrKeys(feedFormats: set<string>, archiveFormats: set<string>, format: string): set<string> {
    if format !in feedFormats then {}
    else
      (if format in archiveFormats then {"page_archive_elements"} else {})
      + (if format == "atom" then {"page_timestamp_atom"} else {})
      + (if format == "rss" then {"page_timestamp_rss", "blog_language_rss"} else {})
  }

  /**
   * `page_mod_attrs`: a feed page (a ValueError when it has no entries) is
   * stamped with its latest entry's UTC time stamp in its own format; an
   * archived format also gets the archive elements (empty without archived
   * feeds), and RSS the feed language.
   */
  function PageModAttrs(names: Names, feedFormats: set<string>, archiveFormats: set<string>, archiveFeeds: bool,
                        format: string, utcStamps: seq<Instant>, archiveElements: string,
                        metadata: map<string, string>, attrs: map<string, string>): (r: Result<map<string, string>>)
    ensures format !in feedFormats ==> r == Ok(attrs)
    ensures r.Err? <==> format in feedFormats && (utcStamps == [] || (format == "rss" && "language" !in metadata))
    ensures r.Ok? ==> r.value.Keys == attrs.Keys + FeedAttrKeys(feedFormats, archiveFormats, format)
    ensures r.Ok? ==> forall k :: k in attrs && k !in FeedAttrKeys(feedFormats, archiveFormats, format) ==> r.value[k] == attrs[k]
    ensures r.Ok? && format in feedFormats && format == "atom" ==> "page_timestamp_atom" in r.value && r.value["page_timestamp_atom"] == AtomFormat(Latest(utcStamps))
    ensures r.Ok? && format in feedFormats && format == "rss" ==>
      "page_timestamp_rss" in r.value && "blog_language_rss" in r.value &&
      r.value["page_timestamp_rss"] == RssFormat(names, Latest(utcStamps)) && r.value["blog_language_rss"] == RssLanguage(metadata).value
    ensures r.Ok? && format in feedFormats && format in archiveFormats ==>
      "page_archive_elements" in r.value && r.value["page_archive_elements"] == if archiveFeeds then archiveElements else ""
  {
    if format !in feedFormats then Ok(attrs)
    else if utcStamps == [] then Err("ValueError")
    else
      var t := Latest(utcStamps);
      var a1 := if format in archiveFormats then attrs["page_archive_elements" := if archiveFeeds then archiveElements else ""] else attrs;
      var a2 := if format == "atom" then a1["page_timestamp_atom" := AtomFormat(t)] else a1;
      if format == "rss" then
        match RssLanguage(metadata)
        case Err(e) => Err(e)
        case Ok(language) => Ok(a2["page_timestamp_rss" := RssFormat(names, t)]["blog_language_rss" := language])
      else Ok(a2)
  }

  /** `blog_mod_required_metadata`: root URL, author and email, and the language for RSS. */
  function RequiredMetadata(data: set<string>, feedFormats: set<string>): (r: set<string>)
    ensures r == data + {"root_url", "author", "email"} + (if "rss" in feedFormats then {"language"} else {})
    ensures "language" in r <==> "language" in data || "rss" in feedFormats
  {
    data + {"root_url", "author", "email"} + (if "rss" in feedFormats then {"language"} else {})
  }

  /** `blog_mod_default_metadata`: titles and URLs of the feeds in use. */
  function DefaultMetadata(data: map<string, string>, feedFormats: set<string>): (r: map<string, string>)
    ensures "rss" in feedFormats ==> "rss_title" in r && r["rss_title"] == "RSS" && "rss_url" in r && r["rss_url"] == "/index.rss"
    ensures "atom" in feedFormats ==> "atom_title" in r && r["atom_title"] == "Atom" && "atom_url" in r && r["atom_url"] == "/index.atom"
    ensures forall k :: k in data && k !in {"rss_title", "rss_url", "atom_title", "atom_url"} ==> k in r && r[k] == data[k]
    ensures r.Keys <= data.Keys + {"rss_title", "rss_url", "atom_title", "atom_url"}
  {
    var d1 := if "rss" in feedFormats then data["rss_title" := "RSS"]["rss_url" := "/index.rss"] else data;
    if "atom" in feedFormats then d1["atom_title" := "Atom"]["atom_url" := "/index.atom"] else d1
  }

  /** The main index feed's URL is where the current feed is written. */
  lemma FeedUrlsAreCurrent(format: string)
    ensures CurrentUrlpath() + "." + format == "/index." + format
  {
  }

  /**
   * `blog_mod_index_entries`: with archived feeds, an archived format's
   * index shows the current feed (`None` below: the entries are kept).
   */
  function IndexEntries(cfg: FeedConfig, names: Names, archiveFeeds: bool, format: string, archiveFormats: set<string>,
                        arglist: seq<seq<int>>): (r: Result<Option<FeedEntries>>)
    requires StrictlyAscending(arglist)
    ensures !(archiveFeeds && format in archiveFormats) ==> r == Ok(None)
    ensures archiveFeeds && format in archiveFormats ==> (r.Err? <==> arglist == [])
    ensures r.Ok? && r.value.Some? ==> r.value.value.isCurrent && r.value.value.args == arglist[|arglist| - 1]
  {
    if archiveFeeds && format in archiveFormats then
      match CurrentFeedEntries(cfg, names, arglist)
      case Err(e) => Err(e)
      case Ok(f) => Ok(Some(f))
    else Ok(None)
  }

  // ---------------------------------------------------------------------
  // blog_mod_sources

  /** A source after `blog_mod_sources`: one that was there, or an archived feed. */
  datatype FeedSource<S> = Kept(source: S) | Archive(feed: FeedEntries)

  /** The archived feeds: one for every key but the last, in key order. */
  function Archives(cfg: FeedConfig, names: Names, arglist: seq<seq<int>>): (r: seq<FeedEntries>)
    requires StrictlyAscending(arglist)
    ensures |r| == if arglist == [] then 0 else |arglist| - 1
    ensures forall i :: 0 <= i < |r| ==> r[i] == ArchiveAt(cfg, names, arglist, i)
  {
    var n := if arglist == [] then 0 else |arglist| - 1;
    seq(n, i requires 0 <= i < n => ArchiveAt(cfg, names, arglist, i))
  }

  /** Each feed in turn, in every archived format in turn. */
  function ArchiveSources<S>(feeds: seq<FeedEntries>, formats: seq<string>): (r: seq<(FeedSource<S>, string)>)
    ensures |r| == |feeds| * |formats|
    ensures forall x :: x in r ==> x.0.Archive? && x.0.feed in feeds && x.1 in formats
    decreases |feeds|
  {
    if feeds == [] then []
    else
      var before := ArchiveSources<S>(feeds[..|feeds| - 1], formats);
      var f := feeds[|feeds| - 1];
      var these := seq(|formats|, j requires 0 <= j < |formats| => (Archive(f), formats[j]));
      assert forall j :: 0 <= j < |formats| ==> these[j] == (Archive(f), formats[j]);
      before + these
  }

  /** Every feed is there in every archived format. */
  lemma {:induction false} ArchiveSourcesHas<S>(feeds: seq<FeedEntries>, formats: seq<string>, i: nat, j: nat)
    requires i < |feeds| && j < |formats|
    ensures (Archive(feeds[i]), formats[j]) in ArchiveSources<S>(feeds, formats)
    decreases |feeds|
  {
    var init := feeds[..|feeds| - 1];
    var before := ArchiveSources<S>(init, formats);
    var r := ArchiveSources<S>(feeds, formats);
    if i < |feeds| - 1 {
      ArchiveSourcesHas<S>(init, formats, i, j);
      assert init[i] == feeds[i];
      assert r == before + r[|before|..];
    } else {
      assert r[|before| + j] == (Archive(feeds[i]), formats[j]);
    }
  }

  /** The feed links of the main index: one per feed format, RSS first. */
  function FeedLinks(feedFormats: set<string>, metadata: map<string, string>, rssLink: string, atomLink: string,
                     fill: (string, map<string, string>) -> string): (r: string)
    ensures "rss" !in feedFormats && "atom" !in feedFormats ==> r == ""
    ensures "rss" in feedFormats && "atom" !in feedFormats ==> r == fill(rssLink, metadata)
    ensures "atom" in feedFormats && "rss" !in feedFormats ==> r == fill(atomLink, metadata)
    ensures "rss" in feedFormats && "atom" in feedFormats ==> r == fill(rssLink, metadata) + Newline + fill(atomLink, metadata)
  {
    var links := (if "rss" in feedFormats then [fill(rssLink, metadata)] else [])
               + (if "atom" in feedFormats then [fill(atomLink, metadata)] else []);
    assert |links| == 2 ==> links[1..] == [links[1]] && Join(links[1..], Newline) == links[1];
    Join(links, Newline)
  }

  /** The given sources, kept. */
  function KeptSources<S>(sources: seq<(S, string)>): (r: seq<(FeedSource<S>, string)>)
    ensures |r| == |sources| && forall i :: 0 <= i < |sources| ==> r[i] == (Kept(sources[i].0), sources[i].1)
  {
    seq(|sources|, i requires 0 <= i < |sources| => (Kept(sources[i].0), sources[i].1))
  }

  /**
   * The sources `blog_mod_sources` returns: with archived feeds at a valid
   * level, the archives follow the given sources (a ValueError for an
   * unknown level).
   */
  function FeedSources<S>(cfg: FeedConfig, names: Names, archiveFormats: seq<string>, archiveFeeds: string,
                          stamps: seq<Instant>, sources: seq<(S, string)>): Result<seq<(FeedSource<S>, string)>>
  {
    if archiveFeeds == "" then Ok(KeptSources(sources))
    else
      match ArchiveLevel(archiveFeeds)
      case Err(e) => Err(e)
      case Ok(n) =>
        var arglist := ArchiveFeedArgs(stamps, n);
        ArchiveFeedArgsAscending(stamps, n);
        Ok(KeptSources(sources) + ArchiveSources<S>(Archives(cfg, names, arglist), archiveFormats))
  }

  /** The archive of every key but the last is there in every archived format. */
  lemma ArchivesListed<S>(cfg: FeedConfig, names: Names, arglist: seq<seq<int>>, formats: seq<string>)
    requires StrictlyAscending(arglist)
    ensures forall i, j :: 0 <= i < |arglist| - 1 && 0 <= j < |formats| ==>
      (Archive(ArchiveAt(cfg, names, arglist, i)), formats[j]) in ArchiveSources<S>(Archives(cfg, names, arglist), formats)
  {
    var feeds := Archives(cfg, names, arglist);
    forall i, j | 0 <= i < |arglist| - 1 && 0 <= j < |formats|
      ensures (Archive(ArchiveAt(cfg, names, arglist, i)), formats[j]) in ArchiveSources<S>(feeds, formats)
    {
      ArchiveSourcesHas<S>(feeds, formats, i, j);
    }
  }

  /**
   * The given sources come first, unchanged; without archived feeds they
   * are all there is, and an unknown level is the only error.
   */
  lemma FeedSourcesSpec<S>(cfg: FeedConfig, names: Names, archiveFormats: seq<string>, archiveFeeds: string,
                           stamps: seq<Instant>, sources: seq<(S, string)>)
    ensures var r := FeedSources(cfg, names, archiveFormats, archiveFeeds, stamps, sources);
      && (archiveFeeds == "" ==> r.Ok? && |r.value| == |sources|)
      && (archiveFeeds != "" ==> (r.Err? <==> ArchiveLevel(archiveFeeds).Err?))
      && (r.Ok? ==> |r.value| >= |sources| && forall i :: 0 <= i < |sources| ==> r.value[i] == (Kept(sources[i].0), sources[i].1))
  {
  }

  /**
   * With archived feeds, one archive per key but the last, in each
   * archived format, follows the given sources, and nothing else does.
   */
  lemma FeedSourcesArchives<S>(cfg: FeedConfig, names: Names, archiveFormats: seq<string>, archiveFeeds: string,
                               stamps: seq<Instant>, sources: seq<(S, string)>)
    ensures var r := FeedSources(cfg, names, archiveFormats, archiveFeeds, stamps, sources);
      r.Ok? && archiveFeeds != "" ==>
      var arglist := ArchiveFeedArgs(stamps, ArchiveLevel(archiveFeeds).value);
      StrictlyAscending(arglist) &&
      |r.value| == |sources| + (if arglist == [] then 0 else (|arglist| - 1) * |archiveFormats|) &&
      forall i, j :: 0 <= i < |arglist| - 1 && 0 <= j < |archiveFormats| ==>
        (Archive(ArchiveAt(cfg, names, arglist, i)), archiveFormats[j]) in r.value[|sources|..]
  {
    if archiveFeeds != "" && ArchiveLevel(archiveFeeds).Ok? {
      var n := ArchiveLevel(archiveFeeds).value;
      var arglist := ArchiveFeedArgs(stamps, n);
      ArchiveFeedArgsAscending(stamps, n);
      var kept := KeptSources(sources);
      var archives := ArchiveSources<S>(Archives(cfg, names, arglist), archiveFormats);
      ArchivesListed<S>(cfg, names, arglist, archiveFormats);
      assert FeedSources(cfg, names, archiveFormats, archiveFeeds, stamps, sources) == Ok(kept + archives);
      assert (kept + archives)[|sources|..] == archives;
    }
  }

  /**
   * `blog_mod_sources`: the blog's `feed_links` metadata is set, then the
   * sources are extended (an unknown level raises after the metadata is
   * set).
   */
  method BlogModSources<S>(blog: Blog, cfg: FeedConfig, names: Names, feedFormats: set<string>, archiveFormats: seq<string>,
                           archiveFeeds: string, stamps: seq<Instant>, sources: seq<(S, string)>,
                           rssLink: string, atomLink: string, fill: (string, map<string, string>) -> string)
    returns (r: Result<seq<(FeedSource<S>, string)>>)
    modifies blog
    ensures blog.metadata == old(blog.metadata)["feed_links" := FeedLinks(feedFormats, old(blog.metadata), rssLink, atomLink, fill)]
    ensures r == FeedSources(cfg, names, archiveFormats, archiveFeeds, stamps, sources)
  {
    blog.metadata := blog.metadata["feed_links" := FeedLinks(feedFormats, blog.metadata, rssLink, atomLink, fill)];
    r := FeedSources(cfg, names, archiveFormats, archiveFeeds, stamps, sources);
  }
}
