/**
 * Entry time stamps (`simpleblog/extensions/timestamps.py`): a naive
 * `datetime`, written to the timestamps cache as zero-padded fields joined
 * by `-` and read back by splitting on `-`.
 */
module Timestamps {
  import opened Wrappers
  import opened Text
  import opened Order
  import Caching

  /** The fields of a naive `datetime.datetime`. */
  datatype DateTime = DateTime(year: int, month: int, day: int, hour: int, minute: int, second: int, microsecond: int)

  predicate IsLeap(y: int) {
    y % 4 == 0 && (y % 100 != 0 || y % 400 == 0)
  }

  function DaysIn(y: int, m: int): int {
    if m == 2 then (if IsLeap(y) then 29 else 28)
    else if m == 4 || m == 6 || m == 9 || m == 11 then 30
    else 31
  }

  /** The ranges `datetime` enforces on its fields. */
  predicate Valid(dt: DateTime) {
    && 1 <= dt.year <= 9999 && 1 <= dt.month <= 12 && 1 <= dt.day <= DaysIn(dt.year, dt.month)
    && 0 <= dt.hour < 24 && 0 <= dt.minute < 60 && 0 <= dt.second < 60
    && 0 <= dt.microsecond < 1000000
  }

  /** A `datetime` that exists: Python cannot build one outside the ranges. */
  type Instant = dt: DateTime | Valid(dt) witness DateTime(1, 1, 1, 0, 0, 0, 0)

  function Fields(dt: DateTime): seq<int> {
    [dt.year, dt.month, dt.day, dt.hour, dt.minute, dt.second, dt.microsecond]
  }

  lemma FieldsInjective(a: DateTime, b: DateTime)
    requires Fields(a) == Fields(b)
    ensures a == b
  {
    assert Fields(a)[0] == Fields(b)[0] && Fields(a)[1] == Fields(b)[1] && Fields(a)[2] == Fields(b)[2];
    assert Fields(a)[3] == Fields(b)[3] && Fields(a)[4] == Fields(b)[4];
    assert Fields(a)[5] == Fields(b)[5] && Fields(a)[6] == Fields(b)[6];
  }

  /** The `i`-th positional argument, or the default 0 when it was not given. */
  function Arg(args: seq<int>, i: nat): int {
    if i < |args| then args[i] else 0
  }

  /**
   * `datetime(*args)`: year, month and day are required, hour to
   * microsecond default to 0; an eighth argument would be the time zone,
   * which an integer cannot be.
   */
  function MakeDateTime(args: seq<int>): (r: Result<Instant>)
    ensures r.Ok? <==> 3 <= |args| <= 7 && Valid(Assemble(args))
    ensures r.Ok? ==> r.value == Assemble(args)
  {
    var dt := Assemble(args);
    if 3 <= |args| <= 7 && Valid(dt) then Ok(dt)
    else
      var err: Result<Instant> := Err(
        if |args| < 3 then "TypeError: required argument not found"
        else if |args| > 7 then "TypeError: tzinfo argument must be None or of a tzinfo subclass"
        else "ValueError: datetime field out of range");
      err
  }

  /** The datetime the positional arguments describe, defaults filled in. */
  function Assemble(args: seq<int>): (dt: DateTime)
    ensures forall i :: 0 <= i < 7 ==> Fields(dt)[i] == Arg(args, i)
  {
    DateTime(Arg(args, 0), Arg(args, 1), Arg(args, 2), Arg(args, 3), Arg(args, 4), Arg(args, 5), Arg(args, 6))
  }

  /** `map(int, parts)`, failing on the first part that is not an integer literal. */
  function ParseInts(parts: seq<string>): (r: Option<seq<int>>)
    ensures r.Some? <==> forall i :: 0 <= i < |parts| ==> ParseInt(parts[i]).Some?
    ensures r.Some? ==> |r.value| == |parts| && forall i :: 0 <= i < |parts| ==> ParseInt(parts[i]) == Some(r.value[i])
  {
    if parts == [] then Some([])
    else
      var head := ParseInt(parts[0]);
      var tail := ParseInts(parts[1..]);
      assert forall i :: 0 <= i < |parts| - 1 ==> parts[1..][i] == parts[i + 1];
      if head.Some? && tail.Some? then Some([head.value] + tail.value) else None
  }

  /** `datetime(*map(int, data.split('-')))`: a time stamp read from its string form. */
  function ParseTimestamp(s: string): Result<Instant> {
    match ParseInts(SplitOn(s, '-'))
    case None => Err("ValueError: invalid literal for int() with base 10")
    case Some(args) => MakeDateTime(args)
  }

  /** The fields `str()` writes: down to the minute, or to the second when seconds are cached. */
  function Shown(dt: Instant, cacheSeconds: bool): (r: seq<nat>)
    ensures |r| == if cacheSeconds then 6 else 5
    ensures forall i :: 0 <= i < |r| ==> r[i] == Fields(dt)[i]
  {
    [dt.year, dt.month, dt.day, dt.hour, dt.minute] + (if cacheSeconds then [dt.second] else [])
  }

  function Fmt02All(ns: seq<nat>): (r: seq<string>)
    ensures |r| == |ns|
    ensures forall i :: 0 <= i < |ns| ==> r[i] == Fmt02(ns[i])
  {
    if ns == [] then [] else [Fmt02(ns[0])] + Fmt02All(ns[1..])
  }

  /** `str(Timestamp)`: the shown fields as `{:02d}`, joined by `-`. */
  function TimestampStr(dt: Instant, cacheSeconds: bool): string {
    Join(Fmt02All(Shown(dt, cacheSeconds)), "-")
  }

  /** What the string form keeps of a time stamp: microseconds never, seconds only when cached. */
  function Truncated(dt: Instant, cacheSeconds: bool): (r: Instant)
    ensures Fields(r)[..5] == Fields(dt)[..5]
    ensures r.second == (if cacheSeconds then dt.second else 0) && r.microsecond == 0
  {
    DateTime(dt.year, dt.month, dt.day, dt.hour, dt.minute, if cacheSeconds then dt.second else 0, 0)
  }

  lemma {:induction false} ParseIntsFmt02(ns: seq<nat>)
    ensures ParseInts(Fmt02All(ns)) == Some(ns)
    decreases |ns|
  {
    if ns != [] {
      ParseIntsFmt02(ns[1..]);
      Fmt02RoundTrip(ns[0]);
      PlainIntIsNat(Fmt02(ns[0]));
      assert Fmt02All(ns)[1..] == Fmt02All(ns[1..]);
      assert [ns[0]] + ns[1..] == ns;
    }
  }

  lemma StrParts(dt: Instant, cacheSeconds: bool)
    ensures SplitOn(TimestampStr(dt, cacheSeconds), '-') == Fmt02All(Shown(dt, cacheSeconds))
  {
    var parts := Fmt02All(Shown(dt, cacheSeconds));
    forall i | 0 <= i < |parts| ensures '-' !in parts[i] {
      var p := parts[i];
      assert forall j :: 0 <= j < |p| ==> p[j] != '-' by {
        forall j | 0 <= j < |p| ensures p[j] != '-' {
          assert IsDigit(p[j]);
        }
      }
    }
    JoinSplitOn(parts, '-');
  }

  /**
   * Reading back the string form of a time stamp gives it back truncated to
   * the minute, or to the second when seconds are cached.
   */
  lemma StrRoundTrip(dt: Instant, cacheSeconds: bool)
    ensures ParseTimestamp(TimestampStr(dt, cacheSeconds)) == Ok(Truncated(dt, cacheSeconds))
  {
    StrParts(dt, cacheSeconds);
    ParseIntsFmt02(Shown(dt, cacheSeconds));
    var args: seq<int> := Shown(dt, cacheSeconds);
    var r := MakeDateTime(args);
    assert r.Ok?;
    FieldsInjective(r.value, Truncated(dt, cacheSeconds));
  }

  /** The string form is one token of digits and dashes. */
  lemma StrIsToken(dt: Instant, cacheSeconds: bool)
    ensures TimestampStr(dt, cacheSeconds) != [] && NoSpace(TimestampStr(dt, cacheSeconds))
  {
    var parts := Fmt02All(Shown(dt, cacheSeconds));
    DigitsJoin(parts);
  }

  predicate DigitOrDash(c: char) {
    IsDigit(c) || c == '-'
  }

  lemma {:induction false} DigitsJoin(parts: seq<string>)
    requires |parts| >= 1 && parts[0] != []
    requires forall i :: 0 <= i < |parts| ==> forall j :: 0 <= j < |parts[i]| ==> IsDigit(parts[i][j])
    ensures Join(parts, "-") != []
    ensures forall j :: 0 <= j < |Join(parts, "-")| ==> DigitOrDash(Join(parts, "-")[j])
    decreases |parts|
  {
    if |parts| > 1 {
      assert parts[1..][0] == parts[1];
      if parts[1] == [] {
        assert parts[1..] == [[]] + parts[2..];
      }
      DigitsJoinAny(parts[1..]);
    }
  }

  lemma {:induction false} DigitsJoinAny(parts: seq<string>)
    requires forall i :: 0 <= i < |parts| ==> forall j :: 0 <= j < |parts[i]| ==> IsDigit(parts[i][j])
    ensures forall j :: 0 <= j < |Join(parts, "-")| ==> DigitOrDash(Join(parts, "-")[j])
    decreases |parts|
  {
    if |parts| > 1 {
      DigitsJoinAny(parts[1..]);
      var rest := Join(parts[1..], "-");
      var all := parts[0] + "-" + rest;
      forall j | 0 <= j < |all| ensures DigitOrDash(all[j]) {
        if j < |parts[0]| {
          assert all[j] == parts[0][j];
        } else if j > |parts[0]| {
          assert all[j] == rest[j - |parts[0]| - 1];
        }
      }
    }
  }

  // ---------------------------------------------------------------------
  // comparisons

  /** The right-hand side of a comparison: another time stamp, a bare `datetime`, or anything else. */
  datatype Operand = Stamp(dt: Instant) | Plain(dt: Instant) | Foreign

  /** `Timestamp.__eq__`: compares the underlying datetimes; anything else raises `NotImplementedError`. */
  function Eq(self: Instant, other: Operand): Result<bool> {
    match other
    case Stamp(dt) => Ok(self == dt)
    case Plain(dt) => Ok(self == dt)
    case Foreign => Err("NotImplementedError")
  }

  /** `Timestamp.__gt__`: chronological order, field by field. */
  function Gt(self: Instant, other: Operand): Result<bool> {
    match other
    case Stamp(dt) => Ok(LexLt(Fields(dt), Fields(self)))
    case Plain(dt) => Ok(LexLt(Fields(dt), Fields(self)))
    case Foreign => Err("NotImplementedError")
  }

  /** `__lt__` as `total_ordering` derives it from `__gt__` and `__eq__`. */
  function Lt(self: Instant, other: Operand): Result<bool> {
    match Gt(self, other)
    case Err(m) => Err(m)
    case Ok(gt) =>
      if gt then Ok(false)
      else match Eq(self, other)
        case Err(m) => Err(m)
        case Ok(eq) => Ok(!eq)
  }

  /**
   * The derived `<` is the order of the field tuples, the key by which the
   * model sorts time stamps; exactly one of `<`, `==`, `>` holds.
   */
  lemma Trichotomy(a: Instant, b: Instant)
    ensures Lt(a, Stamp(b)) == Ok(LexLt(Fields(a), Fields(b)))
    ensures Eq(a, Stamp(b)) == Ok(Fields(a) == Fields(b))
    ensures Gt(a, Stamp(b)) == Ok(LexLt(Fields(b), Fields(a)))
    ensures (if LexLt(Fields(a), Fields(b)) then 1 else 0) + (if a == b then 1 else 0) + (if LexLt(Fields(b), Fields(a)) then 1 else 0) == 1
  {
    LexTotal(Fields(a), Fields(b));
    if Fields(a) == Fields(b) {
      FieldsInjective(a, b);
      LexIrreflexive(Fields(a));
    } else {
      if LexLt(Fields(a), Fields(b)) {
        LexAsymmetric(Fields(a), Fields(b));
      } else {
        LexAsymmetric(Fields(b), Fields(a));
      }
    }
  }

  /** Comparing with anything that is neither a time stamp nor a datetime raises. */
  lemma ForeignRaises(a: Instant)
    ensures Eq(a, Foreign).Err? && Gt(a, Foreign).Err? && Lt(a, Foreign).Err?
  {
  }

  // ---------------------------------------------------------------------
  // construction and caching

  /** The argument of `Timestamp(data)`: a file mtime, a cached string, or anything else. */
  datatype TimestampData = Mtime(seconds: real) | Text(s: string) | Other(repr: string)

  /**
   * `Timestamp.__init__`: an mtime goes through the clock conversion
   * (local or UTC, a parameter here), a string is parsed, anything else
   * raises `ValueError`.
   */
  function NewTimestamp(data: TimestampData, clock: real -> Instant): (r: Result<Instant>)
    ensures data.Other? ==> r == Err(data.repr + " is not a valid entry timestamp")
    ensures data.Mtime? ==> r == Ok(clock(data.seconds))
    ensures data.Text? ==> r == ParseTimestamp(data.s)
  {
    match data
    case Mtime(t) => Ok(clock(t))
    case Text(s) => ParseTimestamp(s)
    case Other(repr) => Err(repr + " is not a valid entry timestamp")
  }

  /**
   * `Timestamp(str(ts))`: the constructor reads a time stamp's string form
   * back as the time stamp truncated to what the string shows, whatever the
   * clock.
   */
  lemma ConstructedRoundTrip(dt: Instant, cacheSeconds: bool, clock: real -> Instant)
    ensures NewTimestamp(Text(TimestampStr(dt, cacheSeconds)), clock) == Ok(Truncated(dt, cacheSeconds))
  {
    StrRoundTrip(dt, cacheSeconds);
  }

  /** What the `basestring` test raises as written: Python 3 has no `basestring`. */
  const BasestringError := "NameError: name 'basestring' is not defined"

  /**
   * `Timestamp.__init__` as written: an mtime is converted, and any other
   * argument reaches `isinstance(data, basestring)`, which raises, so
   * neither the string parse nor the `ValueError` is reachable.
   */
  function NewTimestampAsWritten(data: TimestampData, clock: real -> Instant): (r: Result<Instant>)
    ensures r.Ok? <==> data.Mtime?
    ensures data.Mtime? ==> r == NewTimestamp(data, clock)
    ensures !data.Mtime? ==> r == Err(BasestringError)
  {
    match data
    case Mtime(t) => Ok(clock(t))
    case _ => Err(BasestringError)
  }

  /** `config.get('timestamps_file', "timestamps")`. */
  function TimestampsFile(config: map<string, string>): (f: string)
    ensures "timestamps_file" in config ==> f == config["timestamps_file"]
    ensures "timestamps_file" !in config ==> f == "timestamps"
  {
    if "timestamps_file" in config then config["timestamps_file"] else "timestamps"
  }

  /** Never consulted: a cache with an `objtype` reads its values through it. */
  function Unread(s: string): Instant {
    DateTime(1, 1, 1, 0, 0, 0, 0)
  }

  /**
   * The timestamps cache: reversed, with `Timestamp` as its `objtype`, so a
   * token read from the file goes through the constructor's string branch
   * (the clock is never consulted for a string); the wrapped property
   * already yields a datetime, so converting the computed value changes
   * nothing.
   */
  function TimestampFormat(cacheSeconds: bool): (fmt: Caching.Format<Instant>)
    ensures fmt.reverse && fmt.objtype.Some?
    ensures forall s: string, clock: real -> Instant :: fmt.objtype.value.fromToken(s) == NewTimestamp(Text(s), clock)
  {
    var clock := (t: real) => Unread("");
    Caching.Format(true, Some(Caching.Objtype((s: string) => NewTimestamp(Text(s), clock), (v: Instant) => Ok(v))), Unread, (dt: Instant) => TimestampStr(dt, cacheSeconds))
  }

  /**
   * The timestamps cache as written: a token read from the file goes
   * through the constructor as written (a string never reaches the clock).
   */
  function TimestampFormatAsWritten(cacheSeconds: bool): (fmt: Caching.Format<Instant>)
    ensures fmt.reverse && fmt.objtype.Some?
  {
    var clock := (t: real) => Unread("");
    Caching.Format(true, Some(Caching.Objtype((s: string) => NewTimestampAsWritten(Text(s), clock), (v: Instant) => Ok(v))), Unread, (dt: Instant) => TimestampStr(dt, cacheSeconds))
  }

  /**
   * As written, no cached line reads back: the line `save` would write for
   * an entry fails with the `NameError`, and so does any file holding it.
   */
  lemma CachedLineUnreadable(key: string, dt: Instant, cacheSeconds: bool, lines: seq<string>)
    requires key != [] && NoSpace(key)
    ensures var line := Caching.LineOf(key, dt, TimestampFormatAsWritten(cacheSeconds));
      && Caching.ParseLine(line, TimestampFormatAsWritten(cacheSeconds)) == Err(BasestringError)
      && Caching.LoadLines(lines + [line], TimestampFormatAsWritten(cacheSeconds)).Err?
  {
    var fmt := TimestampFormatAsWritten(cacheSeconds);
    var s := TimestampStr(dt, cacheSeconds);
    StrIsToken(dt, cacheSeconds);
    SplitPair(s, key);
    assert Caching.Reversed([s, key]) == [key, s];
    Caching.LoadLinesSnoc(lines, Caching.LineOf(key, dt, fmt), fmt);
  }

  /**
   * The cached line for an entry is `"{timestamp} {key}"`, and it reads back
   * as the entry's time stamp truncated to what the string form keeps.
   */
  lemma TimestampLine(key: string, dt: Instant, cacheSeconds: bool)
    requires key != [] && NoSpace(key)
    ensures Caching.LineOf(key, dt, TimestampFormat(cacheSeconds)) == TimestampStr(dt, cacheSeconds) + " " + key + "\n"
    ensures Caching.ParseLine(Caching.LineOf(key, dt, TimestampFormat(cacheSeconds)), TimestampFormat(cacheSeconds)) == Ok((key, Truncated(dt, cacheSeconds)))
  {
    var s := TimestampStr(dt, cacheSeconds);
    StrIsToken(dt, cacheSeconds);
    StrRoundTrip(dt, cacheSeconds);
    SplitPair(s, key);
    assert Caching.Reversed([s, key]) == [key, s];
  }

  /** A time stamp survives the cache unchanged exactly when the string form loses nothing of it. */
  lemma TimestampStorable(key: string, dt: Instant, cacheSeconds: bool)
    requires key != [] && NoSpace(key)
    ensures Caching.Storable(key, dt, TimestampFormat(cacheSeconds)) <==> dt == Truncated(dt, cacheSeconds)
  {
    StrIsToken(dt, cacheSeconds);
    StrRoundTrip(dt, cacheSeconds);
  }
}
