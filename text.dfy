/** String operations of Python's `str` type that the blog code relies on,
    written out over `seq<char>`. */
module Text {
  import opened Wrappers

  /** `os.linesep` on the POSIX hosts the generator targets. */
  const Newline: string := "\n"

  predicate StartsWith(s: string, p: string) {
    |p| <= |s| && s[..|p|] == p
  }

  predicate EndsWith(s: string, p: string) {
    |p| <= |s| && s[|s| - |p|..] == p
  }

  /** The characters for which `str.isspace()` is true. */
  predicate IsSpace(c: char) {
    var n := c as int;
    (9 <= n <= 13) || (28 <= n <= 32) || n == 0x85 || n == 0xA0 || n == 0x1680
    || (0x2000 <= n <= 0x200A) || n == 0x2028 || n == 0x2029 || n == 0x202F
    || n == 0x205F || n == 0x3000
  }

  predicate NoSpace(s: string) {
    forall i :: 0 <= i < |s| ==> !IsSpace(s[i])
  }

  // ---------------------------------------------------------------------
  // join and split on a one-character separator

  /** `sep.join(parts)`. */
  function Join(parts: seq<string>, sep: string): string {
    if |parts| == 0 then ""
    else if |parts| == 1 then parts[0]
    else parts[0] + sep + Join(parts[1..], sep)
  }

  lemma {:induction false} JoinSnoc(parts: seq<string>, x: string, sep: string)
    ensures Join(parts + [x], sep) == if parts == [] then x else Join(parts, sep) + sep + x
  {
    if |parts| <= 1 {
    } else {
      assert (parts + [x])[1..] == parts[1..] + [x];
      JoinSnoc(parts[1..], x, sep);
    }
  }

  /** The non-empty strings of `parts`, in order. */
  function NonEmpty(parts: seq<string>): (r: seq<string>)
    ensures forall i :: 0 <= i < |r| ==> r[i] != "" && r[i] in parts
    ensures forall i :: 0 <= i < |parts| && parts[i] != "" ==> parts[i] in r
  {
    if parts == [] then []
    else if parts[0] != "" then [parts[0]] + NonEmpty(parts[1..])
    else NonEmpty(parts[1..])
  }

  /** A join of a list holding a non-empty string is not empty. */
  lemma {:induction false} JoinNonEmpty(parts: seq<string>, sep: string)
    ensures Join(parts, sep) == "" ==> forall i :: 0 <= i < |parts| ==> parts[i] == ""
    decreases |parts|
  {
    if |parts| > 1 {
      JoinNonEmpty(parts[1..], sep);
      assert forall i :: 1 <= i < |parts| ==> parts[i] == parts[1..][i - 1];
    }
  }

  /** `s.split(c)` for a one-character separator: never empty. */
  function SplitOn(s: string, c: char): (r: seq<string>)
    ensures |r| >= 1
    decreases |s|
  {
    if s == [] then [""]
    else if s[0] == c then [""] + SplitOn(s[1..], c)
    else
      var rest := SplitOn(s[1..], c);
      [[s[0]] + rest[0]] + rest[1..]
  }

  /** The pieces of `s.split(c)` never contain `c`, and joining them with `c` gives `s` back. */
  lemma SplitOnJoin(s: string, c: char)
    ensures Join(SplitOn(s, c), [c]) == s
    ensures forall i :: 0 <= i < |SplitOn(s, c)| ==> c !in SplitOn(s, c)[i]
  {
    SplitOnRejoins(s, c);
    SplitOnPieces(s, c);
  }

  lemma {:induction false} SplitOnRejoins(s: string, c: char)
    ensures Join(SplitOn(s, c), [c]) == s
  {
    if s == [] {
    } else if s[0] == c {
      SplitOnRejoins(s[1..], c);
      assert s == [c] + s[1..];
    } else {
      SplitOnRejoins(s[1..], c);
      JoinPrepend([s[0]], SplitOn(s[1..], c), [c]);
      assert [s[0]] + s[1..] == s;
    }
  }

  /** Prefixing the first part prefixes the join. */
  lemma JoinPrepend(x: string, parts: seq<string>, sep: string)
    requires |parts| >= 1
    ensures Join([x + parts[0]] + parts[1..], sep) == x + Join(parts, sep)
  {
    var q := [x + parts[0]] + parts[1..];
    if |parts| > 1 {
      assert q[1..] == parts[1..];
      assert Join(q, sep) == (x + parts[0]) + sep + Join(parts[1..], sep);
    }
  }

  lemma {:induction false} SplitOnPieces(s: string, c: char)
    ensures forall i :: 0 <= i < |SplitOn(s, c)| ==> c !in SplitOn(s, c)[i]
  {
    if s != [] {
      SplitOnPieces(s[1..], c);
      var rest := SplitOn(s[1..], c);
      var r := SplitOn(s, c);
      if s[0] == c {
        assert r == [""] + rest;
        forall i | 0 < i < |r| ensures c !in r[i] {
          assert r[i] == rest[i - 1];
        }
      } else {
        assert r == [[s[0]] + rest[0]] + rest[1..];
        forall i | 0 < i < |r| ensures c !in r[i] {
          assert r[i] == rest[i];
        }
      }
    }
  }

  /** Splitting a join on a separator that no part contains gives the parts back. */
  lemma {:induction false} JoinSplitOn(parts: seq<string>, c: char)
    requires |parts| >= 1
    requires forall i :: 0 <= i < |parts| ==> c !in parts[i]
    ensures SplitOn(Join(parts, [c]), c) == parts
  {
    if |parts| == 1 {
      NoSepSplit(parts[0], c);
    } else {
      JoinSplitOn(parts[1..], c);
      SplitAfterWord(parts[0], Join(parts[1..], [c]), c);
    }
  }

  lemma {:induction false} NoSepSplit(w: string, c: char)
    requires c !in w
    ensures SplitOn(w, c) == [w]
    decreases |w|
  {
    if w != [] {
      NoSepSplit(w[1..], c);
      assert [w[0]] + w[1..] == w;
    }
  }

  lemma {:induction false} SplitAfterWord(w: string, rest: string, c: char)
    requires c !in w
    ensures SplitOn(w + [c] + rest, c) == [w] + SplitOn(rest, c)
    decreases |w|
  {
    if w == [] {
      assert ([c] + rest)[1..] == rest;
    } else {
      assert (w + [c] + rest)[1..] == w[1..] + [c] + rest;
      SplitAfterWord(w[1..], rest, c);
      assert [w[0]] + w[1..] == w;
    }
  }

  // ---------------------------------------------------------------------
  // whitespace splitting and stripping

  /** The longest prefix of `s` without whitespace. */
  function Word(s: string): (w: string)
    ensures |w| <= |s| && w == s[..|w|] && NoSpace(w)
    ensures s != [] && !IsSpace(s[0]) ==> |w| >= 1
    ensures |w| < |s| ==> IsSpace(s[|w|])
  {
    if s == [] || IsSpace(s[0]) then [] else [s[0]] + Word(s[1..])
  }

  /** `s.split()`: the maximal whitespace-free runs of `s`, in order. */
  function Split(s: string): seq<string>
    decreases |s|
  {
    if s == [] then []
    else if IsSpace(s[0]) then Split(s[1..])
    else
      var w := Word(s);
      [w] + Split(s[|w|..])
  }

  lemma {:induction false} SplitAllSpace(s: string)
    requires forall i :: 0 <= i < |s| ==> IsSpace(s[i])
    ensures Split(s) == []
    decreases |s|
  {
    if s != [] { SplitAllSpace(s[1..]); }
  }

  lemma {:induction false} WordOf(w: string, rest: string)
    requires NoSpace(w)
    requires rest == [] || IsSpace(rest[0])
    ensures Word(w + rest) == w
    decreases |w|
  {
    if w == [] {
    } else {
      assert (w + rest)[1..] == w[1..] + rest;
      WordOf(w[1..], rest);
    }
  }

  /** A whitespace-free token followed by a space splits off as the first token. */
  lemma {:induction false} SplitToken(w: string, rest: string)
    requires w != [] && NoSpace(w)
    requires rest == [] || IsSpace(rest[0])
    ensures Split(w + rest) == [w] + Split(rest)
  {
    WordOf(w, rest);
    assert (w + rest)[|w|..] == rest;
  }

  /** The cache line shape: `"a b\n"` splits into exactly `[a, b]`. */
  lemma {:induction false} SplitPair(a: string, b: string)
    requires a != [] && NoSpace(a)
    requires b != [] && NoSpace(b)
    ensures Split(a + " " + b + "\n") == [a, b]
  {
    var tail := b + "\n";
    var rest := " " + tail;
    assert a + " " + b + "\n" == a + rest;
    SplitToken(a, rest);
    SplitSkip(rest);
    assert rest[1..] == tail;
    SplitToken(b, "\n");
    SplitAllSpace("\n");
  }

  /** A token and a space split off the front. */
  lemma SplitSpaced(a: string, tail: string)
    requires a != [] && NoSpace(a)
    ensures Split(a + " " + tail) == [a] + Split(tail)
  {
    var rest := " " + tail;
    assert a + " " + tail == a + rest;
    SplitToken(a, rest);
    SplitSkip(rest);
    assert rest[1..] == tail;
  }

  /** Leading whitespace is skipped. */
  lemma SplitSkip(s: string)
    requires s != [] && IsSpace(s[0])
    ensures Split(s) == Split(s[1..])
  {
  }

  function LStrip(s: string): (r: string)
    ensures |r| <= |s|
    ensures r == [] || !IsSpace(r[0])
  {
    if s != [] && IsSpace(s[0]) then LStrip(s[1..]) else s
  }

  lemma {:induction false} LStripSuffix(s: string)
    ensures LStrip(s) == s[|s| - |LStrip(s)|..]
    decreases |s|
  {
    if s != [] && IsSpace(s[0]) {
      LStripSuffix(s[1..]);
    }
  }

  function RStrip(s: string): (r: string)
    ensures |r| <= |s|
    ensures r == [] || !IsSpace(r[|r| - 1])
  {
    if s != [] && IsSpace(s[|s| - 1]) then RStrip(s[..|s| - 1]) else s
  }

  lemma {:induction false} RStripPrefix(s: string)
    ensures RStrip(s) == s[..|RStrip(s)|]
    decreases |s|
  {
    if s != [] && IsSpace(s[|s| - 1]) {
      RStripPrefix(s[..|s| - 1]);
    }
  }

  /** `s.strip()`. */
  function Strip(s: string): string {
    RStrip(LStrip(s))
  }

  /** A string is its own strip exactly when it has no whitespace at either end. */
  predicate Stripped(s: string) {
    s == [] || (!IsSpace(s[0]) && !IsSpace(s[|s| - 1]))
  }

  lemma StripStripped(s: string)
    ensures Stripped(Strip(s))
    ensures Stripped(s) ==> Strip(s) == s
  {
    var l := LStrip(s);
    var r := RStrip(l);
    RStripPrefix(l);
    assert r == [] || r[0] == l[0];
  }

  /** Stripping only removes characters. */
  lemma StripChars(s: string)
    ensures forall c :: c in Strip(s) ==> c in s
  {
    var l := LStrip(s);
    var r := RStrip(l);
    LStripSuffix(s);
    RStripPrefix(l);
    forall c | c in r ensures c in s {
      var i :| 0 <= i < |r| && r[i] == c;
      assert l[i] == c;
      assert s[|s| - |l| + i] == c;
    }
  }

  // ---------------------------------------------------------------------
  // case

  function LowerChar(c: char): char {
    if 'A' <= c <= 'Z' then (c as int + 32) as char else c
  }

  function UpperChar(c: char): char {
    if 'a' <= c <= 'z' then (c as int - 32) as char else c
  }

  /** `s.lower()` on ASCII letters. */
  function Lower(s: string): (r: string)
    ensures |r| == |s|
    ensures forall i :: 0 <= i < |s| ==> r[i] == LowerChar(s[i])
  {
    if s == [] then [] else [LowerChar(s[0])] + Lower(s[1..])
  }

  /** `s.capitalize()` on ASCII letters. */
  function Capitalize(s: string): (r: string)
    ensures |r| == |s|
    ensures |s| > 0 ==> r[0] == UpperChar(s[0]) && r[1..] == Lower(s[1..])
  {
    if s == [] then [] else [UpperChar(s[0])] + Lower(s[1..])
  }

  /** `s.replace(a, b)` for single characters. */
  function ReplaceChar(s: string, a: char, b: char): (r: string)
    ensures |r| == |s|
    ensures forall i :: 0 <= i < |s| ==> r[i] == if s[i] == a then b else s[i]
  {
    if s == [] then [] else [if s[0] == a then b else s[0]] + ReplaceChar(s[1..], a, b)
  }

  // ---------------------------------------------------------------------
  // searching

  /** `p` occurs in `s` starting at index `j`. */
  predicate OccursAt(s: string, p: string, j: nat) {
    j + |p| <= |s| && s[j..j + |p|] == p
  }

  lemma ShiftOccurs(s: string, p: string)
    requires s != []
    ensures forall j: nat :: 1 <= j ==> (OccursAt(s, p, j) <==> OccursAt(s[1..], p, j - 1))
  {
    forall j: nat | 1 <= j
      ensures OccursAt(s, p, j) <==> OccursAt(s[1..], p, j - 1)
    {
      if j + |p| <= |s| {
        assert s[j..j + |p|] == s[1..][j - 1..j - 1 + |p|];
      }
    }
  }

  /** The index of the first occurrence of `p` in `s`, as `str.find` gives it. */
  function IndexOf(s: string, p: string): (r: Option<nat>)
    ensures r.Some? ==> OccursAt(s, p, r.value)
    ensures r.Some? ==> forall j: nat :: j < r.value ==> !OccursAt(s, p, j)
    ensures r.None? ==> forall j: nat :: !OccursAt(s, p, j)
    decreases |s|
  {
    if |p| > |s| then None
    else if s[..|p|] == p then Some(0)
    else
      ShiftOccurs(s, p);
      match IndexOf(s[1..], p)
      case None => None
      case Some(i) => Some(i + 1)
  }

  /** `p in s`. */
  predicate Contains(s: string, p: string) {
    IndexOf(s, p).Some?
  }

  /** What `s.split(p, 1)` raises for an empty `p`, which every string contains. */
  const EmptySeparatorError := "ValueError: empty separator"

  /** `s.split(p, 1)` when `p` occurs: the text before and after its first occurrence. */
  function SplitOnce(s: string, p: string): (r: Option<(string, string)>)
    ensures r.Some? <==> Contains(s, p)
    ensures r.Some? ==> s == r.value.0 + p + r.value.1
    ensures r.Some? ==> forall j: nat :: j < |r.value.0| ==> !OccursAt(s, p, j)
  {
    match IndexOf(s, p)
    case None => None
    case Some(i) =>
      assert s == s[..i] + s[i..i + |p|] + s[i + |p|..];
      Some((s[..i], s[i + |p|..]))
  }

  /** Splitting at the first occurrence of `p` takes apart what was put together around it. */
  lemma SplitOnceOf(a: string, p: string, b: string)
    requires forall j: nat :: j < |a| ==> !OccursAt(a + p + b, p, j)
    ensures SplitOnce(a + p + b, p) == Some((a, b))
  {
    var s := a + p + b;
    assert s[|a|..|a| + |p|] == p;
    assert OccursAt(s, p, |a|);
    var i := IndexOf(s, p).value;
    assert i == |a|;
    assert s[..i] == a;
    assert s[i + |p|..] == b;
  }

  /** For a one-character separator the condition is that the first part does not hold it. */
  lemma SplitOnceOfChar(a: string, c: char, b: string)
    requires c !in a
    ensures SplitOnce(a + [c] + b, [c]) == Some((a, b))
  {
    forall j: nat | j < |a| ensures !OccursAt(a + [c] + b, [c], j) {
      assert (a + [c] + b)[j] == a[j];
    }
    SplitOnceOf(a, [c], b);
  }

  // ---------------------------------------------------------------------
  // decimal numbers

  function DigitChar(d: nat): char
    requires d < 10
  {
    ('0' as int + d) as char
  }

  predicate IsDigit(c: char) {
    '0' <= c <= '9'
  }

  /** `str(n)` for a non-negative integer. */
  function NatStr(n: nat): (s: string)
    ensures |s| >= 1
    ensures forall i :: 0 <= i < |s| ==> IsDigit(s[i])
    decreases n
  {
    if n < 10 then [DigitChar(n)] else NatStr(n / 10) + [DigitChar(n % 10)]
  }

  /** `str(i)` for any integer. */
  function IntStr(i: int): string {
    if i < 0 then "-" + NatStr(-i) else NatStr(i)
  }

  /** `s.rjust(2, '0')`. */
  function Pad2(s: string): (r: string)
    ensures |r| == if |s| >= 2 then |s| else 2
  {
    if |s| >= 2 then s else seq(2 - |s|, _ => '0') + s
  }

  /** `'{:02d}'.format(n)` for a non-negative integer. */
  function Fmt02(n: nat): (s: string)
    ensures n < 100 ==> |s| == 2
    ensures forall i :: 0 <= i < |s| ==> IsDigit(s[i])
  {
    var d := NatStr(n);
    assert n >= 10 ==> |NatStr(n / 10)| >= 1;
    assert n >= 100 ==> n / 10 >= 10;
    Pad2(d)
  }

  /** The value of a non-empty string of decimal digits. */
  function DigitsValue(s: string): nat
    requires forall i :: 0 <= i < |s| ==> IsDigit(s[i])
  {
    if s == [] then 0
    else
      assert IsDigit(s[|s| - 1]);
      DigitsValue(s[..|s| - 1]) * 10 + (s[|s| - 1] as int - '0' as int)
  }

  /** A digit-only, non-empty string read as a number. */
  function ParseNat(s: string): Option<nat> {
    if s != [] && forall i :: 0 <= i < |s| ==> IsDigit(s[i]) then Some(DigitsValue(s)) else None
  }

  /** `int(s)` for a decimal literal with optional sign and surrounding whitespace. */
  function ParseInt(s: string): Option<int> {
    var t := Strip(s);
    if t != [] && t[0] == '-' then
      match ParseNat(t[1..]) case Some(n) => Some(0 - n) case None => None
    else if t != [] && t[0] == '+' then
      match ParseNat(t[1..]) case Some(n) => Some(n) case None => None
    else
      match ParseNat(t) case Some(n) => Some(n) case None => None
  }

  /** Reading back what `str(n)` wrote gives `n`. */
  lemma {:induction false} NatStrRoundTrip(n: nat)
    ensures ParseNat(NatStr(n)) == Some(n)
    ensures DigitsValue(NatStr(n)) == n
    decreases n
  {
    if n >= 10 {
      NatStrRoundTrip(n / 10);
      var s := NatStr(n);
      assert s[..|s| - 1] == NatStr(n / 10);
      assert s[|s| - 1] as int - '0' as int == n % 10;
      assert DigitsValue(s) == n;
    }
  }

  lemma {:induction false} LeadingZero(s: string)
    requires forall i :: 0 <= i < |s| ==> IsDigit(s[i])
    ensures DigitsValue("0" + s) == DigitsValue(s)
    decreases |s|
  {
    if s != [] {
      assert ("0" + s)[..|"0" + s| - 1] == "0" + s[..|s| - 1];
      LeadingZero(s[..|s| - 1]);
    }
  }

  /** Reading back a two-digit zero-padded number gives the number. */
  lemma Fmt02RoundTrip(n: nat)
    ensures ParseNat(Fmt02(n)) == Some(n)
  {
    NatStrRoundTrip(n);
    var d := NatStr(n);
    if |d| < 2 {
      assert Pad2(d) == "0" + d;
      LeadingZero(d);
    }
  }

  lemma PlainIntIsNat(s: string)
    requires s != [] && forall i :: 0 <= i < |s| ==> IsDigit(s[i])
    ensures ParseInt(s) == Some(DigitsValue(s) as int)
  {
    assert IsDigit(s[0]) && IsDigit(s[|s| - 1]);
    assert Stripped(s);
    StripStripped(s);
    assert s[0] != '-' && s[0] != '+';
    assert ParseNat(s) == Some(DigitsValue(s));
  }

  // ---------------------------------------------------------------------
  // filtering characters

  /** The characters of `s` for which `keep` holds, in order. */
  function FilterChars(s: string, keep: char -> bool): (r: string)
    ensures |r| <= |s|
    ensures forall i :: 0 <= i < |r| ==> keep(r[i])
  {
    if s == [] then []
    else if keep(s[0]) then [s[0]] + FilterChars(s[1..], keep)
    else FilterChars(s[1..], keep)
  }

  // ---------------------------------------------------------------------
  // POSIX paths

  /** `os.path.join(a, b)`: an absolute `b` replaces `a`; otherwise one `/` between them. */
  function PathJoin(a: string, b: string): (r: string)
    ensures StartsWith(b, "/") ==> r == b
    ensures !StartsWith(b, "/") ==> EndsWith(r, b) && StartsWith(r, a)
    ensures !StartsWith(b, "/") && a != [] ==> |r| > |b| && r[|r| - |b| - 1] == '/'
  {
    if StartsWith(b, "/") then b
    else if a == [] || EndsWith(a, "/") then a + b
    else a + "/" + b
  }

  /** `p.rfind('/') + 1`: the position just after the last `/`, 0 when there is none. */
  function AfterLastSlash(p: string): (i: nat)
    ensures i <= |p|
    ensures '/' !in p[i..]
    ensures i > 0 ==> p[i - 1] == '/'
  {
    if p == [] then 0
    else if p[|p| - 1] == '/' then |p|
    else
      var i := AfterLastSlash(p[..|p| - 1]);
      assert p[i..] == p[..|p| - 1][i..] + [p[|p| - 1]];
      i
  }

  lemma {:induction false} AfterSlashOf(a: string, b: string)
    requires '/' !in b
    ensures AfterLastSlash(a + "/" + b) == |a| + 1
    decreases |b|
  {
    var p := a + "/" + b;
    if b != [] {
      assert p[|p| - 1] == b[|b| - 1];
      assert p[..|p| - 1] == a + "/" + b[..|b| - 1];
      AfterSlashOf(a, b[..|b| - 1]);
    }
  }

  /** `s.rstrip('/')`. */
  function RStripSlashes(s: string): (r: string)
    ensures |r| <= |s| && r == s[..|r|]
    ensures r == [] || r[|r| - 1] != '/'
    ensures forall j :: |r| <= j < |s| ==> s[j] == '/'
  {
    if s != [] && s[|s| - 1] == '/' then RStripSlashes(s[..|s| - 1]) else s
  }

  /**
   * `os.path.split(p)`: the part after the last `/`, and the part before
   * it with its trailing slashes removed (unless it is only slashes).
   */
  function PathSplit(p: string): (r: (string, string))
    ensures '/' !in r.1 && EndsWith(p, r.1)
    ensures StartsWith(p, r.0)
  {
    var i := AfterLastSlash(p);
    var head := p[..i];
    var h := if head != [] && exists j :: 0 <= j < |head| && head[j] != '/' then RStripSlashes(head) else head;
    assert p[..|h|] == h;
    (h, p[i..])
  }

  /** Splitting a path joined from a directory and a base name gives the two back. */
  lemma PathSplitJoin(dir: string, base: string)
    requires dir != [] && dir[|dir| - 1] != '/'
    requires '/' !in base
    ensures PathSplit(PathJoin(dir, base)) == (dir, base)
  {
    assert !StartsWith(base, "/") by {
      if base != [] { assert base[0] in base; }
    }
    assert !EndsWith(dir, "/");
    var p := dir + "/" + base;
    assert PathJoin(dir, base) == p;
    AfterSlashOf(dir, base);
    assert p[..|dir| + 1] == dir + "/";
    assert (dir + "/")[|dir| - 1] != '/';
    assert RStripSlashes(dir + "/") == RStripSlashes(dir);
    assert p[|dir| + 1..] == base;
  }

  /** A name without a slash splits into the empty directory and itself. */
  lemma PathSplitBase(base: string)
    requires '/' !in base
    ensures PathSplit(base) == ("", base)
  {
    var i := AfterLastSlash(base);
    assert forall j :: 0 <= j < |base| ==> base[j] != '/';
    assert base[0..] == base;
  }
}
