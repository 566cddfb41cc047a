/** Python's ordering of tuples and strings, and `sorted` with a key. */
module Order {

  // ---------------------------------------------------------------------
  // lexicographic order on integer tuples (Python tuple comparison)

  /** `a < b` for Python tuples of integers. */
  predicate LexLt(a: seq<int>, b: seq<int>) {
    if a == [] then b != []
    else if b == [] then false
    else if a[0] != b[0] then a[0] < b[0]
    else LexLt(a[1..], b[1..])
  }

  lemma {:induction false} LexIrreflexive(a: seq<int>)
    ensures !LexLt(a, a)
    decreases |a|
  {
    if a != [] { LexIrreflexive(a[1..]); }
  }

  lemma {:induction false} LexTransitive(a: seq<int>, b: seq<int>, c: seq<int>)
    requires LexLt(a, b) && LexLt(b, c)
    ensures LexLt(a, c)
    decreases |a|
  {
    if a != [] && b != [] && c != [] && a[0] == b[0] && b[0] == c[0] {
      LexTransitive(a[1..], b[1..], c[1..]);
    }
  }

  /** Any two distinct tuples are ordered one way or the other. */
  lemma {:induction false} LexTotal(a: seq<int>, b: seq<int>)
    ensures a == b || LexLt(a, b) || LexLt(b, a)
    decreases |a|
  {
    if a != [] && b != [] && a[0] == b[0] {
      LexTotal(a[1..], b[1..]);
      if a[1..] == b[1..] {
        assert a == [a[0]] + a[1..] && b == [b[0]] + b[1..];
      }
    }
  }

  lemma LexAsymmetric(a: seq<int>, b: seq<int>)
    requires LexLt(a, b)
    ensures !LexLt(b, a)
  {
    if LexLt(b, a) {
      LexTransitive(a, b, a);
      LexIrreflexive(a);
    }
  }

  // ---------------------------------------------------------------------
  // strings compare by code points

  function StrKey(s: string): (k: seq<int>)
    ensures |k| == |s|
    ensures forall i :: 0 <= i < |s| ==> k[i] == s[i] as int
  {
    seq(|s|, i requires 0 <= i < |s| => s[i] as int)
  }

  lemma StrKeyInjective(a: string, b: string)
    requires StrKey(a) == StrKey(b)
    ensures a == b
  {
    assert |a| == |b|;
    forall i | 0 <= i < |a| ensures a[i] == b[i] {
      assert StrKey(a)[i] == StrKey(b)[i];
    }
  }

  /** Python's `a < b` on strings. */
  predicate StrLt(a: string, b: string) {
    LexLt(StrKey(a), StrKey(b))
  }

  lemma StrTotal(a: string, b: string)
    ensures a == b || StrLt(a, b) || StrLt(b, a)
  {
    LexTotal(StrKey(a), StrKey(b));
    if StrKey(a) == StrKey(b) { StrKeyInjective(a, b); }
  }

  // ---------------------------------------------------------------------
  // sorted(xs, key=key, reverse=desc)

  /** `x` must be placed strictly before `y` in the requested direction. */
  predicate Before(x: seq<int>, y: seq<int>, desc: bool) {
    if desc then LexLt(y, x) else LexLt(x, y)
  }

  lemma BeforeTransitive(x: seq<int>, y: seq<int>, z: seq<int>, desc: bool)
    requires Before(x, y, desc) && Before(y, z, desc)
    ensures Before(x, z, desc)
  {
    if desc { LexTransitive(z, y, x); } else { LexTransitive(x, y, z); }
  }

  lemma BeforeAsymmetric(x: seq<int>, y: seq<int>, desc: bool)
    requires Before(x, y, desc)
    ensures !Before(y, x, desc)
  {
    if desc { LexAsymmetric(y, x); } else { LexAsymmetric(x, y); }
  }

  /** No element is followed by one that should come strictly before it. */
  predicate SortedBy<T>(s: seq<T>, key: T -> seq<int>, desc: bool) {
    forall i, j :: 0 <= i < j < |s| ==> !Before(key(s[j]), key(s[i]), desc)
  }

  /** Insert `x` after every element it does not strictly precede. */
  function Insert<T>(x: T, s: seq<T>, key: T -> seq<int>, desc: bool): (r: seq<T>)
    ensures multiset(r) == multiset(s) + multiset{x}
    ensures |r| == |s| + 1
  {
    if s == [] then [x]
    else if Before(key(x), key(s[0]), desc) then [x] + s
    else
      assert s == [s[0]] + s[1..];
      [s[0]] + Insert(x, s[1..], key, desc)
  }

  lemma {:induction false} InsertSorted<T>(x: T, s: seq<T>, key: T -> seq<int>, desc: bool)
    requires SortedBy(s, key, desc)
    ensures SortedBy(Insert(x, s, key, desc), key, desc)
    decreases |s|
  {
    var r := Insert(x, s, key, desc);
    if s == [] {
    } else if Before(key(x), key(s[0]), desc) {
      forall i, j | 0 <= i < j < |r| ensures !Before(key(r[j]), key(r[i]), desc) {
        if i == 0 {
          assert r[j] == s[j - 1];
          if Before(key(r[j]), key(x), desc) {
            BeforeTransitive(key(r[j]), key(x), key(s[0]), desc);
            if j == 1 { BeforeAsymmetric(key(s[0]), key(s[0]), desc); }
          }
        } else {
          assert r[i] == s[i - 1] && r[j] == s[j - 1];
        }
      }
    } else {
      InsertSorted(x, s[1..], key, desc);
      var t := Insert(x, s[1..], key, desc);
      assert r == [s[0]] + t;
      forall i, j | 0 <= i < j < |r| ensures !Before(key(r[j]), key(r[i]), desc) {
        if i == 0 {
          assert r[j] in multiset(t);
          assert r[j] in multiset(s[1..]) + multiset{x};
          if r[j] != x {
            assert r[j] in s[1..];
            var k :| 0 <= k < |s[1..]| && s[1..][k] == r[j];
            assert s[k + 1] == r[j];
          }
        } else {
          assert r[i] == t[i - 1] && r[j] == t[j - 1];
        }
      }
    }
  }

  /** Python's stable `sorted(s, key=key, reverse=desc)`. */
  function SortBy<T>(s: seq<T>, key: T -> seq<int>, desc: bool): (r: seq<T>)
    ensures multiset(r) == multiset(s)
    ensures |r| == |s|
  {
    if s == [] then []
    else
      assert s == s[..|s| - 1] + [s[|s| - 1]];
      Insert(s[|s| - 1], SortBy(s[..|s| - 1], key, desc), key, desc)
  }

  /** The result of `SortBy` is sorted in the requested direction. */
  lemma {:induction false} SortBySorted<T>(s: seq<T>, key: T -> seq<int>, desc: bool)
    ensures SortedBy(SortBy(s, key, desc), key, desc)
    decreases |s|
  {
    if s != [] {
      SortBySorted(s[..|s| - 1], key, desc);
      InsertSorted(s[|s| - 1], SortBy(s[..|s| - 1], key, desc), key, desc);
    }
  }

  // ---------------------------------------------------------------------
  // sorted(a_set_of_strings)

  predicate IsMin(m: string, s: set<string>) {
    m in s && forall x :: x in s ==> !StrLt(x, m)
  }

  lemma {:induction false} MinExists(s: set<string>)
    requires s != {}
    ensures exists m :: IsMin(m, s)
    decreases |s|
  {
    var y :| y in s;
    if s - {y} == {} {
      assert s == {y};
      LexIrreflexive(StrKey(y));
      assert IsMin(y, s);
    } else {
      MinExists(s - {y});
      var m :| IsMin(m, s - {y});
      StrTotal(y, m);
      if StrLt(y, m) {
        forall x | x in s ensures !StrLt(x, y) {
          if x != y && StrLt(x, y) {
            assert x in s - {y};
            LexTransitive(StrKey(x), StrKey(y), StrKey(m));
          }
          if x == y { LexIrreflexive(StrKey(y)); }
        }
        assert IsMin(y, s);
      } else {
        assert IsMin(m, s);
      }
    }
  }

  lemma MinUnique(m1: string, m2: string, s: set<string>)
    requires IsMin(m1, s) && IsMin(m2, s)
    ensures m1 == m2
  {
    StrTotal(m1, m2);
  }

  /** `sorted(s)` for a set of strings: ascending, each member once. */
  function SortedStrings(s: set<string>): (r: seq<string>)
    ensures |r| == |s|
    ensures forall x :: x in s <==> x in r
    ensures forall i, j :: 0 <= i < j < |r| ==> StrLt(r[i], r[j])
    decreases |s|
  {
    if s == {} then []
    else
      MinExists(s);
      assert forall m1, m2 :: IsMin(m1, s) && IsMin(m2, s) ==> m1 == m2 by {
        forall m1, m2 | IsMin(m1, s) && IsMin(m2, s) ensures m1 == m2 { MinUnique(m1, m2, s); }
      }
      var m :| IsMin(m, s);
      var rest := SortedStrings(s - {m});
      SortedCons(m, s, rest);
      [m] + rest
  }

  /** The least member in front of the sorted others sorts the whole set. */
  lemma SortedCons(m: string, s: set<string>, rest: seq<string>)
    requires IsMin(m, s) && |rest| == |s - {m}|
    requires forall x :: x in s - {m} <==> x in rest
    requires forall i, j :: 0 <= i < j < |rest| ==> StrLt(rest[i], rest[j])
    ensures |[m] + rest| == |s|
    ensures forall x :: x in s <==> x in [m] + rest
    ensures forall i, j :: 0 <= i < j < |[m] + rest| ==> StrLt(([m] + rest)[i], ([m] + rest)[j])
  {
    var r := [m] + rest;
    forall j | 0 <= j < |rest| ensures StrLt(m, rest[j]) {
      assert rest[j] in s - {m};
      StrTotal(m, rest[j]);
    }
    forall i, j | 0 <= i < j < |r| ensures StrLt(r[i], r[j]) {
      if i > 0 {
        assert r[i] == rest[i - 1] && r[j] == rest[j - 1];
      }
    }
  }
}
