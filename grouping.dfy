/**
 * Grouping (`simpleblog/extensions/grouping.py`): on pages of a grouped
 * format, the entries are shown in runs of equal group key (by default the
 * formatted date), each run between a head and a foot.
 */
module Grouping {
  import opened Params

  /** The runs laid end to end. */
  function Flatten<E>(runs: seq<seq<E>>): seq<E> {
    if runs == [] then [] else runs[0] + Flatten(runs[1..])
  }

  /** No run is empty, every entry of a run has the run's key, and neighbouring runs differ. */
  predicate Grouped<E, K(==)>(r: seq<seq<E>>, key: E -> K) {
    && (forall g :: 0 <= g < |r| ==> r[g] != [] && forall i :: 0 <= i < |r[g]| ==> key(r[g][i]) == key(r[g][0]))
    && (forall g :: 0 < g < |r| ==> key(r[g][0]) != key(r[g - 1][0]))
  }

  /**
   * `groupby(entries, key)`: the maximal runs of consecutive entries with
   * equal keys. Together they are the entries, in order; no run is empty,
   * every entry of a run has the run's key, and neighbouring runs differ.
   */
  function Runs<E, K(==)>(entries: seq<E>, key: E -> K): (r: seq<seq<E>>)
    ensures Flatten(r) == entries
    ensures Grouped(r, key)
    ensures entries != [] ==> r != [] && r[0][0] == entries[0]
    decreases |entries|
  {
    if entries == [] then []
    else
      var rest := Runs(entries[1..], key);
      if rest != [] && key(rest[0][0]) == key(entries[0]) then
        JoinFirstRun(entries[0], rest, key);
        [[entries[0]] + rest[0]] + rest[1..]
      else
        NewFirstRun(entries[0], rest, key);
        [[entries[0]]] + rest
  }

  /** An entry with the first run's key joins that run. */
  lemma JoinFirstRun<E, K>(x: E, rest: seq<seq<E>>, key: E -> K)
    requires Grouped(rest, key) && rest != [] && key(rest[0][0]) == key(x)
    ensures Flatten([[x] + rest[0]] + rest[1..]) == [x] + Flatten(rest)
    ensures Grouped([[x] + rest[0]] + rest[1..], key)
  {
    var first := [x] + rest[0];
    FlattenJoin(x, rest);
    UniformCons(x, rest[0], key);
    GroupedTail(rest, key);
    if |rest| > 1 {
      assert key(rest[1][0]) != key(rest[0][0]);
    }
    GroupedCons(first, rest[1..], key);
  }

  /** An entry with a run's key in front of it keeps the run uniform. */
  lemma UniformCons<E, K>(x: E, run: seq<E>, key: E -> K)
    requires run != [] && key(x) == key(run[0])
    requires forall i :: 0 <= i < |run| ==> key(run[i]) == key(run[0])
    ensures forall i :: 0 <= i < |[x] + run| ==> key(([x] + run)[i]) == key(x)
  {
    var first := [x] + run;
    forall i | 0 < i < |first| ensures key(first[i]) == key(x) {
      assert first[i] == run[i - 1];
    }
  }

  /** Joining an entry to the first run lays out the same entries. */
  lemma FlattenJoin<E>(x: E, rest: seq<seq<E>>)
    requires rest != []
    ensures Flatten([[x] + rest[0]] + rest[1..]) == [x] + Flatten(rest)
  {
    assert ([[x] + rest[0]] + rest[1..])[1..] == rest[1..];
    assert Flatten(rest) == rest[0] + Flatten(rest[1..]);
  }

  /** An entry with another key than the first run's starts a run of its own. */
  lemma NewFirstRun<E, K>(x: E, rest: seq<seq<E>>, key: E -> K)
    requires Grouped(rest, key) && (rest != [] ==> key(rest[0][0]) != key(x))
    ensures Flatten([[x]] + rest) == [x] + Flatten(rest)
    ensures Grouped([[x]] + rest, key)
  {
    assert ([[x]] + rest)[1..] == rest;
    GroupedCons([x], rest, key);
  }

  /** Dropping the first run keeps the runs grouped. */
  lemma GroupedTail<E, K>(runs: seq<seq<E>>, key: E -> K)
    requires Grouped(runs, key) && runs != []
    ensures Grouped(runs[1..], key)
  {
    var tail := runs[1..];
    forall g | 0 <= g < |tail| ensures tail[g] == runs[g + 1] {
    }
  }

  /** A uniform run with another key than the next one can go in front of grouped runs. */
  lemma GroupedCons<E, K>(first: seq<E>, tail: seq<seq<E>>, key: E -> K)
    requires first != [] && forall i :: 0 <= i < |first| ==> key(first[i]) == key(first[0])
    requires Grouped(tail, key) && (tail != [] ==> key(tail[0][0]) != key(first[0]))
    ensures Grouped([first] + tail, key)
  {
    var r := [first] + tail;
    forall g | 0 < g < |r| ensures r[g] == tail[g - 1] {
    }
  }

  /** The parameters a run's head and foot templates are filled with. */
  function HeadParams(indexKey: string, groupKey: string, g: nat, k: string): (p: Params)
    ensures groupKey in p && p[groupKey] == Str(k)
    ensures indexKey != groupKey ==> p.Keys == {indexKey, groupKey} && p[indexKey] == Int(g)
  {
    map[indexKey := Int(g), groupKey := Str(k)]
  }

  /** An entry's parameters extended with its run's `groupindex` and `groupkey`. */
  function GroupParams(p: Params, g: nat, k: string): (r: Params)
    ensures r.Keys == p.Keys + {"groupindex", "groupkey"}
    ensures r["groupindex"] == Int(g) && r["groupkey"] == Str(k)
    ensures forall x :: x in p && x != "groupindex" && x != "groupkey" ==> r[x] == p[x]
  {
    p["groupindex" := Int(g)]["groupkey" := Str(k)]
  }

  /** How a page lays out a group: the templates, the entry parameters and the entry formatter. */
  datatype Layout<!E> = Layout(indexKey: string, groupKey: string, key: E -> string,
                               head: Params -> string, foot: Params -> string,
                               entryParams: E -> Params, formatted: (E, Params) -> string)

  /** The formatted entries of run `g`, whose key is `k`. */
  function EntryLines<E>(run: seq<E>, g: nat, k: string, L: Layout<E>): (r: seq<string>)
    ensures |r| == |run|
    ensures forall i :: 0 <= i < |run| ==> r[i] == L.formatted(run[i], GroupParams(L.entryParams(run[i]), g, k))
  {
    seq(|run|, i requires 0 <= i < |run| => L.formatted(run[i], GroupParams(L.entryParams(run[i]), g, k)))
  }

  /** Run `g`: its head, its formatted entries in order, its foot. */
  function Section<E>(run: seq<E>, g: nat, L: Layout<E>): seq<string>
    requires run != []
  {
    var k := L.key(run[0]);
    [L.head(HeadParams(L.indexKey, L.groupKey, g, k))] + EntryLines(run, g, k, L) + [L.foot(HeadParams(L.indexKey, L.groupKey, g, k))]
  }

  /** The sections of the first `n` runs, numbered from 0. */
  function Sections<E>(runs: seq<seq<E>>, n: nat, L: Layout<E>): seq<string>
    requires n <= |runs|
    requires forall g :: 0 <= g < |runs| ==> runs[g] != []
  {
    if n == 0 then [] else Sections(runs, n - 1, L) + Section(runs[n - 1], n - 1, L)
  }

  /** Every run adds its entries and two more lines, a head and a foot. */
  lemma {:induction false} SectionsLength<E>(runs: seq<seq<E>>, n: nat, L: Layout<E>)
    requires n <= |runs|
    requires forall g :: 0 <= g < |runs| ==> runs[g] != []
    ensures |Sections(runs, n, L)| == |Flatten(runs[..n])| + 2 * n
  {
    if n > 0 {
      SectionsLength(runs, n - 1, L);
      assert |Section(runs[n - 1], n - 1, L)| == |runs[n - 1]| + 2;
      FlattenPrefixLength(runs, n);
    }
  }

  /** One more run adds its length to the flattened prefix. */
  lemma FlattenPrefixLength<E>(runs: seq<seq<E>>, n: nat)
    requires 0 < n <= |runs|
    ensures |Flatten(runs[..n])| == |Flatten(runs[..n - 1])| + |runs[n - 1]|
  {
    FlattenSnoc(runs[..n - 1], runs[n - 1]);
    assert runs[..n] == runs[..n - 1] + [runs[n - 1]];
  }

  lemma {:induction false} FlattenSnoc<E>(runs: seq<seq<E>>, x: seq<E>)
    ensures Flatten(runs + [x]) == Flatten(runs) + x
  {
    if runs != [] {
      assert (runs + [x])[1..] == runs[1..] + [x];
      FlattenSnoc(runs[1..], x);
    }
  }

  /** The grouped output of a page: one section per run of its entries. */
  function GroupedOutput<E>(entries: seq<E>, L: Layout<E>): seq<string> {
    var runs := Runs(entries, L.key);
    Sections(runs, |runs|, L)
  }

  /** The output has a line per entry plus a head and a foot per run. */
  lemma GroupedLength<E>(entries: seq<E>, L: Layout<E>)
    ensures |GroupedOutput(entries, L)| == |entries| + 2 * |Runs(entries, L.key)|
  {
    var runs := Runs(entries, L.key);
    SectionsLength(runs, |runs|, L);
    assert runs[..|runs|] == runs;
  }

  /**
   * `_get_format_entries`: for a grouped format the runs of the page's
   * entries, each as head, formatted entries and foot; any other format
   * defers to the page's own generator, given as `ungrouped`.
   */
  method FormatEntries<E>(entries: seq<E>, format: string, groupFormats: set<string>, L: Layout<E>, ungrouped: seq<string>)
    returns (out: seq<string>)
    ensures format in groupFormats ==> out == GroupedOutput(entries, L)
    ensures format !in groupFormats ==> out == ungrouped
  {
    if format !in groupFormats {
      return ungrouped;
    }
    var runs := Runs(entries, L.key);
    out := [];
    for g := 0 to |runs|
      invariant out == Sections(runs, g, L)
    {
      var lines := EmitSection(runs[g], g, L);
      out := out + lines;
    }
  }

  /** One run of `_get_format_entries`: the head, each entry with its group parameters, the foot. */
  method EmitSection<E>(run: seq<E>, g: nat, L: Layout<E>) returns (out: seq<string>)
    requires run != []
    ensures out == Section(run, g, L)
  {
    var k := L.key(run[0]);
    var params := HeadParams(L.indexKey, L.groupKey, g, k);
    out := [L.head(params)];
    for j := 0 to |run|
      invariant out == [L.head(params)] + EntryLines(run[..j], g, k, L)
    {
      var entryparams := GroupParams(L.entryParams(run[j]), g, k);
      assert EntryLines(run[..j + 1], g, k, L) == EntryLines(run[..j], g, k, L) + [L.formatted(run[j], entryparams)];
      out := out + [L.formatted(run[j], entryparams)];
    }
    assert run[..|run|] == run;
    out := out + [L.foot(params)];
  }
}
