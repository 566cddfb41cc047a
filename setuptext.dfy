/**
 * The text helpers of `setuputils.py`: RST underlines, the Markdown to RST
 * conversion of `### ` headings, the slice of a README that becomes the
 * long description, and the lines `MANIFEST.in` gets for package data,
 * data files and scripts.
 */
module SetupText {
  import opened Wrappers
  import opened Text
  import opened Core
  import Named

  // ---------------------------------------------------------------------
  // underline

  /** `u * n`: the string `u` repeated `n` times. */
  function Times(u: string, n: nat): (r: string)
    ensures |u| == 1 ==> |r| == n && forall i :: 0 <= i < n ==> r[i] == u[0]
  {
    if n == 0 then "" else u + Times(u, n - 1)
  }

  /** The line without one trailing newline. */
  function Chomp(line: string): (r: string)
    ensures EndsWith(line, "\n") ==> line == r + "\n"
    ensures !EndsWith(line, "\n") ==> r == line
  {
    if EndsWith(line, "\n") then line[..|line| - 1] else line
  }

  /**
   * `underline(line, u)`: `u` once per character of the line (one trailing
   * newline not counted), then a newline.
   */
  function Underline(line: string, u: string): (r: string)
    ensures |u| == 1 && EndsWith(line, "\n") ==> |r| == |line|
    ensures |u| == 1 && !EndsWith(line, "\n") ==> |r| == |line| + 1
    ensures EndsWith(r, "\n")
    ensures |u| == 1 ==> forall i :: 0 <= i < |r| - 1 ==> r[i] == u[0]
  {
    var n := |Chomp(line)|;
    var r := Times(u, n) + "\n";
    assert r[..|r| - 1] == Times(u, n);
    r
  }

  /** A trailing newline does not change the underline; a second one does count. */
  lemma UnderlineNewline(line: string, u: string)
    ensures Underline(line + "\n", u) == Underline(line, u) || EndsWith(line, "\n")
    ensures Underline(line + "\n", u) == Times(u, |line|) + "\n"
  {
    var l := line + "\n";
    assert EndsWith(l, "\n");
    assert Chomp(l) == line;
  }

  // ---------------------------------------------------------------------
  // splitlines

  /**
   * `s.splitlines()` for text whose only line boundary is `\n`: the lines
   * without their newlines; a final newline does not start another line.
   */
  function SplitLines(s: string): (r: seq<string>)
    ensures forall i :: 0 <= i < |r| ==> '\n' !in r[i]
  {
    SplitOnJoin(s, '\n');
    if s == "" then []
    else
      var parts := SplitOn(s, '\n');
      if parts[|parts| - 1] == "" then parts[..|parts| - 1] else parts
  }

  /** Each line with a newline after it, concatenated. */
  function Terminated(lines: seq<string>): string {
    if lines == [] then "" else lines[0] + "\n" + Terminated(lines[1..])
  }

  lemma {:induction false} TerminatedJoin(lines: seq<string>)
    requires lines != []
    ensures Terminated(lines) == Join(lines, "\n") + "\n"
    decreases |lines|
  {
    if |lines| > 1 {
      TerminatedJoin(lines[1..]);
    }
  }

  lemma {:induction false} JoinDropLast(parts: seq<string>)
    requires |parts| >= 2 && parts[|parts| - 1] == ""
    ensures Join(parts, "\n") == Join(parts[..|parts| - 1], "\n") + "\n"
  {
    var init := parts[..|parts| - 1];
    JoinSnoc(init, "", "\n");
    assert init + [""] == parts;
  }

  /**
   * The lines read back: each followed by a newline they give the text,
   * with a newline added when the text did not end with one.
   */
  lemma SplitLinesTerminated(s: string)
    ensures Terminated(SplitLines(s)) == if s == "" || EndsWith(s, "\n") then s else s + "\n"
  {
    if s != "" {
      var parts := SplitOn(s, '\n');
      SplitOnJoin(s, '\n');
      assert |parts| == 1 ==> parts[0] == s;
      if parts[|parts| - 1] == "" {
        JoinDropLast(parts);
        TerminatedJoin(parts[..|parts| - 1]);
        assert EndsWith(s, "\n");
      } else {
        TerminatedJoin(parts);
        var last := parts[|parts| - 1];
        assert !EndsWith(s, "\n") by {
          if |parts| == 1 {
            assert s == last;
          } else {
            JoinSnoc(parts[..|parts| - 1], last, "\n");
            assert parts[..|parts| - 1] + [last] == parts;
          }
          assert EndsWith(s, last);
          assert '\n' !in last;
          assert s[|s| - 1] == last[|last| - 1];
        }
      }
    }
  }

  // ---------------------------------------------------------------------
  // Markdown to RST

  const H3Prefix: string := "### "

  /** `_rst_header_lines`: the formatted template's lines, each with a newline; none without a template. */
  function HeaderLines(template: string, formatted: string): (r: seq<string>)
    ensures template == "" ==> r == []
    ensures template != "" ==> Terminated(SplitLines(formatted)) == Concat(r)
  {
    if template == "" then []
    else
      var lines := SplitLines(formatted);
      TerminatedConcat(lines);
      seq(|lines|, i requires 0 <= i < |lines| => lines[i] + "\n")
  }

  /** `"".join(lines)`. */
  function Concat(lines: seq<string>): string {
    if lines == [] then "" else lines[0] + Concat(lines[1..])
  }

  lemma {:induction false} TerminatedConcat(lines: seq<string>)
    ensures Terminated(lines) == Concat(seq(|lines|, i requires 0 <= i < |lines| => lines[i] + "\n"))
    decreases |lines|
  {
    if lines != [] {
      TerminatedConcat(lines[1..]);
      var t := seq(|lines|, i requires 0 <= i < |lines| => lines[i] + "\n");
      assert t[1..] == seq(|lines[1..]|, i requires 0 <= i < |lines[1..]| => lines[1..][i] + "\n");
    }
  }

  /** What one Markdown line becomes: a heading loses `### ` and gains an underline; other lines stay. */
  function RstOfLine(line: string): (r: seq<string>)
    ensures StartsWith(line, H3Prefix) ==> r == [line[|H3Prefix|..], Underline(line[|H3Prefix|..], "~")]
    ensures !StartsWith(line, H3Prefix) ==> r == [line]
  {
    if StartsWith(line, H3Prefix) then
      var title := line[|H3Prefix|..];
      [title, Underline(title, "~")]
    else [line]
  }

  /** The Markdown lines converted one by one. */
  function RstOfLines(lines: seq<string>): seq<string> {
    if lines == [] then [] else RstOfLines(lines[..|lines| - 1]) + RstOfLine(lines[|lines| - 1])
  }

  /** The conversion works line by line: converting two pieces is converting the whole. */
  lemma {:induction false} RstOfLinesAppend(a: seq<string>, b: seq<string>)
    ensures RstOfLines(a + b) == RstOfLines(a) + RstOfLines(b)
    decreases |b|
  {
    if b == [] {
      assert a + b == a;
    } else {
      var init := b[..|b| - 1];
      assert (a + b)[..|a + b| - 1] == a + init;
      RstOfLinesAppend(a, init);
    }
  }

  /** How many of the lines are `### ` headings. */
  function Headings(lines: seq<string>): nat {
    if lines == [] then 0
    else Headings(lines[..|lines| - 1]) + (if StartsWith(lines[|lines| - 1], H3Prefix) then 1 else 0)
  }

  /** Every heading adds one line, its underline; nothing else is added or lost. */
  lemma {:induction false} RstOfLinesLength(lines: seq<string>)
    ensures |RstOfLines(lines)| == |lines| + Headings(lines)
    decreases |lines|
  {
    if lines != [] {
      RstOfLinesLength(lines[..|lines| - 1]);
    }
  }

  /** Text without headings is copied unchanged. */
  lemma {:induction false} RstOfPlainLines(lines: seq<string>)
    requires forall i :: 0 <= i < |lines| ==> !StartsWith(lines[i], H3Prefix)
    ensures RstOfLines(lines) == lines
    decreases |lines|
  {
    if lines != [] {
      RstOfPlainLines(lines[..|lines| - 1]);
      assert lines[..|lines| - 1] + [lines[|lines| - 1]] == lines;
    }
  }

  /** A heading `### T` with a newline becomes `T` and an underline as long as `T`. */
  lemma HeadingUnderlined(title: string)
    ensures RstOfLine(H3Prefix + title + "\n") == [title + "\n", Times("~", |title|) + "\n"]
  {
    var line := H3Prefix + (title + "\n");
    assert line == H3Prefix + title + "\n";
    assert line[..|H3Prefix|] == H3Prefix;
    assert line[|H3Prefix|..] == title + "\n";
    UnderlineNewline(title, "~");
  }

  /** The index `islice` starts at: `None` is 0, a start past the end is the end. */
  function SliceStart(n: nat, start: Option<int>): nat
    requires start.None? || start.value >= 0
  {
    if start.None? then 0 else if start.value > n then n else start.value
  }

  /**
   * `_rst_from_md` on the lines of `basename.md`: the header lines, then the
   * lines from `startline` on, each heading followed by its underline. A
   * negative `startline` makes `islice` raise `ValueError`.
   */
  method RstFromMd(template: string, formatted: string, lines: seq<string>, startline: Option<int>)
    returns (r: Result<seq<string>>)
    ensures r.Ok? <==> startline.None? || startline.value >= 0
    ensures r.Ok? ==> r.value == HeaderLines(template, formatted) + RstOfLines(lines[SliceStart(|lines|, startline)..])
  {
    if startline.Some? && startline.value < 0 {
      return Err("ValueError: Indices for islice() must be None or an integer: 0 <= x <= sys.maxsize.");
    }
    var outlines := HeaderLines(template, formatted);
    outlines := AppendAllRst(outlines, lines, SliceStart(|lines|, startline));
    return Ok(outlines);
  }

  /** The loop of `_rst_from_md`: every line from `start` on converted and appended. */
  method AppendAllRst(outlines: seq<string>, lines: seq<string>, start: nat) returns (r: seq<string>)
    requires start <= |lines|
    ensures r == outlines + RstOfLines(lines[start..])
  {
    var rest := lines[start..];
    r := outlines;
    for i := 0 to |rest|
      invariant r == outlines + RstOfLines(rest[..i])
    {
      RstOfLinesNext(rest, i);
      r := AppendRst(r, rest[i]);
    }
    assert rest[..|rest|] == rest;
  }

  /** Converting one more line appends what that line becomes. */
  lemma RstOfLinesNext(lines: seq<string>, i: nat)
    requires i < |lines|
    ensures RstOfLines(lines[..i + 1]) == RstOfLines(lines[..i]) + RstOfLine(lines[i])
  {
    assert lines[..i + 1][..i] == lines[..i];
  }

  /** One pass of the loop of `_rst_from_md`: the line, without `### `, and the underline of a heading. */
  method AppendRst(outlines: seq<string>, line: string) returns (r: seq<string>)
    ensures r == outlines + RstOfLine(line)
  {
    var isH3 := StartsWith(line, H3Prefix);
    var text := line;
    if isH3 {
      text := line[|H3Prefix|..];
    }
    r := outlines + [text];
    if isH3 {
      r := r + [Underline(text, "~")];
    }
  }

  // ---------------------------------------------------------------------
  // long_description

  /** `dropwhile(lambda line: not line.startswith(spec), lines)`. */
  function DropUntil(lines: seq<string>, spec: string): (r: seq<string>)
    ensures |r| <= |lines| && r == lines[|lines| - |r|..]
    ensures r == [] || StartsWith(r[0], spec)
    ensures forall i :: 0 <= i < |lines| - |r| ==> !StartsWith(lines[i], spec)
  {
    if lines == [] then []
    else if StartsWith(lines[0], spec) then lines
    else
      var r := DropUntil(lines[1..], spec);
      assert lines[1..][|lines[1..]| - |r|..] == lines[|lines| - |r|..];
      r
  }

  /** `takewhile(lambda line: not line.startswith(spec), lines)`. */
  function TakeUntil(lines: seq<string>, spec: string): (r: seq<string>)
    ensures |r| <= |lines| && r == lines[..|r|]
    ensures forall i :: 0 <= i < |r| ==> !StartsWith(r[i], spec)
    ensures |r| < |lines| ==> StartsWith(lines[|r|], spec)
  {
    if lines == [] || StartsWith(lines[0], spec) then []
    else [lines[0]] + TakeUntil(lines[1..], spec)
  }

  /** `islice(lines, start, stop)` with both bounds valid. */
  function Slice(lines: seq<string>, start: Option<int>, stop: Option<int>): (r: seq<string>)
    requires start.None? || start.value >= 0
    requires stop.None? || stop.value >= 0
    ensures SliceStart(|lines|, start) + |r| <= |lines| && r == lines[SliceStart(|lines|, start)..SliceStart(|lines|, start) + |r|]
    ensures stop.None? ==> r == lines[SliceStart(|lines|, start)..]
    ensures stop.Some? ==> |r| == if stop.value <= SliceStart(|lines|, start) then 0
                                  else if stop.value > |lines| then |lines| - SliceStart(|lines|, start)
                                  else stop.value - SliceStart(|lines|, start)
  {
    var s := SliceStart(|lines|, start);
    var e := if stop.None? || stop.value > |lines| then |lines| else if stop.value < s then s else stop.value;
    lines[s..e]
  }

  /**
   * The lines of the long description: those from the start line (before
   * the end line), from the first one that starts with the start spec on,
   * up to but not including the first one that starts with the end spec.
   */
  function Description(lines: seq<string>, startspec: Option<string>, endspec: Option<string>): (r: seq<string>)
    ensures startspec.None? && endspec.None? ==> r == lines
    ensures exists i :: Window(lines, r, i)
    ensures startspec.Some? && r != [] ==> StartsWith(r[0], startspec.value)
    ensures endspec.Some? ==> forall i :: 0 <= i < |r| ==> !StartsWith(r[i], endspec.value)
  {
    var inner := if startspec.Some? then DropUntil(lines, startspec.value) else lines;
    var r := if endspec.Some? then TakeUntil(inner, endspec.value) else inner;
    assert inner == lines[|lines| - |inner|..];
    assert Window(lines, r, |lines| - |inner|);
    r
  }

  /** `r` is the run of `lines` that starts at index `i`. */
  predicate Window(lines: seq<string>, r: seq<string>, i: nat) {
    i + |r| <= |lines| && r == lines[i..i + |r|]
  }

  /** With both specs given, the description is exactly the lines from the first start line to the next end line. */
  lemma DescriptionBetween(pre: seq<string>, first: string, body: seq<string>, last: string, post: seq<string>, startspec: string, endspec: string)
    requires forall i :: 0 <= i < |pre| ==> !StartsWith(pre[i], startspec)
    requires StartsWith(first, startspec) && !StartsWith(first, endspec)
    requires forall i :: 0 <= i < |body| ==> !StartsWith(body[i], endspec)
    requires StartsWith(last, endspec)
    ensures Description(pre + [first] + body + [last] + post, Some(startspec), Some(endspec)) == [first] + body
  {
    var tail := [last] + post;
    var rest := ([first] + body) + tail;
    var lines := pre + [first] + body + [last] + post;
    assert lines == pre + rest;
    DropPrefix(pre, rest, startspec);
    TakeBody([first] + body, tail, endspec);
  }

  lemma {:induction false} DropPrefix(pre: seq<string>, rest: seq<string>, spec: string)
    requires forall i :: 0 <= i < |pre| ==> !StartsWith(pre[i], spec)
    requires rest != [] && StartsWith(rest[0], spec)
    ensures DropUntil(pre + rest, spec) == rest
    decreases |pre|
  {
    if pre != [] {
      assert (pre + rest)[1..] == pre[1..] + rest;
      DropPrefix(pre[1..], rest, spec);
    }
  }

  lemma {:induction false} TakeBody(body: seq<string>, rest: seq<string>, spec: string)
    requires forall i :: 0 <= i < |body| ==> !StartsWith(body[i], spec)
    requires rest != [] && StartsWith(rest[0], spec)
    ensures TakeUntil(body + rest, spec) == body
    decreases |body|
  {
    if body != [] {
      assert (body + rest)[1..] == body[1..] + rest;
      TakeBody(body[1..], rest, spec);
      assert [body[0]] + body[1..] == body;
    }
  }

  // ---------------------------------------------------------------------
  // provides, pypi_url, dir_to_package

  /** `dir_to_package`: a directory path with each `/` turned into a `.`. */
  function DirToPackage(dirname: string): (r: string)
    ensures |r| == |dirname| && '/' !in r
  {
    ReplaceChar(dirname, '/', '.')
  }

  /** Directory names without dots turn into package names that turn back into the directories. */
  lemma DirToPackageRoundTrip(dirname: string)
    requires '.' !in dirname
    ensures ReplaceChar(DirToPackage(dirname), '.', '/') == dirname
  {
  }

  // ---------------------------------------------------------------------
  // the lines of MANIFEST.in

  /** The directory and file pattern of one package data item: split at its last `/`, under the package. */
  function DataSpec(pkgname: string, item: string): (r: (string, string))
    ensures '/' !in r.1
    ensures r.0 + "/" + r.1 == ReplaceChar(pkgname, '.', '/') + "/" + item
  {
    var pkg := ReplaceChar(pkgname, '.', '/');
    var i := AfterLastSlash(item);
    if i > 0 then
      assert item == item[..i - 1] + "/" + item[i..];
      (pkg + "/" + item[..i - 1], item[i..])
    else
      assert item[0..] == item;
      (pkg, item)
  }

  /** The `recursive-include` line of one package data item. */
  function PackageDataLine(pkgname: string, item: string): string {
    var (d, f) := DataSpec(pkgname, item);
    "recursive-include " + d + " " + f + "\n"
  }

  /** The lines of one package's data items, in order. */
  function PackageLines(pkgname: string, items: seq<string>): (r: seq<string>)
    ensures |r| == |items|
    ensures forall i :: 0 <= i < |items| ==> r[i] == PackageDataLine(pkgname, items[i])
  {
    seq(|items|, i requires 0 <= i < |items| => PackageDataLine(pkgname, items[i]))
  }

  /** The package data lines of the packages in the given order. */
  function PackageDataLines(pdata: map<string, seq<string>>, order: seq<string>): seq<string>
    requires forall k :: k in order ==> k in pdata
  {
    if order == [] then []
    else PackageDataLines(pdata, order[..|order| - 1]) + PackageLines(order[|order| - 1], pdata[order[|order| - 1]])
  }

  /** The lines of the first `i + 1` packages are those of the first `i` and then package `i`'s. */
  lemma PackageDataLinesNext(pdata: map<string, seq<string>>, order: seq<string>, i: nat)
    requires forall k :: k in order ==> k in pdata
    requires i < |order|
    ensures forall k :: k in order[..i] ==> k in pdata
    ensures PackageDataLines(pdata, order[..i + 1]) == PackageDataLines(pdata, order[..i]) + PackageLines(order[i], pdata[order[i]])
  {
    assert order[..i + 1][..i] == order[..i];
  }

  /** `DataSpec` by cases: an item with a slash splits at its last one. */
  lemma DataSpecCases(pkgname: string, item: string)
    ensures '/' in item ==>
      var k := AfterLastSlash(item);
      k > 0 && DataSpec(pkgname, item) == (ReplaceChar(pkgname, '.', '/') + "/" + item[..k - 1], item[k..])
    ensures '/' !in item ==> DataSpec(pkgname, item) == (ReplaceChar(pkgname, '.', '/'), item)
  {
  }

  /** One more item's line at the end of a package's lines. */
  lemma PackageLinesNext(pkgname: string, items: seq<string>, j: nat)
    requires j < |items|
    ensures PackageLines(pkgname, items[..j + 1]) == PackageLines(pkgname, items[..j]) + [PackageDataLine(pkgname, items[j])]
  {
  }

  /** The `include` line of one file. */
  function IncludeLine(path: string): string {
    "include " + path + "\n"
  }

  /** The `recursive-include` line of a data directory. */
  function DataDirLine(datadir: string): string {
    "recursive-include " + datadir + " *.*\n"
  }

  /** The `include` lines of the files of every `(directory, files)` pair, in order. */
  function DataFilesLines(datafiles: seq<(string, seq<string>)>): seq<string> {
    if datafiles == [] then []
    else
      var files := datafiles[|datafiles| - 1].1;
      DataFilesLines(datafiles[..|datafiles| - 1]) + seq(|files|, j requires 0 <= j < |files| => IncludeLine(files[j]))
  }

  /** The lines of `MANIFEST.in` as they are collected. */
  class Manifest {
    var lines: seq<string>

    constructor (lines: seq<string>)
      ensures this.lines == lines
    {
      this.lines := lines;
    }

    /**
     * `_add_package_data_lines`: for every package (in the order of the
     * dict, here the order returned) and every data item, a
     * `recursive-include` of the item's directory under the package.
     */
    method AddPackageDataLines(pdata: map<string, seq<string>>) returns (order: seq<string>)
      modifies this
      ensures forall k :: k in order <==> k in pdata
      ensures Distinct(order)
      ensures lines == old(lines) + PackageDataLines(pdata, order)
    {
      order := Named.Enumerate(pdata.Keys);
      AddPackagesLines(pdata, order);
    }

    /** The outer loop of `_add_package_data_lines`: the packages in the given order. */
    method AddPackagesLines(pdata: map<string, seq<string>>, order: seq<string>)
      requires forall k :: k in order ==> k in pdata
      modifies this
      ensures lines == old(lines) + PackageDataLines(pdata, order)
    {
      for i := 0 to |order|
        invariant lines == old(lines) + PackageDataLines(pdata, order[..i])
      {
        PackageDataLinesNext(pdata, order, i);
        AddPackageLines(order[i], pdata[order[i]]);
      }
      assert order[..|order|] == order;
    }

    /** The inner loop of `_add_package_data_lines`: one package's data items in turn. */
    method AddPackageLines(pkgname: string, items: seq<string>)
      modifies this
      ensures lines == old(lines) + PackageLines(pkgname, items)
    {
      for j := 0 to |items|
        invariant lines == old(lines) + PackageLines(pkgname, items[..j])
      {
        var dirname, filespec;
        DataSpecCases(pkgname, items[j]);
        if '/' in items[j] {
          var k := AfterLastSlash(items[j]);
          dirname, filespec := ReplaceChar(pkgname, '.', '/') + "/" + items[j][..k - 1], items[j][k..];
        } else {
          dirname, filespec := ReplaceChar(pkgname, '.', '/'), items[j];
        }
        lines := lines + ["recursive-include " + dirname + " " + filespec + "\n"];
        PackageLinesNext(pkgname, items, j);
      }
      assert items[..|items|] == items;
    }

    /** `_add_data_dirs_lines`: a `recursive-include` of every file of each data directory. */
    method AddDataDirsLines(datadirs: seq<string>)
      modifies this
      ensures lines == old(lines) + seq(|datadirs|, i requires 0 <= i < |datadirs| => DataDirLine(datadirs[i]))
    {
      for i := 0 to |datadirs|
        invariant lines == old(lines) + seq(i, m requires 0 <= m < i => DataDirLine(datadirs[m]))
      {
        lines := lines + [DataDirLine(datadirs[i])];
      }
    }

    /** `_add_data_files_lines`: an `include` of every data file, pair by pair. */
    method AddDataFilesLines(datafiles: seq<(string, seq<string>)>)
      modifies this
      ensures lines == old(lines) + DataFilesLines(datafiles)
    {
      for i := 0 to |datafiles|
        invariant lines == old(lines) + DataFilesLines(datafiles[..i])
      {
        assert datafiles[..i + 1][..i] == datafiles[..i];
        var files := datafiles[i].1;
        ghost var before := lines;
        for j := 0 to |files|
          invariant lines == before + seq(j, m requires 0 <= m < j => IncludeLine(files[m]))
        {
          lines := lines + [IncludeLine(files[j])];
        }
      }
      assert datafiles[..|datafiles|] == datafiles;
    }

    /** `_add_scripts_lines`: an `include` of every script. */
    method AddScriptsLines(scripts: seq<string>)
      modifies this
      ensures lines == old(lines) + seq(|scripts|, i requires 0 <= i < |scripts| => IncludeLine(scripts[i]))
    {
      for i := 0 to |scripts|
        invariant lines == old(lines) + seq(i, m requires 0 <= m < i => IncludeLine(scripts[m]))
      {
        lines := lines + [IncludeLine(scripts[i])];
      }
    }
  }

  /** Every package data line includes, under the package's directory, exactly the item's path. */
  lemma PackageDataLineReads(pkgname: string, item: string)
    ensures exists d, f :: ('/' !in f && d + "/" + f == ReplaceChar(pkgname, '.', '/') + "/" + item
      && PackageDataLine(pkgname, item) == "recursive-include " + d + " " + f + "\n")
  {
    var (d, f) := DataSpec(pkgname, item);
    assert PackageDataLine(pkgname, item) == "recursive-include " + d + " " + f + "\n";
  }

  /** One `include` line per data file, whatever the pairs' directories. */
  lemma {:induction false} DataFilesLinesCount(datafiles: seq<(string, seq<string>)>)
    ensures |DataFilesLines(datafiles)| == FileCount(datafiles)
    decreases |datafiles|
  {
    if datafiles != [] {
      DataFilesLinesCount(datafiles[..|datafiles| - 1]);
    }
  }

  function FileCount(datafiles: seq<(string, seq<string>)>): nat {
    if datafiles == [] then 0 else FileCount(datafiles[..|datafiles| - 1]) + |datafiles[|datafiles| - 1].1|
  }
}
