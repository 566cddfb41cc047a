/**
 * Markdown rendering (`simpleblog/extensions/render_markdown.py`): the
 * HTML that `markdown()` produces, optionally pretty-printed line by line
 * (blockquote contents indented, a blank line after each block).
 */
module RenderMarkdown {
  import opened Text

  predicate Opens(line: string) {
    StartsWith(line, "<blockquote>")
  }

  predicate Closes(line: string) {
    EndsWith(line, "</blockquote>")
  }

  /** A line that ends a paragraph, heading, preformatted block or blockquote. */
  predicate EndsBlock(line: string) {
    EndsWith(line, "</p>") || EndsWith(line, "</h1>") || EndsWith(line, "</pre>") || Closes(line)
  }

  /** Whether the loop is inside a blockquote when it reaches line `n`. */
  function InQuote(lines: seq<string>, n: nat): bool
    requires n <= |lines|
  {
    if n == 0 then false
    else if InQuote(lines, n - 1) then !Closes(lines[n - 1])
    else Opens(lines[n - 1])
  }

  /** Line `i` as written out: indented inside a blockquote, except the closing line. */
  function Shown(lines: seq<string>, i: nat): (r: string)
    requires i < |lines|
    ensures r == lines[i] || r == "  " + lines[i]
  {
    if InQuote(lines, i) && !Closes(lines[i]) then "  " + lines[i] else lines[i]
  }

  /** A blank line goes before line `i` when the line before ended a block and line `i` does not close a blockquote. */
  predicate Gap(lines: seq<string>, i: nat)
    requires i < |lines|
  {
    i > 0 && EndsBlock(Shown(lines, i - 1)) && !Closes(lines[i])
  }

  /** The pretty-printed output of the first `n` lines. */
  function PrettyUpTo(lines: seq<string>, n: nat): seq<string>
    requires n <= |lines|
  {
    if n == 0 then []
    else PrettyUpTo(lines, n - 1) + (if Gap(lines, n - 1) then [""] else []) + [Shown(lines, n - 1)]
  }

  /** The `pretty_print` loop of `_do_render`, over the lines of the HTML. */
  method PrettyPrint(lines: seq<string>) returns (out: seq<string>)
    ensures out == PrettyUpTo(lines, |lines|)
  {
    out := [];
    var inBlockquote := false;
    var blanklineFlag := false;
    for i := 0 to |lines|
      invariant out == PrettyUpTo(lines, i)
      invariant inBlockquote == InQuote(lines, i)
      invariant blanklineFlag == (i > 0 && EndsBlock(Shown(lines, i - 1)))
    {
      var line := lines[i];
      if blanklineFlag {
        if !Closes(line) {
          out := out + [""];
        }
        blanklineFlag := false;
      }
      if inBlockquote {
        if Closes(line) {
          inBlockquote := false;
        } else {
          line := "  " + line;
        }
      } else {
        if Opens(line) {
          inBlockquote := true;
        }
      }
      out := out + [line];
      if EndsBlock(line) {
        blanklineFlag := true;
      }
    }
  }

  /** `_do_render`: the HTML of the entry, pretty-printed when `pretty_print` is set. */
  method Render(rawdata: string, prettyPrint: bool, markdown: string -> string) returns (r: string)
    ensures !prettyPrint ==> r == markdown(rawdata)
    ensures prettyPrint ==> r == Join(PrettyUpTo(SplitOn(markdown(rawdata), '\n'), |SplitOn(markdown(rawdata), '\n')|), Newline)
  {
    var html := markdown(rawdata);
    if !prettyPrint {
      return html;
    }
    var lines := SplitOn(html, '\n');
    var out := PrettyPrint(lines);
    r := Join(out, Newline);
  }

  // ---------------------------------------------------------------------
  // what the output holds

  /** Where line `i` ends up in the output. */
  function Pos(lines: seq<string>, i: nat): nat
    requires i < |lines|
  {
    |PrettyUpTo(lines, i + 1)| - 1
  }

  /** The output of fewer lines is a prefix of the output of more. */
  lemma {:induction false} PrettyPrefix(lines: seq<string>, m: nat, n: nat)
    requires m <= n <= |lines|
    ensures |PrettyUpTo(lines, m)| <= |PrettyUpTo(lines, n)|
    ensures PrettyUpTo(lines, n)[..|PrettyUpTo(lines, m)|] == PrettyUpTo(lines, m)
    decreases n - m
  {
    if m < n {
      PrettyPrefix(lines, m, n - 1);
      var p := PrettyUpTo(lines, n - 1);
      assert PrettyUpTo(lines, n)[..|p|] == p;
    }
  }

  /**
   * Every input line is written exactly once and in order, as itself or
   * indented; line `i` follows line `i - 1` directly, or after one empty
   * line exactly when there is a gap before it.
   */
  lemma {:induction false} EveryLineOnce(lines: seq<string>, n: nat, i: nat)
    requires i < n <= |lines|
    ensures Pos(lines, i) < |PrettyUpTo(lines, n)|
    ensures PrettyUpTo(lines, n)[Pos(lines, i)] == Shown(lines, i)
    ensures i > 0 ==> Pos(lines, i) == Pos(lines, i - 1) + 1 + (if Gap(lines, i) then 1 else 0)
    ensures i > 0 && Gap(lines, i) ==> PrettyUpTo(lines, n)[Pos(lines, i) - 1] == ""
  {
    PrettyPrefix(lines, i + 1, n);
    var p := PrettyUpTo(lines, i + 1);
    assert p[|p| - 1] == Shown(lines, i);
    assert PrettyUpTo(lines, n)[Pos(lines, i)] == p[Pos(lines, i)];
    if i > 0 && Gap(lines, i) {
      assert p[|p| - 2] == "";
      assert PrettyUpTo(lines, n)[Pos(lines, i) - 1] == p[Pos(lines, i) - 1];
    }
  }

  /** Any output line that is not one of the input lines is an added empty line. */
  lemma {:induction false} OnlyBlanksAdded(lines: seq<string>, n: nat, k: nat)
    requires n <= |lines| && k < |PrettyUpTo(lines, n)|
    ensures PrettyUpTo(lines, n)[k] == "" || exists i :: 0 <= i < n && k == Pos(lines, i)
  {
    var p := PrettyUpTo(lines, n);
    var q := PrettyUpTo(lines, n - 1);
    if k < |q| {
      OnlyBlanksAdded(lines, n - 1, k);
      PrettyPrefix(lines, n - 1, n);
      assert p[k] == q[k];
      if q[k] != "" {
        var i :| 0 <= i < n - 1 && k == Pos(lines, i);
      }
    } else if k == |p| - 1 {
      assert k == Pos(lines, n - 1);
    } else {
      assert p[k] == "";
    }
  }

  /** Line `j`, reached outside a blockquote, opened one that no line before line `i` has closed. */
  predicate OpenSince(lines: seq<string>, j: nat, i: nat)
    requires j < i <= |lines|
  {
    !InQuote(lines, j) && Opens(lines[j]) && forall m :: j < m < i ==> !Closes(lines[m])
  }

  /**
   * Line `i` is inside a blockquote exactly when an earlier line, reached
   * outside a blockquote, opened one and no line since has closed it.
   */
  lemma QuoteSpan(lines: seq<string>, i: nat)
    requires i <= |lines|
    ensures InQuote(lines, i) <==> exists j :: 0 <= j < i && OpenSince(lines, j, i)
  {
    if InQuote(lines, i) {
      InQuoteOpened(lines, i);
    } else {
      forall j | 0 <= j < i ensures !OpenSince(lines, j, i) {
        if OpenSince(lines, j, i) {
          StaysInQuote(lines, j, i);
        }
      }
    }
  }

  lemma {:induction false} InQuoteOpened(lines: seq<string>, i: nat)
    requires i <= |lines| && InQuote(lines, i)
    ensures exists j :: 0 <= j < i && OpenSince(lines, j, i)
  {
    if InQuote(lines, i - 1) {
      InQuoteOpened(lines, i - 1);
      var j :| 0 <= j < i - 1 && OpenSince(lines, j, i - 1);
      assert OpenSince(lines, j, i);
    } else {
      assert OpenSince(lines, i - 1, i);
    }
  }

  /** After an opening line reached outside a blockquote, the loop stays inside until a closing line. */
  lemma {:induction false} StaysInQuote(lines: seq<string>, j: nat, n: nat)
    requires j < n <= |lines| && OpenSince(lines, j, n)
    ensures InQuote(lines, n)
    decreases n - j
  {
    if n > j + 1 {
      StaysInQuote(lines, j, n - 1);
    }
  }

  /**
   * A one-line blockquote does not close: its closing tag is only looked
   * for on later lines, so the line after it is indented unless it closes.
   */
  lemma OneLineBlockquote(lines: seq<string>, j: nat)
    requires j + 1 < |lines| && !InQuote(lines, j)
    requires Opens(lines[j]) && Closes(lines[j]) && !Closes(lines[j + 1])
    ensures Shown(lines, j) == lines[j]
    ensures Shown(lines, j + 1) == "  " + lines[j + 1]
  {
    assert InQuote(lines, j + 1);
  }

  /** Without opening lines the loop is never inside a blockquote. */
  lemma {:induction false} NeverInQuote(lines: seq<string>, n: nat)
    requires n <= |lines|
    requires forall i :: 0 <= i < |lines| ==> !Opens(lines[i])
    ensures !InQuote(lines, n)
  {
    if n > 0 {
      NeverInQuote(lines, n - 1);
    }
  }

  /** HTML without blockquotes or block ends is written out unchanged. */
  lemma {:induction false} NoMarkupUnchanged(lines: seq<string>, n: nat)
    requires n <= |lines|
    requires forall i :: 0 <= i < |lines| ==> !Opens(lines[i]) && !EndsBlock(lines[i])
    ensures PrettyUpTo(lines, n) == lines[..n]
    ensures !InQuote(lines, n)
  {
    NeverInQuote(lines, n);
    if n > 0 {
      NoMarkupUnchanged(lines, n - 1);
      NeverInQuote(lines, n - 1);
      assert Shown(lines, n - 1) == lines[n - 1];
      if n > 1 {
        NeverInQuote(lines, n - 2);
        assert Shown(lines, n - 2) == lines[n - 2];
      }
      assert !Gap(lines, n - 1);
      assert lines[..n] == lines[..n - 1] + [lines[n - 1]];
    }
  }

  /** So rendering such HTML with pretty printing gives it back whole. */
  lemma PlainHtmlUnchanged(html: string)
    requires forall i :: 0 <= i < |SplitOn(html, '\n')| ==> !Opens(SplitOn(html, '\n')[i]) && !EndsBlock(SplitOn(html, '\n')[i])
    ensures Join(PrettyUpTo(SplitOn(html, '\n'), |SplitOn(html, '\n')|), Newline) == html
  {
    var lines := SplitOn(html, '\n');
    NoMarkupUnchanged(lines, |lines|);
    assert lines[..|lines|] == lines;
    SplitOnJoin(html, '\n');
  }
}
