/**
 * Titles (`simpleblog/extensions/title.py`): an entry's first line (up to
 * the title separator) is its title; titles are cached in the titles file.
 */
module Title {
  import opened Wrappers
  import opened Text
  import Caching

  /** `BlogExtension.config.get('titles_file', "titles")`. */
  function TitlesFile(config: map<string, string>): (f: string)
    ensures "titles_file" in config ==> f == config["titles_file"]
    ensures "titles_file" !in config ==> f == "titles"
  {
    if "titles_file" in config then config["titles_file"] else "titles"
  }

  /**
   * The text of an entry split at the first title separator: the title
   * and the rest; without a separator the title is empty and the text
   * stays whole. An empty separator is in every text, and splitting on it
   * raises.
   */
  function SplitTitle(raw: string, separator: string): (r: Result<(string, string)>)
    ensures r.Err? <==> separator == []
    ensures r.Err? ==> r.msg == EmptySeparatorError
    ensures separator != [] && !Contains(raw, separator) ==> r == Ok(("", raw))
    ensures separator != [] && Contains(raw, separator) ==>
      r.Ok? && raw == r.value.0 + separator + r.value.1
      && forall j: nat :: j < |r.value.0| ==> !OccursAt(raw, separator, j)
  {
    if separator == [] then Err(EmptySeparatorError)
    else match SplitOnce(raw, separator)
      case None => Ok(("", raw))
      case Some(parts) => Ok(parts)
  }

  /** A title without newlines, a newline, then the body: split back into the two. */
  lemma TitleLineSplit(title: string, body: string)
    requires '\n' !in title
    ensures SplitTitle(title + Newline + body, Newline) == Ok((title, body))
  {
    SplitOnceOfChar(title, '\n', body);
  }

  /** The substitutions applied in order, the first one innermost. */
  function ApplyAll(subs: seq<string -> string>, s: string): string {
    if subs == [] then s else subs[|subs| - 1](ApplyAll(subs[..|subs| - 1], s))
  }

  /** The (pattern, replacement) pairs `title_rexps` lists: bold, then italic. */
  const RexpPairs: nat := 2

  /** What `re.compile` raises when handed a (pattern, replacement) pair instead of a pattern. */
  const RexpError := "TypeError: first argument must be string or compiled pattern"

  /**
   * `_format_title` as written, on the title, the `title_format` setting
   * and the pairs the kept `map` iterator of `title_rexps` has not yet
   * consumed: the first pair it yields goes to `re.compile` and raises,
   * after one pair is used up; once the iterator is exhausted the loop
   * does nothing. The result and the pairs left afterwards.
   */
  function FormatAsWritten(title: string, titleFormat: bool, left: nat): (r: (Result<string>, nat))
    ensures r.0.Err? <==> title != [] && titleFormat && left > 0
    ensures r.0.Err? ==> r.0.msg == RexpError && r.1 == left - 1
    ensures r.0.Ok? ==> r.0.value == title && r.1 == left
  {
    if title != [] && titleFormat && left > 0 then (Err(RexpError), left - 1)
    else (Ok(title), left)
  }

  /**
   * As written, a title to be formatted fails once per pair and then comes
   * back unformatted; the emphasis is never applied.
   */
  lemma FormatNeverAppliesAsWritten(title: string)
    requires title != []
    ensures var (r1, l1) := FormatAsWritten(title, true, RexpPairs);
      var (r2, l2) := FormatAsWritten(title, true, l1);
      var (r3, l3) := FormatAsWritten(title, true, l2);
      r1 == Err(RexpError) && r2 == Err(RexpError) && r3 == Ok(title) && l3 == 0
  {
  }

  /** The settings of `TitleEntryMixin` and the title string `_do_load` finds. */
  class TitleEntry {
    const separator: string
    const titleFormat: bool
    /** `_titlestr`. */
    var titlestr: string
    /** The pairs the cached `title_rexps` iterator still holds, as written. */
    var rexpsLeft: nat

    constructor (separator: string, titleFormat: bool)
      ensures this.separator == separator && this.titleFormat == titleFormat && titlestr == ""
      ensures rexpsLeft == RexpPairs
    {
      this.separator := separator;
      this.titleFormat := titleFormat;
      titlestr := "";
      rexpsLeft := RexpPairs;
    }

    /**
     * `_do_load`: records the title and returns the text after it; when
     * the split raises, the title is left as it was.
     */
    method DoLoad(raw: string) returns (text: Result<string>)
      modifies this
      ensures rexpsLeft == old(rexpsLeft)
      ensures SplitTitle(raw, separator).Err? ==> text == Err(EmptySeparatorError) && titlestr == old(titlestr)
      ensures SplitTitle(raw, separator).Ok? ==> (titlestr, text) == (SplitTitle(raw, separator).value.0, Ok(SplitTitle(raw, separator).value.1))
    {
      if separator == [] {
        return Err(EmptySeparatorError);
      }
      if Contains(raw, separator) {
        var parts := SplitOnce(raw, separator).value;
        titlestr := parts.0;
        text := Ok(parts.1);
      } else {
        titlestr := "";
        text := Ok(raw);
      }
    }

    /**
     * `_format_title`: when there is a title and `title_format` is set,
     * each substitution (the emphasis patterns) is applied in turn;
     * otherwise the title is left alone.
     */
    method FormatTitle(subs: seq<string -> string>) returns (t: string)
      modifies this
      ensures titlestr == (if old(titlestr) != [] && titleFormat then ApplyAll(subs, old(titlestr)) else old(titlestr))
      ensures t == titlestr && rexpsLeft == old(rexpsLeft)
    {
      if titlestr != [] && titleFormat {
        for i := 0 to |subs|
          invariant titlestr == ApplyAll(subs[..i], old(titlestr))
          invariant rexpsLeft == old(rexpsLeft)
        {
          assert subs[..i + 1][..i] == subs[..i];
          titlestr := subs[i](titlestr);
        }
        assert subs[..|subs|] == subs;
      }
      t := titlestr;
    }

    /** `_format_title` as written: the title is never changed; see `FormatAsWritten`. */
    method FormatTitleAsWritten() returns (r: Result<string>)
      modifies this
      ensures titlestr == old(titlestr)
      ensures (r, rexpsLeft) == FormatAsWritten(old(titlestr), titleFormat, old(rexpsLeft))
    {
      if titlestr != [] && titleFormat && rexpsLeft > 0 {
        rexpsLeft := rexpsLeft - 1;
        return Err(RexpError);
      }
      r := Ok(titlestr);
    }
  }

  /** The titles cache: plain columns, no `objtype`, titles stored as they are. */
  function TitleFormat(): (fmt: Caching.Format<string>)
    ensures !fmt.reverse && fmt.objtype.None?
    ensures forall s :: fmt.plain(s) == s && fmt.show(s) == s
  {
    Caching.Format(false, None, (s: string) => s, (s: string) => s)
  }

  /** A one-word title survives the cache. */
  lemma TitleLineReloads(key: string, title: string)
    requires key != [] && NoSpace(key) && title != [] && NoSpace(title)
    ensures Caching.ParseLine(Caching.LineOf(key, title, TitleFormat()), TitleFormat()) == Ok((key, title))
  {
    Caching.ParseLineOf(key, title, TitleFormat());
  }

  /** A title of two words is cached as a line of three tokens, which cannot be read back. */
  lemma SpacedTitleUnreadable(key: string, a: string, b: string)
    requires key != [] && NoSpace(key) && a != [] && NoSpace(a) && b != [] && NoSpace(b)
    ensures Caching.ParseLine(Caching.LineOf(key, a + " " + b, TitleFormat()), TitleFormat()).Err?
  {
    assert Caching.LineOf(key, a + " " + b, TitleFormat()) == key + " " + a + " " + b + "\n";
    Caching.ExtraTokens(key, a, b, TitleFormat());
  }

  /** An entry without a title separator has the empty title, which cannot be read back either. */
  lemma UntitledUnreadable(key: string, raw: string, separator: string)
    requires key != [] && NoSpace(key) && separator != [] && !Contains(raw, separator)
    ensures Caching.ParseLine(Caching.LineOf(key, SplitTitle(raw, separator).value.0, TitleFormat()), TitleFormat()).Err?
  {
    assert Caching.LineOf(key, "", TitleFormat()) == key + " \n";
    Caching.EmptyValueUnreadable(key, TitleFormat());
  }
}
