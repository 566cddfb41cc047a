/**
 * Folding (`simpleblog/extensions/folding.py`): an entry's text may hold a
 * fold marker; the text before it is the entry's short form, shown on
 * index pages past the first `max_full_entries` entries.
 */
module Folding {
  import opened Wrappers
  import opened Text
  import opened Dispatch
  import opened Params
  import Core

  /** `fold_marker`: the fold symbol, followed by a newline unless folds are inline. */
  function FoldMarker(symbol: string, inline: bool): (m: string)
    ensures StartsWith(m, symbol)
    ensures |m| == |symbol| + (if inline then 0 else 1)
    ensures !inline ==> m[|symbol|..] == Newline
  {
    if inline then symbol else symbol + Newline
  }

  /**
   * The text of an entry split at the first fold marker: the short form
   * (`None` when there is no marker) and the text with that marker taken
   * out. An empty marker is in every text, and splitting on it raises.
   */
  function Fold(raw: string, marker: string): (r: Result<(Option<string>, string)>)
    ensures r.Err? <==> marker == []
    ensures r.Err? ==> r.msg == EmptySeparatorError
    ensures r.Ok? ==> (r.value.0.Some? <==> Contains(raw, marker))
    ensures r.Ok? && r.value.0.None? ==> r.value.1 == raw
    ensures r.Ok? && r.value.0.Some? ==> var short := r.value.0.value;
      && |short| <= |r.value.1| && r.value.1[..|short|] == short
      && raw == short + marker + r.value.1[|short|..]
      && forall j: nat :: j < |short| ==> !OccursAt(raw, marker, j)
  {
    if marker == [] then Err(EmptySeparatorError)
    else match SplitOnce(raw, marker)
      case None => Ok((None, raw))
      case Some((short, src)) =>
        assert (short + src)[..|short|] == short && (short + src)[|short|..] == src;
        Ok((Some(short), short + src))
  }

  /** Folding a text put together around a first marker gives back its parts. */
  lemma FoldOf(short: string, marker: string, rest: string)
    requires marker != []
    requires forall j: nat :: j < |short| ==> !OccursAt(short + marker + rest, marker, j)
    ensures Fold(short + marker + rest, marker) == Ok((Some(short), short + rest))
  {
    SplitOnceOf(short, marker, rest);
  }

  /** The settings of `FoldEntryMixin` and the short form `_do_load` finds. */
  class FoldEntry {
    const foldSymbol: string
    const foldInline: bool
    const shortFormats: set<string>
    /** `_short`: the text before the fold marker, if the entry has one. */
    var short: Option<string>

    constructor (foldSymbol: string, foldInline: bool, shortFormats: set<string>)
      ensures this.foldSymbol == foldSymbol && this.foldInline == foldInline && this.shortFormats == shortFormats
      ensures short == None
    {
      this.foldSymbol := foldSymbol;
      this.foldInline := foldInline;
      this.shortFormats := shortFormats;
      short := None;
    }

    /**
     * `_do_load`: records the short form and returns the text without the
     * marker; when the split raises, the short form is left as it was.
     */
    method DoLoad(raw: string) returns (text: Result<string>)
      modifies this
      ensures Fold(raw, FoldMarker(foldSymbol, foldInline)).Err? ==> text == Err(EmptySeparatorError) && short == old(short)
      ensures Fold(raw, FoldMarker(foldSymbol, foldInline)).Ok? ==>
        (short, text) == (Fold(raw, FoldMarker(foldSymbol, foldInline)).value.0, Ok(Fold(raw, FoldMarker(foldSymbol, foldInline)).value.1))
    {
      var marker := FoldMarker(foldSymbol, foldInline);
      if marker == [] {
        return Err(EmptySeparatorError);
      }
      if Contains(raw, marker) {
        var parts := SplitOnce(raw, marker).value;
        short := Some(parts.0);
        text := Ok(parts.0 + parts.1);
      } else {
        short := None;
        text := Ok(raw);
      }
    }

    /** `has_short(format)`. */
    predicate HasShort(format: string)
      reads this
    {
      format in shortFormats && short.Some?
    }

    /** `short_template(format)`: the `short` template of the format, for short formats only. */
    function ShortTemplate(format: string, templateData: (string, string) -> string): (r: Result<string>)
      ensures r.Ok? <==> format in shortFormats
      ensures r.Ok? ==> r.value == templateData("short", format)
    {
      if format in shortFormats then Ok(templateData("short", format)) else Err("NotImplementedError")
    }
  }

  /** `max_index_full`: the index of the last entry shown in full, never negative. */
  function MaxIndexFull(maxFullEntries: int): (r: nat)
    ensures maxFullEntries >= 1 ==> r == maxFullEntries - 1
    ensures maxFullEntries < 1 ==> r == 0
  {
    if maxFullEntries - 1 > 0 then maxFullEntries - 1 else 0
  }

  /**
   * `use_short_entry`: forced by `force_short`, or the entry's page index
   * is past `max_index_full`; a missing `index` raises unless forced.
   */
  function UseShortEntry(p: Params, maxIndexFull: nat): (r: Result<bool>)
    ensures Flag(p, "force_short") ==> r == Ok(true)
    ensures !Flag(p, "force_short") ==> (r.Ok? <==> "index" in p && p["index"].Int?)
    ensures !Flag(p, "force_short") && r.Ok? ==> (r.value <==> p["index"].i > maxIndexFull)
  {
    if Flag(p, "force_short") then Ok(true)
    else if "index" in p && p["index"].Int? then Ok(p["index"].i > maxIndexFull)
    else Err("'index'")
  }

  /**
   * With `max_full_entries` at least one, exactly the entries from that
   * index on are shown short; below one, every entry but the first is.
   */
  lemma ShortFromMaxFull(p: Params, maxFullEntries: int, i: int)
    requires !Flag(p, "force_short") && "index" in p && p["index"] == Int(i)
    ensures maxFullEntries >= 1 ==> UseShortEntry(p, MaxIndexFull(maxFullEntries)) == Ok(i >= maxFullEntries)
    ensures maxFullEntries < 1 ==> UseShortEntry(p, MaxIndexFull(maxFullEntries)) == Ok(i >= 1)
  {
  }

  /**
   * `entry_get_body`: the short template filled with the rendered short
   * form and the permalink when the short form is used and the entry has
   * one; otherwise the extension declines (`noresult`).
   */
  function EntryGetBody(e: FoldEntry, format: string, p: Params, maxIndexFull: nat,
                        templateData: (string, string) -> string, fill: (string, string, string) -> string,
                        render: string -> string, permalink: string): (r: Result<Res<string>>)
    reads e
    ensures r.Err? <==> UseShortEntry(p, maxIndexFull).Err?
    ensures r.Ok? ==> !r.value.NoReturn?
    ensures r.Ok? ==> (r.value.Val? <==> UseShortEntry(p, maxIndexFull) == Ok(true) && e.HasShort(format))
    ensures r.Ok? && r.value.Val? ==> r.value.value == fill(templateData("short", format), render(e.short.value), permalink)
  {
    match UseShortEntry(p, maxIndexFull)
    case Err(m) => Err(m)
    case Ok(useShort) =>
      if useShort && e.HasShort(format) then
        Ok(Val(fill(e.ShortTemplate(format, templateData).value, render(e.short.value), permalink)))
      else Ok(NoResult)
  }

  /**
   * `page_mod_entry_params`: the entry's first position among the page's
   * entries as `index`; `list.index` raises for an entry not on the page.
   */
  function PageModEntryParams<E(==)>(entries: seq<E>, entry: E, p: Params): (r: Result<Params>)
    ensures r.Ok? <==> entry in entries
    ensures r.Ok? ==> r.value.Keys == p.Keys + {"index"}
    ensures r.Ok? ==> forall k :: k in p && k != "index" ==> r.value[k] == p[k]
    ensures r.Ok? ==> (r.value["index"].Int? && 0 <= r.value["index"].i < |entries|
                       && entries[r.value["index"].i] == entry
                       && forall j :: 0 <= j < r.value["index"].i ==> entries[j] != entry)
  {
    var i := Core.FirstIndex(entries, entry);
    if i < |entries| then Ok(p["index" := Int(i)]) else Err("ValueError")
  }
}
