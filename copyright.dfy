/**
 * Copyright (`simpleblog/extensions/copyright.py`): the blog's default
 * metadata gains a copyright line over the span of years of its entries.
 */
module Copyright {
  import opened Wrappers
  import opened Text

  /** `min(years)`. */
  function MinYear(years: seq<int>): (m: int)
    requires years != []
    ensures m in years && forall i :: 0 <= i < |years| ==> m <= years[i]
  {
    if |years| == 1 then years[0]
    else
      var rest := MinYear(years[1..]);
      assert forall i :: 1 <= i < |years| ==> years[i] == years[1..][i - 1];
      if years[0] <= rest then years[0] else rest
  }

  /** `max(years)`. */
  function MaxYear(years: seq<int>): (m: int)
    requires years != []
    ensures m in years && forall i :: 0 <= i < |years| ==> years[i] <= m
  {
    if |years| == 1 then years[0]
    else
      var rest := MaxYear(years[1..]);
      assert forall i :: 1 <= i < |years| ==> years[i] == years[1..][i - 1];
      if years[0] >= rest then years[0] else rest
  }

  /** A configured year counts unless it is unset or 0, which Python treats as false. */
  predicate Configured(year: Option<int>) {
    year.Some? && year.value != 0
  }

  /**
   * `copyright_start_year or start_year(blog)`: the configured year, else
   * the earliest entry year; `min` of no years raises `ValueError`.
   */
  function StartYear(configured: Option<int>, years: seq<int>): (r: Result<int>)
    ensures Configured(configured) ==> r == Ok(configured.value)
    ensures !Configured(configured) ==> (r.Ok? <==> years != [])
    ensures !Configured(configured) && r.Ok? ==> r.value in years && forall i :: 0 <= i < |years| ==> r.value <= years[i]
  {
    if Configured(configured) then Ok(configured.value)
    else if years == [] then Err("min() arg is an empty sequence")
    else Ok(MinYear(years))
  }

  /** `copyright_end_year or end_year(blog)`: the configured year, else the latest entry year. */
  function EndYear(configured: Option<int>, years: seq<int>): (r: Result<int>)
    ensures Configured(configured) ==> r == Ok(configured.value)
    ensures !Configured(configured) ==> (r.Ok? <==> years != [])
    ensures !Configured(configured) && r.Ok? ==> r.value in years && forall i :: 0 <= i < |years| ==> years[i] <= r.value
  {
    if Configured(configured) then Ok(configured.value)
    else if years == [] then Err("max() arg is an empty sequence")
    else Ok(MaxYear(years))
  }

  /** `yearspec`: `start-end` for a span of years, else the start year alone. */
  function YearSpec(start: int, end: int): string {
    if start < end then IntStr(start) + "-" + IntStr(end) else IntStr(start)
  }

  /**
   * For years written without sign, the span reads back: split on `-` it
   * gives the start and end year, or the start year alone when the span
   * is not a proper one.
   */
  lemma YearSpecReads(start: nat, end: nat)
    ensures start < end ==> SplitOn(YearSpec(start, end), '-') == [NatStr(start), NatStr(end)]
    ensures start >= end ==> SplitOn(YearSpec(start, end), '-') == [NatStr(start)]
    ensures ParseNat(NatStr(start)) == Some(start) && ParseNat(NatStr(end)) == Some(end)
  {
    NoDashDigits(NatStr(start));
    NoDashDigits(NatStr(end));
    if start < end {
      JoinSplitOn([NatStr(start), NatStr(end)], '-');
      assert Join([NatStr(start), NatStr(end)], "-") == NatStr(start) + "-" + NatStr(end);
    } else {
      NoSepSplit(NatStr(start), '-');
    }
    NatStrRoundTrip(start);
    NatStrRoundTrip(end);
  }

  lemma NoDashDigits(s: string)
    requires forall i :: 0 <= i < |s| ==> IsDigit(s[i])
    ensures '-' !in s
  {
    forall i | 0 <= i < |s| ensures s[i] != '-' {
      assert IsDigit(s[i]);
    }
  }

  /**
   * `blog_mod_default_metadata`: `copyright` and `copyright_display`, both
   * filled from the metadata and the `yearspec`; no other key changes. With
   * a year neither configured nor computable (no entries) it raises.
   */
  function DefaultMetadata(data: map<string, string>, years: seq<int>, cfgStart: Option<int>, cfgEnd: Option<int>,
                           template: string, displayTemplate: string,
                           fill: (string, map<string, string>) -> string): (r: Result<map<string, string>>)
    ensures r.Err? <==> years == [] && (!Configured(cfgStart) || !Configured(cfgEnd))
    ensures r.Ok? ==> r.value.Keys == data.Keys + {"copyright", "copyright_display"}
    ensures r.Ok? ==> forall k :: k in data && k != "copyright" && k != "copyright_display" ==> r.value[k] == data[k]
    ensures r.Ok? ==> var params := data["yearspec" := YearSpec(StartYear(cfgStart, years).value, EndYear(cfgEnd, years).value)];
      r.value["copyright"] == fill(template, params) && r.value["copyright_display"] == fill(displayTemplate, params)
  {
    match StartYear(cfgStart, years)
    case Err(m) => Err(m)
    case Ok(start) =>
      match EndYear(cfgEnd, years)
      case Err(m) => Err(m)
      case Ok(end) =>
        var params := data["yearspec" := YearSpec(start, end)];
        Ok(data["copyright" := fill(template, params)]["copyright_display" := fill(displayTemplate, params)])
  }

  /** Computed from the entries, the span runs from the earliest to the latest entry year. */
  lemma ComputedSpan(years: seq<int>)
    requires years != []
    ensures StartYear(None, years).Ok? && EndYear(None, years).Ok?
    ensures StartYear(None, years).value <= EndYear(None, years).value
    ensures StartYear(None, years).value == EndYear(None, years).value ==> forall i :: 0 <= i < |years| ==> years[i] == years[0]
  {
    var s := StartYear(None, years).value;
    var e := EndYear(None, years).value;
    assert s <= years[0] <= e;
  }
}
