/**
 * The setup variables of `setuputils.py`: the mapping a setup script
 * passes in (normally its globals), the helpers that fill in and normalise
 * its entries in place, and `setup_vars`, which returns the keyword
 * arguments for `distutils.setup`.
 */
module SetupVars {
  import opened Wrappers
  import opened Text
  import opened Order
  import opened Core
  import opened SetupText
  import Named

  // ---------------------------------------------------------------------
  // the values of setup variables

  /**
   * A Python value a setup variable holds: `None`, a string, an integer, a
   * list of strings, a dict with string keys, or any other object, which
   * carries the text `str()` gives for it and is neither iterable nor
   * subscriptable.
   */
  datatype Value =
    | NoneValue
    | Str(s: string)
    | Int(i: int)
    | Strs(items: seq<string>)
    | Dict(entries: map<string, Value>)
    | Other(shown: string)

  /** Python truth: empty strings, zero, empty containers and `None` are false. */
  predicate Truthy(v: Value) {
    match v
    case NoneValue => false
    case Str(s) => s != ""
    case Int(i) => i != 0
    case Strs(items) => items != []
    case Dict(entries) => entries != map[]
    case Other(_) => true
  }

  /** `a or b`. */
  function Or(a: Value, b: Value): (r: Value)
    ensures Truthy(a) ==> r == a
    ensures !Truthy(a) ==> r == b
  {
    if Truthy(a) then a else b
  }

  /** `varmap.get(key)`: `None` for a missing key. */
  function Get(vars: map<string, Value>, key: string): (r: Value)
    ensures key in vars ==> r == vars[key]
    ensures key !in vars ==> r == NoneValue
  {
    if key in vars then vars[key] else NoneValue
  }

  /** `repr` of a string in a list, for strings without quotes or backslashes. */
  function Quoted(items: seq<string>): (r: seq<string>)
    ensures |r| == |items|
    ensures forall i :: 0 <= i < |items| ==> r[i] == "'" + items[i] + "'"
  {
    seq(|items|, i requires 0 <= i < |items| => "'" + items[i] + "'")
  }

  /** `str(v)`, as `"{}".format(v)` writes it. */
  function Show(v: Value): string {
    match v
    case NoneValue => "None"
    case Str(s) => s
    case Int(i) => IntStr(i)
    case Strs(items) => "[" + Join(Quoted(items), ", ") + "]"
    case Dict(entries) => if entries == map[] then "{}" else "{...}"
    case Other(shown) => shown
  }

  // ---------------------------------------------------------------------
  // long_description, pypi_url, provides

  /** A valid `islice` bound: `None` or a non-negative integer. */
  predicate IsIndex(v: Value) {
    v.NoneValue? || (v.Int? && v.i >= 0)
  }

  function AsIndex(v: Value): (r: Option<int>)
    requires IsIndex(v)
    ensures r.None? <==> v.NoneValue?
    ensures r.Some? ==> r.value >= 0
  {
    if v.NoneValue? then None else Some(v.i)
  }

  /**
   * `dropwhile` or `takewhile` on a spec: a string spec cuts the lines, a
   * spec of another type raises `TypeError` once the first line is compared with it,
   * so never when there are no lines.
   */
  function CutBy(lines: seq<string>, spec: Value, drop: bool): (r: Result<seq<string>>)
    ensures !Truthy(spec) ==> r == Ok(lines)
    ensures Truthy(spec) && spec.Str? ==> r == Ok(if drop then DropUntil(lines, spec.s) else TakeUntil(lines, spec.s))
    ensures Truthy(spec) && !spec.Str? ==> (r.Err? <==> lines != [])
  {
    if !Truthy(spec) then Ok(lines)
    else if spec.Str? then Ok(if drop then DropUntil(lines, spec.s) else TakeUntil(lines, spec.s))
    else if lines == [] then Ok([])
    else Err("TypeError: startswith first arg must be str or a tuple of str")
  }

  /**
   * `long_description(varmap)` on the lines of the README: each setting is
   * the argument, or when that is false the setup variable of the same
   * name; the lines are sliced by the line numbers, cut by the specs, and
   * joined.
   */
  function LongDescription(vars: map<string, Value>, readme: seq<string>,
                           startline: Value, startspec: Value, endline: Value, endspec: Value): (r: Result<string>)
    ensures var sl := Or(startline, Get(vars, "startline"));
      var el := Or(endline, Get(vars, "endline"));
      (Truthy(sl) || Truthy(el)) && !(IsIndex(sl) && IsIndex(el)) ==> r.Err?
  {
    var sl := Or(startline, Get(vars, "startline"));
    var ss := Or(startspec, Get(vars, "startspec"));
    var el := Or(endline, Get(vars, "endline"));
    var es := Or(endspec, Get(vars, "endspec"));
    if (Truthy(sl) || Truthy(el)) && !(IsIndex(sl) && IsIndex(el)) then
      Err("ValueError: Indices for islice() must be None or an integer: 0 <= x <= sys.maxsize.")
    else
      var inner := if Truthy(sl) || Truthy(el) then Slice(readme, AsIndex(sl), AsIndex(el)) else readme;
      match CutBy(inner, ss, true)
      case Err(m) => Err(m)
      case Ok(dropped) =>
        match CutBy(dropped, es, false)
        case Err(m) => Err(m)
        case Ok(desc) => Ok(Concat(desc))
  }

  /**
   * With well-typed settings the long description is the text of the
   * README lines that `Description` picks from the slice; with none at all
   * it is the whole README.
   */
  lemma LongDescriptionPicks(vars: map<string, Value>, readme: seq<string>,
                             startline: Value, startspec: Value, endline: Value, endspec: Value)
    requires IsIndex(Or(startline, Get(vars, "startline"))) && IsIndex(Or(endline, Get(vars, "endline")))
    requires var ss := Or(startspec, Get(vars, "startspec")); ss.NoneValue? || ss.Str?
    requires var es := Or(endspec, Get(vars, "endspec")); es.NoneValue? || es.Str?
    ensures var sl := Or(startline, Get(vars, "startline"));
      var el := Or(endline, Get(vars, "endline"));
      var ss := Or(startspec, Get(vars, "startspec"));
      var es := Or(endspec, Get(vars, "endspec"));
      var inner := if Truthy(sl) || Truthy(el) then Slice(readme, AsIndex(sl), AsIndex(el)) else readme;
      LongDescription(vars, readme, startline, startspec, endline, endspec)
        == Ok(Concat(Description(inner, if Truthy(ss) then Some(ss.s) else None, if Truthy(es) then Some(es.s) else None)))
    ensures (!Truthy(Or(startline, Get(vars, "startline"))) && !Truthy(Or(endline, Get(vars, "endline")))
             && !Truthy(Or(startspec, Get(vars, "startspec"))) && !Truthy(Or(endspec, Get(vars, "endspec")))) ==>
      LongDescription(vars, readme, startline, startspec, endline, endspec) == Ok(Concat(readme))
  {
  }

  /** `pypi_url(varmap)`: the project's page on PyPI; `KeyError` without a name. */
  function PypiUrl(vars: map<string, Value>): (r: Result<string>)
    ensures r.Ok? <==> "name" in vars
    ensures r.Ok? ==> StartsWith(r.value, "http://pypi.org/project/") && r.value[|"http://pypi.org/project/"|..] == Show(vars["name"])
  {
    if "name" in vars then Ok("http://pypi.org/project/" + Show(vars["name"])) else Err("KeyError: 'name'")
  }

  /**
   * `provides(varmap)`: `["name (version)"]`, or the name alone when there
   * is no version; `KeyError` (raised again in the handler) without a name.
   */
  function Provides(vars: map<string, Value>): (r: Result<seq<Value>>)
    ensures r.Ok? <==> "name" in vars
    ensures "name" in vars && "version" in vars ==> r == Ok([Str(Show(vars["name"]) + " (" + Show(vars["version"]) + ")")])
    ensures "name" in vars && "version" !in vars ==> r == Ok([vars["name"]])
  {
    if "name" in vars && "version" in vars then Ok([Str(Show(vars["name"]) + " (" + Show(vars["version"]) + ")")])
    else if "name" in vars then Ok([vars["name"]])
    else Err("KeyError: 'name'")
  }

  /** A string name without ` (` and its version read back from the one entry `provides` gives. */
  lemma ProvidesReads(vars: map<string, Value>)
    requires "name" in vars && vars["name"].Str? && "version" in vars
    requires !Contains(vars["name"].s, " (")
    ensures Provides(vars).Ok? && |Provides(vars).value| == 1 && Provides(vars).value[0].Str?
    ensures SplitOnce(Provides(vars).value[0].s, " (") == Some((vars["name"].s, Show(vars["version"]) + ")"))
  {
    var name := vars["name"].s;
    var rest := Show(vars["version"]) + ")";
    var s := name + " (" + rest;
    assert Provides(vars).value[0].s == s;
    forall j: nat | j < |name| ensures !OccursAt(s, " (", j) {
      if j + 2 <= |name| {
        assert s[j..j + 2] == name[j..j + 2];
        assert IndexOf(name, " (").None?;
        assert !OccursAt(name, " (", j);
      } else {
        assert s[j..j + 2] == [name[j], ' '];
      }
    }
    SplitOnceOf(name, " (", rest);
  }

  // ---------------------------------------------------------------------
  // convert_lists

  const DefaultListNames: seq<string> := ["classifiers", "requires", "provides", "obsoletes"]

  /** What `convert_lists` makes of a listed variable: a string becomes its stripped lines, anything else stays. */
  function Converted(v: Value): (r: Value)
    ensures v.Str? ==> r == Strs(SplitLines(Strip(v.s)))
    ensures !v.Str? ==> r == v
  {
    if v.Str? then Strs(SplitLines(Strip(v.s))) else v
  }

  /** Converting twice is converting once. */
  lemma ConvertedIdempotent(v: Value)
    ensures Converted(Converted(v)) == Converted(v)
  {
  }

  /** A listed string becomes lines that join back into the stripped string. */
  lemma ConvertedLines(s: string)
    ensures Converted(Str(s)).Strs?
    ensures Terminated(Converted(Str(s)).items) == if Strip(s) == "" || EndsWith(Strip(s), "\n") then Strip(s) else Strip(s) + "\n"
  {
    SplitLinesTerminated(Strip(s));
  }

  /** The names a sequence lists. */
  function Members(names: seq<string>): set<string> {
    set n | n in names
  }

  /** The variables after converting those named in `names`. */
  function ConvertAll(vars: map<string, Value>, names: set<string>): (r: map<string, Value>)
    ensures r.Keys == vars.Keys
    ensures forall k :: k in vars ==> r[k] == if k in names then Converted(vars[k]) else vars[k]
  {
    map k | k in vars :: if k in names then Converted(vars[k]) else vars[k]
  }

  /** Converting one more name converts its variable, unless an earlier name already did. */
  lemma ConvertAllSnoc(vars: map<string, Value>, names: set<string>, n: string)
    ensures var cur := ConvertAll(vars, names);
      ConvertAll(vars, names + {n}) == if n in cur && cur[n].Str? then cur[n := Strs(SplitLines(Strip(cur[n].s)))] else cur
  {
    var cur := ConvertAll(vars, names);
    var next := ConvertAll(vars, names + {n});
    if n in cur && cur[n].Str? {
      assert next == cur[n := Strs(SplitLines(Strip(cur[n].s)))];
    } else {
      assert next == cur;
    }
  }

  /** The characters of a string, each as a string of its own: what iterating over it gives. */
  function Chars(s: string): (r: seq<string>)
    ensures |r| == |s|
    ensures forall i :: 0 <= i < |s| ==> r[i] == [s[i]]
  {
    seq(|s|, i requires 0 <= i < |s| => [s[i]])
  }

  // ---------------------------------------------------------------------
  // classifiers

  const LanguagePrefix: string := "Programming Language ::"
  const PythonClassifier: string := "Programming Language :: Python :: 3"

  /** Whether a classifier already names a programming language. */
  predicate HasLanguage(cs: seq<string>) {
    exists i :: 0 <= i < |cs| && StartsWith(cs[i], LanguagePrefix)
  }

  /** A list of classifiers with a language entry, or a dict with a key that is one. */
  predicate HasLanguageValue(v: Value) {
    (v.Strs? && HasLanguage(v.items))
    || (v.Dict? && exists k :: k in v.entries && StartsWith(k, LanguagePrefix))
  }

  lemma PythonIsLanguage(cs: seq<string>)
    ensures HasLanguage(cs + [PythonClassifier])
  {
    assert (cs + [PythonClassifier])[|cs|] == PythonClassifier;
  }

  /** `longer` is `cs` with entries appended. */
  predicate Extends(cs: seq<string>, longer: seq<string>) {
    |cs| <= |longer| && longer[..|cs|] == cs
  }

  /** Appending keeps every classifier, and so a language classifier. */
  lemma ExtendsKeeps(cs: seq<string>, longer: seq<string>)
    requires Extends(cs, longer)
    ensures forall x :: x in cs ==> x in longer
    ensures HasLanguage(cs) ==> HasLanguage(longer)
  {
    forall x | x in cs ensures x in longer {
      var i :| 0 <= i < |cs| && cs[i] == x;
      assert longer[i] == x;
    }
    if HasLanguage(cs) {
      var i :| 0 <= i < |cs| && StartsWith(cs[i], LanguagePrefix);
      assert longer[i] == cs[i];
    }
  }

  /** Every variable outside `changed` is the same before and after. */
  ghost predicate SameExcept(before: map<string, Value>, after: map<string, Value>, changed: set<string>) {
    forall k :: k !in changed ==> (k in before <==> k in after) && (k in before ==> after[k] == before[k])
  }

  /**
   * What a step of `add_classifiers` that succeeds does to the
   * classifiers: they are there afterwards, a list only grows, and
   * anything else stays.
   */
  predicate ClassifiersGrow(before: map<string, Value>, after: map<string, Value>) {
    && "classifiers" in after
    && ("classifiers" in before ==>
          && (before["classifiers"].Strs? ==> after["classifiers"].Strs? && Extends(before["classifiers"].items, after["classifiers"].items))
          && (!before["classifiers"].Strs? ==> after["classifiers"] == before["classifiers"]))
  }

  /** Growing keeps every listed classifier and a language classifier. */
  lemma GrowKeeps(before: map<string, Value>, after: map<string, Value>)
    requires ClassifiersGrow(before, after)
    ensures "classifiers" in before && HasLanguageValue(before["classifiers"]) ==> HasLanguageValue(after["classifiers"])
    ensures "classifiers" in before && before["classifiers"].Strs? ==>
      forall x :: x in before["classifiers"].items ==> x in after["classifiers"].items
  {
    if "classifiers" in before && before["classifiers"].Strs? {
      ExtendsKeeps(before["classifiers"].items, after["classifiers"].items);
    }
  }

  /** The error a step raised, if any, and the variables after it. */
  type Step = (Option<string>, map<string, Value>)

  /** `varmap.setdefault('classifiers', []).append(c)`: only a list can be appended to. */
  function Appended(vars: map<string, Value>, c: string): (r: Step)
  {
    var cs := if "classifiers" in vars then vars["classifiers"] else Strs([]);
    if cs.Strs? then (None, vars["classifiers" := Strs(cs.items + [c])])
    else (Some("AttributeError: object has no attribute 'append'"), vars)
  }

  /** Appending fails exactly on a value other than a list, and otherwise adds `c` at the end. */
  lemma AppendedGrows(vars: map<string, Value>, c: string)
    ensures var r := Appended(vars, c);
      r.0.Some? <==> "classifiers" in vars && !vars["classifiers"].Strs?
    ensures var r := Appended(vars, c);
      r.0.Some? ==> r.1 == vars
    ensures var r := Appended(vars, c);
      r.0.None? ==> ClassifiersGrow(vars, r.1) && r.1["classifiers"].Strs?
    ensures var r := Appended(vars, c);
      r.0.None? ==> r.1["classifiers"].items == (if "classifiers" in vars then vars["classifiers"].items else []) + [c]
    ensures var r := Appended(vars, c);
      SameExcept(vars, r.1, {"classifiers"})
  {
  }

  /**
   * `add_classifier_python(varmap)`: `classifiers` is created empty when
   * missing, and gains the Python 3 classifier unless one of its entries
   * already names a programming language. Only a list can be appended
   * to: a string, or a dict lacking such a key, raises `AttributeError`;
   * a value that cannot be iterated raises `TypeError`.
   */
  function PythonStep(vars: map<string, Value>): (r: Step)
  {
    var cs := if "classifiers" in vars then vars["classifiers"] else Strs([]);
    match cs
      case Strs(items) =>
        if HasLanguage(items) then (None, vars)
        else (None, vars["classifiers" := Strs(items + [PythonClassifier])])
      case Str(_) => (Some("AttributeError: 'str' object has no attribute 'append'"), vars)
      case Dict(entries) =>
        if exists k :: k in entries && StartsWith(k, LanguagePrefix) then (None, vars)
        else (Some("AttributeError: 'dict' object has no attribute 'append'"), vars)
      case _ => (Some("TypeError: object is not iterable"), vars)
  }

  /** `add_classifier_python` leaves a language classifier, adding the Python one only when none was named. */
  lemma PythonStepAddsLanguage(vars: map<string, Value>)
    ensures var r := PythonStep(vars);
      r.0.Some? <==> "classifiers" in vars && !vars["classifiers"].Strs? && !HasLanguageValue(vars["classifiers"])
    ensures var r := PythonStep(vars);
      r.0.Some? ==> r.1 == vars
    ensures var r := PythonStep(vars);
      r.0.None? ==> ClassifiersGrow(vars, r.1) && HasLanguageValue(r.1["classifiers"])
    ensures var r := PythonStep(vars);
      "classifiers" in vars && HasLanguageValue(vars["classifiers"]) ==> r == (None, vars)
    ensures var r := PythonStep(vars);
      r.0.None? && !("classifiers" in vars && HasLanguageValue(vars["classifiers"])) ==>
        r.1["classifiers"] == Strs((if "classifiers" in vars then vars["classifiers"].items else []) + [PythonClassifier])
    ensures var r := PythonStep(vars);
      SameExcept(vars, r.1, {"classifiers"})
  {
    var items := if "classifiers" in vars && vars["classifiers"].Strs? then vars["classifiers"].items else [];
    PythonIsLanguage(items);
    assert items[..|items|] == items;
    assert (items + [PythonClassifier])[..|items|] == items;
  }

  /** `license_map`: short license names and their Trove classifiers. */
  const LicenseMap: map<string, string> := map[
    "AFL" := "License :: OSI Approved :: Academic Free License (AFL)",
    "Apache" := "License :: OSI Approved :: Apache Software License",
    "BSD" := "License :: OSI Approved :: BSD License",
    "AGPLv3" := "License :: OSI Approved :: GNU Affero General Public License v3",
    "AGPLv3+" := "License :: OSI Approved :: GNU Affero General Public License v3 or later (AGPLv3+)",
    "FDL" := "License :: OSI Approved :: GNU Free Documentation License (FDL)",
    "GPL" := "License :: OSI Approved :: GNU General Public License (GPL)",
    "GPLv2" := "License :: OSI Approved :: GNU General Public License v2 (GPLv2)",
    "GPLv2+" := "License :: OSI Approved :: GNU General Public License v2 or later (GPLv2+)",
    "GPLv3" := "License :: OSI Approved :: GNU General Public License v3 (GPLv3)",
    "GPLv3+" := "License :: OSI Approved :: GNU General Public License v3 or later (GPLv3+)",
    "LGPLv2" := "License :: OSI Approved :: GNU Lesser General Public License v2 (LGPLv2)",
    "LGPLv2+" := "License :: OSI Approved :: GNU Lesser General Public License v2 or later (LGPLv2+)",
    "LGPLv3" := "License :: OSI Approved :: GNU Lesser General Public License v3 (LGPLv3)",
    "LGPLv3+" := "License :: OSI Approved :: GNU Lesser General Public License v3 or later (LGPLv3+)",
    "LGPL" := "License :: OSI Approved :: GNU Library or Lesser General Public License (LGPL)",
    "MIT" := "License :: OSI Approved :: MIT License",
    "MPL" := "License :: OSI Approved :: Mozilla Public License 1.0 (MPL)",
    "MPL 1.1" := "License :: OSI Approved :: Mozilla Public License 1.1 (MPL 1.1)",
    "MPL 2.0" := "License :: OSI Approved :: Mozilla Public License 2.0 (MPL 2.0)",
    "CNRI" := "License :: OSI Approved :: Python License (CNRI Python License)",
    "PSF" := "License :: OSI Approved :: Python Software Foundation License",
    "QPL" := "License :: OSI Approved :: Qt Public License (QPL)"
  ]

  /** `devstatus_trove`, in its own order. */
  const DevStatusTrove: seq<string> := [
    "Development Status :: 3 - Alpha",
    "Development Status :: 4 - Beta",
    "Development Status :: 5 - Production/Stable",
    "Development Status :: 6 - Mature",
    "Development Status :: 7 - Inactive",
    "Development Status :: 1 - Planning",
    "Development Status :: 2 - Pre-Alpha"
  ]

  /** The first line of the trove that ends with the status, if any. */
  function FirstEndingWith(trove: seq<string>, status: string): (r: Option<nat>)
    ensures r.Some? ==> r.value < |trove| && EndsWith(trove[r.value], status)
    ensures r.Some? ==> forall i :: 0 <= i < r.value ==> !EndsWith(trove[i], status)
    ensures r.None? ==> forall i :: 0 <= i < |trove| ==> !EndsWith(trove[i], status)
  {
    if trove == [] then None
    else if EndsWith(trove[0], status) then Some(0)
    else match FirstEndingWith(trove[1..], status)
      case None => None
      case Some(i) => Some(i + 1)
  }

  const DistutilsKeywords: set<string> := {
    "name", "version", "description", "long_description", "author", "author_email",
    "maintainer", "maintainer_email", "url", "download_url", "packages", "py_modules",
    "scripts", "ext_modules", "classifiers", "distclass", "script_name", "script_args",
    "options", "license", "keywords", "platforms", "cmdclass", "data_files",
    "package_dir", "package_data", "requires", "provides", "obsoletes"
  }

  /** The variables `setup_vars` hands on: those whose names `distutils.setup` accepts. */
  function Keywords(vars: map<string, Value>): (r: map<string, Value>)
    ensures r.Keys == vars.Keys * DistutilsKeywords
    ensures forall k :: k in r ==> r[k] == vars[k]
  {
    map k | k in vars && k in DistutilsKeywords :: vars[k]
  }

  /** A `license` variable that `license_map` has a classifier for. */
  predicate Licensed(license: Value) {
    license.Str? && license.s in LicenseMap
  }

  /**
   * `add_classifier_license(varmap)`: a license with a Trove classifier
   * adds it and is removed; any other license stays. A list or dict as
   * license cannot be looked up (`TypeError`).
   */
  function LicenseStep(vars: map<string, Value>): (r: Step)
  {
    if "license" !in vars then (None, vars)
    else
      var license := vars["license"];
      if license.Strs? || license.Dict? then (Some("TypeError: unhashable type"), vars)
      else if license.Str? && license.s in LicenseMap then
        var c := LicenseMap[license.s];
        var appended := Appended(vars, c);
        if appended.0.Some? then appended
        else
          var cs := appended.1["classifiers"].items;
          assert cs[|cs| - 1] == c;
          (None, appended.1 - {"license"})
      else (None, vars)
  }

  /** `add_classifier_license` turns a known license into its classifier and drops the `license` variable. */
  lemma LicenseStepMoves(vars: map<string, Value>)
    ensures var r := LicenseStep(vars);
      r.0.Some? <==>
        && "license" in vars
        && (vars["license"].Strs? || vars["license"].Dict? || (Licensed(Get(vars, "license")) && "classifiers" in vars && !vars["classifiers"].Strs?))
    ensures var r := LicenseStep(vars);
      r.0.Some? ==> r.1 == vars
    ensures var r := LicenseStep(vars);
      !Licensed(Get(vars, "license")) && r.0.None? ==> r.1 == vars
    ensures var r := LicenseStep(vars);
      r.0.None? && (Licensed(Get(vars, "license")) || "classifiers" in vars) ==> ClassifiersGrow(vars, r.1)
    ensures var r := LicenseStep(vars);
      Licensed(Get(vars, "license")) && r.0.None? ==>
        && "license" !in r.1 && "classifiers" in r.1
        && r.1["classifiers"].Strs? && LicenseMap[Get(vars, "license").s] in r.1["classifiers"].items
    ensures var r := LicenseStep(vars);
      SameExcept(vars, r.1, {"classifiers", "license"})
  {
    if "license" in vars && Licensed(vars["license"]) {
      var appended := Appended(vars, LicenseMap[vars["license"].s]);
      if appended.0.None? {
        assert LicenseStep(vars) == (None, appended.1 - {"license"});
      }
    }
  }

  /** The `devstatus_trove` line for a string `dev_status` variable, if any. */
  function DevStatus(status: Value): (r: Option<nat>)
    ensures r.Some? ==> r.value < |DevStatusTrove|
  {
    if status.Str? then FirstEndingWith(DevStatusTrove, status.s) else None
  }

  /**
   * `add_classifier_dev_status(varmap)`: the first line of the trove that
   * ends with the status is appended to the classifiers; nothing when no
   * line does. A status that is not a string raises `TypeError`.
   */
  function DevStatusStep(vars: map<string, Value>): (r: Step)
  {
    if "dev_status" !in vars then (None, vars)
    else if !vars["dev_status"].Str? then (Some("TypeError: endswith first arg must be str or a tuple of str"), vars)
    else
      match FirstEndingWith(DevStatusTrove, vars["dev_status"].s)
      case None => (None, vars)
      case Some(i) =>
        var appended := Appended(vars, DevStatusTrove[i]);
        if appended.0.Some? then appended
        else
          var cs := appended.1["classifiers"].items;
          assert cs[|cs| - 1] == DevStatusTrove[i];
          appended
  }

  /** `add_classifier_dev_status` appends the trove line the status picks. */
  lemma DevStatusStepAppends(vars: map<string, Value>)
    ensures var r := DevStatusStep(vars);
      r.0.Some? <==>
        && "dev_status" in vars
        && (!vars["dev_status"].Str? || (DevStatus(Get(vars, "dev_status")).Some? && "classifiers" in vars && !vars["classifiers"].Strs?))
    ensures var r := DevStatusStep(vars);
      r.0.Some? ==> r.1 == vars
    ensures var r := DevStatusStep(vars);
      DevStatus(Get(vars, "dev_status")).None? && r.0.None? ==> r.1 == vars
    ensures var r := DevStatusStep(vars);
      r.0.None? && (DevStatus(Get(vars, "dev_status")).Some? || "classifiers" in vars) ==> ClassifiersGrow(vars, r.1)
    ensures var r := DevStatusStep(vars);
      DevStatus(Get(vars, "dev_status")).Some? && r.0.None? ==>
        && "classifiers" in r.1 && r.1["classifiers"].Strs? && DevStatusTrove[DevStatus(Get(vars, "dev_status")).value] in r.1["classifiers"].items
    ensures var r := DevStatusStep(vars);
      SameExcept(vars, r.1, {"classifiers"})
  {
  }

  /**
   * `sorted(classifiers)`: a list sorted by code points, or the sorted keys
   * of a dict; the language classifier survives the sort.
   */
  function SortClassifiers(v: Value): (r: Value)
    requires HasLanguageValue(v)
    ensures r.Strs? && SortedBy(r.items, StrKey, false) && HasLanguage(r.items)
    ensures v.Strs? ==> multiset(r.items) == multiset(v.items)
    ensures v.Dict? ==> forall k :: k in r.items <==> k in v.entries
  {
    if v.Strs? then
      SortBySorted(v.items, StrKey, false);
      LanguageSurvives(v.items, SortBy(v.items, StrKey, false));
      Strs(SortBy(v.items, StrKey, false))
    else
      SortedStringsSorted(v.entries.Keys);
      LanguageOfKeys(v.entries.Keys, SortedStrings(v.entries.Keys));
      Strs(SortedStrings(v.entries.Keys))
  }

  /** Reordering keeps a language classifier. */
  lemma LanguageSurvives(cs: seq<string>, r: seq<string>)
    requires HasLanguage(cs) && multiset(r) == multiset(cs)
    ensures HasLanguage(r)
  {
    var i :| 0 <= i < |cs| && StartsWith(cs[i], LanguagePrefix);
    assert cs[i] in multiset(r);
    var j :| 0 <= j < |r| && r[j] == cs[i];
  }

  /** A list holding the keys of a dict holds its language key. */
  lemma LanguageOfKeys(keys: set<string>, r: seq<string>)
    requires exists k :: k in keys && StartsWith(k, LanguagePrefix)
    requires forall k :: k in keys <==> k in r
    ensures HasLanguage(r)
  {
    var k :| k in keys && StartsWith(k, LanguagePrefix);
    var j :| 0 <= j < |r| && r[j] == k;
  }

  /** Strictly increasing strings are sorted. */
  lemma SortedStringsSorted(s: set<string>)
    ensures SortedBy(SortedStrings(s), StrKey, false)
  {
    var r := SortedStrings(s);
    forall i, j | 0 <= i < j < |r| ensures !Before(StrKey(r[j]), StrKey(r[i]), false) {
      LexAsymmetric(StrKey(r[i]), StrKey(r[j]));
    }
  }

  /** `add_classifier_python` and then `add_classifier_license`; an exception stops the rest. */
  function AfterLicense(vars: map<string, Value>): Step {
    var python := PythonStep(vars);
    if python.0.Some? then python else LicenseStep(python.1)
  }

  /** The first two helpers and then `add_classifier_dev_status`. */
  function AfterDevStatus(vars: map<string, Value>): Step {
    var license := AfterLicense(vars);
    if license.0.Some? then license else DevStatusStep(license.1)
  }

  /** After the Python and license helpers the classifiers name a language. */
  lemma AfterLicenseLanguage(vars: map<string, Value>)
    ensures var r := AfterLicense(vars);
      r.0.None? ==> PythonStep(vars).0.None? && "classifiers" in r.1 && HasLanguageValue(r.1["classifiers"])
  {
    var python := PythonStep(vars);
    if python.0.None? {
      PythonStepAddsLanguage(vars);
      var license := LicenseStep(python.1);
      LicenseStepMoves(python.1);
      if license.0.None? {
        GrowKeeps(python.1, license.1);
      }
    }
  }

  /** The Python and license helpers change no variable but `classifiers` and `license`. */
  lemma AfterLicenseFrame(vars: map<string, Value>)
    ensures SameExcept(vars, AfterLicense(vars).1, {"classifiers", "license"})
    ensures Get(AfterLicense(vars).1, "dev_status") == Get(vars, "dev_status")
  {
    var python := PythonStep(vars);
    PythonStepAddsLanguage(vars);
    if python.0.None? {
      LicenseStepMoves(python.1);
    }
  }

  /** A list of classifiers keeps its entries through the Python and license helpers. */
  lemma AfterLicenseKeeps(vars: map<string, Value>)
    requires AfterLicense(vars).0.None? && "classifiers" in vars && vars["classifiers"].Strs?
    ensures var r := AfterLicense(vars).1;
      "classifiers" in r && r["classifiers"].Strs? && forall x :: x in vars["classifiers"].items ==> x in r["classifiers"].items
  {
    var python := PythonStep(vars);
    PythonStepAddsLanguage(vars);
    GrowKeeps(vars, python.1);
    LicenseStepMoves(python.1);
    GrowKeeps(python.1, LicenseStep(python.1).1);
  }

  /** Without a language classifier, the Python one is listed once the license helper is done. */
  lemma AfterLicensePython(vars: map<string, Value>)
    requires AfterLicense(vars).0.None? && !("classifiers" in vars && HasLanguageValue(vars["classifiers"]))
    ensures var r := AfterLicense(vars).1;
      "classifiers" in r && r["classifiers"].Strs? && PythonClassifier in r["classifiers"].items
  {
    var python := PythonStep(vars);
    PythonStepAddsLanguage(vars);
    var items := python.1["classifiers"].items;
    assert items[|items| - 1] == PythonClassifier;
    LicenseStepMoves(python.1);
    GrowKeeps(python.1, LicenseStep(python.1).1);
  }

  /** A license with a classifier is listed, and `license` removed, once the license helper is done. */
  lemma AfterLicenseMoves(vars: map<string, Value>)
    requires AfterLicense(vars).0.None? && Licensed(Get(vars, "license"))
    ensures var r := AfterLicense(vars).1;
      "license" !in r && "classifiers" in r && r["classifiers"].Strs? && LicenseMap[Get(vars, "license").s] in r["classifiers"].items
  {
    var python := PythonStep(vars);
    PythonStepAddsLanguage(vars);
    assert Get(python.1, "license") == Get(vars, "license");
    LicenseStepMoves(python.1);
  }

  /** The dev-status helper only grows the classifiers it is handed. */
  lemma AfterDevStatusGrows(vars: map<string, Value>)
    requires AfterDevStatus(vars).0.None?
    ensures AfterLicense(vars).0.None? && ClassifiersGrow(AfterLicense(vars).1, AfterDevStatus(vars).1)
  {
    AfterLicenseLanguage(vars);
    DevStatusStepAppends(AfterLicense(vars).1);
  }

  /** After the three helpers the classifiers still name a language. */
  lemma AfterDevStatusLanguage(vars: map<string, Value>)
    ensures var r := AfterDevStatus(vars);
      r.0.None? ==> "classifiers" in r.1 && HasLanguageValue(r.1["classifiers"])
  {
    if AfterDevStatus(vars).0.None? {
      AfterDevStatusGrows(vars);
      AfterLicenseLanguage(vars);
      GrowKeeps(AfterLicense(vars).1, AfterDevStatus(vars).1);
    }
  }

  /** After the three helpers the line `dev_status` picks is listed. */
  lemma AfterDevStatusPicks(vars: map<string, Value>)
    requires AfterDevStatus(vars).0.None? && DevStatus(Get(vars, "dev_status")).Some?
    ensures var r := AfterDevStatus(vars).1;
      "classifiers" in r && r["classifiers"].Strs? && DevStatusTrove[DevStatus(Get(vars, "dev_status")).value] in r["classifiers"].items
  {
    AfterLicenseLanguage(vars);
    AfterLicenseFrame(vars);
    DevStatusStepAppends(AfterLicense(vars).1);
  }

  /** The three helpers change no variable but `classifiers` and `license`. */
  lemma AfterDevStatusFrame(vars: map<string, Value>)
    ensures SameExcept(vars, AfterDevStatus(vars).1, {"classifiers", "license"})
  {
    AfterLicenseFrame(vars);
    if AfterLicense(vars).0.None? {
      DevStatusStepAppends(AfterLicense(vars).1);
    }
  }

  /**
   * `add_classifiers(varmap)`: the three helpers in turn (the first
   * exception stops the rest, keeping what the earlier ones did), then the
   * classifiers sorted; a dict of classifiers sorts into the list of its
   * keys.
   */
  function ClassifiersStep(vars: map<string, Value>): (r: Step)
    ensures r.0.None? ==>
      && "classifiers" in r.1 && r.1["classifiers"].Strs?
      && SortedBy(r.1["classifiers"].items, StrKey, false) && HasLanguage(r.1["classifiers"].items)
  {
    var dev := AfterDevStatus(vars);
    if dev.0.Some? then dev
    else
      AfterDevStatusLanguage(vars);
      (None, dev.1["classifiers" := SortClassifiers(dev.1["classifiers"])])
  }

  /** Sorting keeps every classifier of a list. */
  lemma SortKeeps(v: Value, x: string)
    requires HasLanguageValue(v) && v.Strs? && x in v.items
    ensures x in SortClassifiers(v).items
  {
    assert x in multiset(v.items);
  }

  /**
   * A classifier in the list once the license step is done is in the
   * sorted result of `add_classifiers`.
   */
  lemma KeptAfterLicense(vars: map<string, Value>, x: string)
    requires ClassifiersStep(vars).0.None?
    requires var license := AfterLicense(vars).1;
      "classifiers" in license && license["classifiers"].Strs? && x in license["classifiers"].items
    ensures x in ClassifiersStep(vars).1["classifiers"].items
  {
    var dev := AfterDevStatus(vars).1;
    AfterDevStatusGrows(vars);
    GrowKeeps(AfterLicense(vars).1, dev);
    AfterDevStatusLanguage(vars);
    SortKeeps(dev["classifiers"], x);
  }

  /** Unless a language was named, `add_classifiers` lists the Python 3 classifier. */
  lemma ClassifiersStepPython(vars: map<string, Value>)
    ensures var r := ClassifiersStep(vars);
      r.0.None? && !("classifiers" in vars && HasLanguageValue(vars["classifiers"])) ==> PythonClassifier in r.1["classifiers"].items
  {
    if ClassifiersStep(vars).0.None? && !("classifiers" in vars && HasLanguageValue(vars["classifiers"])) {
      AfterDevStatusGrows(vars);
      AfterLicensePython(vars);
      KeptAfterLicense(vars, PythonClassifier);
    }
  }

  /** A license with a classifier is moved into the classifiers by `add_classifiers`. */
  lemma ClassifiersStepLicense(vars: map<string, Value>)
    ensures var r := ClassifiersStep(vars);
      r.0.None? && Licensed(Get(vars, "license")) ==> "license" !in r.1 && LicenseMap[Get(vars, "license").s] in r.1["classifiers"].items
  {
    if ClassifiersStep(vars).0.None? && Licensed(Get(vars, "license")) {
      AfterDevStatusGrows(vars);
      AfterLicenseMoves(vars);
      KeptAfterLicense(vars, LicenseMap[Get(vars, "license").s]);
      DevStatusStepAppends(AfterLicense(vars).1);
    }
  }

  /** `add_classifiers` keeps every classifier already listed. */
  lemma ClassifiersStepKeeps(vars: map<string, Value>)
    ensures var r := ClassifiersStep(vars);
      r.0.None? && "classifiers" in vars && vars["classifiers"].Strs? ==>
        forall x :: x in vars["classifiers"].items ==> x in r.1["classifiers"].items
  {
    if ClassifiersStep(vars).0.None? && "classifiers" in vars && vars["classifiers"].Strs? {
      AfterDevStatusGrows(vars);
      AfterLicenseKeeps(vars);
      forall x | x in vars["classifiers"].items ensures x in ClassifiersStep(vars).1["classifiers"].items {
        KeptAfterLicense(vars, x);
      }
    }
  }

  /** The line `dev_status` picks is among the classifiers `add_classifiers` leaves. */
  lemma ClassifiersStepDevStatus(vars: map<string, Value>)
    ensures var r := ClassifiersStep(vars);
      r.0.None? && DevStatus(Get(vars, "dev_status")).Some? ==> DevStatusTrove[DevStatus(Get(vars, "dev_status")).value] in r.1["classifiers"].items
  {
    if ClassifiersStep(vars).0.None? && DevStatus(Get(vars, "dev_status")).Some? {
      var dev := AfterDevStatus(vars).1;
      AfterDevStatusPicks(vars);
      AfterDevStatusLanguage(vars);
      SortKeeps(dev["classifiers"], DevStatusTrove[DevStatus(Get(vars, "dev_status")).value]);
    }
  }

  /** `add_classifiers` changes no variable but `classifiers` and `license`. */
  lemma ClassifiersStepFrame(vars: map<string, Value>)
    ensures SameExcept(vars, ClassifiersStep(vars).1, {"classifiers", "license"})
  {
    AfterDevStatusFrame(vars);
  }

  /** Completing the classifiers keeps the name, the long description and the URL. */
  lemma ClassifiersStepDescribed(vars: map<string, Value>)
    requires Described(vars)
    ensures Described(ClassifiersStep(vars).1)
  {
    ClassifiersStepFrame(vars);
    assert "name" !in {"classifiers", "license"};
    assert "long_description" !in {"classifiers", "license"};
    assert "url" !in {"classifiers", "license"};
  }

  // ---------------------------------------------------------------------
  // package_root

  /**
   * `package_root(varmap)` as a value: the result, and the variables
   * afterwards. `package_dir['']` when there is one; else the
   * `package_root` variable, which is recorded as `package_dir['']`; else
   * `"."`. Indexing a `package_dir` that is not a dict raises `TypeError`.
   */
  function PackageRootStep(vars: map<string, Value>): (r: (Result<Value>, map<string, Value>))
    ensures r.0.Err? ==> r.1 == vars
    ensures "package_dir" in vars && vars["package_dir"].Dict? && "" in vars["package_dir"].entries ==>
      r == (Ok(vars["package_dir"].entries[""]), vars)
    ensures "package_dir" in vars && !vars["package_dir"].Dict? ==> r.0.Err?
  {
    if "package_dir" in vars && !vars["package_dir"].Dict? then
      (Err("TypeError: object is not subscriptable by a string"), vars)
    else if "package_dir" in vars && "" in vars["package_dir"].entries then
      (Ok(vars["package_dir"].entries[""]), vars)
    else if "package_root" !in vars then
      (Ok(Str(".")), vars)
    else
      var root := vars["package_root"];
      var dirmap := if "package_dir" in vars then vars["package_dir"].entries else map[];
      (Ok(root), vars["package_dir" := Dict(dirmap["" := root])])
  }

  /** Once `package_root` has answered, asking again gives the same answer and changes nothing. */
  lemma PackageRootStable(vars: map<string, Value>)
    requires PackageRootStep(vars).0.Ok?
    ensures var after := PackageRootStep(vars).1;
      PackageRootStep(after) == (PackageRootStep(vars).0, after)
  {
  }

  /** `package_root` never removes a variable, and changes none but `package_dir`. */
  lemma PackageRootKeeps(vars: map<string, Value>)
    ensures vars.Keys <= PackageRootStep(vars).1.Keys
    ensures forall k :: k in vars && k != "package_dir" ==> PackageRootStep(vars).1[k] == vars[k]
    ensures "package_root" !in vars ==> PackageRootStep(vars).1 == vars
  {
  }

  // ---------------------------------------------------------------------
  // add_vars and autodiscovery

  /**
   * `add_vars(varmap)`: a missing `long_description` is read from the
   * README, then a missing `url` is the PyPI page; either can raise, and
   * an error in the second keeps what the first added.
   */
  function VarsStep(vars: map<string, Value>, readme: seq<string>): (r: Step)
  {
    var described :=
      if "long_description" in vars then Ok(vars)
      else match LongDescription(vars, readme, NoneValue, NoneValue, NoneValue, NoneValue)
        case Err(m) => Err(m)
        case Ok(text) => Ok(vars["long_description" := Str(text)]);
    if described.Err? then (Some(described.msg), vars)
    else if "url" in described.value then (None, described.value)
    else
      match PypiUrl(described.value)
      case Err(m) => (Some(m), described.value)
      case Ok(url) => (None, described.value["url" := Str(url)])
  }

  /** `add_vars` adds the long description and URL when missing and keeps every other variable. */
  lemma VarsStepAdds(vars: map<string, Value>, readme: seq<string>)
    ensures var r := VarsStep(vars, readme);
      r.0.None? <==>
    ("long_description" in vars || LongDescription(vars, readme, NoneValue, NoneValue, NoneValue, NoneValue).Ok?)
        && ("url" in vars || "name" in vars)
    ensures var r := VarsStep(vars, readme);
      r.0.None? ==> "long_description" in r.1 && "url" in r.1
    ensures var r := VarsStep(vars, readme);
      r.0.None? && "long_description" !in vars ==>
    r.1["long_description"] == Str(LongDescription(vars, readme, NoneValue, NoneValue, NoneValue, NoneValue).value)
    ensures var r := VarsStep(vars, readme);
      r.0.None? && "url" !in vars ==> r.1["url"] == Str(PypiUrl(vars).value)
    ensures var r := VarsStep(vars, readme);
      forall k :: k in vars ==> k in r.1 && r.1[k] == vars[k]
    ensures var r := VarsStep(vars, readme);
      SameExcept(vars, r.1, {"long_description", "url"})
  {
  }

  /**
   * What scanning the file system finds for a setup variable, given the
   * root package directory (`None` for the scans that do not use it) and
   * the variables as they are when the scan runs.
   */
  type Scan = (string, Value, map<string, Value>) -> Value

  /**
   * One `add_*` step of `autodiscover_all`: a missing variable is filled
   * with what the scan finds; the steps that list the root package's
   * directory ask `package_root` first, which can record it in
   * `package_dir` or raise.
   */
  function Discovered(vars: map<string, Value>, key: string, usesRoot: bool, scan: Scan): (r: Step)
  {
    if key in vars then (None, vars)
    else if !usesRoot then (None, vars[key := scan(key, NoneValue, vars)])
    else
      PackageRootKeeps(vars);
      var root := PackageRootStep(vars);
      if root.0.Err? then (Some(root.0.msg), vars)
      else (None, root.1[key := scan(key, root.0.value, root.1)])
  }

  /** A discovery step fills its variable unless `package_root` raises, and changes nothing else but `package_dir`. */
  lemma DiscoveredFills(vars: map<string, Value>, key: string, usesRoot: bool, scan: Scan)
    ensures var r := Discovered(vars, key, usesRoot, scan);
      r.0.Some? <==> key !in vars && usesRoot && PackageRootStep(vars).0.Err?
    ensures var r := Discovered(vars, key, usesRoot, scan);
      r.0.Some? ==> r.1 == vars
    ensures var r := Discovered(vars, key, usesRoot, scan);
      r.0.None? ==> key in r.1
    ensures var r := Discovered(vars, key, usesRoot, scan);
      key in vars ==> r == (None, vars)
    ensures var r := Discovered(vars, key, usesRoot, scan);
      SameExcept(vars, r.1, {key, "package_dir"})
    ensures var r := Discovered(vars, key, usesRoot, scan);
      forall k :: k in vars && k != "package_dir" ==> k in r.1 && r.1[k] == vars[k]
  {
  }

  /** The steps of `autodiscover_all`, in order, each with whether it needs the root package. */
  const DiscoverySteps: seq<(string, bool)> := [
    ("py_modules", true), ("packages", true), ("package_data", true),
    ("ext_modules", true), ("data_files", false), ("scripts", false)
  ]

  /** Discovery steps in turn; the first error stops the rest. */
  function DiscoverSteps(vars: map<string, Value>, steps: seq<(string, bool)>, scan: Scan): (r: Step)
    ensures r.0.Some? ==> exists j :: 0 <= j < |steps| && steps[j].1
    decreases |steps|
  {
    if steps == [] then (None, vars)
    else
      var d := Discovered(vars, steps[0].0, steps[0].1, scan);
      if d.0.Some? then d else DiscoverSteps(d.1, steps[1..], scan)
  }

  /**
   * After discovery every step's variable is there, and no variable that
   * was there changed, save `package_dir`.
   */
  lemma {:induction false} DiscoverStepsKeeps(vars: map<string, Value>, steps: seq<(string, bool)>, scan: Scan)
    requires forall j :: 0 <= j < |steps| ==> steps[j].0 != "package_dir"
    ensures var r := DiscoverSteps(vars, steps, scan);
      r.0.None? ==> forall j :: 0 <= j < |steps| ==> steps[j].0 in r.1
    ensures var r := DiscoverSteps(vars, steps, scan);
      forall k :: k in vars && k != "package_dir" ==> k in r.1 && r.1[k] == vars[k]
    decreases |steps|
  {
    if steps != [] {
      var d := Discovered(vars, steps[0].0, steps[0].1, scan);
      DiscoveredFills(vars, steps[0].0, steps[0].1, scan);
      if d.0.None? {
        assert forall j :: 0 <= j < |steps[1..]| ==> steps[1..][j] == steps[j + 1];
        DiscoverStepsKeeps(d.1, steps[1..], scan);
        var r := DiscoverSteps(d.1, steps[1..], scan);
        assert DiscoverSteps(vars, steps, scan) == r;
        forall j | 0 <= j < |steps| && r.0.None? ensures steps[j].0 in r.1 {
          if j > 0 {
            assert steps[j].0 == steps[1..][j - 1].0;
          }
        }
      }
    }
  }

  /** The variables `autodiscover_all` fills in. */
  const DiscoveredKeys: set<string> := {"py_modules", "packages", "package_data", "ext_modules", "data_files", "scripts"}

  /** The discovery steps fill exactly the discovered variables, none of them `package_dir`. */
  lemma DiscoveryStepKeys()
    ensures forall j :: 0 <= j < |DiscoverySteps| ==> DiscoverySteps[j].0 != "package_dir"
    ensures DiscoveredKeys == set j | 0 <= j < |DiscoverySteps| :: DiscoverySteps[j].0
  {
    var keys := set j | 0 <= j < |DiscoverySteps| :: DiscoverySteps[j].0;
    assert DiscoverySteps[0].0 in keys && DiscoverySteps[1].0 in keys && DiscoverySteps[2].0 in keys;
    assert DiscoverySteps[3].0 in keys && DiscoverySteps[4].0 in keys && DiscoverySteps[5].0 in keys;
  }

  /** Discovery that succeeds leaves every discovered variable set. */
  lemma DiscoverAllSets(vars: map<string, Value>, scan: Scan)
    ensures var r := DiscoverSteps(vars, DiscoverySteps, scan);
      r.0.None? ==> DiscoveredKeys <= r.1.Keys
    ensures var r := DiscoverSteps(vars, DiscoverySteps, scan);
      forall k :: k in vars && k != "package_dir" ==> k in r.1 && r.1[k] == vars[k]
  {
    DiscoveryStepKeys();
    DiscoverStepsKeeps(vars, DiscoverySteps, scan);
    var r := DiscoverSteps(vars, DiscoverySteps, scan);
    if r.0.None? {
      forall x | x in DiscoveredKeys ensures x in r.1.Keys {
        var j :| 0 <= j < |DiscoverySteps| && DiscoverySteps[j].0 == x;
      }
    }
  }

  /**
   * The names `convert_lists` goes through, as a set (converting does not
   * depend on their order), or the error iterating `listnames` raises.
   */
  function ListNames(vars: map<string, Value>): Result<set<string>> {
    if "listnames" !in vars then Ok(Members(DefaultListNames))
    else match vars["listnames"]
      case Strs(items) => Ok(Members(items))
      case Str(s) => Ok(Members(Chars(s)))
      case Dict(entries) => Ok(entries.Keys)
      case _ => Err("TypeError: object is not iterable")
  }

  /** `convert_lists(varmap)` as a step. */
  function ConvertStep(vars: map<string, Value>): Step {
    match ListNames(vars)
    case Err(m) => (Some(m), vars)
    case Ok(names) => (None, ConvertAll(vars, names))
  }

  /**
   * The steps of `setup_vars`' autodiscovery before the file system is
   * scanned: `add_vars`, `convert_lists`, `add_classifiers`; the first
   * exception stops the rest.
   */
  function PrepareSteps(vars: map<string, Value>, readme: seq<string>): Step {
    var added := VarsStep(vars, readme);
    if added.0.Some? then added
    else
      var converted := ConvertStep(added.1);
      if converted.0.Some? then converted else ClassifiersStep(converted.1)
  }

  /** All of `setup_vars`' autodiscovery: the prepared variables, then `autodiscover_all`. */
  function AutodiscoverSteps(vars: map<string, Value>, readme: seq<string>, scan: Scan): Step {
    var prepared := PrepareSteps(vars, readme);
    if prepared.0.Some? then prepared else DiscoverSteps(prepared.1, DiscoverySteps, scan)
  }

  /**
   * With a name, prepared variables are described and carry the completed
   * classifiers, sorted and naming the language.
   */
  lemma PreparedDescribed(vars: map<string, Value>, readme: seq<string>)
    requires "name" in vars
    ensures var r := PrepareSteps(vars, readme);
      r.0.None? ==> Described(r.1)
    ensures var r := PrepareSteps(vars, readme);
      r.0.None? ==>
        && "classifiers" in r.1 && r.1["classifiers"].Strs?
        && SortedBy(r.1["classifiers"].items, StrKey, false) && HasLanguage(r.1["classifiers"].items)
  {
    VarsStepAdds(vars, readme);
    var added := VarsStep(vars, readme);
    if added.0.None? && ConvertStep(added.1).0.None? {
      ClassifiersStepDescribed(ConvertStep(added.1).1);
    }
  }

  /** `add_vars` leaves the list names as they were. */
  lemma VarsStepListNames(vars: map<string, Value>, readme: seq<string>)
    ensures ListNames(VarsStep(vars, readme).1) == ListNames(vars)
  {
    VarsStepAdds(vars, readme);
    assert "listnames" !in {"long_description", "url"};
  }

  /** `add_classifiers` keeps any variable other than `classifiers` and `license`. */
  lemma ClassifiersStepKeepsOther(vars: map<string, Value>, k: string)
    requires k != "classifiers" && k != "license"
    ensures k in vars ==> k in ClassifiersStep(vars).1 && ClassifiersStep(vars).1[k] == vars[k]
  {
    ClassifiersStepFrame(vars);
  }

  /** A variable that is not listed comes through `convert_lists` as `add_vars` left it. */
  lemma ConvertedKeeps(vars: map<string, Value>, readme: seq<string>, k: string)
    requires ListNames(vars).Ok? ==> k !in ListNames(vars).value
    ensures var added := VarsStep(vars, readme);
      var converted := ConvertStep(added.1);
      added.0.None? && converted.0.None? && k in added.1 ==> k in converted.1 && converted.1[k] == added.1[k]
  {
    VarsStepListNames(vars, readme);
  }

  /** A variable that is not listed and not a classifier input comes through the preparing steps as `add_vars` left it. */
  lemma PreparedKeeps(vars: map<string, Value>, readme: seq<string>, k: string)
    requires k != "classifiers" && k != "license"
    requires ListNames(vars).Ok? ==> k !in ListNames(vars).value
    ensures var added := VarsStep(vars, readme).1;
      var r := PrepareSteps(vars, readme);
      r.0.None? && k in added ==> k in r.1 && r.1[k] == added[k]
  {
    ConvertedKeeps(vars, readme, k);
    var added := VarsStep(vars, readme);
    if added.0.None? {
      ClassifiersStepKeepsOther(ConvertStep(added.1).1, k);
    }
  }

  /**
   * A variable the later steps do not rewrite reaches the end of
   * autodiscovery as `add_vars` left it, and so, when `distutils.setup`
   * accepts it, the result of `setup_vars`.
   */
  lemma AddedPassThrough(vars: map<string, Value>, readme: seq<string>, scan: Scan, k: string)
    requires k != "classifiers" && k != "license" && k != "package_dir"
    requires ListNames(vars).Ok? ==> k !in ListNames(vars).value
    ensures var added := VarsStep(vars, readme).1;
      var r := AutodiscoverSteps(vars, readme, scan);
      r.0.None? && k in added ==>
        k in r.1 && r.1[k] == added[k] && (k in DistutilsKeywords ==> Keywords(r.1)[k] == added[k])
  {
    PreparedKeeps(vars, readme, k);
    var prepared := PrepareSteps(vars, readme);
    if prepared.0.None? {
      DiscoverAllSets(prepared.1, scan);
    }
  }

  /** So a variable declared in `setup.py`, such as the version, passes through unchanged. */
  lemma DeclaredPassThrough(vars: map<string, Value>, readme: seq<string>, scan: Scan, k: string)
    requires k in vars && k != "classifiers" && k != "license" && k != "package_dir"
    requires ListNames(vars).Ok? ==> k !in ListNames(vars).value
    ensures var r := AutodiscoverSteps(vars, readme, scan);
      r.0.None? ==> k in r.1 && r.1[k] == vars[k] && (k in DistutilsKeywords ==> Keywords(r.1)[k] == vars[k])
  {
    VarsStepAdds(vars, readme);
    AddedPassThrough(vars, readme, scan, k);
  }

  /**
   * A missing long description ends up as the one `add_vars` extracts from
   * the README, and a missing URL as the PyPI one.
   */
  lemma DescriptionPassThrough(vars: map<string, Value>, readme: seq<string>, scan: Scan)
    requires ListNames(vars).Ok? ==> "long_description" !in ListNames(vars).value && "url" !in ListNames(vars).value
    ensures var r := AutodiscoverSteps(vars, readme, scan);
      var ld := LongDescription(vars, readme, NoneValue, NoneValue, NoneValue, NoneValue);
      r.0.None? && "long_description" !in vars ==> ld.Ok? && "long_description" in r.1 && r.1["long_description"] == Str(ld.value)
    ensures var r := AutodiscoverSteps(vars, readme, scan);
      r.0.None? && "url" !in vars ==> PypiUrl(vars).Ok? && "url" in r.1 && r.1["url"] == Str(PypiUrl(vars).value)
  {
    VarsStepAdds(vars, readme);
    AddedPassThrough(vars, readme, scan, "long_description");
    AddedPassThrough(vars, readme, scan, "url");
  }

  lemma FirstEndingWithIs(trove: seq<string>, status: string, i: nat)
    requires i < |trove| && EndsWith(trove[i], status)
    requires forall j :: 0 <= j < i ==> !EndsWith(trove[j], status)
    ensures FirstEndingWith(trove, status) == Some(i)
  {
  }

  lemma FirstEndingWithNone(trove: seq<string>, status: string)
    requires forall j :: 0 <= j < |trove| ==> !EndsWith(trove[j], status)
    ensures FirstEndingWith(trove, status).None?
  {
  }

  // ---------------------------------------------------------------------
  // the mapping the helpers update in place

  class VarMap {
    var vars: map<string, Value>

    constructor (vars: map<string, Value>)
      ensures this.vars == vars
    {
      this.vars := vars;
    }

    /**
     * `convert_lists(varmap)`: every listed variable that holds a string
     * becomes the list of its stripped lines. The names come from the
     * `listnames` variable when there is one (iterating a string gives its
     * characters, a dict its keys), else the four default ones.
     */
    method ConvertLists() returns (names: seq<string>, err: Option<string>)
      modifies this
      ensures "listnames" !in old(vars) ==> names == DefaultListNames
      ensures "listnames" in old(vars) && old(vars)["listnames"].Strs? ==> names == old(vars)["listnames"].items
      ensures "listnames" in old(vars) && old(vars)["listnames"].Str? ==> names == Chars(old(vars)["listnames"].s)
      ensures "listnames" in old(vars) && old(vars)["listnames"].Dict? ==>
        forall n :: n in names <==> n in old(vars)["listnames"].entries
      ensures err.Some? <==> "listnames" in old(vars) && (old(vars)["listnames"].NoneValue? || old(vars)["listnames"].Int? || old(vars)["listnames"].Other?)
      ensures err.None? ==> vars == ConvertAll(old(vars), Members(names))
      ensures err.Some? ==> vars == old(vars)
      ensures (err, vars) == ConvertStep(old(vars))
    {
      err := None;
      if "listnames" in vars {
        match vars["listnames"]
        case Strs(items) => names := items;
        case Str(s) => names := Chars(s);
        case Dict(entries) =>
          names := Named.Enumerate(entries.Keys);
          assert Members(names) == entries.Keys;
        case _ =>
          names := [];
          err := Some("TypeError: object is not iterable");
          return;
      } else {
        names := DefaultListNames;
      }
      ConvertNamed(names);
    }

    /** The loop of `convert_lists` over the listed names. */
    method ConvertNamed(names: seq<string>)
      modifies this
      ensures vars == ConvertAll(old(vars), Members(names))
    {
      for i := 0 to |names|
        invariant vars == ConvertAll(old(vars), Members(names[..i]))
      {
        var listname := names[i];
        ConvertAllSnoc(old(vars), Members(names[..i]), listname);
        assert names[..i + 1] == names[..i] + [listname];
        assert Members(names[..i + 1]) == Members(names[..i]) + {listname};
        if listname in vars {
          var v := vars[listname];
          if v.Str? {
            vars := vars[listname := Strs(SplitLines(Strip(v.s)))];
          }
        }
      }
      assert names[..|names|] == names;
    }

    /** `add_classifier_python(varmap)`. */
    method AddClassifierPython() returns (err: Option<string>)
      modifies this
      ensures (err, vars) == PythonStep(old(vars))
    {
      err := None;
      var classifiers := if "classifiers" in vars then vars["classifiers"] else Strs([]);
      match classifiers
      case Strs(cs) =>
        if !HasLanguage(cs) {
          vars := vars["classifiers" := Strs(cs + [PythonClassifier])];
        }
      case Str(_) =>
        err := Some("AttributeError: 'str' object has no attribute 'append'");
      case Dict(entries) =>
        if !(exists k :: k in entries && StartsWith(k, LanguagePrefix)) {
          err := Some("AttributeError: 'dict' object has no attribute 'append'");
        }
      case _ =>
        err := Some("TypeError: object is not iterable");
    }

    /** `varmap.setdefault('classifiers', []).append(c)`. */
    method AppendClassifier(c: string) returns (err: Option<string>)
      modifies this
      ensures (err, vars) == Appended(old(vars), c)
    {
      err := None;
      var classifiers := if "classifiers" in vars then vars["classifiers"] else Strs([]);
      if classifiers.Strs? {
        vars := vars["classifiers" := Strs(classifiers.items + [c])];
      } else {
        err := Some("AttributeError: object has no attribute 'append'");
      }
    }

    /** `add_classifier_license(varmap)`. */
    method AddClassifierLicense() returns (err: Option<string>)
      modifies this
      ensures (err, vars) == LicenseStep(old(vars))
    {
      err := None;
      if "license" !in vars {
        return;
      }
      var license := vars["license"];
      if license.Strs? || license.Dict? {
        err := Some("TypeError: unhashable type");
        return;
      }
      if license.Str? && license.s in LicenseMap {
        var c := LicenseMap[license.s];
        err := AppendClassifier(c);
        if err.None? {
          vars := vars - {"license"};
        }
      }
    }

    /** `add_classifier_dev_status(varmap)`: the loop over the trove stops at the first line that ends with the status. */
    method AddClassifierDevStatus() returns (err: Option<string>)
      modifies this
      ensures (err, vars) == DevStatusStep(old(vars))
    {
      err := None;
      if "dev_status" !in vars {
        return;
      }
      var status := vars["dev_status"];
      if !status.Str? {
        err := Some("TypeError: endswith first arg must be str or a tuple of str");
        return;
      }
      var i := 0;
      while i < |DevStatusTrove|
        invariant 0 <= i <= |DevStatusTrove|
        invariant forall j :: 0 <= j < i ==> !EndsWith(DevStatusTrove[j], status.s)
        invariant vars == old(vars)
      {
        if EndsWith(DevStatusTrove[i], status.s) {
          FirstEndingWithIs(DevStatusTrove, status.s, i);
          err := AppendClassifier(DevStatusTrove[i]);
          return;
        }
        i := i + 1;
      }
      FirstEndingWithNone(DevStatusTrove, status.s);
    }

    /** `add_classifiers(varmap)`. */
    method AddClassifiers() returns (err: Option<string>)
      modifies this
      ensures (err, vars) == ClassifiersStep(old(vars))
    {
      err := AddClassifierPython();
      if err.Some? {
        return;
      }
      err := AddClassifierLicense();
      if err.Some? {
        return;
      }
      err := AddClassifierDevStatus();
      if err.Some? {
        return;
      }
      AfterDevStatusLanguage(old(vars));
      vars := vars["classifiers" := SortClassifiers(vars["classifiers"])];
    }

    /** `package_root(varmap)`, recording a `package_root` variable as `package_dir['']`. */
    method PackageRoot() returns (r: Result<Value>)
      modifies this
      ensures (r, vars) == PackageRootStep(old(vars))
    {
      if "package_dir" in vars {
        var dirs := vars["package_dir"];
        if !dirs.Dict? {
          return Err("TypeError: object is not subscriptable by a string");
        }
        if "" in dirs.entries {
          return Ok(dirs.entries[""]);
        }
      }
      if "package_root" !in vars {
        return Ok(Str("."));
      }
      var result := vars["package_root"];
      var dirmap := if "package_dir" in vars then vars["package_dir"].entries else map[];
      vars := vars["package_dir" := Dict(dirmap["" := result])];
      return Ok(result);
    }

    /** `add_vars(varmap)`. */
    method AddVars(readme: seq<string>) returns (err: Option<string>)
      modifies this
      ensures (err, vars) == VarsStep(old(vars), readme)
    {
      err := None;
      if "long_description" !in vars {
        match LongDescription(vars, readme, NoneValue, NoneValue, NoneValue, NoneValue)
        case Err(m) =>
          err := Some(m);
          return;
        case Ok(text) =>
          vars := vars["long_description" := Str(text)];
      }
      if "url" !in vars {
        match PypiUrl(vars)
        case Err(m) =>
          err := Some(m);
          return;
        case Ok(url) =>
          vars := vars["url" := Str(url)];
      }
    }

    /** One `add_*` step of `autodiscover_all`. */
    method AddDiscovered(key: string, usesRoot: bool, scan: Scan) returns (err: Option<string>)
      modifies this
      ensures (err, vars) == Discovered(old(vars), key, usesRoot, scan)
    {
      err := None;
      if key in vars {
        return;
      }
      var root := NoneValue;
      if usesRoot {
        var r := PackageRoot();
        if r.Err? {
          err := Some(r.msg);
          return;
        }
        root := r.value;
      }
      vars := vars[key := scan(key, root, vars)];
    }

    /**
     * `autodiscover_all(varmap)`: modules, packages, package data and
     * extensions (which need the root package), then data files and
     * scripts, each only when missing.
     */
    method AutodiscoverAll(scan: Scan) returns (err: Option<string>)
      modifies this
      ensures (err, vars) == DiscoverSteps(old(vars), DiscoverySteps, scan)
    {
      ghost var goal := DiscoverSteps(vars, DiscoverySteps, scan);
      err := AddDiscovered("py_modules", true, scan);
      if err.Some? { return; }
      assert goal == DiscoverSteps(vars, DiscoverySteps[1..], scan);
      err := AddDiscovered("packages", true, scan);
      if err.Some? { return; }
      assert goal == DiscoverSteps(vars, DiscoverySteps[2..], scan);
      err := AddDiscovered("package_data", true, scan);
      if err.Some? { return; }
      assert goal == DiscoverSteps(vars, DiscoverySteps[3..], scan);
      err := AddDiscovered("ext_modules", true, scan);
      if err.Some? { return; }
      assert goal == DiscoverSteps(vars, DiscoverySteps[4..], scan);
      err := AddDiscovered("data_files", false, scan);
      if err.Some? { return; }
      assert goal == DiscoverSteps(vars, DiscoverySteps[5..], scan);
      err := AddDiscovered("scripts", false, scan);
      assert goal == (err, vars);
    }
  }

  /** A name, a long description and a URL: what `setup_vars` always hands on after autodiscovery. */
  predicate Described(vars: map<string, Value>) {
    "name" in vars && "long_description" in vars && "url" in vars
  }

  /** The keyword filter keeps the name, the description, the URL, the classifiers and what discovery sets. */
  lemma KeywordsKeep(vars: map<string, Value>)
    ensures "name" in vars ==> "name" in Keywords(vars)
    ensures Described(vars) ==> Described(Keywords(vars))
    ensures "classifiers" in vars ==> "classifiers" in Keywords(vars)
    ensures DiscoveredKeys <= vars.Keys ==> DiscoveredKeys * DistutilsKeywords <= Keywords(vars).Keys
  {
  }

  /**
   * The first steps of `setup_vars`' autodiscovery, on its copy of the
   * mapping: the long description and URL added, listed strings converted,
   * classifiers completed and sorted; the first exception stops the rest.
   */
  method PrepareVars(copy: VarMap, readme: seq<string>) returns (err: Option<string>)
    requires "name" in copy.vars
    modifies copy
    ensures (err, copy.vars) == PrepareSteps(old(copy.vars), readme)
    ensures err.None? ==> Described(copy.vars)
    ensures err.None? ==>
      && "classifiers" in copy.vars && copy.vars["classifiers"].Strs?
      && SortedBy(copy.vars["classifiers"].items, StrKey, false) && HasLanguage(copy.vars["classifiers"].items)
  {
    PreparedDescribed(copy.vars, readme);
    err := copy.AddVars(readme);
    if err.Some? {
      return;
    }
    var names;
    names, err := copy.ConvertLists();
    if err.Some? {
      return;
    }
    err := copy.AddClassifiers();
  }

  /**
   * The autodiscovery half of `setup_vars`, on its copy of the mapping:
   * the prepared variables, then the rest discovered; the first exception
   * stops the rest.
   */
  method Autodiscover(copy: VarMap, readme: seq<string>, scan: Scan) returns (err: Option<string>)
    requires "name" in copy.vars
    modifies copy
    ensures (err, copy.vars) == AutodiscoverSteps(old(copy.vars), readme, scan)
    ensures err.None? ==> Described(copy.vars) && DiscoveredKeys <= copy.vars.Keys
    ensures err.None? ==>
      && "classifiers" in copy.vars && copy.vars["classifiers"].Strs?
      && SortedBy(copy.vars["classifiers"].items, StrKey, false) && HasLanguage(copy.vars["classifiers"].items)
  {
    err := PrepareVars(copy, readme);
    if err.Some? {
      return;
    }
    ghost var classified := copy.vars;
    err := copy.AutodiscoverAll(scan);
    if err.Some? {
      return;
    }
    DiscoverAllSets(classified, scan);
  }

  /**
   * `setup_vars(varmap)`: `ValueError` without a name; otherwise, on a copy
   * of the mapping, the long description and URL added, listed strings
   * converted, classifiers completed and sorted, the rest discovered; then
   * only the variables `distutils.setup` accepts. The caller's mapping is
   * not changed.
   */
  method SetupVars(varmap: VarMap, autodiscover: bool, readme: seq<string>, scan: Scan)
    returns (r: Result<map<string, Value>>)
    ensures "name" !in varmap.vars ==> r.Err?
    ensures !autodiscover ==> r == if "name" in varmap.vars then Ok(Keywords(varmap.vars)) else Err("ValueError: You must supply a program name.")
    ensures r.Ok? ==> r.value.Keys <= DistutilsKeywords && "name" in r.value
    ensures autodiscover && r.Ok? ==> "long_description" in r.value && "url" in r.value
    ensures autodiscover && r.Ok? ==>
      && "classifiers" in r.value && r.value["classifiers"].Strs?
      && SortedBy(r.value["classifiers"].items, StrKey, false) && HasLanguage(r.value["classifiers"].items)
    ensures autodiscover && r.Ok? ==> DiscoveredKeys * DistutilsKeywords <= r.value.Keys
    ensures autodiscover && "name" in varmap.vars ==>
      var steps := AutodiscoverSteps(varmap.vars, readme, scan);
      r == if steps.0.Some? then Err(steps.0.value) else Ok(Keywords(steps.1))
  {
    var copy := new VarMap(varmap.vars);
    if "name" !in copy.vars {
      return Err("ValueError: You must supply a program name.");
    }
    if autodiscover {
      var err := Autodiscover(copy, readme, scan);
      if err.Some? {
        return Err(err.value);
      }
    }
    KeywordsKeep(copy.vars);
    return Ok(Keywords(copy.vars));
  }
}
