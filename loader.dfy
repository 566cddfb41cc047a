/**
 * Resolving extension names to modules (`simpleblog/sub.py`) and loading
 * the configured extensions in order (`simpleblog/ext.py`).
 *
 * Python's import machinery is abstracted as two maps: the modules a plain
 * `import_module(name)` finds with the user directory on the path, and the
 * built-in modules by dotted path. `first_subclass` is a parameter.
 */
module Loader {
  import opened Wrappers
  import opened Text
  import opened Dispatch
  import opened Registry

  /** A module found by `import_module`, identified by its dotted path. */
  datatype Module<K> = Module(path: string, classes: seq<K>)

  /** Hyphens in a requested name become underscores. */
  function NormalName(name: string): (n: string)
    ensures |n| == |name| && '-' !in n
    ensures forall i :: 0 <= i < |name| && name[i] != '-' ==> n[i] == name[i]
  {
    ReplaceChar(name, '-', '_')
  }

  /** The dotted path of a built-in module of the given subtype. */
  function BuiltinPath(subtype: string, n: string): string {
    "simpleblog." + subtype + "s." + n
  }

  /**
   * The module `load_submodule` settles on: the user's module takes
   * precedence when a user directory is configured; otherwise, or when it
   * cannot be imported, the built-in module of that subtype.
   */
  function FoundModule<K>(subtype: string, subdir: string, n: string,
                          user: map<string, Module<K>>, builtin: map<string, Module<K>>): (m: Option<Module<K>>)
    ensures subdir != "" && n in user ==> m == Some(user[n])
    ensures !(subdir != "" && n in user) ==>
      m == if BuiltinPath(subtype, n) in builtin then Some(builtin[BuiltinPath(subtype, n)]) else None
  {
    if subdir != "" && n in user then Some(user[n])
    else if BuiltinPath(subtype, n) in builtin then Some(builtin[BuiltinPath(subtype, n)])
    else None
  }

  /**
   * `load_submodule`: the module found for the normalised name and the
   * first qualifying class in it, or the error naming what was missing.
   */
  function LoadSubmodule<K>(subtype: string, subdir: string, name: string,
                            user: map<string, Module<K>>, builtin: map<string, Module<K>>,
                            firstSubclass: Module<K> -> Option<K>): (r: Result<(Module<K>, K)>)
    ensures var m := FoundModule(subtype, subdir, NormalName(name), user, builtin);
      && (m.None? ==> r == Err(subtype + " " + NormalName(name) + " not found!"))
      && (m.Some? && firstSubclass(m.value).None? ==> r == Err("no " + subtype + " in " + NormalName(name) + " module!"))
      && (m.Some? && firstSubclass(m.value).Some? ==> r == Ok((m.value, firstSubclass(m.value).value)))
  {
    var n := NormalName(name);
    var mod := if subdir != "" && n in user then Some(user[n]) else None;
    if mod.None? && BuiltinPath(subtype, n) !in builtin then Err(subtype + " " + n + " not found!")
    else
      var m := if mod.Some? then mod.value else builtin[BuiltinPath(subtype, n)];
      match firstSubclass(m)
      case None => Err("no " + subtype + " in " + n + " module!")
      case Some(klass) => Ok((m, klass))
  }

  /** The error a missing module gives. */
  lemma NotFoundMessage<K>(subtype: string, subdir: string, name: string,
                           user: map<string, Module<K>>, builtin: map<string, Module<K>>,
                           firstSubclass: Module<K> -> Option<K>)
    requires subdir == "" || NormalName(name) !in user
    requires BuiltinPath(subtype, NormalName(name)) !in builtin
    ensures LoadSubmodule(subtype, subdir, name, user, builtin, firstSubclass)
      == Err(subtype + " " + NormalName(name) + " not found!")
  {
  }

  // ---------------------------------------------------------------------
  // the imports of the built-in extension modules

  /** The names the built-in extension modules import from `simpleblog.extensions`. */
  datatype Name = BlogExtension | NamedEntries | BlogMixin | EntryMixin | GetLinks

  function Spelled(n: Name): string {
    match n
    case BlogExtension => "BlogExtension"
    case NamedEntries => "NamedEntries"
    case BlogMixin => "BlogMixin"
    case EntryMixin => "EntryMixin"
    case GetLinks => "get_links"
  }

  /**
   * `from package import names`: each name must be defined at the
   * package's top level; the first one missing raises `ImportError`.
   */
  function ImportFrom(names: seq<Name>, defined: set<Name>): (r: Result<()>)
    ensures r.Ok? <==> forall i :: 0 <= i < |names| ==> names[i] in defined
    ensures r.Err? ==> exists i :: 0 <= i < |names| && names[i] !in defined && r.msg == "cannot import name " + Spelled(names[i])
  {
    if names == [] then Ok(())
    else if names[0] !in defined then Err("cannot import name " + Spelled(names[0]))
    else
      var r := ImportFrom(names[1..], defined);
      assert r.Err? ==> exists i :: 1 <= i < |names| && names[i] !in defined && r.msg == "cannot import name " + Spelled(names[i]) by {
        if r.Err? {
          var i :| 0 <= i < |names[1..]| && names[1..][i] !in defined && r.msg == "cannot import name " + Spelled(names[1..][i]);
          assert names[i + 1] == names[1..][i];
        }
      }
      r
  }

  /**
   * Of those names, the ones `simpleblog/extensions/__init__.py` defines:
   * its two classes. `get_links` is a method of `BlogExtension`, and
   * neither mixin base class is defined or imported there.
   */
  const ExtensionsPackageNames: set<Name> := {BlogExtension, NamedEntries}

  /** The built-in extension modules, the files of `simpleblog/extensions`. */
  datatype Ext = Archives | Categories | Copyright | Feed | Folding | Grouping | Indexes | Links
               | Localize | Paginate | Quote | RenderMarkdown | Tags | Timestamps | Timezone | Title

  /** The module name an extension is requested by. */
  function ModuleName(e: Ext): (n: string)
    ensures n != [] && '-' !in n
  {
    match e
    case Archives => "archives"
    case Categories => "categories"
    case Copyright => "copyright"
    case Feed => "feed"
    case Folding => "folding"
    case Grouping => "grouping"
    case Indexes => "indexes"
    case Links => "links"
    case Localize => "localize"
    case Paginate => "paginate"
    case Quote => "quote"
    case RenderMarkdown => "render_markdown"
    case Tags => "tags"
    case Timestamps => "timestamps"
    case Timezone => "timezone"
    case Title => "title"
  }

  /** What each built-in extension module imports from `simpleblog.extensions`, as written. */
  function ImportsAsWritten(e: Ext): seq<Name> {
    match e
    case Categories => [BlogExtension, NamedEntries, GetLinks]
    case Feed => [BlogExtension, BlogMixin, EntryMixin]
    case Folding | Links | RenderMarkdown | Timezone => [BlogExtension, EntryMixin]
    case Tags => [BlogExtension, EntryMixin, NamedEntries]
    case _ => [BlogExtension]
  }

  /**
   * The imports as intended: `categories` reaches `get_links` through
   * `self`, as `tags` does, so does not import it.
   */
  function Imports(e: Ext): seq<Name> {
    if e == Categories then [BlogExtension, NamedEntries] else ImportsAsWritten(e)
  }

  /** The package as intended: it also defines the two mixin base classes the extensions build on. */
  const ExtensionsPackageNamesIntended: set<Name> := ExtensionsPackageNames + {BlogMixin, EntryMixin}

  /** The built-in modules `import_module` can load: one whose own imports fail is not among them. */
  function Importable<K>(builtin: map<string, Module<K>>, e: Ext, imports: seq<Name>, defined: set<Name>): map<string, Module<K>> {
    if ImportFrom(imports, defined).Err? then builtin - {BuiltinPath("extension", ModuleName(e))} else builtin
  }

  /**
   * As written, exactly seven built-in extensions fail to import: each
   * names a `get_links`, `BlogMixin` or `EntryMixin` that
   * `simpleblog.extensions` does not define.
   */
  lemma ExtensionImportsFail()
    ensures forall e: Ext :: ImportFrom(ImportsAsWritten(e), ExtensionsPackageNames).Err? <==>
      e in {Categories, Feed, Folding, Links, RenderMarkdown, Tags, Timezone}
  {
    forall e: Ext ensures ImportFrom(ImportsAsWritten(e), ExtensionsPackageNames).Err? <==>
      e in {Categories, Feed, Folding, Links, RenderMarkdown, Tags, Timezone}
    {
      var names := ImportsAsWritten(e);
      if e == Categories {
        assert names[2] !in ExtensionsPackageNames;
      } else if e in {Feed, Folding, Links, RenderMarkdown, Tags, Timezone} {
        assert names[1] !in ExtensionsPackageNames;
      } else {
        assert names == [BlogExtension];
      }
    }
  }

  /** The message for `categories`. */
  lemma CategoriesImportMessage()
    ensures ImportFrom(ImportsAsWritten(Categories), ExtensionsPackageNames) == Err("cannot import name get_links")
  {
    var names := ImportsAsWritten(Categories);
    assert names == [BlogExtension, NamedEntries, GetLinks];
    assert names[1..] == [NamedEntries, GetLinks] && names[1..][1..] == [GetLinks];
    assert ImportFrom([GetLinks], ExtensionsPackageNames) == Err("cannot import name get_links");
  }

  /** A name without hyphens is its own normal form. */
  lemma NormalNameKeeps(n: string)
    requires '-' !in n
    ensures NormalName(n) == n
  {
    assert forall i :: 0 <= i < |n| ==> NormalName(n)[i] == n[i];
  }

  /** A hyphen-free extension name missing from the importable modules is reported as not found. */
  lemma NotFoundExtension<K>(n: string, subdir: string, user: map<string, Module<K>>,
                             hidden: map<string, Module<K>>, firstSubclass: Module<K> -> Option<K>)
    requires '-' !in n
    requires subdir == "" || n !in user
    requires BuiltinPath("extension", n) !in hidden
    ensures LoadSubmodule("extension", subdir, n, user, hidden, firstSubclass) == Err("extension " + n + " not found!")
  {
    NormalNameKeeps(n);
    NotFoundMessage("extension", subdir, n, user, hidden, firstSubclass);
    assert "extension" + " " + n == "extension " + n;
  }

  /**
   * So, as written, asking for one of those extensions ends in
   * `load_submodule`'s "not found" error unless a user module of that name
   * takes precedence.
   */
  lemma FailedImportNotFound<K>(e: Ext, subdir: string, user: map<string, Module<K>>,
                                builtin: map<string, Module<K>>, firstSubclass: Module<K> -> Option<K>)
    requires ImportFrom(ImportsAsWritten(e), ExtensionsPackageNames).Err?
    requires subdir == "" || ModuleName(e) !in user
    ensures LoadSubmodule("extension", subdir, ModuleName(e), user,
                          Importable(builtin, e, ImportsAsWritten(e), ExtensionsPackageNames), firstSubclass)
      == Err("extension " + ModuleName(e) + " not found!")
  {
    var hidden := Importable(builtin, e, ImportsAsWritten(e), ExtensionsPackageNames);
    assert BuiltinPath("extension", ModuleName(e)) !in hidden;
    NotFoundExtension(ModuleName(e), subdir, user, hidden, firstSubclass);
  }

  /** With the intended imports and package every built-in extension imports, and nothing is hidden from the loader. */
  lemma ExtensionImportsResolve<K>(builtin: map<string, Module<K>>)
    ensures forall e: Ext :: ImportFrom(Imports(e), ExtensionsPackageNamesIntended).Ok?
    ensures forall e: Ext :: Importable(builtin, e, Imports(e), ExtensionsPackageNamesIntended) == builtin
  {
    forall e: Ext ensures ImportFrom(Imports(e), ExtensionsPackageNamesIntended).Ok? {
      var names := Imports(e);
      assert forall i :: 0 <= i < |names| ==> names[i] in ExtensionsPackageNamesIntended by {
        if e == Categories {
          assert names == [BlogExtension, NamedEntries];
        } else {
          assert names == ImportsAsWritten(e);
        }
      }
    }
  }

  /**
   * `load_subs`: the names resolved in order, up to the first failure, and
   * that failure's message if there was one.
   */
  function ResolveAll<K>(names: seq<string>, subtype: string, subdir: string,
                         user: map<string, Module<K>>, builtin: map<string, Module<K>>,
                         firstSubclass: Module<K> -> Option<K>): (r: (seq<(Module<K>, K)>, Option<string>))
    ensures |r.0| <= |names|
  {
    if names == [] then ([], None)
    else match LoadSubmodule(subtype, subdir, names[0], user, builtin, firstSubclass)
      case Err(m) => ([], Some(m))
      case Ok(p) =>
        var (rest, err) := ResolveAll(names[1..], subtype, subdir, user, builtin, firstSubclass);
        ([p] + rest, err)
  }

  /**
   * A failure at name `k` comes only after names `0..k-1` were resolved, in
   * order; with no failure every name was resolved.
   */
  lemma {:induction false} ResolveAllInOrder<K>(names: seq<string>, subtype: string, subdir: string,
                                                user: map<string, Module<K>>, builtin: map<string, Module<K>>,
                                                firstSubclass: Module<K> -> Option<K>)
    ensures var r := ResolveAll(names, subtype, subdir, user, builtin, firstSubclass);
      && (r.1.None? <==> |r.0| == |names|)
      && (forall i :: 0 <= i < |r.0| ==>
            LoadSubmodule(subtype, subdir, names[i], user, builtin, firstSubclass) == Ok(r.0[i]))
      && (r.1.Some? ==>
            LoadSubmodule(subtype, subdir, names[|r.0|], user, builtin, firstSubclass) == Err(r.1.value))
    decreases |names|
  {
    if names != [] {
      ResolveAllInOrder(names[1..], subtype, subdir, user, builtin, firstSubclass);
    }
  }

  /** The extensions among `es` that join the dispatch list of `etype`, in order. */
  function JoiningAll<S, V>(es: seq<Extension<S, V>>, etype: string, kinds: set<string>): seq<Extension<S, V>> {
    if es == [] then [] else JoiningAll(es[..|es| - 1], etype, kinds) + Joining(es[|es| - 1], etype, kinds)
  }

  /** The live class of `etype` after every extension of `es` was registered in order. */
  function RelayerAll<S, V>(es: seq<Extension<S, V>>, etype: string, layers: seq<Layer>): seq<Layer> {
    if es == [] then layers else Relayer(es[|es| - 1], etype, RelayerAll(es[..|es| - 1], etype, layers))
  }

  /** The mixins the extensions of `es` declare for `etype`, newest first. */
  function MixinsOf<S, V>(es: seq<Extension<S, V>>, etype: string): (r: seq<Layer>)
    ensures |r| <= |es|
  {
    if es == [] then []
    else if MixinKey(etype) in es[|es| - 1].mixins then
      [es[|es| - 1].mixins[MixinKey(etype)].(etype := etype)] + MixinsOf(es[..|es| - 1], etype)
    else MixinsOf(es[..|es| - 1], etype)
  }

  /**
   * Loading keeps the previous chain intact: the live class is the new
   * mixins, the most recently loaded first, on top of the old class.
   */
  lemma {:induction false} RelayerAllStacks<S, V>(es: seq<Extension<S, V>>, etype: string, layers: seq<Layer>)
    ensures RelayerAll(es, etype, layers) == MixinsOf(es, etype) + layers
    decreases |es|
  {
    if es != [] {
      RelayerAllStacks(es[..|es| - 1], etype, layers);
    }
  }

  lemma RegisterOneMore<S, V>(exts: seq<Extension<S, V>>, e: Extension<S, V>, t: string, kinds: set<string>, layers: seq<Layer>)
    ensures JoiningAll(exts + [e], t, kinds) == JoiningAll(exts, t, kinds) + Joining(e, t, kinds)
    ensures RelayerAll(exts + [e], t, layers) == Relayer(e, t, RelayerAll(exts, t, layers))
  {
    assert (exts + [e])[..|exts + [e]| - 1] == exts;
  }

  /**
   * The registries after the extensions of `exts` were registered in order,
   * starting from `types0` and `extMap0`.
   */
  ghost predicate RegisteredAll<S, V>(exts: seq<Extension<S, V>>, types0: map<string, seq<Layer>>,
                                      extMap0: map<string, seq<Extension<S, V>>>,
                                      types: map<string, seq<Layer>>, extMap: map<string, seq<Extension<S, V>>>) {
    && types.Keys == types0.Keys
    && (forall t :: t in types ==> types[t] == RelayerAll(exts, t, types0[t]))
    && (forall t :: ExtsFor(extMap, t) == ExtsFor(extMap0, t) + JoiningAll(exts, t, types0.Keys))
  }

  /** The outcome of resolving name `i` when names `0..i-1` were resolved. */
  lemma ResolvedAt<K>(names: seq<string>, i: nat, subtype: string, subdir: string,
                      user: map<string, Module<K>>, builtin: map<string, Module<K>>,
                      firstSubclass: Module<K> -> Option<K>, r: Result<(Module<K>, K)>)
    requires i < |names| && i <= |ResolveAll(names, subtype, subdir, user, builtin, firstSubclass).0|
    requires r == LoadSubmodule(subtype, subdir, names[i], user, builtin, firstSubclass)
    ensures var res := ResolveAll(names, subtype, subdir, user, builtin, firstSubclass);
      && (r.Ok? <==> i < |res.0|)
      && (r.Ok? ==> r.value == res.0[i])
      && (r.Err? ==> res.1 == Some(r.msg) && i == |res.0|)
  {
    ResolveAllInOrder(names, subtype, subdir, user, builtin, firstSubclass);
  }

  /** With every name resolved, there was no failure. */
  lemma ResolvedAll<K>(names: seq<string>, subtype: string, subdir: string,
                       user: map<string, Module<K>>, builtin: map<string, Module<K>>,
                       firstSubclass: Module<K> -> Option<K>)
    ensures var res := ResolveAll(names, subtype, subdir, user, builtin, firstSubclass);
      |res.0| == |names| ==> res.1 == None
  {
    ResolveAllInOrder(names, subtype, subdir, user, builtin, firstSubclass);
  }

  /**
   * Every resolved module so far has an extension made from its class, and
   * its `extension` attribute holds the one made for the last resolution of
   * that module.
   */
  ghost predicate Instantiated<C, K, S, V>(exts: seq<Extension<S, V>>, done: seq<(Module<K>, K)>,
                                           bound: map<string, Extension<S, V>>, construct: (K, C) -> Extension<S, V>, cfg: C) {
    && |exts| == |done|
    && (forall j :: 0 <= j < |exts| ==> exts[j] == construct(done[j].1, cfg) && done[j].0.path in bound)
    && (forall j :: 0 <= j < |exts| && LastOfPath(done, j) ==> bound[done[j].0.path] == exts[j])
  }

  /** No module resolved after the `j`-th has the same path. */
  ghost predicate LastOfPath<K>(done: seq<(Module<K>, K)>, j: nat)
    requires j < |done|
  {
    forall l :: j < l < |done| ==> done[l].0.path != done[j].0.path
  }

  lemma InstantiatedStep<C, K, S, V>(exts: seq<Extension<S, V>>, done: seq<(Module<K>, K)>,
                                     bound: map<string, Extension<S, V>>, construct: (K, C) -> Extension<S, V>, cfg: C,
                                     p: (Module<K>, K))
    requires Instantiated(exts, done, bound, construct, cfg)
    ensures Instantiated(exts + [construct(p.1, cfg)], done + [p], bound[p.0.path := construct(p.1, cfg)], construct, cfg)
  {
    var exts', done', bound' := exts + [construct(p.1, cfg)], done + [p], bound[p.0.path := construct(p.1, cfg)];
    forall j | 0 <= j < |exts'| && LastOfPath(done', j)
      ensures bound'[done'[j].0.path] == exts'[j]
    {
      if j < |exts| {
        assert done'[|done|] == p && done'[j] == done[j];
        forall l | j < l < |done|
          ensures done[l].0.path != done[j].0.path
        {
          assert done'[l] == done[l];
        }
      }
    }
  }

  /** The dotted paths of the resolved modules, which are the ones whose `extension` a load sets. */
  ghost function Paths<K>(done: seq<(Module<K>, K)>): (ps: set<string>)
    ensures forall j :: 0 <= j < |done| ==> done[j].0.path in ps
    ensures forall q :: q in ps ==> exists j :: 0 <= j < |done| && done[j].0.path == q
  {
    set j | 0 <= j < |done| :: done[j].0.path
  }

  lemma PathsSnoc<K>(done: seq<(Module<K>, K)>, p: (Module<K>, K))
    ensures Paths(done + [p]) == Paths(done) + {p.0.path}
  {
    var done' := done + [p];
    forall q | q in Paths(done') ensures q in Paths(done) + {p.0.path} {
      var j :| 0 <= j < |done'| && done'[j].0.path == q;
      if j < |done| { assert done'[j] == done[j]; }
    }
    forall q | q in Paths(done) ensures q in Paths(done') {
      var j :| 0 <= j < |done| && done[j].0.path == q;
      assert done'[j] == done[j];
    }
    assert done'[|done|] == p;
  }

  /**
   * A load leaves `bound0` as it was outside the resolved paths and adds
   * exactly those paths to its keys.
   */
  ghost predicate Rebound<K, S, V>(bound0: map<string, Extension<S, V>>, bound: map<string, Extension<S, V>>,
                                   done: seq<(Module<K>, K)>) {
    && bound.Keys == bound0.Keys + Paths(done)
    && (forall q :: q in bound0 && q !in Paths(done) ==> bound[q] == bound0[q])
  }

  lemma ReboundStep<K, S, V>(bound0: map<string, Extension<S, V>>, bound: map<string, Extension<S, V>>,
                             done: seq<(Module<K>, K)>, p: (Module<K>, K), e: Extension<S, V>)
    requires Rebound(bound0, bound, done)
    ensures Rebound(bound0, bound[p.0.path := e], done + [p])
  {
    PathsSnoc(done, p);
  }

  class ExtensionLoader<C, K, S, V> {
    /** `BlogExtension.config`, set before anything is resolved. */
    var config: Option<C>
    /** `mod.extension` for every module that was loaded, by dotted path. */
    var bound: map<string, Extension<S, V>>

    constructor ()
      ensures config == None && bound == map[]
    {
      config := None;
      bound := map[];
    }

    /** Registering one more extension extends the effect of the earlier ones. */
    static method RegisterNext(reg: Registry<S, V>, e: Extension<S, V>, ghost exts: seq<Extension<S, V>>,
                               ghost types0: map<string, seq<Layer>>, ghost extMap0: map<string, seq<Extension<S, V>>>)
      requires RegisteredAll(exts, types0, extMap0, reg.types, reg.extMap)
      modifies reg
      ensures RegisteredAll(exts + [e], types0, extMap0, reg.types, reg.extMap)
    {
      reg.Register(e);
      forall t ensures ExtsFor(reg.extMap, t) == ExtsFor(extMap0, t) + JoiningAll(exts + [e], t, types0.Keys) {
        RegisterOneMore(exts, e, t, types0.Keys, []);
      }
      forall t | t in reg.types ensures reg.types[t] == RelayerAll(exts + [e], t, types0[t]) {
        RegisterOneMore(exts, e, t, types0.Keys, types0[t]);
      }
    }

    /**
     * `ext.load`: set the shared configuration, then resolve the names in
     * order and instantiate each extension, which registers it. A
     * resolution failure stops the loop; the extensions before it stay
     * instantiated and registered.
     */
    method Load(reg: Registry<S, V>, cfg: C, names: seq<string>, subdir: string,
                user: map<string, Module<K>>, builtin: map<string, Module<K>>,
                firstSubclass: Module<K> -> Option<K>, construct: (K, C) -> Extension<S, V>)
      returns (exts: seq<Extension<S, V>>, err: Option<string>)
      modifies this, reg
      ensures config == Some(cfg)
      ensures err == ResolveAll(names, "extension", subdir, user, builtin, firstSubclass).1
      ensures Instantiated(exts, ResolveAll(names, "extension", subdir, user, builtin, firstSubclass).0, bound, construct, cfg)
      ensures RegisteredAll(exts, old(reg.types), old(reg.extMap), reg.types, reg.extMap)
      ensures bound.Keys == old(bound).Keys + Paths(ResolveAll(names, "extension", subdir, user, builtin, firstSubclass).0)
      ensures forall q :: q in old(bound) && q !in Paths(ResolveAll(names, "extension", subdir, user, builtin, firstSubclass).0) ==>
                bound[q] == old(bound)[q]
    {
      config := Some(cfg);
      exts, err, bound := LoadAll(reg, cfg, names, subdir, user, builtin, firstSubclass, construct, bound);
    }

    /** The loop of `ext.load`, which touches only the registry and the bindings it returns. */
    static method LoadAll(reg: Registry<S, V>, cfg: C, names: seq<string>, subdir: string,
                          user: map<string, Module<K>>, builtin: map<string, Module<K>>,
                          firstSubclass: Module<K> -> Option<K>, construct: (K, C) -> Extension<S, V>,
                          bound0: map<string, Extension<S, V>>)
      returns (exts: seq<Extension<S, V>>, err: Option<string>, bound: map<string, Extension<S, V>>)
      modifies reg
      ensures err == ResolveAll(names, "extension", subdir, user, builtin, firstSubclass).1
      ensures Instantiated(exts, ResolveAll(names, "extension", subdir, user, builtin, firstSubclass).0, bound, construct, cfg)
      ensures RegisteredAll(exts, old(reg.types), old(reg.extMap), reg.types, reg.extMap)
      ensures Rebound(bound0, bound, ResolveAll(names, "extension", subdir, user, builtin, firstSubclass).0)
    {
      ghost var resolved := ResolveAll(names, "extension", subdir, user, builtin, firstSubclass);
      ghost var types0, extMap0 := reg.types, reg.extMap;
      exts := [];
      err := None;
      bound := bound0;
      var i := 0;
      ResolvedAll(names, "extension", subdir, user, builtin, firstSubclass);
      while i < |names|
        invariant i <= |resolved.0| && |exts| == i
        invariant err.None?
        invariant Instantiated(exts, resolved.0[..i], bound, construct, cfg)
        invariant RegisteredAll(exts, types0, extMap0, reg.types, reg.extMap)
        invariant Rebound(bound0, bound, resolved.0[..i])
      {
        var r := LoadSubmodule("extension", subdir, names[i], user, builtin, firstSubclass);
        ResolvedAt(names, i, "extension", subdir, user, builtin, firstSubclass, r);
        if r.Err? {
          err := Some(r.msg);
          assert resolved.0[..i] == resolved.0;
          return;
        }
        var (mod, klass) := r.value;
        var e := construct(klass, cfg);
        RegisterNext(reg, e, exts, types0, extMap0);
        InstantiatedStep(exts, resolved.0[..i], bound, construct, cfg, r.value);
        assert resolved.0[..i + 1] == resolved.0[..i] + [r.value];
        ReboundStep(bound0, bound, resolved.0[..i], r.value, e);
        bound := bound[mod.path := e];
        exts := exts + [e];
        i := i + 1;
      }
      assert resolved.0[..i] == resolved.0;
    }
  }
}
