/**
 * The extension dispatch protocol of simpleblog: how an extendable
 * attribute asks the registered extensions for a value, falls back to the
 * base implementation, and lets every extension modify the result.
 *
 * The instance an attribute belongs to is an abstract state `S` that hooks
 * may change; the attribute value is an abstract `V`.
 */
module Dispatch {
  import opened Text

  /** A hook's answer: the `noresult` marker, the `noreturn` marker or a value. */
  datatype Res<V> = NoResult | NoReturn | Val(value: V)

  /**
   * An extension hook. It receives the instance and, in the modifying
   * phase, the current result (`NoResult` otherwise), and returns the
   * possibly changed instance and its answer.
   */
  type Hook<!S, !V> = (S, Res<V>) -> (S, Res<V>)

  /** A mixin class an extension contributes to a kind of blog object. */
  datatype Layer = Layer(name: string, etype: string, methods: set<string>)

  /**
   * A loaded extension: all its attribute names, the callable hooks among
   * them (by attribute name) and the mixin classes it declares (by
   * attribute name, such as `entry_mixin`).
   */
  datatype Extension<!S, !V> = Extension(
    name: string,
    attrs: set<string>,
    hooks: map<string, Hook<S, V>>,
    mixins: map<string, Layer>)

  /**
   * `check_extensions`: walk the extensions in registration order, skipping
   * those without the hook. With `NoReturn` every hook runs for its effect
   * on the instance only; when modifying, the result is threaded through
   * every hook; otherwise the first hook answering with a value ends the walk.
   */
  function Check<S, V>(exts: seq<Extension<S, V>>, key: string, s: S, result: Res<V>, modifying: bool): (S, Res<V>)
    decreases |exts|
  {
    if exts == [] then (s, result)
    else if key !in exts[0].hooks then Check(exts[1..], key, s, result, modifying)
    else
      var hook := exts[0].hooks[key];
      if result.NoReturn? then Check(exts[1..], key, hook(s, NoResult).0, NoReturn, modifying)
      else if modifying then
        var (s', r') := hook(s, result);
        Check(exts[1..], key, s', r', modifying)
      else
        var (s', r') := hook(s, NoResult);
        if r'.Val? then (s', r') else Check(exts[1..], key, s', r', modifying)
  }

  /** The loop of `check_extensions`, with its early exit. */
  method CheckExtensions<S, V>(exts: seq<Extension<S, V>>, key: string, s0: S, result0: Res<V>, modifying: bool)
    returns (s: S, result: Res<V>)
    ensures (s, result) == Check(exts, key, s0, result0, modifying)
  {
    s, result := s0, result0;
    var i := 0;
    while i < |exts|
      invariant 0 <= i <= |exts|
      invariant Check(exts[i..], key, s, result, modifying) == Check(exts, key, s0, result0, modifying)
    {
      assert exts[i..][1..] == exts[i + 1..];
      if key in exts[i].hooks {
        var hook := exts[i].hooks[key];
        if result.NoReturn? {
          s := hook(s, NoResult).0;
        } else if modifying {
          s, result := hook(s, result).0, hook(s, result).1;
        } else {
          s, result := hook(s, NoResult).0, hook(s, NoResult).1;
        }
        if !modifying && result.Val? {
          break;
        }
      }
      i := i + 1;
    }
  }

  /** The extensions among `exts` that define `key`, in order. */
  function WithHook<S, V>(exts: seq<Extension<S, V>>, key: string): (r: seq<Extension<S, V>>)
    ensures |r| <= |exts|
    ensures forall i :: 0 <= i < |r| ==> key in r[i].hooks
  {
    if exts == [] then []
    else if key in exts[0].hooks then [exts[0]] + WithHook(exts[1..], key)
    else WithHook(exts[1..], key)
  }

  /** Extensions lacking the hook attribute are skipped and change nothing. */
  lemma {:induction false} SkipsExtensionsWithoutHook<S, V>(exts: seq<Extension<S, V>>, key: string, s: S, result: Res<V>, modifying: bool)
    ensures Check(exts, key, s, result, modifying) == Check(WithHook(exts, key), key, s, result, modifying)
    decreases |exts|
  {
    if exts != [] {
      if key in exts[0].hooks {
        var w := WithHook(exts, key);
        assert w[1..] == WithHook(exts[1..], key);
        var hook := exts[0].hooks[key];
        SkipsExtensionsWithoutHook(exts[1..], key, hook(s, NoResult).0, NoReturn, modifying);
        SkipsExtensionsWithoutHook(exts[1..], key, hook(s, result).0, hook(s, result).1, modifying);
        SkipsExtensionsWithoutHook(exts[1..], key, hook(s, NoResult).0, hook(s, NoResult).1, modifying);
      } else {
        SkipsExtensionsWithoutHook(exts[1..], key, s, result, modifying);
      }
    }
  }

  /**
   * Dispatch priority: in the get phase, when no earlier extension defines
   * the hook and the first one that does answers with a value, that answer
   * is the result and no later extension is consulted.
   */
  lemma {:induction false} FirstSupplierWins<S, V>(before: seq<Extension<S, V>>, e: Extension<S, V>, after: seq<Extension<S, V>>, key: string, s: S)
    requires forall i :: 0 <= i < |before| ==> key !in before[i].hooks
    requires key in e.hooks && e.hooks[key](s, NoResult).1.Val?
    ensures Check(before + [e] + after, key, s, NoResult, false) == e.hooks[key](s, NoResult)
    decreases |before|
  {
    if before == [] {
      assert before + [e] + after == [e] + after;
    } else {
      assert (before + [e] + after)[1..] == before[1..] + [e] + after;
      FirstSupplierWins(before[1..], e, after, key, s);
    }
  }

  /**
   * Running the extensions of `a` and then those of `b` is running `a + b`:
   * in the modifying phase the result is always threaded on, in the get
   * phase (starting from `NoResult`) the walk only continues into `b` when
   * no extension of `a` supplied a value.
   */
  lemma {:induction false} CheckAppend<S, V>(a: seq<Extension<S, V>>, b: seq<Extension<S, V>>, key: string, s: S, result: Res<V>, modifying: bool)
    requires modifying || !result.Val?
    ensures Check(a + b, key, s, result, modifying) ==
      var (s1, r1) := Check(a, key, s, result, modifying);
      if !modifying && r1.Val? then (s1, r1) else Check(b, key, s1, r1, modifying)
    decreases |a|
  {
    if a == [] {
      assert a + b == b;
    } else {
      assert (a + b)[1..] == a[1..] + b;
      if key in a[0].hooks {
        var hook := a[0].hooks[key];
        if result.NoReturn? {
          CheckAppend(a[1..], b, key, hook(s, NoResult).0, NoReturn, modifying);
        } else if modifying {
          CheckAppend(a[1..], b, key, hook(s, result).0, hook(s, result).1, modifying);
        } else if !hook(s, NoResult).1.Val? {
          CheckAppend(a[1..], b, key, hook(s, NoResult).0, hook(s, NoResult).1, modifying);
        }
      } else {
        CheckAppend(a[1..], b, key, s, result, modifying);
      }
    }
  }

  /** Every hook run in turn on the instance, each for its effect only. */
  function RunAll<S, V>(exts: seq<Extension<S, V>>, key: string, s: S): S
    requires forall i :: 0 <= i < |exts| ==> key in exts[i].hooks
    decreases |exts|
  {
    if exts == [] then s else RunAll(exts[1..], key, exts[0].hooks[key](s, NoResult).0)
  }

  /**
   * With `NoReturn` (the post-init convention) every extension that has the
   * hook is called, in order, and the result stays `NoReturn`.
   */
  lemma {:induction false} NoReturnRunsEveryHook<S, V>(exts: seq<Extension<S, V>>, key: string, s: S, modifying: bool)
    ensures Check(exts, key, s, NoReturn, modifying) == (RunAll(WithHook(exts, key), key, s), NoReturn)
    decreases |exts|
  {
    if exts != [] {
      if key in exts[0].hooks {
        assert WithHook(exts, key)[1..] == WithHook(exts[1..], key);
        NoReturnRunsEveryHook(exts[1..], key, exts[0].hooks[key](s, NoResult).0, modifying);
      } else {
        NoReturnRunsEveryHook(exts[1..], key, s, modifying);
      }
    }
  }

  // ---------------------------------------------------------------------
  // extendable attributes (extendable_attr.make_method)

  /** The name of a hook: `{etype}_{kind}_{name}`. */
  function HookKey(etype: string, kind: string, name: string): (k: string)
    ensures StartsWith(k, etype + "_")
    ensures EndsWith(k, "_" + name)
  {
    var k := etype + "_" + kind + "_" + name;
    assert k[..|etype + "_"|] == etype + "_";
    assert k[|k| - |"_" + name|..] == "_" + name;
    k
  }

  /**
   * The value of an extended attribute: the get phase, the base function
   * when nothing was supplied, then the modifying phase.
   */
  function Extended<S, V>(exts: seq<Extension<S, V>>, etype: string, name: string, base: S -> (S, V), s: S): (S, Res<V>)
  {
    var (s1, r1) := Check(exts, HookKey(etype, "get", name), s, NoResult, false);
    var (s2, r2) := if r1.NoResult? then (base(s1).0, Val(base(s1).1)) else (s1, r1);
    Check(exts, HookKey(etype, "mod", name), s2, r2, true)
  }

  /**
   * The method `make_method` builds. `baseCalled` tells whether the base
   * implementation ran: exactly when no extension supplied a value.
   */
  method ExtendedAttr<S, V>(exts: seq<Extension<S, V>>, etype: string, name: string, base: S -> (S, V), s0: S)
    returns (s: S, result: Res<V>, baseCalled: bool)
    ensures (s, result) == Extended(exts, etype, name, base, s0)
    ensures baseCalled <==> Check(exts, HookKey(etype, "get", name), s0, NoResult, false).1.NoResult?
  {
    s, result := CheckExtensions(exts, HookKey(etype, "get", name), s0, NoResult, false);
    baseCalled := result.NoResult?;
    if baseCalled {
      var v;
      s, v := base(s).0, base(s).1;
      result := Val(v);
    }
    s, result := CheckExtensions(exts, HookKey(etype, "mod", name), s, result, true);
  }

  /** With no extensions, an extended attribute is its base implementation. */
  lemma NoExtensionsIsBase<S, V>(etype: string, name: string, base: S -> (S, V), s: S)
    ensures Extended([], etype, name, base, s) == (base(s).0, Val(base(s).1))
  {
  }

  // ---------------------------------------------------------------------
  // extendable classes

  /**
   * The extension type of an extendable class: its lower-cased name, less
   * the four-letter `blog` prefix when the name is longer than that.
   */
  function ExtensionType(clsName: string): (etype: string)
    ensures |clsName| > 4 ==> |etype| == |clsName| - 4
    ensures |clsName| > 4 ==> forall i :: 0 <= i < |etype| ==> etype[i] == LowerChar(clsName[i + 4])
    ensures |clsName| <= 4 ==> etype == Lower(clsName)
  {
    var lower := Lower(clsName);
    if |lower| > 4 then lower[4..] else lower
  }

  /** The hook run at the end of every constructor of that type. */
  function PostInitKey(etype: string): string {
    etype + "_post_init"
  }

  /**
   * The constructor `extendable` installs: the original constructor, then
   * every `{etype}_post_init` hook for its effect on the new instance.
   */
  function Construct<A, S, V>(exts: seq<Extension<S, V>>, etype: string, init: A -> S, args: A): (s: S)
  {
    Check(exts, PostInitKey(etype), init(args), NoReturn, false).0
  }

  /** The object created is the original constructor's, changed by every post-init hook in order. */
  lemma ConstructRunsPostInit<A, S, V>(exts: seq<Extension<S, V>>, etype: string, init: A -> S, args: A)
    ensures Construct(exts, etype, init, args) == RunAll(WithHook(exts, PostInitKey(etype)), PostInitKey(etype), init(args))
  {
    NoReturnRunsEveryHook(exts, PostInitKey(etype), init(args), false);
  }

  /** A class named `Blog…` longer than four letters has the lower-cased rest as its type. */
  lemma {:induction false} BlogPrefixDropped(rest: string)
    requires rest != []
    ensures ExtensionType("Blog" + rest) == Lower(rest)
  {
    var e := ExtensionType("Blog" + rest);
    assert |e| == |rest|;
    forall i | 0 <= i < |rest| ensures e[i] == Lower(rest)[i] {
      assert ("Blog" + rest)[i + 4] == rest[i];
    }
  }

  /** `BlogEntry` hooks are named `entry_…`. */
  lemma EntryType()
    ensures ExtensionType("BlogEntry") == "entry"
  {
    var e := ExtensionType("BlogEntry");
    assert e[0] == 'e' && e[1] == 'n' && e[2] == 't' && e[3] == 'r' && e[4] == 'y';
  }

  /** `BlogPage` hooks are named `page_…`. */
  lemma PageType()
    ensures ExtensionType("BlogPage") == "page"
  {
    var e := ExtensionType("BlogPage");
    assert e[0] == 'p' && e[1] == 'a' && e[2] == 'g' && e[3] == 'e';
  }

  /** `Blog` itself keeps its whole (lower-cased) name. */
  lemma BlogType()
    ensures ExtensionType("Blog") == "blog"
  {
    var l := Lower("Blog");
    assert l[0] == 'b' && l[1] == 'l' && l[2] == 'o' && l[3] == 'g';
  }
}
