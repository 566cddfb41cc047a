/**
 * The two module-level registries of simpleblog: `extension_types` (the
 * live class of every extendable kind of object, as its mixin layers,
 * newest first) and `extension_map` (the extensions consulted for each
 * kind, in registration order).
 */
module Registry {
  import opened Wrappers
  import opened Text
  import opened Dispatch

  /** The attribute through which an extension contributes a mixin for `etype`. */
  function MixinKey(etype: string): string {
    etype + "_mixin"
  }

  /**
   * An extension takes part in dispatch for `etype` when one of its
   * attribute names starts with `{etype}_` and does not end in `mixin`.
   */
  predicate Registers<S, V>(e: Extension<S, V>, etype: string) {
    HookAttrs(e, etype) != {}
  }

  /** The attributes of `e` that extend an attribute of `etype`. */
  function HookAttrs<S, V>(e: Extension<S, V>, etype: string): set<string> {
    set a | a in e.attrs && StartsWith(a, etype + "_") && !EndsWith(a, "mixin")
  }

  /** The live class after `e` is registered: its mixin, if any, on top. */
  function Relayer<S, V>(e: Extension<S, V>, etype: string, layers: seq<Layer>): (r: seq<Layer>)
    ensures MixinKey(etype) in e.mixins ==> |r| == |layers| + 1 && r[1..] == layers
    ensures MixinKey(etype) in e.mixins ==> r[0] == e.mixins[MixinKey(etype)].(etype := etype)
    ensures MixinKey(etype) !in e.mixins ==> r == layers
  {
    if MixinKey(etype) in e.mixins then [e.mixins[MixinKey(etype)].(etype := etype)] + layers else layers
  }

  /** `extension_map.get(etype, ())`. */
  function ExtsFor<S, V>(extMap: map<string, seq<Extension<S, V>>>, etype: string): seq<Extension<S, V>> {
    if etype in extMap then extMap[etype] else []
  }

  /** The position of the first layer, newest first, that defines `m`. */
  function FirstDefining(layers: seq<Layer>, m: string): (k: nat)
    ensures k <= |layers|
    ensures k < |layers| ==> m in layers[k].methods
    ensures forall j :: 0 <= j < k ==> m !in layers[j].methods
  {
    if layers == [] then 0
    else if m in layers[0].methods then 0
    else 1 + FirstDefining(layers[1..], m)
  }

  /** Attribute lookup on a layered class: the layer that wins, if any does. */
  function Lookup(layers: seq<Layer>, m: string): Option<Layer> {
    var k := FirstDefining(layers, m);
    if k < |layers| then Some(layers[k]) else None
  }

  /**
   * A newly declared mixin takes precedence for the methods it defines;
   * every other method still resolves as in the previous chain.
   */
  lemma NewestMixinFirst<S, V>(e: Extension<S, V>, etype: string, layers: seq<Layer>, m: string)
    requires MixinKey(etype) in e.mixins
    ensures m in e.mixins[MixinKey(etype)].methods ==>
      Lookup(Relayer(e, etype, layers), m) == Some(e.mixins[MixinKey(etype)].(etype := etype))
    ensures m !in e.mixins[MixinKey(etype)].methods ==>
      Lookup(Relayer(e, etype, layers), m) == Lookup(layers, m)
  {
    assert Relayer(e, etype, layers)[1..] == layers;
  }

  /** Declaring only a mixin does not make an extension a dispatch target. */
  lemma MixinAloneDoesNotRegister<S, V>(e: Extension<S, V>, etype: string)
    requires e.attrs == {MixinKey(etype)}
    ensures !Registers(e, etype)
  {
    var k := MixinKey(etype);
    assert k[|k| - 5..] == "mixin";
    assert HookAttrs(e, etype) == {};
  }

  /** The key of a hook does not end in `mixin` unless the attribute name does. */
  lemma HookKeyEnding(etype: string, kind: string, name: string)
    requires !EndsWith(name, "mixin")
    ensures !EndsWith(HookKey(etype, kind, name), "mixin")
  {
    var k := HookKey(etype, kind, name);
    if |name| >= 5 {
      assert k[|k| - 5..] == name[|name| - 5..];
    } else if |k| >= 5 {
      assert k == etype + "_" + kind + "_" + name;
      assert k[|k| - 5..][4 - |name|] == '_';
    }
  }

  /** Any hook for `etype` makes the extension a dispatch target for `etype`. */
  lemma HookRegisters<S, V>(e: Extension<S, V>, etype: string, kind: string, name: string)
    requires HookKey(etype, kind, name) in e.attrs
    requires !EndsWith(name, "mixin")
    ensures Registers(e, etype)
  {
    HookKeyEnding(etype, kind, name);
    assert HookKey(etype, kind, name) in HookAttrs(e, etype);
  }

  /** `[e]` when registering `e` appends it to the dispatch list of `etype`. */
  function Joining<S, V>(e: Extension<S, V>, etype: string, kinds: set<string>): seq<Extension<S, V>> {
    if etype in kinds && Registers(e, etype) then [e] else []
  }

  class Registry<S, V> {
    /** `extension_types`: the live class of each extendable kind. */
    var types: map<string, seq<Layer>>
    /** `extension_map`: the extensions consulted for each kind. */
    var extMap: map<string, seq<Extension<S, V>>>

    constructor ()
      ensures types == map[] && extMap == map[]
    {
      types := map[];
      extMap := map[];
    }

    /**
     * The `extendable` class decorator: the class becomes the live class of
     * its extension type. Returns that type.
     */
    method Declare(clsName: string, cls: Layer) returns (etype: string)
      modifies this
      ensures etype == ExtensionType(clsName)
      ensures types == old(types)[etype := [cls.(etype := etype)]]
      ensures extMap == old(extMap)
    {
      etype := ExtensionType(clsName);
      types := types[etype := [cls.(etype := etype)]];
    }

    /** One round of the registration loop: the kind `t`. */
    method RegisterFor(e: Extension<S, V>, t: string)
      requires t in types
      modifies this
      ensures extMap == if Registers(e, t) then old(extMap)[t := ExtsFor(old(extMap), t) + [e]] else old(extMap)
      ensures types == old(types)[t := Relayer(e, t, old(types)[t])]
    {
      if Registers(e, t) {
        extMap := extMap[t := ExtsFor(extMap, t) + [e]];
      }
      if MixinKey(t) in e.mixins {
        types := types[t := Relayer(e, t, types[t])];
      }
    }

    /** `RegisterFor` as a step of the registration loop: the kind `t` moves from to-do to done. */
    method RegisterNext(e: Extension<S, V>, t: string, ghost types0: map<string, seq<Layer>>,
                        ghost extMap0: map<string, seq<Extension<S, V>>>, ghost todo: set<string>, ghost done: set<string>)
      requires t in todo && t !in done && todo <= types0.Keys && types.Keys == types0.Keys
      requires Relayered(e, types0, types, todo) && Joined(e, extMap0, extMap, done)
      modifies this
      ensures types.Keys == types0.Keys
      ensures Relayered(e, types0, types, todo - {t}) && Joined(e, extMap0, extMap, done + {t})
    {
      ghost var types1, extMap1 := types, extMap;
      RegisterFor(e, t);
      JoinedStep(e, extMap0, extMap1, extMap, done, t);
      RelayeredStep(e, types0, types1, types, todo, t);
    }

    /**
     * Registration done by `BlogExtension.__init__`: for every known kind,
     * append the extension to that kind's dispatch list when it has a
     * matching attribute, and put its mixin, if any, on top of the kind's
     * live class.
     */
    method Register(e: Extension<S, V>)
      modifies this
      ensures types.Keys == old(types).Keys
      ensures forall t :: t in types ==> types[t] == Relayer(e, t, old(types)[t])
      ensures forall t :: ExtsFor(extMap, t) == ExtsFor(old(extMap), t) + Joining(e, t, old(types).Keys)
    {
      var todo := types.Keys;
      ghost var types0, extMap0 := types, extMap;
      ghost var done: set<string> := {};
      while todo != {}
        invariant todo + done == types0.Keys && todo !! done && types.Keys == types0.Keys
        invariant Relayered(e, types0, types, todo)
        invariant Joined(e, extMap0, extMap, done)
        decreases todo
      {
        var t :| t in todo;
        RegisterNext(e, t, types0, extMap0, todo, done);
        done := done + {t};
        todo := todo - {t};
      }
    }
  }

  /** The kinds outside `todo` have the extension's mixin layered on; the others are as they were. */
  ghost predicate Relayered<S, V>(e: Extension<S, V>, types0: map<string, seq<Layer>>, types: map<string, seq<Layer>>, todo: set<string>)
    requires types.Keys == types0.Keys
  {
    && (forall t :: t in types && t !in todo ==> types[t] == Relayer(e, t, types0[t]))
    && (forall t :: t in todo && t in types ==> types[t] == types0[t])
  }

  /** Every kind in `done` had the extension appended when it registers for that kind. */
  ghost predicate Joined<S, V>(e: Extension<S, V>, extMap0: map<string, seq<Extension<S, V>>>,
                               extMap: map<string, seq<Extension<S, V>>>, done: set<string>) {
    forall u :: ExtsFor(extMap, u) == ExtsFor(extMap0, u) + Joining(e, u, done)
  }

  lemma RelayeredStep<S, V>(e: Extension<S, V>, types0: map<string, seq<Layer>>, types1: map<string, seq<Layer>>,
                            types: map<string, seq<Layer>>, todo: set<string>, t: string)
    requires types1.Keys == types0.Keys && Relayered(e, types0, types1, todo) && t in todo && t in types1
    requires types == types1[t := Relayer(e, t, types1[t])]
    ensures types.Keys == types0.Keys && Relayered(e, types0, types, todo - {t})
  {
  }

  lemma JoinedStep<S, V>(e: Extension<S, V>, extMap0: map<string, seq<Extension<S, V>>>,
                         extMap1: map<string, seq<Extension<S, V>>>, extMap: map<string, seq<Extension<S, V>>>,
                         done: set<string>, t: string)
    requires Joined(e, extMap0, extMap1, done) && t !in done
    requires extMap == if Registers(e, t) then extMap1[t := ExtsFor(extMap1, t) + [e]] else extMap1
    ensures Joined(e, extMap0, extMap, done + {t})
  {
    forall u ensures ExtsFor(extMap, u) == ExtsFor(extMap0, u) + Joining(e, u, done + {t}) {
      if u != t {
        assert ExtsFor(extMap, u) == ExtsFor(extMap1, u);
        assert Joining(e, u, done + {t}) == Joining(e, u, done);
      }
    }
  }
}
