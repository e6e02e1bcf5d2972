/** The attribute-inheritance merge of `tools/enumerate_settings.py`: a cluster's attributes
    together with those of its base chain. */
module Inheritance {
  import opened Protocol

  datatype Value = Int(n: int) | Text(s: string) | Other

  /** One parsed attribute literal, key by key. */
  type Attr = map<string, Value>

  /** Parsed clusters by name, each with its own attributes in order, and what each names as
      its base. */
  datatype Model = Model(own: map<string, seq<Attr>>, base: map<string, string>)

  function IdOf(a: Attr): Option<int> { if "id" in a && a["id"].Int? then Some(a["id"].n) else None }

  predicate Excluded(a: Attr) { "conformance" in a && a["conformance"] == Text("X") }

  /** The base that is followed: named, not empty, and itself parsed. */
  function BaseOf(m: Model, name: string): Option<string> {
    if name in m.base && m.base[name] != "" && m.base[name] in m.own then Some(m.base[name]) else None
  }

  // --- the merge as the source runs it -------------------------------------

  function Combined(inherited: map<int, Attr>, id: int, a: Attr): Attr {
    if id in inherited then inherited[id] + a else a
  }

  /** The loop over the cluster's own attributes. */
  function Overlay(inherited: map<int, Attr>, own: seq<Attr>): map<int, Attr> {
    if own == [] then inherited
    else
      var before, a := Overlay(inherited, own[..|own| - 1]), own[|own| - 1];
      match IdOf(a)
      case None => before
      case Some(id) =>
        if Excluded(Combined(inherited, id, a)) then before - {id} else before[id := Combined(inherited, id, a)]
  }

  /** A result list read back by id, as the caller one level down reads it. */
  function ById(attrs: seq<Attr>): map<int, Attr> {
    if attrs == [] then map[]
    else
      var before, a := ById(attrs[..|attrs| - 1]), attrs[|attrs| - 1];
      if IdOf(a).Some? then before[IdOf(a).value := a] else before
  }

  /** `_merge_inherited`, the result by id. */
  function Merged(m: Model, name: string, cache: map<string, map<int, Attr>>, stack: set<string>): map<int, Attr>
    requires name in m.own
    decreases |m.own.Keys - stack|
  {
    if name in cache then cache[name]
    else if name in stack then map[]
    else
      NamesRunOut(m.own.Keys, stack, name);
      match BaseOf(m, name)
      case None => Overlay(map[], m.own[name])
      case Some(b) => Overlay(Merged(m, b, cache, stack + {name}), m.own[name])
  }

  lemma NamesRunOut(names: set<string>, stack: set<string>, name: string)
    requires name in names && name !in stack
    ensures |names - (stack + {name})| < |names - stack|
  {
    assert names - stack == (names - (stack + {name})) + {name};
  }

  // --- the reference -------------------------------------------------------

  /** The base chain from `name`, up to its first repeat. */
  function Chain(m: Model, name: string, seen: set<string>): seq<string>
    requires name in m.own
    decreases |m.own.Keys - seen|
  {
    if name in seen then []
    else
      NamesRunOut(m.own.Keys, seen, name);
      [name] + match BaseOf(m, name) case None => [] case Some(b) => Chain(m, b, seen + {name})
  }

  /** The last of a cluster's own declarations of attribute `id`. */
  function LastOwn(own: seq<Attr>, id: int): Option<Attr> {
    if own == [] then None
    else if IdOf(own[|own| - 1]) == Some(id) then Some(own[|own| - 1])
    else LastOwn(own[..|own| - 1], id)
  }

  /** Attribute `id` seen from the head of a chain: its last own declaration over what the rest
      of the chain makes of it, unless that comes out as not applicable. */
  function Override(m: Model, chain: seq<string>, id: int): Option<Attr>
    requires forall n :: n in chain ==> n in m.own
  {
    if chain == [] then None
    else
      var inherited := Override(m, chain[1..], id);
      match LastOwn(m.own[chain[0]], id)
      case None => inherited
      case Some(a) =>
        var c := if inherited.Some? then inherited.value + a else a;
        if Excluded(c) then None else Some(c)
  }

  function At(attrs: map<int, Attr>, id: int): Option<Attr> { if id in attrs then Some(attrs[id]) else None }

  // --- the two agree -------------------------------------------------------

  lemma {:induction false} OverlayAt(inherited: map<int, Attr>, own: seq<Attr>, id: int)
    ensures At(Overlay(inherited, own), id) ==
            match LastOwn(own, id)
            case None => At(inherited, id)
            case Some(a) => if Excluded(Combined(inherited, id, a)) then None else Some(Combined(inherited, id, a))
  {
    if own != [] { OverlayAt(inherited, own[..|own| - 1], id); }
  }

  lemma {:induction false} ChainIsParsed(m: Model, name: string, seen: set<string>)
    requires name in m.own
    ensures forall n :: n in Chain(m, name, seen) ==> n in m.own && n !in seen
    ensures forall i, j :: 0 <= i < j < |Chain(m, name, seen)| ==> Chain(m, name, seen)[i] != Chain(m, name, seen)[j]
    decreases |m.own.Keys - seen|
  {
    if name !in seen && BaseOf(m, name).Some? {
      NamesRunOut(m.own.Keys, seen, name);
      ChainIsParsed(m, BaseOf(m, name).value, seen + {name});
    }
  }

  /** `b` is what `a` names as its base, is a name, and was parsed. */
  predicate Follows(m: Model, a: string, b: string) { a in m.base && m.base[a] == b && b != "" && b in m.own }

  /** The chain is the base chain itself, cut before its first repeat: each name is what the one
      before names as its base, and it stops only where nothing is named, the name is empty or
      was not parsed, or the base is already in it. */
  lemma {:induction false} ChainFollowsBases(m: Model, name: string, seen: set<string>)
    requires name in m.own && name !in seen
    ensures var c := Chain(m, name, seen);
            && c != [] && c[0] == name
            && (forall i, j :: 0 <= i && j == i + 1 && j < |c| ==> Follows(m, c[i], c[j]))
            && (var last := c[|c| - 1];
                last in m.base ==>
                  m.base[last] == "" || m.base[last] !in m.own || m.base[last] in c || m.base[last] in seen)
    decreases |m.own.Keys - seen|
  {
    if BaseOf(m, name).Some? && BaseOf(m, name).value !in seen + {name} {
      NamesRunOut(m.own.Keys, seen, name);
      ChainFollowsBases(m, BaseOf(m, name).value, seen + {name});
    }
  }

  /** For any finite graph of bases, cyclic ones included: the merge of a cluster is the
      override along its base chain, attribute by attribute. */
  lemma {:induction false} MergeIsOverride(m: Model, name: string, stack: set<string>, id: int)
    requires name in m.own
    ensures (forall n :: n in Chain(m, name, stack) ==> n in m.own)
    ensures At(Merged(m, name, map[], stack), id) == Override(m, Chain(m, name, stack), id)
    decreases |m.own.Keys - stack|
  {
    ChainIsParsed(m, name, stack);
    if name !in stack {
      NamesRunOut(m.own.Keys, stack, name);
      match BaseOf(m, name) {
        case None =>
          assert Chain(m, name, stack) == [name] && [name][1..] == [];
          OverlayAt(map[], m.own[name], id);
        case Some(b) =>
          var rest := Chain(m, b, stack + {name});
          assert Chain(m, name, stack) == [name] + rest && ([name] + rest)[1..] == rest;
          MergeIsOverride(m, b, stack + {name}, id);
          OverlayAt(Merged(m, b, map[], stack + {name}), m.own[name], id);
      }
    }
  }

  /** What an attribute says under one key: the nearest declaration along the chain that has
      the key, not looking past a level where the attribute was not applicable. */
  function Nearest(m: Model, chain: seq<string>, id: int, key: string): Option<Value>
    requires forall n :: n in chain ==> n in m.own
  {
    if chain == [] then None
    else
      match LastOwn(m.own[chain[0]], id)
      case None => Nearest(m, chain[1..], id, key)
      case Some(a) =>
        if key in a then Some(a[key])
        else if Override(m, chain[1..], id).None? then None
        else Nearest(m, chain[1..], id, key)
  }

  lemma {:induction false} OverrideByKey(m: Model, chain: seq<string>, id: int, key: string)
    requires forall n :: n in chain ==> n in m.own
    requires Override(m, chain, id).Some?
    ensures var a := Override(m, chain, id).value;
            (if key in a then Some(a[key]) else None) == Nearest(m, chain, id, key)
    decreases |chain|
  {
    if Override(m, chain[1..], id).Some? { OverrideByKey(m, chain[1..], id, key); }
  }

  /** What a declaration says of its conformance: itself, or else what it inherits. */
  function ConformanceOf(a: Attr, inherited: Option<Attr>): Option<Value> {
    if "conformance" in a then Some(a["conformance"])
    else if inherited.Some? && "conformance" in inherited.value then Some(inherited.value["conformance"]) else None
  }

  /** An attribute is listed exactly if its nearest declaration does not make it not applicable. */
  lemma ListedExactly(m: Model, name: string, id: int)
    requires name in m.own
    ensures (forall n :: n in Chain(m, name, {}) ==> n in m.own) && Chain(m, name, {}) != []
    ensures var inherited, a := Override(m, Chain(m, name, {})[1..], id), LastOwn(m.own[name], id);
            id in Merged(m, name, map[], {}) <==>
              if a.None? then inherited.Some? else ConformanceOf(a.value, inherited) != Some(Text("X"))
  {
    MergeIsOverride(m, name, {}, id);
    ChainFollowsBases(m, name, {});
  }

  lemma {:induction false} OverrideShape(m: Model, chain: seq<string>, id: int)
    requires forall n :: n in chain ==> n in m.own
    ensures var a := Override(m, chain, id); a.Some? ==> !Excluded(a.value) && IdOf(a.value) == Some(id)
    decreases |chain|
  {
    if chain != [] {
      OverrideShape(m, chain[1..], id);
      LastOwnHasId(m.own[chain[0]], id);
    }
  }

  lemma {:induction false} LastOwnHasId(own: seq<Attr>, id: int)
    ensures LastOwn(own, id).Some? ==> IdOf(LastOwn(own, id).value) == Some(id)
  {
    if own != [] { LastOwnHasId(own[..|own| - 1], id); }
  }

  /** `resolve_cluster_attributes`, key by key: every attribute it lists is applicable, carries
      its own id, and says under each key what the nearest declaration of it says. */
  lemma ResolvedKeyByKey(m: Model, name: string, id: int, key: string)
    requires name in m.own && id in Merged(m, name, map[], {})
    ensures var a := Merged(m, name, map[], {})[id];
            && !("conformance" in a && a["conformance"] == Text("X")) && "id" in a && a["id"] == Int(id)
            && (forall n :: n in Chain(m, name, {}) ==> n in m.own)
            && (if key in a then Some(a[key]) else None) == Nearest(m, Chain(m, name, {}), id, key)
  {
    MergeIsOverride(m, name, {}, id);
    OverrideShape(m, Chain(m, name, {}), id);
    OverrideByKey(m, Chain(m, name, {}), id, key);
  }

  /** A name the base chain never reaches does not matter on the stack. */
  lemma {:induction false} StackIrrelevant(m: Model, name: string, stack: set<string>, extra: string)
    requires name in m.own && extra !in Chain(m, name, stack)
    ensures Merged(m, name, map[], stack + {extra}) == Merged(m, name, map[], stack)
    decreases |m.own.Keys - stack|
  {
    if name !in stack {
      NamesRunOut(m.own.Keys, stack, name);
      assert Chain(m, name, stack)[0] == name;
      if BaseOf(m, name).Some? {
        var b := BaseOf(m, name).value;
        assert Chain(m, name, stack) == [name] + Chain(m, b, stack + {name});
        StackIrrelevant(m, b, stack + {name}, extra);
        assert stack + {extra} + {name} == stack + {name} + {extra};
      }
    }
  }

  /** An attribute a cluster does not redeclare is what its base resolves to on its own,
      unchanged, or absent with it, for every cluster that is not itself on its base's chain. */
  lemma UnredeclaredIsInherited(m: Model, name: string, base: string, id: int)
    requires name in m.own && name in m.base && m.base[name] == base && base != "" && base in m.own
    requires name !in Chain(m, base, {})
    requires LastOwn(m.own[name], id).None?
    ensures At(Merged(m, name, map[], {}), id) == At(Merged(m, base, map[], {}), id)
  {
    StackIrrelevant(m, base, {}, name);
    OverlayAt(Merged(m, base, map[], {name}), m.own[name], id);
    assert {} + {name} == {name};
  }

  // --- in place ------------------------------------------------------------

  predicate OwnIds(attrs: map<int, Attr>) { forall id :: id in attrs ==> IdOf(attrs[id]) == Some(id) }

  lemma {:induction false} OverlayOwnIds(inherited: map<int, Attr>, own: seq<Attr>)
    requires OwnIds(inherited)
    ensures OwnIds(Overlay(inherited, own))
  {
    if own != [] { OverlayOwnIds(inherited, own[..|own| - 1]); }
  }

  /** The cache as `_merge_inherited` leaves it: every name on the way has its result. */
  ghost predicate CacheFor(m: Model, cache: map<string, seq<Attr>>, asMaps: map<string, map<int, Attr>>) {
    cache.Keys == asMaps.Keys && forall n :: n in cache ==> ById(cache[n]) == asMaps[n] && OwnIds(asMaps[n])
  }

  /** `list(merged.values())`, in some order. */
  method ListValues(merged: map<int, Attr>) returns (result: seq<Attr>)
    requires OwnIds(merged)
    ensures ById(result) == merged
  {
    result := [];
    var left := merged.Keys;
    while left != {}
      invariant left <= merged.Keys
      invariant ById(result) == map id | id in merged && id !in left :: merged[id]
      decreases |left|
    {
      SomeNumber(left);
      var id :| id in left;
      assert (result + [merged[id]])[..|result|] == result;
      result := result + [merged[id]];
      left := left - {id};
    }
  }

  /** The base's result, by id. */
  method Reindex(attrs: seq<Attr>) returns (byId: map<int, Attr>)
    ensures byId == ById(attrs)
  {
    byId := map[];
    assert attrs[..0] == [];
    for i := 0 to |attrs|
      invariant byId == ById(attrs[..i])
    {
      assert attrs[..i + 1][..i] == attrs[..i];
      var id := IdOf(attrs[i]);
      if id.Some? { byId := byId[id.value := attrs[i]]; }
    }
    assert attrs[..|attrs|] == attrs;
  }

  method OverlayOwn(inherited: map<int, Attr>, own: seq<Attr>) returns (merged: map<int, Attr>)
    ensures merged == Overlay(inherited, own)
  {
    merged := inherited;
    assert own[..0] == [];
    for i := 0 to |own|
      invariant merged == Overlay(inherited, own[..i])
    {
      assert own[..i + 1][..i] == own[..i];
      var id := IdOf(own[i]);
      if id.None? { continue; }
      var combined := if id.value in inherited then inherited[id.value] + own[i] else own[i];
      if Excluded(combined) { merged := merged - {id.value}; } else { merged := merged[id.value := combined]; }
    }
    assert own[..|own|] == own;
  }

  method MergeInherited(m: Model, name: string, cache: map<string, seq<Attr>>,
                        ghost asMaps: map<string, map<int, Attr>>, stack: set<string>)
    returns (result: seq<Attr>, cache': map<string, seq<Attr>>, ghost asMaps': map<string, map<int, Attr>>)
    requires name in m.own && CacheFor(m, cache, asMaps)
    ensures ById(result) == Merged(m, name, asMaps, stack) && OwnIds(ById(result))
    ensures CacheFor(m, cache', asMaps')
    decreases |m.own.Keys - stack|
  {
    cache', asMaps' := cache, asMaps;
    if name in cache { return cache[name], cache', asMaps'; }
    if name in stack { return [], cache', asMaps'; }
    NamesRunOut(m.own.Keys, stack, name);
    var inherited: map<int, Attr> := map[];
    var base := BaseOf(m, name);
    if base.Some? {
      var above;
      above, cache', asMaps' := MergeInherited(m, base.value, cache, asMaps, stack + {name});
      inherited := Reindex(above);
    }
    var merged := OverlayOwn(inherited, m.own[name]);
    OverlayOwnIds(inherited, m.own[name]);
    result := ListValues(merged);
    cache', asMaps' := cache'[name := result], asMaps'[name := merged];
  }

  /** `resolve_cluster_attributes`: the attributes listed are exactly the override along the
      cluster's base chain. */
  method ResolveClusterAttributes(m: Model, name: string) returns (result: seq<Attr>)
    requires name in m.own
    ensures forall n :: n in Chain(m, name, {}) ==> n in m.own
    ensures forall id :: At(ById(result), id) == Override(m, Chain(m, name, {}), id)
  {
    var cache;
    ghost var asMaps;
    result, cache, asMaps := MergeInherited(m, name, map[], map[], {});
    ChainIsParsed(m, name, {});
    forall id ensures At(ById(result), id) == Override(m, Chain(m, name, {}), id) {
      MergeIsOverride(m, name, {}, id);
    }
  }
}
