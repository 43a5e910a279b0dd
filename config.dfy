/**
 * Configuration values of the widget and the recursive merge that lays a
 * partial user configuration over the defaults (`mergeConfigs`,
 * `DEFAULT_CONFIG` in src/trump-boyer-cube.js).
 */
module Config {

  /** A JavaScript value as it can occur in a configuration object.
      Arrays are objects with index keys; numbers are modelled without NaN. */
  datatype Value =
    | Num(n: real)
    | Bool(b: bool)
    | Str(s: string)
    | Null
    | Undefined
    | Obj(fields: Record)

  /** A plain JavaScript object: its own enumerable keys and their values. */
  type Record = map<string, Value>

  /** `r[k]`: a key that is not there reads as `undefined`. */
  function Get(r: Record, k: string): Value {
    if k in r then r[k] else Undefined
  }

  /** `typeof v === "object" && v !== null` */
  predicate IsObject(v: Value) {
    v.Obj?
  }

  /** JavaScript truthiness, as used by `if (config.showNodes)`. */
  predicate Truthy(v: Value) {
    match v
    case Num(n) => n != 0.0
    case Bool(b) => b
    case Str(s) => s != ""
    case Null => false
    case Undefined => false
    case Obj(_) => true
  }

  /** The property read `v.k` on a configuration value. */
  function Member(v: Value, k: string): Value {
    if v.Obj? then Get(v.fields, k) else Undefined
  }

  /** `r.k !== undefined` */
  predicate Present(r: Record, k: string) {
    Get(r, k) != Undefined
  }

  // ---------------------------------------------------------------------
  // mergeConfigs
  // ---------------------------------------------------------------------

  /** `mergeConfigs(base, over)`: start from a shallow copy of `base`; for
      every key of `over`, merge recursively when both sides are non-null
      objects, otherwise let a defined override value replace the base one. */
  function MergeConfigs(base: Record, over: Record): Record
    decreases Obj(over), 0
  {
    map k | k in base.Keys + over.Keys && (k in base || over[k] != Undefined) ::
      if k in over then MergeEntry(Get(base, k), over[k]) else base[k]
  }

  /** What `mergeConfigs` stores under one key of the override. */
  function MergeEntry(b: Value, o: Value): Value
    decreases o, 1
  {
    if IsObject(o) && IsObject(b) then Obj(MergeConfigs(b.fields, o.fields))
    else if o != Undefined then o
    else b
  }

  /** The keys whose override value is defined. */
  function DefinedKeys(r: Record): set<string> {
    set k | k in r && r[k] != Undefined
  }

  /** The key set of a merge: every base key survives, and an override key
      is added only when its value is defined. */
  lemma MergeKeys(base: Record, over: Record)
    ensures MergeConfigs(base, over).Keys == base.Keys + DefinedKeys(over)
  {
  }

  /** Keys absent from the override, or overridden with `undefined`, keep
      their base value. */
  lemma MergeKeepsAbsent(base: Record, over: Record, k: string)
    requires k in base
    requires k !in over || over[k] == Undefined
    ensures k in MergeConfigs(base, over)
    ensures MergeConfigs(base, over)[k] == base[k]
  {
  }

  /** Merging an empty override gives back the base. */
  lemma MergeEmptyOverride(base: Record)
    ensures MergeConfigs(base, map[]) == base
  {
    var r := MergeConfigs(base, map[]);
    assert r.Keys == base.Keys;
    forall k | k in base ensures r[k] == base[k] {
      MergeKeepsAbsent(base, map[], k);
    }
  }

  /** When both the override value and the base value are non-null objects
      the merge recurses, so nested keys the override leaves out keep their
      base values. */
  lemma MergeRecurses(base: Record, over: Record, k: string)
    requires k in over && IsObject(over[k]) && IsObject(Get(base, k))
    ensures k in MergeConfigs(base, over)
    ensures MergeConfigs(base, over)[k] == Obj(MergeConfigs(base[k].fields, over[k].fields))
    ensures forall k2 :: k2 in base[k].fields && k2 !in over[k].fields ==>
      k2 in MergeConfigs(base, over)[k].fields &&
      MergeConfigs(base, over)[k].fields[k2] == base[k].fields[k2]
  {
    var inner := MergeConfigs(base[k].fields, over[k].fields);
    forall k2 | k2 in base[k].fields && k2 !in over[k].fields
      ensures k2 in inner && inner[k2] == base[k].fields[k2]
    {
      MergeKeepsAbsent(base[k].fields, over[k].fields, k2);
    }
  }

  /** A defined override value that is not an object merged into an object
      (this includes `null`, and an object over a non-object) replaces the
      base value wholesale. */
  lemma MergeReplaces(base: Record, over: Record, k: string)
    requires k in over && over[k] != Undefined
    requires !(IsObject(over[k]) && IsObject(Get(base, k)))
    ensures k in MergeConfigs(base, over)
    ensures MergeConfigs(base, over)[k] == over[k]
  {
  }

  /** A key the override leaves out, or leaves `undefined`, reads the same
      after the merge. */
  lemma MergeGetAbsent(base: Record, over: Record, k: string)
    requires !Present(over, k)
    ensures Get(MergeConfigs(base, over), k) == Get(base, k)
  {
    MergeKeys(base, over);
    if k in base {
      MergeKeepsAbsent(base, over, k);
    }
  }

  /** A nested read `r.k.k2` of an object-valued key survives a merge whose
      override leaves `k` out or gives an object without a defined `k2`. */
  lemma MergeMemberAbsent(base: Record, over: Record, k: string, k2: string)
    requires IsObject(Get(base, k))
    requires !Present(over, k) || (IsObject(over[k]) && Member(over[k], k2) == Undefined)
    ensures IsObject(Get(MergeConfigs(base, over), k))
    ensures Member(Get(MergeConfigs(base, over), k), k2) == Member(Get(base, k), k2)
  {
    if !Present(over, k) {
      MergeGetAbsent(base, over, k);
    } else {
      MergeRecurses(base, over, k);
      MergeGetAbsent(base[k].fields, over[k].fields, k2);
    }
  }

  /** An object-valued key stays an object when the override leaves it out
      or gives an object for it. */
  lemma MergeKeepsObject(base: Record, over: Record, k: string)
    requires IsObject(Get(base, k))
    requires !Present(over, k) || IsObject(over[k])
    ensures IsObject(Get(MergeConfigs(base, over), k))
  {
    if !Present(over, k) {
      MergeGetAbsent(base, over, k);
    } else {
      MergeRecurses(base, over, k);
    }
  }

  /** A nested override `{k: {k2: v}}` with v defined and not an object sets
      `r.k.k2` to v. */
  lemma MergeMemberReplaced(base: Record, over: Record, k: string, k2: string)
    requires IsObject(Get(base, k))
    requires k in over && IsObject(over[k])
    requires Member(over[k], k2) != Undefined && !IsObject(Member(over[k], k2))
    ensures Member(Get(MergeConfigs(base, over), k), k2) == Member(over[k], k2)
  {
    MergeRecurses(base, over, k);
    MergeReplaces(base[k].fields, over[k].fields, k2);
  }

  /** A one-key override whose value is defined, and not an object laid
      over an object, sets that key and leaves every other key alone. */
  lemma MergeSetsKey(base: Record, k: string, v: Value)
    requires v != Undefined && !(IsObject(v) && IsObject(Get(base, k)))
    ensures MergeConfigs(base, map[k := v]) == base[k := v]
  {
    var over := map[k := v];
    var r := MergeConfigs(base, over);
    MergeReplaces(base, over, k);
    MergeKeys(base, over);
    forall k2 | k2 in base && k2 != k ensures r[k2] == base[k2] {
      MergeKeepsAbsent(base, over, k2);
    }
  }

  /** Merging a record into itself changes nothing. */
  lemma {:induction false} MergeSelf(r: Record)
    ensures MergeConfigs(r, r) == r
    decreases Obj(r), 0
  {
    var m := MergeConfigs(r, r);
    forall k | k in r ensures k in m && m[k] == r[k] {
      MergeEntrySelf(r[k]);
    }
    assert m.Keys == r.Keys;
  }

  lemma {:induction false} MergeEntrySelf(v: Value)
    ensures MergeEntry(v, v) == v
    decreases v, 1
  {
    if v.Obj? {
      MergeSelf(v.fields);
    }
  }

  /** Applying the same override twice is the same as applying it once,
      at every nesting depth. */
  lemma {:induction false} MergeIdempotent(base: Record, over: Record)
    ensures MergeConfigs(MergeConfigs(base, over), over) == MergeConfigs(base, over)
    decreases Obj(over), 0
  {
    var m := MergeConfigs(base, over);
    var m2 := MergeConfigs(m, over);
    forall k | k in m ensures k in m2 && m2[k] == m[k] {
      if k in over {
        MergeEntryIdempotent(Get(base, k), over[k]);
      }
    }
    assert m2.Keys == m.Keys;
  }

  lemma {:induction false} MergeEntryIdempotent(b: Value, o: Value)
    ensures MergeEntry(MergeEntry(b, o), o) == MergeEntry(b, o)
    decreases o, 1
  {
    if IsObject(o) && IsObject(b) {
      MergeIdempotent(b.fields, o.fields);
    } else if o != Undefined {
      MergeEntrySelf(o);
    }
  }

  /** Two overrides that touch disjoint keys can be applied in either order. */
  lemma MergeDisjointCommute(base: Record, p1: Record, p2: Record)
    requires p1.Keys !! p2.Keys
    ensures MergeConfigs(MergeConfigs(base, p1), p2) == MergeConfigs(MergeConfigs(base, p2), p1)
  {
    var l, r := MergeConfigs(MergeConfigs(base, p1), p2), MergeConfigs(MergeConfigs(base, p2), p1);
    MergeTwiceKeys(base, p1, p2);
    MergeTwiceKeys(base, p2, p1);
    assert l.Keys == r.Keys;
    forall k | k in l ensures l[k] == r[k] {
      MergeTwiceAt(base, p1, p2, k);
      MergeTwiceAt(base, p2, p1, k);
    }
  }

  lemma MergeTwiceKeys(base: Record, p1: Record, p2: Record)
    ensures MergeConfigs(MergeConfigs(base, p1), p2).Keys == base.Keys + DefinedKeys(p1) + DefinedKeys(p2)
  {
    MergeKeys(base, p1);
    MergeKeys(MergeConfigs(base, p1), p2);
  }

  /** One key after two merges with disjoint overrides: merged from the
      override that has it, or the base value. */
  lemma MergeTwiceAt(base: Record, p1: Record, p2: Record, k: string)
    requires p1.Keys !! p2.Keys
    requires k in MergeConfigs(MergeConfigs(base, p1), p2)
    ensures MergeConfigs(MergeConfigs(base, p1), p2)[k] ==
      if k in p1 then MergeEntry(Get(base, k), p1[k])
      else if k in p2 then MergeEntry(Get(base, k), p2[k])
      else base[k]
  {
    var a1 := MergeConfigs(base, p1);
    MergeKeys(base, p1);
    if k !in p2 {
      MergeKeepsAbsent(a1, p2, k);
    } else {
      assert Get(a1, k) == Get(base, k);
    }
  }

  // ---------------------------------------------------------------------
  // DEFAULT_CONFIG
  // ---------------------------------------------------------------------

  const DefaultCamera: Record := map[
    "fov" := Num(75.0),
    "distance" := Num(25.0)
  ]

  const DefaultColors: Record := map[
    "background" := Num(0xffffff as real),
    "nodes" := Num(0x333333 as real),
    "wireframe" := Num(0x333333 as real),
    "sequenceLine" := Num(0x000000 as real)
  ]

  const DefaultConfig: Record := map[
    "autoRotate" := Bool(true),
    "showCubeWireframe" := Bool(true),
    "showNodes" := Bool(true),
    "showNodeNumbers" := Bool(true),
    "lineMode" := Str("full"),
    "nodeSize" := Num(0.15),
    "rotationSpeed" := Num(0.003),
    "camera" := Obj(DefaultCamera),
    "colors" := Obj(DefaultColors)
  ]

  /** Overriding one key of a nested object, when the new value is defined
      and not an object merged into an object, changes that nested key and
      nothing else. */
  lemma MergeNestedKey(base: Record, k: string, k2: string, c: Value)
    requires k in base && base[k].Obj?
    requires c != Undefined && !(IsObject(c) && IsObject(Get(base[k].fields, k2)))
    ensures MergeConfigs(base, map[k := Obj(map[k2 := c])]) == base[k := Obj(base[k].fields[k2 := c])]
  {
    var over := map[k := Obj(map[k2 := c])];
    var r := MergeConfigs(base, over);
    MergeRecurses(base, over, k);
    var inner := MergeConfigs(base[k].fields, map[k2 := c]);
    MergeReplaces(base[k].fields, map[k2 := c], k2);
    MergeKeys(base[k].fields, map[k2 := c]);
    forall k3 | k3 in base[k].fields && k3 != k2 ensures inner[k3] == base[k].fields[k3] {
      MergeKeepsAbsent(base[k].fields, map[k2 := c], k3);
    }
    assert inner == base[k].fields[k2 := c];
    MergeKeys(base, over);
    forall k3 | k3 in base && k3 != k ensures r[k3] == base[k3] {
      MergeKeepsAbsent(base, over, k3);
    }
  }

  /** A partial nested override such as `{colors: {nodes: c}}` changes only
      `colors.nodes`: the other colours and every other setting keep their
      defaults. */
  lemma NestedColorOverrideKeepsDefaults(c: Value)
    requires c != Undefined
    ensures var r := MergeConfigs(DefaultConfig, map["colors" := Obj(map["nodes" := c])]);
      r == DefaultConfig["colors" := Obj(DefaultColors["nodes" := c])]
  {
    MergeNestedKey(DefaultConfig, "colors", "nodes", c);
  }
}
