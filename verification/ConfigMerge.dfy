/** Merging an override tree into a configuration tree. */
module ConfigMerge {
  import opened Wrappers

  /** A configuration value: an opaque leaf, a plain dictionary, or a configuration
      object with a fixed set of fields. */
  datatype Value =
    | Leaf(content: int)
    | Dict(items: map<string, Value>)
    | Config(name: string, fields: map<string, Value>)

  /** The value that results at one place, or None when merging raises: an override of a
      configuration object must be a mapping, and may only name its fields. */
  function Apply(base: Value, over: Value): Option<Value>
    decreases over, 1
  {
    if base.Config? then
      if !over.Dict? then None
      else
        match MergeItems(base.fields, over)
        case None => None
        case Some(merged) => if merged.Keys == base.fields.Keys then Some(Config(base.name, merged)) else None
    else if !(base.Dict? && over.Dict?) then Some(over)
    else
      match MergeItems(base.items, over)
      case None => None
      case Some(merged) => Some(Dict(merged))
  }

  /** All the overrides of one level; any that raises makes the whole merge raise. */
  function MergeItems(base: map<string, Value>, over: Value): (r: Option<map<string, Value>>)
    requires over.Dict?
    ensures r.Some? <==> forall k :: k in over.items && k in base ==> Apply(base[k], over.items[k]).Some?
    ensures r.Some? ==> r.value.Keys == base.Keys + over.items.Keys
    ensures r.Some? ==> forall k :: k in r.value ==>
                                      r.value[k] == if k !in over.items then base[k]
                                      else if k !in base then over.items[k]
                                      else Apply(base[k], over.items[k]).value
    decreases over, 0
  {
    if forall k :: k in over.items && k in base ==> Apply(base[k], over.items[k]).Some?
    then
      Some(map k | k in base.Keys + over.items.Keys ::
             if k !in over.items then base[k]
             else if k !in base then over.items[k] else Apply(base[k], over.items[k]).value)
    else None
  }

  // ------------------------------------------------------- the procedure

  /** Loops over the override's entries and assigns into the merged dictionary. */
  method MergeInto(base: map<string, Value>, over: Value) returns (merged: Option<map<string, Value>>)
    requires over.Dict?
    ensures merged == MergeItems(base, over)
    decreases over, 0
  {
    var result, rest := base, over.items.Keys;
    while rest != {}
      invariant rest <= over.items.Keys && MergedBut(base, over, rest, result)
      decreases rest
    {
      var k :| k in rest;
      var v := over.items[k];
      MergedOne(base, over, rest, result, k);
      rest := rest - {k};
      if k !in result {
        result := result[k := v];
      } else {
        var merged := MergeEntry(result[k], v);
        if merged.None? {
          return None;
        }
        result := result[k := merged.value];
      }
    }
    assert MergeItems(base, over).Some? && result == MergeItems(base, over).value;
    return Some(result);
  }

  /** The entries of `over` are merged into `base`, those of `rest` excepted. */
  ghost predicate MergedBut(base: map<string, Value>, over: Value, rest: set<string>, result: map<string, Value>)
    requires over.Dict? && rest <= over.items.Keys
  {
    && result.Keys == base.Keys + (over.items.Keys - rest)
    && (forall k :: k in over.items && k in base && k !in rest ==> Apply(base[k], over.items[k]).Some?)
    && (forall k :: k in result ==>
                      result[k] == if k !in over.items || k in rest then base[k]
                      else if k !in base then over.items[k] else Apply(base[k], over.items[k]).value)
  }

  lemma MergedOne(base: map<string, Value>, over: Value, rest: set<string>, result: map<string, Value>, k: string)
    requires over.Dict? && rest <= over.items.Keys && k in rest && MergedBut(base, over, rest, result)
    ensures k in result <==> k in base
    ensures k !in base ==> MergedBut(base, over, rest - {k}, result[k := over.items[k]])
    ensures k in base && Apply(base[k], over.items[k]).Some? ==>
              result[k] == base[k]
              && MergedBut(base, over, rest - {k}, result[k := Apply(base[k], over.items[k]).value])
    ensures k in base ==> result[k] == base[k]
  {
  }

  /** The override of an entry that is already there. */
  method MergeEntry(current: Value, v: Value) returns (r: Option<Value>)
    ensures r == Apply(current, v)
    decreases v, 2
  {
    if current.Config? {
      r := Merge(current, v);
    } else if !(v.Dict? && current.Dict?) {
      r := Some(v);
    } else {
      var merged := MergeInto(current.items, v);
      r := if merged.None? then None else Some(Dict(merged.value));
    }
  }

  /** `ConfigBase.merge`: the fields are merged and the object rebuilt from them. */
  method Merge(config: Value, overrides: Value) returns (r: Option<Value>)
    requires config.Config?
    ensures r == Apply(config, overrides)
    decreases overrides, 1
  {
    if !overrides.Dict? {
      return None;
    }
    var merged := MergeInto(config.fields, overrides);
    if merged.None? || merged.value.Keys != config.fields.Keys {
      return None;
    }
    return Some(Config(config.name, merged.value));
  }

  // ------------------------------------------------------- reading paths

  type Path = seq<string>

  function Children(v: Value): map<string, Value> {
    match v
    case Leaf(_) => map[]
    case Dict(items) => items
    case Config(_, fields) => fields
  }

  function Get(v: Value, p: Path): Option<Value>
    decreases |p|
  {
    if p == [] then Some(v)
    else if p[0] in Children(v) then Get(Children(v)[p[0]], p[1..])
    else None
  }

  /** `p` leaves the override tree at some dictionary that does not name its next step:
      it is neither above nor below any override path. */
  predicate Apart(v: Value, p: Path)
    decreases |p|
  {
    p != [] && v.Dict? && (p[0] !in v.items || Apart(v.items[p[0]], p[1..]))
  }

  lemma {:induction false} ApartIsAbsent(v: Value, p: Path)
    requires Apart(v, p)
    ensures Get(v, p) == None
    decreases |p|
  {
    if p[0] in v.items {
      ApartIsAbsent(v.items[p[0]], p[1..]);
    }
  }

  /** A path is apart exactly when it is not in the override tree and meets only
      dictionaries on the way. */
  lemma {:induction false} ApartIff(v: Value, p: Path)
    ensures Apart(v, p) <==>
            Get(v, p) == None && forall n :: 0 <= n < |p| && Get(v, p[..n]).Some? ==> Get(v, p[..n]).value.Dict?
    decreases |p|
  {
    if p == [] {
    } else {
      assert p[..0] == [];
      assert Get(v, p[..0]) == Some(v);
      if v.Dict? && p[0] in v.items {
        ApartIff(v.items[p[0]], p[1..]);
        forall n | 0 <= n < |p[1..]|
          ensures Get(v, p[..n + 1]) == Get(v.items[p[0]], p[1..][..n])
        {
          assert p[..n + 1][1..] == p[1..][..n];
        }
        forall n | 0 < n < |p|
          ensures Get(v, p[..n]) == Get(v.items[p[0]], p[1..][..n - 1])
        {
          assert p[..n][1..] == p[1..][..n - 1];
        }
      } else if v.Dict? {
        forall n | 0 < n < |p|
          ensures Get(v, p[..n]) == None
        {
        }
      }
    }
  }

  // ------------------------------------------------------- when a merge is accepted

  /** What the override holds at a path that meets only dictionaries on the way. */
  function Under(v: Value, p: Path): Option<Value>
    decreases |p|
  {
    if p == [] then Some(v)
    else if v.Dict? && p[0] in v.items then Under(v.items[p[0]], p[1..])
    else None
  }

  /** At `p` the override meets a configuration object and is no dictionary, or names
      something that is no field of it. */
  predicate RefusedAt(base: Value, over: Value, p: Path) {
    && Get(base, p).Some? && Get(base, p).value.Config? && Under(over, p).Some?
    && (Under(over, p).value.Dict? ==>
          exists k :: k in Under(over, p).value.items && k !in Get(base, p).value.fields)
  }

  lemma {:induction false} RefusalRaises(base: Value, over: Value, p: Path)
    requires RefusedAt(base, over, p)
    ensures Apply(base, over) == None
    decreases |p|
  {
    if p != [] {
      RefusalRaises(Children(base)[p[0]], over.items[p[0]], p[1..]);
    } else if over.Dict? {
      var k :| k in over.items && k !in base.fields;
      assert MergeItems(base.fields, over).Some? ==> k in MergeItems(base.fields, over).value;
    }
  }

  lemma WithinUnion(a: set<string>, b: set<string>)
    ensures b <= a ==> a + b == a
  {
  }

  lemma {:induction false} RaiseIsRefusal(base: Value, over: Value) returns (p: Path)
    requires Apply(base, over) == None
    ensures RefusedAt(base, over, p)
    decreases over
  {
    p := [];
    if over.Dict? {
      if MergeItems(Children(base), over).None? {
        var k :| k in over.items && k in Children(base) && Apply(Children(base)[k], over.items[k]).None?;
        var rest := RaiseIsRefusal(Children(base)[k], over.items[k]);
        p := [k] + rest;
        assert p[1..] == rest;
      } else {
        assert MergeItems(base.fields, over).value.Keys == base.fields.Keys + over.items.Keys;
        WithinUnion(base.fields.Keys, over.items.Keys);
        var k :| k in over.items.Keys && k !in base.fields.Keys;
        assert k in over.items && k !in base.fields;
      }
    }
  }

  /** A merge is refused exactly when the override, somewhere, is no dictionary for a
      configuration object or names something that is no field of one. */
  lemma MergeRefusedIff(base: Value, over: Value)
    ensures Apply(base, over) == None <==> exists p :: RefusedAt(base, over, p)
  {
    if Apply(base, over) == None {
      var p := RaiseIsRefusal(base, over);
    }
    if p :| RefusedAt(base, over, p) {
      RefusalRaises(base, over, p);
    }
  }

  /** What an accepted override dictionary leaves at its place: the same kind of value
      with the names of both, or the dictionary itself where nothing could be merged. */
  lemma {:induction false} DictionariesJoin(base: Value, over: Value, p: Path)
    requires Apply(base, over).Some? && Under(over, p).Some? && Under(over, p).value.Dict?
    ensures var was, now, items := Get(base, p), Get(Apply(base, over).value, p), Under(over, p).value.items;
            now.Some?
            && if was.Some? && was.value.Config?
            then now.value.Config? && now.value.name == was.value.name
                 && now.value.fields.Keys == was.value.fields.Keys && items.Keys <= was.value.fields.Keys
            else if was.Some? && was.value.Dict?
              then now.value.Dict? && now.value.items.Keys == was.value.items.Keys + items.Keys
              else now == Under(over, p)
    decreases |p|
  {
    if p != [] {
      if p[0] in Children(base) {
        DictionariesJoin(Children(base)[p[0]], over.items[p[0]], p[1..]);
      } else {
        UnderIsGet(over.items[p[0]], p[1..]);
      }
      if base.Leaf? {
        UnderIsGet(over, p);
      }
    }
  }

  lemma {:induction false} UnderIsGet(v: Value, p: Path)
    requires Under(v, p).Some?
    ensures Get(v, p) == Under(v, p)
    decreases |p|
  {
    if p != [] {
      UnderIsGet(v.items[p[0]], p[1..]);
    }
  }

  // ------------------------------------------------------- the claims

  /** Every non-dictionary value of an accepted override reads back at its path. */
  lemma {:induction false} OverridesReadBack(base: Value, over: Value, p: Path)
    requires Apply(base, over).Some? && Get(over, p).Some? && !Get(over, p).value.Dict?
    ensures Get(Apply(base, over).value, p) == Get(over, p)
    decreases |p|
  {
    if p != [] && over.Dict? && !base.Leaf? && p[0] in Children(base) {
      OverridesReadBack(Children(base)[p[0]], over.items[p[0]], p[1..]);
    }
  }

  /** Every path neither above nor below an override path keeps its value. */
  lemma {:induction false} OthersKept(base: Value, over: Value, p: Path)
    requires Apply(base, over).Some? && Apart(over, p)
    ensures Get(Apply(base, over).value, p) == Get(base, p)
    decreases |p|
  {
    if p[0] in over.items {
      ApartIsAbsent(over.items[p[0]], p[1..]);
      if !base.Leaf? && p[0] in Children(base) {
        OthersKept(Children(base)[p[0]], over.items[p[0]], p[1..]);
      }
    }
  }

  /** No configuration object inside an override. */
  predicate Plain(v: Value) {
    match v
    case Leaf(_) => true
    case Dict(items) => forall k :: k in items ==> Plain(items[k])
    case Config(_, _) => false
  }

  lemma {:induction false} SelfMergeIff(v: Value)
    ensures Apply(v, v) == if Plain(v) then Some(v) else None
  {
    if v.Dict? {
      forall k | k in v.items
        ensures Apply(v.items[k], v.items[k]) == if Plain(v.items[k]) then Some(v.items[k]) else None
      {
        SelfMergeIff(v.items[k]);
      }
      SameItemsIff(v.items, v);
    }
  }

  /** Merging a level changes nothing exactly when no entry does. */
  lemma SameItemsIff(items: map<string, Value>, over: Value)
    requires over.Dict? && over.items.Keys <= items.Keys
    ensures MergeItems(items, over) == Some(items)
       <==> forall k :: k in over.items ==> Apply(items[k], over.items[k]) == Some(items[k])
  {
    var r := MergeItems(items, over);
    if forall k :: k in over.items ==> Apply(items[k], over.items[k]) == Some(items[k]) {
      assert r.value == items;
    }
    if r == Some(items) {
      forall k | k in over.items
        ensures Apply(items[k], over.items[k]) == Some(items[k])
      {
        assert k in r.value && r.value[k] == items[k];
      }
    }
  }

  /** Merging the same override again changes nothing when the override holds no
      configuration object, and is refused when it does. */
  lemma {:induction false} MergeTwiceIff(base: Value, over: Value)
    requires Apply(base, over).Some?
    ensures var r := Apply(base, over).value; Apply(r, over) == if Plain(over) then Some(r) else None
    decreases over
  {
    var r := Apply(base, over).value;
    if over.Dict? && !base.Leaf? {
      var before, after := Children(base), Children(r);
      forall k | k in over.items
        ensures k in after
        ensures Apply(after[k], over.items[k]) == if Plain(over.items[k]) then Some(after[k]) else None
      {
        if k in before {
          MergeTwiceIff(before[k], over.items[k]);
        } else {
          SelfMergeIff(over.items[k]);
        }
      }
      SameItemsIff(after, over);
    } else {
      SelfMergeIff(over);
    }
  }

  /** An override that holds a configuration object is accepted once and refused the
      second time. */
  lemma SecondMergeRefused()
    ensures var base := Config("a", map["x" := Leaf(0)]);
            var over := Dict(map["x" := Config("b", map[])]);
            && Apply(base, over) == Some(Config("a", map["x" := Config("b", map[])]))
            && Apply(Apply(base, over).value, over) == None
  {
    var inner := Config("b", map[]);
    var base, over := Config("a", map["x" := Leaf(0)]), Dict(map["x" := inner]);
    var merged := Config("a", map["x" := inner]);
    assert Apply(Leaf(0), inner) == Some(inner) && Apply(inner, inner) == None;
    assert MergeItems(base.fields, over).value == merged.fields;
    assert "x" in over.items && "x" in merged.fields && Apply(merged.fields["x"], over.items["x"]) == None;
    assert MergeItems(merged.fields, over) == None;
  }
}
