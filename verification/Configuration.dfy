/** src/aec_bench/adapters/config.py, `merge_configuration`: overrides laid over defaults,
    mapping into mapping. */
module Configuration {
  import opened Results
  import opened Json

  /** The merge of two mappings, entry by entry. */
  function Merge(defaults: Fields, overrides: Fields): Fields
    decreases Object(overrides)
  {
    map k | k in defaults.Keys + overrides.Keys ::
      if k in overrides then
        if overrides[k].Object? && k in defaults && defaults[k].Object? then
          Object(Merge(defaults[k].fields, overrides[k].fields))
        else overrides[k]
      else defaults[k]
  }

  /** `merge_configuration`; `pending` holds the keys the loop has not reached. */
  method MergeConfiguration(defaults: Fields, overrides: Fields) returns (result: Fields)
    ensures result == Merge(defaults, overrides)
    decreases Object(overrides)
  {
    result := defaults;
    var pending := overrides.Keys;
    while pending != {}
      invariant pending <= overrides.Keys
      invariant result.Keys == defaults.Keys + (overrides.Keys - pending)
      invariant forall k :: k in result && k in pending ==> result[k] == defaults[k]
      invariant forall k :: k in result && k !in pending ==> result[k] == Merge(defaults, overrides)[k]
    {
      var key :| key in pending;
      var value := overrides[key];
      if value.Object? && key in result && result[key].Object? {
        var nested := MergeConfiguration(result[key].fields, value.fields);
        result := result[key := Object(nested)];
      } else {
        result := result[key := value];
      }
      pending := pending - {key};
    }
  }

  // -------------------------------------------------------------------------- path by path

  /** The value at the end of a path of keys. */
  function At(m: Fields, path: seq<string>): Option<Json>
    requires path != []
    decreases |path|
  {
    if path[0] !in m then None
    else if |path| == 1 then Some(m[path[0]])
    else if m[path[0]].Object? then At(m[path[0]].fields, path[1..])
    else None
  }

  /** The mappings met along a path, and the value at its end. */
  ghost predicate Walks(levels: seq<Fields>, path: seq<string>, v: Json)
    requires |levels| == |path|
  {
    forall i :: 0 <= i < |path| ==> Leads(levels[i], path[i], Inside(levels, i, v))
  }

  /** What is met below the i-th mapping: the next one, or the value below the last. */
  function Inside(levels: seq<Fields>, i: nat, v: Json): Json
    requires i < |levels|
  {
    if i == |levels| - 1 then v else Object(levels[i + 1])
  }

  predicate Leads(m: Fields, k: string, v: Json) {
    k in m && m[k] == v
  }

  lemma WalksFromSecond(levels: seq<Fields>, path: seq<string>, v: Json)
    requires |levels| == |path| > 1
    ensures Walks(levels, path, v) <==>
            Leads(levels[0], path[0], Object(levels[1])) && Walks(levels[1..], path[1..], v)
  {
    var ls, p := levels[1..], path[1..];
    if Walks(levels, path, v) {
      forall i | 0 <= i < |p| ensures Leads(ls[i], p[i], Inside(ls, i, v)) {
        assert Leads(levels[i + 1], path[i + 1], Inside(levels, i + 1, v));
      }
    }
    if Leads(levels[0], path[0], Object(levels[1])) && Walks(ls, p, v) {
      forall i | 0 <= i < |path|
        ensures Leads(levels[i], path[i], Inside(levels, i, v))
      {
        if i > 0 {
          assert Leads(ls[i - 1], p[i - 1], Inside(ls, i - 1, v));
        }
      }
    }
  }

  /** A path holds a value exactly when mappings inside each other lead from key to key to it. */
  lemma {:induction false} AtMeans(m: Fields, path: seq<string>, v: Json)
    requires path != []
    ensures At(m, path) == Some(v) <==>
            exists levels: seq<Fields> :: |levels| == |path| && levels[0] == m && Walks(levels, path, v)
    decreases |path|
  {
    if At(m, path) == Some(v) {
      if |path| == 1 {
        assert Walks([m], path, v);
      } else {
        var next := m[path[0]].fields;
        AtMeans(next, path[1..], v);
        var levels :| |levels| == |path[1..]| && levels[0] == next && Walks(levels, path[1..], v);
        assert ([m] + levels)[1..] == levels;
        WalksFromSecond([m] + levels, path, v);
      }
    }
    forall levels: seq<Fields> | |levels| == |path| && levels[0] == m && Walks(levels, path, v)
      ensures At(m, path) == Some(v)
    {
      if |path| == 1 {
        assert Leads(levels[0], path[0], Inside(levels, 0, v));
      } else {
        WalksFromSecond(levels, path, v);
        AtMeans(levels[1], path[1..], v);
        assert levels[1..][0] == levels[1];
      }
    }
  }

  /** The overrides settle the path: they hold something other than a mapping on the way. */
  predicate Settles(m: Fields, path: seq<string>)
    requires path != []
    decreases |path|
  {
    path[0] in m && (!m[path[0]].Object? || (|path| > 1 && Settles(m[path[0]].fields, path[1..])))
  }

  /** What the merge holds on every path: the overrides' value where they settle the path or
      have a mapping that meets none, the defaults' where the overrides have nothing, and the
      merge of both mappings where two mappings meet. */
  lemma {:induction false} MergeAtPath(defaults: Fields, overrides: Fields, path: seq<string>)
    requires path != []
    ensures var d, o := At(defaults, path), At(overrides, path);
      At(Merge(defaults, overrides), path) ==
        if Settles(overrides, path) then o
        else if o.None? then d
        else if o.value.Object? && d.Some? && d.value.Object? then Some(Object(Merge(d.value.fields, o.value.fields)))
        else o
    decreases |path|
  {
    var k := path[0];
    if |path| > 1 && k in overrides && overrides[k].Object? && k in defaults && defaults[k].Object? {
      MergeAtPath(defaults[k].fields, overrides[k].fields, path[1..]);
    }
  }

  // ---------------------------------------------------------------------------------- laws

  /** The empty mapping changes nothing on either side. */
  lemma EmptyIsIdentity(m: Fields)
    ensures Merge(m, map[]) == m && Merge(map[], m) == m
  {
  }

  /** Applying the same overrides twice is applying them once. */
  lemma {:induction false} MergeTwice(defaults: Fields, overrides: Fields)
    ensures Merge(Merge(defaults, overrides), overrides) == Merge(defaults, overrides)
    decreases Object(overrides), 0
  {
    var once := Merge(defaults, overrides);
    forall k | k in overrides ensures Merge(once, overrides)[k] == once[k] {
      if overrides[k].Object? {
        if k in defaults && defaults[k].Object? {
          MergeTwice(defaults[k].fields, overrides[k].fields);
        } else {
          MergeWithItself(overrides[k].fields);
        }
      }
    }
  }

  lemma MergeWithItself(m: Fields)
    ensures Merge(m, m) == m
    decreases Object(m), 1
  {
    EmptyIsIdentity(m);
    MergeTwice(map[], m);
  }

  /** The overrides replace all of the defaults. */
  predicate Absorbed(defaults: Fields, overrides: Fields)
    decreases Object(defaults)
  {
    forall k :: k in defaults ==>
      && k in overrides
      && (defaults[k].Object? && overrides[k].Object? ==> Absorbed(defaults[k].fields, overrides[k].fields))
  }

  lemma {:induction false} MergeIsOverrides(defaults: Fields, overrides: Fields)
    ensures Merge(defaults, overrides) == overrides <==> Absorbed(defaults, overrides)
    decreases Object(overrides)
  {
    var merged := Merge(defaults, overrides);
    forall k | k in defaults && k in overrides
      ensures merged[k] == overrides[k] <==>
              (defaults[k].Object? && overrides[k].Object? ==> Absorbed(defaults[k].fields, overrides[k].fields))
    {
      if defaults[k].Object? && overrides[k].Object? {
        MergeIsOverrides(defaults[k].fields, overrides[k].fields);
      }
    }
    if Absorbed(defaults, overrides) {
      assert merged.Keys == overrides.Keys;
    }
    if merged == overrides {
      forall k | k in defaults ensures k in overrides {
        assert k in merged;
      }
    }
  }

  /** The overrides add nothing to the defaults. */
  predicate Redundant(defaults: Fields, overrides: Fields)
    decreases Object(overrides)
  {
    forall k :: k in overrides ==>
      && k in defaults
      && (if defaults[k].Object? && overrides[k].Object? then Redundant(defaults[k].fields, overrides[k].fields)
          else defaults[k] == overrides[k])
  }

  lemma {:induction false} MergeIsDefaults(defaults: Fields, overrides: Fields)
    ensures Merge(defaults, overrides) == defaults <==> Redundant(defaults, overrides)
    decreases Object(overrides)
  {
    var merged := Merge(defaults, overrides);
    forall k | k in overrides && k in defaults && defaults[k].Object? && overrides[k].Object?
      ensures merged[k] == defaults[k] <==> Redundant(defaults[k].fields, overrides[k].fields)
    {
      MergeIsDefaults(defaults[k].fields, overrides[k].fields);
    }
    if Redundant(defaults, overrides) {
      assert merged.Keys == defaults.Keys;
    }
    if merged == defaults {
      forall k | k in overrides ensures k in defaults {
        assert k in merged;
      }
    }
  }

  /** Where b hides a mapping of a behind something else, c has to replace that mapping
      anyway; where all three hold mappings, the same again. */
  predicate Associates(a: Fields, b: Fields, c: Fields)
    decreases Object(c)
  {
    forall k :: k in c && k in b && k in a && c[k].Object? && a[k].Object? ==>
      if b[k].Object? then Associates(a[k].fields, b[k].fields, c[k].fields)
      else Absorbed(a[k].fields, c[k].fields)
  }

  /** The entry of one key under both groupings. */
  lemma GroupedEntry(a: Fields, b: Fields, c: Fields, k: string)
    ensures var left, right := Merge(Merge(a, b), c), Merge(a, Merge(b, c));
      && (k in left <==> k in right)
      && (k in left ==>
            if k in c && k in b && k in a && c[k].Object? && a[k].Object? then
              if b[k].Object? then
                && left[k] == Object(Merge(Merge(a[k].fields, b[k].fields), c[k].fields))
                && right[k] == Object(Merge(a[k].fields, Merge(b[k].fields, c[k].fields)))
              else left[k] == c[k] && right[k] == Object(Merge(a[k].fields, c[k].fields))
            else left[k] == right[k])
  {
  }

  /** Layering three configurations is associative exactly under that condition. */
  lemma {:induction false} MergeAssociativeIff(a: Fields, b: Fields, c: Fields)
    ensures Merge(Merge(a, b), c) == Merge(a, Merge(b, c)) <==> Associates(a, b, c)
    decreases Object(c)
  {
    hide Absorbed, Merge;
    var left, right := Merge(Merge(a, b), c), Merge(a, Merge(b, c));
    forall k ensures k in left <==> k in right {
      GroupedEntry(a, b, c, k);
    }
    forall k | k in c && k in b && k in a && c[k].Object? && a[k].Object?
      ensures k in left && k in right
      ensures left[k] == right[k] <==>
        if b[k].Object? then Associates(a[k].fields, b[k].fields, c[k].fields) else Absorbed(a[k].fields, c[k].fields)
    {
      BothHaveKey(a, b, c, k);
      GroupedEntry(a, b, c, k);
      if b[k].Object? {
        MergeAssociativeIff(a[k].fields, b[k].fields, c[k].fields);
      } else {
        MergeIsOverrides(a[k].fields, c[k].fields);
      }
    }
    forall k | k in left && !(k in c && k in b && k in a && c[k].Object? && a[k].Object?) ensures left[k] == right[k] {
      GroupedEntry(a, b, c, k);
    }
  }

  lemma BothHaveKey(a: Fields, b: Fields, c: Fields, k: string)
    requires k in c
    ensures k in Merge(Merge(a, b), c)
  {
  }

  /** No mapping meets something other than a mapping on the same path. */
  predicate SameShape(a: Fields, b: Fields)
    decreases Object(a)
  {
    forall k :: k in a && k in b ==>
      && (a[k].Object? <==> b[k].Object?)
      && (a[k].Object? && b[k].Object? ==> SameShape(a[k].fields, b[k].fields))
  }

  lemma {:induction false} SameShapeAssociates(a: Fields, b: Fields, c: Fields)
    requires SameShape(a, b)
    ensures Associates(a, b, c)
    decreases Object(c)
  {
    forall k | k in c && k in b && k in a && c[k].Object? && a[k].Object?
      ensures b[k].Object? && Associates(a[k].fields, b[k].fields, c[k].fields)
    {
      SameShapeAssociates(a[k].fields, b[k].fields, c[k].fields);
    }
  }

  /** When the first two layers never put a mapping against something else, the grouping of
      the layers does not matter. */
  lemma MergeAssociative(a: Fields, b: Fields, c: Fields)
    requires SameShape(a, b)
    ensures Merge(Merge(a, b), c) == Merge(a, Merge(b, c))
  {
    SameShapeAssociates(a, b, c);
    MergeAssociativeIff(a, b, c);
  }

  /** In general it does: a scalar between two mappings hides the first one or not. */
  lemma GroupingMatters()
    ensures var a: Fields := map["x" := Object(map["p" := Int(1)])];
      var b: Fields := map["x" := Int(0)];
      var c: Fields := map["x" := Object(map["q" := Int(2)])];
      Merge(Merge(a, b), c) != Merge(a, Merge(b, c))
  {
    var a: Fields := map["x" := Object(map["p" := Int(1)])];
    var b: Fields := map["x" := Int(0)];
    var c: Fields := map["x" := Object(map["q" := Int(2)])];
    assert "p" in a["x"].fields && "p" !in c["x"].fields;
    assert !Absorbed(a["x"].fields, c["x"].fields);
    MergeAssociativeIff(a, b, c);
  }
}
