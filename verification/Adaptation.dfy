/** src/aec_bench/contracts/adaptation.py: expansion of variation axes into candidates, each
    with the lineage that derives it from the seed. Blank strings are not singled out. */
module Adaptation {
  import opened Results
  import opened Ordering
  import opened Collections

  datatype Axis = Axis(name: string, values: seq<string>)

  type Variation = map<string, string>

  datatype Spec = Spec(familyId: string, seedTaskId: string, seed: Variation, axes: seq<Axis>, includeSeed: bool)

  datatype Step = Step(axis: string, value: string, parentValue: string)

  datatype Candidate = Candidate(
    familyId: string,
    seedTaskId: string,
    key: string,
    variation: Variation,
    lineage: seq<Step>)

  // ---------------------------------------------------------------------------- validation

  function Names(axes: seq<Axis>): seq<string> {
    seq(|axes|, i requires 0 <= i < |axes| => axes[i].name)
  }

  function Values(axes: seq<Axis>): seq<seq<string>> {
    seq(|axes|, i requires 0 <= i < |axes| => axes[i].values)
  }

  /** `VariationAxis.validate_values`. */
  function ValidateValues(values: seq<string>): Result<seq<string>, string> {
    if values == [] then Raised("values must not be empty")
    else if |Elements(values)| != |values| then Raised("values must be unique")
    else Ok(values)
  }

  /** `{axis.axis: set(axis.values) for axis in axes}`; a later axis of the same name wins. */
  function AllowedValues(axes: seq<Axis>): map<string, set<string>> {
    if axes == [] then map[]
    else AllowedValues(axes[..|axes| - 1])[axes[|axes| - 1].name := Elements(axes[|axes| - 1].values)]
  }

  lemma {:induction false} AllowedKeys(axes: seq<Axis>)
    ensures AllowedValues(axes).Keys == Elements(Names(axes))
  {
    if axes != [] {
      var n := |axes| - 1;
      AllowedKeys(axes[..n]);
      assert Names(axes) == Names(axes[..n]) + [axes[n].name];
    }
  }

  lemma {:induction false} AllowedEntry(axes: seq<Axis>, i: nat)
    requires NoRepeats(Names(axes)) && i < |axes|
    ensures axes[i].name in AllowedValues(axes) && AllowedValues(axes)[axes[i].name] == Elements(axes[i].values)
  {
    var n := |axes| - 1;
    if i < n {
      assert Names(axes[..n]) == Names(axes)[..n];
      assert Names(axes)[i] != Names(axes)[n];
      AllowedEntry(axes[..n], i);
    }
  }

  /** `AdaptationSpec.validate_axes`. */
  function ValidateAxes(s: Spec): Result<(), string> {
    AllowedKeys(s.axes);
    if s.axes == [] then Raised("axes must not be empty")
    else if |Elements(Names(s.axes))| != |s.axes| then Raised("axes must be unique")
    else if s.seed.Keys != Elements(Names(s.axes)) then Raised("seed_variation must define every axis")
    else if exists name :: name in s.seed && s.seed[name] !in AllowedValues(s.axes)[name] then
      Raised("seed_variation value must exist in axis values")
    else Ok(())
  }

  /** The accepted specifications: distinct axes, each with distinct values, and a seed that
      picks one value of every axis and nothing else. */
  ghost predicate WellFormed(s: Spec) {
    && s.axes != []
    && NoRepeats(Names(s.axes))
    && s.seed.Keys == Elements(Names(s.axes))
    && (forall i :: 0 <= i < |s.axes| ==>
          s.axes[i].values != [] && NoRepeats(s.axes[i].values) && s.axes[i].name in s.seed
          && s.seed[s.axes[i].name] in s.axes[i].values)
  }

  predicate Accepted(s: Spec) {
    (forall a :: a in s.axes ==> ValidateValues(a.values).Ok?) && ValidateAxes(s).Ok?
  }

  lemma AcceptedIffWellFormed(s: Spec)
    ensures Accepted(s) <==> WellFormed(s)
  {
    CountShowsRepeats(Names(s.axes));
    forall a | a in s.axes ensures ValidateValues(a.values).Ok? <==> a.values != [] && NoRepeats(a.values) {
      CountShowsRepeats(a.values);
    }
    AllowedKeys(s.axes);
    if NoRepeats(Names(s.axes)) && s.seed.Keys == Elements(Names(s.axes)) {
      SeedAllowed(s);
    }
  }

  lemma SeedAllowed(s: Spec)
    requires NoRepeats(Names(s.axes)) && s.seed.Keys == Elements(Names(s.axes)) == AllowedValues(s.axes).Keys
    ensures (forall name :: name in s.seed ==> s.seed[name] in AllowedValues(s.axes)[name]) <==>
            (forall i :: 0 <= i < |s.axes| ==> s.axes[i].name in s.seed && s.seed[s.axes[i].name] in s.axes[i].values)
  {
    hide AllowedValues;
    forall i | 0 <= i < |s.axes|
      ensures s.axes[i].name in s.seed && s.axes[i].name in AllowedValues(s.axes)
      ensures AllowedValues(s.axes)[s.axes[i].name] == Elements(s.axes[i].values)
    {
      assert Names(s.axes)[i] in Names(s.axes);
      AllowedEntry(s.axes, i);
    }
    forall name | name in s.seed ensures exists i :: 0 <= i < |s.axes| && s.axes[i].name == name {
      assert name in Names(s.axes);
      var i :| 0 <= i < |s.axes| && Names(s.axes)[i] == name;
    }
  }

  /** Which complaint a specification gets. */
  lemma ComplaintsMean(s: Spec)
    ensures ValidateAxes(s) == Raised("axes must not be empty") <==> s.axes == []
    ensures ValidateAxes(s) == Raised("axes must be unique") <==> SharedName(s)
    ensures ValidateAxes(s) == Raised("seed_variation must define every axis") <==>
      s.axes != [] && !SharedName(s) && !(forall name :: name in s.seed <==> NamesAnAxis(s, name))
    ensures ValidateAxes(s) == Raised("seed_variation value must exist in axis values") <==>
      && s.axes != [] && !SharedName(s) && (forall name :: name in s.seed <==> NamesAnAxis(s, name))
      && exists i :: 0 <= i < |s.axes| && s.axes[i].name in s.seed && s.seed[s.axes[i].name] !in s.axes[i].values
  {
    var names := Names(s.axes);
    SharedNameIff(s);
    AxisNames(s);
    hide SharedName, NamesAnAxis, Elements;
    if !SharedName(s) && s.seed.Keys == Elements(names) {
      AllowedKeys(s.axes);
      SeedAllowed(s);
    }
  }

  lemma SharedNameIff(s: Spec)
    ensures SharedName(s) <==> |Elements(Names(s.axes))| != |s.axes|
    ensures SharedName(s) <==> !NoRepeats(Names(s.axes))
  {
    var names := Names(s.axes);
    CountShowsRepeats(names);
    assert forall i :: 0 <= i < |names| ==> names[i] == s.axes[i].name;
  }

  lemma AxisNames(s: Spec)
    ensures forall name :: name in Elements(Names(s.axes)) <==> NamesAnAxis(s, name)
    ensures forall i :: 0 <= i < |s.axes| ==> s.axes[i].name in Elements(Names(s.axes))
  {
    var names := Names(s.axes);
    forall name ensures name in Elements(names) <==> NamesAnAxis(s, name) {
      if NamesAnAxis(s, name) {
        var i :| 0 <= i < |s.axes| && s.axes[i].name == name;
        assert names[i] == name;
      }
    }
    forall i | 0 <= i < |s.axes| ensures s.axes[i].name in Elements(names) {
      assert names[i] in names;
    }
  }

  ghost predicate SharedName(s: Spec) {
    exists i, j :: 0 <= i < j < |s.axes| && s.axes[i].name == s.axes[j].name
  }

  predicate NamesAnAxis(s: Spec, name: string) {
    exists i :: 0 <= i < |s.axes| && s.axes[i].name == name
  }

  lemma ValuesComplaints(values: seq<string>)
    ensures ValidateValues(values) == Raised("values must not be empty") <==> values == []
    ensures ValidateValues(values) == Raised("values must be unique") <==>
      exists i, j :: 0 <= i < j < |values| && values[i] == values[j]
    ensures ValidateValues(values).Ok? ==> ValidateValues(values).value == values
  {
    CountShowsRepeats(values);
  }

  // -------------------------------------------------------------------- the cartesian product

  function Prepended(x: string, tails: seq<seq<string>>): seq<seq<string>> {
    seq(|tails|, i requires 0 <= i < |tails| => [x] + tails[i])
  }

  /** The tails behind each of the values from `start` on. */
  function Blocks(values: seq<string>, start: nat, tails: seq<seq<string>>): seq<seq<string>>
    requires start <= |values|
    decreases |values| - start
  {
    if start == |values| then [] else Prepended(values[start], tails) + Blocks(values, start + 1, tails)
  }

  /** `itertools.product`: the last list varies fastest. */
  function Product(lists: seq<seq<string>>): seq<seq<string>> {
    if lists == [] then [[]] else Blocks(lists[0], 0, Product(lists[1..]))
  }

  /** A combination takes one element of each list. */
  ghost predicate Picks(lists: seq<seq<string>>, c: seq<string>) {
    |c| == |lists| && forall i :: 0 <= i < |lists| ==> c[i] in lists[i]
  }

  function Sizes(lists: seq<seq<string>>): nat {
    if lists == [] then 1 else |lists[0]| * Sizes(lists[1..])
  }

  /** Earlier in the list of values: the order in which an axis is written down. */
  ghost predicate Earlier(values: seq<string>, x: string, y: string) {
    exists i, j :: 0 <= i < j < |values| && values[i] == x && values[j] == y
  }

  /** Lexicographic order by the position of the values in their lists. */
  ghost predicate Before(lists: seq<seq<string>>, a: seq<string>, b: seq<string>) {
    lists != [] && a != [] && b != []
    && (Earlier(lists[0], a[0], b[0]) || (a[0] == b[0] && Before(lists[1..], a[1..], b[1..])))
  }

  lemma {:induction false} BlocksMembers(values: seq<string>, start: nat, tails: seq<seq<string>>)
    requires start <= |values|
    ensures |Blocks(values, start, tails)| == (|values| - start) * |tails|
    ensures forall c :: c in Blocks(values, start, tails) <==> c != [] && c[0] in values[start..] && c[1..] in tails
    decreases |values| - start
  {
    if start < |values| {
      var x := values[start];
      BlocksMembers(values, start + 1, tails);
      assert (|values| - start) * |tails| == |tails| + (|values| - (start + 1)) * |tails|;
      assert values[start..] == [x] + values[start + 1..];
      forall c ensures c in Blocks(values, start, tails) <==> c != [] && c[0] in values[start..] && c[1..] in tails {
        PrependedMember(x, tails, c);
      }
    }
  }

  lemma PrependedMember(x: string, tails: seq<seq<string>>, c: seq<string>)
    ensures c in Prepended(x, tails) <==> c != [] && c[0] == x && c[1..] in tails
  {
    if c != [] && c[0] == x && c[1..] in tails {
      var i :| 0 <= i < |tails| && tails[i] == c[1..];
      assert Prepended(x, tails)[i] == [x] + c[1..] == c;
    }
    if c in Prepended(x, tails) {
      var i :| 0 <= i < |tails| && Prepended(x, tails)[i] == c;
      assert c[1..] == tails[i];
    }
  }

  /** The product holds every combination, and as many as the sizes multiply to. */
  lemma {:induction false} ProductMembers(lists: seq<seq<string>>)
    ensures |Product(lists)| == Sizes(lists)
    ensures forall c :: c in Product(lists) <==> Picks(lists, c)
  {
    if lists == [] {
      forall c ensures c in Product(lists) <==> Picks(lists, c) {
      }
    } else {
      ProductMembers(lists[1..]);
      BlocksMembers(lists[0], 0, Product(lists[1..]));
      assert lists[0][0..] == lists[0];
      forall c ensures c in Product(lists) <==> Picks(lists, c) {
        PicksStep(lists, c);
      }
    }
  }

  lemma PicksStep(lists: seq<seq<string>>, c: seq<string>)
    requires lists != []
    ensures Picks(lists, c) <==> c != [] && c[0] in lists[0] && Picks(lists[1..], c[1..])
  {
    if c != [] && c[0] in lists[0] && Picks(lists[1..], c[1..]) {
      forall i | 0 <= i < |lists| ensures c[i] in lists[i] {
        if i > 0 {
          assert c[1..][i - 1] in lists[1..][i - 1];
        }
      }
    }
  }

  lemma {:induction false} BlocksAscending(lists: seq<seq<string>>, start: nat, tails: seq<seq<string>>)
    requires lists != [] && start <= |lists[0]|
    requires Ascending((a, b) => Before(lists[1..], a, b), tails)
    ensures Ascending((a, b) => Before(lists, a, b), Blocks(lists[0], start, tails))
    decreases |lists[0]| - start
  {
    var values := lists[0];
    var all := Blocks(values, start, tails);
    if start < |values| {
      var block, rest := Prepended(values[start], tails), Blocks(values, start + 1, tails);
      BlocksAscending(lists, start + 1, tails);
      BlocksMembers(values, start + 1, tails);
      forall i, j | 0 <= i < j < |all| ensures Before(lists, all[i], all[j]) {
        if j < |block| {
          assert all[i][1..] == tails[i] && all[j][1..] == tails[j];
        } else if i < |block| {
          assert all[j] == rest[j - |block|] && rest[j - |block|] in rest;
          var k :| start + 1 <= k < |values| && values[k] == all[j][0];
          assert values[start] == all[i][0];
          assert Earlier(values, all[i][0], all[j][0]);
        } else {
          assert all[i] == rest[i - |block|] && all[j] == rest[j - |block|];
        }
      }
    }
  }

  /** The product comes in lexicographic order. */
  lemma {:induction false} ProductAscending(lists: seq<seq<string>>)
    ensures Ascending((a, b) => Before(lists, a, b), Product(lists))
  {
    if lists != [] {
      ProductAscending(lists[1..]);
      BlocksAscending(lists, 0, Product(lists[1..]));
    }
  }

  /** A combination does not come before itself when no list repeats a value. */
  lemma {:induction false} BeforeIrreflexive(lists: seq<seq<string>>, a: seq<string>)
    requires forall l :: l in lists ==> NoRepeats(l)
    ensures !Before(lists, a, a)
  {
    if lists != [] && a != [] {
      assert lists[0] in lists && forall l :: l in lists[1..] ==> l in lists;
      BeforeIrreflexive(lists[1..], a[1..]);
    }
  }

  // ---------------------------------------------------------------------- variations, lineages

  /** `dict(zip(names, combination))`. */
  function VariationOf(names: seq<string>, c: seq<string>): Variation
    requires |names| == |c|
  {
    if names == [] then map[]
    else
      var n := |names| - 1;
      VariationOf(names[..n], c[..n])[names[n] := c[n]]
  }

  function CombinationOf(names: seq<string>, v: Variation): seq<string>
    requires forall name :: name in names ==> name in v
  {
    seq(|names|, i requires 0 <= i < |names| => v[names[i]])
  }

  lemma {:induction false} VariationEntries(names: seq<string>, c: seq<string>)
    requires |names| == |c| && NoRepeats(names)
    ensures VariationOf(names, c).Keys == Elements(names)
    ensures forall i :: 0 <= i < |names| ==>
      names[i] in VariationOf(names, c) && VariationOf(names, c)[names[i]] == c[i]
  {
    if names != [] {
      var n := |names| - 1;
      VariationEntries(names[..n], c[..n]);
      assert names == names[..n] + [names[n]];
      forall i | 0 <= i < n ensures names[i] in VariationOf(names, c) && VariationOf(names, c)[names[i]] == c[i] {
        assert names[..n][i] == names[i] && names[i] != names[n];
      }
    }
  }

  lemma VariationDetermined(names: seq<string>, c: seq<string>)
    requires |names| == |c| && NoRepeats(names)
    ensures (forall name :: name in names ==> name in VariationOf(names, c)) &&
      CombinationOf(names, VariationOf(names, c)) == c
  {
    VariationEntries(names, c);
  }

  lemma CombinationDetermines(names: seq<string>, v: Variation)
    requires NoRepeats(names) && v.Keys == Elements(names)
    ensures (forall name :: name in names ==> name in v) && VariationOf(names, CombinationOf(names, v)) == v
  {
    assert forall name :: name in names ==> name in Elements(names);
    var c := CombinationOf(names, v);
    VariationEntries(names, c);
    var w := VariationOf(names, c);
    forall name | name in v ensures w[name] == v[name] {
      var i :| 0 <= i < |names| && names[i] == name;
      assert w[names[i]] == c[i];
    }
  }

  /** One step for every axis on which the variation differs from the seed, in axis order. */
  function Lineage(names: seq<string>, seed: Variation, v: Variation): seq<Step>
    requires forall name :: name in names ==> name in seed && name in v
  {
    if names == [] then []
    else
      var n := |names| - 1;
      assert names[n] in names && forall name :: name in names[..n] ==> name in names;
      Lineage(names[..n], seed, v)
      + (if v[names[n]] != seed[names[n]] then [Step(names[n], v[names[n]], seed[names[n]])] else [])
  }

  /** Derives a variation step by step; a step fails unless it starts from its parent value. */
  function Replay(v: Variation, lineage: seq<Step>): Option<Variation> {
    if lineage == [] then Some(v)
    else
      var n := |lineage| - 1;
      var before := Replay(v, lineage[..n]);
      if before.Some? && lineage[n].axis in before.value && before.value[lineage[n].axis] == lineage[n].parentValue then
        Some(before.value[lineage[n].axis := lineage[n].value])
      else None
  }

  /** The seed with the given axes replaced by the variation's values. */
  function Overwrite(seed: Variation, names: seq<string>, v: Variation): Variation {
    map name | name in seed :: if name in names && name in v then v[name] else seed[name]
  }

  lemma OverwriteStep(seed: Variation, names: seq<string>, last: string, v: Variation)
    requires last in seed && last in v && last !in names
    ensures Overwrite(seed, names + [last], v) == Overwrite(seed, names, v)[last := v[last]]
    ensures last in Overwrite(seed, names, v) && Overwrite(seed, names, v)[last] == seed[last]
    ensures v[last] == seed[last] ==> Overwrite(seed, names + [last], v) == Overwrite(seed, names, v)
  {
  }

  lemma ReplayStep(v: Variation, lineage: seq<Step>, s: Step, before: Variation)
    requires Replay(v, lineage) == Some(before) && s.axis in before && before[s.axis] == s.parentValue
    ensures Replay(v, lineage + [s]) == Some(before[s.axis := s.value])
  {
    assert (lineage + [s])[..|lineage + [s]| - 1] == lineage;
  }

  lemma {:induction false} ReplayOverwrites(names: seq<string>, seed: Variation, v: Variation)
    requires NoRepeats(names) && forall name :: name in names ==> name in seed && name in v
    ensures Replay(seed, Lineage(names, seed, v)) == Some(Overwrite(seed, names, v))
  {
    hide Overwrite, Replay;
    if names == [] {
      NothingOverwritten(seed, v);
    } else {
      var n := |names| - 1;
      var init, last := names[..n], names[n];
      assert names == init + [last] && last !in init;
      ReplayOverwrites(init, seed, v);
      OverwriteStep(seed, init, last, v);
      assert Lineage(init, seed, v) + [] == Lineage(init, seed, v);
      if v[last] != seed[last] {
        ReplayStep(seed, Lineage(init, seed, v), Step(last, v[last], seed[last]), Overwrite(seed, init, v));
      }
    }
  }

  lemma NothingOverwritten(seed: Variation, v: Variation)
    ensures Overwrite(seed, [], v) == seed && Replay(seed, []) == Some(seed)
  {
  }

  /** Replaying the lineage on the seed derives the variation. */
  lemma LineageRoundTrip(names: seq<string>, seed: Variation, v: Variation)
    requires NoRepeats(names) && seed.Keys == Elements(names) == v.Keys
    ensures (forall name :: name in names ==> name in seed && name in v)
    ensures Replay(seed, Lineage(names, seed, v)) == Some(v)
  {
    assert forall name :: name in names ==> name in Elements(names);
    ReplayOverwrites(names, seed, v);
    assert Overwrite(seed, names, v) == v;
  }

  /** The steps of a lineage: exactly the differing axes, each from seed value to new value. */
  lemma {:induction false} LineageSteps(names: seq<string>, seed: Variation, v: Variation)
    requires NoRepeats(names) && forall name :: name in names ==> name in seed && name in v
    ensures forall s :: s in Lineage(names, seed, v) <==>
      s.axis in names && v[s.axis] != seed[s.axis] && s.value == v[s.axis] && s.parentValue == seed[s.axis]
    ensures forall i, j :: 0 <= i < j < |Lineage(names, seed, v)| ==>
      Earlier(names, Lineage(names, seed, v)[i].axis, Lineage(names, seed, v)[j].axis)
  {
    if names != [] {
      var n := |names| - 1;
      var init, last := names[..n], names[n];
      assert names == init + [last];
      LineageSteps(init, seed, v);
      var before, whole := Lineage(init, seed, v), Lineage(names, seed, v);
      assert whole[..|before|] == before;
      forall i, j | 0 <= i < j < |whole| ensures Earlier(names, whole[i].axis, whole[j].axis) {
        assert whole[i] == before[i] && before[i] in before;
        if j < |before| {
          assert Earlier(init, before[i].axis, before[j].axis);
          var k, m :| 0 <= k < m < |init| && init[k] == before[i].axis && init[m] == before[j].axis;
          assert names[k] == init[k] && names[m] == init[m];
        } else {
          var k :| 0 <= k < |init| && init[k] == before[i].axis;
          assert names[k] == init[k] && names[n] == whole[j].axis;
        }
      }
    }
  }

  // ------------------------------------------------------------------------------ expansion

  /** `"__".join(f"{name}={value}")`. */
  function KeyOf(names: seq<string>, c: seq<string>): string
    requires |names| == |c|
  {
    if names == [] then ""
    else if |names| == 1 then names[0] + "=" + c[0]
    else names[0] + "=" + c[0] + "__" + KeyOf(names[1..], c[1..])
  }

  /** The key names each axis with its value, in axis order. */
  lemma {:induction false} KeySteps(names: seq<string>, c: seq<string>, name: string, value: string)
    requires |names| == |c|
    ensures KeyOf([], []) == "" && KeyOf([name], [value]) == name + "=" + value
    ensures names != [] ==> KeyOf(names + [name], c + [value]) == KeyOf(names, c) + ("__" + name + "=" + value)
  {
    if |names| > 1 {
      KeySteps(names[1..], c[1..], name, value);
      assert (names + [name])[1..] == names[1..] + [name] && (c + [value])[1..] == c[1..] + [value];
    } else if |names| == 1 {
      assert (names + [name])[1..] == [name] && (c + [value])[1..] == [value];
    }
  }

  function CandidateFor(s: Spec, c: seq<string>): Candidate
    requires WellFormed(s) && |c| == |s.axes|
  {
    var names := Names(s.axes);
    var v := VariationOf(names, c);
    VariationEntries(names, c);
    assert forall name :: name in names ==> name in Elements(names);
    Candidate(s.familyId, s.seedTaskId, KeyOf(names, CombinationOf(names, v)), v, Lineage(names, s.seed, v))
  }

  predicate Skipped(s: Spec, c: seq<string>)
    requires |c| == |s.axes|
  {
    !s.includeSeed && VariationOf(Names(s.axes), c) == s.seed
  }

  /** The candidates of a list of combinations. */
  function CandidatesOf(s: Spec, combinations: seq<seq<string>>): seq<Candidate>
    requires WellFormed(s) && forall c :: c in combinations ==> |c| == |s.axes|
  {
    if combinations == [] then []
    else
      var n := |combinations| - 1;
      assert combinations[n] in combinations && forall c :: c in combinations[..n] ==> c in combinations;
      CandidatesOf(s, combinations[..n])
      + (if Skipped(s, combinations[n]) then [] else [CandidateFor(s, combinations[n])])
  }

  lemma ProductLengths(s: Spec)
    ensures forall c :: c in Product(Values(s.axes)) ==> |c| == |s.axes|
  {
    ProductMembers(Values(s.axes));
  }

  function Expansion(s: Spec): seq<Candidate>
    requires WellFormed(s)
  {
    ProductLengths(s);
    CandidatesOf(s, Product(Values(s.axes)))
  }

  /** `expand_adaptation_spec`. */
  method ExpandAdaptationSpec(s: Spec) returns (candidates: seq<Candidate>)
    requires WellFormed(s)
    ensures candidates == Expansion(s)
  {
    ProductLengths(s);
    var combinations := Product(Values(s.axes));
    candidates := [];
    for i := 0 to |combinations|
      invariant forall c :: c in combinations[..i] ==> |c| == |s.axes|
      invariant candidates == CandidatesOf(s, combinations[..i])
    {
      assert combinations[i] in combinations;
      assert combinations[..i + 1][..i] == combinations[..i];
      if !s.includeSeed && VariationOf(Names(s.axes), combinations[i]) == s.seed {
        continue;
      }
      candidates := candidates + [CandidateFor(s, combinations[i])];
    }
    assert combinations[..|combinations|] == combinations;
  }

  /** The combination of a candidate comes from the list, and the list's order is kept. */
  lemma {:induction false} CandidatesFollow(s: Spec, combinations: seq<seq<string>>)
    requires WellFormed(s) && (forall c :: c in combinations ==> |c| == |s.axes|)
    requires Ascending((a, b) => Before(Values(s.axes), a, b), combinations)
    ensures forall x :: x in CandidatesOf(s, combinations) <==>
      exists c :: c in combinations && !Skipped(s, c) && x == CandidateFor(s, c)
    ensures forall i, j :: 0 <= i < j < |CandidatesOf(s, combinations)| ==>
      InOrder(s, CandidatesOf(s, combinations)[i], CandidatesOf(s, combinations)[j])
  {
    hide InOrder, CandidateFor, Before, WellFormed, Skipped;
    if combinations != [] {
      var n := |combinations| - 1;
      var init, last := combinations[..n], combinations[n];
      assert combinations == init + [last] && last in combinations;
      assert forall c :: c in init ==> c in combinations;
      CandidatesFollow(s, init);
      var before, whole := CandidatesOf(s, init), CandidatesOf(s, combinations);
      assert forall x :: x in whole <==> x in before || (!Skipped(s, last) && x == CandidateFor(s, last));
      forall i, j | 0 <= i < j < |whole| ensures InOrder(s, whole[i], whole[j]) {
        if j == |before| {
          assert whole[i] == before[i] && before[i] in before;
          var c :| c in init && !Skipped(s, c) && before[i] == CandidateFor(s, c);
          var k :| 0 <= k < n && combinations[k] == c;
          assert Before(Values(s.axes), c, last);
          CandidatesInOrder(s, c, last);
        } else {
          assert whole[i] == before[i] && whole[j] == before[j];
        }
      }
    }
  }

  /** Candidates in the lexicographic order of their variations. */
  ghost predicate InOrder(s: Spec, x: Candidate, y: Candidate) {
    var names := Names(s.axes);
    && (forall name :: name in names ==> name in x.variation && name in y.variation)
    && Before(Values(s.axes), CombinationOf(names, x.variation), CombinationOf(names, y.variation))
  }

  lemma CandidatesInOrder(s: Spec, c: seq<string>, d: seq<string>)
    requires WellFormed(s) && |c| == |s.axes| == |d| && Before(Values(s.axes), c, d)
    ensures InOrder(s, CandidateFor(s, c), CandidateFor(s, d))
  {
    CandidateDetermined(s, c);
    CandidateDetermined(s, d);
  }

  lemma CandidateDetermined(s: Spec, c: seq<string>)
    requires WellFormed(s) && |c| == |s.axes|
    ensures var x := CandidateFor(s, c).variation;
      (forall name :: name in Names(s.axes) ==> name in x) && CombinationOf(Names(s.axes), x) == c
  {
    VariationDetermined(Names(s.axes), c);
  }

  /** An assignment of one allowed value to every axis. */
  ghost predicate IsVariation(s: Spec, v: Variation) {
    && v.Keys == Elements(Names(s.axes))
    && forall i :: 0 <= i < |s.axes| ==> s.axes[i].name in v && v[s.axes[i].name] in s.axes[i].values
  }

  lemma SeedCombination(s: Spec)
    requires WellFormed(s)
    ensures IsVariation(s, s.seed)
    ensures (forall name :: name in Names(s.axes) ==> name in s.seed)
    ensures forall c :: |c| == |s.axes| ==>
      (VariationOf(Names(s.axes), c) == s.seed <==> c == CombinationOf(Names(s.axes), s.seed))
  {
    var names := Names(s.axes);
    CombinationDetermines(names, s.seed);
    forall c: seq<string> | |c| == |s.axes|
      ensures VariationOf(names, c) == s.seed <==> c == CombinationOf(names, s.seed)
    {
      VariationDetermined(names, c);
    }
  }

  lemma {:induction false} CandidateCount(s: Spec, combinations: seq<seq<string>>, seed: seq<string>)
    requires WellFormed(s) && NoRepeats(combinations) && (forall c :: c in combinations ==> |c| == |s.axes|)
    requires forall c :: c in combinations ==> (VariationOf(Names(s.axes), c) == s.seed <==> c == seed)
    ensures |CandidatesOf(s, combinations)| ==
      |combinations| - (if !s.includeSeed && seed in combinations then 1 else 0)
  {
    hide VariationOf, CandidateFor, WellFormed;
    if combinations != [] {
      var n := |combinations| - 1;
      var init, last := combinations[..n], combinations[n];
      assert combinations == init + [last] && last !in init && last in combinations;
      assert forall c :: c in init ==> c in combinations;
      CandidateCount(s, init, seed);
    }
  }

  lemma DistinctCombinations(s: Spec)
    requires WellFormed(s)
    ensures NoRepeats(Product(Values(s.axes)))
  {
    var lists := Values(s.axes);
    ProductAscending(lists);
    var all := Product(lists);
    forall i, j | 0 <= i < j < |all| ensures all[i] != all[j] {
      BeforeIrreflexive(lists, all[i]);
    }
  }

  /** There are as many candidates as combinations, less the seed unless it is included. */
  lemma ExpansionCount(s: Spec)
    requires WellFormed(s)
    ensures |Expansion(s)| == Sizes(Values(s.axes)) - (if s.includeSeed then 0 else 1)
  {
    hide Product, CandidatesOf;
    var lists := Values(s.axes);
    SeedCombination(s);
    var seed := CombinationOf(Names(s.axes), s.seed);
    ProductMembers(lists);
    ProductLengths(s);
    DistinctCombinations(s);
    assert Picks(lists, seed);
    CandidateCount(s, Product(lists), seed);
  }

  /** Picking values and assigning them to axes are the same thing. */
  lemma VariationsArePicks(s: Spec, v: Variation)
    requires WellFormed(s)
    ensures IsVariation(s, v) <==>
      exists c :: Picks(Values(s.axes), c) && |c| == |s.axes| && VariationOf(Names(s.axes), c) == v
  {
    var names, lists := Names(s.axes), Values(s.axes);
    if IsVariation(s, v) {
      CombinationDetermines(names, v);
      assert Picks(lists, CombinationOf(names, v));
    }
    if c :| Picks(lists, c) && |c| == |s.axes| && VariationOf(names, c) == v {
      VariationEntries(names, c);
      forall i | 0 <= i < |s.axes| ensures s.axes[i].name in v && v[s.axes[i].name] in s.axes[i].values {
        assert names[i] == s.axes[i].name && lists[i] == s.axes[i].values;
      }
    }
  }

  /** The candidates are exactly all variations, the seed left out unless it is included. */
  lemma ExpansionCovers(s: Spec, v: Variation)
    requires WellFormed(s)
    ensures (exists x :: x in Expansion(s) && x.variation == v) <==> IsVariation(s, v) && (s.includeSeed || v != s.seed)
  {
    hide Product, CandidatesOf, WellFormed, Lineage, IsVariation, Picks, KeyOf;
    var lists := Values(s.axes);
    ProductLengths(s);
    ProductMembers(lists);
    ProductAscending(lists);
    CandidatesFollow(s, Product(lists));
    VariationsArePicks(s, v);
    if exists x :: x in Expansion(s) && x.variation == v {
      var x :| x in Expansion(s) && x.variation == v;
      var c :| c in Product(lists) && !Skipped(s, c) && x == CandidateFor(s, c);
    }
    if IsVariation(s, v) && (s.includeSeed || v != s.seed) {
      var c :| Picks(lists, c) && |c| == |s.axes| && VariationOf(Names(s.axes), c) == v;
      assert c in Product(lists) && !Skipped(s, c);
      assert CandidateFor(s, c) in Expansion(s);
    }
  }

  /** Every candidate can be derived from the seed, by steps on the differing axes only, and
      the candidates come in lexicographic order without a repeated variation. */
  lemma ExpansionDerives(s: Spec)
    requires WellFormed(s)
    ensures forall x :: x in Expansion(s) ==>
      && x.familyId == s.familyId && x.seedTaskId == s.seedTaskId
      && Replay(s.seed, x.lineage) == Some(x.variation)
      && (forall name :: name in Names(s.axes) ==> name in x.variation)
      && x.key == KeyOf(Names(s.axes), CombinationOf(Names(s.axes), x.variation))
    ensures forall x, step :: x in Expansion(s) && step in x.lineage ==>
      step.axis in x.variation && step.axis in s.seed && x.variation[step.axis] != s.seed[step.axis]
    ensures forall i, j :: 0 <= i < j < |Expansion(s)| ==>
      InOrder(s, Expansion(s)[i], Expansion(s)[j]) && Expansion(s)[i].variation != Expansion(s)[j].variation
  {
    hide Product, CandidatesOf, Replay, Lineage, KeyOf, Before;
    var lists, names, all := Values(s.axes), Names(s.axes), Expansion(s);
    ProductLengths(s);
    ProductAscending(lists);
    CandidatesFollow(s, Product(lists));
    forall x | x in all
      ensures x.familyId == s.familyId && x.seedTaskId == s.seedTaskId && Replay(s.seed, x.lineage) == Some(x.variation)
      ensures forall name :: name in names ==> name in x.variation
      ensures x.key == KeyOf(names, CombinationOf(names, x.variation))
      ensures forall step :: step in x.lineage ==>
        step.axis in x.variation && step.axis in s.seed && x.variation[step.axis] != s.seed[step.axis]
    {
      var c :| c in Product(lists) && !Skipped(s, c) && x == CandidateFor(s, c);
      VariationEntries(names, c);
      LineageRoundTrip(names, s.seed, x.variation);
      LineageSteps(names, s.seed, x.variation);
    }
    forall i, j | 0 <= i < j < |all| ensures all[i].variation != all[j].variation {
      assert InOrder(s, all[i], all[j]);
      BeforeIrreflexive(lists, CombinationOf(names, all[i].variation));
    }
  }
}
