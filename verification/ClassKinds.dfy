/** scripts/check_provenance_fields.py, lines 798-831: class kinds and content addressing
    spread along resolved base classes until a pass changes nothing. */
module ClassKinds {
  import opened Results
  import opened Graphs

  datatype Kind = TypedDict | Dataclass | Pydantic

  const CONTENT_ADDRESSED_BASE := "ContentAddressedModel"
  const MODEL_BASES := {"BaseModel", "FrozenStrictModel", "LenientModel", "StrictModel"}

  function Tail(name: string): string {
    if '.' in name then Tail(name[1..]) else name
  }

  /** What the table knows about a class before kinds are resolved. */
  datatype Declaration = Declaration(name: string, bases: seq<string>, decorators: seq<string>)
  {
    function BaseTails(): set<string> {
      set b | b in bases :: Tail(b)
    }

    function DirectKind(): Option<Kind> {
      if "TypedDict" in BaseTails() then Some(TypedDict)
      else if exists d :: d in decorators && Tail(d) == "dataclass" then Some(Dataclass)
      else if BaseTails() * (MODEL_BASES + {CONTENT_ADDRESSED_BASE}) != {} then Some(Pydantic)
      else None
    }

    /** The class is itself the marker base. */
    predicate IsMarker() {
      name == CONTENT_ADDRESSED_BASE
    }

    predicate DirectlyAddressed() {
      CONTENT_ADDRESSED_BASE in BaseTails() && !IsMarker()
    }
  }

  /** The text after the last dot of a name. */
  predicate LastPart(name: string, part: string) {
    '.' !in part && (name == part || (|name| > |part| && name[|name| - |part| - 1..] == "." + part))
  }

  lemma {:induction false} TailIsLastPart(name: string, part: string)
    ensures Tail(name) == part <==> LastPart(name, part)
  {
    if '.' in name {
      TailIsLastPart(name[1..], part);
      if |name| == |part| + 1 && name[0] == '.' {
        assert name == "." + name[1..];
      }
      if |name| > |part| + 1 {
        assert name[1..][|name[1..]| - |part| - 1..] == name[|name| - |part| - 1..];
      }
      if |name| == |part| + 1 && name == "." + part {
        assert name[1..] == part;
      }
    } else if |name| > |part| && name[|name| - |part| - 1..] == "." + part {
      DotBeforePart(name, part);
    }
  }

  lemma DotBeforePart(name: string, part: string)
    requires |name| > |part| && name[|name| - |part| - 1..] == "." + part
    ensures '.' in name
  {
    assert name[|name| - |part| - 1..][0] == name[|name| - |part| - 1];
  }

  ghost predicate HasBase(d: Declaration, part: string) {
    exists b :: b in d.bases && LastPart(b, part)
  }

  lemma BaseTailsIff(d: Declaration, part: string)
    ensures part in d.BaseTails() <==> HasBase(d, part)
  {
    forall b | b in d.bases ensures Tail(b) == part <==> LastPart(b, part) {
      TailIsLastPart(b, part);
    }
  }

  /** The direct kinds, in the order in which they are tried: a base named `TypedDict`, a
      decorator named `dataclass`, a base named as one of the model bases or the marker. */
  lemma DirectKindMeans(d: Declaration)
    ensures d.DirectKind() == Some(TypedDict) <==> HasBase(d, "TypedDict")
    ensures d.DirectKind() == Some(Dataclass) <==>
      !HasBase(d, "TypedDict") && exists x :: x in d.decorators && LastPart(x, "dataclass")
    ensures d.DirectKind() == Some(Pydantic) <==>
      && !HasBase(d, "TypedDict") && !(exists x :: x in d.decorators && LastPart(x, "dataclass"))
      && (HasBase(d, "BaseModel") || HasBase(d, "FrozenStrictModel") || HasBase(d, "LenientModel")
          || HasBase(d, "StrictModel") || HasBase(d, "ContentAddressedModel"))
    ensures d.DirectlyAddressed() <==> HasBase(d, "ContentAddressedModel") && d.name != "ContentAddressedModel"
  {
    hide Declaration.BaseTails, HasBase, LastPart, Tail;
    BaseTailsIff(d, "TypedDict");
    BaseTailsIff(d, "BaseModel");
    BaseTailsIff(d, "FrozenStrictModel");
    BaseTailsIff(d, "LenientModel");
    BaseTailsIff(d, "StrictModel");
    BaseTailsIff(d, "ContentAddressedModel");
    forall x | x in d.decorators ensures Tail(x) == "dataclass" <==> LastPart(x, "dataclass") {
      TailIsLastPart(x, "dataclass");
    }
    var models := MODEL_BASES + {CONTENT_ADDRESSED_BASE};
    assert forall t :: t in models <==>
      || t == "BaseModel" || t == "FrozenStrictModel" || t == "LenientModel" || t == "StrictModel"
      || t == "ContentAddressedModel";
    SomeInBoth(d.BaseTails(), models);
  }

  lemma SomeInBoth(a: set<string>, b: set<string>)
    ensures a * b != {} <==> exists t :: t in a && t in b
  {
    if a * b != {} {
      var t :| t in a * b;
      assert t in a && t in b;
    }
    if t :| t in a && t in b {
      assert t in a * b;
    }
  }

  type Declarations = map<string, Declaration>

  /** Edges to the bases that the table contains. */
  function BaseGraph(ds: Declarations): Graph {
    map k | k in ds :: set b | b in ds[k].bases && b in ds
  }

  // ------------------------------------------------------------------ what is to be computed

  /** Some class on the resolved ancestor chain, the class itself included, has kind x. */
  ghost predicate HasAncestorOfKind(ds: Declarations, k: string, x: Kind) {
    exists a :: a in ds && Reach(BaseGraph(ds), k, a) && ds[a].DirectKind() == Some(x)
  }

  /** The two rules: directly addressed, or below an addressed class or the marker itself. */
  ghost predicate ClosedUnderRules(ds: Declarations, s: set<string>) {
    forall k :: k in ds && !ds[k].IsMarker() && (ds[k].DirectlyAddressed() || BelowAddressed(ds, s, k)) ==> k in s
  }

  ghost predicate BelowAddressed(ds: Declarations, s: set<string>, k: string)
    requires k in ds
  {
    exists p :: p in Successors(BaseGraph(ds), k) && (p in s || ds[p].IsMarker())
  }

  /** Membership in the least set closed under the rules. */
  ghost predicate Addressed(ds: Declarations, k: string) {
    forall s :: ClosedUnderRules(ds, s) ==> k in s
  }

  /** No marker class extends an addressed class or a marker. */
  ghost predicate MarkersAreRoots(ds: Declarations) {
    forall k, p :: k in ds && ds[k].IsMarker() && p in Successors(BaseGraph(ds), k)
      ==> !ds[p].IsMarker() && !Addressed(ds, p)
  }

  // ---------------------------------------------------------------------------- the states

  datatype State = State(kinds: map<string, Option<Kind>>, addressed: set<string>)

  ghost predicate Consistent(ds: Declarations, st: State) {
    && st.kinds.Keys == ds.Keys && st.addressed <= ds.Keys
    && (forall k :: k in ds && ds[k].DirectKind().Some? ==> st.kinds[k] == ds[k].DirectKind())
    && (forall k :: k in ds && st.kinds[k].Some? ==> HasAncestorOfKind(ds, k, st.kinds[k].value))
    && (forall k :: k in ds && ds[k].DirectlyAddressed() ==> k in st.addressed)
    && (forall k :: k in st.addressed ==> Addressed(ds, k) && !ds[k].IsMarker())
  }

  /** The two updates that one base of one class can cause. */
  predicate TakesKind(st: State, k: string, p: string)
    requires k in st.kinds && p in st.kinds
  {
    st.kinds[k].None? && st.kinds[p].Some?
  }

  predicate TakesAddress(ds: Declarations, st: State, k: string, p: string)
    requires p in ds
  {
    k !in st.addressed && (p in st.addressed || ds[p].IsMarker())
  }

  /** The body of the inner loop; the flag is its contribution to `changed`. */
  function StepState(ds: Declarations, st: State, k: string, base: string): (State, bool)
    requires k in ds && st.kinds.Keys == ds.Keys
  {
    if base !in ds then (st, false)
    else
      var kinds := if TakesKind(st, k, base) then st.kinds[k := st.kinds[base]] else st.kinds;
      var addressed := if TakesAddress(ds, st, k, base) && !ds[k].IsMarker() then st.addressed + {k} else st.addressed;
      (State(kinds, addressed), TakesKind(st, k, base) || TakesAddress(ds, st, k, base))
  }

  /** A state in which a whole pass reports no change. */
  ghost predicate Quiet(ds: Declarations, st: State)
    requires st.kinds.Keys == ds.Keys
  {
    forall k, p :: k in ds && p in Successors(BaseGraph(ds), k) ==> !TakesKind(st, k, p) && !TakesAddress(ds, st, k, p)
  }

  lemma StepKeepsKinds(ds: Declarations, st: State, k: string, p: string)
    requires Consistent(ds, st) && k in ds && p in Successors(BaseGraph(ds), k) && TakesKind(st, k, p)
    ensures HasAncestorOfKind(ds, k, st.kinds[p].value)
  {
    var g := BaseGraph(ds);
    var x := st.kinds[p].value;
    assert HasAncestorOfKind(ds, p, x);
    var a :| a in ds && Reach(g, p, a) && ds[a].DirectKind() == Some(x);
    ReachEdge(g, k, p);
    ReachTransitive(g, k, p, a);
  }

  lemma RulesApply(ds: Declarations, k: string, p: string)
    requires k in ds && !ds[k].IsMarker() && p in Successors(BaseGraph(ds), k)
    requires ds[p].IsMarker() || Addressed(ds, p)
    ensures Addressed(ds, k)
  {
    forall s | ClosedUnderRules(ds, s) ensures k in s {
      assert BelowAddressed(ds, s, k) by {
        assert p in s || ds[p].IsMarker();
      }
    }
  }

  lemma StepKeepsConsistent(ds: Declarations, st: State, k: string, base: string)
    requires Consistent(ds, st) && k in ds && base in ds[k].bases
    ensures Consistent(ds, StepState(ds, st, k, base).0)
  {
    hide HasAncestorOfKind, Addressed, Reach;
    if base in ds {
      assert base in Successors(BaseGraph(ds), k);
      if TakesKind(st, k, base) {
        StepKeepsKinds(ds, st, k, base);
      }
      if TakesAddress(ds, st, k, base) && !ds[k].IsMarker() {
        RulesApply(ds, k, base);
      }
    }
  }

  function Kindless(st: State): set<string> {
    set k | k in st.kinds && st.kinds[k].None?
  }

  /** How many updates are still possible. */
  function Remaining(ds: Declarations, st: State): nat {
    |Kindless(st)| + |ds.Keys - st.addressed|
  }

  lemma StepMakesProgress(ds: Declarations, st: State, k: string, base: string)
    requires Consistent(ds, st) && MarkersAreRoots(ds) && k in ds && base in ds[k].bases
    ensures !StepState(ds, st, k, base).1 ==> StepState(ds, st, k, base).0 == st
    ensures StepState(ds, st, k, base).1 ==> Remaining(ds, StepState(ds, st, k, base).0) < Remaining(ds, st)
  {
    assert st.kinds.Keys == ds.Keys;
    hide HasAncestorOfKind, Addressed, Reach, Consistent;
    if base in ds {
      var t := StepState(ds, st, k, base).0;
      assert base in Successors(BaseGraph(ds), k);
      KindlessShrinks(st, t, k);
      UnaddressedShrinks(ds, st, t, k);
      if TakesAddress(ds, st, k, base) {
        NoMarkerTakesAddress(ds, st, k, base);
      }
    }
  }

  lemma NoMarkerTakesAddress(ds: Declarations, st: State, k: string, p: string)
    requires Consistent(ds, st) && MarkersAreRoots(ds) && k in ds && p in Successors(BaseGraph(ds), k)
    requires TakesAddress(ds, st, k, p)
    ensures !ds[k].IsMarker()
  {
  }

  lemma KindlessShrinks(st: State, t: State, k: string)
    requires k in st.kinds && t.kinds.Keys == st.kinds.Keys
    requires t.kinds == st.kinds || (st.kinds[k].None? && t.kinds[k].Some? && t.kinds == st.kinds[k := t.kinds[k]])
    ensures |Kindless(t)| <= |Kindless(st)|
    ensures t.kinds != st.kinds ==> |Kindless(t)| < |Kindless(st)|
  {
    if t.kinds != st.kinds {
      assert Kindless(t) == Kindless(st) - {k};
    }
  }

  lemma UnaddressedShrinks(ds: Declarations, st: State, t: State, k: string)
    requires k in ds && (t.addressed == st.addressed || t.addressed == st.addressed + {k})
    ensures |ds.Keys - t.addressed| <= |ds.Keys - st.addressed|
    ensures t.addressed != st.addressed ==> |ds.Keys - t.addressed| < |ds.Keys - st.addressed|
  {
    if t.addressed != st.addressed {
      assert ds.Keys - t.addressed == (ds.Keys - st.addressed) - {k};
    }
  }

  /** Both attributes are exactly what the ancestor chain and the two rules determine. */
  ghost predicate Resolved(ds: Declarations, st: State) {
    && Consistent(ds, st)
    && (forall k, x :: k in ds && HasAncestorOfKind(ds, k, x) ==> st.kinds[k].Some?)
    && (forall k :: k in ds ==> (k in st.addressed <==> Addressed(ds, k)))
  }

  lemma QuietKindsComplete(ds: Declarations, st: State, k: string, x: Kind)
    requires Consistent(ds, st) && Quiet(ds, st) && k in ds && HasAncestorOfKind(ds, k, x)
    ensures st.kinds[k].Some?
  {
    hide Reach;
    var g := BaseGraph(ds);
    var a :| a in ds && Reach(g, k, a) && ds[a].DirectKind() == Some(x);
    if st.kinds[k].None? {
      var c, p := ExitEdge(g, k, a, Kindless(st));
      assert false;
    }
  }

  lemma QuietAddressedClosed(ds: Declarations, st: State)
    requires Consistent(ds, st) && Quiet(ds, st)
    ensures ClosedUnderRules(ds, st.addressed)
  {
    hide Addressed, HasAncestorOfKind, Reach;
    forall k | k in ds && !ds[k].IsMarker() && BelowAddressed(ds, st.addressed, k) ensures k in st.addressed {
      var p :| p in Successors(BaseGraph(ds), k) && (p in st.addressed || ds[p].IsMarker());
      assert !TakesAddress(ds, st, k, p);
    }
  }

  lemma QuietIsResolved(ds: Declarations, st: State)
    requires Consistent(ds, st) && Quiet(ds, st)
    ensures Resolved(ds, st)
  {
    hide HasAncestorOfKind;
    forall k, x | k in ds && HasAncestorOfKind(ds, k, x) ensures st.kinds[k].Some? {
      QuietKindsComplete(ds, st, k, x);
    }
    QuietAddressedClosed(ds, st);
  }

  /** The loop can stop only when no marker class extends an addressed class or a marker;
      otherwise every pass sets `changed` again. */
  lemma QuietOnlyIfMarkersAreRoots(ds: Declarations, st: State)
    requires Consistent(ds, st) && Quiet(ds, st)
    ensures MarkersAreRoots(ds)
  {
    QuietAddressedClosed(ds, st);
    forall k, p | k in ds && ds[k].IsMarker() && p in Successors(BaseGraph(ds), k)
      ensures !ds[p].IsMarker() && !Addressed(ds, p)
    {
      assert !TakesAddress(ds, st, k, p);
      assert p !in st.addressed;
    }
  }

  /** Two classes named after the marker, one below the other. */
  const MARKER_BELOW_MARKER: Declarations :=
    map["m.ContentAddressedModel" := Declaration(CONTENT_ADDRESSED_BASE, ["n.ContentAddressedModel"], []),
        "n.ContentAddressedModel" := Declaration(CONTENT_ADDRESSED_BASE, [], [])]

  lemma MarkerIsNoRoot()
    ensures !MarkersAreRoots(MARKER_BELOW_MARKER)
  {
    hide Addressed;
    var ds, k, p := MARKER_BELOW_MARKER, "m.ContentAddressedModel", "n.ContentAddressedModel";
    assert k in ds && ds[k].bases[0] == p && p in ds[k].bases && p in ds;
    assert p in Successors(BaseGraph(ds), k) && ds[k].IsMarker() && ds[p].IsMarker();
  }

  /** No state that the loop can reach on this table is quiet: the loop never ends. */
  lemma MarkerBelowMarkerNeverSettles(st: State)
    requires st.kinds.Keys == MARKER_BELOW_MARKER.Keys && Consistent(MARKER_BELOW_MARKER, st)
    ensures !Quiet(MARKER_BELOW_MARKER, st)
  {
    hide Consistent, Quiet, MarkersAreRoots;
    MarkerIsNoRoot();
    if Quiet(MARKER_BELOW_MARKER, st) {
      QuietOnlyIfMarkersAreRoots(MARKER_BELOW_MARKER, st);
    }
  }

  // ------------------------------------------------------------- the condition on the table

  /** Content addressing starts here: directly, or from a marker among the bases. */
  predicate Grounded(ds: Declarations, k: string) {
    && k in ds && !ds[k].IsMarker()
    && (ds[k].DirectlyAddressed() || exists b :: b in ds[k].bases && b in ds && ds[b].IsMarker())
  }

  /** Edges between classes that are no markers. */
  function OpenGraph(ds: Declarations): Graph {
    map k | k in ds && !ds[k].IsMarker() :: set b | b in ds[k].bases && b in ds && !ds[b].IsMarker()
  }

  /** A path of classes that are no markers leads to a class where addressing starts. */
  ghost predicate LeadsToGround(ds: Declarations, k: string) {
    k in ds && !ds[k].IsMarker() && exists a :: Grounded(ds, a) && Reach(OpenGraph(ds), k, a)
  }

  lemma GroundRises(ds: Declarations, s: set<string>, k: string, a: string)
    requires ClosedUnderRules(ds, s) && k in ds && !ds[k].IsMarker()
    requires Grounded(ds, a) && Reach(OpenGraph(ds), k, a)
    ensures k in s
  {
    hide Reach;
    var g := OpenGraph(ds);
    assert a in s by {
      if !ds[a].DirectlyAddressed() {
        var b :| b in ds[a].bases && b in ds && ds[b].IsMarker();
        assert b in Successors(BaseGraph(ds), a);
      }
    }
    if k !in s {
      var c, p := ExitEdge(g, k, a, g.Keys - s);
      assert false;
    }
  }

  lemma LeadingIsClosed(ds: Declarations)
    ensures ClosedUnderRules(ds, set k | k in ds && LeadsToGround(ds, k))
  {
    hide Reach, Declaration.DirectlyAddressed;
    var g := OpenGraph(ds);
    var s := set k | k in ds && LeadsToGround(ds, k);
    forall k | k in ds && !ds[k].IsMarker() && (ds[k].DirectlyAddressed() || BelowAddressed(ds, s, k)) ensures k in s {
      if Grounded(ds, k) {
        ReachSelf(g, k);
      } else {
        var p :| p in Successors(BaseGraph(ds), k) && (p in s || ds[p].IsMarker());
        var a :| Grounded(ds, a) && Reach(g, p, a);
        ReachEdge(g, k, p);
        ReachTransitive(g, k, p, a);
      }
    }
  }

  /** Which classes the rules address can be read off the table. */
  lemma AddressedIffLeadsToGround(ds: Declarations, k: string)
    ensures Addressed(ds, k) <==> LeadsToGround(ds, k)
  {
    if Addressed(ds, k) {
      LeadingIsClosed(ds);
    }
    if LeadsToGround(ds, k) {
      var a :| Grounded(ds, a) && Reach(OpenGraph(ds), k, a);
      forall s | ClosedUnderRules(ds, s) ensures k in s {
        GroundRises(ds, s, k, a);
      }
    }
  }

  /** So can the condition under which the loop stops. */
  lemma MarkersAreRootsIff(ds: Declarations)
    ensures MarkersAreRoots(ds) <==>
      forall k, b :: k in ds && ds[k].IsMarker() && b in ds[k].bases && b in ds ==>
        !ds[b].IsMarker() && !LeadsToGround(ds, b)
  {
    hide Addressed, LeadsToGround, Declaration.IsMarker;
    forall k, b | k in ds && b in ds[k].bases && b in ds
      ensures b in Successors(BaseGraph(ds), k) && (Addressed(ds, b) <==> LeadsToGround(ds, b))
    {
      AddressedIffLeadsToGround(ds, b);
    }
  }

  // -------------------------------------------------------------------- which kind is inherited

  /** Class k has the kind of its base i, and no resolved base before that one has a kind of
      its own. */
  ghost predicate InheritsAt(ds: Declarations, st: State, k: string, i: nat)
    requires k in ds && st.kinds.Keys == ds.Keys
  {
    && i < |ds[k].bases| && ds[k].bases[i] in ds
    && st.kinds[ds[k].bases[i]] == st.kinds[k]
    && forall j :: 0 <= j < i && ds[k].bases[j] in ds ==> ds[ds[k].bases[j]].DirectKind().None?
  }

  /** Every kind is a class's own or comes from the first base that had one. */
  ghost predicate FromBases(ds: Declarations, st: State)
    requires st.kinds.Keys == ds.Keys
  {
    forall k :: k in ds ==>
      if ds[k].DirectKind().Some? then st.kinds[k] == ds[k].DirectKind()
      else st.kinds[k].Some? ==> exists i: nat :: InheritsAt(ds, st, k, i)
  }

  /** None of the first n bases of class k has a kind. */
  ghost predicate KindlessBefore(ds: Declarations, st: State, k: string, n: nat)
    requires k in ds && st.kinds.Keys == ds.Keys && n <= |ds[k].bases|
  {
    forall j :: 0 <= j < n && ds[k].bases[j] in ds ==> st.kinds[ds[k].bases[j]].None?
  }

  /** One base after the other: the class keeps the first kind it meets. */
  lemma StepKeepsFromBases(ds: Declarations, st: State, k: string, n: nat)
    requires k in ds && st.kinds.Keys == ds.Keys && n < |ds[k].bases| && FromBases(ds, st)
    requires st.kinds[k].None? ==> KindlessBefore(ds, st, k, n)
    ensures var next := StepState(ds, st, k, ds[k].bases[n]).0;
      FromBases(ds, next) && (next.kinds[k].None? ==> KindlessBefore(ds, next, k, n + 1))
  {
    hide Declaration.DirectKind;
    var base := ds[k].bases[n];
    var next := StepState(ds, st, k, base).0;
    forall c | c in ds
      ensures if ds[c].DirectKind().Some? then next.kinds[c] == ds[c].DirectKind()
              else next.kinds[c].Some? ==> exists i: nat :: InheritsAt(ds, next, c, i)
    {
      if ds[c].DirectKind().None? && next.kinds[c].Some? {
        if c == k && st.kinds[k].None? {
          forall j | 0 <= j < n && ds[k].bases[j] in ds ensures ds[ds[k].bases[j]].DirectKind().None? {
            assert st.kinds[ds[k].bases[j]].None?;
          }
          assert InheritsAt(ds, next, k, n);
        } else {
          var i: nat :| InheritsAt(ds, st, c, i);
          assert InheritsAt(ds, next, c, i);
        }
      }
    }
  }

  lemma InitialisedFromBases(ds: Declarations, st: State)
    requires Initialised(ds, st)
    ensures FromBases(ds, st)
  {
    hide Declaration.DirectKind, Declaration.DirectlyAddressed;
  }

  /** A class without a kind of its own whose first resolved base has one ends with that one. */
  lemma FirstBaseDecides(ds: Declarations, st: State, k: string, n: nat)
    requires Resolved(ds, st) && FromBases(ds, st)
    requires k in ds && ds[k].DirectKind().None? && n < |ds[k].bases|
    requires ds[k].bases[n] in ds && forall j :: 0 <= j < n ==> ds[k].bases[j] !in ds
    requires ds[ds[k].bases[n]].DirectKind().Some?
    ensures st.kinds[k] == ds[ds[k].bases[n]].DirectKind()
  {
    hide Declaration.DirectKind, Addressed, Reach;
    var g, base := BaseGraph(ds), ds[k].bases[n];
    assert base in Successors(g, k);
    ReachEdge(g, k, base);
    assert HasAncestorOfKind(ds, k, ds[base].DirectKind().value);
    var i: nat :| InheritsAt(ds, st, k, i);
    assert i == n;
  }

  // ------------------------------------------------------------------------- the class table

  class ClassInfo {
    const declaration: Declaration
    var kind: Option<Kind>
    var contentAddressed: bool

    constructor (declaration: Declaration)
      ensures this.declaration == declaration && kind == None && !contentAddressed
    {
      this.declaration := declaration;
      kind, contentAddressed := None, false;
    }
  }

  function DeclarationsOf(classes: map<string, ClassInfo>): (ds: Declarations)
    ensures ds.Keys == classes.Keys
  {
    map k | k in classes :: classes[k].declaration
  }

  ghost function StateOf(classes: map<string, ClassInfo>): (st: State)
    reads classes.Values
    ensures st.kinds.Keys == classes.Keys
  {
    State(map k | k in classes :: classes[k].kind, set k | k in classes && classes[k].contentAddressed)
  }

  ghost predicate Separate(classes: map<string, ClassInfo>) {
    forall j, k :: j in classes && k in classes && j != k ==> classes[j] != classes[k]
  }

  /** `item.kind` from one parent (lines 824-826). */
  method TakeKind(classes: map<string, ClassInfo>, k: string, base: string) returns (changed: bool)
    requires Separate(classes) && k in classes && base in classes
    modifies classes[k]
    ensures changed == TakesKind(old(StateOf(classes)), k, base)
    ensures StateOf(classes).addressed == old(StateOf(classes)).addressed
    ensures StateOf(classes).kinds ==
      if changed then old(StateOf(classes)).kinds[k := old(StateOf(classes)).kinds[base]]
      else old(StateOf(classes)).kinds
  {
    changed := false;
    if classes[k].kind == None && classes[base].kind != None {
      classes[k].kind := classes[base].kind;
      changed := true;
    }
  }

  /** `item.content_addressed` from one parent (lines 827-831). */
  method TakeAddress(classes: map<string, ClassInfo>, k: string, base: string) returns (changed: bool)
    requires Separate(classes) && k in classes && base in classes
    modifies classes[k]
    ensures changed == TakesAddress(DeclarationsOf(classes), old(StateOf(classes)), k, base)
    ensures StateOf(classes).kinds == old(StateOf(classes)).kinds
    ensures StateOf(classes).addressed ==
      if changed && !DeclarationsOf(classes)[k].IsMarker() then old(StateOf(classes)).addressed + {k}
      else old(StateOf(classes)).addressed
  {
    hide Declaration.IsMarker;
    changed := false;
    var item, parent := classes[k], classes[base];
    if !item.contentAddressed && (parent.contentAddressed || parent.declaration.IsMarker()) {
      item.contentAddressed := !item.declaration.IsMarker();
      changed := true;
    }
  }

  method ApplyBase(classes: map<string, ClassInfo>, k: string, base: string) returns (changed: bool)
    requires Separate(classes) && k in classes
    modifies classes[k]
    ensures (StateOf(classes), changed) == StepState(DeclarationsOf(classes), old(StateOf(classes)), k, base)
  {
    changed := false;
    if base in classes {
      hide Declaration.IsMarker;
      var tookKind := TakeKind(classes, k, base);
      var tookAddress := TakeAddress(classes, k, base);
      changed := tookKind || tookAddress;
    }
  }

  /** The state after the first loop has assigned every class its direct attributes. */
  ghost predicate Initialised(ds: Declarations, st: State) {
    && st.kinds.Keys == ds.Keys && st.addressed <= ds.Keys
    && forall k :: k in ds ==>
         st.kinds[k] == ds[k].DirectKind() && (k in st.addressed <==> ds[k].DirectlyAddressed())
  }

  lemma InitialisedIsConsistent(ds: Declarations, st: State)
    requires Initialised(ds, st)
    ensures Consistent(ds, st)
  {
    forall k | k in ds && st.kinds[k].Some? ensures HasAncestorOfKind(ds, k, st.kinds[k].value) {
      ReachSelf(BaseGraph(ds), k);
    }
    forall k | k in st.addressed ensures Addressed(ds, k) {
      forall s | ClosedUnderRules(ds, s) ensures k in s {
      }
    }
  }

  method AssignDirect(classes: map<string, ClassInfo>)
    requires Separate(classes)
    requires forall k :: k in classes ==> classes[k].kind == None
    modifies classes.Values
    ensures Initialised(DeclarationsOf(classes), StateOf(classes))
  {
    hide Declaration.DirectKind, Declaration.DirectlyAddressed;
    var todo := classes.Keys;
    while todo != {}
      invariant todo <= classes.Keys
      invariant forall k :: k in todo ==> classes[k].kind == None
      invariant forall k :: k in classes.Keys - todo ==>
        && classes[k].kind == classes[k].declaration.DirectKind()
        && classes[k].contentAddressed == classes[k].declaration.DirectlyAddressed()
      decreases todo
    {
      var k :| k in todo;
      var item := classes[k];
      assert forall j :: j in classes && j != k ==> classes[j] != item;
      var direct := item.declaration.DirectKind();
      if direct.Some? {
        item.kind := direct;
      }
      item.contentAddressed := item.declaration.DirectlyAddressed();
      todo := todo - {k};
    }
  }

  /** The bases of one class in order; the flag collects their contributions. */
  method ApplyBases(classes: map<string, ClassInfo>, k: string) returns (changed: bool)
    requires Separate(classes) && k in classes && MarkersAreRoots(DeclarationsOf(classes))
    requires Consistent(DeclarationsOf(classes), StateOf(classes))
    requires FromBases(DeclarationsOf(classes), StateOf(classes))
    modifies classes.Values
    ensures Consistent(DeclarationsOf(classes), StateOf(classes))
    ensures FromBases(DeclarationsOf(classes), StateOf(classes))
    ensures if changed then
              Remaining(DeclarationsOf(classes), StateOf(classes))
                < Remaining(DeclarationsOf(classes), old(StateOf(classes)))
            else StateOf(classes) == old(StateOf(classes)) && QuietClass(DeclarationsOf(classes), StateOf(classes), k)
  {
    hide Consistent, MarkersAreRoots, Remaining, Separate, StateOf, FromBases;
    ghost var ds := DeclarationsOf(classes);
    ghost var start := StateOf(classes);
    var bases := classes[k].declaration.bases;
    changed := false;
    var i := 0;
    while i < |bases|
      invariant 0 <= i <= |bases| && Consistent(ds, StateOf(classes)) && FromBases(ds, StateOf(classes))
      invariant StateOf(classes).kinds[k].None? ==> KindlessBefore(ds, StateOf(classes), k, i)
      invariant if changed then Remaining(ds, StateOf(classes)) < Remaining(ds, start) else StateOf(classes) == start
      invariant !changed ==> forall j :: 0 <= j < i ==> !StepState(ds, start, k, bases[j]).1
    {
      ghost var before := StateOf(classes);
      StepKeepsConsistent(ds, before, k, bases[i]);
      StepMakesProgress(ds, before, k, bases[i]);
      StepKeepsFromBases(ds, before, k, i);
      var moved := ApplyBase(classes, k, bases[i]);
      changed := changed || moved;
      i := i + 1;
    }
    if !changed {
      QuietBases(ds, start, k);
    }
  }

  ghost predicate QuietClass(ds: Declarations, st: State, k: string)
    requires st.kinds.Keys == ds.Keys && k in ds
  {
    forall p :: p in Successors(BaseGraph(ds), k) ==> !TakesKind(st, k, p) && !TakesAddress(ds, st, k, p)
  }

  lemma QuietBases(ds: Declarations, st: State, k: string)
    requires st.kinds.Keys == ds.Keys && k in ds
    requires forall j :: 0 <= j < |ds[k].bases| ==> !StepState(ds, st, k, ds[k].bases[j]).1
    ensures QuietClass(ds, st, k)
  {
    forall p | p in Successors(BaseGraph(ds), k) ensures !TakesKind(st, k, p) && !TakesAddress(ds, st, k, p) {
      assert p in ds[k].bases && p in ds;
      var j :| 0 <= j < |ds[k].bases| && ds[k].bases[j] == p;
      assert !StepState(ds, st, k, ds[k].bases[j]).1;
    }
  }

  /** Terminates for every table, cyclic ones included, whose markers are roots. */
  method ResolveClassKinds(classes: map<string, ClassInfo>)
    requires Separate(classes) && MarkersAreRoots(DeclarationsOf(classes))
    requires forall k :: k in classes ==> classes[k].kind == None
    modifies classes.Values
    ensures Resolved(DeclarationsOf(classes), StateOf(classes))
    ensures FromBases(DeclarationsOf(classes), StateOf(classes))
  {
    hide Consistent, MarkersAreRoots, Remaining, Initialised, Resolved, StateOf, Quiet, QuietClass, FromBases;
    ghost var ds := DeclarationsOf(classes);
    AssignDirect(classes);
    InitialisedIsConsistent(ds, StateOf(classes));
    InitialisedFromBases(ds, StateOf(classes));
    var changed := true;
    while changed
      invariant Consistent(ds, StateOf(classes)) && FromBases(ds, StateOf(classes))
      invariant !changed ==> forall k :: k in ds ==> QuietClass(ds, StateOf(classes), k)
      decreases Remaining(ds, StateOf(classes)), changed
    {
      changed := false;
      ghost var start := StateOf(classes);
      var todo := classes.Keys;
      while todo != {}
        invariant todo <= classes.Keys && Consistent(ds, StateOf(classes)) && FromBases(ds, StateOf(classes))
        invariant if changed then Remaining(ds, StateOf(classes)) < Remaining(ds, start) else StateOf(classes) == start
        invariant !changed ==> forall k :: k in classes.Keys - todo ==> QuietClass(ds, start, k)
        decreases todo
      {
        var k :| k in todo;
        var moved := ApplyBases(classes, k);
        changed := changed || moved;
        todo := todo - {k};
      }
    }
    AllQuiet(ds, StateOf(classes));
    QuietIsResolved(ds, StateOf(classes));
  }

  lemma AllQuiet(ds: Declarations, st: State)
    requires st.kinds.Keys == ds.Keys && forall k :: k in ds ==> QuietClass(ds, st, k)
    ensures Quiet(ds, st)
  {
  }
}
