/** scripts/check_provenance_fields.py, lines 539-556, on projects in which an import shadows
    a project constant: when the loop still stops, and what keeps it from stopping. */
module ShadowedConstants {
  import opened Results
  import opened Ordering
  import opened Graphs
  import opened LiteralStrings
  import opened ProjectConstants

  // ------------------------------------------------------------------- names in expressions

  function Mentions(node: Node): set<string>
    decreases node, 1, 0
  {
    match node
    case Name(id) => {id}
    case Add(l, r) => Mentions(l) + Mentions(r)
    case Joined(_) => PieceMentions(node, 0)
    case _ => {}
  }

  function PieceMentions(joined: Node, i: nat): set<string>
    requires joined.Joined? && i <= |joined.pieces|
    decreases joined, 0, |joined.pieces| - i
  {
    if i == |joined.pieces| then {}
    else
      (match joined.pieces[i]
       case Formatted(n) => Mentions(n)
       case _ => {}) + PieceMentions(joined, i + 1)
  }

  /** The expression has a value as soon as the given names have one. */
  predicate Evaluable(node: Node, ids: set<string>)
    decreases node, 1, 0
  {
    match node
    case Str(_) => true
    case Int(_) => true
    case Name(id) => id in ids
    case Add(l, r) => Evaluable(l, ids) && Evaluable(r, ids)
    case Joined(_) => PiecesEvaluable(node, 0, ids)
    case Other => false
  }

  predicate PiecesEvaluable(joined: Node, i: nat, ids: set<string>)
    requires joined.Joined? && i <= |joined.pieces|
    decreases joined, 0, |joined.pieces| - i
  {
    i == |joined.pieces| ||
    ((match joined.pieces[i]
      case Text(_) => true
      case Formatted(n) => Evaluable(n, ids)
      case Unsupported => false) && PiecesEvaluable(joined, i + 1, ids))
  }

  lemma {:induction false} EvaluableIfValue(node: Node, names: Valuation, ids: set<string>)
    requires Eval(node, names).Some? && names.Keys <= ids
    ensures Evaluable(node, ids)
    decreases node, 1, 0
  {
    match node
    case Add(l, r) =>
      EvaluableIfValue(l, names, ids);
      EvaluableIfValue(r, names, ids);
    case Joined(_) => PiecesEvaluableIfValue(node, 0, names, ids);
    case _ =>
  }

  lemma {:induction false} PiecesEvaluableIfValue(joined: Node, i: nat, names: Valuation, ids: set<string>)
    requires joined.Joined? && i <= |joined.pieces|
    requires EvalPieces(joined, i, names).Some? && names.Keys <= ids
    ensures PiecesEvaluable(joined, i, ids)
    decreases joined, 0, |joined.pieces| - i
  {
    if i < |joined.pieces| {
      match joined.pieces[i] {
        case Formatted(n) => EvaluableIfValue(n, names, ids);
        case _ =>
      }
      PiecesEvaluableIfValue(joined, i + 1, names, ids);
    }
  }

  /** Both valuations say the same about the given names. */
  ghost predicate AgreeOn(a: Valuation, b: Valuation, ids: set<string>) {
    forall id :: id in ids ==> (id in a <==> id in b) && (id in a ==> a[id] == b[id])
  }

  /** An expression depends only on the names it mentions. */
  lemma {:induction false} EvalLocal(node: Node, a: Valuation, b: Valuation, ids: set<string>)
    requires Mentions(node) <= ids && AgreeOn(a, b, ids)
    ensures Eval(node, a) == Eval(node, b)
    decreases node, 1, 0
  {
    match node
    case Add(l, r) =>
      EvalLocal(l, a, b, ids);
      EvalLocal(r, a, b, ids);
    case Joined(_) => EvalPiecesLocal(node, 0, a, b, ids);
    case _ =>
  }

  lemma {:induction false} EvalPiecesLocal(joined: Node, i: nat, a: Valuation, b: Valuation, ids: set<string>)
    requires joined.Joined? && i <= |joined.pieces|
    requires PieceMentions(joined, i) <= ids && AgreeOn(a, b, ids)
    ensures EvalPieces(joined, i, a) == EvalPieces(joined, i, b)
    decreases joined, 0, |joined.pieces| - i
  {
    if i < |joined.pieces| {
      match joined.pieces[i] {
        case Formatted(n) => EvalLocal(n, a, b, ids);
        case _ =>
      }
      EvalPiecesLocal(joined, i + 1, a, b, ids);
    }
  }

  // -------------------------------------------------------------------- tables, in part

  /** No name outside `free` can get a value in the table. */
  ghost predicate Fenced(c: Context, free: set<string>) {
    forall id :: id in c && Evaluable(c[id], free) ==> id in free
  }

  lemma {:induction false} FencedMeaning(c: Context, free: set<string>, k: nat)
    requires Fenced(c, free)
    ensures Known(c, k).Keys <= free
  {
    if k > 0 {
      FencedMeaning(c, free, k - 1);
      forall id | id in Known(c, k) ensures id in free {
        EvaluableIfValue(c[id], Known(c, k - 1), free);
      }
    }
  }

  /** Two tables with the same entries for the names in `ids`, where an entry mentions only
      names in `ids` or has no value at all. */
  ghost predicate SameEntries(c: Context, d: Context, ids: set<string>, free: set<string>) {
    forall id :: id in ids ==>
      && (id in c <==> id in d)
      && (id in c ==> c[id] == d[id] && (Mentions(c[id]) <= ids || !Evaluable(c[id], free)))
  }

  lemma {:induction false} KnownAgree(c: Context, d: Context, ids: set<string>, free: set<string>, k: nat)
    requires Fenced(c, free) && Fenced(d, free) && SameEntries(c, d, ids, free)
    ensures AgreeOn(Known(c, k), Known(d, k), ids)
  {
    if k > 0 {
      hide Mentions, Evaluable, Eval, Fenced;
      KnownAgree(c, d, ids, free, k - 1);
      var a, b := Known(c, k - 1), Known(d, k - 1);
      forall id | id in ids
        ensures (id in Known(c, k) <==> id in Known(d, k)) && (id in Known(c, k) ==> Known(c, k)[id] == Known(d, k)[id])
      {
        if id in c {
          EntryAgrees(c, d, ids, free, k - 1, id);
        }
      }
    }
  }

  lemma EntryAgrees(c: Context, d: Context, ids: set<string>, free: set<string>, k: nat, id: string)
    requires Fenced(c, free) && Fenced(d, free) && SameEntries(c, d, ids, free) && id in ids && id in c
    requires AgreeOn(Known(c, k), Known(d, k), ids)
    ensures Eval(c[id], Known(c, k)) == Eval(d[id], Known(d, k))
  {
    hide Mentions, Evaluable, Eval, Fenced, Known, AgreeOn;
    if Mentions(c[id]) <= ids {
      EvalLocal(c[id], Known(c, k), Known(d, k), ids);
    } else {
      FencedMeaning(c, free, k);
      FencedMeaning(d, free, k);
      if Eval(c[id], Known(c, k)).Some? {
        EvaluableIfValue(c[id], Known(c, k), free);
      }
      if Eval(c[id], Known(d, k)).Some? {
        EvaluableIfValue(c[id], Known(d, k), free);
      }
    }
  }

  lemma MeaningsAgree(c: Context, d: Context, ids: set<string>, free: set<string>)
    requires Fenced(c, free) && Fenced(d, free) && SameEntries(c, d, ids, free)
    ensures AgreeOn(Meaning(c), Meaning(d), ids)
  {
    hide Known, Fenced, SameEntries;
    KnownAgree(c, d, ids, free, |c|);
    KnownAgree(c, d, ids, free, |d|);
    MeaningIsFixedPoint(c);
    MeaningIsFixedPoint(d);
    assert Below(Known(d, |c|), Meaning(d)) && Below(Known(c, |d|), Meaning(c));
  }

  // ---------------------------------------------------------- an order of the dependencies

  /** The name is imported from a constant of the project. */
  ghost predicate Importable(ms: seq<Module>, m: Module, id: string) {
    id in m.imports && m.imports[id] in Locators(ms)
  }

  /** The names of a module that can have a value when the stuck constants never get one. */
  ghost function MayHaveValue(ms: seq<Module>, m: Module, stuck: set<string>): set<string> {
    (set id | id in m.constants && Locator(m, id) !in stuck)
    + (set id | id in m.imports && m.imports[id] in Locators(ms) && m.imports[id] !in stuck)
  }

  /** What a plan says of the constants of a project: which never get a value, and how far
      from the literals the others are. */
  datatype Plan = Plan(stuck: set<string>, rank: map<string, nat>)
  {
    ghost predicate Before(locator: string, k: nat) {
      locator in stuck || (locator in rank && rank[locator] < k)
    }
  }

  /** The two sources of a mentioned name come earlier. A name that a constant mentions of
      itself, as in `X = X + "s"`, stands for the imported constant. */
  ghost predicate MentionPlaced(ms: seq<Module>, p: Plan, m: Module, name: string, id: string, k: nat) {
    && (id in m.constants && !(id == name && Importable(ms, m, id)) ==> p.Before(Locator(m, id), k))
    && (Importable(ms, m, id) ==> p.Before(m.imports[id], k))
  }

  ghost predicate Placed(ms: seq<Module>, p: Plan, m: Module, name: string) {
    if Locator(m, name) in p.stuck then !Evaluable(Expression(m, name), MayHaveValue(ms, m, p.stuck))
    else
      && Locator(m, name) in p.rank
      && forall id :: id in Mentions(Expression(m, name)) ==>
        MentionPlaced(ms, p, m, name, id, p.rank[Locator(m, name)])
  }

  /** The dependencies of the constants that can have a value are without cycles, shadowed
      imports included, and h is more than their depth. */
  ghost predicate Ordered(ms: seq<Module>, p: Plan, h: nat) {
    && (forall m, name :: m in ms && name in m.constants ==> Placed(ms, p, m, name))
    && (forall x :: x in p.rank ==> p.rank[x] < h)
  }

  /** Both states say the same about the constants that come before k, and nothing about the
      stuck ones. */
  ghost predicate SameBefore(p: Plan, k: nat, a: Valuation, b: Valuation) {
    forall x :: p.Before(x, k) ==> (x in a <==> x in b) && (x in a ==> a[x] == b[x] && x !in p.stuck)
  }

  /** The names of a module whose sources all come before k. */
  ghost predicate Early(ms: seq<Module>, p: Plan, m: Module, id: string, k: nat) {
    && (id in m.constants ==> p.Before(Locator(m, id), k))
    && (Importable(ms, m, id) ==> p.Before(m.imports[id], k))
  }

  /** A state of the project that records nothing stuck. */
  ghost predicate Within(ms: seq<Module>, p: Plan, r: Valuation) {
    r.Keys <= Locators(ms) && r.Keys !! p.stuck
  }

  /** The table in the middle of a pass: entries are as at its start or, for names visited
      since, the value that has just been recorded. */
  ghost predicate MidPass(p: Plan, k: nat, m: Module, names: seq<string>, start: Context, c: Context) {
    && c.Keys == start.Keys
    && forall id :: id in c ==> c[id] == start[id] || (c[id].Str? && Overwritten(p, k, m, names, id))
  }

  ghost predicate Overwritten(p: Plan, k: nat, m: Module, names: seq<string>, id: string) {
    id in names && id in m.constants && !p.Before(Locator(m, id), k)
  }

  lemma MidPassFenced(ms: seq<Module>, p: Plan, h: nat, k: nat, m: Module, names: seq<string>, r: Valuation, c: Context)
    requires Ordered(ms, p, h) && m in ms && Within(ms, p, r) && MidPass(p, k, m, names, ImportContext(m, r), c)
    ensures Fenced(c, MayHaveValue(ms, m, p.stuck))
  {
    hide Evaluable, Locator, Locators, Mentions;
    var free := MayHaveValue(ms, m, p.stuck);
    forall id | id in c && Evaluable(c[id], free) ensures id in free {
      if c[id] == ImportContext(m, r)[id] && !(id in m.imports && m.imports[id] in r) {
        assert c[id] == Expression(m, id);
        assert Placed(ms, p, m, id);
      }
    }
  }

  /** An early name has the same entry whatever has happened to later constants. */
  lemma EarlyEntry(ms: seq<Module>, p: Plan, k: nat, m: Module, names: seq<string>, a: Valuation, r: Valuation,
                   c: Context, id: string)
    requires Within(ms, p, a) && Within(ms, p, r) && SameBefore(p, k, a, r)
    requires MidPass(p, k, m, names, ImportContext(m, r), c) && !Overwritten(p, k, m, names, id)
    requires Importable(ms, m, id) ==> p.Before(m.imports[id], k)
    ensures id in c <==> id in ImportContext(m, a)
    ensures id in c ==> c[id] == ImportContext(m, a)[id]
    ensures id in c ==> c[id].Str? || (id in m.constants && c[id] == Expression(m, id))
  {
    hide Locator, Locators;
  }

  /** The names on which the value of an early constant depends. */
  ghost function Sources(ms: seq<Module>, p: Plan, k: nat, m: Module, name: string): set<string> {
    set id | id in AllMentions(m) && SourceOf(ms, p, k, m, name, id)
  }

  ghost function AllMentions(m: Module): set<string> {
    set n, id | n in m.constants && id in Mentions(m.constants[n]) :: id
  }

  ghost predicate SourceOf(ms: seq<Module>, p: Plan, k: nat, m: Module, name: string, id: string) {
    Early(ms, p, m, id, k) || (id == name && Importable(ms, m, name) && p.Before(m.imports[name], k))
  }

  lemma MentionsAreSources(ms: seq<Module>, p: Plan, h: nat, k: nat, m: Module, name: string, id: string)
    requires Ordered(ms, p, h) && m in ms && id in m.constants && Locator(m, id) !in p.stuck
    requires p.Before(Locator(m, id), k) || (id == name && p.Before(Locator(m, id), k + 1))
    ensures Mentions(Expression(m, id)) <= Sources(ms, p, k, m, name)
  {
    hide Mentions, Locator, Locators, Evaluable;
    assert Placed(ms, p, m, id);
    forall x | x in Mentions(Expression(m, id)) ensures x in Sources(ms, p, k, m, name) {
      assert MentionPlaced(ms, p, m, id, x, p.rank[Locator(m, id)]);
      assert x in AllMentions(m);
      if x == id && Importable(ms, m, id) && id != name {
        assert Early(ms, p, m, x, k);
      } else {
        assert SourceOf(ms, p, k, m, name, x);
      }
    }
  }

  /** The table in the middle of a pass and the one at the start of all modules' passes agree
      on the sources of an early constant that has not been visited yet. */
  lemma SourcesSame(ms: seq<Module>, p: Plan, h: nat, k: nat, m: Module, name: string, names: seq<string>,
                    a: Valuation, r: Valuation, c: Context)
    requires Ordered(ms, p, h) && m in ms && name in m.constants && name !in names
    requires p.Before(Locator(m, name), k + 1) && Locator(m, name) !in p.stuck
    requires Within(ms, p, a) && Within(ms, p, r) && SameBefore(p, k, a, r)
    requires MidPass(p, k, m, names, ImportContext(m, r), c)
    ensures SameEntries(c, ImportContext(m, a), Sources(ms, p, k, m, name), MayHaveValue(ms, m, p.stuck))
  {
    hide Mentions, Locator, Evaluable, MidPass, Within, SameBefore, ImportContext, Importable, MayHaveValue;
    var ids, free, d := Sources(ms, p, k, m, name), MayHaveValue(ms, m, p.stuck), ImportContext(m, a);
    forall id | id in ids
      ensures id in c <==> id in d
      ensures id in c ==> c[id] == d[id] && (Mentions(c[id]) <= ids || !Evaluable(c[id], free))
    {
      assert !Overwritten(p, k, m, names, id);
      EarlyEntry(ms, p, k, m, names, a, r, c, id);
      if id in c {
        if c[id].Str? {
          LiteralMentionsNothing(c[id]);
        } else if Locator(m, id) in p.stuck {
          assert Placed(ms, p, m, id);
        } else {
          MentionsAreSources(ms, p, h, k, m, name, id);
        }
      }
    }
  }

  lemma LiteralMentionsNothing(node: Node)
    requires node.Str?
    ensures Mentions(node) == {}
  {
  }

  /** What a visit finds for an early constant does not depend on what has happened to later
      constants in this pass. */
  lemma VisitFindsEarly(ms: seq<Module>, p: Plan, h: nat, k: nat, m: Module, name: string, names: seq<string>,
                        a: Valuation, r: Valuation, c: Context)
    requires Ordered(ms, p, h) && m in ms && name in m.constants && name !in names
    requires p.Before(Locator(m, name), k + 1)
    requires Within(ms, p, a) && Within(ms, p, r) && SameBefore(p, k, a, r)
    requires MidPass(p, k, m, names, ImportContext(m, r), c)
    ensures LiteralString(Expression(m, name), c, {}) == ValueIn(m, name, a)
    ensures Locator(m, name) in p.stuck ==> ValueIn(m, name, a).None?
  {
    var d, free := ImportContext(m, a), MayHaveValue(ms, m, p.stuck);
    MidPassFenced(ms, p, h, k, m, names, r, c);
    assert MidPass(p, k, m, [], d, d);
    MidPassFenced(ms, p, h, k, m, [], a, d);
    LiteralIsMeaning(Expression(m, name), c);
    LiteralIsMeaning(Expression(m, name), d);
    if Locator(m, name) in p.stuck {
      assert Placed(ms, p, m, name);
      NoValue(Expression(m, name), c, free);
      NoValue(Expression(m, name), d, free);
    } else {
      SourcesSame(ms, p, h, k, m, name, names, a, r, c);
      MeaningsAgree(c, d, Sources(ms, p, k, m, name), free);
      MentionsAreSources(ms, p, h, k, m, name, name);
      EvalLocal(Expression(m, name), Meaning(c), Meaning(d), Sources(ms, p, k, m, name));
    }
  }

  lemma NoValue(node: Node, c: Context, free: set<string>)
    requires Fenced(c, free) && !Evaluable(node, free)
    ensures Eval(node, Meaning(c)).None?
  {
    FencedMeaning(c, free, |c|);
    if Eval(node, Meaning(c)).Some? {
      EvaluableIfValue(node, Meaning(c), free);
    }
  }

  // ------------------------------------------------------------------- level after level

  /** The constants that come before k are up to date. */
  ghost predicate Level(ms: seq<Module>, p: Plan, k: nat, r: Valuation) {
    && Within(ms, p, r)
    && forall m, name :: m in ms && name in m.constants && p.Before(Locator(m, name), k) ==> UpToDate(m, name, r)
  }

  /** What the start of the pass determines for an early constant has been recorded. */
  ghost predicate Caught(p: Plan, k: nat, m: Module, name: string, a: Valuation, r: Valuation) {
    p.Before(Locator(m, name), k + 1) && ValueIn(m, name, a).Some? ==>
      Recorded(r, Locator(m, name), ValueIn(m, name, a).value)
  }

  ghost predicate SameAt(a: Valuation, b: Valuation, x: string) {
    (x in a <==> x in b) && (x in a ==> a[x] == b[x])
  }

  /** Nothing has been recorded but for the given constants of a module. */
  ghost predicate OnlyTouches(m: Module, names: seq<string>, r: Valuation, s: Valuation) {
    forall x :: SameAt(r, s, x) || exists n :: n in names && x == Locator(m, n)
  }

  /** The state of a module's loop after some names, in a pass that started at `a`. */
  ghost predicate Visited(ms: seq<Module>, p: Plan, k: nat, m: Module, names: seq<string>, a: Valuation, r: Valuation,
                          s: PassState)
  {
    && Within(ms, p, s.resolved) && SameBefore(p, k, a, s.resolved)
    && MidPass(p, k, m, names, ImportContext(m, r), s.context)
    && OnlyTouches(m, names, r, s.resolved)
    && forall n :: n in names ==> Caught(p, k, m, n, a, s.resolved)
  }

  lemma VisitOne(ms: seq<Module>, p: Plan, h: nat, k: nat, m: Module, names: seq<string>, last: string,
                 a: Valuation, r: Valuation, s: PassState)
    requires Ordered(ms, p, h) && m in ms && last in m.constants && last !in names
    requires Level(ms, p, k, a) && Within(ms, p, r) && SameBefore(p, k, a, r)
    requires Visited(ms, p, k, m, names, a, r, s)
    ensures Visited(ms, p, k, m, names + [last], a, r, Visit(m, last, s))
  {
    hide Mentions, Locator, Evaluable, LiteralString, ImportContext, Locators, Ordered, Expression;
    var t, locator := Visit(m, last, s), Locator(m, last);
    LocatorListed(ms, m, last);
    ConstantListed(m, last, r);
    if p.Before(locator, k + 1) {
      VisitFindsEarly(ms, p, h, k, m, last, names, a, r, s.context);
    }
    if p.Before(locator, k) {
      assert UpToDate(m, last, a);
      assert t == s;
    }
    assert MidPass(p, k, m, names + [last], ImportContext(m, r), t.context) by {
      forall id | id in t.context && t.context[id] != ImportContext(m, r)[id]
        ensures t.context[id].Str? && Overwritten(p, k, m, names + [last], id)
      {
        assert id == last || Overwritten(p, k, m, names, id);
      }
    }
    assert s.resolved == t.resolved || t.resolved == s.resolved[locator := t.resolved[locator]];
    forall n | n in names + [last] ensures Caught(p, k, m, n, a, t.resolved) {
      if n in names {
        assert Caught(p, k, m, n, a, s.resolved);
        DifferentNames(m, n, last);
      }
    }
    forall x ensures SameAt(r, t.resolved, x) || exists n :: n in names + [last] && x == Locator(m, n) {
      if x != locator && !SameAt(r, t.resolved, x) {
        assert !SameAt(r, s.resolved, x);
        var n :| n in names && x == Locator(m, n);
        assert n in names + [last];
      }
      assert last in names + [last];
    }
  }

  lemma ConstantListed(m: Module, name: string, r: Valuation)
    requires name in m.constants
    ensures name in ImportContext(m, r)
  {
  }

  lemma DifferentNames(m: Module, a: string, b: string)
    requires a != b
    ensures Locator(m, a) != Locator(m, b)
  {
    var prefix := m.name + ".";
    assert (prefix + a)[|prefix|..] == a && (prefix + b)[|prefix|..] == b;
  }

  lemma {:induction false} VisitsAreLevel(ms: seq<Module>, p: Plan, h: nat, k: nat, m: Module, names: seq<string>,
                                          a: Valuation, r: Valuation)
    requires Ordered(ms, p, h) && m in ms && NoRepeats(names) && (forall n :: n in names ==> n in m.constants)
    requires Level(ms, p, k, a) && Within(ms, p, r) && SameBefore(p, k, a, r)
    ensures Visited(ms, p, k, m, names, a, r, VisitAll(m, names, r))
  {
    hide Locator, ImportContext, Locators, Ordered, Level, Visit;
    if names != [] {
      var init, last := names[..|names| - 1], names[|names| - 1];
      assert names == init + [last] && last !in init && NoRepeats(init);
      hide NoRepeats, Within, SameBefore;
      VisitsAreLevel(ms, p, h, k, m, init, a, r);
      hide Visited;
      VisitOne(ms, p, h, k, m, init, last, a, r, VisitAll(m, init, r));
    }
  }

  /** After the given modules of a pass that started at `a`. */
  ghost predicate Passed(ms: seq<Module>, p: Plan, k: nat, n: nat, a: Valuation, r: Valuation)
    requires n <= |ms|
  {
    && Within(ms, p, r) && SameBefore(p, k, a, r)
    && forall i, name :: 0 <= i < n && name in ms[i].constants ==> Caught(p, k, ms[i], name, a, r)
  }

  lemma PassOne(ms: seq<Module>, p: Plan, h: nat, k: nat, n: nat, order: seq<string>, a: Valuation, r: Valuation)
    requires WellFormed(ms) && Ordered(ms, p, h) && Level(ms, p, k, a) && n < |ms| && IsOrder(ms[n], order)
    requires Passed(ms, p, k, n, a, r)
    ensures Passed(ms, p, k, n + 1, a, VisitAll(ms[n], order, r).resolved)
  {
    hide Locators, Ordered, Level, WellFormed, Within, SameBefore, MidPass, ValueIn, Locator, VisitAll, NoRepeats;
    OrderMembers(ms[n], order);
    VisitsAreLevel(ms, p, h, k, ms[n], order, a, r);
    var s := VisitAll(ms[n], order, r).resolved;
    forall i, name | 0 <= i <= n && name in ms[i].constants ensures Caught(p, k, ms[i], name, a, s) {
      if i < n {
        assert Caught(p, k, ms[i], name, a, r);
        var x := Locator(ms[i], name);
        if !SameAt(r, s, x) {
          var b :| b in order && x == Locator(ms[n], b);
          LocatorInjective(ms, i, n, name, b);
        }
      }
    }
  }

  lemma {:induction false} PassesModules(ms: seq<Module>, p: Plan, h: nat, k: nat, orders: seq<seq<string>>,
                                         a: Valuation)
    requires WellFormed(ms) && Ordered(ms, p, h) && Level(ms, p, k, a)
    requires |orders| <= |ms| && forall i :: 0 <= i < |orders| ==> IsOrder(ms[i], orders[i])
    ensures Passed(ms, p, k, |orders|, a, Pass(ms, orders, a).0)
  {
    hide Locators, Ordered, WellFormed, VisitAll, IsOrder;
    if orders != [] {
      var n := |orders| - 1;
      PassesModules(ms, p, h, k, orders[..n], a);
      hide Level, Passed;
      PassOne(ms, p, h, k, n, orders[n], a, Pass(ms, orders[..n], a).0);
    }
  }

  /** Each pass settles one more level for good. */
  lemma PassRaisesLevel(ms: seq<Module>, p: Plan, h: nat, k: nat, orders: seq<seq<string>>, a: Valuation)
    requires WellFormed(ms) && Ordered(ms, p, h) && Level(ms, p, k, a) && AreOrders(ms, orders)
    ensures Level(ms, p, k + 1, Pass(ms, orders, a).0)
  {
    PassesModules(ms, p, h, k, orders, a);
    var r := Pass(ms, orders, a).0;
    hide Locators, Ordered, WellFormed, Pass, IsOrder, Within, SameBefore, ImportContext, Locator, LiteralString;
    forall m, name | m in ms && name in m.constants && p.Before(Locator(m, name), k + 1) ensures UpToDate(m, name, r) {
      var i :| 0 <= i < |ms| && ms[i] == m;
      assert Caught(p, k, ms[i], name, a, r);
      assert MidPass(p, k, m, [], ImportContext(m, r), ImportContext(m, r));
      VisitFindsEarly(ms, p, h, k, m, name, [], a, r, ImportContext(m, r));
    }
  }

  lemma {:induction false} PassesReachLevel(ms: seq<Module>, p: Plan, h: nat, schedule: seq<seq<seq<string>>>)
    requires WellFormed(ms) && Ordered(ms, p, h) && IsSchedule(ms, schedule)
    ensures Level(ms, p, |schedule|, Passes(ms, schedule))
  {
    hide Ordered, WellFormed, Pass, AreOrders;
    if schedule == [] {
      NothingIsLevel(ms, p, h);
    } else {
      var n := |schedule| - 1;
      hide Level;
      assert schedule[n] in schedule;
      PassesReachLevel(ms, p, h, schedule[..n]);
      PassRaisesLevel(ms, p, h, n, schedule[n], Passes(ms, schedule[..n]));
    }
  }

  /** Before the first pass only stuck constants are due, and they have no value. */
  lemma NothingIsLevel(ms: seq<Module>, p: Plan, h: nat)
    requires Ordered(ms, p, h)
    ensures Level(ms, p, 0, map[])
  {
    hide Locators, Ordered, ImportContext, Locator, LiteralString;
    forall m, name | m in ms && name in m.constants && p.Before(Locator(m, name), 0) ensures UpToDate(m, name, map[]) {
      assert MidPass(p, 0, m, [], ImportContext(m, map[]), ImportContext(m, map[]));
      VisitFindsEarly(ms, p, h, 0, m, name, [], map[], map[], ImportContext(m, map[]));
    }
  }

  /** A project whose valued constants depend on each other without a cycle settles, shadowed
      imports included, after at most as many passes as the dependencies are deep. */
  lemma OrderedStops(ms: seq<Module>, p: Plan, h: nat)
    requires WellFormed(ms) && Ordered(ms, p, h)
    ensures StopsWithin(ms, h)
  {
    hide WellFormed, Locator, Locators, UpToDate, Evaluable;
    forall schedule | IsSchedule(ms, schedule) && |schedule| >= h ensures QuietAt(ms, Passes(ms, schedule)) {
      PassesReachLevel(ms, p, h, schedule);
      forall m, name | m in ms && name in m.constants ensures UpToDate(m, name, Passes(ms, schedule)) {
        assert Placed(ms, p, m, name);
        assert p.Before(Locator(m, name), |schedule|);
      }
    }
  }

  // ------------------------------------------------------------- what keeps it from stopping

  /** The text w stands somewhere in v. */
  ghost predicate Part(w: string, v: string) {
    exists i :: StandsAt(w, v, i)
  }

  predicate StandsAt(w: string, v: string, i: nat) {
    i + |w| <= |v| && v[i..i + |w|] == w
  }

  lemma PartReflexive(v: string)
    ensures Part(v, v)
  {
    assert StandsAt(v, v, 0);
  }

  lemma PartOfConcat(w: string, a: string, b: string)
    requires Part(w, a) || Part(w, b)
    ensures Part(w, a + b)
  {
    if Part(w, a) {
      var i: nat :| StandsAt(w, a, i);
      assert StandsAt(w, a + b, i);
    } else {
      var i: nat :| StandsAt(w, b, i);
      assert StandsAt(w, a + b, |a| + i);
    }
  }

  lemma PartTransitive(u: string, w: string, v: string)
    requires Part(u, w) && Part(w, v)
    ensures Part(u, v)
  {
    var i: nat :| StandsAt(u, w, i);
    var j: nat :| StandsAt(w, v, j);
    var q := v[j + i..j + i + |u|];
    forall k | 0 <= k < |u| ensures u[k] == q[k] {
      assert u[k] == w[i + k] == v[j + (i + k)];
    }
    assert StandsAt(u, v, j + i);
  }

  lemma PartsOfEachOther(w: string, v: string)
    requires Part(w, v) && Part(v, w)
    ensures w == v
  {
    var i: nat :| StandsAt(w, v, i);
    var j: nat :| StandsAt(v, w, j);
    assert i == 0 && v[0..0 + |w|] == v;
  }

  /** What a name stands for is part of every value that mentions the name. */
  lemma {:induction false} MentionedIsPart(node: Node, names: Valuation, id: string)
    requires Eval(node, names).Some? && id in Mentions(node)
    ensures id in names && Part(names[id], Eval(node, names).value)
    decreases node, 1, 0
  {
    match node
    case Name(_) => PartReflexive(names[id]);
    case Add(l, r) =>
      MentionedIsPart(if id in Mentions(l) then l else r, names, id);
      PartOfConcat(names[id], Eval(l, names).value, Eval(r, names).value);
    case Joined(_) => MentionedInPieces(node, 0, names, id);
  }

  lemma {:induction false} MentionedInPieces(joined: Node, i: nat, names: Valuation, id: string)
    requires joined.Joined? && i <= |joined.pieces|
    requires EvalPieces(joined, i, names).Some? && id in PieceMentions(joined, i)
    ensures id in names && Part(names[id], EvalPieces(joined, i, names).value)
    decreases joined, 0, |joined.pieces| - i
  {
    var rest := EvalPieces(joined, i + 1, names).value;
    match joined.pieces[i]
    case Text(t) =>
      MentionedInPieces(joined, i + 1, names, id);
      PartOfConcat(names[id], t, rest);
    case Formatted(n) =>
      if id in Mentions(n) {
        MentionedIsPart(n, names, id);
      } else {
        MentionedInPieces(joined, i + 1, names, id);
      }
      PartOfConcat(names[id], Eval(n, names).value, rest);
  }

  /** Each name of the chain is mentioned by the entry of the one before, the first by `node`. */
  ghost predicate Follows(c: Context, node: Node, chain: seq<string>)
    decreases |chain|
  {
    && chain != [] && chain[0] in Mentions(node)
    && (|chain| > 1 ==> chain[0] in c && Follows(c, c[chain[0]], chain[1..]))
  }

  lemma {:induction false} FollowedIsPart(c: Context, node: Node, chain: seq<string>)
    requires Follows(c, node, chain) && Eval(node, Meaning(c)).Some?
    ensures chain[|chain| - 1] in Meaning(c) && Part(Meaning(c)[chain[|chain| - 1]], Eval(node, Meaning(c)).value)
    decreases |chain|
  {
    hide Mentions, Eval, Meaning;
    MentionedIsPart(node, Meaning(c), chain[0]);
    if |chain| > 1 {
      MeaningIsFixedPoint(c);
      FollowedIsPart(c, c[chain[0]], chain[1..]);
      PartTransitive(Meaning(c)[chain[|chain| - 1]], Meaning(c)[chain[0]], Eval(node, Meaning(c)).value);
    }
  }

  /** A constant of the module that has a value in this state reads the project constant x
      through the last name of the chain, which is imported. */
  ghost predicate ReadsThrough(m: Module, name: string, chain: seq<string>, r: Valuation, x: string) {
    && name in m.constants && ValueIn(m, name, r).Some? && chain != []
    && Follows(ImportContext(m, r), Expression(m, name), chain)
    && var alias := chain[|chain| - 1]; alias in m.imports && m.imports[alias] == x && x in r
  }

  ghost predicate Reads(ms: seq<Module>, r: Valuation, locator: string, x: string) {
    exists m, name, chain :: m in ms && locator == Locator(m, name) && ReadsThrough(m, name, chain, r, x)
  }

  /** From each valued constant to the project constants it reads. */
  ghost function ReadGraph(ms: seq<Module>, r: Valuation): Graph {
    map locator | locator in r :: set x | x in r && Reads(ms, r, locator, x)
  }

  lemma ReadIsPart(ms: seq<Module>, r: Valuation, locator: string, x: string)
    requires QuietAt(ms, r) && Reads(ms, r, locator, x)
    ensures locator in r && x in r && Part(r[x], r[locator])
  {
    hide Follows, Meaning, Eval, Part, LiteralString, Locator, Locators;
    var m, name, chain :| m in ms && locator == Locator(m, name) && ReadsThrough(m, name, chain, r, x);
    var c := ImportContext(m, r);
    var alias := chain[|chain| - 1];
    assert UpToDate(m, name, r);
    LiteralIsMeaning(Expression(m, name), c);
    FollowedIsPart(c, Expression(m, name), chain);
    assert c[alias] == Str(r[x]);
    MeaningIsFixedPoint(c);
    LiteralValue(c[alias], Meaning(c));
  }

  lemma LiteralValue(node: Node, names: Valuation)
    requires node.Str?
    ensures Eval(node, names) == Some(node.text)
  {
  }

  lemma {:induction false} PathIsPart(ms: seq<Module>, r: Valuation, x: string, path: seq<string>, y: string)
    requires QuietAt(ms, r) && x in r && IsPath(ReadGraph(ms, r), x, path, y)
    ensures y in r && Part(r[y], r[x])
    decreases |path|
  {
    hide QuietAt, Part, Reads;
    if path == [] {
      PartReflexive(r[x]);
    } else {
      ReadIsPart(ms, r, x, path[0]);
      PathIsPart(ms, r, path[0], path[1..], y);
      PartTransitive(r[y], r[path[0]], r[x]);
    }
  }

  /** The loop can stop only in a state in which the constants on a dependency cycle all have
      the same value: what the expressions of the cycle add to each other is empty. */
  lemma CyclesAddNothing(ms: seq<Module>, r: Valuation, x: string, y: string)
    requires QuietAt(ms, r) && x in r && Mutual(ReadGraph(ms, r), x, y)
    ensures y in r && r[x] == r[y]
  {
    hide QuietAt, Part, ReadGraph;
    var there :| IsPath(ReadGraph(ms, r), x, there, y);
    var back :| IsPath(ReadGraph(ms, r), y, back, x);
    PathIsPart(ms, r, x, there, y);
    PathIsPart(ms, r, y, back, x);
    PartsOfEachOther(r[x], r[y]);
  }
}
