/** scripts/check_provenance_fields.py, lines 539-568: string constants are resolved across
    modules by repeating passes until nothing changes. Unless an import shadows a project
    constant, the result is the least fixed point, whatever the order of modules and names. */
module ProjectConstants {
  import opened Results
  import opened Ordering
  import opened Collections
  import opened LiteralStrings

  // --------------------------------------------------------------------------- the project

  datatype Module = Module(name: string, imports: map<string, string>, constants: Context)

  function Locator(m: Module, name: string): string {
    m.name + "." + name
  }

  /** Constant names are identifiers, and modules of one name share no constant. */
  ghost predicate WellFormed(ms: seq<Module>) {
    && (forall i, j :: 0 <= i < j < |ms| && ms[i].name == ms[j].name ==> ms[i].constants.Keys !! ms[j].constants.Keys)
    && (forall i, name :: 0 <= i < |ms| && name in ms[i].constants ==> '.' !in name)
  }

  ghost function Locators(ms: seq<Module>): set<string> {
    set m, name | m in ms && name in m.constants :: Locator(m, name)
  }

  /** No module assigns a name under which it also imports a constant of the project. */
  ghost predicate NoShadowing(ms: seq<Module>) {
    forall m, id :: m in ms && id in m.constants && id in m.imports ==> m.imports[id] !in Locators(ms)
  }

  lemma DotInTail(x: string, a: string, y: string, b: string)
    requires x + "." + a == y + "." + b && |x| < |y|
    ensures '.' in a
  {
    var s := x + "." + a;
    assert (y + "." + b)[|y|] == '.';
    assert s[|y|] == a[|y| - |x| - 1];
  }

  lemma LocatorInjective(ms: seq<Module>, i: nat, j: nat, a: string, b: string)
    requires WellFormed(ms) && i < |ms| && j < |ms|
    requires a in ms[i].constants && b in ms[j].constants
    requires Locator(ms[i], a) == Locator(ms[j], b)
    ensures i == j && a == b
  {
    var x, y := ms[i].name, ms[j].name;
    if |x| < |y| {
      DotInTail(x, a, y, b);
      assert false;
    }
    if |y| < |x| {
      DotInTail(y, b, x, a);
      assert false;
    }
    var s := x + "." + a;
    assert s == y + "." + b;
    assert x == s[..|x|] == y;
    assert a == s[|x| + 1..] == b;
  }

  lemma LocatorListed(ms: seq<Module>, m: Module, name: string)
    requires m in ms && name in m.constants
    ensures Locator(m, name) in Locators(ms)
  {
  }

  // ----------------------------------------------------------------------------- the passes

  /** The table in which a pass starts on a module. */
  function ImportContext(m: Module, resolved: Valuation): Context {
    m.constants + ImportedLiterals(m, resolved)
  }

  function ImportedLiterals(m: Module, resolved: Valuation): Context {
    map alias | alias in m.imports && m.imports[alias] in resolved :: Str(resolved[m.imports[alias]])
  }

  /** The expression assigned to a name of the module. */
  function Expression(m: Module, name: string): Node {
    if name in m.constants then m.constants[name] else Other
  }

  /** What a pass that starts with `r` finds for a constant. */
  function ValueIn(m: Module, name: string, r: Valuation): Option<string> {
    LiteralString(Expression(m, name), ImportContext(m, r), {})
  }

  predicate Recorded(r: Valuation, locator: string, v: string) {
    locator in r && r[locator] == v
  }

  predicate UpToDate(m: Module, name: string, r: Valuation) {
    ValueIn(m, name, r).Some? ==> Recorded(r, Locator(m, name), ValueIn(m, name, r).value)
  }

  /** A state of the project in which no constant has a value other than the recorded one. */
  ghost predicate QuietAt(ms: seq<Module>, r: Valuation) {
    && r.Keys <= Locators(ms)
    && forall m, name :: m in ms && name in m.constants ==> UpToDate(m, name, r)
  }

  datatype PassState = PassState(resolved: Valuation, context: Context, changed: bool)

  /** The body of the innermost loop (lines 551-556). */
  function Visit(m: Module, name: string, s: PassState): PassState {
    var value := LiteralString(Expression(m, name), s.context, {});
    if value.Some? && !Recorded(s.resolved, Locator(m, name), value.value) then
      PassState(s.resolved[Locator(m, name) := value.value], s.context[name := Str(value.value)], true)
    else s
  }

  function VisitAll(m: Module, names: seq<string>, start: Valuation): PassState {
    if names == [] then PassState(start, ImportContext(m, start), false)
    else Visit(m, names[|names| - 1], VisitAll(m, names[..|names| - 1], start))
  }

  /** The constants of a module in some order. */
  ghost predicate IsOrder(m: Module, names: seq<string>) {
    NoRepeats(names) && Elements(names) == m.constants.Keys
  }

  /** The modules one after the other; the flag is `changed`. */
  function Pass(ms: seq<Module>, orders: seq<seq<string>>, r: Valuation): (Valuation, bool)
    requires |orders| <= |ms|
  {
    if orders == [] then (r, false)
    else
      var n := |orders| - 1;
      var before := Pass(ms, orders[..n], r);
      var s := VisitAll(ms[n], orders[n], before.0);
      (s.resolved, before.1 || s.changed)
  }

  ghost predicate AreOrders(ms: seq<Module>, orders: seq<seq<string>>) {
    |orders| == |ms| && forall i :: 0 <= i < |ms| ==> IsOrder(ms[i], orders[i])
  }

  /** An order for each module in each pass. */
  ghost predicate IsSchedule(ms: seq<Module>, schedule: seq<seq<seq<string>>>) {
    forall p :: p in schedule ==> AreOrders(ms, p)
  }

  ghost function Passes(ms: seq<Module>, schedule: seq<seq<seq<string>>>): Valuation
    requires IsSchedule(ms, schedule)
  {
    if schedule == [] then map[]
    else
      var n := |schedule| - 1;
      assert schedule[n] in schedule;
      Pass(ms, schedule[n], Passes(ms, schedule[..n])).0
  }

  /** The loop is over after n passes and the one that finds nothing to change, whatever the
      orders of the names. */
  ghost predicate StopsWithin(ms: seq<Module>, n: nat) {
    forall schedule :: IsSchedule(ms, schedule) && |schedule| >= n ==> QuietAt(ms, Passes(ms, schedule))
  }

  lemma {:induction false} UnchangedVisits(m: Module, names: seq<string>, r: Valuation)
    ensures VisitAll(m, names, r).changed <==> exists n :: n in names && !UpToDate(m, n, r)
    ensures !VisitAll(m, names, r).changed ==> VisitAll(m, names, r) == PassState(r, ImportContext(m, r), false)
  {
    hide ImportContext, Locator, Expression, LiteralString;
    if names != [] {
      var init, last := names[..|names| - 1], names[|names| - 1];
      assert forall n :: n in names <==> n in init || n == last;
      UnchangedVisits(m, init, r);
      if VisitAll(m, init, r).changed {
        var n :| n in init && !UpToDate(m, n, r);
        assert n in names;
      } else {
        assert VisitAll(m, names, r).changed <==> !UpToDate(m, last, r);
      }
    }
  }

  lemma {:induction false} VisitsRecordLocators(ms: seq<Module>, m: Module, names: seq<string>, r: Valuation)
    requires m in ms && r.Keys <= Locators(ms) && forall n :: n in names ==> n in m.constants
    ensures r.Keys <= VisitAll(m, names, r).resolved.Keys <= Locators(ms)
  {
    hide ImportContext, Locator, Expression, LiteralString, Locators;
    if names != [] {
      var init, last := names[..|names| - 1], names[|names| - 1];
      assert names == init + [last];
      VisitsRecordLocators(ms, m, init, r);
      LocatorListed(ms, m, last);
    }
  }

  lemma OrderMembers(m: Module, names: seq<string>)
    requires IsOrder(m, names)
    ensures forall n :: n in names <==> n in m.constants
  {
    assert forall n :: n in names <==> n in Elements(names);
  }

  ghost predicate QuietModule(m: Module, r: Valuation) {
    forall name :: name in m.constants ==> UpToDate(m, name, r)
  }

  lemma {:induction false} UnchangedPass(ms: seq<Module>, orders: seq<seq<string>>, r: Valuation)
    requires |orders| <= |ms| && forall i :: 0 <= i < |orders| ==> IsOrder(ms[i], orders[i])
    ensures Pass(ms, orders, r).1 <==> exists i :: 0 <= i < |orders| && !QuietModule(ms[i], r)
    ensures !Pass(ms, orders, r).1 ==> Pass(ms, orders, r).0 == r
  {
    hide UpToDate, VisitAll, IsOrder;
    if orders != [] {
      var n := |orders| - 1;
      UnchangedPass(ms, orders[..n], r);
      UnchangedVisits(ms[n], orders[n], r);
      OrderMembers(ms[n], orders[n]);
    }
  }

  lemma {:induction false} PassRecordsLocators(ms: seq<Module>, orders: seq<seq<string>>, r: Valuation)
    requires |orders| <= |ms| && forall i :: 0 <= i < |orders| ==> IsOrder(ms[i], orders[i])
    requires r.Keys <= Locators(ms)
    ensures r.Keys <= Pass(ms, orders, r).0.Keys <= Locators(ms)
  {
    hide VisitAll, IsOrder, Locators;
    if orders != [] {
      var n := |orders| - 1;
      PassRecordsLocators(ms, orders[..n], r);
      OrderMembers(ms[n], orders[n]);
      VisitsRecordLocators(ms, ms[n], orders[n], Pass(ms, orders[..n], r).0);
    }
  }

  /** A pass reports no change exactly in the quiet states, and then it changes nothing: the
      loop can only stop in a quiet state. */
  lemma StopsOnlyWhenQuiet(ms: seq<Module>, orders: seq<seq<string>>, r: Valuation)
    requires AreOrders(ms, orders) && r.Keys <= Locators(ms)
    ensures !Pass(ms, orders, r).1 <==> QuietAt(ms, r)
    ensures !Pass(ms, orders, r).1 ==> Pass(ms, orders, r).0 == r
  {
    hide UpToDate, Pass, IsOrder, Locators;
    UnchangedPass(ms, orders, r);
    if forall i :: 0 <= i < |ms| ==> QuietModule(ms[i], r) {
      forall m, name | m in ms && name in m.constants ensures UpToDate(m, name, r) {
        var i :| 0 <= i < |ms| && ms[i] == m;
        assert QuietModule(ms[i], r);
      }
    }
    if QuietAt(ms, r) {
      forall i | 0 <= i < |ms| ensures QuietModule(ms[i], r) {
        assert ms[i] in ms;
      }
    }
  }

  lemma {:induction false} PassesRecordLocators(ms: seq<Module>, schedule: seq<seq<seq<string>>>)
    requires IsSchedule(ms, schedule)
    ensures Passes(ms, schedule).Keys <= Locators(ms)
  {
    hide Pass, Locators;
    if schedule != [] {
      var n := |schedule| - 1;
      assert schedule[n] in schedule;
      PassesRecordLocators(ms, schedule[..n]);
      PassRecordsLocators(ms, schedule[n], Passes(ms, schedule[..n]));
    }
  }

  // -------------------------------------------------------------------------- the algorithm

  /** The loop over one module's constants (lines 546-556), in any order. */
  method ResolveModule(m: Module, start: Valuation)
    returns (resolved: Valuation, changed: bool, ghost order: seq<string>)
    ensures IsOrder(m, order)
    ensures resolved == VisitAll(m, order, start).resolved && changed == VisitAll(m, order, start).changed
    ensures changed <==> !QuietModule(m, start)
    ensures !changed ==> resolved == start
  {
    hide LiteralString, ImportContext, Locator;
    resolved, changed, order := start, false, [];
    var context := ImportContext(m, start);
    var todo := m.constants.Keys;
    while todo != {}
      invariant todo <= m.constants.Keys
      invariant NoRepeats(order) && Elements(order) == m.constants.Keys - todo
      invariant PassState(resolved, context, changed) == VisitAll(m, order, start)
    {
      var name :| name in todo;
      var value := LiteralString(m.constants[name], context, {});
      var locator := Locator(m, name);
      if value.Some? && !Recorded(resolved, locator, value.value) {
        resolved := resolved[locator := value.value];
        context := context[name := Str(value.value)];
        changed := true;
      }
      assert (order + [name])[..|order|] == order;
      assert name !in Elements(order) && Elements(order + [name]) == Elements(order) + {name};
      order := order + [name];
      todo := todo - {name};
    }
    UnchangedVisits(m, order, start);
    OrderMembers(m, order);
  }

  method ResolvePass(ms: seq<Module>, start: Valuation)
    returns (resolved: Valuation, changed: bool, ghost orders: seq<seq<string>>)
    ensures AreOrders(ms, orders) && (resolved, changed) == Pass(ms, orders, start)
    ensures changed <==> exists i :: 0 <= i < |ms| && !QuietModule(ms[i], start)
    ensures !changed ==> resolved == start
  {
    hide VisitAll, IsOrder;
    resolved, changed, orders := start, false, [];
    for i := 0 to |ms|
      invariant |orders| == i && forall j :: 0 <= j < i ==> IsOrder(ms[j], orders[j])
      invariant (resolved, changed) == Pass(ms, orders, start)
    {
      var more, moved, order := ResolveModule(ms[i], resolved);
      assert (orders + [order])[..i] == orders;
      resolved, changed, orders := more, changed || moved, orders + [order];
    }
    UnchangedPass(ms, orders, start);
  }

  /** The `while changed` loop, on any project on which it stops. */
  method ResolvePasses(ms: seq<Module>, ghost limit: nat)
    returns (resolved: Valuation, ghost schedule: seq<seq<seq<string>>>)
    requires StopsWithin(ms, limit)
    ensures IsSchedule(ms, schedule) && |schedule| <= limit + 1
    ensures resolved == Passes(ms, schedule) && QuietAt(ms, resolved)
  {
    hide Pass, QuietAt, AreOrders, Locators;
    resolved, schedule := map[], [];
    var changed := true;
    while changed
      invariant IsSchedule(ms, schedule) && resolved == Passes(ms, schedule)
      invariant if changed then |schedule| <= limit else |schedule| <= limit + 1 && QuietAt(ms, resolved)
      decreases limit + 1 - |schedule|, changed
    {
      ghost var orders;
      PassesRecordLocators(ms, schedule);
      resolved, changed, orders := ResolvePass(ms, resolved);
      StopsOnlyWhenQuiet(ms, orders, Passes(ms, schedule));
      assert (schedule + [orders])[..|schedule|] == schedule;
      schedule := schedule + [orders];
    }
  }

  // ------------------------------------------------------- without shadowing: least solutions

  /** The quiet state that says no more than any other quiet state. */
  ghost predicate LeastQuiet(ms: seq<Module>, r: Valuation) {
    QuietAt(ms, r) && BelowQuiet(ms, r)
  }

  ghost predicate BelowQuiet(ms: seq<Module>, r: Valuation) {
    forall q :: QuietAt(ms, q) ==> Below(r, q)
  }

  /** Without shadowing, knowing more project constants only adds values. */
  lemma ImportContextGrows(ms: seq<Module>, m: Module, a: Valuation, b: Valuation)
    requires NoShadowing(ms) && m in ms && b.Keys <= Locators(ms) && Below(a, b)
    ensures Below(Meaning(ImportContext(m, a)), Meaning(ImportContext(m, b)))
  {
    hide Locators;
    var ca, cb := ImportContext(m, a), ImportContext(m, b);
    forall id | id in ca ensures id in cb && cb[id] == ca[id] {
      if id in m.imports && m.imports[id] in b && id in m.constants {
        assert false;
      }
    }
    hide ImportContext;
    MeaningMonotone(ca, cb, |ca|);
  }

  /** An expression keeps its value as project constants become known. */
  lemma ValueGrows(ms: seq<Module>, m: Module, name: string, a: Valuation, b: Valuation)
    requires NoShadowing(ms) && m in ms && b.Keys <= Locators(ms) && Below(a, b)
    requires ValueIn(m, name, a).Some?
    ensures ValueIn(m, name, b) == ValueIn(m, name, a)
  {
    hide ImportContext, LiteralString, Meaning, Eval, Below, Expression;
    ImportContextGrows(ms, m, a, b);
    LiteralIsMeaning(Expression(m, name), ImportContext(m, a));
    LiteralIsMeaning(Expression(m, name), ImportContext(m, b));
    EvalMonotone(Expression(m, name), Meaning(ImportContext(m, a)), Meaning(ImportContext(m, b)));
  }

  /** A value found from earlier results is the one that every quiet state records, so a
      recorded value never changes once set. */
  lemma ValueIsStable(ms: seq<Module>, m: Module, name: string, start: Valuation, r: Valuation, q: Valuation)
    requires NoShadowing(ms) && m in ms && name in m.constants
    requires QuietAt(ms, q) && Below(start, q) && Below(r, q) && ValueIn(m, name, start).Some?
    ensures Recorded(q, Locator(m, name), ValueIn(m, name, start).value)
    ensures Locator(m, name) in r ==> r[Locator(m, name)] == ValueIn(m, name, start).value
  {
    hide ValueIn, Locator;
    ValueGrows(ms, m, name, start, q);
    assert UpToDate(m, name, q);
  }

  lemma OwnEntry(ms: seq<Module>, m: Module, name: string, r: Valuation)
    requires NoShadowing(ms) && m in ms && name in m.constants && r.Keys <= Locators(ms)
    ensures name in ImportContext(m, r) && ImportContext(m, r)[name] == m.constants[name] == Expression(m, name)
  {
    hide Locators;
    if name in m.imports && m.imports[name] in r {
      assert false;
    }
  }

  /** Recording a value in the table of the pass only replaces a name by what it means. */
  lemma CollapseOne(ms: seq<Module>, m: Module, start: Valuation, context: Context, name: string, v: string)
    requires NoShadowing(ms) && m in ms && name in m.constants && start.Keys <= Locators(ms)
    requires Collapsed(context, ImportContext(m, start)) && ValueIn(m, name, start) == Some(v)
    ensures Collapsed(context[name := Str(v)], ImportContext(m, start))
  {
    OwnEntry(ms, m, name, start);
    hide Meaning, ImportContext, Eval, LiteralString, Expression, Locators, NoShadowing;
    LiteralIsMeaning(Expression(m, name), ImportContext(m, start));
    CollapseEntry(context, ImportContext(m, start), name, v);
  }

  /** In a module of a project without shadowing, each visit finds what the start of the
      pass determines. */
  lemma VisitFindsValue(m: Module, name: string, start: Valuation, context: Context)
    requires Collapsed(context, ImportContext(m, start))
    ensures LiteralString(Expression(m, name), context, {}) == ValueIn(m, name, start)
  {
    hide LiteralString, Meaning, Eval, ImportContext, Expression, Collapsed;
    CollapsedSameMeaning(context, ImportContext(m, start));
    LiteralIsMeaning(Expression(m, name), context);
    LiteralIsMeaning(Expression(m, name), ImportContext(m, start));
  }

  lemma CollapsedReflexive(c: Context)
    ensures Collapsed(c, c)
  {
  }

  /** Every pass stays below a quiet state, and each change records a new constant. */
  lemma {:induction false} VisitsStayBelow(ms: seq<Module>, m: Module, names: seq<string>, start: Valuation,
                                           q: Valuation)
    requires NoShadowing(ms) && m in ms && (forall n :: n in names ==> n in m.constants)
    requires QuietAt(ms, q) && Below(start, q)
    ensures var s := VisitAll(m, names, start);
      && Below(s.resolved, q) && Collapsed(s.context, ImportContext(m, start))
      && (if s.changed then |s.resolved| > |start| else s.resolved == start)
  {
    hide ImportContext, Locator, Expression, LiteralString, Locators, NoShadowing, QuietAt, Collapsed;
    CollapsedReflexive(ImportContext(m, start));
    if names != [] {
      var init, last := names[..|names| - 1], names[|names| - 1];
      assert last in names;
      VisitsStayBelow(ms, m, init, start, q);
      var s := VisitAll(m, init, start);
      VisitFindsValue(m, last, start, s.context);
      if ValueIn(m, last, start).Some? {
        QuietKeys(ms, start, q);
        ValueIsStable(ms, m, last, start, s.resolved, q);
        CollapseOne(ms, m, start, s.context, last, ValueIn(m, last, start).value);
      }
    }
  }

  lemma QuietKeys(ms: seq<Module>, r: Valuation, q: Valuation)
    requires QuietAt(ms, q) && Below(r, q)
    ensures r.Keys <= Locators(ms)
  {
  }

  lemma {:induction false} PassStaysBelow(ms: seq<Module>, orders: seq<seq<string>>, r: Valuation, q: Valuation)
    requires NoShadowing(ms) && QuietAt(ms, q) && Below(r, q)
    requires |orders| <= |ms| && forall i :: 0 <= i < |orders| ==> IsOrder(ms[i], orders[i])
    ensures Below(Pass(ms, orders, r).0, q)
    ensures if Pass(ms, orders, r).1 then |Pass(ms, orders, r).0| > |r| else Pass(ms, orders, r).0 == r
  {
    hide VisitAll, IsOrder, Below, QuietAt, NoShadowing;
    if orders != [] {
      var n := |orders| - 1;
      PassStaysBelow(ms, orders[..n], r, q);
      OrderMembers(ms[n], orders[n]);
      VisitsStayBelow(ms, ms[n], orders[n], Pass(ms, orders[..n], r).0, q);
    }
  }

  // -------------------------------------------------------------- stopping by running out

  /** A property of states that every pass keeps and under which every change adds a constant. */
  ghost predicate GrowsOnly(ms: seq<Module>, inv: Valuation -> bool) {
    && inv(map[])
    && (forall r :: inv(r) ==> r.Keys <= Locators(ms))
    && (forall orders, r :: AreOrders(ms, orders) && inv(r) ==>
          inv(Pass(ms, orders, r).0) && (Pass(ms, orders, r).1 ==> |Pass(ms, orders, r).0| > |r|))
  }

  lemma {:induction false} GrowingPasses(ms: seq<Module>, inv: Valuation -> bool, schedule: seq<seq<seq<string>>>)
    requires GrowsOnly(ms, inv) && IsSchedule(ms, schedule)
    ensures inv(Passes(ms, schedule))
    ensures QuietAt(ms, Passes(ms, schedule)) || |Passes(ms, schedule)| >= |schedule|
  {
    hide Pass, QuietAt, AreOrders, Locators;
    if schedule != [] {
      var n := |schedule| - 1;
      assert schedule[n] in schedule;
      GrowingPasses(ms, inv, schedule[..n]);
      StopsOnlyWhenQuiet(ms, schedule[n], Passes(ms, schedule[..n]));
    }
  }

  lemma SomeOrders(ms: seq<Module>) returns (orders: seq<seq<string>>)
    ensures AreOrders(ms, orders)
  {
    orders := seq(|ms|, i requires 0 <= i < |ms| => SortedStrings(ms[i].constants.Keys));
    forall i | 0 <= i < |ms| ensures IsOrder(ms[i], orders[i]) {
      StrLtStrictTotal();
    }
  }

  lemma SomeSchedule(ms: seq<Module>, n: nat) returns (schedule: seq<seq<seq<string>>>)
    ensures IsSchedule(ms, schedule) && |schedule| == n
  {
    var orders := SomeOrders(ms);
    schedule := seq(n, _ => orders);
  }

  lemma GrowthStops(ms: seq<Module>, inv: Valuation -> bool)
    requires GrowsOnly(ms, inv)
    ensures StopsWithin(ms, |Locators(ms)|)
  {
    hide Pass, QuietAt, AreOrders, Locators;
    forall schedule | IsSchedule(ms, schedule) && |schedule| >= |Locators(ms)|
      ensures QuietAt(ms, Passes(ms, schedule))
    {
      var r := Passes(ms, schedule);
      GrowingPasses(ms, inv, schedule);
      if !QuietAt(ms, r) {
        var orders := SomeOrders(ms);
        StopsOnlyWhenQuiet(ms, orders, r);
        SubsetSize(Pass(ms, orders, r).0.Keys, Locators(ms));
        assert false;
      }
    }
  }

  lemma BelowQuietGrows(ms: seq<Module>, q: Valuation)
    requires NoShadowing(ms) && QuietAt(ms, q)
    ensures GrowsOnly(ms, r => Below(r, q))
  {
    hide Pass, QuietAt, NoShadowing, Locators, IsOrder;
    BelowEmpty(q);
    forall r | Below(r, q) ensures r.Keys <= Locators(ms) {
      QuietKeys(ms, r, q);
    }
    forall orders, r | AreOrders(ms, orders) && Below(r, q)
      ensures Below(Pass(ms, orders, r).0, q) && (Pass(ms, orders, r).1 ==> |Pass(ms, orders, r).0| > |r|)
    {
      PassStaysBelow(ms, orders, r, q);
    }
  }

  /** Without shadowing the loop stops, on whatever orders, exactly if some state of the
      project is quiet; it then needs at most one pass more than there are constants, and
      ends in the least quiet state. */
  lemma StopsIffQuietStateExists(ms: seq<Module>)
    requires NoShadowing(ms)
    ensures (exists q :: QuietAt(ms, q)) <==> (exists n :: StopsWithin(ms, n))
    ensures (exists n :: StopsWithin(ms, n)) ==> StopsWithin(ms, |Locators(ms)|)
  {
    hide QuietAt, NoShadowing, Locators;
    if q :| QuietAt(ms, q) {
      BelowQuietGrows(ms, q);
      GrowthStops(ms, r => Below(r, q));
    }
    if n :| StopsWithin(ms, n) {
      var schedule := SomeSchedule(ms, n);
      assert QuietAt(ms, Passes(ms, schedule));
    }
  }

  lemma StoppedAtLeast(ms: seq<Module>, schedule: seq<seq<seq<string>>>)
    requires NoShadowing(ms) && IsSchedule(ms, schedule) && QuietAt(ms, Passes(ms, schedule))
    ensures LeastQuiet(ms, Passes(ms, schedule))
  {
    hide QuietAt, NoShadowing;
    forall q | QuietAt(ms, q) ensures Below(Passes(ms, schedule), q) {
      BelowQuietGrows(ms, q);
      GrowingPasses(ms, r => Below(r, q), schedule);
    }
  }

  /** The least quiet state depends neither on the order of the modules nor on the order in
      which their constants are tried. */
  lemma LeastQuietUnique(ms: seq<Module>, others: seq<Module>, r: Valuation, q: Valuation)
    requires forall m :: m in ms <==> m in others
    requires LeastQuiet(ms, r) && LeastQuiet(others, q)
    ensures r == q
  {
    hide UpToDate;
    assert Locators(ms) == Locators(others);
    assert QuietAt(others, r) && QuietAt(ms, q);
    assert Below(r, q) && Below(q, r);
  }

  /** Modules that share a locator have to agree on its value before the loop can stop. */
  lemma QuietModulesAgree(ms: seq<Module>, r: Valuation, m: Module, n: Module, a: string, b: string)
    requires QuietAt(ms, r) && m in ms && n in ms && a in m.constants && b in n.constants
    requires Locator(m, a) == Locator(n, b) && ValueIn(m, a, r).Some? && ValueIn(n, b, r).Some?
    ensures ValueIn(m, a, r) == ValueIn(n, b, r) == Some(r[Locator(m, a)])
  {
    hide ValueIn, Locator;
    assert UpToDate(m, a, r) && UpToDate(n, b, r);
  }

  // ------------------------------------------------------------------- one owner per locator

  /** Each recorded constant still evaluates to its recorded value. */
  ghost predicate Backed(ms: seq<Module>, r: Valuation) {
    && r.Keys <= Locators(ms)
    && forall m, name :: m in ms && name in m.constants && Locator(m, name) in r ==> BackedAt(m, name, r)
  }

  ghost predicate BackedAt(m: Module, name: string, r: Valuation) {
    Locator(m, name) in r && ValueIn(m, name, r) == Some(r[Locator(m, name)])
  }

  lemma SameOwner(ms: seq<Module>, m: Module, n: Module, a: string, b: string)
    requires WellFormed(ms) && m in ms && n in ms && a in m.constants && b in n.constants
    requires Locator(m, a) == Locator(n, b)
    ensures m == n && a == b
  {
    hide Locator, WellFormed;
    var i :| 0 <= i < |ms| && ms[i] == m;
    var j :| 0 <= j < |ms| && ms[j] == n;
    LocatorInjective(ms, i, j, a, b);
  }

  lemma RecordKeepsBacked(ms: seq<Module>, m: Module, name: string, r: Valuation, v: string)
    requires WellFormed(ms) && NoShadowing(ms) && Backed(ms, r)
    requires m in ms && name in m.constants && Locator(m, name) !in r && ValueIn(m, name, r) == Some(v)
    ensures Backed(ms, r[Locator(m, name) := v])
  {
    hide ValueIn, Locator, Locators, NoShadowing, WellFormed;
    LocatorListed(ms, m, name);
    var q := r[Locator(m, name) := v];
    forall n, b | n in ms && b in n.constants && Locator(n, b) in q ensures BackedAt(n, b, q) {
      if Locator(n, b) == Locator(m, name) {
        SameOwner(ms, m, n, name, b);
      } else {
        assert BackedAt(n, b, r);
      }
      ValueGrows(ms, n, b, r, q);
    }
  }

  lemma {:induction false} VisitsKeepBacked(ms: seq<Module>, m: Module, names: seq<string>, start: Valuation)
    requires WellFormed(ms) && NoShadowing(ms) && Backed(ms, start)
    requires m in ms && (forall n :: n in names ==> n in m.constants)
    ensures var s := VisitAll(m, names, start);
      && Backed(ms, s.resolved) && Below(start, s.resolved) && Collapsed(s.context, ImportContext(m, start))
      && (if s.changed then |s.resolved| > |start| else s.resolved == start)
  {
    hide ImportContext, Locator, Expression, LiteralString, Locators, NoShadowing, WellFormed, Collapsed, ValueIn;
    CollapsedReflexive(ImportContext(m, start));
    if names != [] {
      var init, last := names[..|names| - 1], names[|names| - 1];
      assert last in names;
      VisitsKeepBacked(ms, m, init, start);
      var s := VisitAll(m, init, start);
      VisitFindsValue(m, last, start, s.context);
      if ValueIn(m, last, start).Some? {
        ValueGrows(ms, m, last, start, s.resolved);
        CollapseOne(ms, m, start, s.context, last, ValueIn(m, last, start).value);
        if Locator(m, last) in s.resolved {
          assert BackedAt(m, last, s.resolved);
        } else {
          RecordKeepsBacked(ms, m, last, s.resolved, ValueIn(m, last, start).value);
        }
      }
    }
  }

  lemma {:induction false} PassKeepsBacked(ms: seq<Module>, orders: seq<seq<string>>, r: Valuation)
    requires WellFormed(ms) && NoShadowing(ms) && Backed(ms, r)
    requires |orders| <= |ms| && forall i :: 0 <= i < |orders| ==> IsOrder(ms[i], orders[i])
    ensures Backed(ms, Pass(ms, orders, r).0)
    ensures if Pass(ms, orders, r).1 then |Pass(ms, orders, r).0| > |r| else Pass(ms, orders, r).0 == r
  {
    hide VisitAll, IsOrder, Backed, WellFormed, NoShadowing;
    if orders != [] {
      var n := |orders| - 1;
      PassKeepsBacked(ms, orders[..n], r);
      OrderMembers(ms[n], orders[n]);
      VisitsKeepBacked(ms, ms[n], orders[n], Pass(ms, orders[..n], r).0);
    }
  }

  lemma BackedGrows(ms: seq<Module>)
    requires WellFormed(ms) && NoShadowing(ms)
    ensures GrowsOnly(ms, r => Backed(ms, r))
  {
    hide Pass, NoShadowing, WellFormed, IsOrder;
    forall orders, r | AreOrders(ms, orders) && Backed(ms, r)
      ensures Backed(ms, Pass(ms, orders, r).0) && (Pass(ms, orders, r).1 ==> |Pass(ms, orders, r).0| > |r|)
    {
      PassKeepsBacked(ms, orders, r);
    }
  }

  /** With one owner for each locator and no shadowing the loop stops on every project. */
  lemma WellFormedStops(ms: seq<Module>)
    requires WellFormed(ms) && NoShadowing(ms)
    ensures StopsWithin(ms, |Locators(ms)|)
  {
    BackedGrows(ms);
    GrowthStops(ms, r => Backed(ms, r));
  }

  // ----------------------------------------------------------- the least solution, declared

  /** The values that a module's expressions see when the project constants have the values
      in `r`: imported names first, then the module's own. */
  function View(m: Module, r: Valuation): Valuation {
    (map id | id in m.constants && Locator(m, id) in r :: r[Locator(m, id)])
    + (map alias | alias in m.imports && m.imports[alias] in r :: r[m.imports[alias]])
  }

  /** Whatever one step of evaluation produces is already recorded. */
  ghost predicate ClosedUnderEvaluation(ms: seq<Module>, r: Valuation) {
    && r.Keys <= Locators(ms)
    && forall m, name :: m in ms && name in m.constants && Eval(m.constants[name], View(m, r)).Some?
         ==> Recorded(r, Locator(m, name), Eval(m.constants[name], View(m, r)).value)
  }

  /** Every recorded value is produced by one step of evaluation. */
  ghost predicate Supported(ms: seq<Module>, r: Valuation) {
    && r.Keys <= Locators(ms)
    && forall m, name :: m in ms && name in m.constants && Locator(m, name) in r
         ==> Eval(m.constants[name], View(m, r)) == Some(r[Locator(m, name)])
  }

  ghost predicate LeastSolution(ms: seq<Module>, r: Valuation) {
    && ClosedUnderEvaluation(ms, r)
    && Supported(ms, r)
    && forall other :: ClosedUnderEvaluation(ms, other) ==> Below(r, other)
  }

  lemma SolutionRecords(ms: seq<Module>, m: Module, name: string, other: Valuation)
    requires ClosedUnderEvaluation(ms, other) && m in ms && name in m.constants
    requires Eval(m.constants[name], View(m, other)).Some?
    ensures Recorded(other, Locator(m, name), Eval(m.constants[name], View(m, other)).value)
  {
  }

  lemma ViewShowsOwn(ms: seq<Module>, m: Module, id: string, r: Valuation)
    requires NoShadowing(ms) && m in ms && id in m.constants && r.Keys <= Locators(ms) && Locator(m, id) in r
    ensures id in View(m, r) && View(m, r)[id] == r[Locator(m, id)]
  {
    hide Locator, Locators;
  }

  /** What a module's table means does not exceed what a closed valuation shows the module. */
  lemma {:induction false} MeaningBelowView(ms: seq<Module>, m: Module, other: Valuation, k: nat)
    requires m in ms && NoShadowing(ms) && ClosedUnderEvaluation(ms, other)
    ensures Below(Known(ImportContext(m, other), k), View(m, other))
  {
    BelowEmpty(View(m, other));
    if k > 0 {
      hide Below, Step, ImportContext, View, ClosedUnderEvaluation, NoShadowing;
      MeaningBelowView(ms, m, other, k - 1);
      StepBelowView(ms, m, other, Known(ImportContext(m, other), k - 1));
    }
  }

  lemma StepBelowView(ms: seq<Module>, m: Module, other: Valuation, before: Valuation)
    requires m in ms && NoShadowing(ms) && ClosedUnderEvaluation(ms, other) && Below(before, View(m, other))
    ensures Below(Step(ImportContext(m, other), before), View(m, other))
  {
    var c := ImportContext(m, other);
    forall id | id in Step(c, before) ensures id in View(m, other) && View(m, other)[id] == Step(c, before)[id] {
      EvalMonotone(c[id], before, View(m, other));
      if id in m.imports && m.imports[id] in other {
        assert c[id] == Str(other[m.imports[id]]);
      } else {
        assert c[id] == m.constants[id];
        SolutionRecords(ms, m, id, other);
        ViewShowsOwn(ms, m, id, other);
      }
    }
  }

  /** A closed valuation is a quiet state, so least quiet states are least of these as well. */
  lemma ClosedIsQuiet(ms: seq<Module>, other: Valuation)
    requires NoShadowing(ms) && ClosedUnderEvaluation(ms, other)
    ensures QuietAt(ms, other)
  {
    hide ImportContext, View, Known, Eval, LiteralString, NoShadowing;
    forall m, name | m in ms && name in m.constants ensures UpToDate(m, name, other) {
      var c := ImportContext(m, other);
      LiteralIsMeaning(m.constants[name], c);
      MeaningBelowView(ms, m, other, |c|);
      if Eval(m.constants[name], Meaning(c)).Some? {
        EvalMonotone(m.constants[name], Meaning(c), View(m, other));
        SolutionRecords(ms, m, name, other);
      }
    }
  }

  lemma ViewBelowMeaning(ms: seq<Module>, m: Module, r: Valuation)
    requires m in ms && NoShadowing(ms) && Backed(ms, r)
    ensures Below(View(m, r), Meaning(ImportContext(m, r)))
  {
    var c := ImportContext(m, r);
    forall id | id in View(m, r) ensures id in Meaning(c) && Meaning(c)[id] == View(m, r)[id] {
      ViewEntry(ms, m, r, id);
    }
  }

  lemma ViewEntry(ms: seq<Module>, m: Module, r: Valuation, id: string)
    requires m in ms && NoShadowing(ms) && Backed(ms, r) && id in View(m, r)
    ensures id in Meaning(ImportContext(m, r)) && Meaning(ImportContext(m, r))[id] == View(m, r)[id]
  {
    hide Meaning, LiteralString, Locator, Locators;
    var c := ImportContext(m, r);
    MeaningIsFixedPoint(c);
    if id in m.imports && m.imports[id] in r {
      assert c[id] == Str(r[m.imports[id]]);
    } else {
      assert BackedAt(m, id, r);
      LiteralIsMeaning(m.constants[id], c);
      assert c[id] == m.constants[id];
    }
  }

  lemma MeaningIsView(ms: seq<Module>, m: Module, r: Valuation)
    requires m in ms && NoShadowing(ms) && Backed(ms, r) && ClosedUnderEvaluation(ms, r)
    ensures Meaning(ImportContext(m, r)) == View(m, r)
  {
    hide ImportContext, View, Known, Below, Backed, ClosedUnderEvaluation, NoShadowing;
    MeaningBelowView(ms, m, r, |ImportContext(m, r)|);
    ViewBelowMeaning(ms, m, r);
    BelowBothWays(Meaning(ImportContext(m, r)), View(m, r));
  }

  lemma BelowBothWays(a: Valuation, b: Valuation)
    requires Below(a, b) && Below(b, a)
    ensures a == b
  {
  }

  lemma LeastQuietIsBacked(ms: seq<Module>, r: Valuation)
    requires WellFormed(ms) && NoShadowing(ms) && LeastQuiet(ms, r)
    ensures Backed(ms, r)
  {
    hide QuietAt, Backed, WellFormed, NoShadowing;
    WellFormedStops(ms);
    var schedule := SomeSchedule(ms, |Locators(ms)|);
    StoppedAtLeast(ms, schedule);
    LeastQuietUnique(ms, ms, r, Passes(ms, schedule));
    BackedGrows(ms);
    GrowingPasses(ms, r => Backed(ms, r), schedule);
  }

  /** With one owner for each locator the least quiet state is the least solution of one-step
      evaluation, in which every value is produced by its own expression. */
  lemma LeastQuietIsLeastSolution(ms: seq<Module>, r: Valuation)
    requires WellFormed(ms) && NoShadowing(ms) && LeastQuiet(ms, r)
    ensures LeastSolution(ms, r) && Backed(ms, r)
  {
    hide Meaning, ImportContext, Locator, Locators, View, Eval, Below, LiteralString, NoShadowing, WellFormed;
    LeastQuietIsBacked(ms, r);
    forall m, name | m in ms && name in m.constants && Eval(m.constants[name], View(m, r)).Some?
      ensures Recorded(r, Locator(m, name), Eval(m.constants[name], View(m, r)).value)
    {
      ViewBelowMeaning(ms, m, r);
      EvalMonotone(m.constants[name], View(m, r), Meaning(ImportContext(m, r)));
      LiteralIsMeaning(m.constants[name], ImportContext(m, r));
      assert UpToDate(m, name, r);
    }
    assert ClosedUnderEvaluation(ms, r);
    forall m, name | m in ms && name in m.constants && Locator(m, name) in r
      ensures Eval(m.constants[name], View(m, r)) == Some(r[Locator(m, name)])
    {
      MeaningIsView(ms, m, r);
      LiteralIsMeaning(m.constants[name], ImportContext(m, r));
      assert BackedAt(m, name, r);
    }
    forall other | ClosedUnderEvaluation(ms, other) ensures Below(r, other) {
      ClosedIsQuiet(ms, other);
    }
  }

  /** The least solution depends only on the set of modules. */
  lemma LeastSolutionUnique(ms: seq<Module>, others: seq<Module>, r: Valuation, q: Valuation)
    requires forall m :: m in ms <==> m in others
    requires LeastSolution(ms, r) && LeastSolution(others, q)
    ensures r == q
  {
    assert Locators(ms) == Locators(others);
    assert ClosedUnderEvaluation(ms, q) && ClosedUnderEvaluation(others, r);
    assert Below(r, q) && Below(q, r);
  }

  // -------------------------------------------------------------------- the rewritten tables

  /** Imported constants and own constants become literals. An own constant whose value is
      the empty string is falsy and keeps its expression (line 565). */
  function FinalConstants(m: Module, resolved: Valuation): Context {
    ImportContext(m, resolved) + OwnLiterals(m, resolved)
  }

  function OwnLiterals(m: Module, resolved: Valuation): (own: Context)
    ensures own.Keys <= m.constants.Keys
  {
    map name | name in m.constants && Locator(m, name) in resolved && resolved[Locator(m, name)] != "" ::
      Str(resolved[Locator(m, name)])
  }

  lemma FinalEntry(ms: seq<Module>, m: Module, r: Valuation, id: string)
    requires m in ms && NoShadowing(ms) && Backed(ms, r) && id in FinalConstants(m, r)
    ensures CollapsedAt(FinalConstants(m, r), ImportContext(m, r), id)
  {
    hide Meaning, Eval, Locator, NoShadowing, Locators, LiteralString;
    if id in OwnLiterals(m, r) {
      OwnEntry(ms, m, id, r);
      assert BackedAt(m, id, r);
      LiteralIsMeaning(m.constants[id], ImportContext(m, r));
      MeaningIsFixedPoint(ImportContext(m, r));
    }
  }

  /** The entries of a rewritten table: an own constant with a nonempty value is that literal;
      other names have what the import gives, or else their own expression. */
  lemma FinalEntries(m: Module, r: Valuation, id: string)
    ensures var table, imported := FinalConstants(m, r), id in m.imports && m.imports[id] in r;
      && (id in table <==> id in m.constants || imported)
      && (id in m.constants && Locator(m, id) in r && r[Locator(m, id)] != "" ==>
            table[id] == Str(r[Locator(m, id)]))
      && (!(id in m.constants && Locator(m, id) in r && r[Locator(m, id)] != "") ==>
            && (imported ==> table[id] == Str(r[m.imports[id]]))
            && (!imported && id in m.constants ==> table[id] == m.constants[id]))
  {
    hide Locator;
  }

  lemma FinalKeys(m: Module, r: Valuation)
    ensures FinalConstants(m, r).Keys == ImportContext(m, r).Keys
  {
    hide OwnLiterals, ImportedLiterals;
  }

  lemma FinalConstantsCollapse(ms: seq<Module>, m: Module, r: Valuation)
    requires m in ms && NoShadowing(ms) && Backed(ms, r)
    ensures Collapsed(FinalConstants(m, r), ImportContext(m, r))
  {
    hide CollapsedAt, FinalConstants, ImportContext, Backed, NoShadowing;
    FinalKeys(m, r);
    forall id | id in FinalConstants(m, r) ensures CollapsedAt(FinalConstants(m, r), ImportContext(m, r), id) {
      FinalEntry(ms, m, r, id);
    }
  }

  /** What the rewritten table of a module evaluates every expression to. */
  ghost predicate TableShows(table: Context, m: Module, r: Valuation) {
    forall node :: LiteralString(node, table, {}) == Eval(node, View(m, r))
  }

  lemma FinalConstantsShowView(ms: seq<Module>, m: Module, r: Valuation)
    requires m in ms && NoShadowing(ms) && Backed(ms, r) && ClosedUnderEvaluation(ms, r)
    ensures TableShows(FinalConstants(m, r), m, r)
  {
    FinalConstantsCollapse(ms, m, r);
    CollapsedSameMeaning(FinalConstants(m, r), ImportContext(m, r));
    MeaningIsView(ms, m, r);
    forall node ensures LiteralString(node, FinalConstants(m, r), {}) == Eval(node, View(m, r)) {
      LiteralIsMeaning(node, FinalConstants(m, r));
    }
  }

  /** `_resolve_project_constants`, on any project on which the loop stops. Without shadowing
      the solution is the least quiet state; with one owner for each locator besides, every
      expression of every module has, in the rewritten tables, its value under the least
      solution. */
  method ResolveProjectConstants(ms: seq<Module>, ghost limit: nat)
    returns (result: seq<Module>, ghost solution: Valuation)
    requires StopsWithin(ms, limit)
    ensures QuietAt(ms, solution) && |result| == |ms|
    ensures forall i :: 0 <= i < |ms| ==> result[i] == ms[i].(constants := FinalConstants(ms[i], solution))
    ensures NoShadowing(ms) ==> LeastQuiet(ms, solution)
    ensures NoShadowing(ms) && WellFormed(ms) ==>
      LeastSolution(ms, solution) && forall i :: 0 <= i < |ms| ==> TableShows(result[i].constants, ms[i], solution)
  {
    hide Backed, TableShows, FinalConstants, QuietAt, LeastQuiet, LeastSolution, WellFormed, NoShadowing;
    var resolved, schedule := ResolvePasses(ms, limit);
    solution := resolved;
    result := [];
    for i := 0 to |ms|
      invariant |result| == i && forall j :: 0 <= j < i ==>
        result[j] == ms[j].(constants := FinalConstants(ms[j], solution))
    {
      result := result + [ms[i].(constants := FinalConstants(ms[i], resolved))];
    }
    if NoShadowing(ms) {
      StoppedAtLeast(ms, schedule);
      if WellFormed(ms) {
        SolutionShown(ms, solution);
      }
    }
  }

  lemma SolutionShown(ms: seq<Module>, r: Valuation)
    requires NoShadowing(ms) && WellFormed(ms) && LeastQuiet(ms, r)
    ensures LeastSolution(ms, r)
    ensures forall m :: m in ms ==> TableShows(FinalConstants(m, r), m, r)
  {
    hide TableShows, FinalConstants, LeastQuiet, WellFormed, NoShadowing, Backed, ClosedUnderEvaluation;
    LeastQuietIsLeastSolution(ms, r);
    forall m | m in ms ensures TableShows(FinalConstants(m, r), m, r) {
      FinalConstantsShowView(ms, m, r);
    }
  }
}
