/** Projects on which the constant loop of scripts/check_provenance_fields.py, lines 539-556,
    never stops or stops although an import is shadowed. */
module ConstantExamples {
  import opened Results
  import opened Collections
  import opened Graphs
  import opened LiteralStrings
  import opened ProjectConstants
  import opened ShadowedConstants

  lemma SumValue(m: Module, name: string, r: Valuation, id: string, value: string, suffix: string)
    requires name in m.constants && m.constants[name] == Add(Name(id), Str(suffix))
    requires id in ImportContext(m, r) && ImportContext(m, r)[id] == Str(value)
    ensures ValueIn(m, name, r) == Some(value + suffix)
  {
    var c := ImportContext(m, r);
    assert LiteralString(Name(id), c, {}) == Some(value);
    assert LiteralString(Str(suffix), c, {}) == Some(suffix);
  }

  // ------------------------------------------------------------ a cycle through a shadowed import

  /** Module `a` imports X from `b` and also assigns X; `b` builds its X from `a.Y`. */
  const SHADOWING_A := Module("a", map["X" := "b.X"], map["X" := Str("1"), "Y" := Add(Name("X"), Str("x"))])
  const SHADOWING_B := Module("b", map["Y" := "a.Y"], map["X" := Add(Name("Y"), Str("y"))])
  const SHADOWING_PROJECT: seq<Module> := [SHADOWING_A, SHADOWING_B]

  lemma ShadowingLocators()
    ensures SHADOWING_A in SHADOWING_PROJECT && SHADOWING_B in SHADOWING_PROJECT
    ensures Locator(SHADOWING_A, "Y") == "a.Y" && Locator(SHADOWING_B, "X") == "b.X" &&
      Locator(SHADOWING_A, "X") == "a.X"
    ensures WellFormed(SHADOWING_PROJECT)
  {
    assert SHADOWING_PROJECT[0] == SHADOWING_A && SHADOWING_PROJECT[1] == SHADOWING_B;
  }

  /** In a quiet state `a.Y` is the imported X and an x. */
  lemma ShadowingValues(r: Valuation)
    requires QuietAt(SHADOWING_PROJECT, r)
    ensures "a.Y" in r && "b.X" in r
    ensures ValueIn(SHADOWING_A, "Y", r) == Some(r["b.X"] + "x") == Some(r["a.Y"])
    ensures ValueIn(SHADOWING_B, "X", r) == Some(r["a.Y"] + "y")
  {
    hide ValueIn;
    ShadowingLocators();
    var a, b := SHADOWING_A, SHADOWING_B;
    var x := if "b.X" in r then r["b.X"] else "1";
    SumValue(a, "Y", r, "X", x, "x");
    assert UpToDate(a, "Y", r);
    SumValue(b, "X", r, "Y", r["a.Y"], "y");
    assert UpToDate(b, "X", r);
  }

  /** The dependencies of this project form a cycle that adds text, so no state is quiet and
      the loop never ends. */
  lemma ShadowingNeverSettles(r: Valuation)
    ensures !QuietAt(SHADOWING_PROJECT, r)
  {
    hide QuietAt, ValueIn, LiteralString;
    if QuietAt(SHADOWING_PROJECT, r) {
      ShadowingLocators();
      ShadowingValues(r);
      var a, b := SHADOWING_A, SHADOWING_B;
      assert Follows(ImportContext(a, r), Expression(a, "Y"), ["X"]) && ReadsThrough(a, "Y", ["X"], r, "b.X");
      assert Follows(ImportContext(b, r), Expression(b, "X"), ["Y"]) && ReadsThrough(b, "X", ["Y"], r, "a.Y");
      var g := ReadGraph(SHADOWING_PROJECT, r);
      assert "b.X" in Successors(g, "a.Y") && "a.Y" in Successors(g, "b.X");
      ReachEdge(g, "a.Y", "b.X");
      ReachEdge(g, "b.X", "a.Y");
      CyclesAddNothing(SHADOWING_PROJECT, r, "a.Y", "b.X");
      assert false;
    }
  }

  // -------------------------------------------------------------- two modules of one name

  /** `x.py` beside `x/__init__.py`: both are module `x`. */
  const DUPLICATE_FILE := Module("x", map[], map["X" := Str("1")])
  const DUPLICATE_PACKAGE := Module("x", map[], map["X" := Str("2")])
  const DUPLICATE_PROJECT: seq<Module> := [DUPLICATE_FILE, DUPLICATE_PACKAGE]

  /** Nothing is shadowed, and still no state is quiet: each pass writes `x.X` twice. */
  lemma DuplicateNeverSettles(r: Valuation)
    ensures NoShadowing(DUPLICATE_PROJECT) && !WellFormed(DUPLICATE_PROJECT)
    ensures !QuietAt(DUPLICATE_PROJECT, r)
  {
    var m, n := DUPLICATE_FILE, DUPLICATE_PACKAGE;
    assert DUPLICATE_PROJECT[0] == m && DUPLICATE_PROJECT[1] == n;
    assert "X" in m.constants.Keys * n.constants.Keys;
    assert ValueIn(m, "X", r) == Some("1") && ValueIn(n, "X", r) == Some("2");
    if QuietAt(DUPLICATE_PROJECT, r) {
      QuietModulesAgree(DUPLICATE_PROJECT, r, m, n, "X", "X");
      assert false;
    }
  }

  // ------------------------------------------------------------------ a shadowed import extended

  /** `from b import X; X = X + "s"; Y = X + "y"`. */
  const EXTENDING_A := Module("a", map["X" := "b.X"],
                              map["X" := Add(Name("X"), Str("s")), "Y" := Add(Name("X"), Str("y"))])
  const EXTENDING_B := Module("b", map[], map["X" := Str("0")])
  const EXTENDING_PROJECT: seq<Module> := [EXTENDING_A, EXTENDING_B]

  /** A shadowed import without a cycle does no harm. */
  lemma ExtendingStops()
    ensures !NoShadowing(EXTENDING_PROJECT) && StopsWithin(EXTENDING_PROJECT, 3)
  {
    var a, b := EXTENDING_A, EXTENDING_B;
    var p := Plan({}, map["b.X" := 0, "a.X" := 1, "a.Y" := 2]);
    assert EXTENDING_PROJECT[0] == a && EXTENDING_PROJECT[1] == b;
    assert Locator(a, "X") == "a.X" && Locator(a, "Y") == "a.Y" && Locator(b, "X") == "b.X";
    LocatorListed(EXTENDING_PROJECT, b, "X");
    assert "b.X" in Locators(EXTENDING_PROJECT);
    assert Mentions(a.constants["X"]) == {"X"} && Mentions(a.constants["Y"]) == {"X"} &&
      Mentions(b.constants["X"]) == {};
    forall m, name | m in EXTENDING_PROJECT && name in m.constants ensures Placed(EXTENDING_PROJECT, p, m, name) {
      assert m == a || m == b;
    }
    hide Locator, Locators, Mentions, Placed;
    OrderedStops(EXTENDING_PROJECT, p, 3);
  }

  // -------------------------------------------------------- copies around a cycle, in two orders

  /** A module that imports X from the next one, assigns X as well and passes X on as Y. */
  function Relay(name: string, next: string, seed: string): Module {
    Module(name, map["X" := next + ".Y"], map["X" := Str(seed), "Y" := Name("X")])
  }

  const RELAY_A := Relay("a", "b", "1")
  const RELAY_B := Relay("b", "c", "2")
  const RELAY_C := Relay("c", "a", "3")
  const FORWARD: seq<Module> := [RELAY_A, RELAY_B, RELAY_C]
  const BACKWARD: seq<Module> := [RELAY_C, RELAY_B, RELAY_A]

  lemma RelayOrders(m: Module, order: seq<string>)
    requires m.constants.Keys == {"X", "Y"} && IsOrder(m, order)
    ensures order == ["X", "Y"] || order == ["Y", "X"]
  {
    ElementsCount(order);
    assert |order| == 2;
    OrderMembers(m, order);
    assert order[0] in order && order[1] in order;
  }

  lemma TwoVisits(m: Module, a: string, b: string, r: Valuation)
    ensures VisitAll(m, [a, b], r) == Visit(m, b, Visit(m, a, PassState(r, ImportContext(m, r), false)))
  {
    hide Visit;
    assert [a, b][..1] == [a] && [a][..0] == [];
    assert VisitAll(m, [a], r) == Visit(m, a, VisitAll(m, [], r));
  }

  /** Visiting one of a relay's constants, given the table's entry for X. */
  lemma RelayVisit(name: string, next: string, seed: string, s: PassState, v: string)
    requires "X" in s.context && s.context["X"] == Str(v)
    ensures var m := Relay(name, next, seed);
      && Visit(m, "X", s) == (
           if Recorded(s.resolved, name + "." + "X", seed) then s
           else PassState(s.resolved[name + "." + "X" := seed], s.context["X" := Str(seed)], true))
      && Visit(m, "Y", s) == (
           if Recorded(s.resolved, name + "." + "Y", v) then s
           else PassState(s.resolved[name + "." + "Y" := v], s.context["Y" := Str(v)], true))
  {
    assert LiteralString(Name("X"), s.context, {}) == Some(v);
  }

  lemma RelayEntry(name: string, next: string, seed: string, r: Valuation)
    ensures var c := ImportContext(Relay(name, next, seed), r);
      "X" in c && c["X"] == Str(if next + ".Y" in r then r[next + ".Y"] else seed)
  {
  }

  lemma SetAgain(r: Valuation, x: string, v: string)
    requires Recorded(r, x, v)
    ensures r[x := v] == r
  {
  }

  /** Once its X is recorded, a relay copies the next relay's Y. */
  lemma RelayCopies(name: string, next: string, seed: string, order: seq<string>, r: Valuation)
    requires IsOrder(Relay(name, next, seed), order)
    requires Recorded(r, name + "." + "X", seed) && next + ".Y" in r
    ensures VisitAll(Relay(name, next, seed), order, r).resolved == r[name + "." + "Y" := r[next + ".Y"]]
  {
    var m, v := Relay(name, next, seed), r[next + ".Y"];
    var c := ImportContext(m, r);
    RelayOrders(m, order);
    TwoVisits(m, "X", "Y", r);
    TwoVisits(m, "Y", "X", r);
    DifferentNames(m, "X", "Y");
    RelayEntry(name, next, seed, r);
    hide Visit, ImportContext, VisitAll;
    var start := PassState(r, c, false);
    RelayVisit(name, next, seed, start, v);
    RelayVisit(name, next, seed, Visit(m, "Y", start), v);
    if Recorded(r, name + "." + "Y", v) {
      SetAgain(r, name + "." + "Y", v);
    }
  }

  /** The first visit records its X and some Y. */
  lemma RelayStarts(name: string, next: string, seed: string, order: seq<string>, r: Valuation) returns (v: string)
    requires IsOrder(Relay(name, next, seed), order) && name + "." + "X" !in r && name + "." + "Y" !in r
    ensures VisitAll(Relay(name, next, seed), order, r).resolved == r[name + "." + "X" := seed][name + "." + "Y" := v]
    ensures order == ["X", "Y"] ==> v == seed
  {
    var m := Relay(name, next, seed);
    var c := ImportContext(m, r);
    RelayOrders(m, order);
    TwoVisits(m, "X", "Y", r);
    TwoVisits(m, "Y", "X", r);
    DifferentNames(m, "X", "Y");
    RelayEntry(name, next, seed, r);
    hide Visit, ImportContext, VisitAll;
    var start, first := PassState(r, c, false), if next + ".Y" in r then r[next + ".Y"] else seed;
    v := if order == ["X", "Y"] then seed else first;
    RelayVisit(name, next, seed, start, first);
    RelayVisit(name, next, seed, Visit(m, "X", start), seed);
    RelayVisit(name, next, seed, Visit(m, "Y", start), first);
    TwoUpdates(r, name + "." + "X", seed, name + "." + "Y", v);
  }

  lemma TwoUpdates(r: Valuation, x: string, v: string, y: string, w: string)
    requires x != y
    ensures r[x := v][y := w] == r[y := w][x := v]
  {
  }

  /** Each relay has recorded its own X, and the Ys are as given. */
  ghost predicate Ring(r: Valuation, a: string, b: string, c: string) {
    && r.Keys == {"a.X", "a.Y", "b.X", "b.Y", "c.X", "c.Y"}
    && r["a.X"] == "1" && r["b.X"] == "2" && r["c.X"] == "3"
    && r["a.Y"] == a && r["b.Y"] == b && r["c.Y"] == c
  }

  lemma RelayNames()
    ensures "a" + "." + "X" == "a.X" && "a" + "." + "Y" == "a.Y" && "a" + ".Y" == "a.Y"
    ensures "b" + "." + "X" == "b.X" && "b" + "." + "Y" == "b.Y" && "b" + ".Y" == "b.Y"
    ensures "c" + "." + "X" == "c.X" && "c" + "." + "Y" == "c.Y" && "c" + ".Y" == "c.Y"
  {
  }

  lemma ThreeModules(x: Module, y: Module, z: Module, orders: seq<seq<string>>, r: Valuation)
    requires AreOrders([x, y, z], orders)
    ensures Pass([x, y, z], orders, r).0 ==
            VisitAll(z, orders[2], VisitAll(y, orders[1], VisitAll(x, orders[0], r).resolved).resolved).resolved
  {
    hide VisitAll, IsOrder;
    var ms := [x, y, z];
    assert orders[..2][..1] == orders[..1] && orders[..1][..0] == [] && orders[..3] == orders;
    assert Pass(ms, orders[..1], r).0 == VisitAll(x, orders[0], r).resolved;
    assert Pass(ms, orders[..2], r).0 == VisitAll(y, orders[1], Pass(ms, orders[..1], r).0).resolved;
  }

  /** In the order a, b, c a pass turns the ring by one place, the last place by two. */
  lemma ForwardPass(orders: seq<seq<string>>, r: Valuation, a: string, b: string, c: string)
    requires AreOrders(FORWARD, orders) && Ring(r, a, b, c)
    ensures Ring(Pass(FORWARD, orders, r).0, b, c, b)
  {
    hide VisitAll, Pass, IsOrder;
    RelayNames();
    ThreeModules(RELAY_A, RELAY_B, RELAY_C, orders, r);
    assert IsOrder(RELAY_A, orders[0]) && IsOrder(RELAY_B, orders[1]) && IsOrder(RELAY_C, orders[2]);
    RelayCopies("a", "b", "1", orders[0], r);
    var r1 := r["a.Y" := b];
    RelayCopies("b", "c", "2", orders[1], r1);
    var r2 := r1["b.Y" := c];
    RelayCopies("c", "a", "3", orders[2], r2);
  }

  /** In the order c, b, a everything is copied from one relay. */
  lemma BackwardPass(orders: seq<seq<string>>, r: Valuation, a: string, b: string, c: string)
    requires AreOrders(BACKWARD, orders) && Ring(r, a, b, c)
    ensures Ring(Pass(BACKWARD, orders, r).0, a, a, a)
  {
    hide VisitAll, Pass, IsOrder;
    RelayNames();
    ThreeModules(RELAY_C, RELAY_B, RELAY_A, orders, r);
    assert IsOrder(RELAY_C, orders[0]) && IsOrder(RELAY_B, orders[1]) && IsOrder(RELAY_A, orders[2]);
    RelayCopies("c", "a", "3", orders[0], r);
    var r1 := r["c.Y" := a];
    RelayCopies("b", "c", "2", orders[1], r1);
    var r2 := r1["b.Y" := a];
    RelayCopies("a", "b", "1", orders[2], r2);
  }

  lemma FirstPass(orders: seq<seq<string>>) returns (a: string, b: string, c: string)
    requires AreOrders(FORWARD, orders)
    ensures Ring(Pass(FORWARD, orders, map[]).0, a, b, c)
    ensures orders == [["X", "Y"], ["X", "Y"], ["X", "Y"]] ==> a == "1" && b == "2" && c == "3"
  {
    hide VisitAll, Pass, IsOrder;
    RelayNames();
    ThreeModules(RELAY_A, RELAY_B, RELAY_C, orders, map[]);
    assert IsOrder(RELAY_A, orders[0]) && IsOrder(RELAY_B, orders[1]) && IsOrder(RELAY_C, orders[2]);
    var r: Valuation := map[];
    a := RelayStarts("a", "b", "1", orders[0], r);
    var r1 := r["a.X" := "1"]["a.Y" := a];
    b := RelayStarts("b", "c", "2", orders[1], r1);
    var r2 := r1["b.X" := "2"]["b.Y" := b];
    c := RelayStarts("c", "a", "3", orders[2], r2);
  }

  lemma FirstBackwardPass(orders: seq<seq<string>>) returns (a: string, b: string, c: string)
    requires AreOrders(BACKWARD, orders)
    ensures Ring(Pass(BACKWARD, orders, map[]).0, a, b, c)
  {
    hide VisitAll, Pass, IsOrder;
    RelayNames();
    ThreeModules(RELAY_C, RELAY_B, RELAY_A, orders, map[]);
    assert IsOrder(RELAY_C, orders[0]) && IsOrder(RELAY_B, orders[1]) && IsOrder(RELAY_A, orders[2]);
    var r: Valuation := map[];
    c := RelayStarts("c", "a", "3", orders[0], r);
    var r1 := r["c.X" := "3"]["c.Y" := c];
    b := RelayStarts("b", "c", "2", orders[1], r1);
    var r2 := r1["b.X" := "2"]["b.Y" := b];
    a := RelayStarts("a", "b", "1", orders[2], r2);
  }

  ghost function Repeated(n: nat): seq<seq<seq<string>>> {
    seq(n, _ => [["X", "Y"], ["X", "Y"], ["X", "Y"]])
  }

  lemma RepeatedIsSchedule(n: nat)
    ensures IsSchedule(FORWARD, Repeated(n))
    ensures AreOrders(FORWARD, [["X", "Y"], ["X", "Y"], ["X", "Y"]])
  {
    var order := ["X", "Y"];
    assert Elements(order) == {"X", "Y"};
    assert IsOrder(RELAY_A, order) && IsOrder(RELAY_B, order) && IsOrder(RELAY_C, order);
  }

  /** From the second pass on, the ring alternates between two states. */
  lemma {:induction false} ForwardAlternates(n: nat)
    requires n >= 2
    ensures IsSchedule(FORWARD, Repeated(n))
    ensures Ring(Passes(FORWARD, Repeated(n)), "2", "3", "2") || Ring(Passes(FORWARD, Repeated(n)), "3", "2", "3")
  {
    hide Ring, Pass, AreOrders;
    RepeatedIsSchedule(n);
    RepeatedIsSchedule(n - 1);
    var orders := [["X", "Y"], ["X", "Y"], ["X", "Y"]];
    assert Repeated(n)[..n - 1] == Repeated(n - 1);
    var before := Passes(FORWARD, Repeated(n - 1));
    if n == 2 {
      assert Repeated(1)[..0] == [] && Passes(FORWARD, []) == map[];
      assert before == Pass(FORWARD, orders, map[]).0;
      var a, b, c := FirstPass(orders);
      ForwardPass(orders, before, a, b, c);
    } else {
      ForwardAlternates(n - 1);
      if Ring(before, "2", "3", "2") {
        ForwardPass(orders, before, "2", "3", "2");
      } else {
        ForwardPass(orders, before, "3", "2", "3");
      }
    }
  }

  /** The order of the modules can decide: the same three modules, whose cycle adds no text,
      never settle in one order and settle within three passes in the other. */
  lemma ModuleOrderDecides(n: nat)
    ensures forall m :: m in FORWARD <==> m in BACKWARD
    ensures !StopsWithin(FORWARD, n)
    ensures StopsWithin(BACKWARD, 2)
  {
    ForwardNeverStops(n);
    forall schedule | IsSchedule(BACKWARD, schedule) && |schedule| >= 2
      ensures QuietAt(BACKWARD, Passes(BACKWARD, schedule))
    {
      BackwardSettles(schedule);
    }
  }

  lemma ForwardNeverStops(n: nat)
    ensures !StopsWithin(FORWARD, n)
  {
    hide Ring, Pass, AreOrders, QuietAt;
    ForwardAlternates(n + 2);
    var r := Passes(FORWARD, Repeated(n + 2));
    if QuietAt(FORWARD, r) {
      var orders := [["X", "Y"], ["X", "Y"], ["X", "Y"]];
      RepeatedIsSchedule(n);
      PassesRecordLocators(FORWARD, Repeated(n + 2));
      StopsOnlyWhenQuiet(FORWARD, orders, r);
      if Ring(r, "2", "3", "2") {
        ForwardPass(orders, r, "2", "3", "2");
      } else {
        ForwardPass(orders, r, "3", "2", "3");
      }
      RingsDiffer(r);
      assert false;
    }
  }

  lemma RingsDiffer(r: Valuation)
    ensures !(Ring(r, "2", "3", "2") && Ring(r, "3", "2", "3"))
  {
    if Ring(r, "2", "3", "2") {
      assert r["a.Y"] == "2";
    }
  }

  lemma {:induction false} BackwardSettles(schedule: seq<seq<seq<string>>>)
    requires IsSchedule(BACKWARD, schedule) && |schedule| >= 2
    ensures QuietAt(BACKWARD, Passes(BACKWARD, schedule))
    ensures exists v :: Ring(Passes(BACKWARD, schedule), v, v, v)
  {
    hide Ring, Pass, IsOrder, QuietAt;
    var n := |schedule| - 1;
    assert schedule[n] in schedule && schedule[n - 1] in schedule;
    var before := Passes(BACKWARD, schedule[..n]);
    var v: string;
    if n == 1 {
      assert schedule[..1] == [schedule[0]] && [schedule[0]][..0] == [] && Passes(BACKWARD, []) == map[];
      assert before == Pass(BACKWARD, schedule[0], map[]).0;
      var a, b, c := FirstBackwardPass(schedule[0]);
      BackwardPass(schedule[1], before, a, b, c);
      v := a;
    } else {
      BackwardSettles(schedule[..n]);
      var u :| Ring(before, u, u, u);
      BackwardPass(schedule[n], before, u, u, u);
      v := u;
    }
    var r := Passes(BACKWARD, schedule);
    assert Ring(r, v, v, v);
    PassesRecordLocators(BACKWARD, schedule);
    UniformIsQuiet(r, v);
  }

  lemma RelayQuiet(name: string, next: string, seed: string, r: Valuation)
    requires Recorded(r, name + "." + "X", seed) && next + ".Y" in r && Recorded(r, name + "." + "Y", r[next + ".Y"])
    ensures QuietModule(Relay(name, next, seed), r)
  {
    var m := Relay(name, next, seed);
    var c := ImportContext(m, r);
    RelayEntry(name, next, seed, r);
    hide ImportContext;
    assert LiteralString(Name("X"), c, {}) == Some(r[next + ".Y"]);
    assert LiteralString(Str(seed), c, {}) == Some(seed);
    assert UpToDate(m, "X", r) && UpToDate(m, "Y", r);
  }

  lemma ThreeQuiet(x: Module, y: Module, z: Module, r: Valuation)
    requires r.Keys <= Locators([x, y, z])
    requires QuietModule(x, r) && QuietModule(y, r) && QuietModule(z, r)
    ensures QuietAt([x, y, z], r)
  {
    hide UpToDate, Locators;
  }

  lemma UniformIsQuiet(r: Valuation, v: string)
    requires Ring(r, v, v, v) && r.Keys <= Locators(BACKWARD)
    ensures QuietAt(BACKWARD, r)
  {
    hide QuietModule, Locators, QuietAt;
    RelayNames();
    RelayQuiet("a", "b", "1", r);
    RelayQuiet("b", "c", "2", r);
    RelayQuiet("c", "a", "3", r);
    ThreeQuiet(RELAY_C, RELAY_B, RELAY_A, r);
  }
}
