/** scripts/check_provenance_fields.py: the registry checks on relocations and locators, the
    deletion-only baseline update, and the audit that compares source, registry and baseline. */
module ProvenanceBaseline {
  import opened Ordering
  import opened Results
  import opened Collections

  // ------------------------------------------------------------------ registry: relocations

  datatype Relocation = Relocation(fromPrefix: string, toPrefix: string)
  {
    predicate WellFormed() {
      && fromPrefix != [] && fromPrefix[|fromPrefix| - 1] == '.'
      && toPrefix != [] && toPrefix[|toPrefix| - 1] == '.'
      && fromPrefix != toPrefix
    }

    function SortKey(): seq<string> {
      [toPrefix, fromPrefix]
    }
  }

  datatype RelocationError = PrefixWithoutDot | SamePrefix | NotSorted | OverlappingDestinations

  predicate Overlap(a: Relocation, b: Relocation) {
    a.toPrefix <= b.toPrefix || b.toPrefix <= a.toPrefix
  }

  ghost predicate LegalRelocations(moves: seq<Relocation>) {
    && (forall m :: m in moves ==> m.WellFormed())
    && (forall i, j :: 0 <= i < j < |moves| ==> ListLt(moves[i].SortKey(), moves[j].SortKey()))
    && (forall i, j :: 0 <= i < j < |moves| ==> !Overlap(moves[i], moves[j]))
  }

  /** Comparing each entry with the one before it and with all accepted destinations
      accepts exactly the lists that are sorted and overlap-free throughout. */
  method LoadRelocations(items: seq<Relocation>) returns (r: Result<seq<Relocation>, RelocationError>)
    ensures r.Ok? <==> LegalRelocations(items)
    ensures r.Ok? ==> r.value == items
  {
    hide ListLt, Overlap, Relocation.SortKey;
    var i := 0;
    while i < |items|
      invariant 0 <= i <= |items| && LegalRelocations(items[..i])
    {
      var move := items[i];
      assert move in items;
      if move.fromPrefix == [] || move.fromPrefix[|move.fromPrefix| - 1] != '.'
         || move.toPrefix == [] || move.toPrefix[|move.toPrefix| - 1] != '.' {
        return Raised(PrefixWithoutDot);
      }
      if move.fromPrefix == move.toPrefix {
        return Raised(SamePrefix);
      }
      if i > 0 && !ListLt(items[i - 1].SortKey(), move.SortKey()) {
        return Raised(NotSorted);
      }
      if exists j :: 0 <= j < i && Overlap(items[j], move) {
        return Raised(OverlappingDestinations);
      }
      AcceptRelocation(items, i);
      i := i + 1;
    }
    assert items[..i] == items;
    r := Ok(items);
  }

  lemma AcceptRelocation(items: seq<Relocation>, i: nat)
    requires i < |items| && LegalRelocations(items[..i]) && items[i].WellFormed()
    requires i > 0 ==> ListLt(items[i - 1].SortKey(), items[i].SortKey())
    requires forall j :: 0 <= j < i ==> !Overlap(items[j], items[i])
    ensures LegalRelocations(items[..i + 1])
  {
    var moves := items[..i + 1];
    forall a | 0 <= a < i ensures ListLt(items[a].SortKey(), items[i].SortKey()) {
      if a < i - 1 {
        assert ListLt(items[..i][a].SortKey(), items[..i][i - 1].SortKey());
        ListLtTransitive(items[a].SortKey(), items[i - 1].SortKey(), items[i].SortKey());
      }
    }
    assert forall a :: 0 <= a < i ==> moves[a] == items[..i][a];
  }

  /** With destinations that do not overlap, at most one relocation matches a symbol. */
  lemma OneMatchAtMost(moves: seq<Relocation>, symbol: string, i: nat, j: nat)
    requires LegalRelocations(moves) && i < |moves| && j < |moves|
    requires moves[i].toPrefix <= symbol && moves[j].toPrefix <= symbol
    ensures i == j
  {
    PrefixesNest(moves[i].toPrefix, moves[j].toPrefix, symbol);
  }

  lemma PrefixesNest(a: string, b: string, s: string)
    requires a <= s && b <= s
    ensures a <= b || b <= a
  {
    assert a == s[..|a|] && b == s[..|b|];
  }

  function Rename(m: Relocation, symbol: string): string
    requires m.toPrefix <= symbol
  {
    m.fromPrefix + symbol[|m.toPrefix|..]
  }

  /** The old name of a symbol according to the first relocation that matches it. */
  function Previous(moves: seq<Relocation>, symbol: string): Option<string> {
    if moves == [] then None
    else if moves[0].toPrefix <= symbol then Some(Rename(moves[0], symbol))
    else Previous(moves[1..], symbol)
  }

  /** Stopping at the first match loses nothing on a legal registry. */
  lemma {:induction false} PreviousIsAnyMatch(moves: seq<Relocation>, symbol: string, former: string)
    requires LegalRelocations(moves)
    ensures Previous(moves, symbol) == Some(former)
       <==> exists m :: m in moves && m.toPrefix <= symbol && Rename(m, symbol) == former
  {
    if moves != [] {
      var rest := moves[1..];
      assert forall m :: m in moves <==> m == moves[0] || m in rest;
      if moves[0].toPrefix <= symbol {
        forall m | m in moves && m.toPrefix <= symbol ensures m == moves[0] {
          var j :| 0 <= j < |moves| && moves[j] == m;
          OneMatchAtMost(moves, symbol, 0, j);
        }
      } else {
        PreviousIsAnyMatch(rest, symbol, former);
      }
    }
  }

  // --------------------------------------------------------------------- registry: locators

  datatype Field = Field(symbol: string, aliases: seq<string>)
  {
    function Locators(): set<string> {
      {symbol} + Elements(aliases)
    }
  }

  datatype FieldError = SymbolsNotSorted | AliasesNotSorted | SymbolRepeatedAsAlias | LocatorDeclaredTwice

  ghost predicate LegalFields(fields: seq<Field>) {
    && (forall i, j :: 0 <= i < j < |fields| ==> StrLt(fields[i].symbol, fields[j].symbol))
    && (forall f :: f in fields ==> Ascending(StrLt, f.aliases) && f.symbol !in f.aliases)
    && (forall i, j :: 0 <= i < j < |fields| ==> fields[i].Locators() !! fields[j].Locators())
  }

  /** `registry.by_locator`: later entries overwrite earlier ones. */
  function ByLocator(fields: seq<Field>): (table: map<string, Field>)
    ensures forall x :: x in table ==> table[x] in fields && x in table[x].Locators()
    ensures forall f, x :: f in fields && x in f.Locators() ==> x in table
  {
    if fields == [] then map[]
    else
      var last := fields[|fields| - 1];
      assert fields == fields[..|fields| - 1] + [last];
      ByLocator(fields[..|fields| - 1]) + map x | x in last.Locators() :: last
  }

  lemma LocatorsDisjoint(fields: seq<Field>, i: nat, j: nat)
    requires LegalFields(fields) && i < |fields| && j < |fields| && i != j
    ensures fields[i].Locators() !! fields[j].Locators()
  {
    hide StrLt, Ascending;
    if j < i {
      assert fields[j].Locators() !! fields[i].Locators();
    }
  }

  /** On a legal registry a locator names exactly one field. */
  lemma LocatorNamesOneField(fields: seq<Field>, f: Field, x: string)
    requires LegalFields(fields) && f in fields && x in f.Locators()
    ensures x in ByLocator(fields) && ByLocator(fields)[x] == f
  {
    hide StrLt, Ascending, ByLocator, LegalFields;
    var g := ByLocator(fields)[x];
    var i :| 0 <= i < |fields| && fields[i] == f;
    var j :| 0 <= j < |fields| && fields[j] == g;
    if i != j {
      LocatorsDisjoint(fields, i, j);
      assert false;
    }
  }

  /** The table of declared locators rejects exactly the lists in which two fields share one. */
  method LoadFields(items: seq<Field>) returns (outcome: Result<seq<Field>, FieldError>)
    ensures outcome.Ok? <==> LegalFields(items)
    ensures outcome.Ok? ==> outcome.value == items
  {
    hide StrLt, Ascending, Field.Locators;
    var allLocators: map<string, string> := map[];
    var i := 0;
    while i < |items|
      invariant 0 <= i <= |items| && LegalFields(items[..i])
      invariant forall x :: x in allLocators <==> exists j :: 0 <= j < i && x in items[j].Locators()
    {
      hide LegalFields;
      var item := items[i];
      FieldVerdict(items, i);
      if i > 0 && !StrLt(items[i - 1].symbol, item.symbol) {
        return Raised(SymbolsNotSorted);
      }
      if item.aliases != SortedStrings(Elements(item.aliases)) {
        return Raised(AliasesNotSorted);
      }
      if item.symbol in item.aliases {
        return Raised(SymbolRepeatedAsAlias);
      }
      if exists x :: x in item.Locators() && x in allLocators {
        return Raised(LocatorDeclaredTwice);
      }
      allLocators := allLocators + map x | x in item.Locators() :: item.symbol;
      i := i + 1;
    }
    assert items[..i] == items;
    outcome := Ok(items);
  }

  /** What one more field must satisfy; a list with an illegal beginning is illegal. */
  lemma FieldVerdict(items: seq<Field>, i: nat)
    requires i < |items| && LegalFields(items[..i])
    ensures LegalFields(items[..i + 1]) <==>
      && (i > 0 ==> StrLt(items[i - 1].symbol, items[i].symbol))
      && items[i].aliases == SortedStrings(Elements(items[i].aliases)) && items[i].symbol !in items[i].aliases
      && forall j :: 0 <= j < i ==> items[j].Locators() !! items[i].Locators()
    ensures LegalFields(items) ==> LegalFields(items[..i + 1])
  {
    hide Field.Locators, StrLt, LegalFields;
    var aliases := items[i].aliases;
    AscendingIffSorted(aliases);
    if LegalFields(items) {
      LegalBeginning(items, i + 1);
    }
    if LegalFields(items[..i + 1]) {
      LegalLast(items, i);
    } else if i > 0 ==> StrLt(items[i - 1].symbol, items[i].symbol) {
      if Ascending(StrLt, aliases) && items[i].symbol !in aliases
        && forall j :: 0 <= j < i ==> items[j].Locators() !! items[i].Locators()
      {
        AcceptField(items, i);
      }
    }
  }

  lemma AscendingIffSorted(aliases: seq<string>)
    ensures Ascending(StrLt, aliases) <==> aliases == SortedStrings(Elements(aliases))
  {
    if Ascending(StrLt, aliases) {
      StrLtStrictTotal();
      AscendingUnique(StrLt, aliases, SortedStrings(Elements(aliases)));
    }
  }

  lemma LegalBeginning(items: seq<Field>, n: nat)
    requires n <= |items| && LegalFields(items)
    ensures LegalFields(items[..n])
  {
    hide StrLt, Ascending, Field.Locators;
  }

  lemma LegalLast(items: seq<Field>, i: nat)
    requires i < |items| && LegalFields(items[..i + 1])
    ensures i > 0 ==> StrLt(items[i - 1].symbol, items[i].symbol)
    ensures Ascending(StrLt, items[i].aliases) && items[i].symbol !in items[i].aliases
    ensures forall j :: 0 <= j < i ==> items[j].Locators() !! items[i].Locators()
  {
    hide StrLt, Ascending, Field.Locators;
    var fields := items[..i + 1];
    assert fields[i] == items[i] && fields[i] in fields;
    assert forall j :: 0 <= j < i ==> fields[j] == items[j];
  }

  lemma AcceptField(items: seq<Field>, i: nat)
    requires i < |items| && LegalFields(items[..i])
    requires i > 0 ==> StrLt(items[i - 1].symbol, items[i].symbol)
    requires Ascending(StrLt, items[i].aliases) && items[i].symbol !in items[i].aliases
    requires forall j :: 0 <= j < i ==> items[j].Locators() !! items[i].Locators()
    ensures LegalFields(items[..i + 1])
  {
    hide Ascending, Field.Locators, StrLt;
    var fields, before := items[..i + 1], items[..i];
    assert forall a :: 0 <= a < i ==> fields[a] == before[a];
    forall a | 0 <= a < i ensures StrLt(items[a].symbol, items[i].symbol) {
      if a < i - 1 {
        assert StrLt(before[a].symbol, before[i - 1].symbol);
        StrLtTransitive(items[a].symbol, items[i - 1].symbol, items[i].symbol);
      }
    }
    assert forall f :: f in fields ==> f in before || f == items[i];
  }

  datatype Registry = Registry(relocations: seq<Relocation>, fields: seq<Field>)
  {
    ghost predicate Legal() {
      LegalRelocations(relocations) && LegalFields(fields)
    }

    function Registers(symbol: string): bool {
      symbol in ByLocator(fields)
    }
  }

  // ------------------------------------------------------------------------ update and audit

  /** `_relocated_legacy_symbols` as a table. */
  function Relocated(symbols: set<string>, baseline: set<string>, r: Registry): map<string, string> {
    map s | s in symbols && Previous(r.relocations, s).Some? && Previous(r.relocations, s).value in baseline ::
      Previous(r.relocations, s).value
  }

  /** The nested loops with `break` after the first match (lines 2293-2300). */
  method RelocatedLegacySymbols(symbols: seq<string>, baseline: set<string>, r: Registry)
    returns (relocated: map<string, string>)
    ensures relocated == Relocated(Elements(symbols), baseline, r)
  {
    relocated := map[];
    var i := 0;
    while i < |symbols|
      invariant 0 <= i <= |symbols|
      invariant relocated == Relocated(Elements(symbols[..i]), baseline, r)
    {
      var symbol := symbols[i];
      ghost var before := relocated;
      var j := 0;
      while j < |r.relocations|
        invariant 0 <= j <= |r.relocations| && relocated == before
        invariant Previous(r.relocations, symbol) == Previous(r.relocations[j..], symbol)
      {
        var move := r.relocations[j];
        if move.toPrefix <= symbol {
          var previous := move.fromPrefix + symbol[|move.toPrefix|..];
          if previous in baseline {
            relocated := relocated[symbol := previous];
          }
          break;
        }
        j := j + 1;
      }
      assert Elements(symbols[..i + 1]) == Elements(symbols[..i]) + {symbol};
      i := i + 1;
    }
    assert symbols[..i] == symbols;
  }

  function Unregistered(discovered: set<string>, r: Registry): set<string> {
    set s | s in discovered && !r.Registers(s)
  }

  /** What an update may keep: unregistered symbols under their current or their old name. */
  function Represented(discovered: set<string>, baseline: set<string>, r: Registry): set<string> {
    Unregistered(discovered, r) + Relocated(Unregistered(discovered, r), baseline, r).Values
  }

  function Additions(discovered: set<string>, baseline: set<string>, r: Registry): set<string> {
    Unregistered(discovered, r) - Relocated(Unregistered(discovered, r), baseline, r).Keys - baseline
  }

  function Retain(symbols: seq<string>, keep: set<string>): seq<string> {
    if symbols == [] then []
    else (if symbols[0] in keep then [symbols[0]] else []) + Retain(symbols[1..], keep)
  }

  lemma {:induction false} RetainElements(symbols: seq<string>, keep: set<string>)
    ensures Elements(Retain(symbols, keep)) == Elements(symbols) * keep
    ensures Elements(symbols) <= keep ==> Retain(symbols, keep) == symbols
  {
    if symbols == [] {
      assert Elements(symbols) * keep == {};
    } else {
      var rest := Retain(symbols[1..], keep);
      RetainElements(symbols[1..], keep);
      assert symbols == [symbols[0]] + symbols[1..];
      assert Elements(symbols) == {symbols[0]} + Elements(symbols[1..]);
      assert Elements([symbols[0]] + rest) == {symbols[0]} + Elements(rest);
      assert [] + rest == rest;
    }
  }

  lemma {:induction false} RetainOrder(symbols: seq<string>, keep: set<string>)
    requires Ascending(StrLt, symbols)
    ensures Ascending(StrLt, Retain(symbols, keep))
  {
    hide StrLt;
    if symbols != [] {
      RetainOrder(symbols[1..], keep);
      RetainElements(symbols[1..], keep);
      var rest := Retain(symbols[1..], keep);
      forall j | 0 <= j < |rest| ensures StrLt(symbols[0], rest[j]) {
        assert rest[j] in Elements(rest);
        assert rest[j] in symbols[1..];
      }
    }
  }

  datatype Baseline = Baseline(source: string, symbols: seq<string>)

  /** What `update_baseline` writes, or the symbols because of which it refuses. */
  function Updated(prior: Option<Baseline>, head: string, discovered: set<string>, r: Registry)
    : Result<Baseline, set<string>>
  {
    match prior
    case None => Ok(Baseline(head, SortedStrings(Unregistered(discovered, r))))
    case Some(b) =>
      if Additions(discovered, Elements(b.symbols), r) != {} then Raised(Additions(discovered, Elements(b.symbols), r))
      else Ok(b.(symbols := Retain(b.symbols, Represented(discovered, Elements(b.symbols), r))))
  }

  /** A registered symbol is found under the symbol of its registry entry. */
  datatype FindingState = Current(registrySymbol: string) | Legacy | NotRegistered

  datatype Audit = Audit(
    findings: map<string, FindingState>,
    newFields: seq<string>,        // PROV001
    staleEntries: seq<string>,     // PROV003
    orphanedFields: seq<string>,   // PROV004
    registeredLegacy: seq<string>) // PROV005

  function EffectiveLegacy(discovered: set<string>, baseline: set<string>, r: Registry): set<string> {
    baseline + Relocated(discovered, baseline, r).Keys
  }

  function Orphans(fields: seq<Field>, discovered: set<string>): seq<string> {
    if fields == [] then []
    else (if discovered * fields[0].Locators() == {} then [fields[0].symbol] else []) + Orphans(fields[1..], discovered)
  }

  function Findings(discovered: set<string>, r: Registry, legacy: set<string>): map<string, FindingState> {
    map s | s in discovered :: StateOf(r, legacy, s)
  }

  function StateOf(r: Registry, legacy: set<string>, s: string): FindingState {
    if r.Registers(s) then Current(ByLocator(r.fields)[s].symbol)
    else if s in legacy then Legacy
    else NotRegistered
  }

  function BuildAudit(discovered: set<string>, r: Registry, b: Baseline): Audit {
    var baseline := Elements(b.symbols);
    var registered := set s | s in discovered && r.Registers(s);
    var relocated := Relocated(discovered, baseline, r);
    var legacy := baseline + relocated.Keys;
    Audit(
      Findings(discovered, r, legacy),
      SortedStrings(discovered - registered - legacy),
      SortedStrings(baseline - (discovered + relocated.Values)),
      Orphans(r.fields, discovered),
      SortedStrings(baseline * registered))
  }

  /** The findings loop of `build_audit` (lines 2327-2342). */
  method CollectFindings(candidates: seq<string>, r: Registry, legacy: set<string>)
    returns (findings: map<string, FindingState>)
    ensures findings == Findings(Elements(candidates), r, legacy)
  {
    hide Registry.Registers, StateOf;
    findings := map[];
    var i := 0;
    while i < |candidates|
      invariant 0 <= i <= |candidates|
      invariant findings == Findings(Elements(candidates[..i]), r, legacy)
    {
      var s := candidates[i];
      findings := findings[s := StateOf(r, legacy, s)];
      assert Elements(candidates[..i + 1]) == Elements(candidates[..i]) + {s};
      i := i + 1;
    }
    assert candidates[..i] == candidates;
  }

  /** The orphan loop of `build_audit` (lines 2372-2384). */
  method CollectOrphans(fields: seq<Field>, discovered: set<string>) returns (orphaned: seq<string>)
    ensures orphaned == Orphans(fields, discovered)
  {
    hide Field.Locators;
    orphaned := [];
    var i := 0;
    while i < |fields|
      invariant 0 <= i <= |fields|
      invariant orphaned + Orphans(fields[i..], discovered) == Orphans(fields, discovered)
    {
      assert fields[i..][0] == fields[i] && fields[i..][1..] == fields[i + 1..];
      if discovered * fields[i].Locators() == {} {
        orphaned := orphaned + [fields[i].symbol];
      }
      i := i + 1;
    }
  }

  method RunAudit(candidates: seq<string>, r: Registry, b: Baseline) returns (audit: Audit)
    ensures audit == BuildAudit(Elements(candidates), r, b)
  {
    hide Relocated, Registry.Registers, Ascending, Findings, Orphans;
    var discovered := Elements(candidates);
    var baseline := Elements(b.symbols);
    var registered := set s | s in discovered && r.Registers(s);
    var relocated := RelocatedLegacySymbols(candidates, baseline, r);
    var legacy := baseline + relocated.Keys;
    var findings := CollectFindings(candidates, r, legacy);
    var orphaned := CollectOrphans(r.fields, discovered);
    audit := Audit(
      findings,
      SortedStrings(discovered - registered - legacy),
      SortedStrings(baseline - (discovered + relocated.Values)),
      orphaned,
      SortedStrings(baseline * registered));
  }

  // ------------------------------------------------------------------ the protocol's promises

  lemma ValueOfTable<K, V>(m: map<K, V>, k: K)
    requires k in m
    ensures m[k] in m.Values
  {
  }

  /** A successful update of an existing baseline only deletes. */
  lemma UpdateOnlyDeletes(b: Baseline, head: string, discovered: set<string>, r: Registry)
    requires Updated(Some(b), head, discovered, r).Ok? && Ascending(StrLt, b.symbols)
    ensures var after := Updated(Some(b), head, discovered, r).value;
      && after.source == b.source
      && Ascending(StrLt, after.symbols)
      && Elements(after.symbols) == Elements(b.symbols) * Represented(discovered, Elements(b.symbols), r)
  {
    RetainElements(b.symbols, Represented(discovered, Elements(b.symbols), r));
    RetainOrder(b.symbols, Represented(discovered, Elements(b.symbols), r));
  }

  /** The relocations that explain unregistered symbols survive the update. */
  lemma RelocationsSurvive(discovered: set<string>, before: set<string>, after: set<string>, r: Registry)
    requires after == before * Represented(discovered, before, r)
    ensures Relocated(Unregistered(discovered, r), after, r) == Relocated(Unregistered(discovered, r), before, r)
  {
    var u := Unregistered(discovered, r);
    forall s | s in Relocated(u, before, r) ensures s in Relocated(u, after, r) {
      ValueOfTable(Relocated(u, before, r), s);
    }
  }

  /** The part of an audit that the update must keep clean. */
  ghost predicate Clean(a: Audit) {
    && a.newFields == [] && a.staleEntries == []
    && forall s :: s in a.findings ==> a.findings[s] != NotRegistered
  }

  lemma CleanFromSets(discovered: set<string>, r: Registry, b: Baseline)
    requires Unregistered(discovered, r) <= EffectiveLegacy(discovered, Elements(b.symbols), r)
    requires Elements(b.symbols) <= discovered + Relocated(discovered, Elements(b.symbols), r).Values
    ensures Clean(BuildAudit(discovered, r, b))
  {
    hide Relocated, Ascending, Registry.Registers, Orphans;
    var a := BuildAudit(discovered, r, b);
    var baseline := Elements(b.symbols);
    var registered := set s | s in discovered && r.Registers(s);
    assert discovered - registered == Unregistered(discovered, r);
    assert discovered - registered - (baseline + Relocated(discovered, baseline, r).Keys) == {};
    assert baseline - (discovered + Relocated(discovered, baseline, r).Values) == {};
  }

  /** With source and registry unchanged, the audit after a successful update reports neither
      a new field nor a stale entry, and no finding is left unregistered. */
  lemma UpdateThenAuditIsClean(prior: Option<Baseline>, head: string, discovered: set<string>, r: Registry)
    requires Updated(prior, head, discovered, r).Ok?
    ensures Clean(BuildAudit(discovered, r, Updated(prior, head, discovered, r).value))
  {
    var after := Updated(prior, head, discovered, r).value;
    var u := Unregistered(discovered, r);
    match prior
    case None =>
      assert Elements(after.symbols) == u;
      CleanFromSets(discovered, r, after);
    case Some(b) =>
      var before := Elements(b.symbols);
      RetainElements(b.symbols, Represented(discovered, before, r));
      assert Elements(after.symbols) == before * Represented(discovered, before, r);
      RelocationsSurvive(discovered, before, Elements(after.symbols), r);
      UpdateCovers(discovered, before, Elements(after.symbols), r);
      CleanFromSets(discovered, r, after);
  }

  lemma UpdateCovers(discovered: set<string>, before: set<string>, after: set<string>, r: Registry)
    requires Additions(discovered, before, r) == {}
    requires after == before * Represented(discovered, before, r)
    requires Relocated(Unregistered(discovered, r), after, r) == Relocated(Unregistered(discovered, r), before, r)
    ensures Unregistered(discovered, r) <= EffectiveLegacy(discovered, after, r)
    ensures after <= discovered + Relocated(discovered, after, r).Values
    ensures Additions(discovered, after, r) == {}
    ensures after <= Represented(discovered, after, r)
  {
    var u := Unregistered(discovered, r);
    var moved := Relocated(u, after, r);
    forall s | s in u ensures s in moved.Keys || s in after {
      assert s !in Additions(discovered, before, r);
    }
    assert forall s :: s in moved ==>
      s in Relocated(discovered, after, r) && Relocated(discovered, after, r)[s] == moved[s];
    forall s | s in moved.Values ensures s in Relocated(discovered, after, r).Values {
      var t :| t in moved && moved[t] == s;
      ValueOfTable(Relocated(discovered, after, r), t);
    }
  }

  /** Updating twice is updating once. */
  lemma UpdateIsIdempotent(prior: Option<Baseline>, head: string, again: string, discovered: set<string>, r: Registry)
    requires Updated(prior, head, discovered, r).Ok?
    ensures Updated(Some(Updated(prior, head, discovered, r).value), again, discovered, r) ==
      Updated(prior, head, discovered, r)
  {
    var after := Updated(prior, head, discovered, r).value;
    var now := Elements(after.symbols);
    match prior
    case None =>
      assert now == Unregistered(discovered, r);
      assert Additions(discovered, now, r) == {};
      RetainElements(after.symbols, Represented(discovered, now, r));
    case Some(b) =>
      var before := Elements(b.symbols);
      RetainElements(b.symbols, Represented(discovered, before, r));
      assert now == before * Represented(discovered, before, r);
      RelocationsSurvive(discovered, before, now, r);
      UpdateCovers(discovered, before, now, r);
      RetainElements(after.symbols, Represented(discovered, now, r));
  }

  lemma AuditReportsAdditions(discovered: set<string>, r: Registry, b: Baseline)
    ensures Elements(BuildAudit(discovered, r, b).newFields) == Additions(discovered, Elements(b.symbols), r)
  {
    hide Ascending, Orphans, Findings, Registry.Registers, Previous;
    var baseline := Elements(b.symbols);
    var registered := set s | s in discovered && r.Registers(s);
    var u := Unregistered(discovered, r);
    assert discovered - registered == u;
    assert u - (baseline + Relocated(discovered, baseline, r).Keys) == Additions(discovered, baseline, r);
  }

  /** The update refuses exactly when some unregistered symbol is neither in the baseline nor
      the new name of a baseline symbol; then the audit of the old baseline reports it. */
  lemma RefusedIffAuditFindsNewFields(b: Baseline, head: string, discovered: set<string>, r: Registry)
    ensures Updated(Some(b), head, discovered, r).Raised? <==> BuildAudit(discovered, r, b).newFields != []
    ensures Updated(Some(b), head, discovered, r).Raised? ==>
      Updated(Some(b), head, discovered, r).error == Elements(BuildAudit(discovered, r, b).newFields)
  {
    hide BuildAudit, Represented, Retain, Additions;
    AuditReportsAdditions(discovered, r, b);
    var reported := BuildAudit(discovered, r, b).newFields;
    assert reported != [] ==> reported[0] in Elements(reported);
  }

  lemma AuditReportsRegisteredLegacy(discovered: set<string>, r: Registry, b: Baseline, s: string)
    ensures s in BuildAudit(discovered, r, b).registeredLegacy <==> s in b.symbols && s in discovered && r.Registers(s)
  {
    hide Ascending, Orphans, Findings, Relocated, Registry.Registers;
  }

  lemma OldNamesComeFromBaseline(discovered: set<string>, baseline: set<string>, r: Registry, s: string)
    requires s in Relocated(Unregistered(discovered, r), baseline, r).Values
    ensures s in baseline
  {
    hide Previous, Registry.Registers;
  }

  /** After an update, an entry can still be reported as both registered and legacy, exactly
      when it is the old name of an unregistered symbol and is itself found and registered. */
  lemma RegisteredLegacyAfterUpdate(b: Baseline, head: string, discovered: set<string>, r: Registry, s: string)
    requires Updated(Some(b), head, discovered, r).Ok?
    ensures s in BuildAudit(discovered, r, Updated(Some(b), head, discovered, r).value).registeredLegacy
       <==> && s in Relocated(Unregistered(discovered, r), Elements(b.symbols), r).Values
            && s in discovered && r.Registers(s)
  {
    hide BuildAudit, Relocated, Registry.Registers, Retain;
    var after := Updated(Some(b), head, discovered, r).value;
    AuditReportsRegisteredLegacy(discovered, r, after, s);
    RetainElements(b.symbols, Represented(discovered, Elements(b.symbols), r));
    assert s in Elements(after.symbols) <==> s in after.symbols;
    if s in Relocated(Unregistered(discovered, r), Elements(b.symbols), r).Values {
      OldNamesComeFromBaseline(discovered, Elements(b.symbols), r, s);
    }
  }

  /** A field moved from `a.` to `b.` while the old one is still there and registered: the
      update keeps the old name for the sake of the new one. */
  const MOVED_FIELD := Registry([Relocation("a.", "b.")], [Field("a.x", [])])

  lemma MovedFieldNames(baseline: set<string>)
    requires "a.x" in baseline
    ensures MOVED_FIELD.Legal()
    ensures MOVED_FIELD.Registers("a.x") && !MOVED_FIELD.Registers("b.x")
    ensures Unregistered({"a.x", "b.x"}, MOVED_FIELD) == {"b.x"}
    ensures Relocated({"b.x"}, baseline, MOVED_FIELD) == map["b.x" := "a.x"]
  {
    assert MOVED_FIELD.fields[0].Locators() == {"a.x"};
    var moves := MOVED_FIELD.relocations;
    assert moves[0].toPrefix <= "b.x" && Rename(moves[0], "b.x") == "a." + "x" == "a.x";
    assert Previous(moves, "b.x") == Some("a.x");
  }

  /** With this registry an update of the baseline `a.x` succeeds, and the audit after it still
      reports `a.x` as both registered and legacy. */
  lemma RegisteredLegacyHappens(head: string)
    ensures var updated := Updated(Some(Baseline("rev", ["a.x"])), head, {"a.x", "b.x"}, MOVED_FIELD);
      && MOVED_FIELD.Legal() && updated.Ok?
      && "a.x" in BuildAudit({"a.x", "b.x"}, MOVED_FIELD, updated.value).registeredLegacy
  {
    var b := Baseline("rev", ["a.x"]);
    assert b.symbols[0] in b.symbols;
    MovedFieldNames(Elements(b.symbols));
    hide BuildAudit, Relocated, Registry.Registers, Registry.Legal, Retain, Unregistered, Represented;
    assert Additions({"a.x", "b.x"}, Elements(b.symbols), MOVED_FIELD) == {};
    assert map["b.x" := "a.x"]["b.x"] == "a.x";
    RegisteredLegacyAfterUpdate(b, head, {"a.x", "b.x"}, MOVED_FIELD, "a.x");
  }

  // ------------------------------------------------------------- the same, symbol by symbol

  /** Which relocation lists are accepted, prefix by prefix. */
  lemma LegalRelocationsMean(moves: seq<Relocation>)
    ensures LegalRelocations(moves) <==>
      && (forall i :: 0 <= i < |moves| ==>
            && moves[i].fromPrefix != "" && moves[i].fromPrefix[|moves[i].fromPrefix| - 1] == '.'
            && moves[i].toPrefix != "" && moves[i].toPrefix[|moves[i].toPrefix| - 1] == '.'
            && moves[i].fromPrefix != moves[i].toPrefix)
      && (forall i, j :: 0 <= i < j < |moves| ==>
            && StrLt(moves[i].toPrefix, moves[j].toPrefix)
            && !(moves[i].toPrefix <= moves[j].toPrefix) && !(moves[j].toPrefix <= moves[i].toPrefix))
  {
    hide StrLt;
    forall i, j | 0 <= i < j < |moves|
      ensures ListLt(moves[i].SortKey(), moves[j].SortKey()) && !Overlap(moves[i], moves[j]) <==>
        (&& StrLt(moves[i].toPrefix, moves[j].toPrefix)
         && !(moves[i].toPrefix <= moves[j].toPrefix) && !(moves[j].toPrefix <= moves[i].toPrefix))
    {
      KeysInOrder(moves[i], moves[j]);
    }
    hide ListLt, Overlap, Relocation.SortKey;
    forall i | 0 <= i < |moves| ensures moves[i] in moves {
    }
  }

  lemma KeysInOrder(m: Relocation, n: Relocation)
    ensures m.toPrefix != n.toPrefix ==> (ListLt(m.SortKey(), n.SortKey()) <==> StrLt(m.toPrefix, n.toPrefix))
  {
    hide StrLt;
    var a, b := m.SortKey(), n.SortKey();
    assert a[0] == m.toPrefix && b[0] == n.toPrefix;
  }

  /** Which field lists are accepted, locator by locator. */
  lemma LegalFieldsMean(fields: seq<Field>)
    ensures LegalFields(fields) <==>
      && (forall i, j :: 0 <= i < j < |fields| ==> StrLt(fields[i].symbol, fields[j].symbol))
      && (forall i, k, n :: 0 <= i < |fields| && 0 <= k < n < |fields[i].aliases| ==>
            StrLt(fields[i].aliases[k], fields[i].aliases[n]))
      && (forall i :: 0 <= i < |fields| ==> fields[i].symbol !in fields[i].aliases)
      && (forall i, j, x :: 0 <= i < j < |fields| && (x == fields[i].symbol || x in fields[i].aliases) ==>
            x != fields[j].symbol && x !in fields[j].aliases)
  {
    hide StrLt;
    forall i | 0 <= i < |fields|
      ensures fields[i] in fields
      ensures forall x :: x in fields[i].Locators() <==> x == fields[i].symbol || x in fields[i].aliases
    {
    }
    forall i, j | 0 <= i < j < |fields|
      ensures fields[i].Locators() !! fields[j].Locators() <==>
              forall x :: x in fields[i].Locators() ==> x !in fields[j].Locators()
    {
    }
    hide Field.Locators;
  }

  /** The registry entry declares the symbol, by its own symbol or as an alias. */
  predicate Declares(f: Field, s: string) {
    s == f.symbol || s in f.aliases
  }

  ghost predicate Registered(r: Registry, s: string) {
    exists f :: f in r.fields && Declares(f, s)
  }

  /** Some relocation moves the old symbol s to x. */
  ghost predicate MovedFrom(r: Registry, x: string, s: string) {
    exists m :: m in r.relocations && m.toPrefix <= x && s == m.fromPrefix + x[|m.toPrefix|..]
  }

  lemma RegistersIff(r: Registry, s: string)
    ensures r.Registers(s) <==> Registered(r, s)
  {
    if r.Registers(s) {
      assert Declares(ByLocator(r.fields)[s], s);
    }
  }

  lemma PreviousIff(r: Registry, x: string, s: string)
    requires r.Legal()
    ensures Previous(r.relocations, x) == Some(s) <==> MovedFrom(r, x, s)
  {
    hide LegalFields, LegalRelocations, Previous;
    PreviousIsAnyMatch(r.relocations, x, s);
    if MovedFrom(r, x, s) {
      var m :| m in r.relocations && m.toPrefix <= x && s == m.fromPrefix + x[|m.toPrefix|..];
      assert Rename(m, x) == s;
    }
  }

  /** A symbol is relocated exactly if a relocation moves a baseline symbol to it, and then it
      is relocated from that one. */
  lemma RelocatedIff(symbols: set<string>, baseline: set<string>, r: Registry, x: string, s: string)
    requires r.Legal()
    ensures x in Relocated(symbols, baseline, r) && Relocated(symbols, baseline, r)[x] == s <==>
            x in symbols && s in baseline && MovedFrom(r, x, s)
  {
    hide Previous, MovedFrom, Registry.Legal;
    PreviousIff(r, x, s);
  }

  lemma RelocatedKeysAndValues(symbols: set<string>, baseline: set<string>, r: Registry, s: string)
    requires r.Legal()
    ensures s in Relocated(symbols, baseline, r).Keys <==>
            s in symbols && exists y :: y in baseline && MovedFrom(r, s, y)
    ensures s in Relocated(symbols, baseline, r).Values <==>
            s in baseline && exists x :: x in symbols && MovedFrom(r, x, s)
  {
    hide Relocated, MovedFrom, Registry.Legal;
    var table := Relocated(symbols, baseline, r);
    if s in table.Keys {
      RelocatedIff(symbols, baseline, r, s, table[s]);
    }
    if y :| s in symbols && y in baseline && MovedFrom(r, s, y) {
      RelocatedIff(symbols, baseline, r, s, y);
    }
    if s in table.Values {
      var x :| x in table && table[x] == s;
      RelocatedIff(symbols, baseline, r, x, s);
    }
    if x :| x in symbols && s in baseline && MovedFrom(r, x, s) {
      RelocatedIff(symbols, baseline, r, x, s);
      ValueOfTable(table, x);
    }
  }

  /** What an audit reports of each symbol: PROV001 for a discovered one that is neither
      registered nor in the baseline nor moved from there, PROV003 for a baseline entry that is
      neither discovered nor the origin of a discovered one, PROV005 for one that is discovered
      and registered as well, each list sorted. */
  lemma AuditMeans(discovered: set<string>, r: Registry, b: Baseline, s: string)
    requires r.Legal()
    ensures var a := BuildAudit(discovered, r, b);
      && (s in a.newFields <==>
            && s in discovered && !Registered(r, s) && s !in b.symbols
            && !exists y :: y in b.symbols && MovedFrom(r, s, y))
      && (s in a.staleEntries <==>
            s in b.symbols && s !in discovered && !exists x :: x in discovered && MovedFrom(r, x, s))
      && (s in a.registeredLegacy <==> s in b.symbols && s in discovered && Registered(r, s))
      && Ascending(StrLt, a.newFields) && Ascending(StrLt, a.staleEntries) && Ascending(StrLt, a.registeredLegacy)
  {
    hide Relocated, MovedFrom, Registry.Legal, Registry.Registers, Registered, Ascending, Findings, Orphans;
    var baseline := Elements(b.symbols);
    RegistersIff(r, s);
    RelocatedKeysAndValues(discovered, baseline, r, s);
    assert forall y :: y in b.symbols <==> y in baseline;
  }

  /** The state of each finding: current, under the symbol of the entry that declares it,
      exactly if it is registered; legacy exactly if it is not but stands in the baseline or has
      moved from there. */
  lemma FindingsMean(discovered: set<string>, r: Registry, b: Baseline, s: string)
    requires r.Legal()
    ensures var findings := BuildAudit(discovered, r, b).findings;
      && (s in findings <==> s in discovered)
      && (s in findings ==>
            && (findings[s].Current? <==> Registered(r, s))
            && (forall f :: f in r.fields && Declares(f, s) ==> findings[s] == Current(f.symbol))
            && (findings[s].Legacy? <==>
                  !Registered(r, s) && (s in b.symbols || exists y :: y in b.symbols && MovedFrom(r, s, y))))
  {
    hide Relocated, MovedFrom, Registered, LegalRelocations, Orphans, LegalFields, ByLocator, SortedStrings;
    var baseline := Elements(b.symbols);
    RegistersIff(r, s);
    RelocatedKeysAndValues(discovered, baseline, r, s);
    forall f | f in r.fields && Declares(f, s) ensures s in ByLocator(r.fields) && ByLocator(r.fields)[s] == f {
      LocatorNamesOneField(r.fields, f, s);
    }
    if exists f :: f in r.fields && Declares(f, s) {
      DeclaredIsRegistered(r, s);
    }
  }

  lemma DeclaredIsRegistered(r: Registry, s: string)
    requires exists f :: f in r.fields && Declares(f, s)
    ensures Registered(r, s)
  {
  }

  lemma NoneDiscovered(f: Field, discovered: set<string>)
    ensures discovered * f.Locators() == {} <==> forall x :: x in discovered ==> !Declares(f, x)
  {
    assert forall x :: x in f.Locators() <==> Declares(f, x);
    if discovered * f.Locators() != {} {
      var x :| x in discovered * f.Locators();
      assert x in discovered && Declares(f, x);
    }
    forall x | x in discovered && Declares(f, x) ensures discovered * f.Locators() != {} {
      assert x in discovered * f.Locators();
    }
  }

  /** PROV004 names, in registry order, the entries none of whose locators is discovered. */
  lemma {:induction false} OrphansMean(fields: seq<Field>, discovered: set<string>, s: string)
    ensures s in Orphans(fields, discovered) <==>
      exists f :: f in fields && f.symbol == s && forall x :: x in discovered ==> !Declares(f, x)
  {
    if fields != [] {
      var first, rest := fields[0], fields[1..];
      assert fields == [first] + rest;
      OrphansMean(rest, discovered, s);
      NoneDiscovered(first, discovered);
    }
  }

  /** What an update does with each symbol: it refuses those that the audit would report as
      new, and otherwise keeps the entries that are discovered without being registered and
      those from which such a symbol has moved. A first baseline holds exactly the discovered
      symbols that are not registered. */
  lemma UpdateMeans(b: Baseline, head: string, discovered: set<string>, r: Registry, s: string)
    requires r.Legal()
    ensures var after := Updated(Some(b), head, discovered, r);
      && (after.Raised? ==>
            (s in after.error <==>
               && s in discovered && !Registered(r, s) && s !in b.symbols
               && !exists y :: y in b.symbols && MovedFrom(r, s, y)))
      && (after.Ok? ==>
            && after.value.source == b.source
            && (s in after.value.symbols <==>
                  && s in b.symbols
                  && ((s in discovered && !Registered(r, s))
                      || exists x :: x in discovered && !Registered(r, x) && MovedFrom(r, x, s))))
    ensures var first := Updated(None, head, discovered, r);
      && first.Ok? && first.value.source == head
      && (s in first.value.symbols <==> s in discovered && !Registered(r, s))
      && Ascending(StrLt, first.value.symbols)
  {
    hide Relocated, MovedFrom, Registry.Legal, Registry.Registers, Registered, Ascending, Retain;
    var baseline, open := Elements(b.symbols), Unregistered(discovered, r);
    forall x ensures x in open <==> x in discovered && !Registered(r, x) {
      RegistersIff(r, x);
    }
    RelocatedKeysAndValues(open, baseline, r, s);
    RetainElements(b.symbols, Represented(discovered, baseline, r));
    var kept := Retain(b.symbols, Represented(discovered, baseline, r));
    assert s in kept <==> s in Elements(kept);
    assert forall y :: y in b.symbols <==> y in baseline;
  }

  // ------------------------------------------------------------------------ the baseline file

  method RetainInOrder(symbols: seq<string>, keep: set<string>) returns (retained: seq<string>)
    ensures retained == Retain(symbols, keep)
  {
    retained := [];
    var i := 0;
    while i < |symbols|
      invariant 0 <= i <= |symbols|
      invariant retained + Retain(symbols[i..], keep) == Retain(symbols, keep)
    {
      assert symbols[i..][0] == symbols[i] && symbols[i..][1..] == symbols[i + 1..];
      if symbols[i] in keep {
        retained := retained + [symbols[i]];
      }
      i := i + 1;
    }
  }

  /** The baseline file; a file that `load_baseline` accepts is sorted and free of repeats. */
  class BaselineFile {
    var content: Option<Baseline>

    ghost predicate Valid()
      reads this
    {
      content.Some? ==> Ascending(StrLt, content.value.symbols)
    }

    constructor ()
      ensures Valid() && content == None
    {
      content := None;
    }

    /** `update_baseline`; on refusal the file is left as it was. */
    method Update(head: string, discovered: set<string>, r: Registry)
      returns (outcome: Result<seq<string>, set<string>>)
      requires Valid()
      modifies this
      ensures Valid()
      ensures outcome.Raised? <==> Updated(old(content), head, discovered, r).Raised?
      ensures outcome.Raised? ==>
        content == old(content) && outcome.error == Updated(old(content), head, discovered, r).error
      ensures outcome.Ok? ==> content == Some(Updated(old(content), head, discovered, r).value)
      ensures outcome.Ok? ==> outcome.value == content.value.symbols
    {
      hide Relocated, Ascending, Unregistered, Registry.Registers;
      var unregistered := Unregistered(discovered, r);
      if content.None? {
        var desired := SortedStrings(unregistered);
        content := Some(Baseline(head, desired));
        return Ok(desired);
      }
      var current := content.value;
      var symbols := Elements(current.symbols);
      var listed := SortedStrings(unregistered);
      assert Elements(listed) == unregistered;
      var relocated := RelocatedLegacySymbols(listed, symbols, r);
      var additions := unregistered - relocated.Keys - symbols;
      if additions != {} {
        return Raised(additions);
      }
      var represented := unregistered + relocated.Values;
      var retained := RetainInOrder(current.symbols, represented);
      RetainOrder(current.symbols, represented);
      content := Some(current.(symbols := retained));
      outcome := Ok(retained);
    }
  }
}
