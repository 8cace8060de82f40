/** src/aec_bench/catalogue.py: flattening catalogue snapshots and comparing two of them. */
module Catalogue {
  import opened Results
  import opened Ordering
  import opened Json

  datatype Key = Key(kind: string, id: string)

  type Flat = map<Key, Fields>

  datatype CatalogueError =
    | WrongSchema
    | NotAList(collection: string)
    | InvalidEntry(collection: string)
    | DuplicateId(id: string)
    | DuplicateKey(key: string)
    | VersionRegressed(entity: Key)

  // ---------------------------------------------------------------------------- flattening

  datatype Collection = Collection(name: string, kind: string)

  const EXPECTED_KINDS: seq<Collection> := [
    Collection("worlds", "world"),
    Collection("profiles", "profile"),
    Collection("lifecycles", "lifecycle"),
    Collection("variants", "variant")]

  /** What `str.strip` removes. */
  predicate Whitespace(c: char) {
    var n := c as int;
    9 <= n <= 13 || 28 <= n <= 32 || n == 133 || n == 160 || n == 5760 || 8192 <= n <= 8202
    || n == 8232 || n == 8233 || n == 8239 || n == 8287 || n == 12288
  }

  predicate NonBlankText(j: Json) {
    j.String? && exists i :: 0 <= i < |j.s| && !Whitespace(j.s[i])
  }

  /** The test each entry of a collection has to pass. */
  predicate ValidEntry(kind: string, entry: Json) {
    && entry.Object?
    && Get(entry.fields, "kind") == String(kind)
    && NonBlankText(Get(entry.fields, "id"))
    && NonBlankText(Get(entry.fields, "key"))
    && Get(entry.fields, "version").Int? && Get(entry.fields, "version").i > 0
  }

  function Text(j: Json): string {
    if j.String? then j.s else ""
  }

  function KeyOf(entry: Fields): Key {
    Key(Text(Get(entry, "kind")), Text(Get(entry, "id")))
  }

  function IdOf(entry: Fields): string {
    Text(Get(entry, "id"))
  }

  function EntityKey(entry: Fields): string {
    Text(Get(entry, "key"))
  }

  /** The collection is a list of valid entries. */
  predicate Readable(snapshot: Fields, c: Collection) {
    Get(snapshot, c.name).Array? && forall e :: e in Get(snapshot, c.name).items ==> ValidEntry(c.kind, e)
  }

  function FieldsOf(entry: Json): Fields {
    if entry.Object? then entry.fields else map[]
  }

  function EntriesIn(snapshot: Fields, c: Collection): seq<Fields> {
    var entries := Get(snapshot, c.name);
    if entries.Array? then seq(|entries.items|, i requires 0 <= i < |entries.items| => FieldsOf(entries.items[i]))
    else []
  }

  /** The entries of the first n collections, in order. */
  function EntriesOf(snapshot: Fields, n: nat): seq<Fields>
    requires n <= |EXPECTED_KINDS|
  {
    if n == 0 then [] else EntriesOf(snapshot, n - 1) + EntriesIn(snapshot, EXPECTED_KINDS[n - 1])
  }

  function Ids(entries: seq<Fields>): seq<string> {
    seq(|entries|, i requires 0 <= i < |entries| => IdOf(entries[i]))
  }

  function EntityKeys(entries: seq<Fields>): seq<string> {
    seq(|entries|, i requires 0 <= i < |entries| => EntityKey(entries[i]))
  }

  /** A snapshot of the right schema whose entries are valid and share neither identifiers
      nor keys, across all four collections. */
  ghost predicate Legal(snapshot: Fields) {
    && PyEq(Get(snapshot, "schema_version"), Int(1))
    && (forall i :: 0 <= i < |EXPECTED_KINDS| ==> Readable(snapshot, EXPECTED_KINDS[i]))
    && NoRepeats(Ids(EntriesOf(snapshot, |EXPECTED_KINDS|)))
    && NoRepeats(EntityKeys(EntriesOf(snapshot, |EXPECTED_KINDS|)))
  }

  /** Every entry under its own (kind, id), and nothing else. */
  ghost predicate Holds(flat: Flat, entries: seq<Fields>) {
    && (forall i :: 0 <= i < |entries| ==> KeyOf(entries[i]) in flat && flat[KeyOf(entries[i])] == entries[i])
    && (forall k :: k in flat ==> exists i :: 0 <= i < |entries| && KeyOf(entries[i]) == k)
    && |flat| == |entries|
  }

  /** A flattened snapshot: entries stand under their own key and have a version. */
  ghost predicate Keyed(flat: Flat) {
    forall k :: k in flat ==>
      && Get(flat[k], "kind") == String(k.kind) && Get(flat[k], "id") == String(k.id)
      && Get(flat[k], "version").Int?
  }

  lemma NewKeyGrows<K, V>(m: map<K, V>, k: K, v: V)
    requires k !in m
    ensures |m[k := v]| == |m| + 1
  {
    assert m[k := v].Keys == m.Keys + {k};
  }

  lemma HoldsNext(flat: Flat, entries: seq<Fields>, e: Fields)
    requires Holds(flat, entries) && forall i :: 0 <= i < |entries| ==> KeyOf(entries[i]) != KeyOf(e)
    ensures Holds(flat[KeyOf(e) := e], entries + [e])
  {
    hide KeyOf;
    var longer, key := entries + [e], KeyOf(e);
    var next := flat[key := e];
    assert key !in flat;
    NewKeyGrows(flat, key, e);
    forall k | k in next ensures exists i :: 0 <= i < |longer| && KeyOf(longer[i]) == k {
      EntryFound(flat, entries, e, k);
    }
  }

  lemma EntryFound(flat: Flat, entries: seq<Fields>, e: Fields, k: Key)
    requires Holds(flat, entries) && (k in flat || k == KeyOf(e))
    ensures exists i :: 0 <= i < |entries + [e]| && KeyOf((entries + [e])[i]) == k
  {
    hide KeyOf;
    var longer := entries + [e];
    if k in flat {
      var i :| 0 <= i < |entries| && KeyOf(entries[i]) == k;
      assert longer[i] == entries[i];
    } else {
      assert longer[|entries|] == e;
    }
  }

  lemma {:induction false} EntriesAreValid(snapshot: Fields, n: nat)
    requires n <= |EXPECTED_KINDS| && forall i :: 0 <= i < n ==> Readable(snapshot, EXPECTED_KINDS[i])
    ensures forall e :: e in EntriesOf(snapshot, n) ==>
      Get(e, "kind").String? && Get(e, "id").String? && Get(e, "version").Int?
  {
    hide Readable, EntriesIn;
    if n > 0 {
      EntriesAreValid(snapshot, n - 1);
      CollectionIsValid(snapshot, EXPECTED_KINDS[n - 1]);
    }
  }

  lemma CollectionIsValid(snapshot: Fields, c: Collection)
    requires Readable(snapshot, c)
    ensures forall e :: e in EntriesIn(snapshot, c) ==>
      Get(e, "kind").String? && Get(e, "id").String? && Get(e, "version").Int?
  {
    var items, entries := Get(snapshot, c.name).items, EntriesIn(snapshot, c);
    forall e | e in entries ensures Get(e, "kind").String? && Get(e, "id").String? && Get(e, "version").Int? {
      var i :| 0 <= i < |entries| && entries[i] == e;
      assert ValidEntry(c.kind, items[i]) && items[i].fields == e;
    }
  }

  lemma HeldIsKeyed(flat: Flat, entries: seq<Fields>)
    requires Holds(flat, entries)
    requires forall e :: e in entries ==> Get(e, "kind").String? && Get(e, "id").String? && Get(e, "version").Int?
    ensures Keyed(flat)
  {
    hide Get;
  }

  /** What the source keeps between two entries. */
  ghost predicate Growing(flat: Flat, seenIds: set<string>, seenKeys: set<string>, entries: seq<Fields>) {
    && Holds(flat, entries)
    && NoRepeats(Ids(entries)) && NoRepeats(EntityKeys(entries))
    && (forall id :: id in seenIds <==> exists i :: 0 <= i < |entries| && IdOf(entries[i]) == id)
    && (forall key :: key in seenKeys <==> exists i :: 0 <= i < |entries| && EntityKey(entries[i]) == key)
  }

  lemma Grow(flat: Flat, seenIds: set<string>, seenKeys: set<string>, entries: seq<Fields>, e: Fields)
    requires Growing(flat, seenIds, seenKeys, entries)
    requires IdOf(e) !in seenIds && EntityKey(e) !in seenKeys
    ensures Growing(flat[KeyOf(e) := e], seenIds + {IdOf(e)}, seenKeys + {EntityKey(e)}, entries + [e])
  {
    hide KeyOf, IdOf, EntityKey, Holds;
    HoldsAfter(flat, entries, e);
    var longer := entries + [e];
    assert Ids(longer) == Ids(entries) + [IdOf(e)] && EntityKeys(longer) == EntityKeys(entries) + [EntityKey(e)];
    assert forall i :: 0 <= i < |entries| ==> longer[i] == entries[i];
    assert longer[|entries|] == e;
  }

  lemma HoldsAfter(flat: Flat, entries: seq<Fields>, e: Fields)
    requires Holds(flat, entries)
    ensures (forall i :: 0 <= i < |entries| ==> IdOf(entries[i]) != IdOf(e)) ==>
      Holds(flat[KeyOf(e) := e], entries + [e])
  {
    if forall i :: 0 <= i < |entries| ==> IdOf(entries[i]) != IdOf(e) {
      HoldsNext(flat, entries, e);
    }
  }

  /** A repeat within the first entries is a repeat in the whole. */
  lemma EarlyRepeat(entries: seq<Fields>, more: seq<Fields>)
    ensures NoRepeats(Ids(entries + more)) ==> NoRepeats(Ids(entries))
    ensures NoRepeats(EntityKeys(entries + more)) ==> NoRepeats(EntityKeys(entries))
  {
    var all := entries + more;
    assert Ids(all)[..|entries|] == Ids(entries) && EntityKeys(all)[..|entries|] == EntityKeys(entries);
  }

  lemma {:induction false} EntriesPrefix(snapshot: Fields, n: nat, m: nat)
    requires n <= m <= |EXPECTED_KINDS|
    ensures EntriesOf(snapshot, n) <= EntriesOf(snapshot, m)
    decreases m
  {
    if n < m {
      EntriesPrefix(snapshot, n, m - 1);
    }
  }

  lemma TakenArePrefix(snapshot: Fields, n: nat, j: nat)
    requires n < |EXPECTED_KINDS| && j < |EntriesIn(snapshot, EXPECTED_KINDS[n])|
    ensures var here := EntriesIn(snapshot, EXPECTED_KINDS[n]);
      EntriesOf(snapshot, n) + here[..j] + [here[j]] <= EntriesOf(snapshot, |EXPECTED_KINDS|)
  {
    hide EntriesIn;
    var here := EntriesIn(snapshot, EXPECTED_KINDS[n]);
    EntriesPrefix(snapshot, n + 1, |EXPECTED_KINDS|);
    ShorterPrefix(EntriesOf(snapshot, n), here, EntriesOf(snapshot, |EXPECTED_KINDS|), j);
  }

  lemma ShorterPrefix<T>(a: seq<T>, b: seq<T>, all: seq<T>, j: nat)
    requires a + b <= all && j < |b|
    ensures a + b[..j] + [b[j]] <= all
  {
  }

  /** One entry of collection n that repeats an identifier or key makes the snapshot illegal. */
  lemma RepeatIsIllegal(snapshot: Fields, n: nat, j: nat, seenIds: set<string>, seenKeys: set<string>, flat: Flat)
    requires n < |EXPECTED_KINDS| && j < |EntriesIn(snapshot, EXPECTED_KINDS[n])|
    requires Reached(snapshot, n, j, flat, seenIds, seenKeys)
    requires var e := EntriesIn(snapshot, EXPECTED_KINDS[n])[j]; IdOf(e) in seenIds || EntityKey(e) in seenKeys
    ensures !Legal(snapshot)
  {
    hide KeyOf, IdOf, EntityKey, Readable, EntriesIn, EntriesOf, Growing, NoRepeats, Ids, EntityKeys;
    var here := EntriesIn(snapshot, EXPECTED_KINDS[n]);
    var entries := EntriesOf(snapshot, n) + here[..j];
    var all := EntriesOf(snapshot, |EXPECTED_KINDS|);
    TakenArePrefix(snapshot, n, j);
    RepeatShows(flat, seenIds, seenKeys, entries, here[j]);
    var more := all[|entries| + 1..];
    assert all == entries + [here[j]] + more;
    EarlyRepeat(entries + [here[j]], more);
  }

  lemma RepeatShows(flat: Flat, seenIds: set<string>, seenKeys: set<string>, entries: seq<Fields>, e: Fields)
    requires Growing(flat, seenIds, seenKeys, entries)
    requires IdOf(e) in seenIds || EntityKey(e) in seenKeys
    ensures !NoRepeats(Ids(entries + [e])) || !NoRepeats(EntityKeys(entries + [e]))
  {
    hide IdOf, EntityKey, Holds;
    var longer := entries + [e];
    if IdOf(e) in seenIds {
      var i :| 0 <= i < |entries| && IdOf(entries[i]) == IdOf(e);
      assert Ids(longer)[i] == Ids(longer)[|entries|];
    } else {
      var i :| 0 <= i < |entries| && EntityKey(entries[i]) == EntityKey(e);
      assert EntityKeys(longer)[i] == EntityKeys(longer)[|entries|];
    }
  }

  /** What `_flatten_snapshot` promises: it raises exactly on illegal snapshots and otherwise
      keeps every entry, each under its own key. */
  ghost predicate IsFlattening(snapshot: Fields, result: Result<Flat, CatalogueError>) {
    && (result.Ok? <==> Legal(snapshot))
    && (Legal(snapshot) && result.Ok? ==>
          Holds(result.value, EntriesOf(snapshot, |EXPECTED_KINDS|)) && Keyed(result.value))
  }

  /** The entries taken from collection n so far, behind those of the collections before. */
  ghost predicate Reached(snapshot: Fields, n: nat, j: nat, flat: Flat, seenIds: set<string>, seenKeys: set<string>) {
    && n < |EXPECTED_KINDS| && j <= |EntriesIn(snapshot, EXPECTED_KINDS[n])|
    && Growing(flat, seenIds, seenKeys, EntriesOf(snapshot, n) + EntriesIn(snapshot, EXPECTED_KINDS[n])[..j])
  }

  lemma Enter(snapshot: Fields, n: nat, flat: Flat, seenIds: set<string>, seenKeys: set<string>)
    requires n < |EXPECTED_KINDS| && Growing(flat, seenIds, seenKeys, EntriesOf(snapshot, n))
    ensures Reached(snapshot, n, 0, flat, seenIds, seenKeys)
  {
    assert EntriesOf(snapshot, n) + EntriesIn(snapshot, EXPECTED_KINDS[n])[..0] == EntriesOf(snapshot, n);
  }

  lemma Leave(snapshot: Fields, n: nat, flat: Flat, seenIds: set<string>, seenKeys: set<string>)
    requires n < |EXPECTED_KINDS| &&
      Reached(snapshot, n, |EntriesIn(snapshot, EXPECTED_KINDS[n])|, flat, seenIds, seenKeys)
    ensures Growing(flat, seenIds, seenKeys, EntriesOf(snapshot, n + 1))
  {
    hide Growing, EntriesIn;
    var here := EntriesIn(snapshot, EXPECTED_KINDS[n]);
    assert here[..|here|] == here;
  }

  lemma Advance(snapshot: Fields, n: nat, j: nat, flat: Flat, seenIds: set<string>, seenKeys: set<string>)
    requires Reached(snapshot, n, j, flat, seenIds, seenKeys) && j < |EntriesIn(snapshot, EXPECTED_KINDS[n])|
    requires var e := EntriesIn(snapshot, EXPECTED_KINDS[n])[j]; IdOf(e) !in seenIds && EntityKey(e) !in seenKeys
    ensures var e := EntriesIn(snapshot, EXPECTED_KINDS[n])[j];
      Reached(snapshot, n, j + 1, flat[KeyOf(e) := e], seenIds + {IdOf(e)}, seenKeys + {EntityKey(e)})
  {
    hide KeyOf, IdOf, EntityKey, EntriesIn, Growing;
    var here := EntriesIn(snapshot, EXPECTED_KINDS[n]);
    Grow(flat, seenIds, seenKeys, EntriesOf(snapshot, n) + here[..j], here[j]);
    assert EntriesOf(snapshot, n) + here[..j] + [here[j]] == EntriesOf(snapshot, n) + here[..j + 1];
  }

  /** Adds the entries of collection n (lines 525-548). */
  method FlattenCollection(snapshot: Fields, n: nat, flat: Flat, seenIds: set<string>, seenKeys: set<string>)
    returns (error: Option<CatalogueError>, flat': Flat, seenIds': set<string>, seenKeys': set<string>)
    requires n < |EXPECTED_KINDS| && Growing(flat, seenIds, seenKeys, EntriesOf(snapshot, n))
    ensures error.Some? ==> !Legal(snapshot)
    ensures error.None? ==>
      Readable(snapshot, EXPECTED_KINDS[n]) && Growing(flat', seenIds', seenKeys', EntriesOf(snapshot, n + 1))
  {
    hide KeyOf, IdOf, EntityKey, Growing, ValidEntry, Reached, EntriesOf, NoRepeats;
    var c := EXPECTED_KINDS[n];
    flat', seenIds', seenKeys' := flat, seenIds, seenKeys;
    var entries := Get(snapshot, c.name);
    if !entries.Array? {
      return Some(NotAList(c.name)), flat, seenIds, seenKeys;
    }
    Enter(snapshot, n, flat, seenIds, seenKeys);
    for j := 0 to |entries.items|
      invariant forall i :: 0 <= i < j ==> ValidEntry(c.kind, entries.items[i])
      invariant Reached(snapshot, n, j, flat', seenIds', seenKeys')
    {
      if !ValidEntry(c.kind, entries.items[j]) {
        assert entries.items[j] in entries.items;
        return Some(InvalidEntry(c.name)), flat', seenIds', seenKeys';
      }
      var entry := FieldsOf(entries.items[j]);
      assert entry == EntriesIn(snapshot, c)[j];
      if IdOf(entry) in seenIds' {
        RepeatIsIllegal(snapshot, n, j, seenIds', seenKeys', flat');
        return Some(DuplicateId(IdOf(entry))), flat', seenIds', seenKeys';
      }
      if EntityKey(entry) in seenKeys' {
        RepeatIsIllegal(snapshot, n, j, seenIds', seenKeys', flat');
        return Some(DuplicateKey(EntityKey(entry))), flat', seenIds', seenKeys';
      }
      Advance(snapshot, n, j, flat', seenIds', seenKeys');
      seenIds', seenKeys' := seenIds' + {IdOf(entry)}, seenKeys' + {EntityKey(entry)};
      flat' := flat'[KeyOf(entry) := entry];
    }
    Leave(snapshot, n, flat', seenIds', seenKeys');
    error := None;
  }

  /** `_flatten_snapshot`. */
  method FlattenSnapshot(snapshot: Fields) returns (result: Result<Flat, CatalogueError>)
    ensures IsFlattening(snapshot, result)
  {
    hide KeyOf, Readable, EntriesOf, Holds;
    if !PyEq(Get(snapshot, "schema_version"), Int(1)) {
      return Raised(WrongSchema);
    }
    var flat: Flat, seenIds, seenKeys := map[], {}, {};
    NothingYet(snapshot);
    for n := 0 to |EXPECTED_KINDS|
      invariant forall i :: 0 <= i < n ==> Readable(snapshot, EXPECTED_KINDS[i])
      invariant Growing(flat, seenIds, seenKeys, EntriesOf(snapshot, n))
    {
      var error;
      error, flat, seenIds, seenKeys := FlattenCollection(snapshot, n, flat, seenIds, seenKeys);
      if error.Some? {
        return Raised(error.value);
      }
    }
    EntriesAreValid(snapshot, |EXPECTED_KINDS|);
    HeldIsKeyed(flat, EntriesOf(snapshot, |EXPECTED_KINDS|));
    result := Ok(flat);
  }

  lemma NothingYet(snapshot: Fields)
    ensures Growing(map[], {}, {}, EntriesOf(snapshot, 0))
  {
  }

  // ---------------------------------------------------------------------- comparing snapshots

  predicate KeyLt(a: Key, b: Key) {
    ListLt([a.kind, a.id], [b.kind, b.id])
  }

  lemma KeyLtStrictTotal()
    ensures StrictTotal(KeyLt)
  {
    hide ListLt;
    ListLtStrictTotal();
    forall x: Key, y: Key | x != y ensures KeyLt(x, y) || KeyLt(y, x) {
      var a, b := [x.kind, x.id], [y.kind, y.id];
      assert a[0] == x.kind && b[0] == y.kind && a[1] == x.id && b[1] == y.id;
    }
  }

  /** `sorted` of a set of keys. */
  function SortedKeys(s: set<Key>): (r: seq<Key>)
    ensures Ascending(KeyLt, r) && NoRepeats(r)
    ensures forall x :: x in r <==> x in s
  {
    KeyLtStrictTotal();
    SortedSet(KeyLt, s)
  }

  datatype FieldChange = FieldChange(before: Json, after: Json)

  datatype Change = Change(kind: string, id: string, key: Json, fields: map<string, FieldChange>)

  datatype Diff = Diff(added: seq<Fields>, changed: seq<Change>, removed: seq<Fields>)

  /** The fields on which two entries of the same key differ; a missing field counts as null. */
  function FieldChanges(before: Fields, after: Fields): map<string, FieldChange> {
    map f | f in before.Keys + after.Keys && f !in {"kind", "id"} && !PyEq(Get(before, f), Get(after, f))
      :: FieldChange(Get(before, f), Get(after, f))
  }

  /** `[flat[key] for key in keys]`. */
  function EntriesAt(flat: Flat, keys: seq<Key>): seq<Fields>
    requires forall k :: k in keys ==> k in flat
  {
    seq(|keys|, i requires 0 <= i < |keys| => assert keys[i] in keys; flat[keys[i]])
  }

  /** `after.get("key", before.get("key"))`. */
  function KeyField(before: Fields, after: Fields): Json {
    if "key" in after then after["key"] else Get(before, "key")
  }

  function ChangesAt(previous: Flat, current: Flat, keys: seq<Key>): seq<Change>
    requires forall k :: k in keys ==> k in previous && k in current
  {
    if keys == [] then []
    else
      var n := |keys| - 1;
      assert keys[n] in keys && forall k :: k in keys[..n] ==> k in keys;
      var fields := FieldChanges(previous[keys[n]], current[keys[n]]);
      ChangesAt(previous, current, keys[..n])
      + (if fields == map[] then []
         else [Change(keys[n].kind, keys[n].id, KeyField(previous[keys[n]], current[keys[n]]), fields)])
  }

  function Comparison(previous: Flat, current: Flat): Diff {
    Diff(
      EntriesAt(current, SortedKeys(current.Keys - previous.Keys)),
      ChangesAt(previous, current, SortedKeys(current.Keys * previous.Keys)),
      EntriesAt(previous, SortedKeys(previous.Keys - current.Keys)))
  }

  /** The entity is in both snapshots, with a lower version than before. */
  ghost predicate Drops(previous: Flat, current: Flat, k: Key) {
    k in previous && k in current &&
    exists a, b :: Get(previous[k], "version") == Int(a) && Get(current[k], "version") == Int(b) && b < a
  }

  ghost predicate NoRegression(previous: Flat, current: Flat) {
    forall k :: !Drops(previous, current, k)
  }

  lemma DropsIff(previous: Flat, current: Flat, k: Key)
    requires Keyed(previous) && Keyed(current) && k in previous && k in current
    ensures Get(previous[k], "version").Int? && Get(current[k], "version").Int?
    ensures Drops(previous, current, k) <==> Get(current[k], "version").i < Get(previous[k], "version").i
  {
    hide Get;
  }

  lemma CompareNext(previous: Flat, current: Flat, keys: seq<Key>, k: Key)
    requires (forall k :: k in keys ==> k in previous && k in current) && k in previous && k in current
    ensures var fields := FieldChanges(previous[k], current[k]);
      ChangesAt(previous, current, keys + [k]) ==
      if fields == map[] then ChangesAt(previous, current, keys)
      else ChangesAt(previous, current, keys) + [Change(k.kind, k.id, KeyField(previous[k], current[k]), fields)]
  {
    hide FieldChanges, KeyField;
    assert (keys + [k])[..|keys|] == keys;
  }

  lemma SliceGrows<T>(s: seq<T>, i: nat)
    requires i <= |s|
    ensures if i < |s| then s[..i + 1] == s[..i] + [s[i]] else s[..i] == s
  {
  }

  lemma NothingToCompare(previous: Flat, current: Flat)
    ensures ChangesAt(previous, current, []) == []
  {
  }

  /** The first entity, in the order of kinds and ids, whose version has dropped. */
  ghost predicate FirstDrop(previous: Flat, current: Flat, k: Key) {
    Drops(previous, current, k) && forall j :: KeyLt(j, k) ==> !Drops(previous, current, j)
  }

  lemma FirstDropAt(previous: Flat, current: Flat, common: seq<Key>, i: nat)
    requires Ascending(KeyLt, common) && i < |common| && Drops(previous, current, common[i])
    requires forall k :: k in common <==> k in current && k in previous
    requires forall k :: k in common[..i] ==> !Drops(previous, current, k)
    ensures FirstDrop(previous, current, common[i])
  {
    hide KeyLt;
    forall j | KeyLt(j, common[i]) ensures !Drops(previous, current, j) {
      if Drops(previous, current, j) {
        var n :| 0 <= n < |common| && common[n] == j;
        KeyLtStrictTotal();
        assert false;
      }
    }
  }

  lemma FirstDropIsDrop(previous: Flat, current: Flat, k: Key)
    requires FirstDrop(previous, current, k)
    ensures !NoRegression(previous, current)
  {
  }

  lemma NoDrops(previous: Flat, current: Flat, common: seq<Key>)
    requires forall k :: k in common <==> k in current && k in previous
    requires forall k :: k in common ==> !Drops(previous, current, k)
    ensures NoRegression(previous, current)
  {
    hide Get;
  }

  /** `diff_catalogue` on two flattened snapshots. */
  method DiffFlattened(previous: Flat, current: Flat) returns (result: Result<Diff, CatalogueError>)
    requires Keyed(previous) && Keyed(current)
    ensures result.Ok? <==> NoRegression(previous, current)
    ensures result.Ok? ==> result.value == Comparison(previous, current)
    ensures result.Raised? ==>
      result.error.VersionRegressed? && FirstDrop(previous, current, result.error.entity)
  {
    hide FieldChanges, KeyField, NoRepeats, Ascending, EntriesAt, ChangesAt, Drops, Keyed, FirstDrop, KeyLt, Get;
    NothingToCompare(previous, current);
    var added := EntriesAt(current, SortedKeys(current.Keys - previous.Keys));
    var removed := EntriesAt(previous, SortedKeys(previous.Keys - current.Keys));
    var common := SortedKeys(current.Keys * previous.Keys);
    var changed: seq<Change> := [];
    for i := 0 to |common|
      invariant forall k :: k in common[..i] ==> k in previous && k in current && !Drops(previous, current, k)
      invariant changed == ChangesAt(previous, current, common[..i])
    {
      var key := common[i];
      assert key in common;
      var before, after := previous[key], current[key];
      DropsIff(previous, current, key);
      if Get(after, "version").i < Get(before, "version").i {
        FirstDropAt(previous, current, common, i);
        FirstDropIsDrop(previous, current, key);
        return Raised(VersionRegressed(key));
      }
      SliceGrows(common, i);
      CompareNext(previous, current, common[..i], key);
      var fields := FieldChanges(before, after);
      if fields != map[] {
        changed := changed + [Change(key.kind, key.id, KeyField(before, after), fields)];
      }
    }
    SliceGrows(common, |common|);
    NoDrops(previous, current, common);
    result := Ok(Diff(added, changed, removed));
  }

  /** `diff_catalogue`: both snapshots have to be legal. */
  method DiffCatalogue(previous: Fields, current: Fields)
    returns (result: Result<Diff, CatalogueError>, ghost before: Flat, ghost after: Flat)
    ensures result.Ok? ==> Legal(previous) && Legal(current)
    ensures Legal(previous) && Legal(current) ==>
      && Holds(before, EntriesOf(previous, |EXPECTED_KINDS|)) && Keyed(before)
      && Holds(after, EntriesOf(current, |EXPECTED_KINDS|)) && Keyed(after)
      && (result.Ok? <==> NoRegression(before, after))
      && (result.Ok? ==> result.value == Comparison(before, after))
      && (result.Raised? ==> result.error.VersionRegressed? && FirstDrop(before, after, result.error.entity))
  {
    hide Legal, Holds, Keyed, EntriesOf, FirstDrop, NoRegression;
    before, after := map[], map[];
    var earlier := FlattenSnapshot(previous);
    if earlier.Raised? {
      return Raised(earlier.error), before, after;
    }
    var later := FlattenSnapshot(current);
    if later.Raised? {
      return Raised(later.error), before, after;
    }
    before, after := earlier.value, later.value;
    result := DiffFlattened(earlier.value, later.value);
  }

  // ------------------------------------------------------------------------------- patching

  function RemoveAll(flat: Flat, removed: seq<Fields>): Flat {
    if removed == [] then flat
    else RemoveAll(flat, removed[..|removed| - 1]) - {KeyOf(removed[|removed| - 1])}
  }

  function AddAll(flat: Flat, added: seq<Fields>): Flat {
    if added == [] then flat
    else AddAll(flat, added[..|added| - 1])[KeyOf(added[|added| - 1]) := added[|added| - 1]]
  }

  function SetFields(entry: Fields, changes: map<string, FieldChange>): Fields {
    entry + map f | f in changes :: changes[f].after
  }

  function ChangeAll(flat: Flat, changed: seq<Change>): Flat {
    if changed == [] then flat
    else
      var n := |changed| - 1;
      var before, key := ChangeAll(flat, changed[..n]), Key(changed[n].kind, changed[n].id);
      if key in before then before[key := SetFields(before[key], changed[n].fields)] else before
  }

  /** Carries out a difference on the snapshot it was taken against. */
  function Patch(flat: Flat, d: Diff): Flat {
    AddAll(ChangeAll(RemoveAll(flat, d.removed), d.changed), d.added)
  }

  /** The same entry to Python: equal values field by field, a missing one counting as null. */
  ghost predicate SameEntry(a: Fields, b: Fields) {
    forall f :: PyEq(Get(a, f), Get(b, f))
  }

  lemma KeyedKey(flat: Flat, k: Key)
    requires Keyed(flat) && k in flat
    ensures KeyOf(flat[k]) == k
  {
  }

  /** The last of some entries of a flattened snapshot, and the others. */
  lemma LastEntry(from: Flat, keys: seq<Key>)
    requires Keyed(from) && keys != [] && forall k :: k in keys ==> k in from
    ensures var n := |keys| - 1; var entries := EntriesAt(from, keys);
      && (forall k :: k in keys[..n] ==> k in from)
      && entries != [] && |entries| - 1 == n && entries[..n] == EntriesAt(from, keys[..n])
      && entries[n] == from[keys[n]] && KeyOf(entries[n]) == keys[n]
      && (set k | k in keys) == (set k | k in keys[..n]) + {keys[n]}
  {
    var n := |keys| - 1;
    KeyedKey(from, keys[n]);
    assert keys == keys[..n] + [keys[n]];
  }

  lemma {:induction false} RemoveAllKeys(flat: Flat, from: Flat, keys: seq<Key>)
    requires Keyed(from) && forall k :: k in keys ==> k in from
    ensures RemoveAll(flat, EntriesAt(from, keys)) == flat - (set k | k in keys)
  {
    hide KeyOf, Keyed;
    if keys != [] {
      LastEntry(from, keys);
      hide EntriesAt;
      RemoveAllKeys(flat, from, keys[..|keys| - 1]);
    }
  }

  function Restrict<K, V>(m: map<K, V>, keys: seq<K>): map<K, V>
    requires forall k :: k in keys ==> k in m
  {
    map k | k in keys :: m[k]
  }

  lemma RestrictLast<K, V>(m: map<K, V>, keys: seq<K>)
    requires keys != [] && forall k :: k in keys ==> k in m
    ensures (forall k :: k in keys[..|keys| - 1] ==> k in m)
    ensures var last := keys[|keys| - 1];
      Restrict(m, keys) == Restrict(m, keys[..|keys| - 1])[last := m[last]]
  {
    assert keys == keys[..|keys| - 1] + [keys[|keys| - 1]];
  }

  lemma SetAfterOverride<K, V>(a: map<K, V>, b: map<K, V>, k: K, v: V)
    ensures (a + b)[k := v] == a + b[k := v]
  {
  }

  lemma {:induction false} AddAllEntries(flat: Flat, from: Flat, keys: seq<Key>)
    requires Keyed(from) && forall k :: k in keys ==> k in from
    ensures AddAll(flat, EntriesAt(from, keys)) == flat + Restrict(from, keys)
  {
    hide KeyOf, Keyed;
    if keys != [] {
      var n := |keys| - 1;
      LastEntry(from, keys);
      RestrictLast(from, keys);
      hide EntriesAt, Restrict;
      AddAllEntries(flat, from, keys[..n]);
      SetAfterOverride(flat, Restrict(from, keys[..n]), keys[n], from[keys[n]]);
    }
  }

  lemma NextChange(flat: Flat, changed: seq<Change>, c: Change)
    ensures var before, key := ChangeAll(flat, changed), Key(c.kind, c.id);
      ChangeAll(flat, changed + [c]) ==
      if key in before then before[key := SetFields(before[key], c.fields)] else before
  {
    hide SetFields;
    assert (changed + [c])[..|changed|] == changed;
  }

  /** What the changes of some keys make of a snapshot. */
  ghost predicate Changed(flat: Flat, previous: Flat, current: Flat, keys: seq<Key>, r: Flat)
    requires forall k :: k in keys ==> k in previous && k in current
  {
    && r.Keys == flat.Keys
    && (forall k :: k in r && k in keys ==> r[k] == SetFields(previous[k], FieldChanges(previous[k], current[k])))
    && (forall k :: k in r && k !in keys ==> r[k] == flat[k])
  }

  lemma ChangedNext(flat: Flat, previous: Flat, current: Flat, keys: seq<Key>, r: Flat, k: Key)
    requires (forall x :: x in keys ==> x in previous && x in current) && k !in keys && k in flat
    requires k in previous && k in current && flat[k] == previous[k]
    requires Changed(flat, previous, current, keys, r)
    ensures k in r && r[k] == previous[k]
    ensures Changed(flat, previous, current, keys + [k],
                    r[k := SetFields(previous[k], FieldChanges(previous[k], current[k]))])
  {
    hide FieldChanges, SetFields;
  }

  lemma {:induction false} ChangeAllEntries(flat: Flat, previous: Flat, current: Flat, keys: seq<Key>)
    requires NoRepeats(keys)
    requires forall k :: k in keys ==> k in previous && k in current && k in flat && flat[k] == previous[k]
    ensures Changed(flat, previous, current, keys, ChangeAll(flat, ChangesAt(previous, current, keys)))
  {
    if keys != [] {
      var n := |keys| - 1;
      var init, last := keys[..n], keys[n];
      assert keys == init + [last] && last !in init && NoRepeats(init);
      hide FieldChanges, SetFields, KeyField, ChangeAll, NoRepeats, ChangesAt;
      ChangeAllEntries(flat, previous, current, init);
      var before, fields := ChangesAt(previous, current, init), FieldChanges(previous[last], current[last]);
      ChangedNext(flat, previous, current, init, ChangeAll(flat, before), last);
      hide Changed;
      CompareNext(previous, current, init, last);
      NoFieldsNoChange(previous[last]);
      SetSame(ChangeAll(flat, before), last);
      NextChange(flat, before, Change(last.kind, last.id, KeyField(previous[last], current[last]), fields));
    }
  }

  lemma SetSame<K, V>(m: map<K, V>, k: K)
    requires k in m
    ensures m[k := m[k]] == m
  {
  }

  lemma NoFieldsNoChange(entry: Fields)
    ensures SetFields(entry, map[]) == entry
  {
  }

  /** Setting the reported fields turns the old entry into the new one. */
  lemma FieldsAreRestored(before: Fields, after: Fields)
    requires Get(before, "kind") == Get(after, "kind") && Get(before, "id") == Get(after, "id")
    ensures SameEntry(SetFields(before, FieldChanges(before, after)), after)
  {
    var changes := FieldChanges(before, after);
    var patched := SetFields(before, changes);
    forall f ensures PyEq(Get(patched, f), Get(after, f)) {
      PyEqReflexive(Get(after, f));
      if f !in changes {
        assert Get(patched, f) == Get(before, f);
      }
    }
  }

  /** What the three steps of a patch leave behind. */
  lemma PatchedEntries(previous: Flat, current: Flat, gone: seq<Key>, kept: seq<Key>, added: seq<Key>)
    requires Keyed(previous) && Keyed(current) && NoRepeats(kept)
    requires forall k :: k in gone <==> k in previous && k !in current
    requires forall k :: k in kept <==> k in previous && k in current
    requires forall k :: k in added <==> k in current && k !in previous
    ensures var d := Diff(EntriesAt(current, added), ChangesAt(previous, current, kept), EntriesAt(previous, gone));
      && Patch(previous, d).Keys == current.Keys
      && forall k :: k in current ==>
           Patch(previous, d)[k] ==
           if k in previous then SetFields(previous[k], FieldChanges(previous[k], current[k])) else current[k]
  {
    hide SetFields, FieldChanges, RemoveAll, AddAll, ChangeAll, ChangesAt, EntriesAt, Keyed, NoRepeats;
    var stripped := RemoveAll(previous, EntriesAt(previous, gone));
    RemoveAllKeys(previous, previous, gone);
    var changed := ChangeAll(stripped, ChangesAt(previous, current, kept));
    ChangeAllEntries(stripped, previous, current, kept);
    AddAllEntries(changed, current, added);
  }

  /** Patching the previous snapshot with the difference gives the current one: the same
      entities, and the same entries to Python. */
  lemma PatchGivesCurrent(previous: Flat, current: Flat)
    requires Keyed(previous) && Keyed(current)
    ensures Patch(previous, Comparison(previous, current)).Keys == current.Keys
    ensures forall k :: k in current ==> SameEntry(Patch(previous, Comparison(previous, current))[k], current[k])
  {
    hide SameEntry, SetFields, FieldChanges, Patch, ChangesAt, EntriesAt, NoRepeats, Ascending;
    PatchedEntries(previous, current,
      SortedKeys(previous.Keys - current.Keys),
      SortedKeys(current.Keys * previous.Keys),
      SortedKeys(current.Keys - previous.Keys));
    forall k | k in current ensures SameEntry(Patch(previous, Comparison(previous, current))[k], current[k]) {
      if k in previous {
        FieldsAreRestored(previous[k], current[k]);
      } else {
        SameAsItself(current[k]);
      }
    }
  }

  lemma SameAsItself(e: Fields)
    ensures SameEntry(e, e)
  {
    forall f ensures PyEq(Get(e, f), Get(e, f)) {
      PyEqReflexive(Get(e, f));
    }
  }

  // ------------------------------------------------------------------------------- undoing

  function SwapFields(changes: map<string, FieldChange>): map<string, FieldChange> {
    map f | f in changes :: FieldChange(changes[f].after, changes[f].before)
  }

  function SwapChanges(changed: seq<Change>): seq<Change> {
    seq(|changed|, i requires 0 <= i < |changed| => changed[i].(fields := SwapFields(changed[i].fields)))
  }

  /** The difference read backwards. */
  function Backwards(d: Diff): Diff {
    Diff(d.removed, SwapChanges(d.changed), d.added)
  }

  lemma SwappedFields(before: Fields, after: Fields)
    ensures SwapFields(FieldChanges(before, after)) == FieldChanges(after, before)
  {
    forall f ensures PyEq(Get(before, f), Get(after, f)) <==> PyEq(Get(after, f), Get(before, f)) {
      PyEqSymmetric(Get(before, f), Get(after, f));
      PyEqSymmetric(Get(after, f), Get(before, f));
    }
  }

  /** What a patch reads of a change. */
  ghost predicate SameChanges(one: seq<Change>, other: seq<Change>) {
    |one| == |other| && forall i :: 0 <= i < |one| ==>
      one[i].kind == other[i].kind && one[i].id == other[i].id && one[i].fields == other[i].fields
  }

  lemma {:induction false} SameChangesSameEffect(flat: Flat, one: seq<Change>, other: seq<Change>)
    requires SameChanges(one, other)
    ensures ChangeAll(flat, one) == ChangeAll(flat, other)
  {
    hide SetFields;
    if one != [] {
      SameChangesSameEffect(flat, one[..|one| - 1], other[..|other| - 1]);
    }
  }

  lemma {:induction false} SwappedChanges(previous: Flat, current: Flat, keys: seq<Key>)
    requires forall k :: k in keys ==> k in previous && k in current
    ensures SameChanges(SwapChanges(ChangesAt(previous, current, keys)), ChangesAt(current, previous, keys))
  {
    hide FieldChanges, KeyField, SwapFields;
    if keys != [] {
      var n := |keys| - 1;
      var init, last := keys[..n], keys[n];
      assert keys == init + [last] && last in keys;
      SwappedChanges(previous, current, init);
      SwappedFields(previous[last], current[last]);
      SwapOnlyEmpty(FieldChanges(previous[last], current[last]));
      CompareNext(previous, current, init, last);
      CompareNext(current, previous, init, last);
    }
  }

  lemma SwapOnlyEmpty(changes: map<string, FieldChange>)
    ensures SwapFields(changes) == map[] <==> changes == map[]
  {
    if changes != map[] {
      var f :| f in changes;
      assert f in SwapFields(changes);
    }
  }

  /** The old values in the report are right as well: patching the current snapshot with the
      difference read backwards gives the previous one. */
  lemma UndoGivesPrevious(previous: Flat, current: Flat)
    requires Keyed(previous) && Keyed(current)
    ensures Patch(current, Backwards(Comparison(previous, current))).Keys == previous.Keys
    ensures forall k :: k in previous ==>
      SameEntry(Patch(current, Backwards(Comparison(previous, current)))[k], previous[k])
  {
    hide SameEntry, SetFields, FieldChanges, ChangesAt, EntriesAt, NoRepeats, Ascending, Keyed;
    hide RemoveAll, AddAll, ChangeAll, SameChanges, SwapChanges;
    var kept := SortedKeys(current.Keys * previous.Keys);
    assert current.Keys * previous.Keys == previous.Keys * current.Keys;
    SwappedChanges(previous, current, kept);
    SameChangesSameEffect(
      RemoveAll(current, Comparison(previous, current).added),
      SwapChanges(ChangesAt(previous, current, kept)),
      ChangesAt(current, previous, kept));
    PatchGivesCurrent(current, previous);
  }

  /** Nothing is reported exactly when both snapshots hold the same entities with the same
      entries. */
  lemma EmptyComparison(previous: Flat, current: Flat)
    requires Keyed(previous) && Keyed(current)
    ensures Comparison(previous, current) == Diff([], [], []) <==>
            previous.Keys == current.Keys && forall k :: k in current ==> SameEntry(previous[k], current[k])
  {
    hide SameEntry, FieldChanges, EntriesAt, ChangesAt, NoRepeats, Ascending, Get;
    NoEntries(current, SortedKeys(current.Keys - previous.Keys));
    NoEntries(previous, SortedKeys(previous.Keys - current.Keys));
    KeysEmpty(current.Keys - previous.Keys);
    KeysEmpty(previous.Keys - current.Keys);
    KeptUnchanged(previous, current);
    assert current.Keys - previous.Keys == {} && previous.Keys - current.Keys == {} <==> previous.Keys == current.Keys;
  }

  lemma KeptUnchanged(previous: Flat, current: Flat)
    requires Keyed(previous) && Keyed(current)
    ensures ChangesAt(previous, current, SortedKeys(current.Keys * previous.Keys)) == [] <==>
            forall k :: k in current && k in previous ==> SameEntry(previous[k], current[k])
  {
    hide SameEntry, FieldChanges, ChangesAt, NoRepeats, Ascending, Get;
    NoChanges(previous, current, SortedKeys(current.Keys * previous.Keys));
  }

  lemma NoEntries(flat: Flat, keys: seq<Key>)
    requires forall k :: k in keys ==> k in flat
    ensures EntriesAt(flat, keys) == [] <==> keys == []
  {
  }

  lemma KeysEmpty(s: set<Key>)
    ensures SortedKeys(s) == [] <==> s == {}
  {
    if s != {} {
      var k :| k in s;
      assert k in SortedKeys(s);
    }
    if SortedKeys(s) != [] {
      assert SortedKeys(s)[0] in s;
    }
  }

  lemma {:induction false} NoChanges(previous: Flat, current: Flat, keys: seq<Key>)
    requires Keyed(previous) && Keyed(current)
    requires forall k :: k in keys ==> k in previous && k in current
    ensures ChangesAt(previous, current, keys) == [] <==>
      forall k :: k in keys ==> SameEntry(previous[k], current[k])
  {
    hide FieldChanges, SameEntry, Get;
    if keys != [] {
      var n := |keys| - 1;
      assert keys == keys[..n] + [keys[n]];
      NoChanges(previous, current, keys[..n]);
      NoFieldChanges(previous[keys[n]], current[keys[n]]);
    }
  }

  lemma NoFieldChanges(before: Fields, after: Fields)
    requires Get(before, "kind") == Get(after, "kind") && Get(before, "id") == Get(after, "id")
    ensures FieldChanges(before, after) == map[] <==> SameEntry(before, after)
  {
    var changes := FieldChanges(before, after);
    if changes == map[] {
      forall f ensures PyEq(Get(before, f), Get(after, f)) {
        PyEqReflexive(Get(after, f));
        assert f !in changes;
      }
    } else {
      var f :| f in changes;
      assert !PyEq(Get(before, f), Get(after, f));
    }
  }

  // ------------------------------------------------------------- entries as the code writes them

  /** The fields that the entry builders give an entry of each kind. */
  function FieldNames(kind: string): set<string> {
    {"kind", "id", "key", "version"} +
    (if kind == "world" then {"task_world_id", "title", "summary", "domain", "tags", "capabilities"}
     else if kind == "profile" then
       {"parent_id", "registration_id", "task_world_id", "profile_id", "title", "summary", "category", "difficulty",
        "lifecycle", "visibility", "tags"}
     else if kind == "lifecycle" then {"template_id", "name", "discipline"}
     else {"parent_id", "registration_id", "template_id"})
  }

  /** Text, or a list of texts. */
  predicate Plain(j: Json) {
    j.String? || (j.Array? && forall i :: 0 <= i < |j.items| ==> j.items[i].String?)
  }

  /** An entry as `semantic_snapshot` writes it: besides the version only text and lists of it. */
  ghost predicate WrittenValues(entry: Fields) {
    Get(entry, "version").Int? && forall f :: f in entry && f != "version" ==> Plain(entry[f])
  }

  /** A flattened snapshot that the code has written itself. */
  ghost predicate Written(flat: Flat) {
    forall k :: k in flat ==> WrittenValues(flat[k]) && flat[k].Keys == FieldNames(k.kind)
  }

  /** On such values, and on null, Python's equality is equality. */
  lemma PlainEquality(a: Json, b: Json)
    requires Plain(b) || b.Null?
    ensures PyEq(a, b) ==> a == b
  {
    if PyEq(a, b) && b.Array? {
      forall i | 0 <= i < |b.items| ensures a.items[i] == b.items[i] {
        assert PyEq(a.items[i], b.items[i]);
      }
    }
  }

  /** Against a written entry nothing is lost: each field of the patched entry has exactly the
      current value, missing read as null. */
  lemma FieldsAreExact(before: Fields, after: Fields, f: string)
    requires WrittenValues(after) && Get(before, "version").Int?
    requires Get(before, "kind") == Get(after, "kind") && Get(before, "id") == Get(after, "id")
    ensures Get(SetFields(before, FieldChanges(before, after)), f) == Get(after, f)
  {
    hide Plain, PyEq;
    var changes := FieldChanges(before, after);
    if f in changes {
      assert Get(SetFields(before, changes), f) == Get(after, f);
    } else {
      assert Get(SetFields(before, changes), f) == Get(before, f);
      UnreportedIsEqual(before, after, f);
    }
  }

  lemma UnreportedIsEqual(before: Fields, after: Fields, f: string)
    requires WrittenValues(after) && Get(before, "version").Int? && f !in FieldChanges(before, after)
    requires Get(before, "kind") == Get(after, "kind") && Get(before, "id") == Get(after, "id")
    ensures Get(before, f) == Get(after, f)
  {
    if f == "version" {
      assert PyEq(Get(before, f), Get(after, f));
    } else {
      PlainEquality(Get(before, f), Get(after, f));
    }
  }

  /** The patched entry is the current one exactly if the current one has kept every field. */
  lemma ExactEntryIff(before: Fields, after: Fields)
    requires WrittenValues(after) && Get(before, "version").Int?
    requires Get(before, "kind") == Get(after, "kind") && Get(before, "id") == Get(after, "id")
    ensures SetFields(before, FieldChanges(before, after)) == after <==> before.Keys <= after.Keys
  {
    hide Plain, PyEq, FieldChanges;
    var patched := SetFields(before, FieldChanges(before, after));
    forall f ensures Get(patched, f) == Get(after, f) {
      FieldsAreExact(before, after, f);
    }
    assert before.Keys <= patched.Keys;
    if before.Keys <= after.Keys {
      PatchedFields(before, after);
      forall f | f in after ensures f in patched && patched[f] == after[f] {
        WrittenIsNotNull(after, f);
        assert Get(patched, f) == Get(after, f);
      }
    }
  }

  lemma PatchedFields(before: Fields, after: Fields)
    ensures SetFields(before, FieldChanges(before, after)).Keys <= before.Keys + after.Keys
  {
    hide PyEq;
  }

  lemma WrittenIsNotNull(entry: Fields, f: string)
    requires WrittenValues(entry) && f in entry
    ensures entry[f] != Null
  {
  }

  /** What a patch makes of each entity. */
  lemma PatchedAt(previous: Flat, current: Flat)
    requires Keyed(previous) && Keyed(current)
    ensures Patch(previous, Comparison(previous, current)).Keys == current.Keys
    ensures forall k :: k in current ==>
      Patch(previous, Comparison(previous, current))[k] ==
      if k in previous then SetFields(previous[k], FieldChanges(previous[k], current[k])) else current[k]
  {
    hide SetFields, FieldChanges, Patch, ChangesAt, EntriesAt, NoRepeats, Ascending;
    PatchedEntries(previous, current,
      SortedKeys(previous.Keys - current.Keys),
      SortedKeys(current.Keys * previous.Keys),
      SortedKeys(current.Keys - previous.Keys));
  }

  /** Against a current snapshot that the code has written, whatever the previous one holds,
      every field of the patched snapshot is exactly the current one, missing read as null. */
  lemma PatchIsExact(previous: Flat, current: Flat, k: Key, f: string)
    requires Keyed(previous) && Keyed(current) && Written(current) && k in current
    ensures k in Patch(previous, Comparison(previous, current))
    ensures Get(Patch(previous, Comparison(previous, current))[k], f) == Get(current[k], f)
  {
    hide Patch, Comparison, SetFields, FieldChanges;
    PatchedAt(previous, current);
    if k in previous {
      FieldsAreExact(previous[k], current[k], f);
    }
  }

  /** It is the current snapshot itself exactly if no entity has lost a field. */
  lemma PatchIsCurrentIff(previous: Flat, current: Flat)
    requires Keyed(previous) && Keyed(current) && Written(current)
    ensures Patch(previous, Comparison(previous, current)) == current <==>
            forall k :: k in previous && k in current ==> previous[k].Keys <= current[k].Keys
  {
    hide Patch, Comparison, SetFields, FieldChanges, WrittenValues, FieldNames;
    PatchedAt(previous, current);
    forall k | k in previous && k in current
      ensures Patch(previous, Comparison(previous, current))[k] == current[k] <==> previous[k].Keys <= current[k].Keys
    {
      ExactEntryIff(previous[k], current[k]);
    }
  }

  /** Between two snapshots that the code has written, the comparison loses nothing. */
  lemma WrittenPatchIsCurrent(previous: Flat, current: Flat)
    requires Keyed(previous) && Keyed(current) && Written(previous) && Written(current)
    ensures Patch(previous, Comparison(previous, current)) == current
  {
    hide Patch, Comparison, FieldNames;
    PatchIsCurrentIff(previous, current);
  }

  // ------------------------------------------------------- where Python's equality is coarser

  /** An entry with a field that the code itself never writes. */
  function EntryWith(enabled: Json): Fields {
    map["kind" := String("world"), "id" := String("w"), "key" := String("k"), "version" := Int(1), "enabled" := enabled]
  }

  function SnapshotWith(enabled: Json): Fields {
    map["schema_version" := Int(1), "worlds" := Array([Object(EntryWith(enabled))]), "profiles" := Array([]),
        "lifecycles" := Array([]), "variants" := Array([])]
  }

  function FlatWith(enabled: Json): Flat {
    map[Key("world", "w") := EntryWith(enabled)]
  }

  lemma EntryWithIsValid(enabled: Json)
    ensures ValidEntry("world", Object(EntryWith(enabled)))
    ensures KeyOf(EntryWith(enabled)) == Key("world", "w")
    ensures Get(EntryWith(enabled), "version") == Int(1)
    ensures Get(EntryWith(enabled), "enabled") == enabled
  {
    var id, key := "w", "k";
    assert !Whitespace(id[0]) && !Whitespace(key[0]);
  }

  lemma SnapshotWithEntries(enabled: Json)
    ensures EntriesOf(SnapshotWith(enabled), |EXPECTED_KINDS|) == [EntryWith(enabled)]
    ensures forall i :: 0 <= i < |EXPECTED_KINDS| ==> Readable(SnapshotWith(enabled), EXPECTED_KINDS[i])
    ensures PyEq(Get(SnapshotWith(enabled), "schema_version"), Int(1))
  {
    var s := SnapshotWith(enabled);
    hide EntryWith, ValidEntry;
    EntryWithIsValid(enabled);
    assert Get(s, "worlds") == Array([Object(EntryWith(enabled))]);
    assert Get(s, "profiles") == Get(s, "lifecycles") == Get(s, "variants") == Array([]);
    assert EntriesOf(s, 1) == [EntryWith(enabled)];
    assert EntriesOf(s, 2) == EntriesOf(s, 3) == EntriesOf(s, 4) == [EntryWith(enabled)];
  }

  lemma SnapshotWithIsLegal(enabled: Json)
    ensures Legal(SnapshotWith(enabled))
    ensures Holds(FlatWith(enabled), EntriesOf(SnapshotWith(enabled), |EXPECTED_KINDS|)) && Keyed(FlatWith(enabled))
  {
    hide EntryWith, SnapshotWith, EntriesOf, Readable;
    SnapshotWithEntries(enabled);
    EntryWithIsValid(enabled);
    var none: Flat := map[];
    HoldsNext(none, [], EntryWith(enabled));
    assert none[Key("world", "w") := EntryWith(enabled)] == FlatWith(enabled);
    assert [] + [EntryWith(enabled)] == [EntryWith(enabled)];
  }

  lemma EntriesLookTheSame()
    ensures SameEntry(EntryWith(Int(1)), EntryWith(Bool(true)))
    ensures EntryWith(Int(1)) != EntryWith(Bool(true))
  {
    forall f ensures PyEq(Get(EntryWith(Int(1)), f), Get(EntryWith(Bool(true)), f)) {
      PyEqReflexive(Get(EntryWith(Int(1)), f));
    }
    EntryWithIsValid(Int(1));
    EntryWithIsValid(Bool(true));
  }

  lemma NothingReported()
    ensures Comparison(FlatWith(Int(1)), FlatWith(Bool(true))) == Diff([], [], [])
    ensures FlatWith(Int(1)) != FlatWith(Bool(true))
  {
    hide EntryWith, SnapshotWith, SameEntry, Holds, Legal;
    SnapshotWithIsLegal(Int(1));
    SnapshotWithIsLegal(Bool(true));
    EntriesLookTheSame();
    EmptyComparison(FlatWith(Int(1)), FlatWith(Bool(true)));
    var k := Key("world", "w");
    assert FlatWith(Int(1))[k] == EntryWith(Int(1)) && FlatWith(Bool(true))[k] == EntryWith(Bool(true));
  }

  /** Python's equality is coarser than equality: between two legal snapshots a field that turns
      from 1 to true is not reported, and the patched snapshot keeps the 1. */
  lemma OneBecomingTrueIsNotReported()
    ensures Legal(SnapshotWith(Int(1))) && Holds(FlatWith(Int(1)), EntriesOf(SnapshotWith(Int(1)), |EXPECTED_KINDS|))
    ensures Legal(SnapshotWith(Bool(true))) &&
      Holds(FlatWith(Bool(true)), EntriesOf(SnapshotWith(Bool(true)), |EXPECTED_KINDS|))
    ensures NoRegression(FlatWith(Int(1)), FlatWith(Bool(true)))
    ensures Comparison(FlatWith(Int(1)), FlatWith(Bool(true))) == Diff([], [], [])
    ensures Patch(FlatWith(Int(1)), Comparison(FlatWith(Int(1)), FlatWith(Bool(true)))) != FlatWith(Bool(true))
  {
    hide EntryWith, SnapshotWith, Legal, Holds, EntriesOf, Keyed, Comparison;
    SnapshotWithIsLegal(Int(1));
    SnapshotWithIsLegal(Bool(true));
    EntryWithIsValid(Int(1));
    EntryWithIsValid(Bool(true));
    NothingReported();
  }
}
