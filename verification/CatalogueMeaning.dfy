/** What src/aec_bench/catalogue.py accepts as a snapshot and what it reports of two of them,
    said of the snapshots' own fields. */
module CatalogueMeaning {
  import opened Results
  import opened Ordering
  import opened Json
  import opened Catalogue

  // ------------------------------------------------------------------------ legal snapshots

  lemma WhitespaceMeans(c: char)
    ensures Whitespace(c) <==>
      c as int in {9, 10, 11, 12, 13, 28, 29, 30, 31, 32, 133, 160, 5760, 8192, 8193, 8194, 8195, 8196, 8197, 8198,
                   8199, 8200, 8201, 8202, 8232, 8233, 8239, 8287, 12288}
  {
  }

  /** An entry is valid if it is an object of its collection's kind whose id and key are texts
      with a character that is not blank and whose version is a positive integer. */
  lemma ValidEntryIff(kind: string, entry: Json)
    ensures ValidEntry(kind, entry) <==>
      && entry.Object?
      && "kind" in entry.fields && entry.fields["kind"] == String(kind)
      && "id" in entry.fields && entry.fields["id"].String?
      && (exists c :: c in entry.fields["id"].s && !Whitespace(c))
      && "key" in entry.fields && entry.fields["key"].String?
      && (exists c :: c in entry.fields["key"].s && !Whitespace(c))
      && "version" in entry.fields && entry.fields["version"].Int? && entry.fields["version"].i > 0
  {
    hide Whitespace;
    if entry.Object? {
      NonBlankIff(Get(entry.fields, "id"));
      NonBlankIff(Get(entry.fields, "key"));
    }
  }

  lemma NonBlankIff(j: Json)
    ensures NonBlankText(j) <==> j.String? && exists c :: c in j.s && !Whitespace(c)
  {
    hide Whitespace;
    if j.String? && exists c :: c in j.s && !Whitespace(c) {
      var c :| c in j.s && !Whitespace(c);
      var i :| 0 <= i < |j.s| && j.s[i] == c;
    }
  }

  ghost predicate ListOf(snapshot: Fields, name: string, kind: string, entries: seq<Fields>) {
    && name in snapshot && snapshot[name].Array? && |snapshot[name].items| == |entries|
    && forall i :: 0 <= i < |entries| ==>
         snapshot[name].items[i] == Object(entries[i]) && ValidEntry(kind, Object(entries[i]))
  }

  /** A snapshot is legal exactly if its schema version equals 1, its four collections are lists
      of valid entries of their kinds, and no two entries of any collections share an id or a
      key; its entries are then those of the four lists, in this order. */
  lemma LegalMeans(snapshot: Fields)
    ensures Legal(snapshot) <==>
      PyEq(Get(snapshot, "schema_version"), Int(1)) &&
      exists w, p, l, v ::
        && ListOf(snapshot, "worlds", "world", w) && ListOf(snapshot, "profiles", "profile", p)
        && ListOf(snapshot, "lifecycles", "lifecycle", l) && ListOf(snapshot, "variants", "variant", v)
        && Unshared(w + p + l + v)
  {
    hide ValidEntry, PyEq, Get;
    forall i | 0 <= i < |EXPECTED_KINDS|
      ensures Readable(snapshot, EXPECTED_KINDS[i]) <==>
              ListOf(snapshot, EXPECTED_KINDS[i].name, EXPECTED_KINDS[i].kind, EntriesIn(snapshot, EXPECTED_KINDS[i]))
      ensures forall e :: ListOf(snapshot, EXPECTED_KINDS[i].name, EXPECTED_KINDS[i].kind, e) ==>
              e == EntriesIn(snapshot, EXPECTED_KINDS[i])
    {
      ReadableIff(snapshot, EXPECTED_KINDS[i]);
    }
    var k := EXPECTED_KINDS;
    var w, p := EntriesIn(snapshot, k[0]), EntriesIn(snapshot, k[1]);
    var l, v := EntriesIn(snapshot, k[2]), EntriesIn(snapshot, k[3]);
    AllEntries(snapshot);
    hide EntriesIn, EntriesOf, ListOf, Readable;
    UnsharedIff(w + p + l + v);
  }

  /** No two entries have the same id, or the same key. */
  ghost predicate Unshared(entries: seq<Fields>) {
    forall i, j :: 0 <= i < j < |entries| ==>
      IdText(entries[i]) != IdText(entries[j]) && KeyText(entries[i]) != KeyText(entries[j])
  }

  function IdText(entry: Fields): string {
    if "id" in entry && entry["id"].String? then entry["id"].s else ""
  }

  function KeyText(entry: Fields): string {
    if "key" in entry && entry["key"].String? then entry["key"].s else ""
  }

  lemma UnsharedIff(entries: seq<Fields>)
    ensures Unshared(entries) <==> NoRepeats(Ids(entries)) && NoRepeats(EntityKeys(entries))
  {
    var ids, keys := Ids(entries), EntityKeys(entries);
    forall i | 0 <= i < |entries| ensures ids[i] == IdText(entries[i]) && keys[i] == KeyText(entries[i]) {
    }
    hide IdText, KeyText, Ids, EntityKeys;
  }

  lemma AllEntries(snapshot: Fields)
    ensures var k := EXPECTED_KINDS;
      EntriesOf(snapshot, 4) == EntriesIn(snapshot, k[0]) + EntriesIn(snapshot, k[1]) + EntriesIn(snapshot, k[2])
                                + EntriesIn(snapshot, k[3])
  {
    hide EntriesIn;
    var k := EXPECTED_KINDS;
    assert EntriesOf(snapshot, 1) == EntriesIn(snapshot, k[0]);
    assert EntriesOf(snapshot, 2) == EntriesIn(snapshot, k[0]) + EntriesIn(snapshot, k[1]);
    assert EntriesOf(snapshot, 3) == EntriesOf(snapshot, 2) + EntriesIn(snapshot, k[2]);
  }

  lemma ReadableIff(snapshot: Fields, c: Collection)
    ensures Readable(snapshot, c) <==> ListOf(snapshot, c.name, c.kind, EntriesIn(snapshot, c))
    ensures forall e :: ListOf(snapshot, c.name, c.kind, e) ==> e == EntriesIn(snapshot, c)
  {
    hide NonBlankText, Whitespace;
    if Readable(snapshot, c) {
      var items, entries := Get(snapshot, c.name).items, EntriesIn(snapshot, c);
      forall i | 0 <= i < |entries| ensures items[i] == Object(entries[i]) && ValidEntry(c.kind, Object(entries[i])) {
        assert ValidEntry(c.kind, items[i]);
      }
    }
    hide ValidEntry;
    forall e | ListOf(snapshot, c.name, c.kind, e) ensures e == EntriesIn(snapshot, c) && Readable(snapshot, c) {
      var items := snapshot[c.name].items;
      forall x | x in items ensures ValidEntry(c.kind, x) {
        var i :| 0 <= i < |items| && items[i] == x;
        assert items[i] == Object(e[i]);
      }
    }
  }

  // ------------------------------------------------------------------------------ reports

  /** In the order of kinds, and of ids within a kind. */
  predicate EarlierKey(a: Key, b: Key) {
    StrLt(a.kind, b.kind) || (a.kind == b.kind && StrLt(a.id, b.id))
  }

  lemma EarlierKeyIff(a: Key, b: Key)
    ensures KeyLt(a, b) <==> EarlierKey(a, b)
  {
    hide StrLt;
    var x, y := [a.kind, a.id], [b.kind, b.id];
    assert x[0] == a.kind && y[0] == b.kind && x[1..] == [a.id] && y[1..] == [b.id];
    assert [a.id][1..] == [] && [b.id][1..] == [];
    assert ListLt([a.id], [b.id]) <==> StrLt(a.id, b.id) || (a.id == b.id && ListLt([], []));
  }

  /** What a comparison lists: as added, the entries of new entities; as removed, those of lost
      ones; each in the order of their keys. */
  lemma ListsMean(previous: Flat, current: Flat, e: Fields)
    ensures var d := Comparison(previous, current);
      && (e in d.added <==> exists k :: k in current && k !in previous && current[k] == e)
      && (e in d.removed <==> exists k :: k in previous && k !in current && previous[k] == e)
  {
    EntriesAtMean(current, SortedKeys(current.Keys - previous.Keys), e);
    EntriesAtMean(previous, SortedKeys(previous.Keys - current.Keys), e);
  }

  lemma EntriesAtMean(flat: Flat, keys: seq<Key>, e: Fields)
    requires forall k :: k in keys ==> k in flat
    ensures e in EntriesAt(flat, keys) <==> exists k :: k in keys && flat[k] == e
  {
    var entries := EntriesAt(flat, keys);
    if e in entries {
      var i :| 0 <= i < |entries| && entries[i] == e;
      assert keys[i] in keys;
    }
    if k :| k in keys && flat[k] == e {
      var i :| 0 <= i < |keys| && keys[i] == k;
      assert entries[i] == e;
    }
  }

  ghost predicate EntriesOrdered(entries: seq<Fields>) {
    forall i, j :: 0 <= i < j < |entries| ==> EarlierKey(KeyOf(entries[i]), KeyOf(entries[j]))
  }

  function EntityOf(c: Change): Key {
    Key(c.kind, c.id)
  }

  ghost predicate ChangesOrdered(changes: seq<Change>) {
    forall i, j :: 0 <= i < j < |changes| ==> EarlierKey(EntityOf(changes[i]), EntityOf(changes[j]))
  }

  lemma ListsInOrder(previous: Flat, current: Flat)
    requires Keyed(previous) && Keyed(current)
    ensures var d := Comparison(previous, current);
      EntriesOrdered(d.added) && EntriesOrdered(d.removed) && ChangesOrdered(d.changed)
  {
    hide ChangesAt, EntriesAt, EntriesOrdered, ChangesOrdered, Keyed, Ascending, NoRepeats;
    EntriesInOrder(current, SortedKeys(current.Keys - previous.Keys));
    EntriesInOrder(previous, SortedKeys(previous.Keys - current.Keys));
    ChangesInOrder(previous, current, SortedKeys(current.Keys * previous.Keys));
  }

  lemma EntriesInOrder(flat: Flat, keys: seq<Key>)
    requires Keyed(flat) && Ascending(KeyLt, keys) && forall k :: k in keys ==> k in flat
    ensures EntriesOrdered(EntriesAt(flat, keys))
  {
    hide KeyLt, EarlierKey, KeyOf;
    var e := EntriesAt(flat, keys);
    forall i, j | 0 <= i < j < |e| ensures EarlierKey(KeyOf(e[i]), KeyOf(e[j])) {
      assert keys[i] in keys && keys[j] in keys;
      KeyedKey(flat, keys[i]);
      KeyedKey(flat, keys[j]);
      EarlierKeyIff(keys[i], keys[j]);
    }
  }

  lemma ShorterAscending(init: seq<Key>, last: Key)
    requires Ascending(KeyLt, init + [last])
    ensures Ascending(KeyLt, init)
    ensures forall k :: k in init ==> EarlierKey(k, last)
  {
    hide KeyLt, EarlierKey;
    var keys := init + [last];
    assert forall i :: 0 <= i < |init| ==> keys[i] == init[i];
    forall k | k in init ensures EarlierKey(k, last) {
      var i :| 0 <= i < |init| && init[i] == k;
      EarlierKeyIff(keys[i], keys[|init|]);
    }
  }

  lemma OrderedNext(changes: seq<Change>, c: Change)
    requires ChangesOrdered(changes) && forall x :: x in changes ==> EarlierKey(EntityOf(x), EntityOf(c))
    ensures ChangesOrdered(changes + [c])
  {
    hide EarlierKey, EntityOf;
    var longer := changes + [c];
    forall i, j | 0 <= i < j < |longer| ensures EarlierKey(EntityOf(longer[i]), EntityOf(longer[j])) {
      assert longer[i] == changes[i] && changes[i] in changes;
    }
  }

  lemma {:induction false} ChangesInOrder(previous: Flat, current: Flat, keys: seq<Key>)
    requires Ascending(KeyLt, keys) && forall k :: k in keys ==> k in previous && k in current
    ensures ChangesOrdered(ChangesAt(previous, current, keys))
    ensures forall c :: c in ChangesAt(previous, current, keys) ==> EntityOf(c) in keys
  {
    hide FieldChanges, KeyField, EarlierKey, Ascending;
    if keys != [] {
      var n := |keys| - 1;
      var init, last := keys[..n], keys[n];
      assert keys == init + [last];
      ShorterAscending(init, last);
      ChangesInOrder(previous, current, init);
      CompareNext(previous, current, init, last);
      hide ChangesOrdered, ChangesAt;
      var fields := FieldChanges(previous[last], current[last]);
      if fields != map[] {
        OrderedNext(ChangesAt(previous, current, init),
                    Change(last.kind, last.id, KeyField(previous[last], current[last]), fields));
      }
    }
  }

  /** A change names an entity of both snapshots, its current key, and exactly the fields,
      other than kind and id, on which Python finds a difference, with both values. */
  ghost predicate Describes(previous: Flat, current: Flat, c: Change) {
    var k := Key(c.kind, c.id);
    && k in previous && k in current && c.fields != map[]
    && (forall f :: f in c.fields <==>
          f != "kind" && f != "id" && !PyEq(Get(previous[k], f), Get(current[k], f)))
    && (forall f :: f in c.fields ==>
          c.fields[f].before == Get(previous[k], f) && c.fields[f].after == Get(current[k], f))
    && c.key == if "key" in current[k] then current[k]["key"] else Get(previous[k], "key")
  }

  lemma FieldChangesMean(before: Fields, after: Fields)
    ensures forall f :: f in FieldChanges(before, after) <==>
      f != "kind" && f != "id" && !PyEq(Get(before, f), Get(after, f))
    ensures forall f :: f in FieldChanges(before, after) ==>
      FieldChanges(before, after)[f] == FieldChange(Get(before, f), Get(after, f))
  {
    PyEqReflexive(Null);
  }

  lemma {:induction false} ChangesMean(previous: Flat, current: Flat, keys: seq<Key>)
    requires forall k :: k in keys ==> k in previous && k in current
    ensures forall c :: c in ChangesAt(previous, current, keys) ==> Describes(previous, current, c)
    ensures forall k :: k in keys && FieldChanges(previous[k], current[k]) != map[] ==>
      exists c :: c in ChangesAt(previous, current, keys) && EntityOf(c) == k
  {
    hide FieldChanges, Describes, Get, KeyField;
    if keys != [] {
      var n := |keys| - 1;
      var init, last := keys[..n], keys[n];
      assert keys == init + [last];
      ChangesMean(previous, current, init);
      CompareNext(previous, current, init, last);
      hide ChangesAt;
      var before, fields := ChangesAt(previous, current, init), FieldChanges(previous[last], current[last]);
      if fields != map[] {
        ChangeDescribes(previous, current, last);
        var c := Change(last.kind, last.id, KeyField(previous[last], current[last]), fields);
        assert forall x :: x in before + [c] <==> x in before || x == c;
        assert EntityOf(c) == last;
      }
    }
  }

  lemma ChangeDescribes(previous: Flat, current: Flat, k: Key)
    requires k in previous && k in current && FieldChanges(previous[k], current[k]) != map[]
    ensures Describes(previous, current,
                      Change(k.kind, k.id, KeyField(previous[k], current[k]), FieldChanges(previous[k], current[k])))
  {
    FieldChangesMean(previous[k], current[k]);
    hide FieldChanges, PyEq, Get;
  }

  /** Python finds a difference between both entries of the entity, in this field. */
  ghost predicate Differs(previous: Flat, current: Flat, k: Key, f: string) {
    k in previous && k in current && f != "kind" && f != "id" && !PyEq(Get(previous[k], f), Get(current[k], f))
  }

  /** The changes of a comparison describe entities of both snapshots, and there is one for
      every such entity on which Python finds a difference in a field other than kind and id. */
  lemma ComparisonMeans(previous: Flat, current: Flat)
    ensures forall c :: c in Comparison(previous, current).changed ==> Describes(previous, current, c)
    ensures forall k, f :: Differs(previous, current, k, f) ==>
      exists c :: c in Comparison(previous, current).changed && EntityOf(c) == k
  {
    hide Describes, ChangesAt, FieldChanges, PyEq, Get, EntriesAt;
    ChangesMean(previous, current, SortedKeys(current.Keys * previous.Keys));
    forall k, f | Differs(previous, current, k, f)
      ensures exists c :: c in Comparison(previous, current).changed && EntityOf(c) == k
    {
      FieldChangesMean(previous[k], current[k]);
      assert f in FieldChanges(previous[k], current[k]);
      assert k in SortedKeys(current.Keys * previous.Keys);
    }
  }
}
