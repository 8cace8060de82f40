/** src/aec_bench/contracts/dataset.py: task paths of a dataset manifest, and the test that no
    two of them overlap. The source compares neighbours in sorted order only. */
module DatasetOverlap {
  import opened Results
  import opened Ordering
  import opened Collections

  // ------------------------------------------------------------------------- portable paths

  /** `text.split("/")`. */
  function Split(text: string): (r: seq<string>)
    ensures r != []
  {
    if text == [] then [""]
    else
      var rest := Split(text[1..]);
      if text[0] == '/' then [""] + rest else [[text[0]] + rest[0]] + rest[1..]
  }

  /** A component that `PurePosixPath` keeps. */
  predicate Kept(part: string) {
    part != "" && part != "."
  }

  function KeptOf(parts: seq<string>): seq<string> {
    if parts == [] then [] else (if Kept(parts[0]) then [parts[0]] else []) + KeptOf(parts[1..])
  }

  /** `PurePosixPath(text).parts` of a relative path. */
  function Parts(text: string): seq<string> {
    KeptOf(Split(text))
  }

  function Join(parts: seq<string>): string {
    if parts == [] then "" else if |parts| == 1 then parts[0] else parts[0] + ("/" + Join(parts[1..]))
  }

  function AsPosix(parts: seq<string>): string {
    if parts == [] then "." else Join(parts)
  }

  /** `_validate_portable_relative_path`. */
  predicate ValidPath(text: string) {
    && '\\' !in text
    && !(text != [] && text[0] == '/')
    && ".." !in Parts(text)
    && AsPosix(Parts(text)) == text
  }

  lemma {:induction false} SplitAtSlash(a: string, b: string)
    ensures Split(a + ("/" + b)) == Split(a) + Split(b)
  {
    var whole := a + ("/" + b);
    if a == [] {
      assert whole[1..] == b;
    } else {
      assert whole[1..] == a[1..] + ("/" + b);
      SplitAtSlash(a[1..], b);
    }
  }

  lemma {:induction false} KeptOfConcat(a: seq<string>, b: seq<string>)
    ensures KeptOf(a + b) == KeptOf(a) + KeptOf(b)
  {
    if a == [] {
      assert a + b == b;
    } else {
      assert (a + b)[1..] == a[1..] + b;
      KeptOfConcat(a[1..], b);
    }
  }

  lemma {:induction false} JoinConcat(a: seq<string>, b: seq<string>)
    requires a != [] && b != []
    ensures Join(a + b) == Join(a) + ("/" + Join(b))
  {
    assert (a + b)[1..] == a[1..] + b;
    if |a| > 1 {
      JoinConcat(a[1..], b);
      assert Join(a + b) == a[0] + ("/" + (Join(a[1..]) + ("/" + Join(b))));
      assert Join(a) + ("/" + Join(b)) == a[0] + ("/" + Join(a[1..])) + ("/" + Join(b));
    } else {
      assert a[1..] + b == b;
    }
  }

  // --------------------------------------------------------------- portable paths as texts

  lemma {:induction false} JoinPrepends(c: char, parts: seq<string>)
    requires parts != []
    ensures Join([[c] + parts[0]] + parts[1..]) == [c] + Join(parts)
  {
    var longer := [[c] + parts[0]] + parts[1..];
    assert longer[1..] == parts[1..];
    if |parts| > 1 {
      assert [c] + parts[0] + ("/" + Join(parts[1..])) == [c] + (parts[0] + ("/" + Join(parts[1..])));
    }
  }

  /** Splitting finds the parts between the slashes: joined again they are the text. */
  lemma {:induction false} SplitRoundTrip(text: string)
    ensures Join(Split(text)) == text
    ensures forall part :: part in Split(text) ==> '/' !in part
  {
    if text != [] {
      var rest := Split(text[1..]);
      SplitRoundTrip(text[1..]);
      if text[0] == '/' {
        assert Split(text)[1..] == rest && Join(Split(text)) == "" + ("/" + Join(rest));
      } else {
        JoinPrepends(text[0], rest);
        assert forall part :: part in Split(text) ==> part == [text[0]] + rest[0] || part in rest;
        assert rest[0] in rest;
      }
    }
  }

  lemma {:induction false} SplitOfPart(part: string)
    requires '/' !in part
    ensures Split(part) == [part]
  {
    if part != [] {
      SplitOfPart(part[1..]);
      assert [part[0]] + part[1..] == part;
    }
  }

  lemma {:induction false} JoinRoundTrip(parts: seq<string>)
    requires parts != [] && forall part :: part in parts ==> '/' !in part
    ensures Split(Join(parts)) == parts
  {
    SplitOfPart(parts[0]);
    if |parts| > 1 {
      JoinRoundTrip(parts[1..]);
      SplitAtSlash(parts[0], Join(parts[1..]));
      assert parts == [parts[0]] + parts[1..];
    } else {
      assert parts == [parts[0]];
    }
  }

  lemma {:induction false} KeptOfMeans(parts: seq<string>)
    ensures forall part :: part in KeptOf(parts) <==> part in parts && part != "" && part != "."
  {
    if parts != [] {
      KeptOfMeans(parts[1..]);
      assert parts == [parts[0]] + parts[1..];
      assert forall part :: part in parts <==> part == parts[0] || part in parts[1..];
    }
  }

  lemma {:induction false} AllKept(parts: seq<string>)
    requires forall i :: 0 <= i < |parts| ==> Kept(parts[i])
    ensures KeptOf(parts) == parts
  {
    if parts != [] {
      AllKept(parts[1..]);
      assert Kept(parts[0]) && parts == [parts[0]] + parts[1..];
    }
  }

  /** A path is portable exactly if it has no backslash and either is "." or consists of parts
      between single slashes, none of them empty, "." or "..". */
  lemma ValidPathIff(text: string)
    ensures ValidPath(text) <==>
      '\\' !in text
      && (text == "." || forall part :: part in Split(text) ==> part != "" && part != "." && part != "..")
  {
    SplitRoundTrip(text);
    KeptOfMeans(Split(text));
    if text == "." {
      DotHasNoParts();
    } else if forall part :: part in Split(text) ==> part != "" && part != "." {
      forall i | 0 <= i < |Split(text)| ensures Kept(Split(text)[i]) {
        assert Split(text)[i] in Split(text);
      }
      AllKept(Split(text));
    }
    if ValidPath(text) && text != "." {
      assert Parts(text) != [];
      JoinRoundTrip(Parts(text));
    }
    if text != [] && text[0] == '/' {
      assert Split(text)[0] == "" && Split(text)[0] in Split(text);
    }
  }

  // ----------------------------------------------------------------------- what overlap means

  /** What the comparison of parts says about the texts: one path is the other, or contains
      it as a directory; the path "." contains everything. */
  ghost predicate Covers(outer: string, inner: string) {
    outer == "." || outer == inner || outer + "/" <= inner
  }

  lemma PrefixCovers(p: string, q: string)
    requires ValidPath(p) && ValidPath(q) && Parts(p) <= Parts(q)
    ensures Covers(p, q)
  {
    hide Parts, Join;
    if Parts(p) != [] && Parts(p) != Parts(q) {
      var rest := Parts(q)[|Parts(p)|..];
      assert Parts(q) == Parts(p) + rest;
      JoinConcat(Parts(p), rest);
      assert q == p + "/" + Join(rest);
    }
  }

  lemma CoveredHasPrefix(p: string, q: string)
    requires ValidPath(p) && p + "/" <= q
    ensures Parts(p) <= Parts(q)
  {
    hide ValidPath, KeptOf, Split;
    var rest := q[|p| + 1..];
    assert q == p + ("/" + rest);
    SplitAtSlash(p, rest);
    KeptOfConcat(Split(p), Split(rest));
  }

  lemma DotHasNoParts()
    ensures Parts(".") == []
  {
    var dot := ".";
    assert dot[1..] == "" && Split(dot[1..]) == [""] && [dot[0]] + "" == dot;
    assert Split(dot) == [dot];
    assert KeptOf([dot]) == KeptOf([dot][1..]);
  }

  lemma PrefixIsCovering(p: string, q: string)
    requires ValidPath(p) && ValidPath(q)
    ensures Parts(p) <= Parts(q) <==> Covers(p, q)
  {
    hide Parts, ValidPath;
    DotHasNoParts();
    if Parts(p) <= Parts(q) {
      PrefixCovers(p, q);
    }
    if p + "/" <= q {
      CoveredHasPrefix(p, q);
    }
  }

  /** No two valid paths have the same parts. */
  lemma PartsAreInjective(p: string, q: string)
    requires ValidPath(p) && ValidPath(q) && Parts(p) == Parts(q)
    ensures p == q
  {
  }

  // ------------------------------------------------------------------- neighbours suffice

  /** `following[: len(parts)] == parts` for some neighbours. */
  predicate NeighboursOverlap(ordered: seq<seq<string>>) {
    exists i :: 0 <= i < |ordered| - 1 &&
      (if |ordered[i + 1]| < |ordered[i]| then ordered[i + 1] else ordered[i + 1][..|ordered[i]|]) == ordered[i]
  }

  /** Two positions, one of which holds a prefix of the other. */
  ghost predicate SomePairOverlaps(lists: seq<seq<string>>) {
    exists i, j :: 0 <= i < |lists| && 0 <= j < |lists| && i != j && lists[i] <= lists[j]
  }

  /** What stands between a list and an extension of it, in the order of lists, extends it
      as well. */
  lemma {:induction false} BetweenPrefix(a: seq<string>, b: seq<string>, c: seq<string>)
    requires a <= c && !ListLt(b, a) && !ListLt(c, b)
    ensures a <= b
  {
    if a != [] {
      ListLtTrichotomy(b, c);
      StrLtTrichotomy(a[0], b[0]);
      StrLtTrichotomy(b[0], c[0]);
      BetweenPrefix(a[1..], b[1..], c[1..]);
    }
  }

  lemma {:induction false} PrefixIsNotLater(a: seq<string>, b: seq<string>)
    requires a <= b
    ensures !ListLt(b, a)
  {
    if a != [] {
      StrLtTrichotomy(a[0], a[0]);
      PrefixIsNotLater(a[1..], b[1..]);
    }
  }

  /** If positions i and j of a sorted list overlap, then so do the smaller of them and the
      position after it. */
  lemma OverlapReachesNeighbour(ordered: seq<seq<string>>, i: int, j: int)
    requires NonDescending(ListLt, ordered)
    requires 0 <= i < |ordered| && 0 <= j < |ordered| && i != j && ordered[i] <= ordered[j]
    ensures var low := if i < j then i else j; ordered[low] <= ordered[low + 1]
  {
    hide ListLt;
    var low, high := if i < j then i else j, if i < j then j else i;
    if j < i {
      PrefixIsNotLater(ordered[i], ordered[j]);
      ListLtTrichotomy(ordered[i], ordered[j]);
      assert ordered[i] == ordered[j];
    }
    assert !ListLt(ordered[low + 1], ordered[low]);
    ListLtTrichotomy(ordered[high], ordered[high]);
    assert !ListLt(ordered[high], ordered[low + 1]);
    BetweenPrefix(ordered[low], ordered[low + 1], ordered[high]);
  }

  /** In sorted order an overlap anywhere shows up between neighbours. */
  lemma NeighboursSuffice(ordered: seq<seq<string>>)
    requires NonDescending(ListLt, ordered)
    ensures NeighboursOverlap(ordered) <==> SomePairOverlaps(ordered)
  {
    hide NonDescending, ListLt;
    if SomePairOverlaps(ordered) {
      var i, j :| 0 <= i < |ordered| && 0 <= j < |ordered| && i != j && ordered[i] <= ordered[j];
      OverlapReachesNeighbour(ordered, i, j);
    }
    if NeighboursOverlap(ordered) {
      var i :| 0 <= i < |ordered| - 1 &&
        (if |ordered[i + 1]| < |ordered[i]| then ordered[i + 1] else ordered[i + 1][..|ordered[i]|]) == ordered[i];
      assert ordered[i] <= ordered[i + 1];
    }
  }

  /** Two positions of a list hold x and y exactly when the list holds both as a multiset. */
  lemma TwoPositions<T>(s: seq<T>, i: int, j: int)
    requires 0 <= i < |s| && 0 <= j < |s| && i != j
    ensures multiset{s[i], s[j]} <= multiset(s)
  {
    var low, high := if i < j then i else j, if i < j then j else i;
    var front, back := s[..high], s[high..];
    assert s == front + back && front[low] == s[low] && back[0] == s[high];
    assert multiset{s[i], s[j]} == multiset{front[low]} + multiset{back[0]};
    assert front[low] in multiset(front) && back[0] in multiset(back);
  }

  lemma FindPositions<T>(s: seq<T>, x: T, y: T) returns (i: int, j: int)
    requires multiset{x, y} <= multiset(s)
    ensures 0 <= i < |s| && 0 <= j < |s| && i != j && s[i] == x && s[j] == y
  {
    assert x in multiset{x, y} && x in multiset(s);
    i :| 0 <= i < |s| && s[i] == x;
    assert s == s[..i] + [x] + s[i + 1..];
    var others := s[..i] + s[i + 1..];
    assert multiset(s) == multiset(others) + multiset{x};
    assert y in multiset(others) by {
      assert multiset{x, y}[y] <= multiset(s)[y];
    }
    var k :| 0 <= k < |others| && others[k] == y;
    j := if k < i then k else k + 1;
  }

  lemma OverlapMoves(a: seq<seq<string>>, b: seq<seq<string>>)
    requires multiset(a) == multiset(b) && SomePairOverlaps(a)
    ensures SomePairOverlaps(b)
  {
    var i, j :| 0 <= i < |a| && 0 <= j < |a| && i != j && a[i] <= a[j];
    TwoPositions(a, i, j);
    var k, l := FindPositions(b, a[i], a[j]);
  }

  // -------------------------------------------------------------------------- the validator

  datatype TaskEntry = TaskEntry(taskId: string, path: string)

  function Mapped<A, B>(f: A -> B, s: seq<A>): seq<B> {
    seq(|s|, i requires 0 <= i < |s| => f(s[i]))
  }

  function TaskIds(tasks: seq<TaskEntry>): seq<string> {
    Mapped((t: TaskEntry) => t.taskId, tasks)
  }

  function TaskPaths(tasks: seq<TaskEntry>): seq<string> {
    Mapped((t: TaskEntry) => t.path, tasks)
  }

  function PathParts(tasks: seq<TaskEntry>): seq<seq<string>> {
    Mapped(Parts, TaskPaths(tasks))
  }

  /** `validate_unique_tasks`. */
  function ValidateUniqueTasks(tasks: seq<TaskEntry>): Result<(), string> {
    ListLtStrictTotal();
    if |Elements(TaskIds(tasks))| != |tasks| then Raised("task_id values must be unique")
    else if |Elements(TaskPaths(tasks))| != |tasks| then Raised("task paths must be unique")
    else if NeighboursOverlap(Sorted(ListLt, PathParts(tasks))) then Raised("task paths must not overlap")
    else Ok(())
  }

  /** No two entries share an identifier, and no entry's path covers another's. */
  ghost predicate Disjoint(tasks: seq<TaskEntry>) {
    && !SharedId(tasks)
    && forall i, j :: 0 <= i < |tasks| && 0 <= j < |tasks| && i != j ==> !Covers(tasks[i].path, tasks[j].path)
  }

  ghost predicate SharedId(tasks: seq<TaskEntry>) {
    exists i, j :: 0 <= i < j < |tasks| && tasks[i].taskId == tasks[j].taskId
  }

  ghost predicate SharedPath(tasks: seq<TaskEntry>) {
    exists i, j :: 0 <= i < j < |tasks| && tasks[i].path == tasks[j].path
  }

  lemma SharedPathCovers(tasks: seq<TaskEntry>)
    ensures SharedPath(tasks) ==> !Disjoint(tasks)
  {
    if i, j :| 0 <= i < j < |tasks| && tasks[i].path == tasks[j].path {
      assert Covers(tasks[i].path, tasks[j].path);
    }
  }

  lemma RepeatsAreShared(tasks: seq<TaskEntry>)
    ensures NoRepeats(TaskIds(tasks)) <==> !SharedId(tasks)
    ensures NoRepeats(TaskPaths(tasks)) <==> !SharedPath(tasks)
  {
    var ids, paths := TaskIds(tasks), TaskPaths(tasks);
    assert forall i :: 0 <= i < |tasks| ==> ids[i] == tasks[i].taskId && paths[i] == tasks[i].path;
  }

  lemma OverlapIsCovering(tasks: seq<TaskEntry>)
    requires forall t :: t in tasks ==> ValidPath(t.path)
    ensures SomePairOverlaps(PathParts(tasks)) <==>
            exists i, j :: 0 <= i < |tasks| && 0 <= j < |tasks| && i != j && Covers(tasks[i].path, tasks[j].path)
  {
    var parts := PathParts(tasks);
    forall i, j | 0 <= i < |tasks| && 0 <= j < |tasks|
      ensures parts[i] <= parts[j] <==> Covers(tasks[i].path, tasks[j].path)
    {
      assert tasks[i] in tasks && tasks[j] in tasks;
      PrefixIsCovering(tasks[i].path, tasks[j].path);
    }
  }

  /** A manifest with portable paths is accepted exactly when its entries are disjoint. */
  lemma AcceptedIffDisjoint(tasks: seq<TaskEntry>)
    requires forall t :: t in tasks ==> ValidPath(t.path)
    ensures ValidateUniqueTasks(tasks).Ok? <==> Disjoint(tasks)
    ensures ValidateUniqueTasks(tasks) == Raised("task_id values must be unique") <==> SharedId(tasks)
    ensures ValidateUniqueTasks(tasks) == Raised("task paths must be unique") <==> !SharedId(tasks) && SharedPath(tasks)
    ensures ValidateUniqueTasks(tasks) == Raised("task paths must not overlap") <==>
            !Disjoint(tasks) && !SharedId(tasks) && !SharedPath(tasks)
  {
    RepeatsAreShared(tasks);
    hide ListLt, ValidPath, Parts, StrictTotal, SharedId, SharedPath;
    ListLtStrictTotal();
    var ordered := Sorted(ListLt, PathParts(tasks));
    NeighboursSuffice(ordered);
    if SomePairOverlaps(ordered) {
      OverlapMoves(ordered, PathParts(tasks));
    }
    if SomePairOverlaps(PathParts(tasks)) {
      OverlapMoves(PathParts(tasks), ordered);
    }
    hide Sorted, NeighboursOverlap, SomePairOverlaps;
    OverlapIsCovering(tasks);
    CountShowsRepeats(TaskIds(tasks));
    CountShowsRepeats(TaskPaths(tasks));
    SharedPathCovers(tasks);
  }
}
