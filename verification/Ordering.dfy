/** Python's ordering of strings and of lists of strings, and its `sorted`.

    Strings compare code point by code point and lists element by element; a proper
    prefix is smaller. Both orders are strict and total, which is what makes the sorted
    listing of a set unique. */
module Ordering {

  predicate StrLt(a: string, b: string) {
    b != [] && (a == [] || a[0] < b[0] || (a[0] == b[0] && StrLt(a[1..], b[1..])))
  }

  predicate ListLt(a: seq<string>, b: seq<string>) {
    b != [] && (a == [] || StrLt(a[0], b[0]) || (a[0] == b[0] && ListLt(a[1..], b[1..])))
  }

  /** a and b agree up to i, and there a ends or has the smaller character. */
  predicate SmallerAt(a: string, b: string, i: nat) {
    && i <= |a| && i < |b| && a[..i] == b[..i]
    && (i == |a| || a[i] < b[i])
  }

  /** The order of strings: at the first difference, the smaller character or the end decides. */
  lemma {:induction false} StrLtMeans(a: string, b: string)
    ensures StrLt(a, b) <==> exists i: nat :: SmallerAt(a, b, i)
  {
    if a == [] || b == [] || a[0] != b[0] {
      if StrLt(a, b) {
        assert SmallerAt(a, b, 0);
      }
      if i: nat :| SmallerAt(a, b, i) {
        assert i > 0 ==> a[..i][0] == b[..i][0];
      }
    } else {
      StrLtMeans(a[1..], b[1..]);
      if i: nat :| SmallerAt(a[1..], b[1..], i) {
        assert a[..i + 1] == [a[0]] + a[1..][..i] && b[..i + 1] == [b[0]] + b[1..][..i];
        assert SmallerAt(a, b, i + 1);
      }
      if i: nat :| SmallerAt(a, b, i) {
        assert i > 0;
        assert a[1..][..i - 1] == a[..i][1..] && b[1..][..i - 1] == b[..i][1..];
        assert SmallerAt(a[1..], b[1..], i - 1);
      }
    }
  }

  predicate ListSmallerAt(a: seq<string>, b: seq<string>, i: nat) {
    && i <= |a| && i < |b| && a[..i] == b[..i]
    && (i == |a| || StrLt(a[i], b[i]))
  }

  lemma ListSmallerShift(a: seq<string>, b: seq<string>, i: nat)
    requires a != [] && b != [] && a[0] == b[0]
    ensures ListSmallerAt(a[1..], b[1..], i) <==> ListSmallerAt(a, b, i + 1)
  {
    hide StrLt;
    if i < |a| && i < |b| {
      assert a[..i + 1] == [a[0]] + a[1..][..i] && b[..i + 1] == [b[0]] + b[1..][..i];
      assert a[1..][..i] == a[..i + 1][1..] && b[1..][..i] == b[..i + 1][1..];
    }
  }

  /** The order of lists: at the first difference, the smaller string or the end decides. */
  lemma {:induction false} ListLtMeans(a: seq<string>, b: seq<string>)
    ensures ListLt(a, b) <==> exists i: nat :: ListSmallerAt(a, b, i)
  {
    hide StrLt;
    if a == [] || b == [] || a[0] != b[0] {
      if ListLt(a, b) {
        assert ListSmallerAt(a, b, 0);
      }
      if i: nat :| ListSmallerAt(a, b, i) {
        assert i > 0 ==> a[..i][0] == b[..i][0];
      }
    } else {
      StrLtTrichotomy(a[0], a[0]);
      ListLtMeans(a[1..], b[1..]);
      assert !ListSmallerAt(a, b, 0);
      hide ListSmallerAt;
      if i: nat :| ListSmallerAt(a[1..], b[1..], i) {
        ListSmallerShift(a, b, i);
      }
      if i: nat :| ListSmallerAt(a, b, i) {
        ListSmallerShift(a, b, i - 1);
      }
    }
  }

  ghost predicate StrictTotal<T(!new)>(lt: (T, T) -> bool) {
    && (forall x :: !lt(x, x))
    && (forall x, y :: x != y ==> lt(x, y) || lt(y, x))
    && (forall x, y, z :: lt(x, y) && lt(y, z) ==> lt(x, z))
  }

  lemma {:induction false} StrLtTransitive(a: string, b: string, c: string)
    requires StrLt(a, b) && StrLt(b, c)
    ensures StrLt(a, c)
  {
    if a != [] && a[0] == b[0] && b[0] == c[0] {
      StrLtTransitive(a[1..], b[1..], c[1..]);
    }
  }

  lemma {:induction false} StrLtTrichotomy(a: string, b: string)
    ensures !StrLt(a, a)
    ensures a != b ==> StrLt(a, b) || StrLt(b, a)
  {
    if a != [] {
      StrLtTrichotomy(a[1..], if b == [] then [] else b[1..]);
      if b != [] && a[0] == b[0] && a[1..] == b[1..] {
        assert a == [a[0]] + a[1..] == b;
      }
    }
  }

  lemma StrLtStrictTotal()
    ensures StrictTotal(StrLt)
  {
    forall x, y ensures !StrLt(x, x) && (x != y ==> StrLt(x, y) || StrLt(y, x)) {
      StrLtTrichotomy(x, y);
    }
    forall x, y, z | StrLt(x, y) && StrLt(y, z) ensures StrLt(x, z) {
      StrLtTransitive(x, y, z);
    }
  }

  lemma {:induction false} ListLtTransitive(a: seq<string>, b: seq<string>, c: seq<string>)
    requires ListLt(a, b) && ListLt(b, c)
    ensures ListLt(a, c)
  {
    if a != [] {
      StrLtTrichotomy(a[0], b[0]);
      StrLtTrichotomy(c[0], c[0]);
      if a[0] == b[0] && b[0] == c[0] {
        ListLtTransitive(a[1..], b[1..], c[1..]);
      } else if StrLt(a[0], b[0]) && StrLt(b[0], c[0]) {
        StrLtTransitive(a[0], b[0], c[0]);
      }
    }
  }

  lemma {:induction false} ListLtTrichotomy(a: seq<string>, b: seq<string>)
    ensures !ListLt(a, a)
    ensures a != b ==> ListLt(a, b) || ListLt(b, a)
  {
    if a != [] {
      ListLtTrichotomy(a[1..], if b == [] then [] else b[1..]);
      StrLtTrichotomy(a[0], if b == [] then [] else b[0]);
      if b != [] && a[0] == b[0] && a[1..] == b[1..] {
        assert a == [a[0]] + a[1..] == b;
      }
    }
  }

  lemma ListLtStrictTotal()
    ensures StrictTotal(ListLt)
  {
    forall x, y ensures !ListLt(x, x) && (x != y ==> ListLt(x, y) || ListLt(y, x)) {
      ListLtTrichotomy(x, y);
    }
    forall x, y, z | ListLt(x, y) && ListLt(y, z) ensures ListLt(x, z) {
      ListLtTransitive(x, y, z);
    }
  }

  ghost predicate Ascending<T(!new)>(lt: (T, T) -> bool, s: seq<T>) {
    forall i, j :: 0 <= i < j < |s| ==> lt(s[i], s[j])
  }

  /** The order a sorted list may be in when elements can repeat. */
  ghost predicate NonDescending<T(!new)>(lt: (T, T) -> bool, s: seq<T>) {
    forall i, j :: 0 <= i < j < |s| ==> !lt(s[j], s[i])
  }

  lemma {:induction false} LeastExists<T(!new)>(lt: (T, T) -> bool, s: set<T>) returns (m: T)
    requires StrictTotal(lt) && s != {}
    ensures m in s && forall y :: y in s ==> y == m || lt(m, y)
  {
    var x :| x in s;
    if s == {x} {
      m := x;
    } else {
      var rest := s - {x};
      m := LeastExists(lt, rest);
      assert forall y :: y in s ==> y == x || y in rest;
      if lt(x, m) {
        m := x;
      }
    }
  }

  /** `sorted` of a set. */
  function SortedSet<T(!new)>(lt: (T, T) -> bool, s: set<T>): (r: seq<T>)
    requires StrictTotal(lt)
    ensures Ascending(lt, r)
    ensures forall x :: x in r <==> x in s
    ensures |r| == |s|
  {
    if s == {} then []
    else
      assert exists m :: m in s && forall y :: y in s ==> y == m || lt(m, y) by {
        var m := LeastExists(lt, s);
      }
      var m :| m in s && forall y :: y in s ==> y == m || lt(m, y);
      [m] + SortedSet(lt, s - {m})
  }

  /** `sorted` of a set of strings. */
  function SortedStrings(s: set<string>): (r: seq<string>)
    ensures Ascending(StrLt, r)
    ensures forall x :: x in r <==> x in s
    ensures |r| == |s|
  {
    StrLtStrictTotal();
    SortedSet(StrLt, s)
  }

  function Insert<T(!new)>(lt: (T, T) -> bool, x: T, s: seq<T>): (r: seq<T>)
    ensures multiset(r) == multiset([x]) + multiset(s)
  {
    if s == [] || !lt(s[0], x) then
      [x] + s
    else
      assert s == [s[0]] + s[1..];
      [s[0]] + Insert(lt, x, s[1..])
  }

  lemma {:induction false} InsertKeepsOrder<T(!new)>(lt: (T, T) -> bool, x: T, s: seq<T>)
    requires StrictTotal(lt) && NonDescending(lt, s)
    ensures NonDescending(lt, Insert(lt, x, s))
  {
    if s != [] && lt(s[0], x) {
      var rest := Insert(lt, x, s[1..]);
      InsertKeepsOrder(lt, x, s[1..]);
      forall j | 0 <= j < |rest| ensures !lt(rest[j], s[0]) {
        assert rest[j] in multiset(rest);
        assert rest[j] == x || rest[j] in s[1..];
      }
    }
  }

  /** `sorted` of a list. */
  function Sorted<T(!new)>(lt: (T, T) -> bool, s: seq<T>): (r: seq<T>)
    requires StrictTotal(lt)
    ensures NonDescending(lt, r)
    ensures multiset(r) == multiset(s)
  {
    if s == [] then []
    else
      assert s == [s[0]] + s[1..];
      var rest := Sorted(lt, s[1..]);
      InsertKeepsOrder(lt, s[0], rest);
      Insert(lt, s[0], rest)
  }

  ghost predicate NoRepeats<T(!new)>(s: seq<T>) {
    forall i, j :: 0 <= i < j < |s| ==> s[i] != s[j]
  }

  lemma {:induction false} NoRepeatsMultiplicity<T(!new)>(s: seq<T>)
    ensures NoRepeats(s) <==> forall x :: multiset(s)[x] <= 1
  {
    if s != [] {
      var rest := s[1..];
      NoRepeatsMultiplicity(rest);
      assert s == [s[0]] + rest;
      assert multiset(s) == multiset{s[0]} + multiset(rest);
      if NoRepeats(s) {
        assert s[0] !in rest;
        forall x ensures multiset(s)[x] <= 1 {
          assert multiset(rest)[x] <= 1 && (x == s[0] ==> x !in multiset(rest));
        }
      }
      if forall x :: multiset(s)[x] <= 1 {
        forall x ensures multiset(rest)[x] <= 1 { assert multiset(s)[x] <= 1; }
        assert multiset(rest)[s[0]] == 0 by { assert multiset(s)[s[0]] <= 1; }
        forall i, j | 0 <= i < j < |s| ensures s[i] != s[j] {
          if i > 0 { assert s[i] == rest[i - 1] && s[j] == rest[j - 1]; }
          else { assert s[j] == rest[j - 1]; }
        }
      }
    }
  }

  /** Sorting a list without repeats keeps its elements and orders them strictly. */
  lemma SortedNoRepeats<T(!new)>(lt: (T, T) -> bool, s: seq<T>)
    requires StrictTotal(lt) && NoRepeats(s)
    ensures Ascending(lt, Sorted(lt, s))
    ensures forall x :: x in Sorted(lt, s) <==> x in s
    ensures |Sorted(lt, s)| == |s|
  {
    var r := Sorted(lt, s);
    assert |multiset(r)| == |multiset(s)|;
    forall x ensures x in r <==> x in s {
      assert x in r <==> x in multiset(r);
      assert x in s <==> x in multiset(s);
    }
    NoRepeatsMultiplicity(s);
    NoRepeatsMultiplicity(r);
  }

  /** Two strictly ascending lists with the same elements are the same list. */
  lemma {:induction false} AscendingUnique<T(!new)>(lt: (T, T) -> bool, a: seq<T>, b: seq<T>)
    requires StrictTotal(lt) && Ascending(lt, a) && Ascending(lt, b)
    requires forall x :: x in a <==> x in b
    ensures a == b
  {
    assert (a != [] ==> a[0] in b) && (b != [] ==> b[0] in a);
    if a != [] {
      assert a[0] == b[0];
      var x := a[0];
      assert a == [x] + a[1..] && b == [x] + b[1..];
      forall y ensures y in a[1..] <==> y in b[1..] {
        assert x !in a[1..] && x !in b[1..];
        assert y in a <==> y == x || y in a[1..];
        assert y in b <==> y == x || y in b[1..];
      }
      AscendingUnique(lt, a[1..], b[1..]);
    }
  }
}
