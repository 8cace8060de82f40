/** Counting facts about sequences and sets that several components need. */
module Collections {
  import opened Ordering

  function Elements<T>(s: seq<T>): set<T> {
    set x | x in s
  }

  lemma {:induction false} SubsetSize<T>(a: set<T>, b: set<T>)
    requires a <= b
    ensures |a| <= |b|
    ensures |a| == |b| ==> a == b
  {
    if a != {} {
      var x :| x in a;
      SubsetSize(a - {x}, b - {x});
    }
  }

  lemma {:induction false} ElementsCount<T(!new)>(s: seq<T>)
    ensures |Elements(s)| <= |s|
    ensures NoRepeats(s) ==> |Elements(s)| == |s|
  {
    if s != [] {
      var n := |s| - 1;
      ElementsCount(s[..n]);
      assert s == s[..n] + [s[n]];
      assert Elements(s) == Elements(s[..n]) + {s[n]};
    }
  }

  /** `len(items) != len(set(items))` finds exactly the lists with a repeat. */
  lemma {:induction false} CountShowsRepeats<T(!new)>(s: seq<T>)
    ensures |Elements(s)| == |s| <==> NoRepeats(s)
  {
    ElementsCount(s);
    if !NoRepeats(s) {
      var n := |s| - 1;
      var init := s[..n];
      assert s == init + [s[n]];
      assert Elements(s) == Elements(init) + {s[n]};
      ElementsCount(init);
      if NoRepeats(init) {
        assert s[n] in init;
        assert Elements(s) == Elements(init);
      } else {
        CountShowsRepeats(init);
      }
    }
  }
}
