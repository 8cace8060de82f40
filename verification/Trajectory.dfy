/** src/aec_bench/adapters/tool_loop_local.py, `_record_trajectory`: publishing each message of
    a run once, from snapshots of its history that arrive in any order. */
module Trajectory {
  import opened Results

  /** The largest number of messages in any snapshot. */
  function Longest<T>(snapshots: seq<seq<T>>): nat {
    if snapshots == [] then 0
    else
      var n := |snapshots| - 1;
      var before := Longest(snapshots[..n]);
      if before < |snapshots[n]| then |snapshots[n]| else before
  }

  /** What has been published after the snapshots, one after the other: of each, the messages
      beyond the watermark. */
  function Published<T>(snapshots: seq<seq<T>>): seq<T> {
    if snapshots == [] then []
    else
      var n := |snapshots| - 1;
      Published(snapshots[..n]) + Beyond(snapshots[n], Longest(snapshots[..n]))
  }

  /** `messages[seen:]`. */
  function Beyond<T>(messages: seq<T>, seen: nat): seq<T> {
    if seen <= |messages| then messages[seen..] else []
  }

  /** The client's trajectory state. `seen` is reset by every run, the writer's output is not. */
  class Recorder<T> {
    const hasWriter: bool
    var seen: nat
    var output: seq<T>
    ghost var earlier: seq<T>
    ghost var snapshots: seq<seq<T>>
    /** The writer has raised in the middle of a call of this run. */
    ghost var broken: bool

    ghost predicate Valid()
      reads this
    {
      && (hasWriter ==> seen == Longest(snapshots))
      && (!hasWriter ==> seen == 0 && output == earlier && !broken)
      && (hasWriter && !broken ==> output == earlier + Published(snapshots))
    }

    constructor (hasWriter: bool)
      ensures Valid() && this.hasWriter == hasWriter && output == [] && snapshots == [] && !broken
    {
      this.hasWriter, seen, output, earlier, snapshots, broken := hasWriter, 0, [], [], [], false;
    }

    /** The start of `_run_agent` (line 517). */
    method StartRun()
      requires Valid()
      modifies this
      ensures Valid() && earlier == output == old(output) && snapshots == [] && !broken
    {
      seen, earlier, snapshots, broken := 0, output, [], false;
    }

    /** One call under the lock. The writer raises after `room` messages, if it does; then the
        watermark stays where it was, although some messages have been written. */
    method Record(messages: seq<T>, room: Option<nat>) returns (raised: bool)
      requires Valid()
      modifies this
      ensures Valid() && earlier == old(earlier)
      ensures raised <==> hasWriter && room.Some? && room.value < |Beyond(messages, old(seen))|
      ensures raised ==>
        && broken && seen == old(seen) && snapshots == old(snapshots)
        && output == old(output) + Beyond(messages, old(seen))[..room.value]
      ensures !raised ==>
        && broken == old(broken) && snapshots == old(snapshots) + [messages]
        && output == if hasWriter then old(output) + Beyond(messages, old(seen)) else old(output)
    {
      assert (snapshots + [messages])[..|snapshots|] == snapshots;
      raised := false;
      if hasWriter {
        var fresh' := Beyond(messages, seen);
        if room.Some? && room.value < |fresh'| {
          output := output + fresh'[..room.value];
          broken := true;
          return true;
        }
        output := output + fresh';
        seen := if seen < |messages| then |messages| else seen;
      }
      snapshots := snapshots + [messages];
    }
  }

  // ----------------------------------------------------------------------- exactly once

  /** One of the two begins the other. */
  ghost predicate Comparable<T(!new)>(s: seq<T>, t: seq<T>) {
    s <= t || t <= s
  }

  /** The snapshots are taken from one growing history: of any two, one begins the other. */
  ghost predicate OneHistory<T(!new)>(snapshots: seq<seq<T>>) {
    forall i, j :: 0 <= i < |snapshots| && 0 <= j < |snapshots| ==> Comparable(snapshots[i], snapshots[j])
  }

  lemma PublishNext<T(!new)>(before: seq<T>, last: seq<T>)
    requires Comparable(before, last)
    ensures var after := before + Beyond(last, |before|);
      && after == (if |before| < |last| then last else before)
      && before <= after && last <= after
  {
    if before <= last {
      assert before + last[|before|..] == last;
    }
  }

  lemma DropLast<T(!new)>(snapshots: seq<seq<T>>)
    requires OneHistory(snapshots) && snapshots != []
    ensures var n := |snapshots| - 1;
      OneHistory(snapshots[..n]) && forall s :: s in snapshots[..n] ==> Comparable(s, snapshots[n])
  {
    var n := |snapshots| - 1;
    forall i, j | 0 <= i < n && 0 <= j < n ensures Comparable(snapshots[..n][i], snapshots[..n][j]) {
      assert Comparable(snapshots[i], snapshots[j]);
    }
  }

  lemma {:induction false} PublishedIsLongest<T(!new)>(snapshots: seq<seq<T>>)
    requires OneHistory(snapshots)
    ensures |Published(snapshots)| == Longest(snapshots)
    ensures forall i :: 0 <= i < |snapshots| ==> snapshots[i] <= Published(snapshots)
    ensures Published(snapshots) == [] || Published(snapshots) in snapshots
  {
    if snapshots != [] {
      var n := |snapshots| - 1;
      DropLast(snapshots);
      hide OneHistory;
      var before, after, last := Published(snapshots[..n]), Published(snapshots), snapshots[n];
      PublishedIsLongest(snapshots[..n]);
      assert Comparable(before, last);
      hide Comparable;
      PublishNext(before, last);
      hide Beyond;
      assert after == before + Beyond(last, |before|);
      forall i | 0 <= i < |snapshots| ensures snapshots[i] <= after {
        assert i < n ==> snapshots[i] == snapshots[..n][i] <= before;
      }
    }
  }

  /** Every snapshot is published from its start, nothing twice and nothing missing, exactly
      when the snapshots come from one history. */
  lemma PublishedOnceIff<T(!new)>(snapshots: seq<seq<T>>)
    ensures OneHistory(snapshots) <==>
            forall i :: 0 <= i < |snapshots| ==> snapshots[i] <= Published(snapshots)
  {
    if OneHistory(snapshots) {
      PublishedIsLongest(snapshots);
    }
  }

  /** All snapshots are taken from the history h. */
  ghost predicate TakenFrom<T(!new)>(h: seq<T>, snapshots: seq<seq<T>>) {
    forall i :: 0 <= i < |snapshots| ==> snapshots[i] <= h
  }

  /** Snapshots of a history publish exactly its first `seen` messages. */
  lemma PublishedIsPrefix<T(!new)>(history: seq<T>, snapshots: seq<seq<T>>)
    requires TakenFrom(history, snapshots)
    ensures Longest(snapshots) <= |history| && Published(snapshots) == history[..Longest(snapshots)]
  {
    PublishedIsLongest(snapshots);
  }

  // --------------------------------------------------------------------------- two attempts

  lemma BeyondTwice<T>(h: seq<T>, n: nat, m: nat, k: nat)
    requires m <= |h| && k <= |h|
    ensures Beyond(h[..m], n) + Beyond(h[..k], if n < m then m else n) == Beyond(h[..if m < k then k else m], n)
  {
  }

  lemma {:induction false} LongestOfBoth<T>(one: seq<seq<T>>, two: seq<seq<T>>)
    ensures Longest(one + two) == if Longest(one) < Longest(two) then Longest(two) else Longest(one)
  {
    if two == [] {
      assert one + two == one;
    } else {
      var n := |two| - 1;
      assert (one + two)[..|one + two| - 1] == one + two[..n];
      LongestOfBoth(one, two[..n]);
    }
  }

  lemma LastTaken<T(!new)>(h: seq<T>, snapshots: seq<seq<T>>)
    requires TakenFrom(h, snapshots) && snapshots != []
    ensures var n := |snapshots| - 1;
      TakenFrom(h, snapshots[..n]) && |snapshots[n]| <= |h| && snapshots[n] == h[..|snapshots[n]|]
  {
    var n := |snapshots| - 1;
    assert snapshots[n] <= h;
    assert forall i :: 0 <= i < n ==> snapshots[..n][i] == snapshots[i];
  }

  lemma ThreeParts<T>(a: seq<T>, b: seq<T>, c: seq<T>, d: seq<T>)
    requires b + c == d
    ensures a + b + c == a + d
  {
  }

  lemma PublishAfter<T>(one: seq<seq<T>>, two: seq<seq<T>>)
    requires two != []
    ensures var n := |two| - 1;
      Published(one + two) == Published(one + two[..n]) + Beyond(two[n], Longest(one + two[..n]))
  {
    assert (one + two)[..|one + two| - 1] == one + two[..|two| - 1];
  }

  /** With `stream_mode` on auto a failed attempt is followed by a second one with a history of
      its own, and the watermark is kept: what is published of the second attempt are its
      messages beyond the length of the first. */
  lemma {:induction false} SecondAttempt<T(!new)>(h: seq<T>, k: seq<T>, one: seq<seq<T>>, two: seq<seq<T>>)
    requires TakenFrom(h, one) && TakenFrom(k, two)
    ensures Longest(one) <= |h| && Longest(two) <= |k|
    ensures Published(one + two) == h[..Longest(one)] + Beyond(k[..Longest(two)], Longest(one))
  {
    PublishedIsPrefix(h, one);
    PublishedIsPrefix(k, two);
    if two == [] {
      assert one + two == one;
    } else {
      hide TakenFrom;
      var n := |two| - 1;
      LastTaken(k, two);
      SecondAttempt(h, k, one, two[..n]);
      hide Published;
      PublishAfter(one, two);
      LongestOfBoth(one, two[..n]);
      BeyondTwice(k, Longest(one), Longest(two[..n]), |two[n]|);
      hide Beyond;
      ThreeParts(h[..Longest(one)], Beyond(k[..Longest(two[..n])], Longest(one)),
                 Beyond(two[n], Longest(one + two[..n])), Beyond(k[..Longest(two)], Longest(one)));
    }
  }

  /** Nothing of the second attempt is lost exactly if it repeats the messages of the first
      one as far as both go. */
  lemma SecondAttemptCompleteIff<T(!new)>(h: seq<T>, k: seq<T>, one: seq<seq<T>>, two: seq<seq<T>>)
    requires TakenFrom(h, one) && TakenFrom(k, two)
    ensures Longest(one) <= |h| && Longest(two) <= |k|
    ensures var m := if Longest(one) < Longest(two) then Longest(one) else Longest(two);
      TakenFrom(Published(one + two), two) <==> h[..m] == k[..m]
  {
    SecondAttempt(h, k, one, two);
    hide Published, Beyond, Longest;
    var n1, n2 := Longest(one), Longest(two);
    var m := if n1 < n2 then n1 else n2;
    if h[..m] == k[..m] {
      forall i | 0 <= i < |two| ensures two[i] <= Published(one + two) {
        LongestIsReached(two);
        PrefixOfJoined(h, k, n1, n2, two[i]);
      }
    }
    if TakenFrom(Published(one + two), two) && n2 > 0 {
      LongestIsReached(two);
      var i :| 0 <= i < |two| && |two[i]| == n2;
      assert two[i] == k[..n2];
      StartOfJoined(h, k, n1, n2);
    }
  }

  lemma StartOfJoined<T>(h: seq<T>, k: seq<T>, n1: nat, n2: nat)
    requires n1 <= |h| && n2 <= |k| && k[..n2] <= h[..n1] + Beyond(k[..n2], n1)
    ensures var m := if n1 < n2 then n1 else n2; h[..m] == k[..m]
  {
    var m := if n1 < n2 then n1 else n2;
    var joined := h[..n1] + Beyond(k[..n2], n1);
    forall i | 0 <= i < m ensures h[i] == k[i] {
      assert k[..n2][i] == joined[i] == h[..n1][i];
    }
  }

  lemma PrefixOfJoined<T>(h: seq<T>, k: seq<T>, n1: nat, n2: nat, s: seq<T>)
    requires n1 <= |h| && n2 <= |k| && s <= k && |s| <= n2
    requires var m := if n1 < n2 then n1 else n2; h[..m] == k[..m]
    ensures s <= h[..n1] + Beyond(k[..n2], n1)
  {
    var joined := h[..n1] + Beyond(k[..n2], n1);
    forall i | 0 <= i < |s| ensures i < |joined| && joined[i] == s[i] {
      if i < n1 {
        assert h[i] == h[..if n1 < n2 then n1 else n2][i] == k[i];
      }
    }
  }

  /** An attempt that fails after a tool call, and one that takes another way: the second
      attempt's answer and tool result are never published. */
  lemma RestartLosesMessages()
    ensures var one := [["prompt"], ["prompt", "call 1", "result 1"]];
      var two := [["prompt"], ["prompt", "call 2", "result 2", "answer"]];
      Published(one + two) == ["prompt", "call 1", "result 1", "answer"]
  {
    var h, k := ["prompt", "call 1", "result 1"], ["prompt", "call 2", "result 2", "answer"];
    var one, two := [["prompt"], h], [["prompt"], k];
    assert ["prompt"] == h[..1] == k[..1];
    assert one[..1] == [["prompt"]] && two[..1] == [["prompt"]] && [["prompt"]][..0] == [];
    assert Longest([["prompt"]]) == 1 && Longest(one) == 3 && Longest(two) == 4;
    SecondAttempt(h, k, one, two);
    assert k[..4] == k && h[..3] == h;
  }

  // ------------------------------------------------------------------------- interleavings

  /** `run` takes the snapshots of each thread in the thread's order, threads interleaved in
      any way. */
  ghost predicate Interleaves<T(!new)>(threads: seq<seq<seq<T>>>, run: seq<seq<T>>)
    decreases |run|
  {
    if run == [] then forall t :: t in threads ==> t == []
    else exists i :: 0 <= i < |threads| && StepsFrom(threads, i, run)
  }

  ghost predicate StepsFrom<T(!new)>(threads: seq<seq<seq<T>>>, i: nat, run: seq<seq<T>>)
    requires i < |threads| && run != []
    decreases |run|, 0
  {
    threads[i] != [] && threads[i][0] == run[0] && Interleaves(threads[i := threads[i][1..]], run[1..])
  }

  ghost predicate Presented<T(!new)>(threads: seq<seq<seq<T>>>, s: seq<T>) {
    exists t :: t in threads && s in t
  }

  /** An interleaving presents the snapshots of the threads, and no others. */
  lemma {:induction false} InterleavingPresents<T(!new)>(threads: seq<seq<seq<T>>>, run: seq<seq<T>>, s: seq<T>)
    requires Interleaves(threads, run)
    ensures s in run <==> Presented(threads, s)
    decreases |run|
  {
    if run != [] {
      var i :| 0 <= i < |threads| && StepsFrom(threads, i, run);
      var rest := threads[i := threads[i][1..]];
      InterleavingPresents(rest, run[1..], s);
      assert run == [run[0]] + run[1..] && threads[i] == [run[0]] + threads[i][1..];
      if Presented(rest, s) {
        var t :| t in rest && s in t;
        var j :| 0 <= j < |rest| && rest[j] == t;
        assert threads[j] in threads && s in threads[j];
      }
      if Presented(threads, s) && s != run[0] {
        var t :| t in threads && s in t;
        var j :| 0 <= j < |threads| && threads[j] == t;
        assert rest[j] in rest && s in rest[j];
      }
      if s == run[0] {
        assert threads[i] in threads && s in threads[i];
      }
    }
  }

  lemma InterleavingTaken<T(!new)>(threads: seq<seq<seq<T>>>, history: seq<T>, run: seq<seq<T>>)
    requires forall s :: Presented(threads, s) ==> s <= history
    requires Interleaves(threads, run)
    ensures TakenFrom(history, run)
    ensures forall s :: s in run <==> Presented(threads, s)
  {
    hide Interleaves, Presented;
    forall s ensures s in run <==> Presented(threads, s) {
      InterleavingPresents(threads, run, s);
    }
    forall i | 0 <= i < |run| ensures run[i] <= history {
      assert run[i] in run;
    }
  }

  /** However the locked calls of concurrent threads interleave, and however often snapshots
      repeat, the same messages are published in the same order. */
  lemma InterleavingDoesNotMatter<T(!new)>(threads: seq<seq<seq<T>>>, history: seq<T>, one: seq<seq<T>>,
                                           other: seq<seq<T>>)
    requires forall s :: Presented(threads, s) ==> s <= history
    requires Interleaves(threads, one) && Interleaves(threads, other)
    ensures Published(one) == Published(other) <= history
  {
    hide Interleaves, Presented, TakenFrom, Published, Longest;
    InterleavingTaken(threads, history, one);
    InterleavingTaken(threads, history, other);
    PublishedIsPrefix(history, one);
    PublishedIsPrefix(history, other);
    SameLength(one, other);
    SameLength(other, one);
  }

  lemma {:induction false} LongestIsReached<T>(snapshots: seq<seq<T>>)
    ensures forall i :: 0 <= i < |snapshots| ==> |snapshots[i]| <= Longest(snapshots)
    ensures Longest(snapshots) == 0 || exists i :: 0 <= i < |snapshots| && |snapshots[i]| == Longest(snapshots)
  {
    if snapshots != [] {
      var n := |snapshots| - 1;
      LongestIsReached(snapshots[..n]);
      assert |snapshots[n]| <= Longest(snapshots);
      if Longest(snapshots) != 0 && Longest(snapshots) != |snapshots[n]| {
        var i :| 0 <= i < n && |snapshots[..n][i]| == Longest(snapshots);
        assert |snapshots[i]| == Longest(snapshots);
      }
    }
  }

  lemma SameLength<T(!new)>(one: seq<seq<T>>, other: seq<seq<T>>)
    requires forall s :: s in one ==> s in other
    ensures Longest(one) <= Longest(other)
  {
    LongestIsReached(one);
    LongestIsReached(other);
    if Longest(one) != 0 {
      var i :| 0 <= i < |one| && |one[i]| == Longest(one);
      assert one[i] in other;
    }
  }
}
