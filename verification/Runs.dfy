/** Sorting and grouping into runs (RunList.reduce in godoc/index.go). */
module Runs {

  ghost predicate StrictWeak<T(!new)>(less: (T, T) -> bool) {
    && (forall x :: !less(x, x))
    && (forall x, y, z :: less(x, y) && less(y, z) ==> less(x, z))
    && forall x, y, z :: less(x, z) ==> less(x, y) || less(y, z)
  }

  ghost predicate Sorted<T(!new)>(s: seq<T>, less: (T, T) -> bool) {
    forall i, j :: 0 <= i < j < |s| ==> !less(s[j], s[i])
  }

  /** The place of x in a sorted list, after everything that is not greater. */
  method Place<T(!new)>(s: seq<T>, x: T, less: (T, T) -> bool) returns (t: seq<T>)
    requires StrictWeak(less) && Sorted(s, less)
    ensures Sorted(t, less) && multiset(t) == multiset(s) + multiset{x} && |t| == |s| + 1
  {
    hide StrictWeak, Sorted;
    var k := |s|;
    while k > 0 && less(x, s[k - 1])
      invariant 0 <= k <= |s| && forall j :: k <= j < |s| ==> less(x, s[j])
    {
      k := k - 1;
    }
    t := s[..k] + [x] + s[k..];
    Inserted(s, k, x, less);
    assert s == s[..k] + s[k..];
  }

  lemma Inserted<T(!new)>(s: seq<T>, k: nat, x: T, less: (T, T) -> bool)
    requires StrictWeak(less) && Sorted(s, less) && k <= |s|
    requires k > 0 ==> !less(x, s[k - 1])
    requires forall j :: k <= j < |s| ==> less(x, s[j])
    ensures Sorted(s[..k] + [x] + s[k..], less)
  {
    var t := s[..k] + [x] + s[k..];
    forall i, j | 0 <= i < j < |t|
      ensures !less(t[j], t[i])
    {
      if i == k {
        assert less(x, s[j - 1]);
      } else if j == k {
        assert i < k - 1 ==> !less(s[k - 1], s[i]);
      }
    }
  }

  /** The library sort, of which only the result matters: a sorted permutation. */
  method Sort<T(!new)>(s: seq<T>, less: (T, T) -> bool) returns (t: seq<T>)
    requires StrictWeak(less)
    ensures Sorted(t, less) && multiset(t) == multiset(s) && |t| == |s|
  {
    hide StrictWeak;
    t := [];
    for k := 0 to |s|
      invariant Sorted(t, less) && multiset(t) == multiset(s[..k]) && |t| == k
    {
      assert s[..k + 1] == s[..k] + [s[k]];
      t := Place(t, s[k], less);
    }
    assert s[..|s|] == s;
  }

  ghost predicate SameRun<T(!new)>(s: seq<T>, less: (T, T) -> bool) {
    s != [] && forall i, j :: 0 <= i < |s| && 0 <= j < |s| ==> !less(s[i], s[j])
  }

  /** Everything in a comes before everything in b. */
  ghost predicate Before<T(!new)>(a: seq<T>, b: seq<T>, less: (T, T) -> bool) {
    forall i, j :: 0 <= i < |a| && 0 <= j < |b| ==> less(a[i], b[j])
  }

  ghost predicate Grouped<T(!new)>(runs: seq<seq<T>>, less: (T, T) -> bool) {
    && (forall k :: 0 <= k < |runs| ==> SameRun(runs[k], less))
    && forall j, k :: 0 <= j < k < |runs| ==> Before(runs[j], runs[k], less)
  }

  /** The entries of all runs, in order. */
  ghost function Joined<T(!new)>(runs: seq<seq<T>>): seq<T> {
    if runs == [] then [] else Joined(runs[..|runs| - 1]) + runs[|runs| - 1]
  }

  ghost predicate InRuns<T(!new)>(runs: seq<seq<T>>, x: T) {
    exists k :: 0 <= k < |runs| && x in runs[k]
  }

  lemma {:induction false} JoinedMembers<T(!new)>(runs: seq<seq<T>>, x: T)
    ensures x in Joined(runs) <==> InRuns(runs, x)
  {
    if runs != [] {
      var front := runs[..|runs| - 1];
      JoinedMembers(front, x);
      if InRuns(front, x) {
        var k :| 0 <= k < |front| && x in front[k];
        assert x in runs[k];
      }
      if InRuns(runs, x) {
        var k :| 0 <= k < |runs| && x in runs[k];
        assert k < |front| ==> x in front[k];
      }
    }
  }

  lemma {:induction false} RunWithin<T(!new)>(runs: seq<seq<T>>, k: nat)
    requires k < |runs|
    ensures multiset(runs[k]) <= multiset(Joined(runs))
  {
    if k < |runs| - 1 {
      RunWithin(runs[..|runs| - 1], k);
    }
  }

  lemma JoinedOne<T(!new)>(runs: seq<seq<T>>, run: seq<T>)
    ensures Joined(runs + [run]) == Joined(runs) + run
  {
    assert (runs + [run])[..|runs|] == runs;
  }

  /** reduce: the maximal runs of equal entries, in order; every entry is in exactly one of them.
      The caller turns each run into its run object. */
  method Reduce<T(!new)>(h0: seq<T>, less: (T, T) -> bool) returns (runs: seq<seq<T>>)
    requires StrictWeak(less)
    ensures Grouped(runs, less) && multiset(Joined(runs)) == multiset(h0)
  {
    hide StrictWeak, Grouped, Grouping;
    runs := [];
    if |h0| == 0 {
      NoRuns(less);
      return;
    }
    var h := Sort(h0, less);
    var i, x := 0, h[0];
    GroupStart(h, less);
    for j := 0 to |h|
      invariant 0 <= i <= j && i < |h| && x == h[i]
      invariant Grouping(h, runs, i, j, less)
    {
      var y := h[j];
      GroupStep(h, runs, i, j, less);
      if less(x, y) {
        runs := runs + [h[i..j]];
        i, x := j, h[j];
      }
    }
    RunClosed(h, runs, i, |h|, less);
    if i < |h| {
      runs := runs + [h[i..]];
    }
    assert h[i..] == h[i..|h|] && h[..|h|] == h;
  }

  lemma NoRuns<T(!new)>(less: (T, T) -> bool)
    ensures Grouped<T>([], less)
  {
  }

  /** The runs found so far are those of h[..i]; h[i..j] is a run that may go on. */
  ghost predicate Grouping<T(!new)>(h: seq<T>, runs: seq<seq<T>>, i: nat, j: nat, less: (T, T) -> bool)
    requires i <= j <= |h|
  {
    && StrictWeak(less) && Sorted(h, less) && Grouped(runs, less) && Joined(runs) == h[..i]
    && (forall k :: i <= k < j ==> !less(h[i], h[k]))
    && forall k, m :: 0 <= k < i && i <= m < |h| ==> less(h[k], h[m])
  }

  lemma GroupStart<T(!new)>(h: seq<T>, less: (T, T) -> bool)
    requires StrictWeak(less) && Sorted(h, less)
    ensures Grouping(h, [], 0, 0, less)
  {
  }

  lemma GroupStep<T(!new)>(h: seq<T>, runs: seq<seq<T>>, i: nat, j: nat, less: (T, T) -> bool)
    requires i <= j < |h| && Grouping(h, runs, i, j, less)
    ensures !less(h[i], h[j]) ==> Grouping(h, runs, i, j + 1, less)
    ensures less(h[i], h[j]) ==> Grouping(h, runs + [h[i..j]], j, j + 1, less)
  {
    if less(h[i], h[j]) {
      RunClosed(h, runs, i, j, less);
      forall k, m | 0 <= k < j && j <= m < |h|
        ensures less(h[k], h[m])
      {
        if k >= i {
          assert less(h[k], h[j]) by {
            assert !less(h[i], h[k]);
          }
          if m > j {
            assert !less(h[m], h[j]);
          }
        }
      }
    }
  }

  /** h[i..j] joins the runs. */
  lemma RunClosed<T(!new)>(h: seq<T>, runs: seq<seq<T>>, i: nat, j: nat, less: (T, T) -> bool)
    requires i < j <= |h| && Grouping(h, runs, i, j, less)
    ensures Grouped(runs + [h[i..j]], less) && Joined(runs + [h[i..j]]) == h[..j]
  {
    var run := h[i..j];
    JoinedOne(runs, run);
    assert h[..j] == h[..i] + run;
    forall a, b | 0 <= a < |run| && 0 <= b < |run|
      ensures !less(run[a], run[b])
    {
      assert !less(h[i], run[b]);
      assert a > 0 ==> !less(h[i + a], h[i]);
    }
    forall k | 0 <= k < |runs|
      ensures Before(runs[k], run, less)
    {
      forall a, b | 0 <= a < |runs[k]| && 0 <= b < |run|
        ensures less(runs[k][a], run[b])
      {
        JoinedMembers(runs, runs[k][a]);
        var c :| 0 <= c < i && h[c] == runs[k][a];
      }
    }
  }
}
