/** The background reaper run at the top of every prompt cycle: one non-blocking `waitpid`
    per tracked pid, erasing a pid from the ordered `bg_pids` list only when that call
    returned a value greater than zero. */
module Reaper {
  import opened Base

  /** The only `waitpid(pid, &status, WNOHANG)` results that remove a pid: a positive pid.
      Zero (still running) and -1 (error, e.g. no such child) both keep it. */
  predicate Reaped(result: int)
  {
    result > 0
  }

  /** Reference filter: the tracked pids that survive one pass, in their original order.
      `results[k]` is the answer the operating system gives for `bg[k]`. */
  function Survivors(bg: seq<Pid>, results: seq<int>): (r: seq<Pid>)
    requires |results| == |bg|
    ensures |r| <= |bg|
  {
    if bg == [] then []
    else
      var n := |bg| - 1;
      Survivors(bg[..n], results[..n]) + (if Reaped(results[n]) then [] else [bg[n]])
  }

  /** `a` can be obtained from `b` by deleting elements: relative order is kept. */
  predicate Subsequence<T(==)>(a: seq<T>, b: seq<T>)
    decreases |b|
  {
    if a == [] then true
    else if b == [] then false
    else if a[|a| - 1] == b[|b| - 1] then Subsequence(a[..|a| - 1], b[..|b| - 1])
    else Subsequence(a, b[..|b| - 1])
  }

  /** No two tracked entries are the same process. */
  predicate Distinct(bg: seq<Pid>)
  {
    forall a, b :: 0 <= a < b < |bg| ==> bg[a] != bg[b]
  }

  /** The erase-while-iterating loop of the reaper. It asks about every tracked pid exactly
      once, in list order (`checked`), and leaves exactly the survivors, in order. */
  method Reap(bg: seq<Pid>, results: seq<int>) returns (kept: seq<Pid>, checked: seq<Pid>)
    requires |results| == |bg|
    ensures checked == bg
    ensures kept == Survivors(bg, results)
  {
    kept := bg;
    checked := [];
    var it := 0;    // iterator position in the vector being erased from
    var asked := 0; // number of waitpid calls made so far
    ghost var done: seq<Pid> := [];
    while it < |kept|
      invariant 0 <= asked <= |bg|
      invariant done == Survivors(bg[..asked], results[..asked])
      invariant kept == done + bg[asked..]
      invariant it == |done|
      invariant checked == bg[..asked]
      decreases |kept| - it
    {
      SplitAt(done, bg[asked..]);
      var result := results[asked];
      checked := checked + [kept[it]];
      SurvivorsStep(bg, results, asked);
      if result > 0 {
        kept := kept[..it] + kept[it + 1..];
      } else {
        it := it + 1;
        done := done + [bg[asked]];
      }
      asked := asked + 1;
    }
    assert bg[..asked] == bg;
    assert results[..asked] == results;
  }

  /** Sequence facts behind erasing or stepping over the element at the iterator. */
  lemma SplitAt(done: seq<Pid>, rest: seq<Pid>)
    requires rest != []
    ensures (done + rest)[|done|] == rest[0]
    ensures (done + rest)[..|done|] + (done + rest)[|done| + 1..] == done + rest[1..]
    ensures done + rest == (done + [rest[0]]) + rest[1..]
  {
    assert (done + rest)[..|done|] == done;
    assert (done + rest)[|done| + 1..] == rest[1..];
  }

  /** Checking one more pid extends the survivors of the prefix by that pid, unless reaped. */
  lemma SurvivorsStep(bg: seq<Pid>, results: seq<int>, j: nat)
    requires |results| == |bg| && j < |bg|
    ensures Survivors(bg[..j + 1], results[..j + 1]) ==
      Survivors(bg[..j], results[..j]) + (if Reaped(results[j]) then [] else [bg[j]])
    ensures bg[..j + 1] == bg[..j] + [bg[j]]
    ensures bg[j..] == [bg[j]] + bg[j + 1..]
  {
    assert bg[..j + 1][..j] == bg[..j];
    assert results[..j + 1][..j] == results[..j];
  }

  /** The survivors keep the relative order the pids had in `bg_pids`. */
  lemma {:induction false} SurvivorsKeepOrder(bg: seq<Pid>, results: seq<int>)
    requires |results| == |bg|
    ensures Subsequence(Survivors(bg, results), bg)
    decreases |bg|
  {
    if bg != [] {
      var n := |bg| - 1;
      var front := Survivors(bg[..n], results[..n]);
      SurvivorsKeepOrder(bg[..n], results[..n]);
      if !Reaped(results[n]) {
        var r := front + [bg[n]];
        assert Survivors(bg, results) == r;
        assert r[..|r| - 1] == front && r[|r| - 1] == bg[|bg| - 1];
        assert bg[..|bg| - 1] == bg[..n];
        assert Subsequence(r, bg);
      } else {
        assert Survivors(bg, results) == front;
        SubsequenceOfLonger(front, bg[..n], bg[n]);
        assert bg[..n] + [bg[n]] == bg;
      }
    }
  }

  /** Appending an element to the longer sequence keeps a subsequence a subsequence. */
  lemma {:induction false} SubsequenceOfLonger<T>(a: seq<T>, b: seq<T>, x: T)
    requires Subsequence(a, b)
    ensures Subsequence(a, b + [x])
    decreases |b|, 1
  {
    var bx := b + [x];
    assert bx[..|bx| - 1] == b;
    if a != [] && a[|a| - 1] == x {
      // Matching `x` against the last element of `a` needs the shorter prefix to fit in `b`.
      SubsequenceDrop(a, b);
    }
  }

  /** Dropping the last element of a subsequence keeps it a subsequence. */
  lemma {:induction false} SubsequenceDrop<T>(a: seq<T>, b: seq<T>)
    requires a != []
    requires Subsequence(a, b)
    ensures Subsequence(a[..|a| - 1], b)
    decreases |b|, 0
  {
    var a' := a[..|a| - 1];
    if b != [] {
      var b' := b[..|b| - 1];
      if a[|a| - 1] == b[|b| - 1] {
        SubsequenceOfLonger(a', b', b[|b| - 1]);
        assert b' + [b[|b| - 1]] == b;
      } else {
        SubsequenceDrop(a, b');
        SubsequenceOfLonger(a', b', b[|b| - 1]);
        assert b' + [b[|b| - 1]] == b;
      }
    }
  }

  /** A pid whose check did not report an exit, including one reported as "no such child"
      (-1), is still tracked after the pass. */
  lemma {:induction false} UnreapedStays(bg: seq<Pid>, results: seq<int>, k: int)
    requires |results| == |bg|
    requires 0 <= k < |bg| && !Reaped(results[k])
    ensures bg[k] in Survivors(bg, results)
    decreases |bg|
  {
    var n := |bg| - 1;
    if k < n {
      assert bg[..n][k] == bg[k] && results[..n][k] == results[k];
      UnreapedStays(bg[..n], results[..n], k);
    }
  }

  /** Every survivor was tracked before the pass: the reaper never invents a pid. */
  lemma {:induction false} SurvivorsAreTracked(bg: seq<Pid>, results: seq<int>)
    requires |results| == |bg|
    ensures forall x :: x in Survivors(bg, results) ==> x in bg
    decreases |bg|
  {
    if bg != [] {
      var n := |bg| - 1;
      SurvivorsAreTracked(bg[..n], results[..n]);
    }
  }

  /** With distinct pids, a pid whose check reported an exit is no longer tracked. */
  lemma {:induction false} ReapedLeaves(bg: seq<Pid>, results: seq<int>, k: int)
    requires |results| == |bg| && Distinct(bg)
    requires 0 <= k < |bg| && Reaped(results[k])
    ensures bg[k] !in Survivors(bg, results)
    decreases |bg|
  {
    var n := |bg| - 1;
    assert Distinct(bg[..n]);
    SurvivorsAreTracked(bg[..n], results[..n]);
    if k < n {
      assert bg[..n][k] == bg[k] && results[..n][k] == results[k];
      ReapedLeaves(bg[..n], results[..n], k);
      assert bg[n] != bg[k];
    }
  }

  /** A tracked pid survives the pass exactly when its non-blocking check returned 0 or a
      negative value. */
  lemma SurvivesIff(bg: seq<Pid>, results: seq<int>, k: int)
    requires |results| == |bg| && Distinct(bg)
    requires 0 <= k < |bg|
    ensures bg[k] in Survivors(bg, results) <==> results[k] <= 0
  {
    if Reaped(results[k]) {
      ReapedLeaves(bg, results, k);
    } else {
      UnreapedStays(bg, results, k);
    }
  }

  /** A pass in which no child has exited leaves the list as it was. */
  lemma {:induction false} QuietPassKeepsAll(bg: seq<Pid>, results: seq<int>)
    requires |results| == |bg|
    requires forall k :: 0 <= k < |results| ==> !Reaped(results[k])
    ensures Survivors(bg, results) == bg
    decreases |bg|
  {
    if bg != [] {
      var n := |bg| - 1;
      QuietPassKeepsAll(bg[..n], results[..n]);
      assert bg[..n] + [bg[n]] == bg;
    }
  }
}
