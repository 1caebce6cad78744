/** What a cap checked on a pruned log bounds when the timestamps run backwards: which entries are lost, and when. */
module WindowCaps {
  import opened Window

  // ---------------------------------------------------------------- the entries that are left

  /** Stamped at the cutoff or later, and followed by no entry stamped more than a window after it. */
  predicate Survives<T>(log: seq<Stamped<T>>, i: nat, window: int, cutoff: int)
    requires i < |log|
  {
    log[i].ts >= cutoff && forall j :: i < j < |log| ==> log[j].ts <= log[i].ts + window
  }

  /** The weight of such entries among the first n. */
  function Surviving<T>(log: seq<Stamped<T>>, n: nat, window: int, cutoff: int, weight: T -> nat): nat
    requires n <= |log|
  {
    if n == 0 then 0
    else
      Surviving(log, n - 1, window, cutoff, weight)
      + (if Survives(log, n - 1, window, cutoff) then weight(log[n - 1].item) else 0)
  }

  lemma SurvivesMore<T>(log: seq<Stamped<T>>, e: Stamped<T>, i: nat, window: int, cutoff: int)
    requires i < |log|
    ensures Survives(log + [e], i, window, cutoff) <==> Survives(log, i, window, Later(e.ts - window, cutoff))
  {
    var all := log + [e];
    assert all[|log|] == e && all[i] == log[i];
    assert forall j :: i < j < |log| ==> all[j] == log[j];
  }

  lemma {:induction false} SurvivingMore<T>(
    log: seq<Stamped<T>>, e: Stamped<T>, n: nat, window: int, cutoff: int, weight: T -> nat)
    requires n <= |log|
    ensures Surviving(log + [e], n, window, cutoff, weight)
      == Surviving(log, n, window, Later(e.ts - window, cutoff), weight)
  {
    if n > 0 {
      SurvivingMore(log, e, n - 1, window, cutoff, weight);
      SurvivesMore(log, e, n - 1, window, cutoff);
    }
  }

  lemma SurvivingLast<T>(
    log: seq<Stamped<T>>, e: Stamped<T>, window: int, cutoff: int, cut: int, n: nat, weight: T -> nat)
    requires cut == Later(e.ts - window, cutoff) && n == |log| + 1
    ensures Surviving(log + [e], n, window, cutoff, weight)
      == Surviving(log, |log|, window, cut, weight) + (if e.ts >= cutoff then weight(e.item) else 0)
  {
    SurvivingMore(log, e, |log|, window, cutoff, weight);
    assert (log + [e])[|log|] == e;
  }

  lemma KeptTotal<T>(
    log: seq<Stamped<T>>, e: Stamped<T>, window: int, cutoff: int, cut: int, weight: T -> nat)
    requires cut == Later(e.ts - window, cutoff)
    ensures Total(Since(Kept(log + [e], window), cutoff), weight)
      == Total(Since(Kept(log, window), cut), weight) + (if e.ts >= cutoff then weight(e.item) else 0)
  {
    KeptStep(log, e, window, cutoff);
    TotalSnoc(Since(Kept(log, window), cut), e, weight);
  }

  /** What the pruned log holds from a cutoff on is exactly what survives of the full history. */
  lemma {:induction false} KeptIsSurviving<T>(log: seq<Stamped<T>>, window: int, cutoff: int, weight: T -> nat)
    ensures Total(Since(Kept(log, window), cutoff), weight) == Surviving(log, |log|, window, cutoff, weight)
  {
    if log != [] {
      var before, e := log[..|log| - 1], log[|log| - 1];
      var cut := Later(e.ts - window, cutoff);
      assert log == before + [e];
      KeptIsSurviving(before, window, cut, weight);
      KeptTotal(before, e, window, cutoff, cut, weight);
      SurvivingLast(before, e, window, cutoff, cut, |log|, weight);
    }
  }

  lemma TotalFront<T>(log: seq<Stamped<T>>, n: nat, weight: T -> nat)
    requires 0 < n <= |log|
    ensures Total(log[..n], weight) == Total(log[..n - 1], weight) + weight(log[n - 1].item)
  {
    assert log[..n] == log[..n - 1] + [log[n - 1]];
    TotalSnoc(log[..n - 1], log[n - 1], weight);
  }

  lemma {:induction false} SurvivingAtMost<T>(
    log: seq<Stamped<T>>, n: nat, window: int, cutoff: int, weight: T -> nat)
    requires n <= |log|
    ensures Surviving(log, n, window, cutoff, weight) <= Total(log[..n], weight)
  {
    if n > 0 {
      SurvivingAtMost(log, n - 1, window, cutoff, weight);
      TotalFront(log, n, weight);
    }
  }

  lemma {:induction false} SurvivingWithout<T>(
    log: seq<Stamped<T>>, n: nat, i: nat, window: int, cutoff: int, weight: T -> nat)
    requires i < n <= |log| && !Survives(log, i, window, cutoff)
    ensures Surviving(log, n, window, cutoff, weight) + weight(log[i].item) <= Total(log[..n], weight)
  {
    TotalFront(log, n, weight);
    if i == n - 1 {
      SurvivingAtMost(log, n - 1, window, cutoff, weight);
    } else {
      SurvivingWithout(log, n - 1, i, window, cutoff, weight);
    }
  }

  lemma KeptWeighsLess<T>(log: seq<Stamped<T>>, window: int, cutoff: int, weight: T -> nat)
    ensures Total(Since(Kept(log, window), cutoff), weight) <= Total(log, weight)
  {
    KeptIsSurviving(log, window, cutoff, weight);
    SurvivingAtMost(log, |log|, window, cutoff, weight);
    assert log[..|log|] == log;
  }

  // ---------------------------------------------------------------- timestamps alone

  predicate Stamps<T>(log: seq<Stamped<T>>, times: seq<int>) {
    |log| == |times| && forall i :: 0 <= i < |log| ==> log[i].ts == times[i]
  }

  /** How many of the times lie in a closed interval. */
  function CountIn(times: seq<int>, lo: int, hi: int): nat {
    if times == [] then 0
    else CountIn(times[..|times| - 1], lo, hi) + (if lo <= times[|times| - 1] <= hi then 1 else 0)
  }

  /** A time of the interval is followed by one more than a window after it. */
  predicate Overtaken(times: seq<int>, window: int, lo: int) {
    exists i, j :: 0 <= i < j < |times| && lo <= times[i] <= lo + window && times[j] > times[i] + window
  }

  /** The clock has left an interval as long as the window, and with time k it is back there. */
  predicate ComesBack(times: seq<int>, window: int, k: nat, lo: int) {
    k < |times| && lo <= times[k] <= lo + window && Overtaken(times[..k], window, lo)
  }

  /** And up to time k there were more than m times in the interval. */
  predicate Lapses(times: seq<int>, window: int, m: nat, k: nat, lo: int) {
    ComesBack(times, window, k, lo) && CountIn(times[..k + 1], lo, lo + window) > m
  }

  lemma LapsesInFront(times: seq<int>, n: nat, window: int, m: nat, k: nat, lo: int)
    requires k < n <= |times|
    ensures ComesBack(times[..n], window, k, lo) == ComesBack(times, window, k, lo)
    ensures Lapses(times[..n], window, m, k, lo) == Lapses(times, window, m, k, lo)
  {
    assert times[..n][..k] == times[..k] && times[..n][..k + 1] == times[..k + 1];
  }

  lemma Overtaker(times: seq<int>, window: int, k: nat, lo: int) returns (i: nat, j: nat)
    requires ComesBack(times, window, k, lo)
    ensures i < j < k && lo <= times[i] <= lo + window && times[j] > times[i] + window
  {
    var front := times[..k];
    i, j :| 0 <= i < j < |front| && lo <= front[i] <= lo + window && front[j] > front[i] + window;
  }

  // ---------------------------------------------------------------- verdicts

  /** An entry with a weight is let through exactly when it fits under the cap with the recent ones. */
  predicate JudgedNext<T>(recent: seq<Stamped<T>>, e: Stamped<T>, pass: bool, weight: T -> nat, cap: nat) {
    var w := weight(e.item);
    w > 0 ==> (pass <==> Total(recent, weight) + w <= cap)
  }

  /** What the pruned log holds for an entry to be judged by. */
  function Recent<T>(log: seq<Stamped<T>>, e: Stamped<T>, window: int): seq<Stamped<T>> {
    Since(Kept(log, window), e.ts - window)
  }

  /** The weight that an entry finds in its window of what survives. */
  function Found<T>(log: seq<Stamped<T>>, e: Stamped<T>, window: int, weight: T -> nat): nat {
    Surviving(log, |log|, window, e.ts - window, weight)
  }

  lemma RecentIsFound<T>(log: seq<Stamped<T>>, e: Stamped<T>, window: int, weight: T -> nat)
    ensures Total(Recent(log, e, window), weight) == Found(log, e, window, weight)
  {
    KeptIsSurviving(log, window, e.ts - window, weight);
  }

  lemma {:induction false} SurvivingInWindow<T>(
    log: seq<Stamped<T>>, n: nat, window: int, cutoff: int, weight: T -> nat)
    requires n <= |log|
    ensures Surviving(log, n, window, cutoff, weight) <= Total(Since(log[..n], cutoff), weight)
  {
    if n > 0 {
      SurvivingInWindow(log, n - 1, window, cutoff, weight);
      assert log[..n] == log[..n - 1] + [log[n - 1]];
      SinceSnoc(log[..n - 1], log[n - 1], cutoff);
      TotalSnoc(Since(log[..n - 1], cutoff), log[n - 1], weight);
    }
  }

  lemma FoundInWindow<T>(log: seq<Stamped<T>>, e: Stamped<T>, window: int, weight: T -> nat)
    ensures Found(log, e, window, weight) <= Total(Since(log, e.ts - window), weight)
  {
    SurvivingInWindow(log, |log|, window, e.ts - window, weight);
    assert log[..|log|] == log;
  }

  predicate JudgedAt<T>(log: seq<Stamped<T>>, ok: seq<bool>, k: nat, weight: T -> nat, window: int, cap: nat)
    requires k < |log| == |ok|
  {
    JudgedNext(Recent(log[..k], log[k], window), log[k], ok[k], weight, cap)
  }

  /** Each entry with a weight was let through exactly when it fitted under the cap with what the pruned log held. */
  predicate JudgedBy<T>(log: seq<Stamped<T>>, ok: seq<bool>, weight: T -> nat, window: int, cap: nat)
    requires |ok| == |log|
  {
    forall k {:trigger JudgedAt(log, ok, k, weight, window, cap)} ::
      0 <= k < |log| ==> JudgedAt(log, ok, k, weight, window, cap)
  }

  lemma JudgedInFront<T>(
    log: seq<Stamped<T>>, ok: seq<bool>, n: nat, k: nat, weight: T -> nat, window: int, cap: nat)
    requires k < n <= |log| == |ok|
    ensures JudgedAt(log[..n], ok[..n], k, weight, window, cap) == JudgedAt(log, ok, k, weight, window, cap)
  {
    assert log[..n][..k] == log[..k];
  }

  lemma JudgedSplit<T>(
    log: seq<Stamped<T>>, ok: seq<bool>, n: nat, weight: T -> nat, window: int, cap: nat)
    requires |ok| == |log| == n + 1 && JudgedBy(log, ok, weight, window, cap)
    ensures JudgedBy(log[..n], ok[..n], weight, window, cap)
    ensures JudgedNext(Recent(log[..n], log[n], window), log[n], ok[n], weight, cap)
  {
    assert JudgedAt(log, ok, n, weight, window, cap);
    forall k | 0 <= k < n ensures JudgedAt(log[..n], ok[..n], k, weight, window, cap) {
      JudgedInFront(log, ok, n, k, weight, window, cap);
    }
  }

  lemma JudgedSnoc<T>(
    log: seq<Stamped<T>>, ok: seq<bool>, e: Stamped<T>, recent: seq<Stamped<T>>, pass: bool, weight: T -> nat,
    window: int, cap: nat)
    requires |ok| == |log| && JudgedBy(log, ok, weight, window, cap)
    requires recent == Recent(log, e, window) && JudgedNext(recent, e, pass, weight, cap)
    ensures JudgedBy(log + [e], ok + [pass], weight, window, cap)
  {
    var all, allOk, n := log + [e], ok + [pass], |log|;
    assert all[..n] == log && allOk[..n] == ok;
    forall k | 0 <= k <= n ensures JudgedAt(all, allOk, k, weight, window, cap) {
      if k < n {
        assert JudgedAt(log, ok, k, weight, window, cap);
        JudgedInFront(all, allOk, n, k, weight, window, cap);
      }
    }
  }

  // ---------------------------------------------------------------- where the cap holds

  predicate NoneLost<T>(log: seq<Stamped<T>>, window: int, lo: int) {
    forall i, j :: 0 <= i < j < |log| && lo <= log[i].ts <= lo + window ==> log[j].ts <= log[i].ts + window
  }

  predicate InsideFrom<T>(log: seq<Stamped<T>>, window: int, lo: int, cutoff: int) {
    forall i :: 0 <= i < |log| && lo <= log[i].ts <= lo + window ==> log[i].ts >= cutoff
  }

  lemma NoneLostFront<T>(log: seq<Stamped<T>>, e: Stamped<T>, window: int, lo: int, cutoff: int)
    requires NoneLost(log + [e], window, lo) && InsideFrom(log + [e], window, lo, cutoff)
    ensures NoneLost(log, window, lo) && InsideFrom(log, window, lo, Later(e.ts - window, cutoff))
    ensures lo <= e.ts <= lo + window ==> e.ts >= cutoff
  {
    var all := log + [e];
    assert all[|log|] == e && forall i :: 0 <= i < |log| ==> all[i] == log[i];
  }

  /** Where no entry of an interval is lost, the pruned log holds all that was allowed there. */
  lemma {:induction false} AllowedAreKept<T>(
    log: seq<Stamped<T>>, ok: seq<bool>, weight: T -> nat, window: int, lo: int, cutoff: int)
    requires |ok| == |log| && NoneLost(log, window, lo) && InsideFrom(log, window, lo, cutoff)
    ensures Allowed(log, ok, weight, lo, lo + window) <= Total(Since(Kept(log, window), cutoff), weight)
  {
    if log != [] {
      var k := |log| - 1;
      var before, e := log[..k], log[k];
      var cut := Later(e.ts - window, cutoff);
      assert log == before + [e];
      NoneLostFront(before, e, window, lo, cutoff);
      AllowedAreKept(before, ok[..k], weight, window, lo, cut);
      KeptStep(before, e, window, cutoff);
      TotalSnoc(Since(Kept(before, window), cut), e, weight);
    }
  }

  lemma NotOvertaken<T>(log: seq<Stamped<T>>, times: seq<int>, window: int, lo: int)
    requires Stamps(log, times) && !Overtaken(times, window, lo)
    ensures NoneLost(log, window, lo)
  {
  }

  /** What is let through where nothing was lost fits under the cap with all that was allowed there before. */
  lemma PassFits<T>(
    log: seq<Stamped<T>>, ok: seq<bool>, e: Stamped<T>, weight: T -> nat, window: int, cap: nat, lo: int)
    requires |ok| == |log| && NoneLost(log, window, lo) && lo <= e.ts <= lo + window
    requires JudgedNext(Recent(log, e, window), e, true, weight, cap) && weight(e.item) > 0
    ensures Allowed(log, ok, weight, lo, lo + window) + weight(e.item) <= cap
  {
    AllowedAreKept(log, ok, weight, window, lo, e.ts - window);
  }

  lemma {:induction false} AllowedAreCounted<T>(
    log: seq<Stamped<T>>, ok: seq<bool>, times: seq<int>, weight: T -> nat, lo: int, hi: int)
    requires |ok| == |log| && Stamps(log, times) && forall x :: weight(x) <= 1
    ensures Allowed(log, ok, weight, lo, hi) <= CountIn(times, lo, hi)
  {
    if log != [] {
      var k := |log| - 1;
      AllowedAreCounted(log[..k], ok[..k], times[..k], weight, lo, hi);
    }
  }

  /** A cap on single entries holds of an interval to which the clock does not come back after more than m entries. */
  lemma {:induction false} BoundWithoutLapse<T>(
    log: seq<Stamped<T>>, ok: seq<bool>, times: seq<int>, weight: T -> nat, window: int, m: nat, lo: int)
    requires |ok| == |log| && Stamps(log, times) && JudgedBy(log, ok, weight, window, m)
    requires forall x :: weight(x) <= 1
    requires forall k :: 0 <= k < |times| ==> !Lapses(times, window, m, k, lo)
    ensures Allowed(log, ok, weight, lo, lo + window) <= m
  {
    if log != [] {
      var k := |log| - 1;
      forall i | 0 <= i < k ensures !Lapses(times[..k], window, m, i, lo) {
        LapsesInFront(times, k, window, m, i, lo);
      }
      JudgedSplit(log, ok, k, weight, window, m);
      BoundWithoutLapse(log[..k], ok[..k], times[..k], weight, window, m, lo);
      if ok[k] && lo <= log[k].ts <= lo + window && weight(log[k].item) > 0 {
        assert !Lapses(times, window, m, k, lo) && times[..k + 1] == times;
        if Overtaken(times[..k], window, lo) {
          AllowedAreCounted(log, ok, times, weight, lo, lo + window);
        } else {
          NotOvertaken(log[..k], times[..k], window, lo);
          PassFits(log[..k], ok[..k], log[k], weight, window, m, lo);
        }
      }
    }
  }

  /** A cap on any weights holds of an interval to which the clock does not come back at all. */
  lemma {:induction false} BoundWithoutReturn<T>(
    log: seq<Stamped<T>>, ok: seq<bool>, times: seq<int>, weight: T -> nat, window: int, cap: nat, lo: int)
    requires |ok| == |log| && Stamps(log, times) && JudgedBy(log, ok, weight, window, cap)
    requires forall k :: 0 <= k < |times| ==> !ComesBack(times, window, k, lo)
    ensures Allowed(log, ok, weight, lo, lo + window) <= cap
  {
    if log != [] {
      var k := |log| - 1;
      forall i | 0 <= i < k ensures !ComesBack(times[..k], window, i, lo) {
        LapsesInFront(times, k, window, 0, i, lo);
      }
      JudgedSplit(log, ok, k, weight, window, cap);
      BoundWithoutReturn(log[..k], ok[..k], times[..k], weight, window, cap, lo);
      if ok[k] && lo <= log[k].ts <= lo + window && weight(log[k].item) > 0 {
        assert !ComesBack(times, window, k, lo);
        NotOvertaken(log[..k], times[..k], window, lo);
        PassFits(log[..k], ok[..k], log[k], weight, window, cap, lo);
      }
    }
  }

  // ---------------------------------------------------------------- where it fails

  lemma BetweenNext<T>(log: seq<Stamped<T>>, e: Stamped<T>, lo: int, hi: int, weight: T -> nat)
    ensures Total(Between(log + [e], lo, hi), weight)
      == Total(Between(log, lo, hi), weight) + (if lo <= e.ts <= hi then weight(e.item) else 0)
  {
    assert (log + [e])[..|log|] == log;
    TotalSnoc(Between(log, lo, hi), e, weight);
  }

  lemma RecentWeighsLess<T>(log: seq<Stamped<T>>, e: Stamped<T>, window: int, weight: T -> nat)
    ensures Total(Recent(log, e, window), weight) <= Total(log, weight)
  {
    KeptWeighsLess(log, window, e.ts - window, weight);
  }

  lemma RoomPasses<T>(
    recent: seq<Stamped<T>>, e: Stamped<T>, pass: bool, weight: T -> nat, cap: nat, total: int)
    requires JudgedNext(recent, e, pass, weight, cap)
    requires Total(recent, weight) <= total && total + weight(e.item) <= cap
    ensures weight(e.item) > 0 ==> pass
  {
  }

  lemma PassedNext<T>(
    log: seq<Stamped<T>>, ok: seq<bool>, e: Stamped<T>, pass: bool, weight: T -> nat, lo: int, hi: int)
    requires |ok| == |log| && Allowed(log, ok, weight, lo, hi) == Total(Between(log, lo, hi), weight)
    requires weight(e.item) > 0 ==> pass
    ensures Allowed(log + [e], ok + [pass], weight, lo, hi) == Total(Between(log + [e], lo, hi), weight)
  {
    AllowedSnoc(log, ok, e, pass, weight, lo, hi);
    BetweenNext(log, e, lo, hi, weight);
  }

  /** While all that came is within the cap, everything with a weight passes. */
  lemma {:induction false} AllPass<T>(
    log: seq<Stamped<T>>, ok: seq<bool>, weight: T -> nat, window: int, cap: nat, lo: int, hi: int)
    requires |ok| == |log| && JudgedBy(log, ok, weight, window, cap) && Total(log, weight) <= cap
    ensures Allowed(log, ok, weight, lo, hi) == Total(Between(log, lo, hi), weight)
  {
    if log != [] {
      var k := |log| - 1;
      assert log == log[..k] + [log[k]] && ok == ok[..k] + [ok[k]];
      JudgedSplit(log, ok, k, weight, window, cap);
      TotalSnoc(log[..k], log[k], weight);
      AllPass(log[..k], ok[..k], weight, window, cap, lo, hi);
      RecentWeighsLess(log[..k], log[k], window, weight);
      RoomPasses(Recent(log[..k], log[k], window), log[k], ok[k], weight, cap, Total(log[..k], weight));
      PassedNext(log[..k], ok[..k], log[k], ok[k], weight, lo, hi);
    }
  }

  lemma FoundWithout<T>(
    log: seq<Stamped<T>>, e: Stamped<T>, i: nat, j: nat, window: int, weight: T -> nat)
    requires i < j < |log| && log[j].ts > log[i].ts + window
    ensures Found(log, e, window, weight) + weight(log[i].item) <= Total(log, weight)
  {
    SurvivingWithout(log, |log|, i, window, e.ts - window, weight);
    assert log[..|log|] == log;
  }

  /** An entry overtaken by more than a window is missing from what the pruned log holds. */
  lemma RecentWithout<T>(
    log: seq<Stamped<T>>, e: Stamped<T>, i: nat, j: nat, window: int, weight: T -> nat)
    requires i < j < |log| && log[j].ts > log[i].ts + window
    ensures Total(Recent(log, e, window), weight) + weight(log[i].item) <= Total(log, weight)
  {
    RecentIsFound(log, e, window, weight);
    FoundWithout(log, e, i, j, window, weight);
  }

  lemma AllowedMore<T>(log: seq<Stamped<T>>, ok: seq<bool>, e: Stamped<T>, weight: T -> nat, lo: int, hi: int)
    requires |ok| == |log| && lo <= e.ts <= hi
    ensures Allowed(log + [e], ok + [true], weight, lo, hi) == Allowed(log, ok, weight, lo, hi) + weight(e.item)
  {
    AllowedSnoc(log, ok, e, true, weight, lo, hi);
  }

  /** One more entry passes on top of a used-up cap, when it fits in place of one that was lost. */
  lemma NextPasses<T>(
    recent: seq<Stamped<T>>, e: Stamped<T>, pass: bool, weight: T -> nat, cap: nat, lost: nat, total: nat)
    requires JudgedNext(recent, e, pass, weight, cap) && weight(e.item) > 0
    requires Total(recent, weight) + lost <= total && total + weight(e.item) <= cap + lost
    ensures pass
  {
  }

  lemma PassesInPlace<T>(
    log: seq<Stamped<T>>, ok: seq<bool>, n: nat, weight: T -> nat, window: int, cap: nat, lo: int, hi: int,
    i: nat, j: nat)
    requires |ok| == |log| == n + 1 && JudgedBy(log, ok, weight, window, cap) && Total(log[..n], weight) <= cap
    requires weight(log[n].item) > 0 && lo <= log[n].ts <= hi
    requires i < j < n && log[j].ts > log[i].ts + window
    requires Total(log[..n], weight) + weight(log[n].item) <= cap + weight(log[i].item)
    ensures Allowed(log, ok, weight, lo, hi) == Total(Between(log[..n], lo, hi), weight) + weight(log[n].item)
  {
    JudgedSplit(log, ok, n, weight, window, cap);
    RecentWithout(log[..n], log[n], i, j, window, weight);
    NextPasses(Recent(log[..n], log[n], window), log[n], ok[n], weight, cap, weight(log[i].item),
      Total(log[..n], weight));
    AllPass(log[..n], ok[..n], weight, window, cap, lo, hi);
    AllowedMore(log[..n], ok[..n], log[n], weight, lo, hi);
    assert log == log[..n] + [log[n]] && ok == ok[..n] + [true];
  }

  lemma {:induction false} BetweenHasAll<T>(log: seq<Stamped<T>>, lo: int, hi: int, weight: T -> nat)
    requires forall i :: 0 <= i < |log| && weight(log[i].item) > 0 ==> lo <= log[i].ts <= hi
    ensures Total(Between(log, lo, hi), weight) == Total(log, weight)
  {
    if log != [] {
      var k := |log| - 1;
      BetweenHasAll(log[..k], lo, hi, weight);
      if lo <= log[k].ts <= hi {
        TotalSnoc(Between(log[..k], lo, hi), log[k], weight);
      }
    }
  }

  lemma {:induction false} BetweenHasOne<T>(log: seq<Stamped<T>>, lo: int, hi: int, weight: T -> nat, i: nat)
    requires i < |log| && lo <= log[i].ts <= hi
    ensures Total(Between(log, lo, hi), weight) >= weight(log[i].item)
  {
    var k := |log| - 1;
    if i < k {
      BetweenHasOne(log[..k], lo, hi, weight, i);
    }
    if lo <= log[k].ts <= hi {
      TotalSnoc(Between(log[..k], lo, hi), log[k], weight);
    }
  }

  /** k entries, one of weight k and the others of weight one. */
  predicate HeavyLog<T>(log: seq<Stamped<T>>, weight: T -> nat, i: nat, k: nat) {
    |log| == k && i < k && weight(log[i].item) == k
    && forall q :: 0 <= q < |log| && q != i ==> weight(log[q].item) == 1
  }

  lemma {:induction false} HeavyTotal<T>(log: seq<Stamped<T>>, n: nat, weight: T -> nat, i: nat)
    requires n <= |log| && forall q :: 0 <= q < |log| && q != i ==> weight(log[q].item) == 1
    ensures Total(log[..n], weight) == if i < n then n - 1 + weight(log[i].item) else n
  {
    if n > 0 {
      HeavyTotal(log, n - 1, weight, i);
      TotalFront(log, n, weight);
    }
  }

  lemma HeavySum<T>(log: seq<Stamped<T>>, weight: T -> nat, i: nat, k: nat)
    requires HeavyLog(log, weight, i, k)
    ensures Total(log, weight) == 2 * k - 1
  {
    HeavyTotal(log, k, weight, i);
    assert log[..k] == log;
  }

  /** Under a cap of 2k an entry of weight k passes, and once it is overtaken one of weight k + 1 on top of it. */
  lemma HeavyPasses<T>(
    log: seq<Stamped<T>>, ok: seq<bool>, weight: T -> nat, window: int, lo: int, hi: int, i: nat, j: nat, k: nat)
    requires |ok| == |log| == k + 1 && JudgedBy(log, ok, weight, window, 2 * k) && HeavyLog(log[..k], weight, i, k)
    requires i < j < k && lo <= log[i].ts <= hi && log[j].ts > log[i].ts + window
    requires lo <= log[k].ts <= hi && weight(log[k].item) == k + 1
    ensures Allowed(log, ok, weight, lo, hi) > 2 * k
  {
    assert log[..k][i] == log[i];
    HeavySum(log[..k], weight, i, k);
    PassesInPlace(log, ok, k, weight, window, 2 * k, lo, hi, i, j);
    BetweenHasOne(log[..k], lo, hi, weight, i);
  }

  // ---------------------------------------------------------------- a block of exactly m

  /** Of the first n times, those inside the interval. */
  function Upto(times: seq<int>, n: nat, lo: int, hi: int): nat
    requires n <= |times|
  {
    CountIn(times[..n], lo, hi)
  }

  lemma UptoNext(times: seq<int>, n: nat, lo: int, hi: int)
    requires n < |times|
    ensures Upto(times, n + 1, lo, hi) == Upto(times, n, lo, hi) + (if lo <= times[n] <= hi then 1 else 0)
  {
    assert times[..n + 1][..n] == times[..n];
  }

  /** A block that holds at most m, within a range that holds at least m, grows to one that holds exactly m. */
  lemma {:induction false} Block(times: seq<int>, lo: int, hi: int, m: nat, k: nat, a: nat, b: nat)
    returns (from: nat, to: nat)
    requires a <= b <= k <= |times|
    requires Upto(times, b, lo, hi) <= Upto(times, a, lo, hi) + m && m <= Upto(times, k, lo, hi)
    ensures from <= a && b <= to <= k && Upto(times, to, lo, hi) == Upto(times, from, lo, hi) + m
    decreases a + k - b
  {
    from, to := a, b;
    if Upto(times, b, lo, hi) < Upto(times, a, lo, hi) + m {
      if b < k {
        UptoNext(times, b, lo, hi);
        from, to := Block(times, lo, hi, m, k, a, b + 1);
      } else {
        assert a > 0 by {
          assert times[..0] == [];
        }
        UptoNext(times, a - 1, lo, hi);
        from, to := Block(times, lo, hi, m, k, a - 1, b);
      }
    }
  }

  function Clip(n: nat, bound: nat): nat {
    if n <= bound then n else bound
  }

  /** A weight of one for the times of a block that are inside the interval, and none for the rest. */
  predicate BlockWeights<T>(
    log: seq<Stamped<T>>, times: seq<int>, weight: T -> nat, lo: int, hi: int, from: nat, to: nat)
  {
    Stamps(log, times)
    && forall q :: 0 <= q < |log| ==> weight(log[q].item) == if from <= q < to && lo <= times[q] <= hi then 1 else 0
  }

  lemma {:induction false} BlockTotal<T>(
    log: seq<Stamped<T>>, times: seq<int>, n: nat, weight: T -> nat, lo: int, hi: int, from: nat, to: nat)
    requires BlockWeights(log, times, weight, lo, hi, from, to) && from <= to && n <= |times|
    ensures Total(log[..n], weight) == Upto(times, Clip(to, n), lo, hi) - Upto(times, Clip(from, n), lo, hi)
  {
    if n > 0 {
      BlockTotal(log, times, n - 1, weight, lo, hi, from, to);
      TotalFront(log, n, weight);
      UptoNext(times, n - 1, lo, hi);
    }
  }

  /** A block of exactly m times inside the interval, one of them the given one, among the times before k. */
  lemma BlockWith(times: seq<int>, lo: int, hi: int, m: nat, k: nat, i: nat) returns (from: nat, to: nat)
    requires i < k < |times| && lo <= times[i] <= hi && m > 0
    requires lo <= times[k] <= hi && CountIn(times[..k + 1], lo, hi) > m
    ensures from <= i < to <= k && Upto(times, to, lo, hi) == Upto(times, from, lo, hi) + m
  {
    UptoNext(times, k, lo, hi);
    UptoNext(times, i, lo, hi);
    from, to := Block(times, lo, hi, m, k, i, i + 1);
  }

  /** The block holds all the weight of the log, and all of it lies inside the interval. */
  lemma BlockIsAll<T>(
    log: seq<Stamped<T>>, times: seq<int>, k: nat, weight: T -> nat, lo: int, hi: int, from: nat, to: nat)
    requires k <= |times| && BlockWeights(log, times[..k], weight, lo, hi, from, to) && from <= to <= k
    ensures Total(log, weight) == Upto(times, to, lo, hi) - Upto(times, from, lo, hi)
    ensures Total(Between(log, lo, hi), weight) == Total(log, weight)
  {
    BlockTotal(log, times[..k], k, weight, lo, hi, from, to);
    assert log[..k] == log && times[..k][..to] == times[..to] && times[..k][..from] == times[..from];
    BetweenHasAll(log, lo, hi, weight);
  }

  /** The last of n + 1 entries weighs one and lies in the interval; of those before it, a block of times does. */
  predicate BlockLog<T>(
    log: seq<Stamped<T>>, times: seq<int>, weight: T -> nat, lo: int, hi: int, from: nat, to: nat, n: nat)
  {
    && |log| == n + 1 <= |times| && from <= to <= n
    && BlockWeights(log[..n], times[..n], weight, lo, hi, from, to)
    && weight(log[n].item) == 1 && lo <= log[n].ts <= hi
  }

  /** An entry of the block is overtaken before the last one, and the block holds as many as the cap. */
  predicate BlockOvertaken(
    times: seq<int>, window: int, m: nat, lo: int, hi: int, from: nat, to: nat, n: nat, i: nat, j: nat)
  {
    && from <= i < to <= n <= |times| && i < j < n
    && lo <= times[i] <= hi && times[j] > times[i] + window
    && Upto(times, to, lo, hi) == Upto(times, from, lo, hi) + m
  }

  lemma BlockMember<T>(
    log: seq<Stamped<T>>, times: seq<int>, weight: T -> nat, window: int, m: nat, lo: int, hi: int, from: nat, to: nat,
    n: nat, i: nat, j: nat)
    requires BlockLog(log, times, weight, lo, hi, from, to, n)
    requires BlockOvertaken(times, window, m, lo, hi, from, to, n, i, j)
    ensures weight(log[i].item) == 1 && log[j].ts > log[i].ts + window
  {
    assert log[..n][i] == log[i] && log[..n][j] == log[j];
    assert times[..n][i] == times[i] && times[..n][j] == times[j];
  }

  lemma BlockWeighs<T>(
    log: seq<Stamped<T>>, times: seq<int>, weight: T -> nat, window: int, m: nat, lo: int, hi: int, from: nat, to: nat,
    n: nat, i: nat, j: nat)
    requires BlockLog(log, times, weight, lo, hi, from, to, n)
    requires BlockOvertaken(times, window, m, lo, hi, from, to, n, i, j)
    ensures Total(log[..n], weight) == Total(Between(log[..n], lo, hi), weight) == m
  {
    BlockIsAll(log[..n], times, n, weight, lo, hi, from, to);
  }

  /** The m entries of a block pass, and the last one passes in place of one of them that was overtaken. */
  lemma BlockPasses<T>(
    log: seq<Stamped<T>>, ok: seq<bool>, weight: T -> nat, window: int, m: nat,
    times: seq<int>, lo: int, hi: int, from: nat, to: nat, n: nat, i: nat, j: nat)
    requires |ok| == |log| && JudgedBy(log, ok, weight, window, m)
    requires BlockLog(log, times, weight, lo, hi, from, to, n)
    requires BlockOvertaken(times, window, m, lo, hi, from, to, n, i, j)
    ensures Allowed(log, ok, weight, lo, hi) == m + 1
  {
    BlockMember(log, times, weight, window, m, lo, hi, from, to, n, i, j);
    BlockWeighs(log, times, weight, window, m, lo, hi, from, to, n, i, j);
    PassesInPlace(log, ok, n, weight, window, m, lo, hi, i, j);
  }

  // ---------------------------------------------------------------- entries that all weigh one

  /** Of the first n times, those at the cutoff or later that no later one is more than a window ahead of. */
  function Alive(times: seq<int>, n: nat, window: int, cutoff: int): nat
    requires n <= |times|
  {
    if n == 0 then 0
    else
      var t := times[n - 1];
      Alive(times, n - 1, window, cutoff)
      + (if t >= cutoff && forall j :: n - 1 < j < |times| ==> times[j] <= t + window then 1 else 0)
  }

  /** How many a time finds alive in its window. */
  function AliveFor(times: seq<int>, t: int, window: int): nat {
    Alive(times, |times|, window, t - window)
  }

  /** The times of the interval that find fewer than m alive. */
  function Admitted(times: seq<int>, window: int, m: nat, lo: int): nat {
    if times == [] then 0
    else
      var before, t := times[..|times| - 1], times[|times| - 1];
      Admitted(before, window, m, lo)
      + (if lo <= t <= lo + window && AliveFor(before, t, window) < m then 1 else 0)
  }

  lemma {:induction false} AliveIsSurviving<T>(
    log: seq<Stamped<T>>, times: seq<int>, n: nat, window: int, cutoff: int, weight: T -> nat)
    requires Stamps(log, times) && n <= |log| && forall x :: weight(x) == 1
    ensures Surviving(log, n, window, cutoff, weight) == Alive(times, n, window, cutoff)
  {
    if n > 0 {
      AliveIsSurviving(log, times, n - 1, window, cutoff, weight);
      assert Survives(log, n - 1, window, cutoff) <==>
        times[n - 1] >= cutoff && forall j :: n - 1 < j < |times| ==> times[j] <= times[n - 1] + window;
    }
  }

  lemma FoundIsAlive<T>(log: seq<Stamped<T>>, times: seq<int>, e: Stamped<T>, window: int, weight: T -> nat)
    requires Stamps(log, times) && forall x :: weight(x) == 1
    ensures Found(log, e, window, weight) == AliveFor(times, e.ts, window)
  {
    AliveIsSurviving(log, times, |log|, window, e.ts - window, weight);
  }

  lemma AdmittedNext<T>(
    log: seq<Stamped<T>>, times: seq<int>, e: Stamped<T>, pass: bool, weight: T -> nat, window: int, m: nat)
    requires Stamps(log, times) && JudgedNext(Recent(log, e, window), e, pass, weight, m) && forall x :: weight(x) == 1
    ensures pass <==> AliveFor(times, e.ts, window) < m
  {
    assert weight(e.item) == 1;
    RecentIsFound(log, e, window, weight);
    FoundIsAlive(log, times, e, window, weight);
  }

  lemma {:induction false} AdmittedIsAllowed<T>(
    log: seq<Stamped<T>>, ok: seq<bool>, times: seq<int>, weight: T -> nat, window: int, m: nat, lo: int)
    requires |ok| == |log| && Stamps(log, times) && JudgedBy(log, ok, weight, window, m)
    requires forall x :: weight(x) == 1
    ensures Allowed(log, ok, weight, lo, lo + window) == Admitted(times, window, m, lo)
  {
    if log != [] {
      var k := |log| - 1;
      JudgedSplit(log, ok, k, weight, window, m);
      AdmittedIsAllowed(log[..k], ok[..k], times[..k], weight, window, m, lo);
      AdmittedNext(log[..k], times[..k], log[k], ok[k], weight, window, m);
    }
  }
}
