/** Logs of stamped entries, and what a closed window of time holds of them. */
module Window {
  import opened Basics

  datatype Stamped<+T> = Stamped(ts: int, item: T)

  /** The entries not older than the cutoff. */
  function Since<T>(log: seq<Stamped<T>>, cutoff: int): (r: seq<Stamped<T>>)
    ensures |r| <= |log|
  {
    if log == [] then []
    else
      var k := |log| - 1;
      var before := Since(log[..k], cutoff);
      if log[k].ts >= cutoff then before + [log[k]] else before
  }

  /** The entries stamped in a closed interval. */
  function Between<T>(log: seq<Stamped<T>>, lo: int, hi: int): seq<Stamped<T>> {
    if log == [] then []
    else
      var k := |log| - 1;
      var before := Between(log[..k], lo, hi);
      if lo <= log[k].ts <= hi then before + [log[k]] else before
  }

  function Total<T>(log: seq<Stamped<T>>, weight: T -> nat): nat {
    if log == [] then 0 else Total(log[..|log| - 1], weight) + weight(log[|log| - 1].item)
  }

  predicate Ordered<T>(log: seq<Stamped<T>>) {
    forall i, j :: 0 <= i < j < |log| ==> log[i].ts <= log[j].ts
  }

  predicate AllBy<T>(log: seq<Stamped<T>>, time: int) {
    forall i :: 0 <= i < |log| ==> log[i].ts <= time
  }

  lemma SinceSnoc<T>(log: seq<Stamped<T>>, e: Stamped<T>, cutoff: int)
    ensures Since(log + [e], cutoff) == if e.ts >= cutoff then Since(log, cutoff) + [e] else Since(log, cutoff)
  {
    assert (log + [e])[..|log|] == log;
  }

  lemma {:induction false} SinceIsBetween<T>(log: seq<Stamped<T>>, cutoff: int, hi: int)
    requires AllBy(log, hi)
    ensures Since(log, cutoff) == Between(log, cutoff, hi)
  {
    if log != [] {
      SinceIsBetween(log[..|log| - 1], cutoff, hi);
    }
  }

  lemma TotalSnoc<T>(log: seq<Stamped<T>>, e: Stamped<T>, weight: T -> nat)
    ensures Total(log + [e], weight) == Total(log, weight) + weight(e.item)
  {
    assert (log + [e])[..|log|] == log;
  }

  lemma {:induction false} TotalConcat<T>(a: seq<Stamped<T>>, b: seq<Stamped<T>>, weight: T -> nat)
    ensures Total(a + b, weight) == Total(a, weight) + Total(b, weight)
  {
    if b == [] {
      assert a + b == a;
    } else {
      var k := |b| - 1;
      TotalConcat(a, b[..k], weight);
      assert a + b == (a + b[..k]) + [b[k]];
      TotalSnoc(a + b[..k], b[k], weight);
    }
  }

  lemma TotalCons<T>(e: Stamped<T>, log: seq<Stamped<T>>, weight: T -> nat)
    ensures Total([e] + log, weight) == weight(e.item) + Total(log, weight)
  {
    TotalConcat([e], log, weight);
    assert [e][..0] == [];
  }

  /**
   One step of filtering a log in place: moving entry i to place n, no later than i, leaves what is still to be read.
   */
  lemma KeptInPlace<T>(buffer: seq<T>, log: seq<T>, n: nat, i: nat)
    requires n <= i < |log| == |buffer| && buffer[i..] == log[i..]
    ensures buffer[i] == log[i] && buffer[i + 1..] == log[i + 1..] && log[..i + 1][..i] == log[..i]
    ensures buffer[n := buffer[i]][i + 1..] == log[i + 1..]
    ensures buffer[n := buffer[i]][..n + 1] == buffer[..n] + [log[i]]
  {
    assert buffer[i..][0] == log[i..][0];
    assert forall j :: i + 1 <= j < |log| ==> buffer[j] == buffer[i..][j - i] == log[i..][j - i] == log[j];
  }

  /** The weight of the entries of an interval that were let through. */
  function Allowed<T>(log: seq<Stamped<T>>, ok: seq<bool>, weight: T -> nat, lo: int, hi: int): nat
    requires |ok| == |log|
  {
    if log == [] then 0
    else
      var k := |log| - 1;
      Allowed(log[..k], ok[..k], weight, lo, hi) + (if ok[k] && lo <= log[k].ts <= hi then weight(log[k].item) else 0)
  }

  lemma {:induction false} AllowedAreLogged<T>(
    log: seq<Stamped<T>>, ok: seq<bool>, weight: T -> nat, lo: int, hi: int, cutoff: int)
    requires |ok| == |log| && cutoff <= lo
    ensures Allowed(log, ok, weight, lo, hi) <= Total(Since(log, cutoff), weight)
  {
    if log != [] {
      var k := |log| - 1;
      AllowedAreLogged(log[..k], ok[..k], weight, lo, hi, cutoff);
      if log[k].ts >= cutoff {
        TotalSnoc(Since(log[..k], cutoff), log[k], weight);
      } else {
        assert Since(log, cutoff) == Since(log[..k], cutoff);
      }
    }
  }

  /** The entry fits under the cap together with all that its own window held before it. */
  predicate FitsAt<T>(log: seq<Stamped<T>>, i: nat, weight: T -> nat, window: int, cap: nat)
    requires i < |log|
  {
    var w := weight(log[i].item);
    w > 0 ==> Total(Since(log[..i], log[i].ts - window), weight) + w <= cap
  }

  lemma FitsAtEnd<T>(log: seq<Stamped<T>>, e: Stamped<T>, weight: T -> nat, window: int, cap: nat)
    requires weight(e.item) > 0 ==> Total(Since(log, e.ts - window), weight) + weight(e.item) <= cap
    ensures FitsAt(log + [e], |log|, weight, window, cap)
  {
    assert (log + [e])[..|log|] == log;
  }

  /** Each entry let through fits. */
  predicate Capped<T>(log: seq<Stamped<T>>, ok: seq<bool>, weight: T -> nat, window: int, cap: nat)
    requires |ok| == |log|
  {
    forall i {:trigger FitsAt(log, i, weight, window, cap)} :: 0 <= i < |log| && ok[i] ==>
      FitsAt(log, i, weight, window, cap)
  }

  lemma FitsInFront<T>(log: seq<Stamped<T>>, k: nat, i: nat, weight: T -> nat, window: int, cap: nat)
    requires i < k <= |log|
    ensures FitsAt(log[..k], i, weight, window, cap) == FitsAt(log, i, weight, window, cap)
  {
    assert log[..k][..i] == log[..i];
  }

  lemma CappedFront<T>(log: seq<Stamped<T>>, ok: seq<bool>, weight: T -> nat, window: int, cap: nat)
    requires log != [] && |ok| == |log| && Capped(log, ok, weight, window, cap)
    ensures Capped(log[..|log| - 1], ok[..|log| - 1], weight, window, cap)
  {
    var k := |log| - 1;
    forall i | 0 <= i < k && ok[..k][i] ensures FitsAt(log[..k], i, weight, window, cap) {
      FitsInFront(log, k, i, weight, window, cap);
    }
  }

  lemma CappedSnoc<T>(
    log: seq<Stamped<T>>, ok: seq<bool>, e: Stamped<T>, pass: bool, weight: T -> nat, window: int, cap: nat)
    requires |ok| == |log| && Capped(log, ok, weight, window, cap)
    requires pass ==> FitsAt(log + [e], |log|, weight, window, cap)
    ensures Capped(log + [e], ok + [pass], weight, window, cap)
  {
    assert (log + [e])[..|log|] == log;
    forall i | 0 <= i < |log| && ok[i] ensures FitsAt(log + [e], i, weight, window, cap) {
      FitsInFront(log + [e], |log|, i, weight, window, cap);
    }
  }

  /** A cap checked in the window that ends at each call bounds every window, wherever it is put. */
  lemma {:induction false} EveryWindowCapped<T>(
    log: seq<Stamped<T>>, ok: seq<bool>, weight: T -> nat, window: int, cap: nat, lo: int)
    requires |ok| == |log| && Capped(log, ok, weight, window, cap)
    ensures Allowed(log, ok, weight, lo, lo + window) <= cap
  {
    if log != [] {
      var k := |log| - 1;
      CappedFront(log, ok, weight, window, cap);
      EveryWindowCapped(log[..k], ok[..k], weight, window, cap, lo);
      if ok[k] && lo <= log[k].ts <= lo + window {
        assert FitsAt(log, k, weight, window, cap);
        AllowedAreLogged(log[..k], ok[..k], weight, lo, lo + window, log[k].ts - window);
      }
    }
  }

  lemma OrderedFront<T>(log: seq<Stamped<T>>, e: Stamped<T>)
    requires Ordered(log + [e])
    ensures Ordered(log) && AllBy(log, e.ts)
  {
    assert forall i :: 0 <= i < |log| ==> log[i] == (log + [e])[i];
    assert (log + [e])[|log|] == e;
  }

  // ---------------------------------------------------------------- logs pruned as they grow

  /** What is left of a log when each new entry first prunes it to its own window. */
  function Kept<T>(log: seq<Stamped<T>>, window: int): seq<Stamped<T>> {
    if log == [] then []
    else
      var k := |log| - 1;
      Since(Kept(log[..k], window), log[k].ts - window) + [log[k]]
  }

  lemma KeptSnoc<T>(log: seq<Stamped<T>>, e: Stamped<T>, window: int)
    ensures Kept(log + [e], window) == Since(Kept(log, window), e.ts - window) + [e]
  {
    assert (log + [e])[..|log|] == log;
  }

  function Later(a: int, b: int): int {
    if a <= b then b else a
  }

  /** Two cuts are one, at the later of them. */
  lemma {:induction false} SinceTwice<T>(log: seq<Stamped<T>>, first: int, second: int)
    ensures Since(Since(log, first), second) == Since(log, Later(first, second))
  {
    if log != [] {
      var k := |log| - 1;
      SinceTwice(log[..k], first, second);
      if log[k].ts >= first {
        SinceSnoc(Since(log[..k], first), log[k], second);
      }
    }
  }

  lemma SinceShrinks<T>(log: seq<Stamped<T>>, earlier: int, later: int)
    requires earlier <= later
    ensures |Since(log, later)| <= |Since(log, earlier)|
  {
    SinceTwice(log, earlier, later);
  }

  /** A cut that drops an entry leaves fewer. */
  lemma {:induction false} SinceDrops<T>(log: seq<Stamped<T>>, earlier: int, later: int, i: nat)
    requires i < |log| && earlier <= log[i].ts < later
    ensures |Since(log, later)| < |Since(log, earlier)|
  {
    var k := |log| - 1;
    if i < k {
      SinceDrops(log[..k], earlier, later, i);
    } else {
      SinceShrinks(log[..k], earlier, later);
    }
  }

  predicate NoneBetween<T>(log: seq<Stamped<T>>, earlier: int, later: int) {
    forall i :: 0 <= i < |log| && log[i].ts >= earlier ==> log[i].ts >= later
  }

  /** A cut that drops no entry changes nothing. */
  lemma {:induction false} SinceSame<T>(log: seq<Stamped<T>>, earlier: int, later: int)
    requires earlier <= later && NoneBetween(log, earlier, later)
    ensures Since(log, later) == Since(log, earlier)
  {
    if log != [] {
      SinceSame(log[..|log| - 1], earlier, later);
    }
  }

  /** The pruned log after one more entry, as seen from a cutoff. */
  lemma KeptStep<T>(log: seq<Stamped<T>>, e: Stamped<T>, window: int, cutoff: int)
    ensures Since(Kept(log + [e], window), cutoff) ==
      if e.ts >= cutoff then Since(Kept(log, window), Later(e.ts - window, cutoff)) + [e]
      else Since(Kept(log, window), Later(e.ts - window, cutoff))
  {
    KeptSnoc(log, e, window);
    SinceSnoc(Since(Kept(log, window), e.ts - window), e, cutoff);
    SinceTwice(Kept(log, window), e.ts - window, cutoff);
  }

  lemma {:induction false} KeptIsShorter<T>(log: seq<Stamped<T>>, window: int, cutoff: int)
    ensures |Since(Kept(log, window), cutoff)| <= |Since(log, cutoff)|
  {
    if log != [] {
      var k := |log| - 1;
      var before, e := log[..k], log[k];
      var cut := Later(e.ts - window, cutoff);
      assert log == before + [e];
      KeptStep(before, e, window, cutoff);
      SinceSnoc(before, e, cutoff);
      KeptIsShorter(before, window, cut);
      SinceShrinks(before, cutoff, cut);
    }
  }

  /** No entry stamped at the cutoff or later is followed by one stamped more than a window after it. */
  predicate Unbroken<T>(log: seq<Stamped<T>>, window: int, cutoff: int) {
    log == [] ||
    (var k := |log| - 1;
     Unbroken(log[..k], window, cutoff) && NoneBetween(log[..k], cutoff, log[k].ts - window))
  }

  lemma UnbrokenSnoc<T>(log: seq<Stamped<T>>, e: Stamped<T>, window: int, cutoff: int)
    ensures Unbroken(log + [e], window, cutoff) <==>
      Unbroken(log, window, cutoff) && NoneBetween(log, cutoff, e.ts - window)
  {
    assert (log + [e])[..|log|] == log;
  }

  lemma {:induction false} UnbrokenIff<T>(log: seq<Stamped<T>>, window: int, cutoff: int)
    ensures Unbroken(log, window, cutoff) <==>
      forall i, j :: 0 <= i < j < |log| && log[i].ts >= cutoff ==> log[j].ts <= log[i].ts + window
  {
    if log != [] {
      var k := |log| - 1;
      UnbrokenIff(log[..k], window, cutoff);
      assert forall i :: 0 <= i < k ==> log[..k][i] == log[i];
    }
  }

  lemma {:induction false} UnbrokenLater<T>(log: seq<Stamped<T>>, window: int, cutoff: int, later: int)
    requires cutoff <= later && Unbroken(log, window, cutoff)
    ensures Unbroken(log, window, later)
  {
    if log != [] {
      UnbrokenLater(log[..|log| - 1], window, cutoff, later);
    }
  }

  lemma {:induction false} UnbrokenAgrees<T>(log: seq<Stamped<T>>, window: int, cutoff: int)
    requires Unbroken(log, window, cutoff)
    ensures Since(Kept(log, window), cutoff) == Since(log, cutoff)
  {
    if log != [] {
      var k := |log| - 1;
      var before, e := log[..k], log[k];
      var cut := Later(e.ts - window, cutoff);
      assert log == before + [e];
      UnbrokenSnoc(before, e, window, cutoff);
      UnbrokenLater(before, window, cutoff, cut);
      UnbrokenAgrees(before, window, cut);
      SinceSame(before, cutoff, cut);
      KeptStep(before, e, window, cutoff);
      SinceSnoc(before, e, cutoff);
    }
  }

  lemma {:induction false} BrokenLoses<T>(log: seq<Stamped<T>>, window: int, cutoff: int)
    requires !Unbroken(log, window, cutoff)
    ensures |Since(Kept(log, window), cutoff)| < |Since(log, cutoff)|
  {
    var k := |log| - 1;
    var before, e := log[..k], log[k];
    var cut := Later(e.ts - window, cutoff);
    assert log == before + [e];
    UnbrokenSnoc(before, e, window, cutoff);
    KeptStep(before, e, window, cutoff);
    SinceSnoc(before, e, cutoff);
    if Unbroken(before, window, cutoff) {
      var i :| 0 <= i < |before| && before[i].ts >= cutoff && before[i].ts < e.ts - window;
      SinceDrops(before, cutoff, cut, i);
      KeptIsShorter(before, window, cut);
    } else {
      BrokenLoses(before, window, cutoff);
      SinceShrinks(Kept(before, window), cutoff, cut);
    }
  }

  /**
   The pruned log holds all that the full history has from the cutoff on, if and only if the history is unbroken
   there.
   */
  lemma WindowKeptIff<T>(log: seq<Stamped<T>>, window: int, cutoff: int)
    ensures Since(Kept(log, window), cutoff) == Since(log, cutoff) <==> Unbroken(log, window, cutoff)
  {
    if Unbroken(log, window, cutoff) {
      UnbrokenAgrees(log, window, cutoff);
    } else {
      BrokenLoses(log, window, cutoff);
    }
  }

  /** Unbroken in the window that ends at the given time. */
  predicate UnbrokenAt<T>(log: seq<Stamped<T>>, window: int, now: int) {
    Unbroken(log, window, now - window)
  }

  /** Unbroken in each entry's own window, when the entry comes. */
  predicate Steady<T>(log: seq<Stamped<T>>, window: int) {
    log == [] ||
    (var k := |log| - 1;
     Steady(log[..k], window) && UnbrokenAt(log[..k], window, log[k].ts))
  }

  lemma SteadySnoc<T>(log: seq<Stamped<T>>, e: Stamped<T>, window: int)
    ensures Steady(log + [e], window) <==> Steady(log, window) && UnbrokenAt(log, window, e.ts)
  {
    assert (log + [e])[..|log|] == log;
  }

  lemma SteadyNext<T>(log: seq<Stamped<T>>, e: Stamped<T>, now: int, window: int)
    requires e.ts == now
    ensures Steady(log + [e], window) <==> Steady(log, window) && UnbrokenAt(log, window, now)
  {
    SteadySnoc(log, e, window);
  }

  lemma {:induction false} AllByIsUnbroken<T>(log: seq<Stamped<T>>, window: int, now: int)
    requires AllBy(log, now)
    ensures UnbrokenAt(log, window, now)
  {
    if log != [] {
      AllByIsUnbroken(log[..|log| - 1], window, now);
    }
  }

  lemma {:induction false} OrderedIsSteady<T>(log: seq<Stamped<T>>, window: int)
    requires Ordered(log)
    ensures Steady(log, window)
  {
    if log != [] {
      var k := |log| - 1;
      assert log == log[..k] + [log[k]];
      OrderedFront(log[..k], log[k]);
      OrderedIsSteady(log[..k], window);
      AllByIsUnbroken(log[..k], window, log[k].ts);
    }
  }

  /** When entry k came, the entries before it were unbroken in its window. */
  predicate SeenAt<T>(log: seq<Stamped<T>>, k: nat, window: int)
    requires k < |log|
  {
    UnbrokenAt(log[..k], window, log[k].ts)
  }

  predicate AllSeen<T>(log: seq<Stamped<T>>, window: int) {
    forall k {:trigger SeenAt(log, k, window)} :: 0 <= k < |log| ==> SeenAt(log, k, window)
  }

  lemma SeenInFront<T>(log: seq<Stamped<T>>, n: nat, k: nat, window: int)
    requires k < n <= |log|
    ensures SeenAt(log[..n], k, window) == SeenAt(log, k, window)
  {
    assert log[..n][..k] == log[..k];
  }

  /** Steady is: whatever an entry's window reaches back to, nothing in between ran more than a window ahead of it. */
  lemma {:induction false} SteadyIff<T>(log: seq<Stamped<T>>, window: int)
    ensures Steady(log, window) <==> AllSeen(log, window)
  {
    if log != [] {
      var n := |log| - 1;
      SteadyIff(log[..n], window);
      forall k | 0 <= k < n ensures SeenAt(log[..n], k, window) == SeenAt(log, k, window) {
        SeenInFront(log, n, k, window);
      }
      assert Steady(log, window) <==> AllSeen(log[..n], window) && SeenAt(log, n, window);
    }
  }

  // ---------------------------------------------------------------- one entry over and over

  lemma CopiesSnoc<T>(x: T, n: nat)
    ensures Copies(x, 0) == [] && Copies(x, n + 1) == Copies(x, n) + [x]
  {
  }

  predicate AllFrom<T>(log: seq<Stamped<T>>, cutoff: int) {
    forall i :: 0 <= i < |log| ==> log[i].ts >= cutoff
  }

  lemma {:induction false} SinceAll<T>(log: seq<Stamped<T>>, cutoff: int)
    requires AllFrom(log, cutoff)
    ensures Since(log, cutoff) == log
  {
    if log != [] {
      SinceAll(log[..|log| - 1], cutoff);
    }
  }

  lemma {:induction false} SinceNone<T>(log: seq<Stamped<T>>, cutoff: int)
    requires forall i :: 0 <= i < |log| ==> log[i].ts < cutoff
    ensures Since(log, cutoff) == []
  {
    if log != [] {
      SinceNone(log[..|log| - 1], cutoff);
    }
  }

  lemma {:induction false} TotalCopies<T>(e: Stamped<T>, n: nat, weight: T -> nat)
    requires weight(e.item) == 1
    ensures Total(Copies(e, n), weight) == n
  {
    if n > 0 {
      TotalCopies(e, n - 1, weight);
      CopiesSnoc(e, n - 1);
      TotalSnoc(Copies(e, n - 1), e, weight);
    }
  }

  lemma SinceFirst<T>(f: Stamped<T>, cutoff: int)
    requires f.ts >= cutoff
    ensures Since([f], cutoff) == [f]
  {
    SinceSnoc([], f, cutoff);
    assert [] + [f] == [f];
  }

  /** An entry whose window holds all that is kept is added to it. */
  lemma KeptOnTop<T>(log: seq<Stamped<T>>, e: Stamped<T>, window: int, kept: seq<Stamped<T>>)
    requires Kept(log, window) == kept && AllFrom(kept, e.ts - window)
    ensures Kept(log + [e], window) == kept + [e]
  {
    KeptSnoc(log, e, window);
    SinceAll(kept, e.ts - window);
  }

  /** An entry stamped more than a window after all that is kept stays alone. */
  lemma KeptAlone<T>(log: seq<Stamped<T>>, e: Stamped<T>, window: int, kept: seq<Stamped<T>>)
    requires Kept(log, window) == kept && (forall i :: 0 <= i < |kept| ==> kept[i].ts < e.ts - window)
    ensures Kept(log + [e], window) == [e]
  {
    KeptSnoc(log, e, window);
    SinceNone(kept, e.ts - window);
    assert [] + [e] == [e];
  }

  lemma CopiesBehind<T>(f: T, e: T, n: nat)
    ensures [f] + Copies(e, 0) == [f] && ([f] + Copies(e, n)) + [e] == [f] + Copies(e, n + 1)
  {
    CopiesSnoc(e, n);
  }

  lemma AllowedSnoc<T>(
    log: seq<Stamped<T>>, ok: seq<bool>, e: Stamped<T>, pass: bool, weight: T -> nat, lo: int, hi: int)
    requires |ok| == |log|
    ensures Allowed(log + [e], ok + [pass], weight, lo, hi)
      == Allowed(log, ok, weight, lo, hi) + (if pass && lo <= e.ts <= hi then weight(e.item) else 0)
  {
    assert (log + [e])[..|log|] == log && (ok + [pass])[..|ok|] == ok;
  }
}
