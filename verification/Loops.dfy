/**
 The loop governor: caps on the calls of an agent in a session, and on its repeats of one call, in a sliding window.
 */
module Loops {
  import opened Basics
  import opened Window
  import opened WindowCaps

  datatype Config = Config(enabled: bool, window: int, maxRepeats: int, maxCalls: int, maxArgBytes: int) {
    predicate Active() {
      enabled && window > 0 && (maxCalls > 0 || maxRepeats > 0)
    }
  }

  /** One attempted call; the arguments are given as the text that fmt makes of them. */
  datatype Attempt = Attempt(agentID: string, sessionID: string, toolID: string, args: string, now: int) {
    function Key(): string {
      agentID + "|" + sessionID
    }

    function Signature(cfg: Config): string {
      toolID + "|" + (if cfg.maxArgBytes <= 0 || |args| <= cfg.maxArgBytes then args else args[..cfg.maxArgBytes])
    }
  }

  datatype Verdict = Allow | BurstDetected | RepeatDetected

  type CallLog = seq<Stamped<string>>

  /** The governor's logs by key; a key without a log has the empty one. */
  type Logs = map<string, CallLog>

  function Lookup(logs: Logs, key: string): CallLog {
    if key in logs then logs[key] else []
  }

  function Each(): string -> nat {
    s => 1
  }

  function Repeats(signature: string): string -> nat {
    s => if s == signature then 1 else 0
  }

  lemma {:induction false} EachCounts(log: CallLog)
    ensures Total(log, Each()) == |log|
  {
    if log != [] {
      EachCounts(log[..|log| - 1]);
    }
  }

  /** The verdict on a call, given the calls of its window before it. */
  function Judge(cfg: Config, recent: CallLog, signature: string): Verdict {
    if cfg.maxCalls > 0 && |recent| + 1 > cfg.maxCalls then BurstDetected
    else if cfg.maxRepeats > 0 && Total(recent, Repeats(signature)) + 1 > cfg.maxRepeats then RepeatDetected
    else Allow
  }

  function Entry(cfg: Config, a: Attempt): Stamped<string> {
    Stamped(a.now, a.Signature(cfg))
  }

  /** The log of the attempt's key, pruned to the attempt's window. */
  function Pruned(cfg: Config, logs: Logs, a: Attempt): CallLog {
    Since(Lookup(logs, a.Key()), a.now - cfg.window)
  }

  /** Denied attempts are logged like the others. */
  function Tracked(cfg: Config, logs: Logs, a: Attempt): Logs {
    if cfg.Active() then logs[a.Key() := Pruned(cfg, logs, a) + [Entry(cfg, a)]] else logs
  }

  function VerdictOn(cfg: Config, logs: Logs, a: Attempt): Verdict {
    if cfg.Active() then Judge(cfg, Pruned(cfg, logs, a), a.Signature(cfg)) else Allow
  }

  class LoopGovernor {
    var runtimeCfg: Config
    var runtime: Logs

    constructor ()
      ensures runtime == map[] && runtimeCfg == Config(false, 0, 0, 0, 0)
    {
      runtimeCfg, runtime := Config(false, 0, 0, 0, 0), map[];
    }

    method ConfigureRuntime(cfg: Config)
      modifies this`runtimeCfg
      ensures runtimeCfg == cfg
    {
      runtimeCfg := cfg;
    }

    /** Filters a log in place: kept entries overwrite the front of the very log that is being read. */
    method Prune(log: CallLog, cutoff: int) returns (kept: CallLog)
      ensures kept == Since(log, cutoff)
    {
      var calls, n := log, 0;
      for i := 0 to |log|
        invariant n <= i && |calls| == |log| && calls[i..] == log[i..]
        invariant calls[..n] == Since(log[..i], cutoff)
      {
        KeptInPlace(calls, log, n, i);
        if calls[i].ts >= cutoff {
          calls := calls[n := calls[i]];
          n := n + 1;
        }
      }
      assert log[..|log|] == log;
      kept := calls[..n];
    }

    method CountRepeats(kept: CallLog, sig: string) returns (repeats: nat)
      ensures repeats == 1 + Total(kept, Repeats(sig))
    {
      repeats := 1;
      var i := |kept|;
      while i > 0
        invariant 0 <= i <= |kept|
        invariant repeats == 1 + Total(kept[i..], Repeats(sig))
      {
        i := i - 1;
        TotalCons(kept[i], kept[i + 1..], Repeats(sig));
        assert [kept[i]] + kept[i + 1..] == kept[i..];
        if kept[i].item == sig {
          repeats := repeats + 1;
        }
      }
      assert kept[0..] == kept;
    }

    method CheckAndTrack(a: Attempt) returns (verdict: Verdict)
      modifies this`runtime
      ensures verdict == VerdictOn(runtimeCfg, old(runtime), a)
      ensures runtime == Tracked(runtimeCfg, old(runtime), a)
    {
      var cfg := runtimeCfg;
      if !cfg.enabled || cfg.window <= 0 {
        return Allow;
      }
      if cfg.maxCalls <= 0 && cfg.maxRepeats <= 0 {
        return Allow;
      }
      var key := a.Key();
      var kept := Prune(if key in runtime then runtime[key] else [], a.now - cfg.window);
      var sig := a.Signature(cfg);
      var repeats := CountRepeats(kept, sig);
      runtime := runtime[key := kept + [Entry(cfg, a)]];
      assert runtime == Tracked(cfg, old(runtime), a);
      if cfg.maxCalls > 0 && |kept| + 1 > cfg.maxCalls {
        return BurstDetected;
      }
      if cfg.maxRepeats > 0 && repeats > cfg.maxRepeats {
        return RepeatDetected;
      }
      return Allow;
    }
  }

  // ---------------------------------------------------------------- what counts as a repeat

  predicate AgreeAt(s: string, t: string, i: nat) {
    (i < |s| <==> i < |t|) && (i < |s| && i < |t| ==> s[i] == t[i])
  }

  /** The texts agree as far as the bound lets them be compared; without a bound they are equal. */
  predicate AgreeWithin(bound: int, s: string, t: string) {
    if bound <= 0 then s == t else forall i :: 0 <= i < bound ==> AgreeAt(s, t, i)
  }

  function Front(bound: nat, s: string): string {
    if bound < |s| then s[..bound] else s
  }

  lemma FrontsAgree(bound: nat, s: string, t: string)
    requires bound > 0
    ensures AgreeWithin(bound, s, t) <==> Front(bound, s) == Front(bound, t)
  {
    var x, y := Front(bound, s), Front(bound, t);
    var shorter := if |x| < |y| then |x| else |y|;
    assert AgreeAt(s, t, shorter) && shorter < bound ==> |x| == |y|;
    if AgreeWithin(bound, s, t) {
      assert shorter < bound ==> AgreeAt(s, t, shorter);
      assert forall i :: 0 <= i < |x| && i < |y| ==> AgreeAt(s, t, i) ==> x[i] == y[i];
    }
    if x == y {
      forall i | 0 <= i < bound ensures AgreeAt(s, t, i) {
        assert (i < |s| <==> i < |x|) && (i < |t| <==> i < |y|);
        assert i < |x| ==> s[i] == x[i] && t[i] == y[i];
      }
    }
  }

  /** Two calls of one tool are repeats of each other if and only if their arguments agree within the bound. */
  lemma SameSignatureIff(cfg: Config, a: Attempt, b: Attempt)
    requires a.toolID == b.toolID
    ensures a.Signature(cfg) == b.Signature(cfg) <==> AgreeWithin(cfg.maxArgBytes, a.args, b.args)
  {
    var n, x, y := |a.toolID| + 1, a.Signature(cfg), b.Signature(cfg);
    assert x[..n] == y[..n];
    if cfg.maxArgBytes <= 0 {
      assert x[n..] == a.args && y[n..] == b.args;
    } else {
      assert x[n..] == Front(cfg.maxArgBytes, a.args) && y[n..] == Front(cfg.maxArgBytes, b.args);
      FrontsAgree(cfg.maxArgBytes, a.args, b.args);
    }
    assert x == x[..n] + x[n..] && y == y[..n] + y[n..];
  }

  /** One tool's name and a bar begin the other's, which is longer by no more than the arguments may fill. */
  predicate Overlaps(cfg: Config, s: string, t: string) {
    s + "|" <= t && (cfg.maxArgBytes <= 0 || |t| - |s| <= cfg.maxArgBytes)
  }

  lemma LongerName(cfg: Config, a: Attempt, b: Attempt)
    requires a.Signature(cfg) == b.Signature(cfg) && |a.toolID| < |b.toolID|
    ensures Overlaps(cfg, a.toolID, b.toolID)
  {
    var x, y, n := a.Signature(cfg), b.Signature(cfg), |a.toolID| + 1;
    assert x[..n] == a.toolID + "|" && y[..|b.toolID|] == b.toolID;
    assert b.toolID[..n] == x[..n];
  }

  lemma SignatureStart(cfg: Config, a: Attempt)
    ensures a.toolID <= a.Signature(cfg)
  {
  }

  lemma OverlapShares(cfg: Config, s: string, t: string) returns (a: Attempt, b: Attempt)
    requires Overlaps(cfg, s, t)
    ensures a.toolID == s && b.toolID == t && a.Signature(cfg) == b.Signature(cfg)
  {
    a, b := Attempt("", "", s, t[|s| + 1..] + "|", 0), Attempt("", "", t, "", 0);
    assert t == (s + "|") + t[|s| + 1..];
    assert a.Signature(cfg) == (s + "|") + (t[|s| + 1..] + "|");
    assert b.Signature(cfg) == t + "|";
  }

  ghost predicate ShareSignature(cfg: Config, s: string, t: string) {
    exists a: Attempt, b: Attempt {:trigger a.Signature(cfg), b.Signature(cfg)} ::
      a.toolID == s && b.toolID == t && a.Signature(cfg) == b.Signature(cfg)
  }

  /** Calls of two tools can be repeats of each other if and only if their names overlap. */
  lemma ToolsShareIff(cfg: Config, s: string, t: string)
    requires s != t
    ensures ShareSignature(cfg, s, t) <==> Overlaps(cfg, s, t) || Overlaps(cfg, t, s)
  {
    if ShareSignature(cfg, s, t) {
      var a: Attempt, b: Attempt :| a.toolID == s && b.toolID == t && a.Signature(cfg) == b.Signature(cfg);
      SignatureStart(cfg, a);
      SignatureStart(cfg, b);
      if |s| < |t| {
        LongerName(cfg, a, b);
      } else if |t| < |s| {
        LongerName(cfg, b, a);
      }
    } else if Overlaps(cfg, s, t) {
      var a, b := OverlapShares(cfg, s, t);
    } else if Overlaps(cfg, t, s) {
      var b, a := OverlapShares(cfg, t, s);
    }
  }

  // ---------------------------------------------------------------- whole runs

  /** The logs after a run of attempts under one configuration, from a fresh governor. */
  function LogsAfter(cfg: Config, run: seq<Attempt>): Logs {
    if run == [] then map[] else Tracked(cfg, LogsAfter(cfg, run[..|run| - 1]), run[|run| - 1])
  }

  /** Every attempt of a run that was made under a key, with nothing forgotten. */
  function Attempted(cfg: Config, run: seq<Attempt>, key: string): CallLog {
    if run == [] then []
    else
      var k := |run| - 1;
      var before := Attempted(cfg, run[..k], key);
      if run[k].Key() == key then before + [Entry(cfg, run[k])] else before
  }

  /** For each attempt made under a key, whether it was allowed. */
  function Passed(cfg: Config, run: seq<Attempt>, key: string): (ok: seq<bool>)
    ensures |ok| == |Attempted(cfg, run, key)|
  {
    if run == [] then []
    else
      var k := |run| - 1;
      var before := Passed(cfg, run[..k], key);
      if run[k].Key() == key then before + [VerdictOn(cfg, LogsAfter(cfg, run[..k]), run[k]).Allow?] else before
  }

  lemma RunSnoc(cfg: Config, run: seq<Attempt>, a: Attempt, key: string)
    ensures LogsAfter(cfg, run + [a]) == Tracked(cfg, LogsAfter(cfg, run), a)
    ensures a.Key() == key ==>
      && Attempted(cfg, run + [a], key) == Attempted(cfg, run, key) + [Entry(cfg, a)]
      && Passed(cfg, run + [a], key) == Passed(cfg, run, key) + [VerdictOn(cfg, LogsAfter(cfg, run), a).Allow?]
    ensures a.Key() != key ==>
      && Attempted(cfg, run + [a], key) == Attempted(cfg, run, key)
      && Passed(cfg, run + [a], key) == Passed(cfg, run, key)
  {
    assert (run + [a])[..|run|] == run;
  }

  /** Switched off, without a window or without a cap, the governor stays out: it allows everything and logs nothing. */
  lemma {:induction false} SwitchedOff(cfg: Config, run: seq<Attempt>, a: Attempt)
    requires !cfg.enabled || cfg.window <= 0 || (cfg.maxCalls <= 0 && cfg.maxRepeats <= 0)
    ensures LogsAfter(cfg, run) == map[] && VerdictOn(cfg, LogsAfter(cfg, run), a) == Allow
  {
    if run != [] {
      SwitchedOff(cfg, run[..|run| - 1], a);
    }
  }

  lemma LookupTracked(cfg: Config, logs: Logs, a: Attempt, key: string)
    requires cfg.Active()
    ensures Lookup(Tracked(cfg, logs, a), key) ==
      if a.Key() == key then Since(Lookup(logs, key), a.now - cfg.window) + [Entry(cfg, a)] else Lookup(logs, key)
  {
  }

  lemma LoggedOnce(cfg: Config, run: seq<Attempt>, a: Attempt)
    requires cfg.Active() && Lookup(LogsAfter(cfg, run), a.Key()) == Kept(Attempted(cfg, run, a.Key()), cfg.window)
    ensures Lookup(LogsAfter(cfg, run + [a]), a.Key()) == Kept(Attempted(cfg, run + [a], a.Key()), cfg.window)
  {
    RunSnoc(cfg, run, a, a.Key());
    LookupTracked(cfg, LogsAfter(cfg, run), a, a.Key());
    KeptSnoc(Attempted(cfg, run, a.Key()), Entry(cfg, a), cfg.window);
  }

  lemma LoggedElsewhere(cfg: Config, run: seq<Attempt>, a: Attempt, key: string)
    requires cfg.Active() && a.Key() != key
    ensures Lookup(LogsAfter(cfg, run + [a]), key) == Lookup(LogsAfter(cfg, run), key)
    ensures Attempted(cfg, run + [a], key) == Attempted(cfg, run, key)
  {
    RunSnoc(cfg, run, a, key);
    LookupTracked(cfg, LogsAfter(cfg, run), a, key);
  }

  /** The governor's log of a key is the full history of the key, pruned as it grew. */
  lemma {:induction false} LogIsKept(cfg: Config, run: seq<Attempt>, key: string)
    requires cfg.Active()
    ensures Lookup(LogsAfter(cfg, run), key) == Kept(Attempted(cfg, run, key), cfg.window)
  {
    if run != [] {
      var before, a := run[..|run| - 1], run[|run| - 1];
      assert run == before + [a];
      LogIsKept(cfg, before, key);
      if a.Key() == key {
        LoggedOnce(cfg, before, a);
      } else {
        LoggedElsewhere(cfg, before, a, key);
      }
    }
  }

  // ---------------------------------------------------------------- what the governor sees

  /** On the window ending now, the governor's own log has what the full history has. */
  predicate SeesWindow(cfg: Config, run: seq<Attempt>, key: string, now: int) {
    Since(Lookup(LogsAfter(cfg, run), key), now - cfg.window) == Since(Attempted(cfg, run, key), now - cfg.window)
  }

  /** It does, if and only if no attempt of that window was followed by one stamped more than a window after it. */
  lemma SeesWindowIff(cfg: Config, run: seq<Attempt>, key: string, now: int)
    requires cfg.Active()
    ensures SeesWindow(cfg, run, key, now) <==> UnbrokenAt(Attempted(cfg, run, key), cfg.window, now)
  {
    LogIsKept(cfg, run, key);
    WindowKeptIff(Attempted(cfg, run, key), cfg.window, now - cfg.window);
  }

  lemma JudgedFrom(cfg: Config, logs: Logs, a: Attempt, recent: CallLog)
    requires cfg.Active() && Pruned(cfg, logs, a) == recent
    ensures VerdictOn(cfg, logs, a) == Judge(cfg, recent, a.Signature(cfg))
  {
  }

  lemma VerdictIfSeen(cfg: Config, run: seq<Attempt>, a: Attempt)
    requires cfg.Active() && SeesWindow(cfg, run, a.Key(), a.now)
    ensures VerdictOn(cfg, LogsAfter(cfg, run), a)
      == Judge(cfg, Since(Attempted(cfg, run, a.Key()), a.now - cfg.window), a.Signature(cfg))
  {
    JudgedFrom(cfg, LogsAfter(cfg, run), a, Since(Attempted(cfg, run, a.Key()), a.now - cfg.window));
  }

  /**
   The verdict on an attempt is the one computed from the full history of its key, denied attempts included,
   restricted to the window that ends with the attempt, whenever that window is unbroken; it is so, in particular,
   when no attempt of the key is stamped later.
   */
  lemma VerdictSeesWholeWindow(cfg: Config, run: seq<Attempt>, a: Attempt)
    requires cfg.Active() && UnbrokenAt(Attempted(cfg, run, a.Key()), cfg.window, a.now)
    ensures VerdictOn(cfg, LogsAfter(cfg, run), a)
      == Judge(cfg, Since(Attempted(cfg, run, a.Key()), a.now - cfg.window), a.Signature(cfg))
  {
    SeesWindowIff(cfg, run, a.Key(), a.now);
    VerdictIfSeen(cfg, run, a);
  }

  lemma LatestSeesClosedWindow(cfg: Config, run: seq<Attempt>, a: Attempt)
    requires cfg.Active() && AllBy(Attempted(cfg, run, a.Key()), a.now)
    ensures VerdictOn(cfg, LogsAfter(cfg, run), a)
      == Judge(cfg, Between(Attempted(cfg, run, a.Key()), a.now - cfg.window, a.now), a.Signature(cfg))
  {
    var h := Attempted(cfg, run, a.Key());
    AllByIsUnbroken(h, cfg.window, a.now);
    VerdictSeesWholeWindow(cfg, run, a);
    SinceIsBetween(h, a.now - cfg.window, a.now);
  }

  /** At every attempt of the key, the governor saw the whole window. */
  predicate SeesEveryWindow(cfg: Config, run: seq<Attempt>, key: string) {
    run == [] ||
    (var k := |run| - 1;
     SeesEveryWindow(cfg, run[..k], key) && (run[k].Key() == key ==> SeesWindow(cfg, run[..k], key, run[k].now)))
  }

  /**
   Over a whole run the governor never misses an attempt of a window, if and only if the key's timestamps are steady.
   */
  lemma {:induction false} SeesEveryWindowIff(cfg: Config, run: seq<Attempt>, key: string)
    requires cfg.Active()
    ensures SeesEveryWindow(cfg, run, key) <==> Steady(Attempted(cfg, run, key), cfg.window)
  {
    if run != [] {
      var before, a := run[..|run| - 1], run[|run| - 1];
      assert run == before + [a];
      SeesEveryWindowIff(cfg, before, key);
      RunSnoc(cfg, before, a, key);
      if a.Key() == key {
        SeesWindowIff(cfg, before, key, a.now);
        SteadyNext(Attempted(cfg, before, key), Entry(cfg, a), a.now, cfg.window);
      }
    }
  }

  // ---------------------------------------------------------------- the caps

  /** Whatever a call is allowed on top of, its weight fits under the cap. */
  ghost predicate Guards(cfg: Config, weight: string -> nat, cap: nat) {
    forall recent, signature :: Judge(cfg, recent, signature).Allow? && weight(signature) > 0 ==>
      Total(recent, weight) + weight(signature) <= cap
  }

  lemma AllowedFits(cfg: Config, run: seq<Attempt>, a: Attempt, weight: string -> nat, cap: nat)
    requires cfg.Active() && UnbrokenAt(Attempted(cfg, run, a.Key()), cfg.window, a.now)
    requires Guards(cfg, weight, cap) && VerdictOn(cfg, LogsAfter(cfg, run), a).Allow?
    ensures var h := Attempted(cfg, run, a.Key()); FitsAt(h + [Entry(cfg, a)], |h|, weight, cfg.window, cap)
  {
    VerdictSeesWholeWindow(cfg, run, a);
    FitsAtEnd(Attempted(cfg, run, a.Key()), Entry(cfg, a), weight, cfg.window, cap);
  }

  /** A cap that an allowed attempt respects in its own log holds along the full history. */
  lemma {:induction false} RunCapped(cfg: Config, run: seq<Attempt>, key: string, weight: string -> nat, cap: nat)
    requires cfg.Active() && Steady(Attempted(cfg, run, key), cfg.window) && Guards(cfg, weight, cap)
    ensures Capped(Attempted(cfg, run, key), Passed(cfg, run, key), weight, cfg.window, cap)
  {
    if run != [] {
      var before, a := run[..|run| - 1], run[|run| - 1];
      assert run == before + [a];
      RunSnoc(cfg, before, a, key);
      if a.Key() == key {
        var h, pass := Attempted(cfg, before, key), VerdictOn(cfg, LogsAfter(cfg, before), a).Allow?;
        SteadyNext(h, Entry(cfg, a), a.now, cfg.window);
        RunCapped(cfg, before, key, weight, cap);
        if pass {
          AllowedFits(cfg, before, a, weight, cap);
        }
        CappedSnoc(h, Passed(cfg, before, key), Entry(cfg, a), pass, weight, cfg.window, cap);
      } else {
        RunCapped(cfg, before, key, weight, cap);
      }
    }
  }

  /** In every closed interval as long as the window, a key has at most maxCalls allowed calls. */
  lemma CallsBounded(cfg: Config, run: seq<Attempt>, key: string, lo: int)
    requires cfg.Active() && cfg.maxCalls > 0 && Steady(Attempted(cfg, run, key), cfg.window)
    ensures Allowed(Attempted(cfg, run, key), Passed(cfg, run, key), Each(), lo, lo + cfg.window) <= cfg.maxCalls
  {
    forall recent, signature | Judge(cfg, recent, signature).Allow?
      ensures Total(recent, Each()) + Each()(signature) <= cfg.maxCalls
    {
      EachCounts(recent);
    }
    RunCapped(cfg, run, key, Each(), cfg.maxCalls);
    EveryWindowCapped(Attempted(cfg, run, key), Passed(cfg, run, key), Each(), cfg.window, cfg.maxCalls, lo);
  }

  /** And at most maxRepeats allowed calls with any one signature. */
  lemma RepeatsBounded(cfg: Config, run: seq<Attempt>, key: string, signature: string, lo: int)
    requires cfg.Active() && cfg.maxRepeats > 0 && Steady(Attempted(cfg, run, key), cfg.window)
    ensures var weight := Repeats(signature);
      Allowed(Attempted(cfg, run, key), Passed(cfg, run, key), weight, lo, lo + cfg.window) <= cfg.maxRepeats
  {
    var weight := Repeats(signature);
    RunCapped(cfg, run, key, weight, cfg.maxRepeats);
    EveryWindowCapped(Attempted(cfg, run, key), Passed(cfg, run, key), weight, cfg.window, cfg.maxRepeats, lo);
  }

  // ---------------------------------------------------------------- a clock that runs back

  /** The weight of one signature allowed to a key from lo on, for as long as the window. */
  function AllowedFrom(cfg: Config, run: seq<Attempt>, key: string, signature: string, lo: int): nat {
    Allowed(Attempted(cfg, run, key), Passed(cfg, run, key), Repeats(signature), lo, lo + cfg.window)
  }

  lemma AllowedStep(cfg: Config, run: seq<Attempt>, a: Attempt, lo: int, signature: string)
    ensures AllowedFrom(cfg, run + [a], a.Key(), signature, lo) == AllowedFrom(cfg, run, a.Key(), signature, lo)
      + (if VerdictOn(cfg, LogsAfter(cfg, run), a).Allow? && lo <= a.now <= lo + cfg.window
         then Repeats(signature)(a.Signature(cfg)) else 0)
  {
    var key := a.Key();
    RunSnoc(cfg, run, a, key);
    AllowedSnoc(Attempted(cfg, run, key), Passed(cfg, run, key), Entry(cfg, a),
      VerdictOn(cfg, LogsAfter(cfg, run), a).Allow?, Repeats(signature), lo, lo + cfg.window);
  }

  /** The next call is allowed while its repeats in the governor's log leave room. */
  lemma AllowedOnTop(cfg: Config, run: seq<Attempt>, a: Attempt, kept: CallLog)
    requires cfg.Active() && cfg.maxCalls <= 0 && Lookup(LogsAfter(cfg, run), a.Key()) == kept
    requires AllFrom(kept, a.now - cfg.window) && Total(kept, Repeats(a.Signature(cfg))) < cfg.maxRepeats
    ensures VerdictOn(cfg, LogsAfter(cfg, run), a) == Allow
  {
    SinceAll(kept, a.now - cfg.window);
  }

  /** A cap on repeats alone, and a call b of the same key, of another signature, more than a window after a. */
  predicate JumpsAhead(cfg: Config, a: Attempt, b: Attempt) {
    && cfg.Active() && cfg.maxCalls <= 0
    && a.Key() == b.Key() && a.Signature(cfg) != b.Signature(cfg) && b.now > a.now + cfg.window
  }

  /** One more call, at an instant whose window holds all that is kept, while there is room for it. */
  lemma RoundStep(cfg: Config, run: seq<Attempt>, a: Attempt, kept: CallLog)
    requires cfg.Active() && cfg.maxCalls <= 0
    requires Kept(Attempted(cfg, run, a.Key()), cfg.window) == kept
    requires AllFrom(kept, a.now - cfg.window)
    requires Total(kept, Repeats(a.Signature(cfg))) < cfg.maxRepeats
    ensures Kept(Attempted(cfg, run + [a], a.Key()), cfg.window) == kept + [Entry(cfg, a)]
    ensures AllowedFrom(cfg, run + [a], a.Key(), a.Signature(cfg), a.now)
      == AllowedFrom(cfg, run, a.Key(), a.Signature(cfg), a.now) + 1
  {
    assert Kept(Attempted(cfg, run + [a], a.Key()), cfg.window) == kept + [Entry(cfg, a)] by {
      RunSnoc(cfg, run, a, a.Key());
      KeptOnTop(Attempted(cfg, run, a.Key()), Entry(cfg, a), cfg.window, kept);
    }
    LogIsKept(cfg, run, a.Key());
    AllowedOnTop(cfg, run, a, kept);
    AllowedStep(cfg, run, a, a.now, a.Signature(cfg));
  }

  /** Copies of an entry are all of one window, and repeats of each other. */
  lemma CopiesFit(e: Stamped<string>, n: nat, now: int, signature: string, window: int)
    requires e == Stamped(now, signature) && window > 0
    ensures AllFrom(Copies(e, n), now - window) && Total(Copies(e, n), Repeats(signature)) == n
  {
    TotalCopies(e, n, Repeats(signature));
  }

  lemma BehindFit(e: Stamped<string>, f: Stamped<string>, n: nat, now: int, signature: string, window: int)
    requires e == Stamped(now, signature) && window > 0 && signature != f.item && f.ts > now
    ensures var kept := [f] + Copies(e, n);
      AllFrom(kept, now - window) && Total(kept, Repeats(signature)) == n
  {
    TotalCons(f, Copies(e, n), Repeats(signature));
    TotalCopies(e, n, Repeats(signature));
  }

  /** As many calls as the cap, at one instant. */
  lemma {:induction false} FirstRound(cfg: Config, a: Attempt, n: nat) returns (run: seq<Attempt>)
    requires cfg.Active() && cfg.maxCalls <= 0 && n <= cfg.maxRepeats
    ensures run == Copies(a, n) && Kept(Attempted(cfg, run, a.Key()), cfg.window) == Copies(Entry(cfg, a), n)
    ensures AllowedFrom(cfg, run, a.Key(), a.Signature(cfg), a.now) == n
  {
    if n == 0 {
      run := [];
      CopiesSnoc(a, 0);
      CopiesSnoc(Entry(cfg, a), 0);
    } else {
      var before := FirstRound(cfg, a, n - 1);
      CopiesFit(Entry(cfg, a), n - 1, a.now, a.Signature(cfg), cfg.window);
      RoundStep(cfg, before, a, Copies(Entry(cfg, a), n - 1));
      CopiesSnoc(Entry(cfg, a), n - 1);
      CopiesSnoc(a, n - 1);
      run := before + [a];
    }
  }

  lemma Jump(cfg: Config, a: Attempt, b: Attempt) returns (run: seq<Attempt>)
    requires JumpsAhead(cfg, a, b)
    ensures run == Copies(a, cfg.maxRepeats) + [b]
    ensures Kept(Attempted(cfg, run, a.Key()), cfg.window) == [Entry(cfg, b)]
    ensures AllowedFrom(cfg, run, a.Key(), a.Signature(cfg), a.now) == cfg.maxRepeats
  {
    var before := FirstRound(cfg, a, cfg.maxRepeats);
    RunSnoc(cfg, before, b, a.Key());
    KeptAlone(Attempted(cfg, before, a.Key()), Entry(cfg, b), cfg.window, Copies(Entry(cfg, a), cfg.maxRepeats));
    AllowedStep(cfg, before, b, a.now, a.Signature(cfg));
    run := before + [b];
  }

  /** After the jump, up to as many calls again at the earlier instant. */
  lemma {:induction false} SecondRound(cfg: Config, a: Attempt, b: Attempt, n: nat) returns (run: seq<Attempt>)
    requires JumpsAhead(cfg, a, b) && n <= cfg.maxRepeats
    ensures run == (Copies(a, cfg.maxRepeats) + [b]) + Copies(a, n)
    ensures Kept(Attempted(cfg, run, a.Key()), cfg.window) == [Entry(cfg, b)] + Copies(Entry(cfg, a), n)
    ensures AllowedFrom(cfg, run, a.Key(), a.Signature(cfg), a.now) == cfg.maxRepeats + n
  {
    if n == 0 {
      run := Jump(cfg, a, b);
      NoMoreCopies(run, a);
      CopiesBehind(Entry(cfg, b), Entry(cfg, a), 0);
    } else {
      var e, f := Entry(cfg, a), Entry(cfg, b);
      var before := SecondRound(cfg, a, b, n - 1);
      BehindFit(e, f, n - 1, a.now, a.Signature(cfg), cfg.window);
      RoundStep(cfg, before, a, [f] + Copies(e, n - 1));
      CopiesBehind(f, e, n - 1);
      run := before + [a];
      MoreCopies(Copies(a, cfg.maxRepeats) + [b], a, n - 1);
    }
  }

  lemma NoMoreCopies(run: seq<Attempt>, a: Attempt)
    ensures run + Copies(a, 0) == run
  {
  }

  lemma MoreCopies(run: seq<Attempt>, a: Attempt, n: nat)
    ensures (run + Copies(a, n)) + [a] == run + Copies(a, n + 1)
  {
    CopiesSnoc(a, n);
  }

  /**
   Where the timestamps are not steady the bound can fail, by as much as the cap: once a later call has pruned the log,
   as many repeats again pass at the earlier instant, twice the cap at one moment.
   */
  lemma ClockRunningBackDoublesCap(cfg: Config, a: Attempt, b: Attempt)
    requires JumpsAhead(cfg, a, b)
    ensures var run := (Copies(a, cfg.maxRepeats) + [b]) + Copies(a, cfg.maxRepeats);
      AllowedFrom(cfg, run, a.Key(), a.Signature(cfg), a.now) == 2 * cfg.maxRepeats
  {
    var run := SecondRound(cfg, a, b, cfg.maxRepeats);
  }

  // ---------------------------------------------------------------- exactly when the repeat cap holds

  lemma PrunedFrom(cfg: Config, logs: Logs, a: Attempt, log: CallLog)
    requires Lookup(logs, a.Key()) == Kept(log, cfg.window)
    ensures Pruned(cfg, logs, a) == Recent(log, Entry(cfg, a), cfg.window)
  {
  }

  lemma PrunedIsRecent(cfg: Config, run: seq<Attempt>, a: Attempt)
    requires cfg.Active()
    ensures Pruned(cfg, LogsAfter(cfg, run), a) == Recent(Attempted(cfg, run, a.Key()), Entry(cfg, a), cfg.window)
  {
    LogIsKept(cfg, run, a.Key());
    PrunedFrom(cfg, LogsAfter(cfg, run), a, Attempted(cfg, run, a.Key()));
  }

  /** The verdict by the number of calls in the window, and of repeats among them. */
  function JudgeBy(cfg: Config, calls: nat, repeats: nat): Verdict {
    if cfg.maxCalls > 0 && calls + 1 > cfg.maxCalls then BurstDetected
    else if cfg.maxRepeats > 0 && repeats + 1 > cfg.maxRepeats then RepeatDetected
    else Allow
  }

  lemma JudgeByNumbers(cfg: Config, recent: CallLog, signature: string)
    ensures Judge(cfg, recent, signature)
      == JudgeBy(cfg, Total(recent, Each()), Total(recent, Repeats(signature)))
  {
    EachCounts(recent);
  }

  /**
   The verdict on an attempt, whatever the timestamps: it counts the attempts of the window that ends with it, but for
   those that a later one, stamped more than a window after them, has pruned.
   */
  lemma VerdictExactly(cfg: Config, run: seq<Attempt>, a: Attempt)
    requires cfg.Active()
    ensures var h, e := Attempted(cfg, run, a.Key()), Entry(cfg, a);
      VerdictOn(cfg, LogsAfter(cfg, run), a)
        == JudgeBy(cfg, Found(h, e, cfg.window, Each()), Found(h, e, cfg.window, Repeats(a.Signature(cfg))))
  {
    var h, e := Attempted(cfg, run, a.Key()), Entry(cfg, a);
    PrunedIsRecent(cfg, run, a);
    JudgeByNumbers(cfg, Pruned(cfg, LogsAfter(cfg, run), a), a.Signature(cfg));
    RecentIsFound(h, e, cfg.window, Each());
    RecentIsFound(h, e, cfg.window, Repeats(a.Signature(cfg)));
  }

  // ---------------------------------------------------------------- the verdict by the attempts themselves

  function Bounded(cfg: Config, args: string): string {
    if cfg.maxArgBytes > 0 then Front(cfg.maxArgBytes, args) else args
  }

  /** An attempt of the same agent and session, stamped in the window that ends with a or later. */
  predicate Near(cfg: Config, e: Attempt, a: Attempt) {
    && e.agentID + "|" + e.sessionID == a.agentID + "|" + a.sessionID
    && e.now >= a.now - cfg.window
  }

  /** One that also has the same text of tool and bounded arguments. */
  predicate Like(cfg: Config, e: Attempt, a: Attempt) {
    Near(cfg, e, a) && e.toolID + "|" + Bounded(cfg, e.args) == a.toolID + "|" + Bounded(cfg, a.args)
  }

  function CountNear(cfg: Config, run: seq<Attempt>, a: Attempt): nat {
    if run == [] then 0
    else CountNear(cfg, run[..|run| - 1], a) + (if Near(cfg, run[|run| - 1], a) then 1 else 0)
  }

  function CountLike(cfg: Config, run: seq<Attempt>, a: Attempt): nat {
    if run == [] then 0
    else CountLike(cfg, run[..|run| - 1], a) + (if Like(cfg, run[|run| - 1], a) then 1 else 0)
  }

  lemma {:induction false} WindowCounts(cfg: Config, run: seq<Attempt>, a: Attempt)
    ensures var recent := Since(Attempted(cfg, run, a.Key()), a.now - cfg.window);
      |recent| == CountNear(cfg, run, a) && Total(recent, Repeats(a.Signature(cfg))) == CountLike(cfg, run, a)
  {
    if run != [] {
      var before, e := run[..|run| - 1], run[|run| - 1];
      var log := Attempted(cfg, before, a.Key());
      WindowCounts(cfg, before, a);
      SinceSnoc(log, Entry(cfg, e), a.now - cfg.window);
      TotalSnoc(Since(log, a.now - cfg.window), Entry(cfg, e), Repeats(a.Signature(cfg)));
    }
  }

  /** Where the window is unbroken, exactly these decide. */
  lemma RepeatDetectedIff(cfg: Config, run: seq<Attempt>, a: Attempt)
    requires cfg.Active() && UnbrokenAt(Attempted(cfg, run, a.Key()), cfg.window, a.now)
    ensures var verdict := VerdictOn(cfg, LogsAfter(cfg, run), a);
      && (verdict.BurstDetected? <==> 0 < cfg.maxCalls <= CountNear(cfg, run, a))
      && (verdict.RepeatDetected? <==> !verdict.BurstDetected? && 0 < cfg.maxRepeats <= CountLike(cfg, run, a))
  {
    VerdictSeesWholeWindow(cfg, run, a);
    WindowCounts(cfg, run, a);
  }

  lemma RepeatsFound(cfg: Config, run: seq<Attempt>, a: Attempt, e: Stamped<string>)
    requires e == Entry(cfg, a)
    ensures Found(Attempted(cfg, run, a.Key()), e, cfg.window, Repeats(e.item)) <= CountLike(cfg, run, a)
  {
    FoundInWindow(Attempted(cfg, run, a.Key()), e, cfg.window, Repeats(e.item));
    WindowCounts(cfg, run, a);
  }

  lemma DetectedByNumbers(cfg: Config, calls: nat, repeats: nat)
    requires JudgeBy(cfg, calls, repeats).RepeatDetected?
    ensures 0 < cfg.maxRepeats <= repeats
  {
  }

  /**
   Whatever the timestamps, a repeat is not detected without that many attempts of the same tool and bounded arguments
   in the window.
   */
  lemma RepeatOnlyIfAlike(cfg: Config, run: seq<Attempt>, a: Attempt)
    requires cfg.Active() && VerdictOn(cfg, LogsAfter(cfg, run), a).RepeatDetected?
    ensures 0 < cfg.maxRepeats <= CountLike(cfg, run, a)
    ensures exists i :: 0 <= i < |run| && Like(cfg, run[i], a)
  {
    var h, e := Attempted(cfg, run, a.Key()), Entry(cfg, a);
    VerdictExactly(cfg, run, a);
    DetectedByNumbers(cfg, Found(h, e, cfg.window, Each()), Found(h, e, cfg.window, Repeats(e.item)));
    RepeatsFound(cfg, run, a, e);
    SomeLike(cfg, run, a);
  }

  lemma {:induction false} SomeLike(cfg: Config, run: seq<Attempt>, a: Attempt)
    requires CountLike(cfg, run, a) > 0
    ensures exists i :: 0 <= i < |run| && Like(cfg, run[i], a)
  {
    var k := |run| - 1;
    if !Like(cfg, run[k], a) {
      SomeLike(cfg, run[..k], a);
      var i :| 0 <= i < k && Like(cfg, run[..k][i], a);
      assert Like(cfg, run[i], a);
    }
  }

  lemma RepeatJudged(cfg: Config, logs: Logs, a: Attempt, signature: string)
    requires cfg.Active() && cfg.maxCalls <= 0
    ensures JudgedNext(
      Pruned(cfg, logs, a), Entry(cfg, a), VerdictOn(cfg, logs, a).Allow?, Repeats(signature), cfg.maxRepeats)
  {
  }

  lemma {:induction false} RepeatsJudged(cfg: Config, run: seq<Attempt>, key: string, signature: string)
    requires cfg.Active() && cfg.maxCalls <= 0
    ensures JudgedBy(
      Attempted(cfg, run, key), Passed(cfg, run, key), Repeats(signature), cfg.window, cfg.maxRepeats)
  {
    if run != [] {
      var before, a := run[..|run| - 1], run[|run| - 1];
      var logs := LogsAfter(cfg, before);
      assert run == before + [a];
      RepeatsJudged(cfg, before, key, signature);
      RunSnoc(cfg, before, a, key);
      if a.Key() == key {
        PrunedIsRecent(cfg, before, a);
        RepeatJudged(cfg, logs, a, signature);
        JudgedSnoc(Attempted(cfg, before, key), Passed(cfg, before, key), Entry(cfg, a), Pruned(cfg, logs, a),
          VerdictOn(cfg, logs, a).Allow?, Repeats(signature), cfg.window, cfg.maxRepeats);
      }
    }
  }

  lemma {:induction false} OneKey(cfg: Config, run: seq<Attempt>, key: string)
    requires forall q :: 0 <= q < |run| ==> run[q].Key() == key
    ensures |Attempted(cfg, run, key)| == |run|
    ensures forall q :: 0 <= q < |run| ==> Attempted(cfg, run, key)[q] == Entry(cfg, run[q])
  {
    if run != [] {
      OneKey(cfg, run[..|run| - 1], key);
    }
  }

  lemma {:induction false} AllowedGrows(
    cfg: Config, run: seq<Attempt>, front: seq<Attempt>, key: string, signature: string, lo: int)
    requires front <= run
    ensures AllowedFrom(cfg, front, key, signature, lo) <= AllowedFrom(cfg, run, key, signature, lo)
  {
    if front != run {
      var before, a := run[..|run| - 1], run[|run| - 1];
      assert front <= before && run == before + [a];
      AllowedGrows(cfg, before, front, key, signature, lo);
      if a.Key() == key {
        AllowedStep(cfg, before, a, lo, signature);
      } else {
        RunSnoc(cfg, before, a, key);
      }
    }
  }

  predicate Marked(times: seq<int>, lo: int, window: int, from: nat, to: nat, k: nat, q: nat)
    requires q < |times|
  {
    lo <= times[q] <= lo + window && (from <= q < to || q == k)
  }

  /** Attempts at the given times: one signature for a block of them and for attempt k, another for the rest. */
  function MarkedRun(
    agentID: string, sessionID: string, times: seq<int>, lo: int, window: int, from: nat, to: nat, k: nat)
    : (run: seq<Attempt>)
    ensures |run| == |times|
  {
    seq(|times|, q requires 0 <= q < |times| =>
      Attempt(agentID, sessionID, if Marked(times, lo, window, from, to, k, q) then "x" else "y", "", times[q]))
  }

  lemma BareSignature(cfg: Config, a: Attempt)
    requires a.args == ""
    ensures a.toolID == "x" ==> a.Signature(cfg) == "x|"
    ensures a.toolID == "y" ==> a.Signature(cfg) != "x|"
  {
    assert a.Signature(cfg) == a.toolID + "|";
    assert "x" + "|" == "x|" && ("y" + "|")[0] == 'y' && "x|"[0] == 'x';
  }

  lemma MarkedWeight(
    cfg: Config, agentID: string, sessionID: string, times: seq<int>, lo: int, window: int, from: nat, to: nat, k: nat,
    q: nat)
    requires q < |times|
    ensures var a := MarkedRun(agentID, sessionID, times, lo, window, from, to, k)[q];
      a.Key() == agentID + "|" + sessionID && Entry(cfg, a).ts == times[q]
      && Repeats("x|")(Entry(cfg, a).item) == if Marked(times, lo, window, from, to, k, q) then 1 else 0
  {
    BareSignature(cfg, MarkedRun(agentID, sessionID, times, lo, window, from, to, k)[q]);
  }

  /** What of the attempts before k has the signature is the block; attempt k has it too. */
  lemma MarkedWeights(
    cfg: Config, agentID: string, sessionID: string, times: seq<int>, lo: int, window: int, from: nat, to: nat, k: nat)
    requires k < |times| && from <= to <= k && lo <= times[k] <= lo + window
    ensures var run := MarkedRun(agentID, sessionID, times, lo, window, from, to, k)[..k + 1];
      var h := Attempted(cfg, run, agentID + "|" + sessionID);
      BlockLog(h, times, Repeats("x|"), lo, lo + window, from, to, k)
  {
    var run := MarkedRun(agentID, sessionID, times, lo, window, from, to, k);
    OneKey(cfg, run[..k + 1], agentID + "|" + sessionID);
    forall q | 0 <= q <= k
      ensures Repeats("x|")(Entry(cfg, run[q]).item) == if Marked(times, lo, window, from, to, k, q) then 1 else 0
    {
      MarkedWeight(cfg, agentID, sessionID, times, lo, window, from, to, k, q);
    }
  }

  lemma MarkedStamps(
    cfg: Config, agentID: string, sessionID: string, times: seq<int>, lo: int, window: int, from: nat, to: nat, k: nat)
    ensures var run := MarkedRun(agentID, sessionID, times, lo, window, from, to, k);
      Stamps(Attempted(cfg, run, agentID + "|" + sessionID), times)
  {
    var run := MarkedRun(agentID, sessionID, times, lo, window, from, to, k);
    OneKey(cfg, run, agentID + "|" + sessionID);
  }

  /** A run with the given timestamps that gets one repeat more than the cap allowed. */
  lemma LapsingRun(cfg: Config, agentID: string, sessionID: string, times: seq<int>, k: nat, lo: int)
    returns (run: seq<Attempt>)
    requires cfg.Active() && cfg.maxCalls <= 0 && Lapses(times, cfg.window, cfg.maxRepeats, k, lo)
    ensures var key := agentID + "|" + sessionID;
      Stamps(Attempted(cfg, run, key), times) && AllowedFrom(cfg, run, key, "x|", lo) > cfg.maxRepeats
  {
    var i, j := Overtaker(times, cfg.window, k, lo);
    var from, to := BlockWith(times, lo, lo + cfg.window, cfg.maxRepeats, k, i);
    run := MarkedRun(agentID, sessionID, times, lo, cfg.window, from, to, k);
    MarkedStamps(cfg, agentID, sessionID, times, lo, cfg.window, from, to, k);
    MarkedPass(cfg, agentID, sessionID, times, k, lo, i, j, from, to);
    AllowedGrows(cfg, run, run[..k + 1], agentID + "|" + sessionID, "x|", lo);
  }

  /** The block's m attempts pass, and attempt k passes in place of attempt i. */
  lemma BlockAllowed(
    cfg: Config, run: seq<Attempt>, key: string, signature: string, times: seq<int>, k: nat, lo: int, i: nat, j: nat,
    from: nat, to: nat)
    requires cfg.Active() && cfg.maxCalls <= 0
    requires BlockLog(Attempted(cfg, run, key), times, Repeats(signature), lo, lo + cfg.window, from, to, k)
    requires BlockOvertaken(times, cfg.window, cfg.maxRepeats, lo, lo + cfg.window, from, to, k, i, j)
    ensures AllowedFrom(cfg, run, key, signature, lo) == cfg.maxRepeats + 1
  {
    RepeatsJudged(cfg, run, key, signature);
    BlockPasses(Attempted(cfg, run, key), Passed(cfg, run, key), Repeats(signature),
      cfg.window, cfg.maxRepeats, times, lo, lo + cfg.window, from, to, k, i, j);
  }

  lemma MarkedPass(
    cfg: Config, agentID: string, sessionID: string, times: seq<int>, k: nat, lo: int, i: nat, j: nat,
    from: nat, to: nat)
    requires cfg.Active() && cfg.maxCalls <= 0
    requires k < |times| && lo <= times[k] <= lo + cfg.window
    requires BlockOvertaken(times, cfg.window, cfg.maxRepeats, lo, lo + cfg.window, from, to, k, i, j)
    ensures var run := MarkedRun(agentID, sessionID, times, lo, cfg.window, from, to, k)[..k + 1];
      AllowedFrom(cfg, run, agentID + "|" + sessionID, "x|", lo) == cfg.maxRepeats + 1
  {
    var run := MarkedRun(agentID, sessionID, times, lo, cfg.window, from, to, k)[..k + 1];
    MarkedWeights(cfg, agentID, sessionID, times, lo, cfg.window, from, to, k);
    BlockAllowed(cfg, run, agentID + "|" + sessionID, "x|", times, k, lo, i, j, from, to);
  }

  /** Every run with these timestamps keeps the cap on repeats, of every signature in every closed window. */
  ghost predicate RepeatsKept(cfg: Config, agentID: string, sessionID: string, times: seq<int>) {
    forall run, signature, lo {:trigger AllowedFrom(cfg, run, agentID + "|" + sessionID, signature, lo)} ::
      Stamps(Attempted(cfg, run, agentID + "|" + sessionID), times) ==>
        AllowedFrom(cfg, run, agentID + "|" + sessionID, signature, lo) <= cfg.maxRepeats
  }

  /**
   A cap m on repeats alone holds of every run with the given timestamps if and only if the clock never leaves an
   interval as long as the window and comes back to it with more than m attempts there.
   */
  lemma RepeatsBoundedIff(cfg: Config, agentID: string, sessionID: string, times: seq<int>)
    requires cfg.Active() && cfg.maxCalls <= 0
    ensures RepeatsKept(cfg, agentID, sessionID, times)
      <==> forall k, lo :: !Lapses(times, cfg.window, cfg.maxRepeats, k, lo)
  {
    var key := agentID + "|" + sessionID;
    if k, lo :| Lapses(times, cfg.window, cfg.maxRepeats, k, lo) {
      var run := LapsingRun(cfg, agentID, sessionID, times, k, lo);
      assert AllowedFrom(cfg, run, agentID + "|" + sessionID, "x|", lo) > cfg.maxRepeats;
    } else {
      forall run, signature, lo | Stamps(Attempted(cfg, run, key), times)
        ensures AllowedFrom(cfg, run, key, signature, lo) <= cfg.maxRepeats
      {
        RepeatsJudged(cfg, run, key, signature);
        BoundWithoutLapse(Attempted(cfg, run, key), Passed(cfg, run, key), times, Repeats(signature),
          cfg.window, cfg.maxRepeats, lo);
      }
    }
  }

  // ---------------------------------------------------------------- exactly when the call cap holds

  lemma CallJudged(cfg: Config, logs: Logs, a: Attempt)
    requires cfg.Active() && cfg.maxRepeats <= 0
    ensures JudgedNext(Pruned(cfg, logs, a), Entry(cfg, a), VerdictOn(cfg, logs, a).Allow?, Each(), cfg.maxCalls)
  {
    EachCounts(Pruned(cfg, logs, a));
  }

  lemma {:induction false} CallsJudged(cfg: Config, run: seq<Attempt>, key: string)
    requires cfg.Active() && cfg.maxRepeats <= 0
    ensures JudgedBy(Attempted(cfg, run, key), Passed(cfg, run, key), Each(), cfg.window, cfg.maxCalls)
  {
    if run != [] {
      var before, a := run[..|run| - 1], run[|run| - 1];
      var logs := LogsAfter(cfg, before);
      assert run == before + [a];
      CallsJudged(cfg, before, key);
      RunSnoc(cfg, before, a, key);
      if a.Key() == key {
        PrunedIsRecent(cfg, before, a);
        CallJudged(cfg, logs, a);
        JudgedSnoc(Attempted(cfg, before, key), Passed(cfg, before, key), Entry(cfg, a), Pruned(cfg, logs, a),
          VerdictOn(cfg, logs, a).Allow?, Each(), cfg.window, cfg.maxCalls);
      }
    }
  }

  /** The calls allowed to a key from lo on, for as long as the window. */
  function CallsFrom(cfg: Config, run: seq<Attempt>, key: string, lo: int): nat {
    Allowed(Attempted(cfg, run, key), Passed(cfg, run, key), Each(), lo, lo + cfg.window)
  }

  /** Under a cap on calls alone, what is allowed is told by the timestamps. */
  lemma CallsAdmitted(cfg: Config, run: seq<Attempt>, key: string, times: seq<int>, lo: int)
    requires cfg.Active() && cfg.maxRepeats <= 0 && Stamps(Attempted(cfg, run, key), times)
    ensures CallsFrom(cfg, run, key, lo) == Admitted(times, cfg.window, cfg.maxCalls, lo)
  {
    CallsJudged(cfg, run, key);
    AdmittedIsAllowed(
      Attempted(cfg, run, key), Passed(cfg, run, key), times, Each(), cfg.window, cfg.maxCalls, lo);
  }

  /** Every run with these timestamps keeps the cap on calls in every closed window. */
  ghost predicate CallsKept(cfg: Config, agentID: string, sessionID: string, times: seq<int>) {
    forall run, lo {:trigger CallsFrom(cfg, run, agentID + "|" + sessionID, lo)} ::
      Stamps(Attempted(cfg, run, agentID + "|" + sessionID), times) ==>
        CallsFrom(cfg, run, agentID + "|" + sessionID, lo) <= cfg.maxCalls
  }

  /**
   A cap m on calls alone holds of every run with the given timestamps if and only if no interval as long as the window
   has more than m times that find fewer than m earlier ones alive in their own window.
   */
  lemma CallsBoundedIff(cfg: Config, agentID: string, sessionID: string, times: seq<int>)
    requires cfg.Active() && cfg.maxRepeats <= 0
    ensures CallsKept(cfg, agentID, sessionID, times)
      <==> forall lo :: Admitted(times, cfg.window, cfg.maxCalls, lo) <= cfg.maxCalls
  {
    if CallsKept(cfg, agentID, sessionID, times) {
      var run := MarkedRun(agentID, sessionID, times, 0, cfg.window, 0, 0, 0);
      MarkedStamps(cfg, agentID, sessionID, times, 0, cfg.window, 0, 0, 0);
      forall lo ensures Admitted(times, cfg.window, cfg.maxCalls, lo) <= cfg.maxCalls {
        CallsAdmitted(cfg, run, agentID + "|" + sessionID, times, lo);
      }
    } else {
      var run, lo :| Stamps(Attempted(cfg, run, agentID + "|" + sessionID), times)
        && CallsFrom(cfg, run, agentID + "|" + sessionID, lo) > cfg.maxCalls;
      CallsAdmitted(cfg, run, agentID + "|" + sessionID, times, lo);
    }
  }
}
