/** The aggregation governor: a cap on the risk weight of a session in a sliding window. */
module Aggregation {
  import opened Window
  import opened WindowCaps

  datatype Config = Config(enabled: bool, window: int, maxRiskyActions: int) {
    predicate Active() {
      enabled && window > 0 && maxRiskyActions > 0
    }
  }

  datatype Action = Action(sessionID: string, weight: int, now: int)

  /** What an event carries beside its time. */
  datatype Risky = Risky(weight: int)

  type RiskLog = seq<Stamped<Risky>>

  type Sessions = map<string, RiskLog>

  function Lookup(sessions: Sessions, id: string): RiskLog {
    if id in sessions then sessions[id] else []
  }

  function Risk(): Risky -> nat {
    (r: Risky) => if r.weight > 0 then r.weight else 0
  }

  /** Only risky actions are logged. */
  predicate AllRisky(log: RiskLog) {
    forall i :: 0 <= i < |log| ==> log[i].item.weight > 0
  }

  lemma {:induction false} SinceRisky(log: RiskLog, cutoff: int)
    requires AllRisky(log)
    ensures AllRisky(Since(log, cutoff))
  {
    if log != [] {
      SinceRisky(log[..|log| - 1], cutoff);
    }
  }

  predicate Judged(cfg: Config, act: Action) {
    cfg.Active() && act.weight > 0
  }

  function Entry(act: Action): Stamped<Risky> {
    Stamped(act.now, Risky(act.weight))
  }

  function Pruned(cfg: Config, sessions: Sessions, act: Action): RiskLog {
    Since(Lookup(sessions, act.sessionID), act.now - cfg.window)
  }

  /** Harmless actions leave no trace; denied ones are logged like those allowed. */
  function Tracked(cfg: Config, sessions: Sessions, act: Action): Sessions {
    if Judged(cfg, act) then sessions[act.sessionID := Pruned(cfg, sessions, act) + [Entry(act)]] else sessions
  }

  datatype Verdict = Allow | BudgetExceeded

  /** The verdict on a risky action, given the risky actions of its window before it. */
  function Judge(cfg: Config, recent: RiskLog, weight: int): Verdict {
    if Total(recent, Risk()) + weight > cfg.maxRiskyActions then BudgetExceeded else Allow
  }

  function VerdictOn(cfg: Config, sessions: Sessions, act: Action): Verdict {
    if Judged(cfg, act) then Judge(cfg, Pruned(cfg, sessions, act), act.weight) else Allow
  }

  ghost predicate RiskySessions(sessions: Sessions) {
    forall id :: id in sessions ==> AllRisky(sessions[id])
  }

  lemma TrackedRisky(cfg: Config, sessions: Sessions, act: Action)
    requires RiskySessions(sessions)
    ensures RiskySessions(Tracked(cfg, sessions, act))
  {
    SinceRisky(Lookup(sessions, act.sessionID), act.now - cfg.window);
  }

  class AggregationGovernor {
    var runtime: Config
    var sessions: Sessions

    ghost predicate Valid()
      reads this
    {
      RiskySessions(sessions)
    }

    constructor ()
      ensures Valid() && sessions == map[] && runtime == Config(false, 0, 0)
    {
      runtime, sessions := Config(false, 0, 0), map[];
    }

    method ConfigureRuntime(cfg: Config)
      modifies this`runtime
      ensures old(Valid()) ==> Valid()
      ensures runtime == cfg
    {
      runtime := cfg;
    }

    /** Filters a log in place, summing what is kept. */
    method Prune(log: RiskLog, cutoff: int) returns (kept: RiskLog, total: int)
      requires AllRisky(log)
      ensures kept == Since(log, cutoff) && total == Total(kept, Risk())
    {
      var events, n := log, 0;
      total := 0;
      for i := 0 to |log|
        invariant n <= i && |events| == |log| && events[i..] == log[i..]
        invariant events[..n] == Since(log[..i], cutoff) && total == Total(events[..n], Risk())
      {
        KeptInPlace(events, log, n, i);
        if events[i].ts >= cutoff {
          ghost var before := events[..n];
          total := total + events[i].item.weight;
          events := events[n := events[i]];
          TotalSnoc(before, log[i], Risk());
          n := n + 1;
        }
      }
      assert log[..|log|] == log;
      kept := events[..n];
    }

    method CheckAndTrack(act: Action) returns (verdict: Verdict)
      requires Valid()
      modifies this`sessions
      ensures Valid()
      ensures verdict == VerdictOn(runtime, old(sessions), act)
      ensures sessions == Tracked(runtime, old(sessions), act)
    {
      var cfg := runtime;
      if !cfg.enabled || cfg.window <= 0 || cfg.maxRiskyActions <= 0 {
        return Allow;
      }
      if act.weight <= 0 {
        return Allow;
      }
      var events := if act.sessionID in sessions then sessions[act.sessionID] else [];
      var kept, total := Prune(events, act.now - cfg.window);
      TrackedRisky(cfg, sessions, act);
      sessions := sessions[act.sessionID := kept + [Entry(act)]];
      if total + act.weight > cfg.maxRiskyActions {
        return BudgetExceeded;
      }
      return Allow;
    }
  }

  // ---------------------------------------------------------------- whole runs

  /** The logs after a run of actions under one configuration, from a fresh governor. */
  function SessionsAfter(cfg: Config, run: seq<Action>): Sessions {
    if run == [] then map[] else Tracked(cfg, SessionsAfter(cfg, run[..|run| - 1]), run[|run| - 1])
  }

  /** Switched off, without a window or without a cap, the governor stays out; and so it does for harmless actions. */
  lemma {:induction false} SwitchedOff(cfg: Config, run: seq<Action>, act: Action)
    requires !cfg.enabled || cfg.window <= 0 || cfg.maxRiskyActions <= 0 || act.weight <= 0
    ensures VerdictOn(cfg, SessionsAfter(cfg, run), act) == Allow
    ensures SessionsAfter(cfg, run + [act]) == SessionsAfter(cfg, run)
    ensures !cfg.enabled || cfg.window <= 0 || cfg.maxRiskyActions <= 0 ==> SessionsAfter(cfg, run) == map[]
  {
    assert (run + [act])[..|run|] == run;
    if run != [] && (!cfg.enabled || cfg.window <= 0 || cfg.maxRiskyActions <= 0) {
      SwitchedOff(cfg, run[..|run| - 1], act);
    }
  }

  /** Every risky action that a session attempted, with nothing forgotten. */
  function Attempted(run: seq<Action>, id: string): RiskLog {
    if run == [] then []
    else
      var k := |run| - 1;
      var before := Attempted(run[..k], id);
      if run[k].sessionID == id && run[k].weight > 0 then before + [Entry(run[k])] else before
  }

  /** For each of them, whether it was allowed. */
  function Passed(cfg: Config, run: seq<Action>, id: string): (ok: seq<bool>)
    ensures |ok| == |Attempted(run, id)|
  {
    if run == [] then []
    else
      var k := |run| - 1;
      var before := Passed(cfg, run[..k], id);
      if run[k].sessionID == id && run[k].weight > 0
      then before + [VerdictOn(cfg, SessionsAfter(cfg, run[..k]), run[k]).Allow?]
      else before
  }

  lemma RiskyStep(cfg: Config, run: seq<Action>, act: Action)
    requires Judged(cfg, act)
    ensures Attempted(run + [act], act.sessionID) == Attempted(run, act.sessionID) + [Entry(act)]
    ensures Passed(cfg, run + [act], act.sessionID)
      == Passed(cfg, run, act.sessionID) + [VerdictOn(cfg, SessionsAfter(cfg, run), act).Allow?]
    ensures Lookup(SessionsAfter(cfg, run + [act]), act.sessionID)
      == Pruned(cfg, SessionsAfter(cfg, run), act) + [Entry(act)]
  {
    assert (run + [act])[..|run|] == run;
  }

  lemma OtherStep(cfg: Config, run: seq<Action>, act: Action, id: string)
    requires act.sessionID != id || act.weight <= 0
    ensures Attempted(run + [act], id) == Attempted(run, id)
    ensures Passed(cfg, run + [act], id) == Passed(cfg, run, id)
    ensures Lookup(SessionsAfter(cfg, run + [act]), id) == Lookup(SessionsAfter(cfg, run), id)
  {
    assert (run + [act])[..|run|] == run;
  }

  lemma RiskyLogged(cfg: Config, run: seq<Action>, act: Action, kept: RiskLog)
    requires Judged(cfg, act)
    requires Lookup(SessionsAfter(cfg, run), act.sessionID) == kept == Kept(Attempted(run, act.sessionID), cfg.window)
    ensures Lookup(SessionsAfter(cfg, run + [act]), act.sessionID)
      == Kept(Attempted(run + [act], act.sessionID), cfg.window)
  {
    KeptSnoc(Attempted(run, act.sessionID), Entry(act), cfg.window);
    RiskyStep(cfg, run, act);
  }

  /** The governor's log of a session is the full history of its risky actions, pruned as it grew. */
  lemma {:induction false} LogIsKept(cfg: Config, run: seq<Action>, id: string)
    requires cfg.Active()
    ensures Lookup(SessionsAfter(cfg, run), id) == Kept(Attempted(run, id), cfg.window)
  {
    if run != [] {
      var before, act := run[..|run| - 1], run[|run| - 1];
      assert run == before + [act];
      LogIsKept(cfg, before, id);
      if act.sessionID == id && act.weight > 0 {
        RiskyLogged(cfg, before, act, Lookup(SessionsAfter(cfg, before), id));
      } else {
        OtherStep(cfg, before, act, id);
      }
    }
  }

  // ---------------------------------------------------------------- what the governor sees

  /** On the window ending now, the governor's own log has what the full history has. */
  predicate SeesWindow(cfg: Config, run: seq<Action>, id: string, now: int) {
    Since(Lookup(SessionsAfter(cfg, run), id), now - cfg.window) == Since(Attempted(run, id), now - cfg.window)
  }

  /** It does, if and only if no action of that window was followed by one stamped more than a window after it. */
  lemma SeesWindowIff(cfg: Config, run: seq<Action>, id: string, now: int)
    requires cfg.Active()
    ensures SeesWindow(cfg, run, id, now) <==> UnbrokenAt(Attempted(run, id), cfg.window, now)
  {
    LogIsKept(cfg, run, id);
    WindowKeptIff(Attempted(run, id), cfg.window, now - cfg.window);
  }

  lemma JudgedFrom(cfg: Config, sessions: Sessions, act: Action, recent: RiskLog)
    requires Judged(cfg, act) && Pruned(cfg, sessions, act) == recent
    ensures VerdictOn(cfg, sessions, act) == Judge(cfg, recent, act.weight)
  {
  }

  lemma VerdictIfSeen(cfg: Config, run: seq<Action>, act: Action)
    requires Judged(cfg, act) && SeesWindow(cfg, run, act.sessionID, act.now)
    ensures VerdictOn(cfg, SessionsAfter(cfg, run), act)
      == Judge(cfg, Since(Attempted(run, act.sessionID), act.now - cfg.window), act.weight)
  {
    JudgedFrom(cfg, SessionsAfter(cfg, run), act, Since(Attempted(run, act.sessionID), act.now - cfg.window));
  }

  /**
   The verdict on a risky action is the one computed from the session's full history, denied actions included,
   restricted to the window that ends with the action, whenever that window is unbroken.
   */
  lemma VerdictSeesWholeWindow(cfg: Config, run: seq<Action>, act: Action)
    requires Judged(cfg, act) && UnbrokenAt(Attempted(run, act.sessionID), cfg.window, act.now)
    ensures VerdictOn(cfg, SessionsAfter(cfg, run), act)
      == Judge(cfg, Since(Attempted(run, act.sessionID), act.now - cfg.window), act.weight)
  {
    SeesWindowIff(cfg, run, act.sessionID, act.now);
    VerdictIfSeen(cfg, run, act);
  }

  lemma LatestSeesClosedWindow(cfg: Config, run: seq<Action>, act: Action)
    requires Judged(cfg, act) && AllBy(Attempted(run, act.sessionID), act.now)
    ensures VerdictOn(cfg, SessionsAfter(cfg, run), act)
      == Judge(cfg, Between(Attempted(run, act.sessionID), act.now - cfg.window, act.now), act.weight)
  {
    var h := Attempted(run, act.sessionID);
    AllByIsUnbroken(h, cfg.window, act.now);
    VerdictSeesWholeWindow(cfg, run, act);
    SinceIsBetween(h, act.now - cfg.window, act.now);
  }

  /** At every risky action of the session, the governor saw the whole window. */
  predicate SeesEveryWindow(cfg: Config, run: seq<Action>, id: string) {
    run == [] ||
    (var k := |run| - 1;
     SeesEveryWindow(cfg, run[..k], id)
     && (run[k].sessionID == id && run[k].weight > 0 ==> SeesWindow(cfg, run[..k], id, run[k].now)))
  }

  /** Over a whole run the governor never misses an action of a window, if and only if the timestamps are steady. */
  lemma {:induction false} SeesEveryWindowIff(cfg: Config, run: seq<Action>, id: string)
    requires cfg.Active()
    ensures SeesEveryWindow(cfg, run, id) <==> Steady(Attempted(run, id), cfg.window)
  {
    if run != [] {
      var before, act := run[..|run| - 1], run[|run| - 1];
      assert run == before + [act];
      SeesEveryWindowIff(cfg, before, id);
      if act.sessionID == id && act.weight > 0 {
        RiskyStep(cfg, before, act);
        SeesWindowIff(cfg, before, id, act.now);
        SteadyNext(Attempted(before, id), Entry(act), act.now, cfg.window);
      } else {
        OtherStep(cfg, before, act, id);
      }
    }
  }

  // ---------------------------------------------------------------- the cap

  lemma AllowedFits(cfg: Config, run: seq<Action>, act: Action, id: string)
    requires Judged(cfg, act) && act.sessionID == id
    requires UnbrokenAt(Attempted(run, id), cfg.window, act.now)
    requires VerdictOn(cfg, SessionsAfter(cfg, run), act).Allow?
    ensures var h := Attempted(run, id); FitsAt(h + [Entry(act)], |h|, Risk(), cfg.window, cfg.maxRiskyActions)
  {
    VerdictSeesWholeWindow(cfg, run, act);
    FitsAtEnd(Attempted(run, id), Entry(act), Risk(), cfg.window, cfg.maxRiskyActions);
  }

  lemma {:induction false} RunCapped(cfg: Config, run: seq<Action>, id: string)
    requires cfg.Active() && Steady(Attempted(run, id), cfg.window)
    ensures Capped(Attempted(run, id), Passed(cfg, run, id), Risk(), cfg.window, cfg.maxRiskyActions)
  {
    if run != [] {
      var before, act := run[..|run| - 1], run[|run| - 1];
      assert run == before + [act];
      if act.sessionID == id && act.weight > 0 {
        var h, pass := Attempted(before, id), VerdictOn(cfg, SessionsAfter(cfg, before), act).Allow?;
        RiskyStep(cfg, before, act);
        SteadyNext(h, Entry(act), act.now, cfg.window);
        RunCapped(cfg, before, id);
        if pass {
          AllowedFits(cfg, before, act, id);
        }
        CappedSnoc(h, Passed(cfg, before, id), Entry(act), pass, Risk(), cfg.window, cfg.maxRiskyActions);
      } else {
        OtherStep(cfg, before, act, id);
        RunCapped(cfg, before, id);
      }
    }
  }

  /** In every closed interval as long as the window, the risk weight allowed to a session is at most the cap. */
  lemma RiskBounded(cfg: Config, run: seq<Action>, id: string, lo: int)
    requires cfg.Active() && Steady(Attempted(run, id), cfg.window)
    ensures Allowed(Attempted(run, id), Passed(cfg, run, id), Risk(), lo, lo + cfg.window) <= cfg.maxRiskyActions
  {
    RunCapped(cfg, run, id);
    EveryWindowCapped(Attempted(run, id), Passed(cfg, run, id), Risk(), cfg.window, cfg.maxRiskyActions, lo);
  }

  // ---------------------------------------------------------------- a clock that runs back

  function AllowedFrom(cfg: Config, run: seq<Action>, id: string, lo: int): nat {
    Allowed(Attempted(run, id), Passed(cfg, run, id), Risk(), lo, lo + cfg.window)
  }

  lemma AllowedStep(cfg: Config, run: seq<Action>, act: Action, lo: int)
    requires Judged(cfg, act)
    ensures AllowedFrom(cfg, run + [act], act.sessionID, lo) == AllowedFrom(cfg, run, act.sessionID, lo)
      + (if VerdictOn(cfg, SessionsAfter(cfg, run), act).Allow? && lo <= act.now <= lo + cfg.window
         then act.weight else 0)
  {
    RiskyStep(cfg, run, act);
    AllowedSnoc(Attempted(run, act.sessionID), Passed(cfg, run, act.sessionID), Entry(act),
      VerdictOn(cfg, SessionsAfter(cfg, run), act).Allow?, Risk(), lo, lo + cfg.window);
  }

  /** An action that uses up the cap, another more than a window later, and a third back at the first one's time. */
  predicate RunsBack(cfg: Config, a: Action, b: Action, c: Action) {
    && cfg.Active() && a.weight == cfg.maxRiskyActions && b.weight > 0 && c.weight > 0
    && a.sessionID == b.sessionID == c.sessionID && c.now == a.now && b.now > a.now + cfg.window
    && b.weight + c.weight <= cfg.maxRiskyActions
  }

  lemma FirstTwo(cfg: Config, a: Action, b: Action, c: Action)
    requires RunsBack(cfg, a, b, c)
    ensures AllowedFrom(cfg, [a] + [b], a.sessionID, a.now) == a.weight
    ensures Kept(Attempted([a] + [b], a.sessionID), cfg.window) == [Entry(b)]
  {
    assert [] + [a] == [a] && [] + [Entry(a)] == [Entry(a)];
    RiskyStep(cfg, [], a);
    AllowedStep(cfg, [], a, a.now);
    RiskyStep(cfg, [a], b);
    AllowedStep(cfg, [a], b, a.now);
    KeptSnoc([], Entry(a), cfg.window);
    KeptSnoc([Entry(a)], Entry(b), cfg.window);
    SinceSnoc([], Entry(a), b.now - cfg.window);
    assert [] + [Entry(b)] == [Entry(b)];
  }

  lemma LateRoom(cfg: Config, a: Action, b: Action, c: Action)
    requires RunsBack(cfg, a, b, c)
    ensures VerdictOn(cfg, SessionsAfter(cfg, [a] + [b]), c).Allow?
  {
    FirstTwo(cfg, a, b, c);
    LogIsKept(cfg, [a] + [b], a.sessionID);
    SinceFirst(Entry(b), c.now - cfg.window);
    TotalCons(Entry(b), [], Risk());
    assert [Entry(b)] + [] == [Entry(b)];
  }

  /** Where the timestamps are not steady the bound can fail: the third action is allowed on top of a cap used up. */
  lemma ClockRunningBackExceedsCap(cfg: Config, a: Action, b: Action, c: Action)
    requires RunsBack(cfg, a, b, c)
    ensures AllowedFrom(cfg, [a] + [b] + [c], a.sessionID, a.now) == cfg.maxRiskyActions + c.weight
  {
    FirstTwo(cfg, a, b, c);
    LateRoom(cfg, a, b, c);
    AllowedStep(cfg, [a] + [b], c, a.now);
  }

  // ---------------------------------------------------------------- exactly when the cap holds

  lemma PrunedFrom(cfg: Config, sessions: Sessions, act: Action, log: RiskLog)
    requires Lookup(sessions, act.sessionID) == Kept(log, cfg.window)
    ensures Pruned(cfg, sessions, act) == Recent(log, Entry(act), cfg.window)
  {
  }

  lemma PrunedIsRecent(cfg: Config, run: seq<Action>, act: Action)
    requires cfg.Active()
    ensures Pruned(cfg, SessionsAfter(cfg, run), act)
      == Recent(Attempted(run, act.sessionID), Entry(act), cfg.window)
  {
    LogIsKept(cfg, run, act.sessionID);
    PrunedFrom(cfg, SessionsAfter(cfg, run), act, Attempted(run, act.sessionID));
  }

  /**
   The verdict on a risky action, whatever the timestamps: it weighs the actions of the window that ends with it, but
   for those that a later one, stamped more than a window after them, has pruned.
   */
  lemma VerdictExactly(cfg: Config, run: seq<Action>, act: Action)
    requires Judged(cfg, act)
    ensures VerdictOn(cfg, SessionsAfter(cfg, run), act).Allow?
      <==> Found(Attempted(run, act.sessionID), Entry(act), cfg.window, Risk()) + act.weight <= cfg.maxRiskyActions
  {
    PrunedIsRecent(cfg, run, act);
    RecentIsFound(Attempted(run, act.sessionID), Entry(act), cfg.window, Risk());
  }

  lemma ActionJudged(cfg: Config, sessions: Sessions, act: Action)
    requires Judged(cfg, act)
    ensures JudgedNext(
      Pruned(cfg, sessions, act), Entry(act), VerdictOn(cfg, sessions, act).Allow?, Risk(), cfg.maxRiskyActions)
  {
  }

  lemma {:induction false} ActionsJudged(cfg: Config, run: seq<Action>, id: string)
    requires cfg.Active()
    ensures JudgedBy(Attempted(run, id), Passed(cfg, run, id), Risk(), cfg.window, cfg.maxRiskyActions)
  {
    if run != [] {
      var before, act := run[..|run| - 1], run[|run| - 1];
      var sessions := SessionsAfter(cfg, before);
      assert run == before + [act];
      ActionsJudged(cfg, before, id);
      if act.sessionID == id && act.weight > 0 {
        RiskyStep(cfg, before, act);
        PrunedIsRecent(cfg, before, act);
        ActionJudged(cfg, sessions, act);
        JudgedSnoc(Attempted(before, id), Passed(cfg, before, id), Entry(act), Pruned(cfg, sessions, act),
          VerdictOn(cfg, sessions, act).Allow?, Risk(), cfg.window, cfg.maxRiskyActions);
      } else {
        OtherStep(cfg, before, act, id);
      }
    }
  }

  lemma {:induction false} OneSession(run: seq<Action>, id: string)
    requires forall q :: 0 <= q < |run| ==> run[q].sessionID == id && run[q].weight > 0
    ensures |Attempted(run, id)| == |run|
    ensures forall q :: 0 <= q < |run| ==> Attempted(run, id)[q] == Entry(run[q])
  {
    if run != [] {
      OneSession(run[..|run| - 1], id);
    }
  }

  lemma {:induction false} AllowedGrows(cfg: Config, run: seq<Action>, front: seq<Action>, id: string, lo: int)
    requires cfg.Active() && front <= run
    ensures AllowedFrom(cfg, front, id, lo) <= AllowedFrom(cfg, run, id, lo)
  {
    if front != run {
      var before, act := run[..|run| - 1], run[|run| - 1];
      assert front <= before && run == before + [act];
      AllowedGrows(cfg, before, front, id, lo);
      if act.sessionID == id && act.weight > 0 {
        AllowedStep(cfg, before, act, lo);
      } else {
        OtherStep(cfg, before, act, id);
      }
    }
  }

  /** Actions at the given times, each of weight one but for two heavy ones. */
  function HeavyRun(id: string, times: seq<int>, i: nat, k: nat): (run: seq<Action>)
    ensures |run| == |times|
  {
    seq(|times|, q requires 0 <= q < |times| =>
      Action(id, if q == i then k else if q == k then k + 1 else 1, times[q]))
  }

  lemma HeavyStamps(id: string, times: seq<int>, i: nat, k: nat)
    requires k > 0
    ensures Stamps(Attempted(HeavyRun(id, times, i, k), id), times)
  {
    OneSession(HeavyRun(id, times, i, k), id);
  }

  lemma HeavyWeights(id: string, times: seq<int>, i: nat, k: nat)
    requires i < k < |times|
    ensures var h := Attempted(HeavyRun(id, times, i, k)[..k + 1], id);
      Stamps(h, times[..k + 1]) && HeavyLog(h[..k], Risk(), i, k) && Risk()(h[k].item) == k + 1
  {
    OneSession(HeavyRun(id, times, i, k)[..k + 1], id);
  }

  /** Under a cap of 2k the first heavy action passes, and once it is overtaken the second one passes on top of it. */
  lemma HeavyOnTop(cfg: Config, id: string, times: seq<int>, lo: int, i: nat, j: nat, k: nat)
    requires cfg.Active() && cfg.maxRiskyActions == 2 * k && i < j < k < |times|
    requires lo <= times[i] <= lo + cfg.window && times[j] > times[i] + cfg.window
    requires lo <= times[k] <= lo + cfg.window
    ensures AllowedFrom(cfg, HeavyRun(id, times, i, k)[..k + 1], id, lo) > cfg.maxRiskyActions
  {
    var run := HeavyRun(id, times, i, k)[..k + 1];
    HeavyWeights(id, times, i, k);
    ActionsJudged(cfg, run, id);
    HeavyPasses(
      Attempted(run, id), Passed(cfg, run, id), Risk(), cfg.window, lo, lo + cfg.window, i, j, k);
  }

  /** A cap, and a run with the given timestamps that exceeds it. */
  lemma ReturningRun(window: int, id: string, times: seq<int>, k: nat, lo: int)
    returns (cfg: Config, run: seq<Action>)
    requires window > 0 && ComesBack(times, window, k, lo)
    ensures cfg.Active() && cfg.window == window && Stamps(Attempted(run, id), times)
    ensures AllowedFrom(cfg, run, id, lo) > cfg.maxRiskyActions
  {
    var i, j := Overtaker(times, window, k, lo);
    cfg, run := Config(true, window, 2 * k), HeavyRun(id, times, i, k);
    HeavyStamps(id, times, i, k);
    HeavyOnTop(cfg, id, times, lo, i, j, k);
    AllowedGrows(cfg, run, run[..k + 1], id, lo);
  }

  /** Every cap holds of every run with these timestamps, whatever the weights, in every closed window. */
  ghost predicate RiskKept(window: int, id: string, times: seq<int>) {
    forall cfg: Config, run, lo {:trigger AllowedFrom(cfg, run, id, lo)} ::
      cfg.Active() && cfg.window == window && Stamps(Attempted(run, id), times) ==>
        AllowedFrom(cfg, run, id, lo) <= cfg.maxRiskyActions
  }

  /**
   Every cap holds of every run with the given timestamps if and only if the clock never leaves an interval as long as
   the window and comes back to it.
   */
  lemma RiskBoundedIff(window: int, id: string, times: seq<int>)
    requires window > 0
    ensures RiskKept(window, id, times) <==> forall k, lo :: !ComesBack(times, window, k, lo)
  {
    if k, lo :| ComesBack(times, window, k, lo) {
      var cfg, run := ReturningRun(window, id, times, k, lo);
      assert AllowedFrom(cfg, run, id, lo) > cfg.maxRiskyActions;
    } else {
      forall cfg: Config, run, lo | cfg.Active() && cfg.window == window && Stamps(Attempted(run, id), times)
        ensures AllowedFrom(cfg, run, id, lo) <= cfg.maxRiskyActions
      {
        ActionsJudged(cfg, run, id);
        BoundWithoutReturn(
          Attempted(run, id), Passed(cfg, run, id), times, Risk(), cfg.window, cfg.maxRiskyActions, lo);
      }
    }
  }
}
