/** The routing governor: which agents an orchestrator may invoke, and how often within a session. */
module Routing {
  import opened Basics

  datatype Entry = Entry(agentID: string, maxInvocations: int, requiresApproval: bool)

  datatype Manifest = Manifest(orchestratorID: string, entries: seq<Entry>, undeclaredPolicy: string)

  type Manifests = map<string, Manifest>

  /** Invocations by "orchestrator:session" and by target. */
  type Counts = map<string, map<string, nat>>

  datatype Answer = Permit | NeedsApproval | NoManifest | Undeclared | UndeclaredDeferred | CapExceeded

  function Key(orchestratorID: string, sessionID: string): string {
    orchestratorID + ":" + sessionID
  }

  function CountOf(counts: Counts, key: string, target: string): nat {
    if key in counts && target in counts[key] then counts[key][target] else 0
  }

  function Recorded(counts: Counts, key: string, target: string): Counts {
    counts[key := (if key in counts then counts[key] else map[])[target := CountOf(counts, key, target) + 1]]
  }

  /** The first entry for a target decides. */
  function Find(entries: seq<Entry>, target: string): (r: Option<Entry>)
    ensures r.Some? ==> r.value.agentID == target && r.value in entries
    ensures r.None? ==> forall e :: e in entries ==> e.agentID != target
  {
    if entries == [] then None
    else if entries[0].agentID == target then Some(entries[0])
    else Find(entries[1..], target)
  }

  function Check(
    manifests: Manifests, counts: Counts, orchestratorID: string, target: string, sessionID: string): Answer {
    if orchestratorID !in manifests then NoManifest
    else
      var manifest := manifests[orchestratorID];
      match Find(manifest.entries, target)
      case None =>
        if manifest.undeclaredPolicy == "" || manifest.undeclaredPolicy == "deny" then Undeclared
        else UndeclaredDeferred
      case Some(e) =>
        if e.maxInvocations > 0 && CountOf(counts, Key(orchestratorID, sessionID), target) >= e.maxInvocations
        then CapExceeded
        else if e.requiresApproval then NeedsApproval
        else Permit
  }

  function Registered(ms: seq<Manifest>): Manifests {
    if ms == [] then map[]
    else Registered(ms[..|ms| - 1])[ms[|ms| - 1].orchestratorID := ms[|ms| - 1]]
  }

  class RoutingGovernor {
    var manifests: Manifests
    var counts: Counts

    constructor ()
      ensures manifests == map[] && counts == map[]
    {
      manifests, counts := map[], map[];
    }

    method RegisterManifest(manifest: Manifest)
      modifies this`manifests
      ensures manifests == old(manifests)[manifest.orchestratorID := manifest]
    {
      manifests := manifests[manifest.orchestratorID := manifest];
    }

    /** A reload forgets the old manifests and keeps the counters. */
    method ReplaceManifests(ms: seq<Manifest>)
      modifies this`manifests
      ensures manifests == Registered(ms)
    {
      manifests := map[];
      for i := 0 to |ms|
        invariant manifests == Registered(ms[..i])
      {
        assert ms[..i + 1][..i] == ms[..i];
        manifests := manifests[ms[i].orchestratorID := ms[i]];
      }
      assert ms[..|ms|] == ms;
    }

    method FindEntry(entries: seq<Entry>, target: string) returns (entry: Option<Entry>)
      ensures entry == Find(entries, target)
    {
      entry := None;
      var i := 0;
      while i < |entries|
        invariant 0 <= i <= |entries|
        invariant entry.None? && Find(entries, target) == Find(entries[i..], target)
      {
        assert entries[i..][1..] == entries[i + 1..];
        if entries[i].agentID == target {
          entry := Some(entries[i]);
          break;
        }
        i := i + 1;
      }
    }

    method CheckInvocation(orchestratorID: string, target: string, sessionID: string) returns (answer: Answer)
      ensures answer == Check(manifests, counts, orchestratorID, target, sessionID)
    {
      if orchestratorID !in manifests {
        return NoManifest;
      }
      var manifest := manifests[orchestratorID];
      var entry := FindEntry(manifest.entries, target);
      if entry.None? {
        var policy := manifest.undeclaredPolicy;
        if policy == "" {
          policy := "deny";
        }
        return if policy == "deny" then Undeclared else UndeclaredDeferred;
      }
      var key := Key(orchestratorID, sessionID);
      if entry.value.maxInvocations > 0 {
        if key in counts && target in counts[key] && counts[key][target] >= entry.value.maxInvocations {
          return CapExceeded;
        }
      }
      return if entry.value.requiresApproval then NeedsApproval else Permit;
    }

    method RecordInvocation(orchestratorID: string, target: string, sessionID: string)
      modifies this`counts
      ensures counts == Recorded(old(counts), Key(orchestratorID, sessionID), target)
    {
      var key := Key(orchestratorID, sessionID);
      if key !in counts {
        counts := counts[key := map[]];
      }
      var before := if target in counts[key] then counts[key][target] else 0;
      counts := counts[key := counts[key][target := before + 1]];
    }

    /** The routing gate of Evaluate: whether the call goes on to the gates after it. */
    method Admit(call: Call) returns (gate: Gate)
      ensures gate == GateOf(manifests, counts, call)
    {
      if !IsInvoke(call.toolID) || call.agentID !in manifests {
        return Proceed;
      }
      if call.target == "" {
        return NoTarget;
      }
      var answer := CheckInvocation(call.agentID, call.target, call.sessionID);
      match answer {
        case Permit => return Proceed;
        case NeedsApproval => return Deferred;
        case UndeclaredDeferred => return Deferred;
        case _ => return Denied;
      }
    }

    /** What decide does about routing once the record of a decision is written. */
    method Settle(call: Call, permitted: bool)
      modifies this`counts
      ensures counts == CountsAfter(manifests, old(counts), call, permitted)
    {
      if permitted && IsInvoke(call.toolID) && call.agentID in manifests {
        if call.target != "" {
          RecordInvocation(call.agentID, call.target, call.sessionID);
        }
      }
    }
  }

  // ---------------------------------------------------------------- interleaved calls

  /** A call to Evaluate; the target is the one read from the arguments, empty if there is none. */
  datatype Call = Call(agentID: string, sessionID: string, toolID: string, target: string)

  datatype Gate = Proceed | NoTarget | Denied | Deferred

  predicate IsInvoke(toolID: string) {
    toolID == "multiagent/invoke_agent" || toolID == "invoke_agent"
    || (|toolID| >= |"/invoke_agent"| && toolID[|toolID| - |"/invoke_agent"|..] == "/invoke_agent")
  }

  function GateOf(manifests: Manifests, counts: Counts, call: Call): Gate {
    if !IsInvoke(call.toolID) || call.agentID !in manifests then Proceed
    else if call.target == "" then NoTarget
    else match Check(manifests, counts, call.agentID, call.target, call.sessionID)
      case Permit => Proceed
      case NeedsApproval => Deferred
      case UndeclaredDeferred => Deferred
      case _ => Denied
  }

  predicate Counted(manifests: Manifests, call: Call, permitted: bool) {
    permitted && IsInvoke(call.toolID) && call.agentID in manifests && call.target != ""
  }

  function CountsAfter(manifests: Manifests, counts: Counts, call: Call, permitted: bool): Counts {
    if Counted(manifests, call, permitted) then Recorded(counts, Key(call.agentID, call.sessionID), call.target)
    else counts
  }

  /** A call is in flight from its check to its recording; every other gate may turn it away in between. */
  datatype Event = Begin(call: Call) | Finish(i: nat, permitted: bool)

  /** The counters, the calls in flight, and the invocations permitted so far. */
  datatype State = State(counts: Counts, inFlight: seq<Call>, invoked: seq<Call>)

  function Without(calls: seq<Call>, i: nat): seq<Call>
    requires i < |calls|
  {
    calls[..i] + calls[i + 1..]
  }

  function Step(manifests: Manifests, s: State, e: Event): State {
    match e
    case Begin(call) =>
      if GateOf(manifests, s.counts, call).Proceed? then s.(inFlight := s.inFlight + [call]) else s
    case Finish(i, permitted) =>
      if i >= |s.inFlight| then s
      else
        var call := s.inFlight[i];
        State(CountsAfter(manifests, s.counts, call, permitted), Without(s.inFlight, i),
          if Counted(manifests, call, permitted) then s.invoked + [call] else s.invoked)
  }

  function After(manifests: Manifests, events: seq<Event>): State {
    if events == [] then State(map[], [], [])
    else Step(manifests, After(manifests, events[..|events| - 1]), events[|events| - 1])
  }

  /** No call begins while k others are in flight. */
  ghost predicate AtMost(manifests: Manifests, k: nat, events: seq<Event>) {
    forall n :: 0 <= n < |events| && events[n].Begin? ==> |After(manifests, events[..n]).inFlight| < k
  }

  /** Who invokes whom, in which session. */
  datatype Invocation = Invocation(orchestratorID: string, sessionID: string, target: string)

  function KeyOf(v: Invocation): string {
    Key(v.orchestratorID, v.sessionID)
  }

  function Of(v: Invocation): Call -> bool {
    (c: Call) =>
      IsInvoke(c.toolID) && c.agentID == v.orchestratorID && c.sessionID == v.sessionID && c.target == v.target
  }

  function Under(key: string, target: string): Call -> bool {
    (c: Call) => Key(c.agentID, c.sessionID) == key && c.target == target
  }

  function Number(calls: seq<Call>, p: Call -> bool): nat {
    if calls == [] then 0 else Number(calls[..|calls| - 1], p) + (if p(calls[|calls| - 1]) then 1 else 0)
  }

  lemma NumberSnoc(calls: seq<Call>, call: Call, p: Call -> bool)
    ensures Number(calls + [call], p) == Number(calls, p) + (if p(call) then 1 else 0)
  {
    assert (calls + [call])[..|calls|] == calls;
  }

  lemma {:induction false} NumberBound(calls: seq<Call>, p: Call -> bool)
    ensures Number(calls, p) <= |calls|
  {
    if calls != [] {
      NumberBound(calls[..|calls| - 1], p);
    }
  }

  lemma {:induction false} NumberWithout(calls: seq<Call>, i: nat, p: Call -> bool)
    requires i < |calls|
    ensures Number(calls, p) == Number(Without(calls, i), p) + (if p(calls[i]) then 1 else 0)
  {
    var k := |calls| - 1;
    if i == k {
      assert Without(calls, i) == calls[..k];
    } else {
      NumberWithout(calls[..k], i, p);
      assert Without(calls, i) == Without(calls[..k], i) + [calls[k]];
      NumberSnoc(Without(calls[..k], i), calls[k], p);
    }
  }

  lemma {:induction false} NumberWeaker(calls: seq<Call>, p: Call -> bool, q: Call -> bool)
    requires forall c :: c in calls && p(c) ==> q(c)
    ensures Number(calls, p) <= Number(calls, q)
  {
    if calls != [] {
      NumberWeaker(calls[..|calls| - 1], p, q);
    }
  }

  lemma AtMostFront(manifests: Manifests, k: nat, events: seq<Event>)
    requires events != [] && AtMost(manifests, k, events)
    ensures AtMost(manifests, k, events[..|events| - 1])
  {
    var n := |events| - 1;
    assert forall j :: 0 <= j < n ==> events[..n][..j] == events[..j];
  }

  // ---------------------------------------------------------------- the answers of the gate

  /** What is governed: the invoke tool by its bare name, or by any name that ends in it behind a slash. */
  lemma IsInvokeIff(toolID: string)
    ensures IsInvoke(toolID) <==> toolID == "invoke_agent" || exists prefix :: toolID == prefix + "/invoke_agent"
  {
    var n := |toolID| - |"/invoke_agent"|;
    if IsInvoke(toolID) && toolID != "invoke_agent" {
      assert "multiagent/invoke_agent" == "multiagent" + "/invoke_agent";
      if toolID != "multiagent/invoke_agent" {
        assert toolID == toolID[..n] + "/invoke_agent";
      }
    }
    if prefix :| toolID == prefix + "/invoke_agent" {
      assert toolID[n..] == "/invoke_agent";
    }
  }

  /** The position of the entry that decides about a target. */
  predicate FirstEntry(entries: seq<Entry>, i: nat, target: string) {
    i < |entries| && entries[i].agentID == target && forall j :: 0 <= j < i ==> entries[j].agentID != target
  }

  lemma {:induction false} FindsFirst(entries: seq<Entry>, i: nat, target: string)
    requires FirstEntry(entries, i, target)
    ensures Find(entries, target) == Some(entries[i])
  {
    if i > 0 {
      assert entries[0].agentID != target;
      forall j | 0 <= j < i - 1 ensures entries[1..][j].agentID != target {
        assert entries[1..][j] == entries[j + 1];
      }
      FindsFirst(entries[1..], i - 1, target);
    }
  }

  /** A call that the gate looks at: by a governed orchestrator, with a target. */
  predicate Governs(manifests: Manifests, call: Call) {
    IsInvoke(call.toolID) && call.agentID in manifests && call.target != ""
  }

  /**
   In every interleaving a call to an undeclared target is turned away: denied where the policy is "deny" or not set,
   deferred under any other.
   */
  lemma UndeclaredTurnedAway(manifests: Manifests, events: seq<Event>, call: Call)
    requires Governs(manifests, call)
    requires forall e :: e in manifests[call.agentID].entries ==> e.agentID != call.target
    ensures var s, policy := After(manifests, events), manifests[call.agentID].undeclaredPolicy;
      && GateOf(manifests, s.counts, call) == (if policy in {"", "deny"} then Denied else Deferred)
      && After(manifests, events + [Begin(call)]) == s
  {
    assert (events + [Begin(call)])[..|events|] == events;
  }

  /**
   In every interleaving the first entry for the target decides about a declared call, against the number of permitted
   invocations under its key: past its cap the call is denied, else it waits if it needs approval, else it goes on.
   */
  lemma DeclaredDecided(manifests: Manifests, events: seq<Event>, call: Call, i: nat)
    requires Governs(manifests, call) && FirstEntry(manifests[call.agentID].entries, i, call.target)
    ensures var s, e := After(manifests, events), manifests[call.agentID].entries[i];
      var n := Number(s.invoked, Under(call.agentID + ":" + call.sessionID, call.target));
      GateOf(manifests, s.counts, call) ==
        if 0 < e.maxInvocations <= n then Denied else if e.requiresApproval then Deferred else Proceed
  {
    FindsFirst(manifests[call.agentID].entries, i, call.target);
    CounterCountsKey(manifests, events, call.agentID + ":" + call.sessionID, call.target);
  }

  /** Counters move for permitted governed calls with a target, and for these only, by one. */
  lemma SettledIff(manifests: Manifests, counts: Counts, call: Call, permitted: bool)
    ensures CountOf(CountsAfter(manifests, counts, call, permitted), call.agentID + ":" + call.sessionID, call.target)
      == CountOf(counts, call.agentID + ":" + call.sessionID, call.target)
        + (if permitted && Governs(manifests, call) then 1 else 0)
    ensures !(permitted && Governs(manifests, call)) ==> CountsAfter(manifests, counts, call, permitted) == counts
  {
    CountAfterRecord(counts, Key(call.agentID, call.sessionID), call.target,
      call.agentID + ":" + call.sessionID, call.target);
  }

  predicate LastFor(ms: seq<Manifest>, i: int, id: string) {
    0 <= i < |ms| && ms[i].orchestratorID == id && forall j :: i < j < |ms| ==> ms[j].orchestratorID != id
  }

  /** Of the manifests of one orchestrator the last one given holds, and no others do. */
  lemma {:induction false} LastManifestHolds(ms: seq<Manifest>, id: string)
    ensures id in Registered(ms) <==> exists i :: 0 <= i < |ms| && ms[i].orchestratorID == id
    ensures forall i :: LastFor(ms, i, id) ==> Registered(ms)[id] == ms[i]
  {
    if ms != [] {
      var k := |ms| - 1;
      LastManifestHolds(ms[..k], id);
      if i :| 0 <= i < k && ms[i].orchestratorID == id {
        assert ms[..k][i].orchestratorID == id;
      }
      forall i | LastFor(ms, i, id) ensures Registered(ms)[id] == ms[i] {
        if i < k {
          assert ms[k].orchestratorID != id && LastFor(ms[..k], i, id);
        }
      }
    }
  }

  // ---------------------------------------------------------------- what the counters count

  lemma CountAfterRecord(counts: Counts, key: string, target: string, k: string, t: string)
    ensures CountOf(Recorded(counts, key, target), k, t)
      == CountOf(counts, k, t) + (if k == key && t == target then 1 else 0)
  {
  }

  /** A counter holds the number of permitted invocations of its target under its key. */
  lemma {:induction false} CounterCountsKey(manifests: Manifests, events: seq<Event>, key: string, target: string)
    ensures var s := After(manifests, events); CountOf(s.counts, key, target) == Number(s.invoked, Under(key, target))
  {
    if events != [] {
      var n := |events| - 1;
      CounterCountsKey(manifests, events[..n], key, target);
      CounterStep(manifests, After(manifests, events[..n]), events[n], key, target);
    }
  }

  lemma CounterStep(manifests: Manifests, s: State, e: Event, key: string, target: string)
    requires CountOf(s.counts, key, target) == Number(s.invoked, Under(key, target))
    ensures var s' := Step(manifests, s, e); CountOf(s'.counts, key, target) == Number(s'.invoked, Under(key, target))
  {
    if e.Finish? && e.i < |s.inFlight| {
      var call := s.inFlight[e.i];
      CountAfterRecord(s.counts, Key(call.agentID, call.sessionID), call.target, key, target);
      NumberSnoc(s.invoked, call, Under(key, target));
    }
  }

  /** So it never shows fewer than the invocations of any one orchestrator in one session. */
  lemma CounterCovers(manifests: Manifests, events: seq<Event>, v: Invocation)
    ensures var s := After(manifests, events);
      Number(s.invoked, Of(v)) <= CountOf(s.counts, KeyOf(v), v.target)
  {
    var key := KeyOf(v);
    CounterCountsKey(manifests, events, key, v.target);
    NumberWeaker(After(manifests, events).invoked, Of(v), Under(key, v.target));
  }

  // ---------------------------------------------------------------- the cap

  function Declared(manifests: Manifests, v: Invocation): Option<Entry> {
    if v.orchestratorID in manifests then Find(manifests[v.orchestratorID].entries, v.target) else None
  }

  lemma AdmittedBelowCap(manifests: Manifests, counts: Counts, call: Call, v: Invocation)
    requires Of(v)(call) && v.orchestratorID in manifests && GateOf(manifests, counts, call).Proceed?
    ensures Declared(manifests, v).Some? && !Declared(manifests, v).value.requiresApproval
    ensures var m := Declared(manifests, v).value.maxInvocations;
      m > 0 ==> CountOf(counts, KeyOf(v), v.target) < m
  {
  }

  /** What is permitted and what may still be permitted. */
  function Committed(s: State, v: Invocation): nat {
    Number(s.invoked, Of(v)) + Number(s.inFlight, Of(v))
  }

  lemma CommittedStep(manifests: Manifests, s: State, e: Event, v: Invocation)
    ensures var s' := Step(manifests, s, e);
      if e.Begin? && GateOf(manifests, s.counts, e.call).Proceed? && Of(v)(e.call)
      then Committed(s', v) == Committed(s, v) + 1 && s'.invoked == s.invoked && |s'.inFlight| == |s.inFlight| + 1
      else Committed(s', v) <= Committed(s, v)
  {
    match e {
      case Begin(call) =>
        NumberSnoc(s.inFlight, call, Of(v));
      case Finish(i, permitted) =>
        if i < |s.inFlight| {
          NumberWithout(s.inFlight, i, Of(v));
          NumberSnoc(s.invoked, s.inFlight[i], Of(v));
        }
    }
  }

  lemma {:induction false} CommittedBound(manifests: Manifests, k: nat, events: seq<Event>, v: Invocation)
    requires Declared(manifests, v).Some? && Declared(manifests, v).value.maxInvocations > 0
    requires AtMost(manifests, k, events)
    ensures Committed(After(manifests, events), v) <= Declared(manifests, v).value.maxInvocations + k - 1
  {
    if events != [] {
      var n := |events| - 1;
      var s, e := After(manifests, events[..n]), events[n];
      AtMostFront(manifests, k, events);
      CommittedBound(manifests, k, events[..n], v);
      CommittedStep(manifests, s, e, v);
      if e.Begin? && GateOf(manifests, s.counts, e.call).Proceed? && Of(v)(e.call) {
        AdmittedBelowCap(manifests, s.counts, e.call, v);
        CounterCovers(manifests, events[..n], v);
        NumberBound(s.inFlight, Of(v));
      }
    }
  }

  /**
   With at most k calls between their check and their recording, an orchestrator invokes a target with cap m at most
   m + k - 1 times in a session, whatever the interleaving and however its keys collide with others'.
   */
  lemma CapUnderConcurrency(manifests: Manifests, k: nat, events: seq<Event>, v: Invocation)
    requires Declared(manifests, v).Some? && Declared(manifests, v).value.maxInvocations > 0
    requires AtMost(manifests, k, events)
    ensures Number(After(manifests, events).invoked, Of(v)) <= Declared(manifests, v).value.maxInvocations + k - 1
  {
    CommittedBound(manifests, k, events, v);
  }

  /** What is not declared, or needs approval first, is never permitted. */
  lemma {:induction false} OnlyDeclaredPermitted(manifests: Manifests, events: seq<Event>, v: Invocation)
    requires v.orchestratorID in manifests
    requires Declared(manifests, v).None? || Declared(manifests, v).value.requiresApproval
    ensures Committed(After(manifests, events), v) == 0
  {
    if events != [] {
      var n := |events| - 1;
      var s, e := After(manifests, events[..n]), events[n];
      OnlyDeclaredPermitted(manifests, events[..n], v);
      CommittedStep(manifests, s, e, v);
      if e.Begin? && GateOf(manifests, s.counts, e.call).Proceed? && Of(v)(e.call) {
        AdmittedBelowCap(manifests, s.counts, e.call, v);
      }
    }
  }

  // ---------------------------------------------------------------- keys

  /** Invocations of the same target that other orchestrators, or other sessions, put on the same counter. */
  function Others(v: Invocation): Call -> bool {
    (c: Call) => Under(KeyOf(v), v.target)(c) && !Of(v)(c)
  }

  lemma {:induction false} NumberSplits(calls: seq<Call>, v: Invocation)
    ensures Number(calls, Under(KeyOf(v), v.target))
      == Number(calls, Of(v)) + Number(calls, Others(v))
  {
    if calls != [] {
      NumberSplits(calls[..|calls| - 1], v);
    }
  }

  lemma CounterIsOwnAndOthers(manifests: Manifests, events: seq<Event>, v: Invocation)
    ensures var s := After(manifests, events);
      CountOf(s.counts, KeyOf(v), v.target) == Number(s.invoked, Of(v)) + Number(s.invoked, Others(v))
  {
    CounterCountsKey(manifests, events, KeyOf(v), v.target);
    NumberSplits(After(manifests, events).invoked, v);
  }

  /** The orchestrator declares the target and needs no approval for it. */
  predicate Callable(manifests: Manifests, orchestratorID: string, target: string) {
    target != "" && orchestratorID in manifests &&
    match Find(manifests[orchestratorID].entries, target)
    case None => false
    case Some(e) => !e.requiresApproval
  }

  ghost predicate Governed(manifests: Manifests, s: State) {
    && (forall c :: c in s.invoked ==> IsInvoke(c.toolID) && Callable(manifests, c.agentID, c.target))
    && (forall c :: c in s.inFlight && IsInvoke(c.toolID) && c.agentID in manifests ==>
          Callable(manifests, c.agentID, c.target))
  }

  lemma GovernedStep(manifests: Manifests, s: State, e: Event)
    requires Governed(manifests, s)
    ensures Governed(manifests, Step(manifests, s, e))
  {
    if e.Finish? && e.i < |s.inFlight| {
      assert s.inFlight[e.i] in s.inFlight;
      assert forall c :: c in Without(s.inFlight, e.i) ==> c in s.inFlight;
    }
  }

  lemma {:induction false} AlwaysGoverned(manifests: Manifests, events: seq<Event>)
    ensures Governed(manifests, After(manifests, events))
  {
    if events != [] {
      AlwaysGoverned(manifests, events[..|events| - 1]);
      GovernedStep(manifests, After(manifests, events[..|events| - 1]), events[|events| - 1]);
    }
  }

  /** Another orchestrator can invoke the target in some session under the invocation's own key. */
  predicate Shared(manifests: Manifests, v: Invocation) {
    exists o :: o in manifests && SharedBy(manifests, v, o)
  }

  predicate SharedBy(manifests: Manifests, v: Invocation, o: string) {
    o != v.orchestratorID && o + ":" <= KeyOf(v) && Callable(manifests, o, v.target)
  }

  lemma KeyOfOther(o: string, session: string, key: string)
    ensures Key(o, session) == key ==> o + ":" <= key
    ensures o + ":" <= key ==> Key(o, key[|o| + 1..]) == key
  {
  }

  lemma SameKeySameSession(o: string, s1: string, s2: string)
    requires Key(o, s1) == Key(o, s2)
    ensures s1 == s2
  {
    assert Key(o, s1)[|o| + 1..] == s1 && Key(o, s2)[|o| + 1..] == s2;
  }

  lemma {:induction false} NoOthers(manifests: Manifests, calls: seq<Call>, v: Invocation)
    requires !Shared(manifests, v)
    requires forall c :: c in calls ==> IsInvoke(c.toolID) && Callable(manifests, c.agentID, c.target)
    ensures Number(calls, Others(v)) == 0
  {
    if calls != [] {
      var c := calls[|calls| - 1];
      assert c in calls;
      NoOthers(manifests, calls[..|calls| - 1], v);
      if Others(v)(c) {
        assert Under(KeyOf(v), v.target)(c);
        KeyOfOther(c.agentID, c.sessionID, KeyOf(v));
        if c.agentID == v.orchestratorID {
          SameKeySameSession(c.agentID, c.sessionID, v.sessionID);
        } else {
          assert SharedBy(manifests, v, c.agentID);
        }
      }
    }
  }

  /** One permitted invocation by another orchestrator, under the key of a given one. */
  lemma OtherInvokes(manifests: Manifests, v: Invocation, o: string) returns (events: seq<Event>)
    requires o in manifests && SharedBy(manifests, v, o)
    ensures var s := After(manifests, events);
      CountOf(s.counts, KeyOf(v), v.target) == 1 && Number(s.invoked, Of(v)) == 0
  {
    var other := Call(o, KeyOf(v)[|o| + 1..], "invoke_agent", v.target);
    KeyOfOther(o, other.sessionID, KeyOf(v));
    var s1 := OneStep(manifests, [], Begin(other));
    assert [] + [Begin(other)] == [Begin(other)];
    var s2 := OneStep(manifests, [Begin(other)], Finish(0, true));
    assert s1.inFlight == [other] && s1.invoked == [] && s1.counts == map[];
    NumberSnoc([], other, Of(v));
    CountAfterRecord(map[], KeyOf(v), v.target, KeyOf(v), v.target);
    events := [Begin(other)] + [Finish(0, true)];
  }

  ghost predicate OwnCounter(manifests: Manifests, events: seq<Event>, v: Invocation) {
    var s := After(manifests, events);
    CountOf(s.counts, KeyOf(v), v.target) == Number(s.invoked, Of(v))
  }

  /**
   In every interleaving a counter shows its own invocations and no others, if and only if no other orchestrator that
   may invoke the target has a name that, followed by a colon, begins the key.
   */
  lemma OwnCounterIff(manifests: Manifests, v: Invocation)
    ensures (forall events :: OwnCounter(manifests, events, v)) <==> !Shared(manifests, v)
  {
    if Shared(manifests, v) {
      var o :| o in manifests && SharedBy(manifests, v, o);
      var events := OtherInvokes(manifests, v, o);
      assert !OwnCounter(manifests, events, v);
    } else {
      forall events ensures OwnCounter(manifests, events, v) {
        AlwaysGoverned(manifests, events);
        NoOthers(manifests, After(manifests, events).invoked, v);
        CounterIsOwnAndOthers(manifests, events, v);
      }
    }
  }

  /** One name with its colon begins the other. */
  predicate NamesOverlap(o1: string, o2: string) {
    o1 + ":" <= o2 + ":" || o2 + ":" <= o1 + ":"
  }

  predicate ShareKey(o1: string, s1: string, o2: string, s2: string) {
    Key(o1, s1) == Key(o2, s2)
  }

  /** Two orchestrators have a key in common, in some sessions, if and only if their names overlap. */
  lemma KeysShareIff(o1: string, o2: string)
    ensures (exists s1, s2 :: ShareKey(o1, s1, o2, s2)) <==> NamesOverlap(o1, o2)
  {
    if s1, s2 :| ShareKey(o1, s1, o2, s2) {
      PrefixesNest(o1 + ":", o2 + ":", Key(o1, s1));
    }
    if o1 + ":" <= o2 + ":" {
      OverlapShares(o1, o2);
      assert ShareKey(o1, (o2 + ":")[|o1| + 1..], o2, "");
    } else if o2 + ":" <= o1 + ":" {
      OverlapShares(o2, o1);
      assert ShareKey(o1, "", o2, (o1 + ":")[|o2| + 1..]);
    }
  }

  lemma PrefixesNest(a: string, b: string, whole: string)
    requires a <= whole && b <= whole
    ensures a <= b || b <= a
  {
    assert a == whole[..|a|] && b == whole[..|b|];
  }

  lemma OverlapShares(o1: string, o2: string)
    requires o1 + ":" <= o2 + ":"
    ensures Key(o1, (o2 + ":")[|o1| + 1..]) == Key(o2, "")
  {
    assert Key(o2, "") == o2 + ":";
    KeyOfOther(o1, "", o2 + ":");
  }

  /**
   So a target's counters are shared in some session exactly when another orchestrator of an overlapping name may
   invoke it.
   */
  lemma SharedSomewhereIff(manifests: Manifests, o: string, target: string)
    ensures (exists session :: Shared(manifests, Invocation(o, session, target)))
      <==> (exists other ::
              other in manifests && other != o && NamesOverlap(o, other) && Callable(manifests, other, target))
  {
    if session :| Shared(manifests, Invocation(o, session, target)) {
      var v := Invocation(o, session, target);
      var other :| other in manifests && SharedBy(manifests, v, other);
      PrefixesNest(o + ":", other + ":", KeyOf(v));
    }
    if other :| other in manifests && other != o && NamesOverlap(o, other) && Callable(manifests, other, target) {
      var session := if o + ":" <= other + ":" then (other + ":")[|o| + 1..] else "";
      if o + ":" <= other + ":" {
        OverlapShares(o, other);
        assert Key(other, "") == other + ":";
      } else {
        assert Key(o, "") == o + ":";
      }
      assert SharedBy(manifests, Invocation(o, session, target), other);
      assert Shared(manifests, Invocation(o, session, target));
    }
  }

  /** When nobody else can invoke the target under the key, the counter itself stays within the bound. */
  lemma CounterUnderConcurrency(manifests: Manifests, k: nat, events: seq<Event>, v: Invocation)
    requires Declared(manifests, v).Some? && Declared(manifests, v).value.maxInvocations > 0
    requires AtMost(manifests, k, events) && !Shared(manifests, v)
    ensures CountOf(After(manifests, events).counts, KeyOf(v), v.target)
      <= Declared(manifests, v).value.maxInvocations + k - 1
  {
    OwnCounterIff(manifests, v);
    assert OwnCounter(manifests, events, v);
    CapUnderConcurrency(manifests, k, events, v);
  }

  lemma OneStep(manifests: Manifests, events: seq<Event>, e: Event) returns (s: State)
    ensures s == After(manifests, events + [e]) == Step(manifests, After(manifests, events), e)
  {
    s := After(manifests, events + [e]);
    assert (events + [e])[..|events|] == events;
  }

  /**
   Under a shared key one permitted invocation by the other orchestrator uses up a cap of one that nobody has touched.
   */
  lemma SharedCounterDenies(manifests: Manifests, mine: Call, other: Call)
    requires Capped(manifests, mine, 1)
    requires IsInvoke(other.toolID) && other.agentID in manifests && GateOf(manifests, map[], other).Proceed?
    requires Others(Self(mine))(other)
    ensures var s := After(manifests, [Begin(other)] + [Finish(0, true)]);
      Number(s.invoked, Of(Self(mine))) == 0 && GateOf(manifests, s.counts, mine) == Denied
  {
    var s1 := OneStep(manifests, [], Begin(other));
    assert [] + [Begin(other)] == [Begin(other)];
    var s2 := OneStep(manifests, [Begin(other)], Finish(0, true));
    assert s1.inFlight == [other] && s1.invoked == [] && s1.counts == map[];
    NumberSnoc([], other, Of(Self(mine)));
    CountAfterRecord(map[], Key(other.agentID, other.sessionID), other.target, Key(mine.agentID, mine.sessionID),
      mine.target);
  }

  // ---------------------------------------------------------------- the bound is reached

  lemma AtMostSnoc(manifests: Manifests, k: nat, events: seq<Event>, e: Event)
    requires AtMost(manifests, k, events) && (e.Begin? ==> |After(manifests, events).inFlight| < k)
    ensures AtMost(manifests, k, events + [e])
      && After(manifests, events + [e]) == Step(manifests, After(manifests, events), e)
  {
    assert (events + [e])[..|events|] == events;
    assert forall n :: 0 <= n < |events| ==> (events + [e])[..n] == events[..n];
  }

  /** A call that the governor counts against a cap of m. */
  ghost predicate Capped(manifests: Manifests, call: Call, m: nat) {
    && IsInvoke(call.toolID) && call.target != ""
    && Declared(manifests, Self(call)) == Some(Entry(call.target, m, false)) && m > 0
  }

  function Self(call: Call): Invocation {
    Invocation(call.agentID, call.sessionID, call.target)
  }

  lemma BeginBelowCap(manifests: Manifests, k: nat, events: seq<Event>, call: Call, m: nat) returns (longer: seq<Event>)
    requires Capped(manifests, call, m) && AtMost(manifests, k, events)
    requires var s := After(manifests, events);
      |s.inFlight| < k && CountOf(s.counts, Key(call.agentID, call.sessionID), call.target) < m
    ensures AtMost(manifests, k, longer)
    ensures var s := After(manifests, events); After(manifests, longer) == s.(inFlight := s.inFlight + [call])
  {
    longer := events + [Begin(call)];
    AtMostSnoc(manifests, k, events, Begin(call));
  }

  lemma FinishFirst(manifests: Manifests, k: nat, events: seq<Event>, call: Call, m: nat) returns (longer: seq<Event>)
    requires Capped(manifests, call, m) && AtMost(manifests, k, events)
    requires var s := After(manifests, events); s.inFlight != [] && s.inFlight[0] == call
    ensures AtMost(manifests, k, longer)
    ensures var s, s' := After(manifests, events), After(manifests, longer);
      s'.inFlight == s.inFlight[1..] && s'.invoked == s.invoked + [call]
  {
    longer := events + [Finish(0, true)];
    AtMostSnoc(manifests, k, events, Finish(0, true));
    var s := After(manifests, events);
    assert Without(s.inFlight, 0) == s.inFlight[1..];
  }

  lemma {:induction false} NumberCopies(call: Call, n: nat)
    ensures Number(Copies(call, n), Of(Self(call))) == if IsInvoke(call.toolID) then n else 0
  {
    if n > 0 {
      NumberCopies(call, n - 1);
      assert Copies(call, n)[..n - 1] == Copies(call, n - 1);
    }
  }

  /** j invocations, one after another. */
  lemma {:induction false} SerialRun(manifests: Manifests, k: nat, call: Call, m: nat, j: nat)
    returns (events: seq<Event>)
    requires Capped(manifests, call, m) && j <= m && k > 0
    ensures AtMost(manifests, k, events)
    ensures var s := After(manifests, events); s.inFlight == [] && s.invoked == Copies(call, j)
  {
    if j == 0 {
      events := [];
    } else {
      var before := SerialRun(manifests, k, call, m, j - 1);
      CounterIsCopies(manifests, before, call, m, j - 1);
      var begun := BeginBelowCap(manifests, k, before, call, m);
      events := FinishFirst(manifests, k, begun, call, m);
      assert Copies(call, j - 1) + [call] == Copies(call, j);
    }
  }

  lemma CounterIsCopies(manifests: Manifests, events: seq<Event>, call: Call, m: nat, j: nat)
    requires Capped(manifests, call, m) && After(manifests, events).invoked == Copies(call, j)
    ensures CountOf(After(manifests, events).counts, Key(call.agentID, call.sessionID), call.target) == j
  {
    var v := Self(call);
    NumberCopies(call, j);
    CounterCountsKey(manifests, events, Key(call.agentID, call.sessionID), call.target);
    NumberSplits(Copies(call, j), v);
    NoneAmongCopies(call, j);
  }

  lemma {:induction false} NoneAmongCopies(call: Call, n: nat)
    requires IsInvoke(call.toolID)
    ensures Number(Copies(call, n), Others(Self(call))) == 0
  {
    if n > 0 {
      NoneAmongCopies(call, n - 1);
      assert Copies(call, n)[..n - 1] == Copies(call, n - 1);
      assert Of(Self(call))(call) && !Others(Self(call))(call);
    }
  }

  /** n checks in a row, all passed, since none of the calls is recorded yet. */
  lemma {:induction false} BeginsRun(manifests: Manifests, k: nat, call: Call, m: nat, n: nat)
    returns (events: seq<Event>)
    requires Capped(manifests, call, m) && n <= k && k > 0
    ensures AtMost(manifests, k, events)
    ensures var s := After(manifests, events); s.inFlight == Copies(call, n) && s.invoked == Copies(call, m - 1)
  {
    if n == 0 {
      events := SerialRun(manifests, k, call, m, m - 1);
    } else {
      var before := BeginsRun(manifests, k, call, m, n - 1);
      CounterIsCopies(manifests, before, call, m, m - 1);
      events := BeginBelowCap(manifests, k, before, call, m);
      assert Copies(call, n - 1) + [call] == Copies(call, n);
    }
  }

  lemma {:induction false} FinishesRun(manifests: Manifests, k: nat, call: Call, m: nat, n: nat)
    returns (events: seq<Event>)
    requires Capped(manifests, call, m) && n <= k && k > 0
    ensures AtMost(manifests, k, events)
    ensures var s := After(manifests, events); s.inFlight == Copies(call, k - n) && s.invoked == Copies(call, m - 1 + n)
  {
    if n == 0 {
      events := BeginsRun(manifests, k, call, m, k);
    } else {
      var before := FinishesRun(manifests, k, call, m, n - 1);
      events := FinishFirst(manifests, k, before, call, m);
      assert Copies(call, k - n + 1)[1..] == Copies(call, k - n);
      assert Copies(call, m - 2 + n) + [call] == Copies(call, m - 1 + n);
    }
  }

  /** The bound m + k - 1 is reached: the check and the recording are two critical sections. */
  lemma BoundIsReached(manifests: Manifests, k: nat, call: Call, m: nat) returns (events: seq<Event>)
    requires Capped(manifests, call, m) && k > 0
    ensures AtMost(manifests, k, events)
    ensures Number(After(manifests, events).invoked, Of(Self(call))) == m + k - 1
  {
    events := FinishesRun(manifests, k, call, m, k);
    NumberCopies(call, m - 1 + k);
  }
}
