/**
 How decisions reach the log. Each call builds its record under the chain lock, which moves the agent's chain
 cursor, and writes it later under the log's own lock; calls interleave between the two.
 */
module Pipeline {
  import opened Basics
  import opened Record
  import Chain

  datatype Effect = Permit | Deny | Defer | Shadow | ShadowPermit {
    function Text(): string {
      match this
      case Permit => "PERMIT"
      case Deny => "DENY"
      case Defer => "DEFER"
      case Shadow => "SHADOW"
      case ShadowPermit => "SHADOW_PERMIT"
    }
  }

  /** A record built for a call and not yet written, with the decision it documents. */
  datatype Pending = Pending(rec: Record, effect: Effect)

  /** What a call returned: its effect, and the record of the decision when it was logged. */
  datatype Decision = Decision(effect: Effect, logged: Option<Record>)

  datatype State = State(
    cursor: map<string, string>,   // agent -> hash its next record links to
    inFlight: map<nat, Pending>,   // calls between build and write
    wal: seq<Record>,
    returned: map<nat, Decision>,
    built: seq<Record>)            // what was logged at the start, and every record built since, in build order

  datatype Event =
    | Build(call: nat, draft: Canonical, rest: Uncommitted, effect: Effect)
    | Write(call: nat, ok: bool)

  /** A process that starts on a log, with the cursors that the store gave it. */
  function Started(seed: map<string, string>, wal: seq<Record>): State {
    State(seed, map[], wal, map[], wal)
  }

  const EMPTY := Started(map[], [])

  function Previous(h: Hashing, cursor: map<string, string>, agent: string): string {
    if agent in cursor && cursor[agent] != "" then cursor[agent] else h.Genesis(agent)
  }

  /** The draft is what request and decision give to the record; its effect, linking and hashing are added here. */
  function BuildRecord(
    h: Hashing, cursor: map<string, string>, draft: Canonical, rest: Uncommitted, effect: Effect): Record {
    WithHash(h, Record(
      draft.(prevRecordHash := Previous(h, cursor, draft.agentID), effect := effect.Text()), "", rest))
  }

  function Step(h: Hashing, s: State, e: Event): State {
    match e
    case Build(call, draft, rest, effect) =>
      if call in s.inFlight || call in s.returned then s
      else
        var rec := BuildRecord(h, s.cursor, draft, rest, effect);
        s.(cursor := s.cursor[draft.agentID := rec.recordHash],
           inFlight := s.inFlight[call := Pending(rec, effect)],
           built := s.built + [rec])
    case Write(call, ok) =>
      if call !in s.inFlight then s
      else
        var p := s.inFlight[call];
        if ok then
          s.(wal := s.wal + [p.rec],
             inFlight := s.inFlight - {call},
             returned := s.returned[call := Decision(p.effect, Some(p.rec))])
        else
          s.(inFlight := s.inFlight - {call},
             returned := s.returned[call := Decision(Deny, None)])
  }

  function Run(h: Hashing, start: State, events: seq<Event>): State {
    if events == [] then start else Step(h, Run(h, start, events[..|events| - 1]), events[|events| - 1])
  }

  // ---------------------------------------------------------------- every interleaving

  /** What an agent's next record links to, when its first n records are older than the process. */
  function TipFrom(seed: string, n: nat, rs: seq<Record>): string {
    if |rs| <= n then seed else rs[|rs| - 1].recordHash
  }

  /** The records after the base are a chain of their own, from the seed. */
  ghost predicate ChainedFrom(h: Hashing, seed: string, base: seq<Record>, rs: seq<Record>) {
    base <= rs && forall j :: |base| <= j < |rs| ==>
      rs[j].recordHash == h.Of(rs[j].canon) && rs[j].canon.prevRecordHash == TipFrom(seed, |base|, rs[..j])
  }

  /** The agent's records in build order form such a chain, and the cursor is at its end. */
  ghost predicate LinkedAt(h: Hashing, seed: map<string, string>, wal: seq<Record>, s: State, agent: string) {
    var base, built := Chain.Of(wal, agent), Chain.Of(s.built, agent);
    && ChainedFrom(h, Previous(h, seed, agent), base, built)
    && Previous(h, s.cursor, agent) == TipFrom(Previous(h, seed, agent), |base|, built)
  }

  ghost predicate Linked(h: Hashing, seed: map<string, string>, wal: seq<Record>, s: State) {
    forall agent :: LinkedAt(h, seed, wal, s, agent)
  }

  ghost predicate Accounted(s: State) {
    && (forall r :: r in s.wal ==> r in s.built)
    && (forall c :: c in s.inFlight ==> s.inFlight[c].rec in s.built)
    && (forall c :: c in s.returned && s.returned[c].effect != Deny ==>
          s.returned[c].logged.Some? && s.returned[c].logged.value in s.wal)
  }

  lemma ChainedFromSnoc(h: Hashing, seed: string, base: seq<Record>, rs: seq<Record>, r: Record)
    requires ChainedFrom(h, seed, base, rs)
    requires r.recordHash == h.Of(r.canon) && r.canon.prevRecordHash == TipFrom(seed, |base|, rs)
    ensures ChainedFrom(h, seed, base, rs + [r])
  {
    var all := rs + [r];
    assert all[..|rs|] == rs && forall j :: 0 <= j < |rs| ==> all[..j] == rs[..j];
  }

  lemma OwnBuildLinks(h: Hashing, seed: string, base: seq<Record>, built: seq<Record>, rec: Record)
    requires ChainedFrom(h, seed, base, built) && rec.recordHash == h.Of(rec.canon)
    requires rec.canon.prevRecordHash == TipFrom(seed, |base|, built)
    ensures ChainedFrom(h, seed, base, built + [rec]) && TipFrom(seed, |base|, built + [rec]) == rec.recordHash
  {
    ChainedFromSnoc(h, seed, base, built, rec);
  }

  lemma CursorMoved(h: Hashing, cursor: map<string, string>, moved: string, hash: string, agent: string)
    requires hash != ""
    ensures Previous(h, cursor[moved := hash], agent) == if agent == moved then hash else Previous(h, cursor, agent)
  {
  }

  lemma BuildLinks(
    h: Hashing, seed: map<string, string>, wal: seq<Record>, s: State,
    draft: Canonical, rest: Uncommitted, effect: Effect, agent: string)
    requires LinkedAt(h, seed, wal, s, agent)
    ensures var rec := BuildRecord(h, s.cursor, draft, rest, effect);
      LinkedAt(h, seed, wal, s.(cursor := s.cursor[draft.agentID := rec.recordHash], built := s.built + [rec]), agent)
  {
    var rec := BuildRecord(h, s.cursor, draft, rest, effect);
    var base, built := Chain.Of(wal, agent), Chain.Of(s.built, agent);
    CursorMoved(h, s.cursor, draft.agentID, rec.recordHash, agent);
    Chain.OfOther(s.built, rec, agent);
    if agent == draft.agentID {
      OwnBuildLinks(h, Previous(h, seed, agent), base, built, rec);
    }
  }

  lemma LinkedStep(h: Hashing, seed: map<string, string>, wal: seq<Record>, s: State, e: Event)
    requires Linked(h, seed, wal, s)
    ensures Linked(h, seed, wal, Step(h, s, e))
  {
    match e {
      case Write(_, _) =>
        forall agent ensures LinkedAt(h, seed, wal, Step(h, s, e), agent) {
          assert LinkedAt(h, seed, wal, s, agent);
        }
      case Build(call, draft, rest, effect) =>
        forall agent ensures LinkedAt(h, seed, wal, Step(h, s, e), agent) {
          assert LinkedAt(h, seed, wal, s, agent);
          BuildLinks(h, seed, wal, s, draft, rest, effect, agent);
        }
    }
  }

  lemma AccountedStep(h: Hashing, s: State, e: Event)
    requires Accounted(s)
    ensures Accounted(Step(h, s, e))
  {
  }

  /**
   Whatever the interleaving, the records that the process builds for an agent form one chain, in build order, from the
   hash that the store gave for it.
   */
  lemma {:induction false} BuiltChains(h: Hashing, seed: map<string, string>, wal: seq<Record>, events: seq<Event>)
    ensures Linked(h, seed, wal, Run(h, Started(seed, wal), events))
  {
    if events != [] {
      BuiltChains(h, seed, wal, events[..|events| - 1]);
      LinkedStep(h, seed, wal, Run(h, Started(seed, wal), events[..|events| - 1]), events[|events| - 1]);
    }
  }

  /** Whatever the interleaving and whatever writes fail, only a denial is returned without its record in the log. */
  lemma {:induction false} NoDecisionWithoutRecord(
    h: Hashing, seed: map<string, string>, wal: seq<Record>, events: seq<Event>)
    ensures Accounted(Run(h, Started(seed, wal), events))
  {
    if events != [] {
      NoDecisionWithoutRecord(h, seed, wal, events[..|events| - 1]);
      AccountedStep(h, Run(h, Started(seed, wal), events[..|events| - 1]), events[|events| - 1]);
    }
  }

  // ---------------------------------------------------------------- the record documents the call

  predicate Names(effect: Effect, text: string) {
    && (effect.Permit? ==> text == "PERMIT") && (effect.Deny? ==> text == "DENY")
    && (effect.Defer? ==> text == "DEFER") && (effect.Shadow? ==> text == "SHADOW")
    && (effect.ShadowPermit? ==> text == "SHADOW_PERMIT")
  }

  /** The record says what the draft says, field by field, and names the effect; only its link is its own. */
  predicate Documents(rec: Record, draft: Canonical, rest: Uncommitted, effect: Effect) {
    && rec.canon == draft.(prevRecordHash := rec.canon.prevRecordHash, effect := rec.canon.effect)
    && Names(effect, rec.canon.effect) && rec.rest == rest
  }

  /** The build of a call is its first one; the pipeline takes no other. */
  function FirstBuild(events: seq<Event>, call: nat): (e: Option<Event>)
    ensures e.Some? ==> e.value.Build?
  {
    if events == [] then None
    else
      var earlier, last := FirstBuild(events[..|events| - 1], call), events[|events| - 1];
      if earlier.Some? then earlier else if last.Build? && last.call == call then Some(last) else None
  }

  predicate DocumentsCall(rec: Record, effect: Effect, e: Event)
    requires e.Build?
  {
    e.effect == effect && Documents(rec, e.draft, e.rest, effect)
  }

  ghost predicate AnswersCall(events: seq<Event>, call: nat, d: Decision) {
    var e := FirstBuild(events, call);
    e.Some? &&
    match d.logged
    case None => d.effect == Deny
    case Some(rec) => DocumentsCall(rec, d.effect, e.value)
  }

  ghost predicate Documented(events: seq<Event>, s: State) {
    && (forall c :: c in s.inFlight ==> AnswersCall(events, c, Decision(s.inFlight[c].effect, Some(s.inFlight[c].rec))))
    && (forall c :: c in s.returned ==> AnswersCall(events, c, s.returned[c]))
    && (forall c :: FirstBuild(events, c).Some? ==> c in s.inFlight || c in s.returned)
  }

  lemma AnswersLater(events: seq<Event>, e: Event, call: nat, d: Decision)
    requires AnswersCall(events, call, d)
    ensures AnswersCall(events + [e], call, d)
  {
    assert (events + [e])[..|events|] == events;
  }

  lemma FirstBuildNext(events: seq<Event>, e: Event, call: nat)
    ensures FirstBuild(events + [e], call) ==
      if FirstBuild(events, call).None? && e.Build? && e.call == call then Some(e) else FirstBuild(events, call)
  {
    assert (events + [e])[..|events|] == events;
  }

  lemma InFlightAnswers(h: Hashing, events: seq<Event>, s: State, e: Event, c: nat)
    requires Documented(events, s) && c in Step(h, s, e).inFlight
    ensures var p := Step(h, s, e).inFlight[c]; AnswersCall(events + [e], c, Decision(p.effect, Some(p.rec)))
  {
    FirstBuildNext(events, e, c);
    if c in s.inFlight {
      AnswersLater(events, e, c, Decision(s.inFlight[c].effect, Some(s.inFlight[c].rec)));
    }
  }

  lemma ReturnedAnswers(h: Hashing, events: seq<Event>, s: State, e: Event, c: nat)
    requires Documented(events, s) && c in Step(h, s, e).returned
    ensures AnswersCall(events + [e], c, Step(h, s, e).returned[c])
  {
    if e.Write? && e.call == c && c in s.inFlight {
      AnswersLater(events, e, c, Decision(s.inFlight[c].effect, Some(s.inFlight[c].rec)));
    } else {
      AnswersLater(events, e, c, s.returned[c]);
    }
  }

  lemma BuiltIsKnown(h: Hashing, events: seq<Event>, s: State, e: Event, c: nat)
    requires Documented(events, s) && FirstBuild(events + [e], c).Some?
    ensures c in Step(h, s, e).inFlight || c in Step(h, s, e).returned
  {
    FirstBuildNext(events, e, c);
  }

  lemma DocumentedStep(h: Hashing, events: seq<Event>, s: State, e: Event)
    requires Documented(events, s)
    ensures Documented(events + [e], Step(h, s, e))
  {
    var t := Step(h, s, e);
    forall c | c in t.inFlight
      ensures AnswersCall(events + [e], c, Decision(t.inFlight[c].effect, Some(t.inFlight[c].rec)))
    {
      InFlightAnswers(h, events, s, e, c);
    }
    forall c | c in t.returned ensures AnswersCall(events + [e], c, t.returned[c]) {
      ReturnedAnswers(h, events, s, e, c);
    }
    forall c | FirstBuild(events + [e], c).Some? ensures c in t.inFlight || c in t.returned {
      BuiltIsKnown(h, events, s, e, c);
    }
  }

  lemma {:induction false} AlwaysDocumented(
    h: Hashing, seed: map<string, string>, wal: seq<Record>, events: seq<Event>)
    ensures Documented(events, Run(h, Started(seed, wal), events))
  {
    if events != [] {
      var before, e := events[..|events| - 1], events[|events| - 1];
      AlwaysDocumented(h, seed, wal, before);
      DocumentedStep(h, before, Run(h, Started(seed, wal), before), e);
      assert before + [e] == events;
    }
  }

  /**
   Whatever the interleaving, a call that returned with a record was built, and the record, which is in the log,
   says of it what its build was given, field by field, and names the very effect that was returned; a call that
   returned without one was denied.
   */
  lemma RecordDocumentsCall(
    h: Hashing, seed: map<string, string>, wal: seq<Record>, events: seq<Event>, call: nat)
    requires call in Run(h, Started(seed, wal), events).returned
    ensures var s := Run(h, Started(seed, wal), events);
      var d, e := s.returned[call], FirstBuild(events, call);
      e.Some? &&
      match d.logged
      case None => d.effect == Deny
      case Some(rec) =>
        && rec in s.wal && d.effect == e.value.effect
        && Documents(rec, e.value.draft, e.value.rest, d.effect)
  {
    AlwaysDocumented(h, seed, wal, events);
    AlwaysLogged(h, seed, wal, events, call);
    assert AnswersCall(events, call, Run(h, Started(seed, wal), events).returned[call]);
  }

  lemma {:induction false} AlwaysLogged(
    h: Hashing, seed: map<string, string>, wal: seq<Record>, events: seq<Event>, call: nat)
    requires call in Run(h, Started(seed, wal), events).returned
    ensures var s := Run(h, Started(seed, wal), events);
      s.returned[call].logged.Some? ==> s.returned[call].logged.value in s.wal
  {
    var before, e := events[..|events| - 1], events[|events| - 1];
    var s := Run(h, Started(seed, wal), before);
    if call in s.returned {
      AlwaysLogged(h, seed, wal, before, call);
    }
  }

  /** The log only grows. */
  lemma {:induction false} LogGrows(h: Hashing, start: State, events: seq<Event>, k: nat)
    requires k <= |events|
    ensures Run(h, start, events[..k]).wal <= Run(h, start, events).wal
  {
    if k == |events| {
      assert events[..k] == events;
    } else {
      LogGrows(h, start, events[..|events| - 1], k);
      assert events[..|events| - 1][..k] == events[..k];
    }
  }

  lemma {:induction false} OfPrefix(xs: seq<Record>, ys: seq<Record>, agent: string)
    requires xs <= ys
    ensures Chain.Of(xs, agent) <= Chain.Of(ys, agent)
  {
    if xs == ys {
    } else {
      var k := |ys| - 1;
      assert xs <= ys[..k];
      OfPrefix(xs, ys[..k], agent);
      Chain.OfOther(ys[..k], ys[k], agent);
      assert ys == ys[..k] + [ys[k]];
    }
  }

  // ---------------------------------------------------------------- what the store knew

  /** The store's last hash of the agent is that of the log (or neither has one). */
  predicate Knows(h: Hashing, seed: map<string, string>, wal: seq<Record>, agent: string) {
    Previous(h, seed, agent) == Chain.Tip(h, agent, Chain.Of(wal, agent))
  }

  /** A record of the agent was logged since the start. */
  predicate Resumed(wal: seq<Record>, s: State, agent: string) {
    |Chain.Of(s.wal, agent)| > |Chain.Of(wal, agent)|
  }

  lemma KnownChain(h: Hashing, agent: string, seed: string, base: seq<Record>, rs: seq<Record>)
    requires ChainedFrom(h, seed, base, rs) && Chain.Chained(h, agent, base) && seed == Chain.Tip(h, agent, base)
    ensures Chain.Chained(h, agent, rs)
  {
    forall j | 0 <= j < |rs|
      ensures rs[j].recordHash == h.Of(rs[j].canon) && rs[j].canon.prevRecordHash == Chain.Tip(h, agent, rs[..j])
    {
      if j < |base| {
        assert base[j] == rs[j] && base[..j] == rs[..j];
      } else if j == |base| {
        assert rs[..j] == base;
      }
    }
  }

  /** The first record after the base hangs on the seed: the chain goes on only if the seed is the tip of the base. */
  lemma UnknownBreaks(h: Hashing, agent: string, seed: string, base: seq<Record>, rs: seq<Record>, xs: seq<Record>)
    requires ChainedFrom(h, seed, base, rs) && seed != Chain.Tip(h, agent, base)
    requires base <= xs <= rs && |base| < |xs|
    ensures !Chain.Chained(h, agent, xs)
  {
    var n := |base|;
    assert xs[..n] == base && xs[n] == rs[n];
    if Chain.Chained(h, agent, xs) {
      LinkAt(h, agent, xs, n);
      assert false;
    }
  }

  // ---------------------------------------------------------------- when the log passes validated replay

  /** No two of the records built so far collide, nor does one with the text behind its agent's genesis marker. */
  ghost predicate HashesDiffer(h: Hashing, built: seq<Record>) {
    && (forall i, j :: 0 <= i < j < |built| ==> h.sha(h.json(built[i].canon)) != h.sha(h.json(built[j].canon)))
    && (forall i :: 0 <= i < |built| ==>
          h.sha(h.json(built[i].canon)) != h.sha(h.text("faramesh/dpr/genesis/v1" + ":" + built[i].canon.agentID)))
  }

  /** Members of an agent's records, with a position in the whole list that respects order. */
  lemma {:induction false} OfMember(log: seq<Record>, agent: string, r: Record)
    ensures r in Chain.Of(log, agent) <==> r in log && r.canon.agentID == agent
  {
    if log != [] {
      OfMember(log[..|log| - 1], agent, r);
      assert log == log[..|log| - 1] + [log[|log| - 1]];
    }
  }

  ghost predicate ChainHashesDiffer(h: Hashing, agent: string, rs: seq<Record>) {
    && (forall i, j :: 0 <= i < j < |rs| ==> h.Of(rs[i].canon) != h.Of(rs[j].canon))
    && (forall i :: 0 <= i < |rs| ==> h.Of(rs[i].canon) != h.Genesis(agent))
  }

  lemma HashesDifferSnoc(h: Hashing, agent: string, rs: seq<Record>, r: Record)
    requires ChainHashesDiffer(h, agent, rs) && h.Of(r.canon) != h.Genesis(agent)
    requires forall i :: 0 <= i < |rs| ==> h.Of(rs[i].canon) != h.Of(r.canon)
    ensures ChainHashesDiffer(h, agent, rs + [r])
  {
  }

  lemma {:induction false} ChainHashesDifferOf(h: Hashing, log: seq<Record>, agent: string)
    requires HashesDiffer(h, log)
    ensures ChainHashesDiffer(h, agent, Chain.Of(log, agent))
  {
    if log != [] {
      var before, last := log[..|log| - 1], log[|log| - 1];
      assert log == before + [last];
      ChainHashesDifferOf(h, before, agent);
      Chain.OfOther(before, last, agent);
      if last.canon.agentID == agent {
        LastHashDiffers(h, before, last, agent);
        HashesDifferSnoc(h, agent, Chain.Of(before, agent), last);
      }
    }
  }

  lemma LastHashDiffers(h: Hashing, before: seq<Record>, last: Record, agent: string)
    requires HashesDiffer(h, before + [last]) && last.canon.agentID == agent
    ensures h.Of(last.canon) != h.Genesis(agent)
    ensures var rs := Chain.Of(before, agent); forall i :: 0 <= i < |rs| ==> h.Of(rs[i].canon) != h.Of(last.canon)
  {
    var all, rs := before + [last], Chain.Of(before, agent);
    assert all[|before|] == last;
    GenesisCoversAgent(h, last.canon, agent);
    forall i | 0 <= i < |rs| ensures h.Of(rs[i].canon) != h.Of(last.canon) {
      OfMember(before, agent, rs[i]);
      var j :| 0 <= j < |before| && before[j] == rs[i];
      assert all[j] == rs[i];
      HashCoversForm(h, rs[i].canon, last.canon);
    }
  }

  /** Different positions of a chain have different predecessor hashes. */
  lemma TipsDiffer(h: Hashing, agent: string, rs: seq<Record>, i: nat, j: nat)
    requires Chain.Chained(h, agent, rs) && ChainHashesDiffer(h, agent, rs) && i < j <= |rs|
    ensures Chain.Tip(h, agent, rs[..i]) != Chain.Tip(h, agent, rs[..j])
  {
    assert rs[..j][j - 1] == rs[j - 1];
    if i > 0 {
      assert rs[..i][i - 1] == rs[i - 1];
    }
  }

  ghost predicate AgreeUpTo(xs: seq<Record>, ys: seq<Record>, k: nat) {
    k <= |xs| && k <= |ys| && xs[..k] == ys[..k]
  }

  lemma ExtendAgreement(xs: seq<Record>, ys: seq<Record>, k: nat)
    requires AgreeUpTo(xs, ys, k) && k < |xs| && k < |ys| && xs[k] == ys[k]
    ensures AgreeUpTo(xs, ys, k + 1)
  {
    assert xs[..k + 1] == xs[..k] + [xs[k]];
    assert ys[..k + 1] == ys[..k] + [ys[k]];
  }

  lemma LinkAt(h: Hashing, agent: string, rs: seq<Record>, i: nat)
    requires Chain.Chained(h, agent, rs) && i < |rs|
    ensures rs[i].canon.prevRecordHash == Chain.Tip(h, agent, rs[..i])
  {
  }

  lemma PlaceInChain(h: Hashing, agent: string, rs: seq<Record>, j: nat, k: nat)
    requires Chain.Chained(h, agent, rs) && ChainHashesDiffer(h, agent, rs)
    requires j < |rs| && k <= |rs| && rs[j].canon.prevRecordHash == Chain.Tip(h, agent, rs[..k])
    ensures j == k
  {
    if j < k {
      TipsDiffer(h, agent, rs, j, k);
    } else if k < j {
      TipsDiffer(h, agent, rs, k, j);
    }
  }

  lemma NextOfSubChain(h: Hashing, agent: string, xs: seq<Record>, ys: seq<Record>, k: nat)
    requires Chain.Chained(h, agent, ys) && ChainHashesDiffer(h, agent, ys)
    requires k < |xs| && xs[k].canon.prevRecordHash == Chain.Tip(h, agent, xs[..k])
    requires xs[k] in ys && AgreeUpTo(xs, ys, k)
    ensures AgreeUpTo(xs, ys, k + 1)
  {
    var j :| 0 <= j < |ys| && ys[j] == xs[k];
    assert xs[..k] == ys[..k];
    assert ys[j].canon.prevRecordHash == Chain.Tip(h, agent, ys[..k]);
    PlaceInChain(h, agent, ys, j, k);
    ExtendAgreement(xs, ys, k);
  }

  lemma AgreeOneMore(h: Hashing, agent: string, xs: seq<Record>, ys: seq<Record>, k: nat)
    requires Chain.Chained(h, agent, xs) && Chain.Chained(h, agent, ys) && ChainHashesDiffer(h, agent, ys)
    requires k < |xs| && xs[k] in ys && AgreeUpTo(xs, ys, k)
    ensures AgreeUpTo(xs, ys, k + 1)
  {
    LinkAt(h, agent, xs, k);
    NextOfSubChain(h, agent, xs, ys, k);
  }

  /** A chain made of records of another chain is a prefix of it. */
  lemma {:induction false} SubChainIsPrefix(h: Hashing, agent: string, xs: seq<Record>, ys: seq<Record>, k: nat)
    requires Chain.Chained(h, agent, xs) && Chain.Chained(h, agent, ys) && ChainHashesDiffer(h, agent, ys)
    requires k <= |xs| && forall i :: 0 <= i < |xs| ==> xs[i] in ys
    ensures AgreeUpTo(xs, ys, k)
  {
    if k > 0 {
      SubChainIsPrefix(h, agent, xs, ys, k - 1);
      AgreeOneMore(h, agent, xs, ys, k - 1);
    }
  }

  lemma PrefixOfChain(h: Hashing, agent: string, xs: seq<Record>, ys: seq<Record>)
    requires Chain.Chained(h, agent, ys) && xs <= ys
    ensures Chain.Chained(h, agent, xs)
  {
    Chain.ChainedPrefix(h, agent, ys, |xs|);
    assert xs == ys[..|xs|];
  }

  /** With different hashes, no other record of the process can stand right behind the base either. */
  lemma UnknownNeverFits(
    h: Hashing, agent: string, seed: string, base: seq<Record>, rs: seq<Record>, xs: seq<Record>)
    requires ChainedFrom(h, seed, base, rs) && seed != Chain.Tip(h, agent, base)
    requires Chain.Chained(h, agent, base) && ChainHashesDiffer(h, agent, rs)
    requires base <= xs && |base| < |xs| && xs[|base|] in rs
    ensures !Chain.Chained(h, agent, xs)
  {
    var n := |base|;
    assert xs[..n] == base;
    if Chain.Chained(h, agent, xs) {
      LinkAt(h, agent, xs, n);
      var j :| 0 <= j < |rs| && rs[j] == xs[n];
      BaseTipFirst(h, agent, seed, base, rs, j);
      assert false;
    }
  }

  /** The tip of the base is the predecessor hash of no record of the process, the seed not being it. */
  lemma BaseTipFirst(h: Hashing, agent: string, seed: string, base: seq<Record>, rs: seq<Record>, j: nat)
    requires ChainedFrom(h, seed, base, rs) && seed != Chain.Tip(h, agent, base)
    requires Chain.Chained(h, agent, base) && ChainHashesDiffer(h, agent, rs) && j < |rs|
    ensures rs[j].canon.prevRecordHash != Chain.Tip(h, agent, base)
  {
    var n := |base|;
    if j < n {
      ChainHashesDifferFront(h, agent, base, rs);
      TipsDiffer(h, agent, base, j, n);
      LinkAt(h, agent, base, j);
      assert base[..n] == base && base[j] == rs[j];
    } else if j > n {
      assert rs[..j][j - 1] == rs[j - 1];
      assert n > 0 ==> base[n - 1] == rs[n - 1] && base[n - 1].recordHash == h.Of(base[n - 1].canon);
    }
  }

  lemma ChainHashesDifferFront(h: Hashing, agent: string, base: seq<Record>, rs: seq<Record>)
    requires base <= rs && ChainHashesDiffer(h, agent, rs)
    ensures ChainHashesDiffer(h, agent, base)
  {
    assert forall i :: 0 <= i < |base| ==> base[i] == rs[i];
  }

  lemma LoggedIsBuilt(s: State, agent: string)
    requires Accounted(s)
    ensures forall i :: 0 <= i < |Chain.Of(s.wal, agent)| ==> Chain.Of(s.wal, agent)[i] in Chain.Of(s.built, agent)
  {
    var logged := Chain.Of(s.wal, agent);
    forall i | 0 <= i < |logged|
      ensures logged[i] in Chain.Of(s.built, agent)
    {
      OfMember(s.wal, agent, logged[i]);
      OfMember(s.built, agent, logged[i]);
    }
  }

  lemma ChainIffPrefix(h: Hashing, agent: string, logged: seq<Record>, built: seq<Record>)
    requires Chain.Chained(h, agent, built) && ChainHashesDiffer(h, agent, built)
    requires forall i :: 0 <= i < |logged| ==> logged[i] in built
    ensures Chain.Chained(h, agent, logged) <==> logged <= built
  {
    if logged <= built {
      PrefixOfChain(h, agent, logged, built);
    }
    if Chain.Chained(h, agent, logged) {
      SubChainIsPrefix(h, agent, logged, built, |logged|);
      assert logged[..|logged|] == logged;
    }
  }

  lemma LoggedChain(
    h: Hashing, agent: string, seed: string, base: seq<Record>, built: seq<Record>, logged: seq<Record>)
    requires Chain.Chained(h, agent, base) && ChainedFrom(h, seed, base, built) && ChainHashesDiffer(h, agent, built)
    requires base <= logged && forall i :: 0 <= i < |logged| ==> logged[i] in built
    ensures Chain.Chained(h, agent, logged) <==>
      logged <= built && (|logged| > |base| ==> seed == Chain.Tip(h, agent, base))
  {
    if seed == Chain.Tip(h, agent, base) {
      KnownChain(h, agent, seed, base, built);
      ChainIffPrefix(h, agent, logged, built);
    } else if |logged| > |base| {
      UnknownNeverFits(h, agent, seed, base, built, logged);
    } else {
      assert logged == base;
    }
  }

  /** An agent's logged records are the first of those built for it, and the chain they go on from was known. */
  ghost predicate Continues(h: Hashing, seed: map<string, string>, wal: seq<Record>, s: State, agent: string) {
    && Chain.Of(s.wal, agent) <= Chain.Of(s.built, agent)
    && (Resumed(wal, s, agent) ==> Knows(h, seed, wal, agent))
  }

  lemma AgentContinues(h: Hashing, seed: map<string, string>, wal: seq<Record>, events: seq<Event>, agent: string)
    requires Chain.Accepts(h, wal) && HashesDiffer(h, Run(h, Started(seed, wal), events).built)
    ensures var s := Run(h, Started(seed, wal), events);
      Chain.Chained(h, agent, Chain.Of(s.wal, agent)) <==> Continues(h, seed, wal, s, agent)
  {
    var s := Run(h, Started(seed, wal), events);
    BuiltChains(h, seed, wal, events);
    assert LinkedAt(h, seed, wal, s, agent);
    NoDecisionWithoutRecord(h, seed, wal, events);
    LoggedIsBuilt(s, agent);
    ChainHashesDifferOf(h, s.built, agent);
    Chain.AcceptedChain(h, wal, agent);
    LogGrows(h, Started(seed, wal), events, 0);
    OfPrefix(wal, s.wal, agent);
    LoggedChain(
      h, agent, Previous(h, seed, agent), Chain.Of(wal, agent), Chain.Of(s.built, agent), Chain.Of(s.wal, agent));
  }

  /**
   At any moment of any run, from whatever log and store the process started with, the log passes validated replay
   exactly when no record lacks an agent, every agent's logged records are the first of those built for it, in build
   order, and the store knew the log's last record of each agent that has had one logged since.
   */
  lemma AcceptedIffInBuildOrder(h: Hashing, seed: map<string, string>, wal: seq<Record>, events: seq<Event>)
    requires Chain.Accepts(h, wal) && HashesDiffer(h, Run(h, Started(seed, wal), events).built)
    ensures var s := Run(h, Started(seed, wal), events);
      Chain.Accepts(h, s.wal) <==> Chain.Named(s.wal) && forall agent :: Continues(h, seed, wal, s, agent)
  {
    var s := Run(h, Started(seed, wal), events);
    Chain.AcceptsIffChained(h, s.wal);
    forall agent
      ensures Chain.Chained(h, agent, Chain.Of(s.wal, agent)) <==> Continues(h, seed, wal, s, agent)
    {
      AgentContinues(h, seed, wal, events, agent);
    }
  }

  /** A fresh process on an empty log knows every agent. */
  lemma FreshKnows(h: Hashing, agent: string)
    ensures Knows(h, map[], [], agent)
  {
  }

  // ---------------------------------------------------------------- serial agents, healthy log

  /** No write fails, agents are named, and an agent's call is built only when none of its calls awaits its write. */
  predicate Serial(h: Hashing, start: State, events: seq<Event>) {
    events == [] ||
    (&& Serial(h, start, events[..|events| - 1])
     && match events[|events| - 1]
        case Write(_, ok) => ok
        case Build(_, draft, _, _) =>
          var s := Run(h, start, events[..|events| - 1]);
          draft.agentID != "" && forall c :: c in s.inFlight ==> s.inFlight[c].rec.canon.agentID != draft.agentID)
  }

  ghost predicate Idle(s: State, agent: string) {
    forall c :: c in s.inFlight ==> s.inFlight[c].rec.canon.agentID != agent
  }

  ghost predicate OnlyCall(s: State, agent: string, call: nat) {
    && call in s.inFlight && s.inFlight[call].rec.canon.agentID == agent
    && forall c :: c in s.inFlight && c != call ==> s.inFlight[c].rec.canon.agentID != agent
  }

  /** The log lags an agent's chain by at most the one record in flight. */
  ghost predicate Lags(s: State, agent: string) {
    var logged, built := Chain.Of(s.wal, agent), Chain.Of(s.built, agent);
    || (Idle(s, agent) && built == logged)
    || exists call :: OnlyCall(s, agent, call) && built == logged + [s.inFlight[call].rec]
  }

  ghost predicate AllLag(s: State) {
    Chain.Named(s.built) && forall agent :: Lags(s, agent)
  }

  lemma LagBuild(h: Hashing, s: State, e: Event, agent: string)
    requires Lags(s, agent) && e.Build? && Idle(s, e.draft.agentID)
    ensures Lags(Step(h, s, e), agent)
  {
    if e.call !in s.inFlight && e.call !in s.returned {
      var rec := BuildRecord(h, s.cursor, e.draft, e.rest, e.effect);
      var t := Step(h, s, e);
      Chain.OfOther(s.built, rec, agent);
      if agent == e.draft.agentID {
        assert OnlyCall(t, agent, e.call);
      } else if call :| OnlyCall(s, agent, call) {
        assert OnlyCall(t, agent, call);
      } else {
        assert Idle(t, agent);
      }
    }
  }

  lemma LagWrite(h: Hashing, s: State, e: Event, agent: string)
    requires Lags(s, agent) && e.Write? && e.ok
    ensures Lags(Step(h, s, e), agent)
  {
    if e.call in s.inFlight {
      var rec := s.inFlight[e.call].rec;
      var t := Step(h, s, e);
      Chain.OfOther(s.wal, rec, agent);
      if agent == rec.canon.agentID {
        assert Idle(t, agent);
      } else if call :| OnlyCall(s, agent, call) {
        assert OnlyCall(t, agent, call);
      } else {
        assert Idle(t, agent);
      }
    }
  }

  lemma StepLags(h: Hashing, s: State, e: Event)
    requires AllLag(s)
    requires match e
      case Write(_, ok) => ok
      case Build(_, draft, _, _) => draft.agentID != "" && Idle(s, draft.agentID)
    ensures AllLag(Step(h, s, e))
  {
    forall agent
      ensures Lags(Step(h, s, e), agent)
    {
      assert Lags(s, agent);
      if e.Build? {
        LagBuild(h, s, e, agent);
      } else {
        LagWrite(h, s, e, agent);
      }
    }
    if e.Build? {
      Chain.NamedSnoc(s.built, BuildRecord(h, s.cursor, e.draft, e.rest, e.effect));
    }
  }

  lemma {:induction false} SerialLags(h: Hashing, seed: map<string, string>, wal: seq<Record>, events: seq<Event>)
    requires Chain.Named(wal) && Serial(h, Started(seed, wal), events)
    ensures AllLag(Run(h, Started(seed, wal), events))
  {
    if events != [] {
      SerialLags(h, seed, wal, events[..|events| - 1]);
      StepLags(h, Run(h, Started(seed, wal), events[..|events| - 1]), events[|events| - 1]);
    } else {
      assert forall agent :: Idle(Started(seed, wal), agent);
    }
  }

  lemma SerialChain(
    h: Hashing, agent: string, seed: string, base: seq<Record>, built: seq<Record>, logged: seq<Record>)
    requires Chain.Chained(h, agent, base) && ChainedFrom(h, seed, base, built) && base <= logged <= built
    ensures Chain.Chained(h, agent, logged) <==> (|logged| > |base| ==> seed == Chain.Tip(h, agent, base))
  {
    if seed == Chain.Tip(h, agent, base) {
      KnownChain(h, agent, seed, base, built);
      PrefixOfChain(h, agent, logged, built);
    } else if |logged| > |base| {
      UnknownBreaks(h, agent, seed, base, built, logged);
    } else {
      assert logged == base;
    }
  }

  lemma SerialAgent(h: Hashing, seed: map<string, string>, wal: seq<Record>, events: seq<Event>, agent: string)
    requires Chain.Accepts(h, wal) && Chain.Named(wal) && Serial(h, Started(seed, wal), events)
    ensures var s := Run(h, Started(seed, wal), events);
      Chain.Chained(h, agent, Chain.Of(s.wal, agent)) <==> (Resumed(wal, s, agent) ==> Knows(h, seed, wal, agent))
  {
    var s := Run(h, Started(seed, wal), events);
    SerialLags(h, seed, wal, events);
    assert Lags(s, agent);
    BuiltChains(h, seed, wal, events);
    assert LinkedAt(h, seed, wal, s, agent);
    Chain.AcceptedChain(h, wal, agent);
    LogGrows(h, Started(seed, wal), events, 0);
    OfPrefix(wal, s.wal, agent);
    SerialChain(
      h, agent, Previous(h, seed, agent), Chain.Of(wal, agent), Chain.Of(s.built, agent), Chain.Of(s.wal, agent));
  }

  lemma SerialNamed(h: Hashing, seed: map<string, string>, wal: seq<Record>, events: seq<Event>)
    requires Chain.Named(wal) && Serial(h, Started(seed, wal), events)
    ensures Chain.Named(Run(h, Started(seed, wal), events).wal)
  {
    SerialLags(h, seed, wal, events);
    NoDecisionWithoutRecord(h, seed, wal, events);
    var s := Run(h, Started(seed, wal), events);
    assert forall i :: 0 <= i < |s.wal| ==> s.wal[i] in s.built;
  }

  lemma SerialAcceptedIff(h: Hashing, seed: map<string, string>, wal: seq<Record>, events: seq<Event>)
    requires Chain.Accepts(h, wal) && Serial(h, Started(seed, wal), events)
    ensures var s := Run(h, Started(seed, wal), events);
      Chain.Accepts(h, s.wal) <==> forall agent :: Resumed(wal, s, agent) ==> Knows(h, seed, wal, agent)
  {
    var s := Run(h, Started(seed, wal), events);
    Chain.AcceptsIffChained(h, wal);
    Chain.AcceptsIffChained(h, s.wal);
    SerialNamed(h, seed, wal, events);
    forall agent
      ensures Chain.Chained(h, agent, Chain.Of(s.wal, agent))
        <==> (Resumed(wal, s, agent) ==> Knows(h, seed, wal, agent))
    {
      SerialAgent(h, seed, wal, events, agent);
    }
  }

  /** The log passes validated replay at every moment of the run. */
  ghost predicate AcceptedThroughout(h: Hashing, start: State, events: seq<Event>) {
    forall k :: 0 <= k <= |events| ==> Chain.Accepts(h, Run(h, start, events[..k]).wal)
  }

  lemma AcceptedAtLast(h: Hashing, start: State, events: seq<Event>)
    ensures AcceptedThroughout(h, start, events) <==> Chain.Accepts(h, Run(h, start, events).wal)
  {
    assert events[..|events|] == events;
    if Chain.Accepts(h, Run(h, start, events).wal) {
      forall k | 0 <= k <= |events| ensures Chain.Accepts(h, Run(h, start, events[..k]).wal) {
        LogGrows(h, start, events, k);
        var seen, log := Run(h, start, events[..k]).wal, Run(h, start, events).wal;
        Chain.AcceptsPrefix(h, log, |seen|);
        assert log[..|seen|] == seen;
      }
    }
  }

  /**
   With healthy writes and one call at a time per agent, a process started on an accepted log keeps it accepted at every
   moment if and only if the store knew the log's last record of each agent that gets one logged.
   */
  lemma RestartKeepsChainIff(h: Hashing, seed: map<string, string>, wal: seq<Record>, events: seq<Event>)
    requires Chain.Accepts(h, wal) && Serial(h, Started(seed, wal), events)
    ensures var s := Run(h, Started(seed, wal), events);
      AcceptedThroughout(h, Started(seed, wal), events) <==>
        forall agent :: Resumed(wal, s, agent) ==> Knows(h, seed, wal, agent)
  {
    AcceptedAtLast(h, Started(seed, wal), events);
    SerialAcceptedIff(h, seed, wal, events);
  }

  /** A fresh process on an empty log keeps it accepted throughout. */
  lemma SerialLogAccepted(h: Hashing, events: seq<Event>)
    requires Serial(h, EMPTY, events)
    ensures AcceptedThroughout(h, EMPTY, events)
  {
    RestartKeepsChainIff(h, map[], [], events);
    forall agent ensures Knows(h, map[], [], agent) {
      FreshKnows(h, agent);
    }
  }

  // ---------------------------------------------------------------- what breaks it

  lemma RunSnoc(h: Hashing, start: State, events: seq<Event>, e: Event)
    ensures Run(h, start, events + [e]) == Step(h, Run(h, start, events), e)
  {
    assert (events + [e])[..|events|] == events;
  }

  /** A log that starts with any record but its agent's first is rejected. */
  lemma LaterRecordFirst(h: Hashing, first: Record, rec: Record)
    requires rec.canon.agentID == first.canon.agentID && rec.canon.prevRecordHash == first.recordHash
    requires first.recordHash != h.Genesis(first.canon.agentID)
    ensures !Chain.Accepts(h, [rec])
  {
    Chain.AcceptsNext(h, [], rec);
    assert [] + [rec] == [rec];
  }

  lemma TwoBuilds(h: Hashing, d1: Canonical, d2: Canonical, rest: Uncommitted) returns (first: Record, second: Record)
    requires d1.agentID == d2.agentID
    ensures first == BuildRecord(h, map[], d1, rest, Permit)
    ensures second.canon.agentID == d1.agentID && second.canon.prevRecordHash == first.recordHash
    ensures var s := Run(h, EMPTY, [Build(0, d1, rest, Permit)] + [Build(1, d2, rest, Permit)]);
      s.inFlight == map[0 := Pending(first, Permit), 1 := Pending(second, Permit)] && s.wal == []
  {
    var e0, e1 := Build(0, d1, rest, Permit), Build(1, d2, rest, Permit);
    first := BuildRecord(h, map[], d1, rest, Permit);
    second := BuildRecord(h, map[d1.agentID := first.recordHash], d2, rest, Permit);
    RunSnoc(h, EMPTY, [], e0);
    assert [] + [e0] == [e0];
    RunSnoc(h, EMPTY, [e0], e1);
  }

  /**
   Two calls of one agent that reach the log in the other order than they were built: the log is rejected,
   although every write succeeded.
   */
  lemma OvertakingWriteRejected(h: Hashing, d1: Canonical, d2: Canonical, rest: Uncommitted)
    requires d1.agentID == d2.agentID
    requires BuildRecord(h, map[], d1, rest, Permit).recordHash != h.Genesis(d1.agentID)
    ensures var builds := [Build(0, d1, rest, Permit)] + [Build(1, d2, rest, Permit)];
      var s := Run(h, EMPTY, builds + [Write(1, true)] + [Write(0, true)]);
      |s.wal| == 2 && !Chain.Accepts(h, s.wal)
  {
    var builds := [Build(0, d1, rest, Permit)] + [Build(1, d2, rest, Permit)];
    var first, second := TwoBuilds(h, d1, d2, rest);
    RunSnoc(h, EMPTY, builds, Write(1, true));
    RunSnoc(h, EMPTY, builds + [Write(1, true)], Write(0, true));
    assert Run(h, EMPTY, builds + [Write(1, true)] + [Write(0, true)]).wal == [second] + [first];
    LaterRecordFirst(h, first, second);
    Chain.AcceptsNext(h, [second], first);
  }

  /** A failed write leaves the cursor ahead of the log: the agent's next record is logged and the log is rejected. */
  lemma WriteAfterFailureRejected(h: Hashing, d1: Canonical, d2: Canonical, rest: Uncommitted)
    requires d1.agentID == d2.agentID
    requires BuildRecord(h, map[], d1, rest, Permit).recordHash != h.Genesis(d1.agentID)
    ensures var events :=
        [Build(0, d1, rest, Permit)] + [Write(0, false)] + [Build(1, d2, rest, Permit)] + [Write(1, true)];
      |Run(h, EMPTY, events).wal| == 1 && !Chain.Accepts(h, Run(h, EMPTY, events).wal)
  {
    var e0, e1, e2, e3 := Build(0, d1, rest, Permit), Write(0, false), Build(1, d2, rest, Permit), Write(1, true);
    var first := BuildRecord(h, map[], d1, rest, Permit);
    var second := BuildRecord(h, map[d1.agentID := first.recordHash], d2, rest, Permit);
    RunSnoc(h, EMPTY, [], e0);
    assert [] + [e0] == [e0];
    RunSnoc(h, EMPTY, [e0], e1);
    RunSnoc(h, EMPTY, [e0] + [e1], e2);
    RunSnoc(h, EMPTY, [e0] + [e1] + [e2], e3);
    LaterRecordFirst(h, first, second);
  }

  // ---------------------------------------------------------------- the shared state itself

  class DecisionPipeline {
    const h: Hashing
    var chainMu: map<string, string>
    var wal: seq<Record>

    /** Cursors are seeded with the non-empty last hashes of the store's agents. */
    constructor (h: Hashing, agents: seq<string>, lastHash: string -> string, wal: seq<Record>)
      ensures this.h == h && this.wal == wal
      ensures forall a :: a in chainMu <==> a in agents && lastHash(a) != ""
      ensures forall a :: a in chainMu ==> chainMu[a] == lastHash(a)
    {
      this.h, this.wal, this.chainMu := h, wal, map[];
      new;
      for i := 0 to |agents|
        invariant this.h == h && this.wal == wal
        invariant forall a :: a in chainMu <==> a in agents[..i] && lastHash(a) != ""
        invariant forall a :: a in chainMu ==> chainMu[a] == lastHash(a)
      {
        assert agents[..i + 1] == agents[..i] + [agents[i]];
        if lastHash(agents[i]) != "" {
          chainMu := chainMu[agents[i] := lastHash(agents[i])];
        }
      }
    }

    /** The critical section under the chain lock. */
    method Build(draft: Canonical, rest: Uncommitted, effect: Effect) returns (rec: Record)
      modifies this`chainMu
      ensures Documents(rec, draft, rest, effect)
      ensures rec.recordHash == h.Of(rec.canon)
      ensures rec.canon.prevRecordHash ==
        if draft.agentID in old(chainMu) && old(chainMu)[draft.agentID] != "" then old(chainMu)[draft.agentID]
        else h.Genesis(draft.agentID)
      ensures chainMu == old(chainMu)[draft.agentID := rec.recordHash]
    {
      var prevHash := if draft.agentID in chainMu then chainMu[draft.agentID] else "";
      if prevHash == "" {
        prevHash := h.Genesis(draft.agentID);
      }
      rec := Record(draft.(prevRecordHash := prevHash, effect := effect.Text()), "", rest);
      rec := WithHash(h, rec);
      chainMu := chainMu[draft.agentID := rec.recordHash];
    }

    /** A call that nothing interleaves with takes exactly the two steps of the run model. */
    method Decide(draft: Canonical, rest: Uncommitted, effect: Effect, writeSucceeds: bool) returns (d: Decision)
      modifies this
      ensures forall s: State, call ::
        s.cursor == old(chainMu) && s.wal == old(wal) && call !in s.inFlight && call !in s.returned ==>
        var t := Step(h, Step(h, s, Event.Build(call, draft, rest, effect)), Event.Write(call, writeSucceeds));
        t.cursor == chainMu && t.wal == wal && t.returned == s.returned[call := d] && t.inFlight == s.inFlight
    {
      var rec := Build(draft, rest, effect);
      if !writeSucceeds {
        return Decision(Deny, None);
      }
      wal := wal + [rec];
      return Decision(effect, Some(rec));
    }
  }
}
