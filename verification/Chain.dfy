/** Validated replay of the record log: one hash chain per agent, from a genesis marker. */
module Chain {
  import opened Basics
  import opened Record

  datatype ChainError = MissingAgent | MissingHash | HashMismatch | BrokenChain | BadGenesis

  /** The check of one record against the last accepted hash of each agent. */
  function Validate(h: Hashing, rec: Record, last: map<string, string>): Option<ChainError> {
    var agent := rec.canon.agentID;
    if agent == "" then Some(MissingAgent)
    else if rec.recordHash == "" then Some(MissingHash)
    else if rec.recordHash != h.Of(rec.canon) then Some(HashMismatch)
    else if agent in last then
      if rec.canon.prevRecordHash != last[agent] then Some(BrokenChain) else None
    else if rec.canon.prevRecordHash != h.Genesis(agent) then Some(BadGenesis)
    else None
  }

  /** The hash table of the replay loop after a log. */
  function LastHashes(log: seq<Record>): map<string, string> {
    if log == [] then map[]
    else
      var rec := log[|log| - 1];
      LastHashes(log[..|log| - 1])[rec.canon.agentID := rec.recordHash]
  }

  predicate Accepts(h: Hashing, log: seq<Record>) {
    log == [] ||
    (&& Accepts(h, log[..|log| - 1])
     && Validate(h, log[|log| - 1], LastHashes(log[..|log| - 1])).None?)
  }

  lemma {:induction false} AcceptsPrefix(h: Hashing, log: seq<Record>, k: nat)
    requires k <= |log| && Accepts(h, log)
    ensures Accepts(h, log[..k])
  {
    if k == |log| {
      assert log[..k] == log;
    } else {
      AcceptsPrefix(h, log[..|log| - 1], k);
      assert log[..|log| - 1][..k] == log[..k];
    }
  }

  lemma AcceptsNext(h: Hashing, log: seq<Record>, rec: Record)
    ensures Accepts(h, log + [rec]) <==> Accepts(h, log) && Validate(h, rec, LastHashes(log)).None?
    ensures LastHashes(log + [rec]) == LastHashes(log)[rec.canon.agentID := rec.recordHash]
  {
    assert (log + [rec])[..|log|] == log;
  }

  lemma AcceptsOnlyIfNext(h: Hashing, log: seq<Record>, seen: seq<Record>, rec: Record)
    requires seen + [rec] <= log
    ensures Accepts(h, log) ==> Validate(h, rec, LastHashes(seen)).None?
  {
    AcceptsNext(h, seen, rec);
    if Accepts(h, log) {
      AcceptsPrefix(h, log, |seen| + 1);
      assert log[..|seen| + 1] == seen + [rec];
    }
  }

  // ---------------------------------------------------------------- one agent's chain

  /** The records of one agent, in log order. */
  function Of(log: seq<Record>, agent: string): seq<Record> {
    if log == [] then []
    else
      var rec := log[|log| - 1];
      Of(log[..|log| - 1], agent) + (if rec.canon.agentID == agent then [rec] else [])
  }

  /** What the log of an agent links to next. */
  function Tip(h: Hashing, agent: string, rs: seq<Record>): string {
    if rs == [] then h.Genesis(agent) else rs[|rs| - 1].recordHash
  }

  /** A chain from the genesis marker in which every record carries its own hash. */
  ghost predicate Chained(h: Hashing, agent: string, rs: seq<Record>) {
    forall i :: 0 <= i < |rs| ==>
      && rs[i].recordHash == h.Of(rs[i].canon)
      && rs[i].canon.prevRecordHash == Tip(h, agent, rs[..i])
  }

  lemma ChainedSnoc(h: Hashing, agent: string, rs: seq<Record>, r: Record)
    ensures Chained(h, agent, rs + [r]) <==>
      && Chained(h, agent, rs)
      && r.recordHash == h.Of(r.canon)
      && r.canon.prevRecordHash == Tip(h, agent, rs)
  {
    var all := rs + [r];
    assert forall i :: 0 <= i <= |rs| ==> all[..i] == rs[..i];
    assert rs[..|rs|] == rs;
    if Chained(h, agent, all) {
      assert forall i :: 0 <= i < |rs| ==> rs[i] == all[i];
      assert all[|rs|] == r;
    }
  }

  lemma ChainedPrefix(h: Hashing, agent: string, rs: seq<Record>, k: nat)
    requires k <= |rs| && Chained(h, agent, rs)
    ensures Chained(h, agent, rs[..k])
  {
    assert forall i :: 0 <= i < k ==> rs[..k][..i] == rs[..i];
  }

  lemma {:induction false} LastHashIsTip(log: seq<Record>, agent: string)
    ensures agent in LastHashes(log) <==> Of(log, agent) != []
    ensures agent in LastHashes(log) ==> LastHashes(log)[agent] == Of(log, agent)[|Of(log, agent)| - 1].recordHash
  {
    if log != [] {
      LastHashIsTip(log[..|log| - 1], agent);
    }
  }

  lemma OfOther(log: seq<Record>, rec: Record, agent: string)
    ensures Of(log + [rec], agent) == if rec.canon.agentID == agent then Of(log, agent) + [rec] else Of(log, agent)
  {
    var all := log + [rec];
    assert all[..|all| - 1] == log;
    assert Of(log, agent) + [] == Of(log, agent);
  }

  ghost predicate WellFormed(h: Hashing, log: seq<Record>) {
    && Named(log)
    && forall agent :: Chained(h, agent, Of(log, agent))
  }

  lemma ValidateIsLink(h: Hashing, log: seq<Record>, rec: Record)
    ensures Validate(h, rec, LastHashes(log)).None? <==>
      && rec.canon.agentID != "" && rec.recordHash == h.Of(rec.canon)
      && rec.canon.prevRecordHash == Tip(h, rec.canon.agentID, Of(log, rec.canon.agentID))
  {
    LastHashIsTip(log, rec.canon.agentID);
  }

  predicate Hashes(h: Hashing, rec: Record) {
    rec.canon.agentID != "" && rec.recordHash == h.Of(rec.canon)
  }

  predicate Links(h: Hashing, log: seq<Record>, rec: Record) {
    rec.canon.prevRecordHash == Tip(h, rec.canon.agentID, Of(log, rec.canon.agentID))
  }

  /** A record that fails is told why: its agent, its hash, or its link, to a genesis marker or to a record. */
  lemma ValidateTellsWhy(h: Hashing, log: seq<Record>, rec: Record)
    ensures var why, agent, hash := Validate(h, rec, LastHashes(log)), rec.canon.agentID, rec.recordHash;
      && (why == Some(MissingAgent) <==> agent == "")
      && (why == Some(MissingHash) <==> agent != "" && hash == "")
      && (why == Some(HashMismatch) <==> agent != "" && hash != "" && hash != h.Of(rec.canon))
      && (why == Some(BadGenesis) <==> Hashes(h, rec) && Of(log, agent) == [] && !Links(h, log, rec))
      && (why == Some(BrokenChain) <==> Hashes(h, rec) && Of(log, agent) != [] && !Links(h, log, rec))
  {
    LastHashIsTip(log, rec.canon.agentID);
  }

  lemma OtherChainsKept(h: Hashing, log: seq<Record>, rec: Record, agent: string)
    ensures Chained(h, agent, Of(log + [rec], agent)) <==>
      && Chained(h, agent, Of(log, agent))
      && (rec.canon.agentID == agent ==>
            rec.recordHash == h.Of(rec.canon) && rec.canon.prevRecordHash == Tip(h, agent, Of(log, agent)))
  {
    OfOther(log, rec, agent);
    ChainedSnoc(h, agent, Of(log, agent), rec);
  }

  /** One more record keeps every agent's chain exactly when the replay accepts it. */
  lemma WellFormedSnoc(h: Hashing, log: seq<Record>, rec: Record)
    ensures WellFormed(h, log + [rec]) <==> WellFormed(h, log) && Validate(h, rec, LastHashes(log)).None?
  {
    var all := log + [rec];
    ValidateIsLink(h, log, rec);
    forall a
      ensures Chained(h, a, Of(all, a)) <==>
        && Chained(h, a, Of(log, a))
        && (rec.canon.agentID == a ==>
              rec.recordHash == h.Of(rec.canon) && rec.canon.prevRecordHash == Tip(h, a, Of(log, a)))
    {
      OtherChainsKept(h, log, rec, a);
    }
    NamedSnoc(log, rec);
    if WellFormed(h, all) {
      forall a
        ensures Chained(h, a, Of(log, a))
      {
        assert Chained(h, a, Of(all, a));
      }
      assert Chained(h, rec.canon.agentID, Of(all, rec.canon.agentID));
    }
    if WellFormed(h, log) && Validate(h, rec, LastHashes(log)).None? {
      forall a
        ensures Chained(h, a, Of(all, a))
      {
        assert Chained(h, a, Of(log, a));
      }
    }
  }

  predicate Named(log: seq<Record>) {
    forall i :: 0 <= i < |log| ==> log[i].canon.agentID != ""
  }

  lemma NamedSnoc(log: seq<Record>, rec: Record)
    ensures Named(log + [rec]) <==> Named(log) && rec.canon.agentID != ""
  {
    var all := log + [rec];
    assert all[|log|] == rec && forall i :: 0 <= i < |log| ==> all[i] == log[i];
  }

  /** Validated replay accepts exactly the logs in which every agent has a chain from its genesis marker. */
  lemma {:induction false} AcceptsIffChained(h: Hashing, log: seq<Record>)
    ensures Accepts(h, log) <==> WellFormed(h, log)
  {
    if log != [] {
      AcceptsIffChained(h, log[..|log| - 1]);
      WellFormedSnoc(h, log[..|log| - 1], log[|log| - 1]);
      assert log == log[..|log| - 1] + [log[|log| - 1]];
    }
  }

  lemma AcceptedChain(h: Hashing, log: seq<Record>, agent: string)
    requires Accepts(h, log)
    ensures Chained(h, agent, Of(log, agent))
    ensures agent in LastHashes(log) ==> LastHashes(log)[agent] == Tip(h, agent, Of(log, agent))
  {
    AcceptsIffChained(h, log);
    LastHashIsTip(log, agent);
  }

  // ---------------------------------------------------------------- tamper evidence

  function Canons(rs: seq<Record>): seq<Canonical> {
    if rs == [] then [] else Canons(rs[..|rs| - 1]) + [rs[|rs| - 1].canon]
  }

  /** Collision-freeness of SHA-256, between the canonical forms of the records of two chains only. */
  ghost predicate NoRecordClash(h: Hashing, xs: seq<Record>, ys: seq<Record>) {
    forall x, y :: x in xs && y in ys && h.sha(h.json(x.canon)) == h.sha(h.json(y.canon)) ==> x.canon == y.canon
  }

  /** No record of the chain collides with the text behind its agent's genesis marker. */
  ghost predicate NoGenesisClash(h: Hashing, agent: string, rs: seq<Record>) {
    forall r :: r in rs ==> h.sha(h.json(r.canon)) != h.sha(h.text("faramesh/dpr/genesis/v1" + ":" + agent))
  }

  /** Two chains of one agent that reach the same hash are the same history, field by canonical field. */
  lemma {:induction false} TipDeterminesChain(h: Hashing, agent: string, xs: seq<Record>, ys: seq<Record>)
    requires Chained(h, agent, xs) && Chained(h, agent, ys)
    requires NoRecordClash(h, xs, ys) && NoGenesisClash(h, agent, xs) && NoGenesisClash(h, agent, ys)
    requires Tip(h, agent, xs) == Tip(h, agent, ys)
    ensures Canons(xs) == Canons(ys)
  {
    if xs != [] {
      GenesisCoversAgent(h, xs[|xs| - 1].canon, agent);
    }
    if ys != [] {
      GenesisCoversAgent(h, ys[|ys| - 1].canon, agent);
    }
    if xs != [] && ys != [] {
      var x, y := xs[|xs| - 1], ys[|ys| - 1];
      HashCoversForm(h, x.canon, y.canon);
      assert x in xs && y in ys;
      assert x.canon == y.canon;
      ChainedPrefix(h, agent, xs, |xs| - 1);
      ChainedPrefix(h, agent, ys, |ys| - 1);
      TipDeterminesChain(h, agent, xs[..|xs| - 1], ys[..|ys| - 1]);
    }
  }

  /** Two logs end in the same hash for an agent, or neither has a record of it. */
  predicate SameTip(a: seq<Record>, b: seq<Record>, agent: string) {
    && (agent in LastHashes(a) <==> agent in LastHashes(b))
    && (agent in LastHashes(a) && agent in LastHashes(b) ==> LastHashes(a)[agent] == LastHashes(b)[agent])
  }

  lemma {:induction false} CanonsLength(rs: seq<Record>)
    ensures |Canons(rs)| == |rs|
  {
    if rs != [] {
      CanonsLength(rs[..|rs| - 1]);
    }
  }

  lemma {:induction false} CanonAt(rs: seq<Record>, i: nat)
    requires i < |rs|
    ensures |Canons(rs)| == |rs| && Canons(rs)[i] == rs[i].canon
  {
    CanonsLength(rs);
    CanonsLength(rs[..|rs| - 1]);
    if i < |rs| - 1 {
      CanonAt(rs[..|rs| - 1], i);
    }
  }

  lemma CanonsFixTip(h: Hashing, agent: string, xs: seq<Record>, ys: seq<Record>)
    requires Chained(h, agent, xs) && Chained(h, agent, ys) && Canons(xs) == Canons(ys)
    ensures |xs| == |ys| && Tip(h, agent, xs) == Tip(h, agent, ys)
  {
    CanonsLength(xs);
    CanonsLength(ys);
    if xs != [] {
      CanonAt(xs, |xs| - 1);
      CanonAt(ys, |ys| - 1);
    }
  }

  /**
   Tamper evidence: two logs that both pass validated replay end in the same hash for an agent if and only if they
   hold the same records of that agent, in the same order, up to the fields the hash covers.
   */
  lemma TamperEvident(h: Hashing, a: seq<Record>, b: seq<Record>, agent: string)
    requires Accepts(h, a) && Accepts(h, b)
    requires NoRecordClash(h, Of(a, agent), Of(b, agent))
    requires NoGenesisClash(h, agent, Of(a, agent)) && NoGenesisClash(h, agent, Of(b, agent))
    ensures SameTip(a, b, agent) <==> Canons(Of(a, agent)) == Canons(Of(b, agent))
  {
    AcceptedChain(h, a, agent);
    AcceptedChain(h, b, agent);
    LastHashIsTip(a, agent);
    LastHashIsTip(b, agent);
    if SameTip(a, b, agent) {
      TipDeterminesChain(h, agent, Of(a, agent), Of(b, agent));
    }
    if Canons(Of(a, agent)) == Canons(Of(b, agent)) {
      CanonsFixTip(h, agent, Of(a, agent), Of(b, agent));
    }
  }

  /**
   A shorter history is pinned too: if one log's last hash for an agent appears anywhere in the other log, the
   first log's records of that agent are exactly those up to that point.
   */
  lemma TamperEvidentPrefix(h: Hashing, a: seq<Record>, b: seq<Record>, agent: string, k: nat)
    requires Accepts(h, a) && Accepts(h, b)
    requires agent in LastHashes(a) && k < |Of(b, agent)| && LastHashes(a)[agent] == Of(b, agent)[k].recordHash
    requires NoRecordClash(h, Of(a, agent), Of(b, agent))
    requires NoGenesisClash(h, agent, Of(a, agent)) && NoGenesisClash(h, agent, Of(b, agent))
    ensures Canons(Of(a, agent)) == Canons(Of(b, agent)[..k + 1])
    ensures |Of(a, agent)| == k + 1
  {
    AcceptedChain(h, a, agent);
    AcceptedChain(h, b, agent);
    var upTo := Of(b, agent)[..k + 1];
    ChainedPrefix(h, agent, Of(b, agent), k + 1);
    assert forall r :: r in upTo ==> r in Of(b, agent);
    TipDeterminesChain(h, agent, Of(a, agent), upTo);
    CanonsLength(Of(a, agent));
    CanonsLength(upTo);
  }

  /** Every record names an agent and carries its own hash. */
  predicate Hashed(h: Hashing, log: seq<Record>) {
    forall i :: 0 <= i < |log| ==> log[i].canon.agentID != "" && log[i].recordHash == h.Of(log[i].canon)
  }

  lemma {:induction false} AcceptedIsHashed(h: Hashing, log: seq<Record>)
    requires Accepts(h, log)
    ensures Hashed(h, log)
  {
    if log != [] {
      AcceptedIsHashed(h, log[..|log| - 1]);
    }
  }

  /** A log in which the canonical form of one record was rewritten, whichever field of it, does not pass. */
  lemma RewrittenRecordRejected(h: Hashing, log: seq<Record>, i: nat, c: Canonical)
    requires Accepts(h, log) && i < |log|
    requires h.sha(h.json(c)) != h.sha(h.json(log[i].canon))
    ensures !Accepts(h, log[i := log[i].(canon := c)])
  {
    var forged := log[i := log[i].(canon := c)];
    AcceptedIsHashed(h, log);
    HashCoversForm(h, c, log[i].canon);
    assert forged[i].recordHash == log[i].recordHash && forged[i].canon == c;
    if Accepts(h, forged) {
      AcceptedIsHashed(h, forged);
    }
  }

  // ---------------------------------------------------------------- what tamper evidence leaves open

  /** The logs agree in everything that replay looks at. */
  predicate SameCommitted(a: seq<Record>, b: seq<Record>) {
    |a| == |b| && forall i :: 0 <= i < |a| ==> a[i].canon == b[i].canon && a[i].recordHash == b[i].recordHash
  }

  /** The fields beside the canonical form can be rewritten, in any records, without replay noticing. */
  lemma {:induction false} UncommittedIsFree(h: Hashing, a: seq<Record>, b: seq<Record>)
    requires SameCommitted(a, b)
    ensures Accepts(h, a) <==> Accepts(h, b)
    ensures LastHashes(a) == LastHashes(b)
  {
    if a != [] {
      var k := |a| - 1;
      UncommittedIsFree(h, a[..k], b[..k]);
    }
  }

  lemma ChainedAgain(h: Hashing, agent: string, xs: seq<Record>, ys: seq<Record>)
    requires Chained(h, agent, xs) && Canons(xs) == Canons(ys)
    requires forall i :: 0 <= i < |ys| ==> ys[i].recordHash == h.Of(ys[i].canon)
    ensures Chained(h, agent, ys)
  {
    CanonsLength(xs);
    CanonsLength(ys);
    forall i | 0 <= i < |ys| ensures ys[i].canon.prevRecordHash == Tip(h, agent, ys[..i]) {
      CanonAt(xs, i);
      CanonAt(ys, i);
      if i > 0 {
        CanonAt(xs, i - 1);
        CanonAt(ys, i - 1);
        assert xs[..i][i - 1] == xs[i - 1] && ys[..i][i - 1] == ys[i - 1];
      }
    }
  }

  lemma {:induction false} OfKeepsHashes(h: Hashing, log: seq<Record>, agent: string)
    requires Hashed(h, log)
    ensures forall i :: 0 <= i < |Of(log, agent)| ==> Of(log, agent)[i].recordHash == h.Of(Of(log, agent)[i].canon)
  {
    if log != [] {
      OfKeepsHashes(h, log[..|log| - 1], agent);
    }
  }

  ghost predicate NoClashes(h: Hashing, a: seq<Record>, b: seq<Record>) {
    forall agent ::
      && NoRecordClash(h, Of(a, agent), Of(b, agent))
      && NoGenesisClash(h, agent, Of(a, agent)) && NoGenesisClash(h, agent, Of(b, agent))
  }

  /** The canonical records of each agent are the same in both logs, in the same order. */
  ghost predicate SameHistories(a: seq<Record>, b: seq<Record>) {
    forall agent :: Canons(Of(a, agent)) == Canons(Of(b, agent))
  }

  ghost predicate SameTips(a: seq<Record>, b: seq<Record>) {
    forall agent :: SameTip(a, b, agent)
  }

  /**
   The exact limit of tamper evidence: beside an accepted log, another one passes validated replay with the same last
   hashes if and only if it holds the same canonical records of each agent, with their hashes. Only the uncommitted
   fields and the interleaving of different agents are free.
   */
  lemma ForgeryLimit(h: Hashing, a: seq<Record>, b: seq<Record>)
    requires Accepts(h, a) && NoClashes(h, a, b)
    ensures Accepts(h, b) && SameTips(a, b) <==> Hashed(h, b) && SameHistories(a, b)
  {
    if Accepts(h, b) && SameTips(a, b) {
      AcceptedIsHashed(h, b);
      forall agent ensures Canons(Of(a, agent)) == Canons(Of(b, agent)) {
        assert SameTip(a, b, agent);
        TamperEvident(h, a, b, agent);
      }
    }
    if Hashed(h, b) && SameHistories(a, b) {
      SameHistoriesAccepted(h, a, b);
      forall agent ensures SameTip(a, b, agent) {
        TamperEvident(h, a, b, agent);
      }
    }
  }

  lemma SameHistoriesAccepted(h: Hashing, a: seq<Record>, b: seq<Record>)
    requires Accepts(h, a) && Hashed(h, b) && SameHistories(a, b)
    ensures Accepts(h, b)
  {
    AcceptsIffChained(h, b);
    forall agent ensures Chained(h, agent, Of(b, agent)) {
      AcceptedChain(h, a, agent);
      OfKeepsHashes(h, b, agent);
      ChainedAgain(h, agent, Of(a, agent), Of(b, agent));
    }
  }
}
