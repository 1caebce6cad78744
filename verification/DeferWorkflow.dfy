/** The defer workflow: a suspended call waits on a handle, and of all who try to resolve it the first one wins. */
module DeferWorkflow {
  import opened Basics

  datatype Status = Pending | Approved | Denied | Expired

  /** Modified arguments are given as the text they are re-validated from. */
  datatype Resolution = Resolution(approved: bool, reason: string, status: Status, modifiedArgs: Option<string>)

  const EXPIRED := Resolution(false, "expired", Expired, None)

  /** The two maps behind the lock; H is whatever stands for a handle. */
  datatype Registry<H> = Registry(pending: map<string, H>, resolved: map<string, Resolution>)

  datatype Outcome<H> = Won(handle: H) | Conflict(status: Status) | UnknownToken

  /** The critical section of every resolver: only a pending token can be won. */
  function Finalize<H>(reg: Registry<H>, token: string, res: Resolution): (Registry<H>, Outcome<H>) {
    if token in reg.pending then
      (Registry(reg.pending - {token}, reg.resolved[token := res]), Won(reg.pending[token]))
    else if token in reg.resolved then (reg, Conflict(reg.resolved[token].status))
    else (reg, UnknownToken)
  }

  /** The status of a token, and whether it is still pending; one never seen counts as expired. */
  function StatusOf<H>(reg: Registry<H>, token: string): (Status, bool) {
    if token in reg.pending then (Pending, true)
    else if token in reg.resolved then (reg.resolved[token].status, false)
    else (Expired, false)
  }

  // ---------------------------------------------------------------- the workflow

  class Handle {
    const token: string
    const agentID: string
    const toolID: string
    const reason: string
    /** A channel with room for one resolution. */
    var ch: seq<Resolution>

    constructor (token: string, agentID: string, toolID: string, reason: string)
      ensures this.token == token && this.agentID == agentID && this.toolID == toolID && this.reason == reason
        && ch == []
    {
      this.token, this.agentID, this.toolID, this.reason, ch := token, agentID, toolID, reason, [];
    }

    /** Sends if there is room, and gives up otherwise. */
    method TrySend(res: Resolution) returns (ok: bool)
      modifies this
      ensures ok == (old(ch) == []) && ch == if ok then [res] else old(ch)
    {
      ok := ch == [];
      if ok {
        ch := [res];
      }
    }

    /** Takes the resolution that is there; a caller blocks until there is one. */
    method Wait() returns (res: Resolution, approved: bool)
      requires ch != []
      modifies this
      ensures res == old(ch)[0] && ch == old(ch)[1..] && approved == res.status.Approved?
    {
      res, ch := ch[0], ch[1..];
      approved := res.status.Approved?;
    }
  }

  datatype ResolveError = AlreadyFinalized(token: string, status: Status) | NoSuchToken(token: string)

  class Workflow {
    var pending: map<string, Handle>
    var resolved: map<string, Resolution>

    /** Every pending handle is filed under its own token, and nothing has been sent on it. */
    ghost predicate Valid()
      reads this, pending.Values
    {
      forall token :: token in pending ==> pending[token].token == token && pending[token].ch == []
    }

    function Value(): Registry<Handle>
      reads this
    {
      Registry(pending, resolved)
    }

    constructor ()
      ensures Valid() && Value() == Registry(map[], map[])
    {
      pending, resolved := map[], map[];
    }

    /** A token that is pending keeps its handle; any other one, finalized or not, is opened. */
    method DeferWithToken(token: string, agentID: string, toolID: string, reason: string) returns (h: Handle)
      requires Valid()
      modifies this`pending
      ensures Valid() && h.token == token
      ensures if token in old(pending) then h == old(pending)[token] && pending == old(pending)
        else fresh(h) && h.ch == [] && pending == old(pending)[token := h]
    {
      if token in pending {
        return pending[token];
      }
      h := new Handle(token, agentID, toolID, reason);
      pending := pending[token := h];
    }

    /** The winner's resolution reaches the handle; everybody else changes nothing. */
    method ResolveInternal(token: string, res: Resolution) returns (r: Result<(), ResolveError>)
      requires Valid()
      modifies this, if token in pending then {pending[token]} else {}
      ensures Valid()
      ensures Value() == Finalize(old(Value()), token, res).0
      ensures match Finalize(old(Value()), token, res).1
        case Won(h) => r == Ok(()) && h.ch == [res]
        case Conflict(status) => r == Err(AlreadyFinalized(token, status))
        case UnknownToken => r == Err(NoSuchToken(token))
    {
      if token !in pending {
        if token in resolved {
          return Err(AlreadyFinalized(token, resolved[token].status));
        }
        return Err(NoSuchToken(token));
      }
      var h := pending[token];
      pending := pending - {token};
      resolved := resolved[token := res];
      assert forall t :: t in pending ==> pending[t].token == t != h.token;
      var sent := h.TrySend(res);
      if !sent {
        return Err(AlreadyFinalized(token, res.status));
      }
      return Ok(());
    }

    method Resolve(token: string, approved: bool, reason: string) returns (r: Result<(), ResolveError>)
      requires Valid()
      modifies this, if token in pending then {pending[token]} else {}
      ensures Valid()
      ensures var res := Resolution(approved, reason, if approved then Approved else Denied, None);
        Value() == Finalize(old(Value()), token, res).0 && (r.Ok? <==> token in old(pending))
        && (r.Ok? ==> old(pending)[token].ch == [res])
    {
      var status := Denied;
      if approved {
        status := Approved;
      }
      r := ResolveInternal(token, Resolution(approved, reason, status, None));
    }

    method ResolveWithModifiedArgs(token: string, reason: string, modifiedArgs: string)
      returns (r: Result<(), ResolveError>)
      requires Valid()
      modifies this, if token in pending then {pending[token]} else {}
      ensures Valid()
      ensures var res := Resolution(true, reason, Approved, Some(modifiedArgs));
        Value() == Finalize(old(Value()), token, res).0 && (r.Ok? <==> token in old(pending))
        && (r.Ok? ==> old(pending)[token].ch == [res])
    {
      r := ResolveInternal(token, Resolution(true, reason, Approved, Some(modifiedArgs)));
    }

    method Status(token: string) returns (status: Status, isPending: bool)
      ensures (status, isPending) == StatusOf(Value(), token)
    {
      if token in pending {
        return Pending, true;
      }
      if token in resolved {
        return resolved[token].status, false;
      }
      return Expired, false;
    }
  }

  // ---------------------------------------------------------------- interleavings

  /** A resolver that has won a handle and not sent its resolution yet. */
  datatype Sender = Sender(handle: nat, res: Resolution)

  /**
   Handles are numbered as they are created. For each: its token, what its channel holds, and all that was ever sent
   on it. Each creation starts a timer; the timers that run are told apart by the handles they were started for.
   */
  datatype State = State(
    reg: Registry<nat>, tokens: seq<string>, channels: seq<seq<Resolution>>, sent: seq<seq<Resolution>>,
    senders: seq<Sender>, timers: set<nat>)

  /** A resolver takes two steps, its critical section and its send; anything may happen in between. */
  datatype Event =
    | Defer(token: string)
    | Resolve(token: string, res: Resolution)
    | Expire(handle: nat)
    | Send(j: nat)
    | Receive(handle: nat)

  const START := State(Registry(map[], map[]), [], [], [], [], {})

  function Opened(s: State, token: string): State {
    var h := |s.tokens|;
    s.(reg := s.reg.(pending := s.reg.pending[token := h]),
       tokens := s.tokens + [token], channels := s.channels + [[]], sent := s.sent + [[]],
       timers := s.timers + {h})
  }

  function Resolved(s: State, token: string, res: Resolution): State {
    match Finalize(s.reg, token, res)
    case (reg, Won(h)) => s.(reg := reg, senders := s.senders + [Sender(h, res)])
    case _ => s
  }

  predicate InRange(s: State, h: nat) {
    h < |s.channels| && h < |s.sent|
  }

  function Without(senders: seq<Sender>, j: nat): seq<Sender>
    requires j < |senders|
  {
    senders[..j] + senders[j + 1..]
  }

  /** A full channel drops the resolution. */
  function Delivered(s: State, j: nat): State
    requires j < |s.senders| && InRange(s, s.senders[j].handle)
  {
    var h, res := s.senders[j].handle, s.senders[j].res;
    if s.channels[h] == [] then
      s.(senders := Without(s.senders, j), channels := s.channels[h := [res]], sent := s.sent[h := s.sent[h] + [res]])
    else s.(senders := Without(s.senders, j))
  }

  /** A timer runs once, and resolves whatever handle its token is filed under by then. */
  function Fired(s: State, g: nat): State {
    if g in s.timers && g < |s.tokens| then Resolved(s.(timers := s.timers - {g}), s.tokens[g], EXPIRED) else s
  }

  function Step(s: State, e: Event): State {
    match e
    case Defer(token) => if token in s.reg.pending then s else Opened(s, token)
    case Resolve(token, res) => Resolved(s, token, res)
    case Expire(g) => Fired(s, g)
    case Send(j) => if j < |s.senders| && InRange(s, s.senders[j].handle) then Delivered(s, j) else s
    case Receive(h) =>
      if h < |s.channels| && s.channels[h] != [] then s.(channels := s.channels[h := s.channels[h][1..]]) else s
  }

  function After(s: State, events: seq<Event>): State {
    if events == [] then s else Step(After(s, events[..|events| - 1]), events[|events| - 1])
  }

  function SendersOf(senders: seq<Sender>, h: nat): nat {
    if senders == [] then 0
    else SendersOf(senders[..|senders| - 1], h) + (if senders[|senders| - 1].handle == h then 1 else 0)
  }

  predicate IsPending(s: State, h: nat)
    requires h < |s.tokens|
  {
    s.tokens[h] in s.reg.pending && s.reg.pending[s.tokens[h]] == h
  }

  /** A handle is pending, or won by one sender, or has had its one resolution. */
  predicate HandleOk(s: State, h: nat)
    requires h < |s.tokens| == |s.channels| == |s.sent|
  {
    && (if IsPending(s, h) then 1 else 0) + SendersOf(s.senders, h) + |s.sent[h]| == 1
    && (s.channels[h] == [] || s.channels[h] == s.sent[h])
  }

  /** A token is filed under its newest handle, while it is pending. */
  predicate Newest(s: State) {
    forall k :: 0 <= k < |s.tokens| && s.tokens[k] in s.reg.pending ==> k <= s.reg.pending[s.tokens[k]]
  }

  ghost predicate Inv(s: State) {
    && |s.tokens| == |s.channels| == |s.sent|
    && (forall h :: 0 <= h < |s.tokens| ==> HandleOk(s, h))
    && (forall t :: t in s.reg.pending ==> s.reg.pending[t] < |s.tokens| && s.tokens[s.reg.pending[t]] == t)
    && (forall t :: t in s.reg.pending ==> s.reg.pending[t] in s.timers)
    && (forall g :: g in s.timers ==> g < |s.tokens|)
    && Newest(s)
    && (forall j :: 0 <= j < |s.senders| ==> s.senders[j].handle < |s.tokens|)
  }

  lemma SendersSnoc(senders: seq<Sender>, x: Sender, h: nat)
    ensures SendersOf(senders + [x], h) == SendersOf(senders, h) + (if x.handle == h then 1 else 0)
  {
    assert (senders + [x])[..|senders|] == senders;
  }

  lemma {:induction false} SendersWithout(senders: seq<Sender>, j: nat, h: nat)
    requires j < |senders|
    ensures SendersOf(senders, h) == SendersOf(Without(senders, j), h) + (if senders[j].handle == h then 1 else 0)
  {
    var k := |senders| - 1;
    if j == k {
      assert Without(senders, j) == senders[..k];
    } else {
      SendersWithout(senders[..k], j, h);
      assert Without(senders, j) == Without(senders[..k], j) + [senders[k]];
      SendersSnoc(Without(senders[..k], j), senders[k], h);
    }
  }

  lemma {:induction false} NoSenders(senders: seq<Sender>, h: nat)
    requires forall j :: 0 <= j < |senders| ==> senders[j].handle < h
    ensures SendersOf(senders, h) == 0
  {
    if senders != [] {
      NoSenders(senders[..|senders| - 1], h);
    }
  }

  lemma OpenedInv(s: State, token: string)
    requires Inv(s) && token !in s.reg.pending
    ensures Inv(Opened(s, token))
  {
    var s', n := Opened(s, token), |s.tokens|;
    NoSenders(s.senders, n);
    forall h | 0 <= h < |s'.tokens| ensures HandleOk(s', h) {
      if h < n {
        assert HandleOk(s, h);
        assert s'.tokens[h] == s.tokens[h] && s'.channels[h] == s.channels[h] && s'.sent[h] == s.sent[h];
      }
    }
  }

  lemma ResolvedInv(s: State, token: string, res: Resolution)
    requires |s.tokens| == |s.channels| == |s.sent|
    requires forall h :: 0 <= h < |s.tokens| ==> HandleOk(s, h)
    requires forall t :: t in s.reg.pending ==> s.reg.pending[t] < |s.tokens| && s.tokens[s.reg.pending[t]] == t
    requires forall t :: t in s.reg.pending && t != token ==> s.reg.pending[t] in s.timers
    requires forall g :: g in s.timers ==> g < |s.tokens|
    requires Newest(s)
    requires forall j :: 0 <= j < |s.senders| ==> s.senders[j].handle < |s.tokens|
    ensures Inv(Resolved(s, token, res))
  {
    if token in s.reg.pending {
      var s', won := Resolved(s, token, res), s.reg.pending[token];
      forall h | 0 <= h < |s'.tokens| ensures HandleOk(s', h) {
        assert HandleOk(s, h);
        SendersSnoc(s.senders, Sender(won, res), h);
      }
    }
  }

  lemma DeliveredInv(s: State, j: nat)
    requires Inv(s) && j < |s.senders|
    ensures s.channels[s.senders[j].handle] == []
    ensures Inv(Delivered(s, j))
  {
    var s', won := Delivered(s, j), s.senders[j].handle;
    assert HandleOk(s, won);
    SendersWithout(s.senders, j, won);
    forall h | 0 <= h < |s'.tokens| ensures HandleOk(s', h) {
      assert HandleOk(s, h);
      SendersWithout(s.senders, j, h);
    }
  }

  lemma StepInv(s: State, e: Event)
    requires Inv(s)
    ensures Inv(Step(s, e))
  {
    match e {
      case Defer(token) =>
        if token !in s.reg.pending {
          OpenedInv(s, token);
        }
      case Resolve(token, res) => ResolvedInv(s, token, res);
      case Expire(g) => FiredInv(s, g);
      case Send(j) =>
        if j < |s.senders| {
          DeliveredInv(s, j);
        }
      case Receive(h) => ReceivedInv(s, h);
    }
  }

  lemma FiredInv(s: State, g: nat)
    requires Inv(s)
    ensures Inv(Fired(s, g))
  {
    if g in s.timers {
      var s' := s.(timers := s.timers - {g});
      assert forall h :: 0 <= h < |s.tokens| && HandleOk(s, h) ==> HandleOk(s', h);
      ResolvedInv(s', s.tokens[g], EXPIRED);
    }
  }

  lemma ReceivedInv(s: State, n: nat)
    requires Inv(s)
    ensures Inv(Step(s, Receive(n)))
  {
    var s' := Step(s, Receive(n));
    forall h | 0 <= h < |s'.tokens| ensures HandleOk(s', h) {
      assert HandleOk(s, h);
    }
  }

  lemma {:induction false} AlwaysInv(events: seq<Event>)
    ensures Inv(After(START, events))
  {
    if events != [] {
      AlwaysInv(events[..|events| - 1]);
      StepInv(After(START, events[..|events| - 1]), events[|events| - 1]);
    }
  }

  /** Each handle is pending, or won and about to be told, or told, exactly one of the three; it is never told twice. */
  lemma OneResolutionPerHandle(events: seq<Event>, h: nat)
    requires h < |After(START, events).tokens|
    ensures var s := After(START, events);
      |s.tokens| == |s.sent| && |s.sent[h]| <= 1
      && (IsPending(s, h) ==> s.sent[h] == [] && SendersOf(s.senders, h) == 0)
      && (!IsPending(s, h) && SendersOf(s.senders, h) == 0 ==> |s.sent[h]| == 1)
  {
    AlwaysInv(events);
    assert HandleOk(After(START, events), h);
  }

  /** Whoever is about to send finds room: the branch for a full channel is never taken. */
  lemma ChannelNeverFull(events: seq<Event>, j: nat)
    requires j < |After(START, events).senders|
    ensures var s := After(START, events); InRange(s, s.senders[j].handle) && s.channels[s.senders[j].handle] == []
  {
    AlwaysInv(events);
    DeliveredInv(After(START, events), j);
  }

  /** A token that was never deferred is unknown to all resolvers and counts as expired. */
  lemma {:induction false} NeverDeferredUnknown(events: seq<Event>, token: string, res: Resolution)
    requires Defer(token) !in events
    ensures var s := After(START, events);
      && token !in s.reg.pending && token !in s.reg.resolved && token !in s.tokens
      && StatusOf(s.reg, token) == (Expired, false) && Finalize(s.reg, token, res) == (s.reg, UnknownToken)
  {
    if events != [] {
      var n := |events| - 1;
      var s := After(START, events[..n]);
      NeverDeferredUnknown(events[..n], token, res);
      AlwaysInv(events[..n]);
      assert events[n] in events;
      match events[n] {
        case Expire(g) => assert g in s.timers ==> s.tokens[g] in s.tokens;
        case _ =>
      }
    }
  }

  /** A deferred token is pending until it is won, and its timer leaves it expired and not approved. */
  lemma TimerLeavesExpired(events: seq<Event>, g: nat)
    requires g in After(START, events).timers && g < |After(START, events).tokens|
    requires After(START, events).tokens[g] in After(START, events).reg.pending
    ensures var s := After(START, events);
      var t := After(START, events + [Expire(g)]);
      && StatusOf(s.reg, s.tokens[g]) == (Pending, true) && StatusOf(t.reg, s.tokens[g]) == (Expired, false)
      && s.tokens[g] in t.reg.resolved && !t.reg.resolved[s.tokens[g]].approved
      && t.reg.resolved[s.tokens[g]].modifiedArgs.None?
  {
    AfterSplit(START, events, Expire(g));
  }

  lemma AfterSplit(s: State, first: seq<Event>, e: Event)
    ensures After(s, first + [e]) == Step(After(s, first), e)
  {
    assert (first + [e])[..|first|] == first;
  }

  lemma {:induction false} FinalizedStays(s: State, events: seq<Event>, token: string)
    requires token !in s.reg.pending && token in s.reg.resolved
    requires Defer(token) !in events
    ensures var s' := After(s, events);
      token !in s'.reg.pending && token in s'.reg.resolved && s'.reg.resolved[token] == s.reg.resolved[token]
  {
    if events != [] {
      var n := |events| - 1;
      assert events[n] in events;
      FinalizedStays(s, events[..n], token);
      FinalizedStep(After(s, events[..n]), events[n], token);
    }
  }

  lemma FinalizedStep(s: State, e: Event, token: string)
    requires token !in s.reg.pending && token in s.reg.resolved && e != Defer(token)
    ensures var s' := Step(s, e);
      token !in s'.reg.pending && token in s'.reg.resolved && s'.reg.resolved[token] == s.reg.resolved[token]
  {
  }

  /** What a resolver's critical section, or a timer's, offers to a token. */
  function Offer(s: State, e: Event): Option<(string, Resolution)> {
    match e
    case Resolve(token, res) => Some((token, res))
    case Expire(g) => if g in s.timers && g < |s.tokens| then Some((s.tokens[g], EXPIRED)) else None
    case _ => None
  }

  lemma OfferTaken(s: State, e: Event, token: string, res: Resolution)
    requires Inv(s) && token in s.reg.pending && Offer(s, e) == Some((token, res))
    ensures var s' := Step(s, e);
      s'.reg == Registry(s.reg.pending - {token}, s.reg.resolved[token := res])
      && s'.senders == s.senders + [Sender(s.reg.pending[token], res)] && s'.sent == s.sent && s'.tokens == s.tokens
  {
  }

  /**
   Once a resolver or a timer has won a token, and until the token is deferred again, every resolver, the timers
   included, gets a conflict with the winner's status, and so does everybody who asks for the status.
   */
  lemma LaterResolversConflict(
    before: seq<Event>, first: Event, token: string, res: Resolution, between: seq<Event>, late: Resolution)
    requires token in After(START, before).reg.pending && Defer(token) !in between
    requires Offer(After(START, before), first) == Some((token, res))
    ensures var s := After(After(START, before + [first]), between);
      Finalize(s.reg, token, late) == (s.reg, Conflict(res.status)) && StatusOf(s.reg, token) == (res.status, false)
  {
    AlwaysInv(before);
    AfterSplit(START, before, first);
    OfferTaken(After(START, before), first, token, res);
    FinalizedStays(After(START, before + [first]), between, token);
  }

  /** A handle that one resolution has won: nobody else can be about to send on it, and nothing else was sent. */
  ghost predicate WonBy(s: State, h: nat, res: Resolution) {
    && Inv(s) && h < |s.tokens| && !IsPending(s, h)
    && (forall j :: 0 <= j < |s.senders| && s.senders[j].handle == h ==> s.senders[j].res == res)
    && (s.sent[h] == [] || s.sent[h] == [res])
  }

  lemma WonByResolved(s: State, token: string, resolution: Resolution, h: nat, res: Resolution)
    requires WonBy(s, h, res)
    ensures var s' := Resolved(s, token, resolution);
      s'.tokens == s.tokens && s'.sent == s.sent && !IsPending(s', h)
      && forall j :: 0 <= j < |s'.senders| && s'.senders[j].handle == h ==> s'.senders[j].res == res
  {
  }

  lemma WonByDelivered(s: State, j: nat, h: nat, res: Resolution)
    requires WonBy(s, h, res) && j < |s.senders|
    ensures var s' := Delivered(s, j);
      (forall i :: 0 <= i < |s'.senders| && s'.senders[i].handle == h ==> s'.senders[i].res == res)
      && (s'.sent[h] == [] || s'.sent[h] == [res])
  {
    assert HandleOk(s, h);
    var senders := Without(s.senders, j);
    assert forall i :: 0 <= i < |senders| ==> senders[i] == s.senders[if i < j then i else i + 1];
    SendersWithout(s.senders, j, h);
  }

  lemma WonByStep(s: State, e: Event, h: nat, res: Resolution)
    requires WonBy(s, h, res)
    ensures WonBy(Step(s, e), h, res)
  {
    StepInv(s, e);
    match e {
      case Defer(_) =>
      case Resolve(token, resolution) => WonByResolved(s, token, resolution, h, res);
      case Expire(g) =>
        if g in s.timers {
          var s' := s.(timers := s.timers - {g});
          assert Resolved(s', s.tokens[g], EXPIRED).senders == Resolved(s, s.tokens[g], EXPIRED).senders;
          WonByResolved(s, s.tokens[g], EXPIRED, h, res);
        }
      case Send(j) =>
        if j < |s.senders| {
          WonByDelivered(s, j, h, res);
        }
      case Receive(_) =>
    }
  }

  lemma {:induction false} WonByStays(s: State, events: seq<Event>, h: nat, res: Resolution)
    requires WonBy(s, h, res)
    ensures WonBy(After(s, events), h, res)
  {
    if events != [] {
      WonByStays(s, events[..|events| - 1], h, res);
      WonByStep(After(s, events[..|events| - 1]), events[|events| - 1], h, res);
    }
  }

  lemma NoSender(senders: seq<Sender>, h: nat)
    requires SendersOf(senders, h) == 0
    ensures forall j :: 0 <= j < |senders| ==> senders[j].handle != h
  {
    forall j | 0 <= j < |senders| ensures senders[j].handle != h {
      SendersWithout(senders, j, h);
    }
  }

  lemma WinTakesHandle(s: State, e: Event, token: string, res: Resolution)
    requires Inv(s) && token in s.reg.pending && Offer(s, e) == Some((token, res))
    ensures WonBy(Step(s, e), s.reg.pending[token], res)
  {
    var h := s.reg.pending[token];
    StepInv(s, e);
    OfferTaken(s, e, token, res);
    assert HandleOk(s, h);
    NoSender(s.senders, h);
  }

  /** The first resolver wins: from then on, whatever happens, only its resolution can reach the handle. */
  lemma FirstResolverWins(before: seq<Event>, first: Event, token: string, res: Resolution, after: seq<Event>)
    requires token in After(START, before).reg.pending && Offer(After(START, before), first) == Some((token, res))
    ensures var h, s := After(START, before).reg.pending[token], After(After(START, before + [first]), after);
      WonBy(s, h, res) && (SendersOf(s.senders, h) == 0 ==> s.sent[h] == [res])
  {
    AlwaysInv(before);
    WinTakesHandle(After(START, before), first, token, res);
    AfterSplit(START, before, first);
    var h := After(START, before).reg.pending[token];
    WonByStays(After(START, before + [first]), after, h, res);
    assert HandleOk(After(After(START, before + [first]), after), h);
  }

  // ---------------------------------------------------------------- timers

  /** The timer of handle g, firing now, wins handle h. */
  predicate Expires(s: State, g: nat, h: nat) {
    Fired(s, g).senders == s.senders + [Sender(h, EXPIRED)]
  }

  lemma ExpiresIff(s: State, g: nat, h: nat)
    requires Inv(s)
    ensures Expires(s, g, h) <==> g in s.timers && s.tokens[g] in s.reg.pending && s.reg.pending[s.tokens[g]] == h
  {
    if g in s.timers && s.tokens[g] in s.reg.pending {
      var won := Sender(s.reg.pending[s.tokens[g]], EXPIRED);
      assert (s.senders + [won])[|s.senders|] == won;
    } else {
      assert |s.senders + [Sender(h, EXPIRED)]| == |s.senders| + 1;
    }
  }

  /** Whenever a token is pending, the timer of its handle is running and would expire it. */
  lemma PendingHasTimer(events: seq<Event>, token: string)
    requires token in After(START, events).reg.pending
    ensures var s := After(START, events); var h := s.reg.pending[token];
      h in s.timers && Expires(s, h, h) && StatusOf(Fired(s, h).reg, token) == (Expired, false)
  {
    AlwaysInv(events);
    var s := After(START, events);
    ExpiresIff(s, s.reg.pending[token], s.reg.pending[token]);
  }

  /**
   A timer knows only its token. Firing while the token is pending, it expires the handle that the token is filed under,
   its own or a later one: its own if and only if that is still the one.
   */
  lemma TimerExpiresFiled(events: seq<Event>, g: nat)
    requires var s := After(START, events); g in s.timers && g < |s.tokens| && s.tokens[g] in s.reg.pending
    ensures var s := After(START, events); var h := s.reg.pending[s.tokens[g]];
      Expires(s, g, h) && g <= h && (Expires(s, g, g) <==> h == g)
  {
    AlwaysInv(events);
    var s := After(START, events);
    ExpiresIff(s, g, s.reg.pending[s.tokens[g]]);
    ExpiresIff(s, g, g);
  }

  /** Tokens of handles do not change, and no timer starts again. */
  lemma {:induction false} OldTimers(s: State, events: seq<Event>, g: nat)
    requires g < |s.tokens|
    ensures var s' := After(s, events);
      g < |s'.tokens| && s'.tokens[g] == s.tokens[g] && (g in s'.timers ==> g in s.timers)
  {
    if events != [] {
      OldTimers(s, events[..|events| - 1], g);
    }
  }

  lemma {:induction false} InvStays(s: State, events: seq<Event>)
    requires Inv(s)
    ensures Inv(After(s, events))
  {
    if events != [] {
      InvStays(s, events[..|events| - 1]);
      StepInv(After(s, events[..|events| - 1]), events[|events| - 1]);
    }
  }

  /** The timer of another handle expires h before its time: the timer of h is left running. */
  predicate ExpiresEarly(s: State, g: nat, h: nat) {
    g != h && Expires(s, g, h) && h in Fired(s, g).timers
  }

  /** Some continuation lets that happen. */
  ghost predicate ExpirableByOther(s: State, h: nat) {
    exists events: seq<Event>, g: nat :: ExpiresEarly(After(s, events), g, h)
  }

  predicate TimerRunsFor(s: State, token: string) {
    exists g :: g in s.timers && g < |s.tokens| && s.tokens[g] == token
  }

  lemma OtherIsStale(s: State, token: string, events: seq<Event>, g: nat)
    requires Inv(s) && token !in s.reg.pending
    requires g != |s.tokens| && Expires(After(Opened(s, token), events), g, |s.tokens|)
    ensures g in s.timers && s.tokens[g] == token
  {
    var h, s0 := |s.tokens|, Opened(s, token);
    var s1 := After(s0, events);
    OpenedInv(s, token);
    InvStays(s0, events);
    ExpiresIff(s1, g, h);
    assert g <= h;
    OldTimers(s0, events, g);
    OldTimers(s0, events, h);
  }

  /**
   A handle that a deferral opens can be expired early, by the timer of another handle, if and only if a timer for its
   token was still running when it was opened.
   */
  lemma StaleTimerIff(before: seq<Event>, token: string)
    requires token !in After(START, before).reg.pending
    ensures var s := After(START, before);
      ExpirableByOther(Step(s, Defer(token)), |s.tokens|) <==> TimerRunsFor(s, token)
  {
    AlwaysInv(before);
    var s := After(START, before);
    var h, s0 := |s.tokens|, Opened(s, token);
    if TimerRunsFor(s, token) {
      var g :| g in s.timers && g < |s.tokens| && s.tokens[g] == token;
      OpenedInv(s, token);
      ExpiresIff(s0, g, h);
      assert ExpiresEarly(After(s0, []), g, h);
    }
    if ExpirableByOther(s0, h) {
      var events: seq<Event>, g: nat :| ExpiresEarly(After(s0, events), g, h);
      OtherIsStale(s, token, events, g);
    }
  }

  /** Deferring a finalized token opens it again, on a new handle, and the old outcome is no longer reported. */
  lemma FinalizedTokenReopens(s: State, token: string)
    requires token !in s.reg.pending && token in s.reg.resolved
    ensures var s' := Step(s, Defer(token));
      StatusOf(s'.reg, token) == (Pending, true) && s'.reg.pending[token] == |s.tokens|
        && s'.reg.resolved == s.reg.resolved
  {
  }

  lemma AfterOne(s: State, e: Event)
    ensures After(s, [e]) == Step(s, e)
  {
    AfterSplit(s, [], e);
    assert [] + [e] == [e];
  }

  lemma AfterTwo(s: State, e: Event, f: Event)
    ensures After(s, [e] + [f]) == Step(Step(s, e), f)
  {
    AfterOne(s, e);
    AfterSplit(s, [e], f);
  }

  lemma ReopenedState(token: string, res: Resolution) returns (s: State)
    ensures s == Step(Step(START, Defer(token)), Resolve(token, res))
    ensures s.reg.pending == map[] && s.tokens == [token] && s.senders == [Sender(0, res)] && s.timers == {0}
  {
    s := Step(Step(START, Defer(token)), Resolve(token, res));
    assert Step(START, Defer(token)).reg.pending == map[token := 0];
  }

  lemma ReopenedExpires(s: State, token: string)
    requires s.reg.pending == map[] && s.tokens == [token] && s.timers == {0}
    ensures var s' := Step(Step(s, Defer(token)), Expire(0));
      s'.senders == s.senders + [Sender(1, EXPIRED)] && s'.timers == {1} && s'.reg.pending == map[]
  {
    assert Step(s, Defer(token)) == Opened(s, token);
  }

  /**
   So it is with a token resolved and deferred again: the first handle's timer expires the second, whose own runs on.
   */
  lemma StaleTimerExpiresReopened(token: string, res: Resolution)
    ensures var s := After(START, [Defer(token)] + [Resolve(token, res)] + [Defer(token)] + [Expire(0)]);
      s.senders == [Sender(0, res), Sender(1, EXPIRED)] && s.timers == {1} && s.reg.pending == map[]
  {
    var finalized := [Defer(token)] + [Resolve(token, res)];
    AfterTwo(START, Defer(token), Resolve(token, res));
    AfterSplit(START, finalized, Defer(token));
    AfterSplit(START, finalized + [Defer(token)], Expire(0));
    var s2 := ReopenedState(token, res);
    ReopenedExpires(s2, token);
  }
}
