/** Budgets of agents within an aggregate: allocation, cost accounting, and cancellation of whoever goes over. */
module Budget {
  import opened Basics

  datatype AgentBudget = AgentBudget(max: real, spent: real, reserved: real, cancelled: bool)

  type Agents = map<string, AgentBudget>

  /** What the exceedance callback is told. */
  datatype Notice = Notice(agentID: string, spent: real, limit: real)

  datatype BudgetError = AlreadyAllocated | OverAggregate | NoAllocation | AgentCancelled | OverAgent

  // ---------------------------------------------------------------- sums over all agents

  ghost function Pick(m: Agents): (id: string)
    requires m != map[]
    ensures id in m
  {
    var id :| id in m;
    id
  }

  ghost function Total(m: Agents, amount: AgentBudget -> real): real {
    if m == map[] then 0.0
    else
      var id := Pick(m);
      amount(m[id]) + Total(m - {id}, amount)
  }

  lemma {:induction false} TotalSplit(m: Agents, id: string, amount: AgentBudget -> real)
    requires id in m
    ensures Total(m, amount) == amount(m[id]) + Total(m - {id}, amount)
    decreases |m|
  {
    var j := Pick(m);
    if j != id {
      TotalSplit(m - {j}, id, amount);
      TotalSplit(m - {id}, j, amount);
      assert m - {j} - {id} == m - {id} - {j};
    }
  }

  lemma TotalUpdate(m: Agents, id: string, ab: AgentBudget, amount: AgentBudget -> real)
    ensures Total(m[id := ab], amount) == Total(m, amount) + amount(ab) - (if id in m then amount(m[id]) else 0.0)
  {
    TotalSplit(m[id := ab], id, amount);
    assert m[id := ab] - {id} == m - {id};
    if id in m {
      TotalSplit(m, id, amount);
    } else {
      assert m - {id} == m;
    }
  }

  lemma {:induction false} TotalSame(m: Agents, n: Agents, amount: AgentBudget -> real)
    requires m.Keys == n.Keys && forall id :: id in m ==> amount(m[id]) == amount(n[id])
    ensures Total(m, amount) == Total(n, amount)
    decreases |m|
  {
    if m == map[] {
      assert n == map[];
    } else {
      var id := Pick(m);
      assert id in n;
      TotalSplit(n, id, amount);
      TotalSame(m - {id}, n - {id}, amount);
    }
  }

  lemma {:induction false} TotalAtMost(m: Agents, amount: AgentBudget -> real, bound: AgentBudget -> real)
    requires forall id :: id in m ==> amount(m[id]) <= bound(m[id])
    ensures Total(m, amount) <= Total(m, bound)
    decreases |m|
  {
    if m != map[] {
      var id := Pick(m);
      TotalAtMost(m - {id}, amount, bound);
    }
  }

  function Spent(): AgentBudget -> real {
    (ab: AgentBudget) => ab.spent
  }

  function Max(): AgentBudget -> real {
    (ab: AgentBudget) => ab.max
  }

  // ---------------------------------------------------------------- the operations on values

  datatype Book = Book(aggregateMax: real, aggregateSpent: real, agents: Agents)

  ghost function Allocated(b: Book, id: string, max: real): (Book, Result<(), BudgetError>) {
    if id in b.agents then (b, Err(AlreadyAllocated))
    else if Total(b.agents, Max()) + max > b.aggregateMax then (b, Err(OverAggregate))
    else (b.(agents := b.agents[id := AgentBudget(max, 0.0, 0.0, false)]), Ok(()))
  }

  function AllCancelled(agents: Agents): Agents {
    map id | id in agents :: agents[id].(cancelled := true)
  }

  function Uncancelled(agents: Agents): set<string> {
    set id | id in agents && !agents[id].cancelled
  }

  function Charged(b: Book, id: string, cost: real): Book
    requires id in b.agents
  {
    b.(aggregateSpent := b.aggregateSpent + cost,
       agents := b.agents[id := b.agents[id].(spent := b.agents[id].spent + cost)])
  }

  /** A charge is booked first and judged afterwards; over the aggregate, everyone is cancelled. */
  function Recorded(b: Book, id: string, cost: real): (Book, bool, Result<(), BudgetError>) {
    if id !in b.agents then (b, false, Err(NoAllocation))
    else if b.agents[id].cancelled then (b, true, Err(AgentCancelled))
    else
      var c := Charged(b, id, cost);
      if c.aggregateSpent > c.aggregateMax then (c.(agents := AllCancelled(c.agents)), true, Ok(()))
      else if c.agents[id].spent > c.agents[id].max then
        (c.(agents := c.agents[id := c.agents[id].(cancelled := true)]), true, Ok(()))
      else (c, false, Ok(()))
  }

  function Reserved(b: Book, id: string, cost: real): (Book, Result<(), BudgetError>) {
    if id !in b.agents then (b, Err(NoAllocation))
    else
      var ab := b.agents[id];
      if ab.cancelled then (b, Err(AgentCancelled))
      else if ab.spent + ab.reserved + cost > ab.max then (b, Err(OverAgent))
      else if b.aggregateSpent + cost > b.aggregateMax then (b, Err(OverAggregate))
      else (b.(agents := b.agents[id := ab.(reserved := ab.reserved + cost)]), Ok(()))
  }

  // ---------------------------------------------------------------- the manager

  lemma AllButNone(start: Agents, agents: Agents)
    requires CancelledBut(start, agents, {})
    ensures agents == AllCancelled(start) && Uncancelled(start) - {} == Uncancelled(start)
  {
  }

  /** All agents but the given ones are cancelled, and nothing else is changed. */
  ghost predicate CancelledBut(start: Agents, agents: Agents, rest: set<string>) {
    && agents.Keys == start.Keys
    && forall id :: id in start ==> agents[id] == if id in rest then start[id] else start[id].(cancelled := true)
  }

  lemma CancelOne(start: Agents, agents: Agents, rest: set<string>, id: string)
    requires CancelledBut(start, agents, rest) && id in rest && rest <= start.Keys
    ensures agents[id] == start[id]
    ensures CancelledBut(start, agents[id := start[id].(cancelled := true)], rest - {id})
    ensures start[id].cancelled ==> CancelledBut(start, agents, rest - {id})
    ensures Uncancelled(start) - (rest - {id})
      == if start[id].cancelled then Uncancelled(start) - rest else Uncancelled(start) - rest + {id}
  {
  }

  class BudgetManager {
    const aggregateMax: real
    var aggregateSpent: real
    var agents: Agents
    var hasCallback: bool

    constructor (aggregateMax: real)
      ensures Value() == Book(aggregateMax, 0.0, map[]) && !hasCallback
    {
      this.aggregateMax, aggregateSpent, agents, hasCallback := aggregateMax, 0.0, map[], false;
    }

    function Value(): Book
      reads this
    {
      Book(aggregateMax, aggregateSpent, agents)
    }

    method OnExceed()
      modifies this`hasCallback
      ensures hasCallback
    {
      hasCallback := true;
    }

    /** The allocations added up in whatever order the agents come up. */
    method SumAllocations() returns (total: real)
      ensures total == Total(agents, Max())
    {
      total := 0.0;
      var rest := agents;
      while rest != map[]
        invariant total + Total(rest, Max()) == Total(agents, Max())
        decreases |rest|
      {
        var a :| a in rest;
        TotalSplit(rest, a, Max());
        total := total + rest[a].max;
        rest := rest - {a};
      }
    }

    method AllocateAgent(id: string, max: real) returns (r: Result<(), BudgetError>)
      modifies this`agents
      ensures (Value(), r) == Allocated(old(Value()), id, max)
    {
      if id in agents {
        return Err(AlreadyAllocated);
      }
      var totalAllocated := SumAllocations();
      if totalAllocated + max > aggregateMax {
        return Err(OverAggregate);
      }
      agents := agents[id := AgentBudget(max, 0.0, 0.0, false)];
      return Ok(());
    }

    /** Whoever was not cancelled is cancelled, and told about exactly once, in whatever order the agents come up. */
    method CancelAll() returns (notices: seq<Notice>)
      modifies this`agents
      ensures agents == AllCancelled(old(agents))
      ensures hasCallback ==> Told(notices, Uncancelled(old(agents)), aggregateSpent, aggregateMax)
      ensures !hasCallback ==> notices == []
    {
      notices := [];
      ghost var start := agents;
      assert Uncancelled(start) - agents.Keys == {};
      var rest := agents.Keys;
      while rest != {}
        invariant rest <= start.Keys && CancelledBut(start, agents, rest)
        invariant
          if hasCallback then Told(notices, Uncancelled(start) - rest, aggregateSpent, aggregateMax) else notices == []
        decreases |rest|
      {
        var id :| id in rest;
        CancelOne(start, agents, rest, id);
        if !agents[id].cancelled {
          agents := agents[id := agents[id].(cancelled := true)];
          if hasCallback {
            ToldSnoc(notices, Uncancelled(start) - rest, id, aggregateSpent, aggregateMax);
            notices := notices + [Notice(id, aggregateSpent, aggregateMax)];
          }
        }
        rest := rest - {id};
      }
      AllButNone(start, agents);
    }

    method RecordCost(id: string, cost: real) returns (cancel: bool, r: Result<(), BudgetError>, notices: seq<Notice>)
      modifies this`agents, this`aggregateSpent
      ensures (Value(), cancel, r) == Recorded(old(Value()), id, cost)
      ensures !hasCallback || r.Err? || !cancel ==> notices == []
      ensures hasCallback && r.Ok? && cancel ==>
        if aggregateSpent > aggregateMax
        then Told(notices, Uncancelled(old(agents)), aggregateSpent, aggregateMax)
        else notices == [Notice(id, agents[id].spent, agents[id].max)]
    {
      notices := [];
      if id !in agents {
        return false, Err(NoAllocation), notices;
      }
      var ab := agents[id];
      if ab.cancelled {
        return true, Err(AgentCancelled), notices;
      }
      agents := agents[id := ab.(spent := ab.spent + cost)];
      aggregateSpent := aggregateSpent + cost;
      var shouldCancel := agents[id].spent > agents[id].max;
      if aggregateSpent > aggregateMax {
        ghost var charged := agents;
        notices := CancelAll();
        assert Uncancelled(charged) == Uncancelled(old(agents));
        return true, Ok(()), notices;
      }
      if shouldCancel {
        agents := agents[id := agents[id].(cancelled := true)];
        if hasCallback {
          notices := [Notice(id, agents[id].spent, agents[id].max)];
        }
      }
      return shouldCancel, Ok(()), notices;
    }

    method Reserve(id: string, cost: real) returns (r: Result<(), BudgetError>)
      modifies this`agents
      ensures (Value(), r) == Reserved(old(Value()), id, cost)
    {
      if id !in agents {
        return Err(NoAllocation);
      }
      var ab := agents[id];
      if ab.cancelled {
        return Err(AgentCancelled);
      }
      if ab.spent + ab.reserved + cost > ab.max {
        return Err(OverAgent);
      }
      if aggregateSpent + cost > aggregateMax {
        return Err(OverAggregate);
      }
      agents := agents[id := ab.(reserved := ab.reserved + cost)];
      return Ok(());
    }
  }

  /** Each of the given agents is told once, and nobody else. */
  ghost predicate Told(notices: seq<Notice>, ids: set<string>, spent: real, limit: real) {
    && |notices| == |ids|
    && (forall n :: n in notices ==> n.agentID in ids && n.spent == spent && n.limit == limit)
    && (forall id :: id in ids ==> Notice(id, spent, limit) in notices)
  }

  lemma ToldSnoc(notices: seq<Notice>, ids: set<string>, id: string, spent: real, limit: real)
    requires Told(notices, ids, spent, limit) && id !in ids
    ensures Told(notices + [Notice(id, spent, limit)], ids + {id}, spent, limit)
  {
    var more := notices + [Notice(id, spent, limit)];
    assert more[|notices|] == Notice(id, spent, limit);
    forall i | i in ids ensures Notice(i, spent, limit) in more {
      assert Notice(i, spent, limit) in notices;
    }
  }

  // ---------------------------------------------------------------- whole runs

  datatype Event = Allocate(id: string, max: real) | Cost(id: string, amount: real) | Reserve(id: string, amount: real)

  predicate NonNegative(e: Event) {
    match e
    case Allocate(_, max) => max >= 0.0
    case Cost(_, amount) => amount >= 0.0
    case Reserve(_, amount) => amount >= 0.0
  }

  ghost function Step(b: Book, e: Event): Book {
    match e
    case Allocate(id, max) => Allocated(b, id, max).0
    case Cost(id, amount) => Recorded(b, id, amount).0
    case Reserve(id, amount) => Reserved(b, id, amount).0
  }

  ghost function After(aggregateMax: real, run: seq<Event>): Book {
    if run == [] then Book(aggregateMax, 0.0, map[]) else Step(After(aggregateMax, run[..|run| - 1]), run[|run| - 1])
  }

  /** The last amount charged to an agent, nothing if none was. */
  ghost function LastCharge(aggregateMax: real, run: seq<Event>, id: string): real {
    if run == [] then 0.0
    else
      var e, before := run[|run| - 1], run[..|run| - 1];
      if e.Cost? && e.id == id && Recorded(After(aggregateMax, before), id, e.amount).2.Ok? then e.amount
      else LastCharge(aggregateMax, before, id)
  }

  /** The aggregate is the sum of what the agents spent, and the allocations fit in it. */
  ghost predicate Balanced(b: Book) {
    && b.aggregateSpent == Total(b.agents, Spent())
    && (b.agents != map[] ==> Total(b.agents, Max()) <= b.aggregateMax)
  }

  ghost predicate AgentOk(b: Book, ab: AgentBudget) {
    && ab.max >= 0.0 && 0.0 <= ab.spent <= b.aggregateSpent && 0.0 <= ab.reserved <= ab.max
    && (ab.spent > ab.max ==> ab.cancelled)
    && (ab.cancelled ==> ab.spent > ab.max || b.aggregateSpent > b.aggregateMax)
    && (b.aggregateSpent > b.aggregateMax ==> ab.cancelled || ab.spent == 0.0)
  }

  ghost predicate AgentsOk(b: Book) {
    forall id :: id in b.agents ==> AgentOk(b, b.agents[id])
  }

  lemma ChargedBalanced(b: Book, id: string, cost: real)
    requires Balanced(b) && id in b.agents
    ensures Balanced(Charged(b, id, cost))
  {
    var ab := b.agents[id].(spent := b.agents[id].spent + cost);
    TotalUpdate(b.agents, id, ab, Spent());
    TotalUpdate(b.agents, id, ab, Max());
  }

  lemma SameAmounts(b: Book, c: Book)
    requires Balanced(b) && c.aggregateMax == b.aggregateMax && c.aggregateSpent == b.aggregateSpent
    requires c.agents.Keys == b.agents.Keys
    requires forall id :: id in b.agents ==>
      c.agents[id].spent == b.agents[id].spent && c.agents[id].max == b.agents[id].max
    ensures Balanced(c)
  {
    TotalSame(b.agents, c.agents, Spent());
    TotalSame(b.agents, c.agents, Max());
    if b.agents == map[] {
      assert c.agents.Keys == {};
    }
  }

  lemma RecordedBalanced(b: Book, id: string, cost: real)
    requires Balanced(b)
    ensures Balanced(Recorded(b, id, cost).0)
  {
    if id in b.agents && !b.agents[id].cancelled {
      ChargedBalanced(b, id, cost);
      SameAmounts(Charged(b, id, cost), Recorded(b, id, cost).0);
    }
  }

  lemma AllocatedBalanced(b: Book, id: string, max: real)
    requires Balanced(b)
    ensures Balanced(Allocated(b, id, max).0)
  {
    TotalUpdate(b.agents, id, AgentBudget(max, 0.0, 0.0, false), Spent());
    TotalUpdate(b.agents, id, AgentBudget(max, 0.0, 0.0, false), Max());
  }

  /** Money is conserved and never over-allocated, whatever the amounts. */
  lemma {:induction false} AlwaysBalanced(aggregateMax: real, run: seq<Event>)
    ensures Balanced(After(aggregateMax, run))
  {
    if run != [] {
      var b := After(aggregateMax, run[..|run| - 1]);
      AlwaysBalanced(aggregateMax, run[..|run| - 1]);
      match run[|run| - 1] {
        case Allocate(id, max) => AllocatedBalanced(b, id, max);
        case Cost(id, amount) => RecordedBalanced(b, id, amount);
        case Reserve(id, amount) => SameAmounts(b, Reserved(b, id, amount).0);
      }
    }
  }

  lemma StepKeepsAgents(b: Book, e: Event)
    requires AgentsOk(b) && b.aggregateSpent >= 0.0 && NonNegative(e)
    ensures AgentsOk(Step(b, e)) && Step(b, e).aggregateSpent >= 0.0
  {
  }

  lemma {:induction false} AlwaysAgentsOk(aggregateMax: real, run: seq<Event>)
    requires forall i :: 0 <= i < |run| ==> NonNegative(run[i])
    ensures AgentsOk(After(aggregateMax, run)) && After(aggregateMax, run).aggregateSpent >= 0.0
  {
    if run != [] {
      AlwaysAgentsOk(aggregateMax, run[..|run| - 1]);
      StepKeepsAgents(After(aggregateMax, run[..|run| - 1]), run[|run| - 1]);
    }
  }

  /** An agent that spent anything is cancelled if and only if it, or the aggregate, went over. */
  lemma CancelledIffOver(aggregateMax: real, run: seq<Event>, id: string)
    requires forall i :: 0 <= i < |run| ==> NonNegative(run[i])
    requires id in After(aggregateMax, run).agents && After(aggregateMax, run).agents[id].spent > 0.0
    ensures var b := After(aggregateMax, run);
      b.agents[id].cancelled <==> b.agents[id].spent > b.agents[id].max || b.aggregateSpent > aggregateMax
  {
    AlwaysAgentsOk(aggregateMax, run);
    MaxIsFixed(aggregateMax, run);
  }

  /** Since the allocations fit, the aggregate is exceeded only where some agent has exceeded its own budget. */
  lemma OverAggregateMeansAgentOver(aggregateMax: real, run: seq<Event>)
    requires After(aggregateMax, run).agents != map[] && After(aggregateMax, run).aggregateSpent > aggregateMax
    ensures var agents := After(aggregateMax, run).agents;
      exists id :: id in agents && agents[id].spent > agents[id].max
  {
    var b := After(aggregateMax, run);
    AlwaysBalanced(aggregateMax, run);
    MaxIsFixed(aggregateMax, run);
    if forall id :: id in b.agents ==> b.agents[id].spent <= b.agents[id].max {
      TotalAtMost(b.agents, Spent(), Max());
    }
  }

  lemma {:induction false} MaxIsFixed(aggregateMax: real, run: seq<Event>)
    ensures After(aggregateMax, run).aggregateMax == aggregateMax
  {
    if run != [] {
      MaxIsFixed(aggregateMax, run[..|run| - 1]);
    }
  }

  /** No agent exceeds its own budget by more than its last charge. */
  lemma {:induction false} OverrunIsLastCharge(aggregateMax: real, run: seq<Event>, id: string)
    requires (forall i :: 0 <= i < |run| ==> NonNegative(run[i])) && id in After(aggregateMax, run).agents
    ensures After(aggregateMax, run).agents[id].spent - LastCharge(aggregateMax, run, id)
      <= After(aggregateMax, run).agents[id].max
  {
    var e, before := run[|run| - 1], run[..|run| - 1];
    var b := After(aggregateMax, before);
    AlwaysAgentsOk(aggregateMax, before);
    if id in b.agents {
      OverrunIsLastCharge(aggregateMax, before, id);
    } else {
      NeverCharged(aggregateMax, before, id);
    }
  }

  lemma {:induction false} NeverCharged(aggregateMax: real, run: seq<Event>, id: string)
    requires id !in After(aggregateMax, run).agents
    ensures LastCharge(aggregateMax, run, id) == 0.0
  {
    if run != [] {
      NeverCharged(aggregateMax, run[..|run| - 1], id);
    }
  }

  // ---------------------------------------------------------------- what is booked

  /** A charge is booked for an agent that was allocated and is not cancelled. */
  predicate Books(b: Book, e: Event, id: string) {
    e.Cost? && e.id == id && id in b.agents && !b.agents[id].cancelled
  }

  /** A reservation is granted to such an agent if it fits in what the agent and the aggregate have left. */
  predicate Grants(b: Book, e: Event, id: string) {
    e.Reserve? && e.id == id && id in b.agents && !b.agents[id].cancelled
    && b.agents[id].spent + b.agents[id].reserved + e.amount <= b.agents[id].max
    && b.aggregateSpent + e.amount <= b.aggregateMax
  }

  ghost function Sum(
    aggregateMax: real, run: seq<Event>, id: string, counts: (Book, Event, string) -> bool): real {
    if run == [] then 0.0
    else
      var e, before := run[|run| - 1], run[..|run| - 1];
      Sum(aggregateMax, before, id, counts)
      + (if counts(After(aggregateMax, before), e, id) then Amount(e) else 0.0)
  }

  function Amount(e: Event): real {
    match e
    case Allocate(_, max) => max
    case Cost(_, amount) => amount
    case Reserve(_, amount) => amount
  }

  /** Over every run an agent has spent exactly its booked charges, and holds exactly its granted reservations. */
  lemma {:induction false} BooksAddUp(aggregateMax: real, run: seq<Event>, id: string)
    ensures var b := After(aggregateMax, run);
      var spent, reserved := Sum(aggregateMax, run, id, Books), Sum(aggregateMax, run, id, Grants);
      if id in b.agents then b.agents[id].spent == spent && b.agents[id].reserved == reserved
      else spent == 0.0 && reserved == 0.0
  {
    if run != [] {
      BooksAddUp(aggregateMax, run[..|run| - 1], id);
    }
  }

  /**
   A caller is told to cancel an agent if and only if the agent is cancelled by then; and whatever is refused is refused
   for its own reason.
   */
  lemma AnswersTell(b: Book, id: string, amount: real)
    ensures Recorded(b, id, amount).1 <==>
      id in Recorded(b, id, amount).0.agents && Recorded(b, id, amount).0.agents[id].cancelled
    ensures var charged, reserved := Recorded(b, id, amount).2, Reserved(b, id, amount).1;
      && (charged == Err(NoAllocation) <==> id !in b.agents) && (reserved == Err(NoAllocation) <==> id !in b.agents)
      && (charged == Err(AgentCancelled) <==> id in b.agents && b.agents[id].cancelled)
      && (reserved == Err(AgentCancelled) <==> id in b.agents && b.agents[id].cancelled)
      && (reserved == Err(OverAggregate) ==> b.aggregateSpent + amount > b.aggregateMax)
      && (reserved == Err(OverAgent) ==>
            b.agents[id].spent + b.agents[id].reserved + amount > b.agents[id].max)
    ensures Allocated(b, id, amount).1 == Err(AlreadyAllocated) <==> id in b.agents
    ensures Allocated(b, id, amount).1.Err? && id !in b.agents ==> Allocated(b, id, amount).1 == Err(OverAggregate)
  {
  }

  /** An agent is allocated if and only if it is new and all allocations, its own included, fit in the aggregate. */
  lemma AllocatedIff(b: Book, id: string, max: real)
    ensures var agents := b.agents[id := AgentBudget(max, 0.0, 0.0, false)];
      && (Allocated(b, id, max).1.Ok? <==> id !in b.agents && Total(agents, Max()) <= b.aggregateMax)
      && Allocated(b, id, max).0 == if Allocated(b, id, max).1.Ok? then b.(agents := agents) else b
  {
    TotalUpdate(b.agents, id, AgentBudget(max, 0.0, 0.0, false), Max());
  }

  /** What was spent and is reserved fits in the budget whenever a reservation is granted. */
  lemma GrantFits(b: Book, id: string, amount: real)
    ensures Reserved(b, id, amount).1.Ok? <==> Grants(b, Reserve(id, amount), id)
    ensures Reserved(b, id, amount).1.Ok? ==>
      var c := Reserved(b, id, amount).0;
      c.agents[id].spent + c.agents[id].reserved <= c.agents[id].max
      && c == b.(agents := b.agents[id := b.agents[id].(reserved := c.agents[id].reserved)])
    ensures Reserved(b, id, amount).1.Err? ==> Reserved(b, id, amount).0 == b
  {
  }

  // ---------------------------------------------------------------- how far the aggregate is overrun

  /** The last charge that was booked. */
  ghost function LastPaid(aggregateMax: real, run: seq<Event>): Option<Event> {
    if run == [] then None
    else
      var e, before := run[|run| - 1], run[..|run| - 1];
      if e.Cost? && Recorded(After(aggregateMax, before), e.id, e.amount).2.Ok? then Some(e)
      else LastPaid(aggregateMax, before)
  }

  /** The agent was allocated when the aggregate had been exceeded already. */
  ghost predicate Late(aggregateMax: real, run: seq<Event>, id: string) {
    run != [] &&
    (var e, before := run[|run| - 1], run[..|run| - 1];
     var b := After(aggregateMax, before);
     || Late(aggregateMax, before, id)
     || (e.Allocate? && e.id == id && Allocated(b, id, e.max).1.Ok? && b.aggregateSpent > aggregateMax))
  }

  ghost predicate NonNegativeRun(run: seq<Event>) {
    forall i :: 0 <= i < |run| ==> NonNegative(run[i])
  }

  lemma StepGrows(b: Book, e: Event)
    requires NonNegative(e)
    ensures Step(b, e).aggregateSpent >= b.aggregateSpent && b.agents.Keys <= Step(b, e).agents.Keys
    ensures Step(b, e).aggregateMax == b.aggregateMax
  {
  }

  lemma {:induction false} LateIsOver(aggregateMax: real, run: seq<Event>, id: string)
    requires NonNegativeRun(run) && Late(aggregateMax, run, id)
    ensures After(aggregateMax, run).aggregateSpent > aggregateMax && id in After(aggregateMax, run).agents
  {
    var e, before := run[|run| - 1], run[..|run| - 1];
    StepGrows(After(aggregateMax, before), e);
    if Late(aggregateMax, before, id) {
      LateIsOver(aggregateMax, before, id);
    }
  }

  /** Past the aggregate only late agents can still spend. */
  lemma {:induction false} OpenIsLate(aggregateMax: real, run: seq<Event>, id: string)
    requires NonNegativeRun(run)
    requires var b := After(aggregateMax, run);
      id in b.agents && !b.agents[id].cancelled && b.aggregateSpent > aggregateMax
    ensures Late(aggregateMax, run, id)
  {
    if run != [] {
      var e, before := run[|run| - 1], run[..|run| - 1];
      var b := After(aggregateMax, before);
      MaxIsFixed(aggregateMax, before);
      OpenBefore(b, e, id);
      if id in b.agents {
        OpenIsLate(aggregateMax, before, id);
      }
    }
  }

  /** An agent open past the aggregate was so before the step, or has just been allocated past the aggregate. */
  lemma OpenBefore(b: Book, e: Event, id: string)
    requires var c := Step(b, e); id in c.agents && !c.agents[id].cancelled && c.aggregateSpent > c.aggregateMax
    ensures b.aggregateSpent > b.aggregateMax
    ensures if id in b.agents then !b.agents[id].cancelled
      else e.Allocate? && e.id == id && Allocated(b, id, e.max).1.Ok?
  {
  }

  lemma {:induction false} PaidIsKnown(aggregateMax: real, run: seq<Event>)
    requires NonNegativeRun(run) && LastPaid(aggregateMax, run).Some?
    ensures LastPaid(aggregateMax, run).value.Cost?
    ensures LastPaid(aggregateMax, run).value.id in After(aggregateMax, run).agents
  {
    var e, before := run[|run| - 1], run[..|run| - 1];
    StepGrows(After(aggregateMax, before), e);
    if LastPaid(aggregateMax, run) == LastPaid(aggregateMax, before) && LastPaid(aggregateMax, before).Some? {
      PaidIsKnown(aggregateMax, before);
    }
  }

  predicate Overruns(b: Book, amount: real) {
    b.aggregateSpent - b.aggregateMax > amount
  }

  /** A charge just booked is overrun exactly when the aggregate was exceeded before it. */
  lemma PaidNow(b: Book, id: string, amount: real)
    requires Recorded(b, id, amount).2.Ok?
    ensures Overruns(Recorded(b, id, amount).0, amount) <==> b.aggregateSpent > b.aggregateMax
    ensures id in b.agents && !b.agents[id].cancelled
  {
  }

  /**
   The aggregate is overrun by more than the last charge if and only if that charge went to an agent that was allocated
   when the aggregate had been exceeded already.
   */
  lemma {:induction false} AggregateOverrunIff(aggregateMax: real, run: seq<Event>)
    requires NonNegativeRun(run) && LastPaid(aggregateMax, run).Some?
    ensures LastPaid(aggregateMax, run).value.Cost?
    ensures var paid := LastPaid(aggregateMax, run).value;
      Overruns(After(aggregateMax, run), paid.amount) <==> Late(aggregateMax, run, paid.id)
  {
    var e, before := run[|run| - 1], run[..|run| - 1];
    var b := After(aggregateMax, before);
    PaidIsKnown(aggregateMax, run);
    MaxIsFixed(aggregateMax, before);
    if e.Cost? && Recorded(b, e.id, e.amount).2.Ok? {
      PaidNow(b, e.id, e.amount);
      if b.aggregateSpent > aggregateMax {
        OpenIsLate(aggregateMax, before, e.id);
      } else if Late(aggregateMax, before, e.id) {
        LateIsOver(aggregateMax, before, e.id);
      }
    } else {
      AggregateOverrunIff(aggregateMax, before);
      PaidIsKnown(aggregateMax, before);
    }
  }

  lemma RunNext(aggregateMax: real, run: seq<Event>, e: Event)
    ensures After(aggregateMax, run + [e]) == Step(After(aggregateMax, run), e)
  {
    assert (run + [e])[..|run|] == run;
  }

  /** Such an agent's charge is booked whole, whatever it is. */
  lemma LateChargeIsBooked(aggregateMax: real, run: seq<Event>, id: string, max: real, amount: real)
    requires var b := After(aggregateMax, run); Allocated(b, id, max).1.Ok? && b.aggregateSpent > aggregateMax
    ensures After(aggregateMax, (run + [Allocate(id, max)]) + [Cost(id, amount)]).aggregateSpent
      == After(aggregateMax, run).aggregateSpent + amount
    ensures Late(aggregateMax, run + [Allocate(id, max)], id)
  {
    RunNext(aggregateMax, run, Allocate(id, max));
    RunNext(aggregateMax, run + [Allocate(id, max)], Cost(id, amount));
    assert (run + [Allocate(id, max)])[..|run|] == run;
  }
}
