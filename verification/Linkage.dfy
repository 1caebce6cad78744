/** Links between the records of agents that invoke one another, and the chain of links that hangs from a record. */
module Linkage {
  datatype Link = Link(outerAgent: string, outer: string, innerAgent: string, inner: string, session: string)

  // ---------------------------------------------------------------- reachability

  predicate Leads(links: seq<Link>, a: string, b: string) {
    exists l :: l in links && l.outer == a && l.inner == b
  }

  predicate IsPath(links: seq<Link>, p: seq<string>) {
    p != [] && forall i :: 0 <= i < |p| - 1 ==> Leads(links, p[i], p[i + 1])
  }

  /** Some path of links, perhaps the empty one, goes from one record to another. */
  ghost predicate Reachable(links: seq<Link>, a: string, b: string) {
    exists p :: IsPath(links, p) && p[0] == a && p[|p| - 1] == b
  }

  lemma ReachesItself(links: seq<Link>, a: string)
    ensures Reachable(links, a, a)
  {
    assert IsPath(links, [a]) && [a][0] == a;
  }

  lemma ReachesFrom(links: seq<Link>, l: Link, b: string)
    requires l in links && Reachable(links, l.inner, b)
    ensures Reachable(links, l.outer, b)
  {
    var p :| IsPath(links, p) && p[0] == l.inner && p[|p| - 1] == b;
    var q := [l.outer] + p;
    assert Leads(links, l.outer, l.inner);
    assert forall i :: 0 < i < |q| ==> q[i] == p[i - 1];
    assert IsPath(links, q);
  }

  ghost predicate ClosedUnder(links: seq<Link>, nodes: set<string>) {
    forall l :: l in links && l.outer in nodes ==> l.inner in nodes
  }

  lemma {:induction false} ClosedHoldsPath(links: seq<Link>, nodes: set<string>, p: seq<string>)
    requires ClosedUnder(links, nodes) && IsPath(links, p) && p[0] in nodes
    ensures p[|p| - 1] in nodes
  {
    if |p| > 1 {
      assert Leads(links, p[0], p[0 + 1]);
      var l :| l in links && l.outer == p[0] && l.inner == p[1];
      assert IsPath(links, p[1..]) by {
        assert forall i :: 0 <= i < |p| - 1 ==> p[1..][i] == p[i + 1];
      }
      ClosedHoldsPath(links, nodes, p[1..]);
    }
  }

  // ---------------------------------------------------------------- the search

  function Inners(links: seq<Link>): set<string> {
    set l | l in links :: l.inner
  }

  /** Depth first: the links met from a record on, and the records visited then. */
  function Collect(links: seq<Link>, id: string, visited: set<string>): (r: (seq<Link>, set<string>))
    ensures visited <= r.1 && id in r.1
    decreases |Inners(links) + {id} - visited|, 0
  {
    if id in visited then ([], visited)
    else
      Shrinks(Inners(links), id, visited);
      Scan(links, id, 0, visited + {id})
  }

  /** The search through the links from the i-th on, of which those out of the given record are followed. */
  function Scan(links: seq<Link>, id: string, i: nat, visited: set<string>): (r: (seq<Link>, set<string>))
    requires i <= |links|
    ensures visited <= r.1
    decreases |Inners(links) - visited|, 1 + |links| - i
  {
    if i == |links| then ([], visited)
    else if links[i].outer != id then Scan(links, id, i + 1, visited)
    else
      assert Inners(links) + {links[i].inner} == Inners(links);
      var below := Collect(links, links[i].inner, visited);
      Fewer(Inners(links), visited, below.1);
      var rest := Scan(links, id, i + 1, below.1);
      ([links[i]] + below.0 + rest.0, rest.1)
  }

  lemma Shrinks(inners: set<string>, id: string, visited: set<string>)
    requires id !in visited
    ensures |inners - (visited + {id})| < |inners + {id} - visited|
  {
    SmallerSet(inners - (visited + {id}), inners + {id} - visited - {id});
    assert inners + {id} - visited == (inners + {id} - visited - {id}) + {id};
  }

  lemma Fewer(inners: set<string>, visited: set<string>, more: set<string>)
    requires visited <= more
    ensures |inners - more| <= |inners - visited|
  {
    SmallerSet(inners - more, inners - visited);
  }

  lemma {:induction false} SmallerSet(a: set<string>, b: set<string>)
    requires a <= b
    ensures |a| <= |b|
    decreases a
  {
    if a != {} {
      var x :| x in a;
      SmallerSet(a - {x}, b - {x});
    }
  }

  /** One search, carried through its recursive calls: the chain so far and the records visited. */
  class Walk {
    var chain: seq<Link>
    var visited: set<string>

    constructor ()
      ensures chain == [] && visited == {}
    {
      chain, visited := [], {};
    }

    method CollectChain(links: seq<Link>, id: string)
      modifies this
      ensures chain == old(chain) + Collect(links, id, old(visited)).0
      ensures visited == Collect(links, id, old(visited)).1
      decreases |Inners(links) + {id} - visited|
    {
      if id in visited {
        assert chain + [] == chain;
        return;
      }
      Shrinks(Inners(links), id, visited);
      visited := visited + {id};
      ghost var all := Scan(links, id, 0, visited);
      ghost var done: seq<Link> := [];
      assert [] + all.0 == all.0 && old(chain) + [] == old(chain);
      for i := 0 to |links|
        invariant |Inners(links) - visited| < |Inners(links) + {id} - old(visited)|
        invariant chain == old(chain) + done
        invariant all.0 == done + Scan(links, id, i, visited).0
        invariant all.1 == Scan(links, id, i, visited).1
      {
        if links[i].outer == id {
          var link := links[i];
          assert Inners(links) + {link.inner} == Inners(links);
          ghost var below := Collect(links, link.inner, visited);
          Fewer(Inners(links), visited, below.1);
          Regroup(done, [link], below.0, Scan(links, id, i + 1, below.1).0);
          Regroup(old(chain), done, [link], below.0);
          chain := chain + [link];
          CollectChain(links, link.inner);
          done := done + ([link] + below.0);
        }
      }
      assert done + [] == done;
    }
  }

  lemma Regroup<T>(a: seq<T>, b: seq<T>, c: seq<T>, d: seq<T>)
    ensures a + (b + c + d) == (a + (b + c)) + d
    ensures ((a + b) + c) + d == a + (b + (c + d))
  {
  }

  // ---------------------------------------------------------------- what the search finds

  /** The links out of a set of records, each as often as it was recorded. */
  ghost function Taken(links: seq<Link>, nodes: set<string>): multiset<Link> {
    if links == [] then multiset{}
    else (if links[0].outer in nodes then multiset{links[0]} else multiset{}) + Taken(links[1..], nodes)
  }

  lemma {:induction false} TakenUnion(links: seq<Link>, a: set<string>, b: set<string>)
    requires a !! b
    ensures Taken(links, a + b) == Taken(links, a) + Taken(links, b)
  {
    if links != [] {
      TakenUnion(links[1..], a, b);
    }
  }

  lemma {:induction false} TakenCounts(links: seq<Link>, nodes: set<string>, l: Link)
    ensures Taken(links, nodes)[l] == if l.outer in nodes then multiset(links)[l] else 0
  {
    if links != [] {
      TakenCounts(links[1..], nodes, l);
      assert links == [links[0]] + links[1..];
    }
  }

  lemma TakenAcross(links: seq<Link>, visited: set<string>, mid: set<string>, last: set<string>)
    requires visited <= mid <= last
    ensures Taken(links, last - visited) == Taken(links, mid - visited) + Taken(links, last - mid)
  {
    assert last - visited == (mid - visited) + (last - mid);
    TakenUnion(links, mid - visited, last - mid);
  }

  lemma {:induction false} CollectTakes(links: seq<Link>, id: string, visited: set<string>)
    ensures var r := Collect(links, id, visited); multiset(r.0) == Taken(links, r.1 - visited)
    decreases |Inners(links) + {id} - visited|, 0
  {
    var r := Collect(links, id, visited);
    if id in visited {
      assert r.1 - visited == {};
      TakenNone(links);
    } else {
      Shrinks(Inners(links), id, visited);
      ScanTakes(links, id, 0, visited + {id});
      assert links[0..] == links;
      assert (visited + {id}) - visited == {id};
      TakenAcross(links, visited, visited + {id}, r.1);
    }
  }

  lemma {:induction false} TakenNone(links: seq<Link>)
    ensures Taken(links, {}) == multiset{}
  {
    if links != [] {
      TakenNone(links[1..]);
    }
  }

  lemma {:induction false} ScanTakes(links: seq<Link>, id: string, i: nat, visited: set<string>)
    requires i <= |links| && id in visited
    ensures var r := Scan(links, id, i, visited);
      multiset(r.0) == Taken(links[i..], {id}) + Taken(links, r.1 - visited)
    decreases |Inners(links) - visited|, 1 + |links| - i
  {
    var r := Scan(links, id, i, visited);
    if i == |links| {
      assert r.1 - visited == {};
      TakenNone(links);
    } else {
      assert links[i..][1..] == links[i + 1..];
      if links[i].outer != id {
        ScanTakes(links, id, i + 1, visited);
      } else {
        assert Inners(links) + {links[i].inner} == Inners(links);
        var below := Collect(links, links[i].inner, visited);
        CollectTakes(links, links[i].inner, visited);
        Fewer(Inners(links), visited, below.1);
        ScanTakes(links, id, i + 1, below.1);
        TakenAcross(links, visited, below.1, r.1);
      }
    }
  }

  /** Every link out of a newly visited record leads to a visited one. */
  ghost predicate Closes(links: seq<Link>, visited: set<string>, after: set<string>) {
    forall l :: l in links && l.outer in after - visited ==> l.inner in after
  }

  lemma {:induction false} CollectCloses(links: seq<Link>, id: string, visited: set<string>)
    ensures Closes(links, visited, Collect(links, id, visited).1)
    decreases |Inners(links) + {id} - visited|, 0
  {
    if id !in visited {
      Shrinks(Inners(links), id, visited);
      ScanCloses(links, id, 0, visited + {id});
      assert links[0..] == links;
    }
  }

  lemma {:induction false} ScanCloses(links: seq<Link>, id: string, i: nat, visited: set<string>)
    requires i <= |links| && id in visited
    ensures var after := Scan(links, id, i, visited).1;
      Closes(links, visited, after) && forall l :: l in links[i..] && l.outer == id ==> l.inner in after
    decreases |Inners(links) - visited|, 1 + |links| - i
  {
    if i < |links| {
      assert links[i..] == [links[i]] + links[i + 1..];
      if links[i].outer != id {
        ScanCloses(links, id, i + 1, visited);
      } else {
        assert Inners(links) + {links[i].inner} == Inners(links);
        var below := Collect(links, links[i].inner, visited);
        CollectCloses(links, links[i].inner, visited);
        Fewer(Inners(links), visited, below.1);
        ScanCloses(links, id, i + 1, below.1);
      }
    }
  }

  ghost predicate AllReached(links: seq<Link>, id: string, nodes: set<string>) {
    forall n :: n in nodes ==> Reachable(links, id, n)
  }

  lemma {:induction false} CollectReaches(links: seq<Link>, id: string, visited: set<string>)
    ensures AllReached(links, id, Collect(links, id, visited).1 - visited)
    decreases |Inners(links) + {id} - visited|, 0
  {
    if id !in visited {
      Shrinks(Inners(links), id, visited);
      ScanReaches(links, id, 0, visited + {id});
      ReachesItself(links, id);
    }
  }

  lemma {:induction false} ScanReaches(links: seq<Link>, id: string, i: nat, visited: set<string>)
    requires i <= |links|
    ensures AllReached(links, id, Scan(links, id, i, visited).1 - visited)
    decreases |Inners(links) - visited|, 1 + |links| - i
  {
    if i < |links| {
      if links[i].outer != id {
        ScanReaches(links, id, i + 1, visited);
      } else {
        assert Inners(links) + {links[i].inner} == Inners(links);
        var below := Collect(links, links[i].inner, visited);
        CollectReaches(links, links[i].inner, visited);
        forall n | n in below.1 - visited ensures Reachable(links, id, n) {
          ReachesFrom(links, links[i], n);
        }
        Fewer(Inners(links), visited, below.1);
        ScanReaches(links, id, i + 1, below.1);
      }
    }
  }

  /** The records visited from a start are exactly those reachable from it. */
  lemma VisitedAreReachable(links: seq<Link>, start: string, n: string)
    ensures n in Collect(links, start, {}).1 <==> Reachable(links, start, n)
  {
    var visited := Collect(links, start, {}).1;
    CollectReaches(links, start, {});
    CollectCloses(links, start, {});
    assert visited - {} == visited;
    if Reachable(links, start, n) {
      var p :| IsPath(links, p) && p[0] == start && p[|p| - 1] == n;
      ClosedHoldsPath(links, visited, p);
    }
  }

  /**
   On every graph of links, cyclic or not: a link is in the chain as often as it was recorded if its outer record is
   reachable from the start, and not at all otherwise.
   */
  lemma ChainIsReachableLinks(links: seq<Link>, start: string, l: Link)
    ensures multiset(Collect(links, start, {}).0)[l]
      == if Reachable(links, start, l.outer) then multiset(links)[l] else 0
  {
    var r := Collect(links, start, {});
    CollectTakes(links, start, {});
    assert r.1 - {} == r.1;
    TakenCounts(links, r.1, l);
    VisitedAreReachable(links, start, l.outer);
  }

  // ---------------------------------------------------------------- the order of the chain

  /** Every link follows one that leads to it, or starts at one of the roots. */
  predicate Connected(chain: seq<Link>, roots: set<string>) {
    chain == [] || (chain[0].outer in roots && Connected(chain[1..], roots + {chain[0].inner}))
  }

  lemma {:induction false} ConnectedConcat(a: seq<Link>, b: seq<Link>, roots: set<string>, more: set<string>)
    requires Connected(a, roots) && Connected(b, more) && more <= roots
    ensures Connected(a + b, roots)
  {
    if a == [] {
      assert a + b == b;
      ConnectedMore(b, more, roots);
    } else {
      assert (a + b)[1..] == a[1..] + b;
      ConnectedConcat(a[1..], b, roots + {a[0].inner}, more);
    }
  }

  lemma {:induction false} ConnectedMore(chain: seq<Link>, roots: set<string>, more: set<string>)
    requires Connected(chain, roots) && roots <= more
    ensures Connected(chain, more)
  {
    if chain != [] {
      ConnectedMore(chain[1..], roots + {chain[0].inner}, more + {chain[0].inner});
    }
  }

  lemma {:induction false} CollectConnected(links: seq<Link>, id: string, visited: set<string>)
    ensures Connected(Collect(links, id, visited).0, {id})
    decreases |Inners(links) + {id} - visited|, 0
  {
    if id !in visited {
      Shrinks(Inners(links), id, visited);
      ScanConnected(links, id, 0, visited + {id});
    }
  }

  lemma {:induction false} ScanConnected(links: seq<Link>, id: string, i: nat, visited: set<string>)
    requires i <= |links|
    ensures Connected(Scan(links, id, i, visited).0, {id})
    decreases |Inners(links) - visited|, 1 + |links| - i
  {
    if i < |links| {
      if links[i].outer != id {
        ScanConnected(links, id, i + 1, visited);
      } else {
        var l := links[i];
        assert Inners(links) + {l.inner} == Inners(links);
        var below := Collect(links, l.inner, visited);
        CollectConnected(links, l.inner, visited);
        Fewer(Inners(links), visited, below.1);
        ScanConnected(links, id, i + 1, below.1);
        var rest := Scan(links, id, i + 1, below.1).0;
        ConnectedMore(below.0, {l.inner}, {id, l.inner});
        ConnectedConcat(below.0, rest, {id, l.inner}, {id});
        assert ([l] + below.0 + rest)[1..] == below.0 + rest;
        assert {id} + {l.inner} == {id, l.inner};
      }
    }
  }

  // ---------------------------------------------------------------- the manager

  type Index = map<string, seq<Link>>

  function LinksOf(index: Index, agentID: string): seq<Link> {
    if agentID in index then index[agentID] else []
  }

  /** The links, in the order recorded, with a given agent, or session, in a given place. */
  function Where(links: seq<Link>, field: Link -> string, value: string): seq<Link> {
    if links == [] then []
    else
      var k := |links| - 1;
      var before := Where(links[..k], field, value);
      if field(links[k]) == value then before + [links[k]] else before
  }

  /** Those links and no others, each as often as it was recorded. */
  lemma {:induction false} WhereKeeps(links: seq<Link>, field: Link -> string, value: string, l: Link)
    ensures multiset(Where(links, field, value))[l] == if field(l) == value then multiset(links)[l] else 0
  {
    if links != [] {
      WhereKeeps(links[..|links| - 1], field, value, l);
      assert links == links[..|links| - 1] + [links[|links| - 1]];
    }
  }

  function InnerAgent(): Link -> string {
    (l: Link) => l.innerAgent
  }

  function OuterAgent(): Link -> string {
    (l: Link) => l.outerAgent
  }

  function Session(): Link -> string {
    (l: Link) => l.session
  }

  ghost predicate Indexes(index: Index, links: seq<Link>, field: Link -> string) {
    forall agent :: LinksOf(index, agent) == Where(links, field, agent)
  }

  lemma IndexesSnoc(index: Index, links: seq<Link>, field: Link -> string, l: Link)
    requires Indexes(index, links, field)
    ensures Indexes(index[field(l) := LinksOf(index, field(l)) + [l]], links + [l], field)
  {
    var after := index[field(l) := LinksOf(index, field(l)) + [l]];
    assert (links + [l])[..|links|] == links;
    forall agent ensures LinksOf(after, agent) == Where(links + [l], field, agent) {
      assert LinksOf(index, agent) == Where(links, field, agent);
    }
  }

  class LinkageManager {
    var links: seq<Link>
    var invokedBy: Index
    var invocations: Index

    /** Both indexes hold the recorded links, each under its own agent. */
    ghost predicate Valid()
      reads this
    {
      Indexes(invokedBy, links, InnerAgent()) && Indexes(invocations, links, OuterAgent())
    }

    constructor ()
      ensures Valid() && links == []
    {
      links, invokedBy, invocations := [], map[], map[];
    }

    method RecordLink(l: Link)
      requires Valid()
      modifies this
      ensures Valid() && links == old(links) + [l]
    {
      IndexesSnoc(invokedBy, links, InnerAgent(), l);
      IndexesSnoc(invocations, links, OuterAgent(), l);
      links := links + [l];
      invokedBy := invokedBy[l.innerAgent := LinksOf(invokedBy, l.innerAgent) + [l]];
      invocations := invocations[l.outerAgent := LinksOf(invocations, l.outerAgent) + [l]];
    }

    method InvokedBy(agentID: string) returns (found: seq<Link>)
      requires Valid()
      ensures found == Where(links, InnerAgent(), agentID)
      ensures forall l :: multiset(found)[l] == if l.innerAgent == agentID then multiset(links)[l] else 0
    {
      found := LinksOf(invokedBy, agentID);
      forall l ensures multiset(found)[l] == if l.innerAgent == agentID then multiset(links)[l] else 0 {
        WhereKeeps(links, InnerAgent(), agentID, l);
      }
    }

    method Invocations(agentID: string) returns (found: seq<Link>)
      requires Valid()
      ensures found == Where(links, OuterAgent(), agentID)
      ensures forall l :: multiset(found)[l] == if l.outerAgent == agentID then multiset(links)[l] else 0
    {
      found := LinksOf(invocations, agentID);
      forall l ensures multiset(found)[l] == if l.outerAgent == agentID then multiset(links)[l] else 0 {
        WhereKeeps(links, OuterAgent(), agentID, l);
      }
    }

    method LinksForSession(sessionID: string) returns (found: seq<Link>)
      ensures found == Where(links, Session(), sessionID)
      ensures forall l :: multiset(found)[l] == if l.session == sessionID then multiset(links)[l] else 0
    {
      found := [];
      for i := 0 to |links|
        invariant found == Where(links[..i], Session(), sessionID)
      {
        assert links[..i + 1][..i] == links[..i];
        if links[i].session == sessionID {
          found := found + [links[i]];
        }
      }
      assert links[..|links|] == links;
      forall l ensures multiset(found)[l] == if l.session == sessionID then multiset(links)[l] else 0 {
        WhereKeeps(links, Session(), sessionID, l);
      }
    }

    /**
     The chain of a record: every link whose outer record is reachable from it, once for each time it was recorded.
     */
    method ChainFromDPR(dprID: string) returns (chain: seq<Link>)
      ensures chain == Collect(links, dprID, {}).0
      ensures forall l :: multiset(chain)[l] == if Reachable(links, dprID, l.outer) then multiset(links)[l] else 0
      ensures Connected(chain, {dprID})
    {
      var walk := new Walk();
      walk.CollectChain(links, dprID);
      chain := walk.chain;
      assert [] + chain == chain;
      forall l ensures multiset(chain)[l] == if Reachable(links, dprID, l.outer) then multiset(links)[l] else 0 {
        ChainIsReachableLinks(links, dprID, l);
      }
      CollectConnected(links, dprID, {});
    }
  }
}
