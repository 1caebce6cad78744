/**
 Sources joined line by line: what the parser makes of a text it also makes of it in front of more text, as long as what
 comes next cannot be taken into the last rule.
 */
module FplJoin {
  import opened Basics
  import opened FplLexer
  import opened FplParser
  import opened FplWords
  import opened FplRoundTrip
  import opened FplDocument
  import opened FplReparse

  // ---------------------------------------------------------------- tokens in front of more tokens

  /** The words of x up to its end, and then more. */
  predicate Extends(x: seq<Token>, y: seq<Token>, more: seq<Token>) {
    && x != [] && x[|x| - 1].kind.Eof?
    && |x| - 1 <= |y| && y[|x| - 1..] == more
    && forall i :: 0 <= i < |x| - 1 ==> x[i].kind == y[i].kind && x[i].val == y[i].val && !x[i].kind.Eof?
  }

  predicate StartsItem(t: Token) {
    t.kind.Ident? && (t.val == "agent" || IsEffect(t.val))
  }

  /** What a rule cannot take in: the end, a closing brace, an agent or another rule. */
  predicate Stops(more: seq<Token>) {
    Peek(more).kind in {Eof, RBrace} || StartsItem(Peek(more))
  }

  lemma ExtendsNext(x: seq<Token>, y: seq<Token>, more: seq<Token>)
    requires Extends(x, y, more) && !Peek(x).kind.Eof?
    ensures Peek(y).kind == Peek(x).kind && Peek(y).val == Peek(x).val && |x| > 1
    ensures Extends(Advance(x), Advance(y), more)
  {
    assert y[1..][|x| - 2..] == y[|x| - 1..];
  }

  lemma ExtendsEnd(x: seq<Token>, y: seq<Token>, more: seq<Token>)
    requires Extends(x, y, more) && Peek(x).kind.Eof?
    ensures |x| == 1 && y == more
  {
  }

  lemma StopFacts(more: seq<Token>, line: nat)
    requires Stops(more)
    ensures var t := Peek(more);
      && EndsCondition(t, line) && !t.kind.Bang? && !t.kind.Colon?
      && (t.kind.Ident? ==> !IsUnitSuffix(t.val) && t.val != "when" && t.val != "notify" && t.val != "reason")
  {
    var t := Peek(more);
    if t.kind.Ident? && IsEffect(t.val) {
      EffectFacts(t.val);
      LongIsNoUnit(t.val);
    } else if t.kind.Ident? {
      LongIsNoUnit("agent");
    }
  }

  /** Whatever the first reads the second reads as well, and leaves what the first leaves, in front of more. */
  predicate Follows<T(==)>(p: Parse<T>, q: Parse<T>, more: seq<Token>) {
    p.Done? ==> q.Done? && q.value == p.value && Extends(p.rest, q.rest, more)
  }

  /** The same, where the first does not read up to the very end. */
  predicate FollowsInside<T(==)>(p: Parse<T>, q: Parse<T>, more: seq<Token>) {
    p.Done? && !Peek(p.rest).kind.Eof? ==> Follows(p, q, more)
  }

  lemma ValueJoin(x: seq<Token>, y: seq<Token>, more: seq<Token>)
    requires Extends(x, y, more) && Stops(more)
    ensures Follows(Value(x), Value(y), more)
  {
    StopFacts(more, 0);
    if !Peek(x).kind.Eof? {
      ExtendsNext(x, y, more);
      if Peek(Advance(x)).kind.Eof? {
        ExtendsEnd(Advance(x), Advance(y), more);
      } else {
        ExtendsNext(Advance(x), Advance(y), more);
      }
    }
  }

  lemma {:induction false} ConditionJoin(x: seq<Token>, y: seq<Token>, more: seq<Token>, l: nat, m: nat)
    requires Extends(x, y, more) && Stops(more)
    ensures Condition(x, l).0 == Condition(y, m).0 && Extends(Condition(x, l).1, Condition(y, m).1, more)
    decreases |x|
  {
    StopFacts(more, m);
    if Peek(x).kind.Eof? {
      ExtendsEnd(x, y, more);
    } else {
      ExtendsNext(x, y, more);
      if !EndsCondition(Peek(x), l) {
        ConditionJoin(Advance(x), Advance(y), more, l, m);
      }
    }
  }

  lemma ClauseValueJoin(x: seq<Token>, y: seq<Token>, more: seq<Token>)
    requires Extends(x, y, more) && Stops(more)
    ensures Follows(Value(SkipColon(x)), Value(SkipColon(y)), more)
  {
    StopFacts(more, 0);
    if Peek(x).kind.Eof? {
      ExtendsEnd(x, y, more);
    } else {
      ExtendsNext(x, y, more);
      ValueJoin(SkipColon(x), SkipColon(y), more);
    }
  }

  lemma {:induction false} ClausesJoin(rule: Rule, x: seq<Token>, y: seq<Token>, more: seq<Token>)
    requires Extends(x, y, more) && Stops(more)
    ensures Follows(Clauses(rule, x), Clauses(rule, y), more)
    decreases |x|
  {
    StopFacts(more, 0);
    if Peek(x).kind.Eof? {
      ExtendsEnd(x, y, more);
    } else {
      ExtendsNext(x, y, more);
      var ident, ax, ay := PeekIdent(x), Advance(x), Advance(y);
      if ident == "when" {
        ConditionJoin(ax, ay, more, Peek(ax).line, Peek(ay).line);
        var c := Condition(ax, Peek(ax).line);
        ClausesJoin(rule.(condition := Join(c.0)), c.1, Condition(ay, Peek(ay).line).1, more);
      } else if ident == "notify" || ident == "reason" {
        ClauseValueJoin(ax, ay, more);
        var v := Value(SkipColon(ax));
        if v.Done? {
          var next := if ident == "notify" then rule.(notify := v.value) else rule.(reason := v.value);
          ClausesJoin(next, v.rest, Value(SkipColon(ay)).rest, more);
        }
      }
    }
  }

  lemma FlatRuleJoin(x: seq<Token>, y: seq<Token>, more: seq<Token>)
    requires Extends(x, y, more) && Stops(more)
    ensures Follows(FlatRule(x), FlatRule(y), more)
  {
    StopFacts(more, 0);
    if !Peek(x).kind.Eof? {
      ExtendsNext(x, y, more);
      var ax, ay := Advance(x), Advance(y);
      var strict := Peek(x).val == "deny" && Peek(ax).kind.Bang?;
      if Peek(ax).kind.Eof? {
        ExtendsEnd(ax, ay, more);
      } else {
        ExtendsNext(ax, ay, more);
        var tx, ty := if strict then Advance(ax) else ax, if strict then Advance(ay) else ay;
        ValueJoin(tx, ty, more);
        if Value(tx).Done? {
          var head := Rule(if strict then "deny!" else Peek(x).val, Value(tx).value, "", "", "");
          ClausesJoin(head, Value(tx).rest, Value(ty).rest, more);
        }
      }
    }
  }

  // ---------------------------------------------------------------- blocks

  lemma EndsTogether(x: seq<Token>, y: seq<Token>, more: seq<Token>)
    requires Extends(x, y, more) && !Peek(x).kind.Eof?
    ensures AtBlockEnd(x) <==> AtBlockEnd(y)
    ensures PeekIdent(x) == PeekIdent(y) && Extends(Advance(x), Advance(y), more)
  {
    ExtendsNext(x, y, more);
  }

  lemma {:induction false} RuleListJoin(x: seq<Token>, y: seq<Token>, more: seq<Token>)
    requires Extends(x, y, more) && Stops(more)
    ensures FollowsInside(RuleList(x), RuleList(y), more)
    decreases |x|
  {
    if !Peek(x).kind.Eof? {
      EndsTogether(x, y, more);
      if !AtBlockEnd(x) {
        FlatRuleJoin(x, y, more);
        if FlatRule(x).Done? {
          RuleListJoin(FlatRule(x).rest, FlatRule(y).rest, more);
        }
      }
    }
  }

  lemma ExpectJoin(x: seq<Token>, y: seq<Token>, kind: Kind, more: seq<Token>)
    requires Extends(x, y, more) && !kind.Eof?
    ensures Follows(Expect(x, kind), Expect(y, kind), more)
  {
    if Peek(x).kind == kind {
      ExtendsNext(x, y, more);
    }
  }

  lemma CloseJoin<T>(p: Parse<T>, q: Parse<T>, more: seq<Token>)
    requires FollowsInside(p, q, more)
    ensures Follows(Close(p), Close(q), more)
  {
    if p.Done? && !Peek(p.rest).kind.Eof? {
      ExpectJoin(p.rest, q.rest, RBrace, more);
    }
  }

  lemma RulesBlockJoin(x: seq<Token>, y: seq<Token>, more: seq<Token>)
    requires Extends(x, y, more) && Stops(more)
    ensures Follows(RulesBlock(x), RulesBlock(y), more)
  {
    if RulesBlock(x).Done? {
      ExtendsNext(x, y, more);
      ExpectJoin(Advance(x), Advance(y), LBrace, more);
      var tx, ty := Expect(Advance(x), LBrace).rest, Expect(Advance(y), LBrace).rest;
      RuleListJoin(tx, ty, more);
      CloseJoin(RuleList(tx), RuleList(ty), more);
    }
  }

  lemma OpeningJoin(x: seq<Token>, y: seq<Token>, word: string, more: seq<Token>)
    requires Extends(x, y, more) && Stops(more)
    ensures Follows(Opening(x, word), Opening(y, word), more)
  {
    if Opening(x, word).Done? {
      ExtendsNext(x, y, more);
      ValueJoin(Advance(x), Advance(y), more);
      ExpectJoin(Value(Advance(x)).rest, Value(Advance(y)).rest, LBrace, more);
    }
  }

  lemma CurrencyJoin(n: Numbers, x: seq<Token>, y: seq<Token>, more: seq<Token>)
    requires Extends(x, y, more) && Stops(more)
    ensures FollowsInside(Currency(n, x), Currency(n, y), more)
  {
    if !Peek(x).kind.Eof? {
      ExtendsNext(x, y, more);
      if Peek(x).kind.Dollar? && !Peek(Advance(x)).kind.Eof? {
        ExtendsNext(Advance(x), Advance(y), more);
      }
    }
  }

  lemma {:induction false} BudgetItemsJoin(n: Numbers, b: Budget, x: seq<Token>, y: seq<Token>, more: seq<Token>)
    requires Extends(x, y, more) && Stops(more)
    ensures FollowsInside(BudgetItems(n, b, x), BudgetItems(n, b, y), more)
    decreases |x|
  {
    var all := BudgetItems(n, b, x);
    if !Peek(x).kind.Eof? && !AtBlockEnd(x) && all.Done? && !Peek(all.rest).kind.Eof? {
      EndsTogether(x, y, more);
      var kw, ax, ay := PeekIdent(x), Advance(x), Advance(y);
      BudgetNotAtEnd(n, b, ax);
      if kw == "max" || kw == "daily" {
        CurrencyJoin(n, ax, ay, more);
        var v, w := Currency(n, ax), Currency(n, ay);
        var next := if kw == "max" then b.(max := v.value) else b.(daily := v.value);
        BudgetNotAtEnd(n, next, v.rest);
        BudgetItemsJoin(n, next, v.rest, w.rest, more);
      } else if kw == "max_calls" {
        var next := b.(maxCalls := n.parseInt(Peek(ax).val).value);
        BudgetNotAtEnd(n, next, Advance(ax));
        ExtendsNext(ax, ay, more);
        BudgetItemsJoin(n, next, Advance(ax), Advance(ay), more);
      } else {
        ValueJoin(ax, ay, more);
        BudgetItemsJoin(n, b.(onExceed := Value(ax).value), Value(ax).rest, Value(ay).rest, more);
      }
    } else if !Peek(x).kind.Eof? {
      EndsTogether(x, y, more);
    }
  }

  lemma BudgetNotAtEnd(n: Numbers, b: Budget, x: seq<Token>)
    ensures Peek(x).kind.Eof? ==> BudgetItems(n, b, x) == Done(b, x)
  {
  }

  lemma BudgetBlockJoin(n: Numbers, x: seq<Token>, y: seq<Token>, more: seq<Token>)
    requires Extends(x, y, more) && Stops(more)
    ensures Follows(BudgetBlock(n, x), BudgetBlock(n, y), more)
  {
    OpeningJoin(x, y, "budget", more);
    if Opening(x, "budget").Done? {
      var start := Budget(Opening(x, "budget").value, 0.0, 0.0, 0, "");
      var tx, ty := Opening(x, "budget").rest, Opening(y, "budget").rest;
      BudgetItemsJoin(n, start, tx, ty, more);
      CloseJoin(BudgetItems(n, start, tx), BudgetItems(n, start, ty), more);
    }
  }

  lemma {:induction false} PhaseItemsJoin(p: Phase, x: seq<Token>, y: seq<Token>, more: seq<Token>)
    requires Extends(x, y, more) && Stops(more)
    ensures FollowsInside(PhaseItems(p, x), PhaseItems(p, y), more)
    decreases |x|
  {
    if !Peek(x).kind.Eof? {
      EndsTogether(x, y, more);
      var kw, ax, ay := PeekIdent(x), Advance(x), Advance(y);
      if AtBlockEnd(x) {
      } else if IsEffect(kw) {
        FlatRuleJoin(x, y, more);
        if FlatRule(x).Done? {
          var rule := FlatRule(x).value;
          PhaseItemsJoin(p.(rules := p.rules + [rule], tools := p.tools + [rule.tool]),
            FlatRule(x).rest, FlatRule(y).rest, more);
        }
      } else if kw == "duration" || kw == "next" {
        ValueJoin(ax, ay, more);
        if Value(ax).Done? {
          var v := Value(ax).value;
          PhaseItemsJoin(if kw == "duration" then p.(duration := v) else p.(next := v),
            Value(ax).rest, Value(ay).rest, more);
        }
      }
    }
  }

  lemma PhaseBlockJoin(x: seq<Token>, y: seq<Token>, more: seq<Token>)
    requires Extends(x, y, more) && Stops(more)
    ensures Follows(PhaseBlock(x), PhaseBlock(y), more)
  {
    OpeningJoin(x, y, "phase", more);
    if Opening(x, "phase").Done? {
      var start := Phase(Opening(x, "phase").value, [], [], "", "");
      var tx, ty := Opening(x, "phase").rest, Opening(y, "phase").rest;
      PhaseItemsJoin(start, tx, ty, more);
      CloseJoin(PhaseItems(start, tx), PhaseItems(start, ty), more);
    }
  }

  // ---------------------------------------------------------------- agents

  lemma VarValueJoin(x: seq<Token>, y: seq<Token>, more: seq<Token>)
    requires Extends(x, y, more)
    ensures FollowsInside(VarValue(x), VarValue(y), more)
  {
    if !Peek(x).kind.Eof? {
      ExtendsNext(x, y, more);
      if Peek(x).kind.Dollar? && !Peek(Advance(x)).kind.Eof? {
        ExtendsNext(Advance(x), Advance(y), more);
      }
    }
  }

  lemma AgentAtEnd(n: Numbers, a: Agent, x: seq<Token>)
    ensures Peek(x).kind.Eof? ==> AgentItems(n, a, x) == Done(a, x)
  {
  }

  lemma {:induction false} AgentItemsJoin(n: Numbers, a: Agent, x: seq<Token>, y: seq<Token>, more: seq<Token>)
    requires Extends(x, y, more) && Stops(more)
    ensures FollowsInside(AgentItems(n, a, x), AgentItems(n, a, y), more)
    decreases |x|, 1
  {
    if !Peek(x).kind.Eof? {
      EndsTogether(x, y, more);
      var kw := PeekIdent(x);
      if AtBlockEnd(x) {
      } else if kw in {"default", "model", "framework", "version"} {
        NamedJoin(n, a, x, y, more);
      } else if kw == "var" {
        VarJoin(n, a, x, y, more);
      } else if kw == "budget" {
        BudgetBlockJoin(n, x, y, more);
        var b := BudgetBlock(n, x);
        if b.Done? {
          AgentItemsJoin(n, a.(budgets := a.budgets + [b.value]), b.rest, BudgetBlock(n, y).rest, more);
        }
      } else if kw == "phase" {
        PhaseBlockJoin(x, y, more);
        var p := PhaseBlock(x);
        if p.Done? {
          AgentItemsJoin(n, a.(phases := a.phases + [p.value]), p.rest, PhaseBlock(y).rest, more);
        }
      } else if kw == "rules" {
        RulesBlockJoin(x, y, more);
        var rs := RulesBlock(x);
        if rs.Done? {
          AgentItemsJoin(n, a.(rules := a.rules + rs.value), rs.rest, RulesBlock(y).rest, more);
        }
      } else if IsEffect(kw) {
        FlatRuleJoin(x, y, more);
        var r := FlatRule(x);
        if r.Done? {
          AgentItemsJoin(n, a.(rules := a.rules + [r.value]), r.rest, FlatRule(y).rest, more);
        }
      }
    }
  }

  lemma {:induction false} NamedJoin(n: Numbers, a: Agent, x: seq<Token>, y: seq<Token>, more: seq<Token>)
    requires Extends(x, y, more) && Stops(more)
    requires !AtBlockEnd(x) && PeekIdent(x) in {"default", "model", "framework", "version"}
    ensures FollowsInside(AgentItems(n, a, x), AgentItems(n, a, y), more)
    decreases |x|, 0
  {
    EndsTogether(x, y, more);
    var kw, ax, ay := PeekIdent(x), Advance(x), Advance(y);
    ValueJoin(ax, ay, more);
    if Value(ax).Done? {
      var v := Value(ax).value;
      var next :=
        if kw == "default" then a.(default_ := v)
        else if kw == "model" then a.(model := v)
        else if kw == "framework" then a.(framework := v)
        else a.(version := v);
      AgentItemsJoin(n, next, Value(ax).rest, Value(ay).rest, more);
    }
  }

  lemma {:induction false} VarJoin(n: Numbers, a: Agent, x: seq<Token>, y: seq<Token>, more: seq<Token>)
    requires Extends(x, y, more) && Stops(more) && !AtBlockEnd(x) && PeekIdent(x) == "var"
    ensures FollowsInside(AgentItems(n, a, x), AgentItems(n, a, y), more)
    decreases |x|, 0
  {
    EndsTogether(x, y, more);
    ValueJoin(Advance(x), Advance(y), more);
    var name := Value(Advance(x));
    if name.Done? {
      var other := Value(Advance(y));
      VarValueJoin(name.rest, other.rest, more);
      var v := VarValue(name.rest);
      if v.Done? {
        var next := a.(vars := a.vars[name.value := v.value]);
        AgentAtEnd(n, next, v.rest);
        if !Peek(v.rest).kind.Eof? {
          AgentItemsJoin(n, next, v.rest, VarValue(other.rest).rest, more);
        }
      }
    }
  }

  lemma AgentBlockJoin(n: Numbers, x: seq<Token>, y: seq<Token>, more: seq<Token>)
    requires Extends(x, y, more) && Stops(more)
    ensures Follows(AgentBlock(n, x), AgentBlock(n, y), more)
  {
    OpeningJoin(x, y, "agent", more);
    if Opening(x, "agent").Done? {
      var start := Agent(Opening(x, "agent").value, "", "", "", "", [], [], [], map[]);
      var tx, ty := Opening(x, "agent").rest, Opening(y, "agent").rest;
      AgentItemsJoin(n, start, tx, ty, more);
      CloseJoin(AgentItems(n, start, tx), AgentItems(n, start, ty), more);
    }
  }
  // ---------------------------------------------------------------- documents

  /** Everything of one document, then everything of the other. */
  function Both(d: Document, e: Document): Document {
    Document(d.agents + e.agents, d.flatRules + e.flatRules)
  }

  lemma {:induction false} DocumentItemsJoin(n: Numbers, d: Document, x: seq<Token>, y: seq<Token>, more: seq<Token>)
    requires Extends(x, y, more) && Stops(more) && DocumentItems(n, d, x).Ok?
    ensures DocumentItems(n, d, y) == DocumentItems(n, DocumentItems(n, d, x).value, more)
    decreases |x|
  {
    if Peek(x).kind.Eof? {
      ExtendsEnd(x, y, more);
    } else {
      EndsTogether(x, y, more);
      if PeekIdent(x) == "agent" {
        AgentBlockJoin(n, x, y, more);
        var a := AgentBlock(n, x);
        DocumentItemsJoin(n, d.(agents := d.agents + [a.value]), a.rest, AgentBlock(n, y).rest, more);
      } else {
        FlatRuleJoin(x, y, more);
        var r := FlatRule(x);
        DocumentItemsJoin(n, d.(flatRules := d.flatRules + [r.value]), r.rest, FlatRule(y).rest, more);
      }
    }
  }

  function Behind(d: Document, r: Result<Document, ParseError>): Result<Document, ParseError> {
    if r.Ok? then Ok(Both(d, r.value)) else r
  }

  /** What was read before stays in front of what is read. */
  lemma {:induction false} DocumentItemsGrow(n: Numbers, d: Document, e: Document, ts: seq<Token>)
    ensures DocumentItems(n, Both(d, e), ts) == Behind(d, DocumentItems(n, e, ts))
    decreases |ts|
  {
    if Peek(ts).kind.Eof? {
    } else if PeekIdent(ts) == "agent" {
      var a := AgentBlock(n, ts);
      if a.Done? {
        AppendAssociates(d.agents, e.agents, [a.value]);
        DocumentItemsGrow(n, d, e.(agents := e.agents + [a.value]), a.rest);
      }
    } else if IsEffect(PeekIdent(ts)) {
      var r := FlatRule(ts);
      if r.Done? {
        AppendAssociates(d.flatRules, e.flatRules, [r.value]);
        DocumentItemsGrow(n, d, e.(flatRules := e.flatRules + [r.value]), r.rest);
      }
    }
  }

  lemma ParsedBehind(n: Numbers, d: Document, ts: seq<Token>)
    ensures DocumentItems(n, d, ts) == Behind(d, ParseTokens(n, ts))
  {
    assert Both(d, Document([], [])) == d;
    DocumentItemsGrow(n, d, Document([], []), ts);
  }

  // ---------------------------------------------------------------- rules wherever they stand

  /** Every rule starts with an effect. */
  predicate EffectStarts(ts: seq<Token>)
    decreases |ts|
  {
    Peek(ts).kind.Eof? ||
    (IsEffect(PeekIdent(ts)) && (FlatRule(ts).Done? ==> EffectStarts(FlatRule(ts).rest)))
  }

  function WithRules(d: Document, rs: seq<Rule>): Document {
    d.(flatRules := d.flatRules + rs)
  }

  lemma WithRulesTwice(d: Document, a: seq<Rule>, b: seq<Rule>)
    ensures WithRules(WithRules(d, a), b) == WithRules(d, a + b) && WithRules(d, []) == d
  {
    AppendAssociates(d.flatRules, a, b);
    assert d.flatRules + [] == d.flatRules;
  }

  /** An agent that was read shows in the document. */
  lemma AgentShows(n: Numbers, d: Document, ts: seq<Token>, rs: seq<Rule>)
    requires PeekIdent(ts) == "agent"
    ensures DocumentItems(n, d, ts) != Ok(WithRules(d, rs))
  {
    var a := AgentBlock(n, ts);
    if a.Done? {
      var more := d.(agents := d.agents + [a.value]);
      assert DocumentItems(n, d, ts) == DocumentItems(n, more, a.rest);
      ParsedBehind(n, more, a.rest);
      if ParseTokens(n, a.rest).Ok? {
        assert |Both(more, ParseTokens(n, a.rest).value).agents| > |WithRules(d, rs).agents|;
      }
    }
  }

  lemma RuleInDocument(n: Numbers, d: Document, ts: seq<Token>)
    requires IsEffect(PeekIdent(ts)) && FlatRule(ts).Done?
    ensures DocumentItems(n, d, ts) == DocumentItems(n, WithRules(d, [FlatRule(ts).value]), FlatRule(ts).rest)
  {
  }

  lemma {:induction false} RulesInDocument(n: Numbers, d: Document, ts: seq<Token>)
    requires FlatRules(ts).Ok?
    ensures DocumentItems(n, d, ts) == Ok(WithRules(d, FlatRules(ts).value)) <==> EffectStarts(ts)
    decreases |ts|
  {
    if Peek(ts).kind.Eof? {
      WithRulesTwice(d, [], []);
    } else {
      var rule, rest := FlatRule(ts).value, FlatRule(ts).rest;
      if IsEffect(PeekIdent(ts)) {
        RuleInDocument(n, d, ts);
        WithRulesTwice(d, [rule], FlatRules(rest).value);
        RulesInDocument(n, WithRules(d, [rule]), rest);
      } else if PeekIdent(ts) == "agent" {
        AgentShows(n, d, ts, FlatRules(ts).value);
      }
    }
  }

  lemma {:induction false} RulesInAgent(n: Numbers, a: Agent, x: seq<Token>, y: seq<Token>, more: seq<Token>)
    requires Extends(x, y, more) && Stops(more) && FlatRules(x).Ok? && EffectStarts(x)
    ensures AgentItems(n, a, y) == AgentItems(n, a.(rules := a.rules + FlatRules(x).value), more)
    decreases |x|
  {
    if Peek(x).kind.Eof? {
      ExtendsEnd(x, y, more);
      assert a.rules + [] == a.rules;
    } else {
      EndsTogether(x, y, more);
      FlatRuleJoin(x, y, more);
      var rule, rest := FlatRule(x).value, FlatRule(x).rest;
      AppendAssociates(a.rules, [rule], FlatRules(rest).value);
      EffectIsNoSetting(PeekIdent(x));
      RulesInAgent(n, a.(rules := a.rules + [rule]), rest, FlatRule(y).rest, more);
    }
  }

  lemma EffectIsNoSetting(s: string)
    requires IsEffect(s)
    ensures s !in {"default", "model", "framework", "version", "var", "budget", "phase", "rules"}
  {
  }

  lemma {:induction false} RulesInBlock(x: seq<Token>, y: seq<Token>, more: seq<Token>)
    requires Extends(x, y, more) && Peek(more).kind.RBrace? && FlatRules(x).Ok? && EffectStarts(x)
    ensures RuleList(y) == Done(FlatRules(x).value, more)
    decreases |x|
  {
    if Peek(x).kind.Eof? {
      ExtendsEnd(x, y, more);
    } else {
      EndsTogether(x, y, more);
      FlatRuleJoin(x, y, more);
      RulesInBlock(FlatRule(x).rest, FlatRule(y).rest, more);
    }
  }

  function Tools(rs: seq<Rule>): (tools: seq<string>)
    ensures |tools| == |rs|
  {
    seq(|rs|, i requires 0 <= i < |rs| => rs[i].tool)
  }

  function WithPhaseRules(p: Phase, rs: seq<Rule>): Phase {
    p.(rules := p.rules + rs, tools := p.tools + Tools(rs))
  }

  lemma WithPhaseRulesTwice(p: Phase, rule: Rule, rs: seq<Rule>)
    ensures WithPhaseRules(WithPhaseRules(p, [rule]), rs) == WithPhaseRules(p, [rule] + rs)
    ensures WithPhaseRules(p, []) == p
    ensures WithPhaseRules(p, [rule]) == p.(rules := p.rules + [rule], tools := p.tools + [rule.tool])
  {
    AppendAssociates(p.rules, [rule], rs);
    assert Tools([rule]) == [rule.tool] && Tools([rule] + rs) == [rule.tool] + Tools(rs);
    AppendAssociates(p.tools, [rule.tool], Tools(rs));
    assert p.rules + [] == p.rules && p.tools + Tools([]) == p.tools;
  }

  lemma {:induction false} RulesInPhase(p: Phase, x: seq<Token>, y: seq<Token>, more: seq<Token>)
    requires Extends(x, y, more) && Stops(more) && FlatRules(x).Ok? && EffectStarts(x)
    ensures PhaseItems(p, y) == PhaseItems(WithPhaseRules(p, FlatRules(x).value), more)
    decreases |x|
  {
    if Peek(x).kind.Eof? {
      ExtendsEnd(x, y, more);
      WithPhaseRulesTwice(p, Rule("", "", "", "", ""), []);
    } else {
      EndsTogether(x, y, more);
      FlatRuleJoin(x, y, more);
      var rule, rest := FlatRule(x).value, FlatRule(x).rest;
      WithPhaseRulesTwice(p, rule, FlatRules(rest).value);
      RulesInPhase(WithPhaseRules(p, [rule]), rest, FlatRule(y).rest, more);
    }
  }

  // ---------------------------------------------------------------- joined texts

  lemma {:induction false} CloseQuoteBefore(s: string, j: nat, rest: string)
    requires CloseQuote(s, j).Some?
    ensures CloseQuote(s + rest, j) == CloseQuote(s, j)
    decreases |s| + 1 - j
  {
    if s[j] != '"' {
      CloseQuoteBefore(s, if s[j] == '\\' then j + 2 else j + 1, rest);
    }
  }

  lemma RunBefore(p: char -> bool, s: string, from: nat, rest: string)
    requires from <= |s| && rest != "" && !p(rest[0])
    ensures Run(p, (s + rest)[from..]) == Run(p, s[from..])
  {
    var n := Run(p, s[from..]);
    assert (s + rest)[from..] == s[from..] + rest;
    RunFrom(p, s[from..] + rest, n);
  }

  lemma MarkBefore(s: string, rest: string)
    requires s != "" && rest != "" && rest[0] == '\n' && Front(s).Take?
    requires s[0] in {'{', '}', ':', '$', '!'}
    ensures Front(s + rest) == Front(s)
  {
    var all := s + rest;
    assert all[0] == s[0] && all[1] == if |s| > 1 then s[1] else '\n';
    if s[0] == '!' && |s| > 1 && !IsBlank(s[1]) {
      assert all[0..] == all && s[0..] == s;
      RunBefore(IsIdentCont, s, 0, rest);
      assert all[..Run(IsIdentCont, s)] == s[..Run(IsIdentCont, s)];
    }
  }

  lemma StringBefore(s: string, rest: string)
    requires s != "" && rest != "" && rest[0] == '\n' && Front(s).Take? && s[0] == '"'
    ensures Front(s + rest) == Front(s)
  {
    var all, close := s + rest, CloseQuote(s, 1).value;
    CloseQuoteBefore(s, 1, rest);
    assert all[0] == s[0] && all[1..close] == s[1..close];
  }

  lemma NumberBefore(s: string, rest: string)
    requires s != "" && rest != "" && rest[0] == '\n' && StartsNumber(s)
    ensures Front(s + rest) == Front(s)
  {
    var all, from := s + rest, if s[0] == '-' then 1 else 0;
    assert all[0] == s[0] && all[1] == if |s| > 1 then s[1] else '\n';
    RunBefore(IsNumberCont, s, from, rest);
    var n := from + Run(IsNumberCont, s[from..]);
    assert all[..n] == s[..n];
  }

  lemma IdentBefore(s: string, rest: string)
    requires s != "" && rest != "" && rest[0] == '\n' && IsIdentStart(s[0])
    ensures Front(s + rest) == Front(s)
  {
    var all := s + rest;
    assert all[0] == s[0] && all[0..] == all && s[0..] == s;
    FrontAtIdent(s);
    FrontAtIdent(all);
    RunBefore(IsIdentCont, s, 0, rest);
    assert all[..Run(IsIdentCont, s)] == s[..Run(IsIdentCont, s)];
  }

  lemma BlankBefore(s: string, rest: string)
    requires s != "" && rest != "" && rest[0] == '\n' && Front(s).Skip?
    ensures Front(s + rest) == Front(s)
  {
    var all := s + rest;
    assert all[0] == s[0] && all[0..] == all && s[0..] == s;
    if s[0] == '#' {
      RunBefore(NotNewline, s, 0, rest);
    }
  }

  /** A newline behind a text changes nothing of its front. */
  lemma FrontBefore(s: string, rest: string)
    requires s != "" && rest != "" && rest[0] == '\n' && (Front(s).Skip? || Front(s).Take?)
    ensures Front(s + rest) == Front(s)
  {
    if Front(s).Skip? {
      BlankBefore(s, rest);
    } else if s[0] == '"' {
      StringBefore(s, rest);
    } else if s[0] in {'{', '}', ':', '$', '!'} {
      MarkBefore(s, rest);
    } else if StartsNumber(s) {
      NumberBefore(s, rest);
    } else {
      IdentBefore(s, rest);
    }
  }

  function PrependWords(ws: seq<Word>, r: Option<seq<Word>>): Option<seq<Word>> {
    if r.Some? then Some(ws + r.value) else None
  }

  predicate NoEnd(ws: seq<Word>) {
    forall i :: 0 <= i < |ws| ==> !ws[i].kind.Eof?
  }

  /** The words of a text, without the end. */
  function WordsOf(s: string): seq<Word>
    requires LexWords(s).Some? && LexWords(s).value != []
  {
    LexWords(s).value[..|LexWords(s).value| - 1]
  }

  function WithFront(f: Lexed, rest: Option<seq<Word>>): Option<seq<Word>> {
    match f
    case Skip(_, _) => rest
    case Take(kind, val, _) => PrependWord(Word(kind, val), rest)
    case _ => None
  }

  lemma WordsAt(s: string, f: Lexed, size: nat)
    requires s != "" && Front(s) == f && (f.Skip? || f.Take?) && size == f.size
    ensures LexWords(s) == WithFront(f, LexWords(s[size..]))
  {
  }

  lemma WordsFront(s: string)
    requires s != "" && LexWords(s).Some?
    ensures Front(s).Skip? || Front(s).Take?
    ensures LexWords(s[Front(s).size..]).Some?
  {
  }

  lemma WordBefore(w: Word, ws: seq<Word>)
    ensures [w] + (ws + [END]) == ([w] + ws) + [END]
    ensures ([w] + (ws + [END]))[..|ws| + 1] == [w] + ws
  {
  }

  lemma {:induction false} WordsEnd(s: string)
    requires LexWords(s).Some?
    ensures LexWords(s).value != [] && LexWords(s).value == WordsOf(s) + [END] && NoEnd(WordsOf(s))
  {
    if s == "" {
      assert LexWords(s).value == [END];
    } else {
      WordsFront(s);
      var f := Front(s);
      var size := f.size;
      WordsAt(s, f, size);
      WordsEnd(s[size..]);
      if f.Take? {
        WordBefore(Word(f.kind, f.val), WordsOf(s[size..]));
      }
    }
  }

  lemma PrependWordsTwice(w: Word, ws: seq<Word>, r: Option<seq<Word>>)
    ensures PrependWord(w, PrependWords(ws, r)) == PrependWords([w] + ws, r)
    ensures PrependWords([], r) == r
  {
    if r.Some? {
      AppendAssociates([w], ws, r.value);
      assert [] + r.value == r.value;
    }
  }

  lemma DropFront(s: string, tail: string, size: nat)
    requires size <= |s|
    ensures (s + tail)[size..] == s[size..] + tail
  {
  }

  /** What the front of a text is, it is with more lines behind; and so for the words of the rest. */
  lemma WordsStep(s: string, tail: string, f: Lexed, size: nat)
    requires s != "" && tail != "" && tail[0] == '\n' && Front(s) == f && (f.Skip? || f.Take?) && size == f.size
    ensures LexWords(s + tail) == WithFront(f, LexWords(s[size..] + tail))
  {
    DropFront(s, tail, size);
    FrontBefore(s, tail);
    WordsAt(s + tail, f, size);
  }

  lemma WordsOfStep(s: string, size: nat)
    requires s != "" && LexWords(s).Some? && size == Front(s).size
    ensures LexWords(s).value != [] && LexWords(s[size..]).Some? && LexWords(s[size..]).value != []
    ensures WordsOf(s) == match Front(s)
      case Skip(_, _) => WordsOf(s[size..])
      case Take(kind, val, _) => [Word(kind, val)] + WordsOf(s[size..])
  {
    WordsEnd(s[size..]);
  }

  /** Two texts on lines of their own lex to the words of the one, then those of the other. */
  lemma {:induction false} WordsJoin(s: string, rest: string)
    requires LexWords(s).Some? && LexWords(s).value != []
    ensures LexWords(s + ("\n" + rest)) == PrependWords(WordsOf(s), LexWords(rest))
  {
    var tail := "\n" + rest;
    if s == "" {
      BlankSkipped('\n', rest);
      assert s + tail == tail;
      PrependWordsTwice(END, [], LexWords(rest));
    } else {
      var f := Front(s);
      var size := f.size;
      WordsFront(s);
      WordsOfStep(s, size);
      WordsStep(s, tail, f, size);
      WordsJoin(s[size..], rest);
      if f.Take? {
        PrependWordsTwice(Word(f.kind, f.val), WordsOf(s[size..]), LexWords(rest));
      }
    }
  }

  lemma {:induction false} StripAt(ts: seq<Token>)
    ensures |Strip(ts)| == |ts| && forall i :: 0 <= i < |ts| ==> Strip(ts)[i] == Word(ts[i].kind, ts[i].val)
  {
    if ts != [] {
      StripAt(ts[1..]);
    }
  }

  /** Tokens with the words of others in front. */
  lemma WordsExtend(x: seq<Token>, y: seq<Token>, ws: seq<Word>, more: seq<Word>)
    requires Strip(x) == ws + [END] && NoEnd(ws) && Strip(y) == ws + more
    ensures |ws| <= |y| && Extends(x, y, y[|ws|..]) && Strip(y[|ws|..]) == more
  {
    StripAt(x);
    StripAt(y);
    StripAt(y[|ws|..]);
    assert Strip(x)[|ws|] == END;
    forall i | 0 <= i < |ws| ensures x[i].kind == y[i].kind && x[i].val == y[i].val && !x[i].kind.Eof? {
      assert Strip(x)[i] == ws[i] && Strip(y)[i] == ws[i];
    }
    forall i | 0 <= i < |more| ensures Strip(y[|ws|..])[i] == more[i] {
      assert Strip(y)[|ws| + i] == more[i];
    }
  }

  // ---------------------------------------------------------------- lines

  function Below(ts: seq<Token>, rest: string): Result<seq<Token>, LexError>
    requires ts != []
  {
    Continue(ts[..|ts| - 1], Lex(rest, ts[|ts| - 1].line + 1))
  }

  lemma BelowNext(t: Token, ts: seq<Token>, rest: string)
    requires ts != []
    ensures Prepend(t, Below(ts, rest)) == Below([t] + ts, rest)
  {
    var below := Lex(rest, ts[|ts| - 1].line + 1);
    assert ([t] + ts)[..|ts|] == [t] + ts[..|ts| - 1];
    if below.Ok? {
      AppendAssociates([t], ts[..|ts| - 1], below.value);
    }
  }

  lemma LexAt(s: string, line: nat, f: Lexed, size: nat, next: nat)
    requires s != "" && Front(s) == f && (f.Skip? || f.Take?) && size == f.size
    requires next == if f.Skip? && f.newline then line + 1 else line
    ensures f.Skip? ==> Lex(s, line) == Lex(s[size..], next)
    ensures f.Take? ==> Lex(s, line) == Prepend(Token(f.kind, f.val, line), Lex(s[size..], next))
  {
  }

  lemma LexStep(s: string, tail: string, line: nat, f: Lexed, size: nat, next: nat)
    requires s != "" && tail != "" && tail[0] == '\n' && Front(s) == f && (f.Skip? || f.Take?) && size == f.size
    requires next == if f.Skip? && f.newline then line + 1 else line
    ensures f.Skip? ==> Lex(s + tail, line) == Lex(s[size..] + tail, next)
    ensures f.Take? ==> Lex(s + tail, line) == Prepend(Token(f.kind, f.val, line), Lex(s[size..] + tail, next))
  {
    DropFront(s, tail, size);
    FrontBefore(s, tail);
    LexAt(s + tail, line, f, size, next);
  }

  lemma LexFront(s: string, line: nat)
    requires s != "" && Lex(s, line).Ok?
    ensures Front(s).Skip? || Front(s).Take?
  {
  }

  /** A text behind a newline is tokenized as it is by itself, from the line below where the text before ends. */
  lemma {:induction false} LinesJoin(s: string, rest: string, line: nat)
    requires Lex(s, line).Ok?
    ensures Lex(s, line).value != []
    ensures Lex(s + ("\n" + rest), line) == Below(Lex(s, line).value, rest)
  {
    var tail := "\n" + rest;
    if s == "" {
      assert s + tail == tail && tail[1..] == rest;
      ContinuePrepend([], Token(Eof, "", line), Lex(rest, line + 1));
    } else {
      LexFront(s, line);
      var f := Front(s);
      var size, next := f.size, if f.Skip? && f.newline then line + 1 else line;
      LexAt(s, line, f, size, next);
      LexStep(s, tail, line, f, size, next);
      LinesJoin(s[size..], rest, next);
      if f.Take? {
        BelowNext(Token(f.kind, f.val, line), Lex(s[size..], next).value, rest);
      }
    }
  }

  /** All tokens of a text without a newline are on the line it is on, and so is what is wrong with it. */
  lemma {:induction false} OneLineTokens(s: string, line: nat)
    requires '\n' !in s
    ensures Lex(s, line).Ok? ==> forall i :: 0 <= i < |Lex(s, line).value| ==> Lex(s, line).value[i].line == line
    ensures Lex(s, line).Err? ==> Lex(s, line).error.line == line
  {
    if s != "" {
      var f := Front(s);
      assert s[0] in s;
      if f.Skip? || f.Take? {
        assert forall c :: c in s[f.size..] ==> c in s;
        OneLineTokens(s[f.size..], line);
        if f.Take? && Lex(s, line).Ok? {
          assert Lex(s, line).value == [Token(f.kind, f.val, line)] + Lex(s[f.size..], line).value;
        }
      }
    }
  }

  // ---------------------------------------------------------------- documents joined

  function TokensOf(src: string): seq<Token> {
    match Lex(src, 1) case Ok(ts) => ts case Err(_) => []
  }

  lemma JoinedTokens(a: string, b: string)
    requires Lex(a, 1).Ok?
    ensures Lex(a + ("\n" + b), 1).Ok? <==> Lex(b, 1).Ok?
    ensures Lex(b, 1).Ok? ==>
      var x, y, z := TokensOf(a), TokensOf(a + ("\n" + b)), TokensOf(b);
      |y| >= |x| - 1 >= 0 && Extends(x, y, y[|x| - 1..]) && Strip(y[|x| - 1..]) == Strip(z)
  {
    LexHasWords(a, 1);
    LexHasWords(b, 1);
    LexHasWords(a + ("\n" + b), 1);
    WordsEnd(a);
    WordsJoin(a, b);
    if Lex(b, 1).Ok? {
      StripAt(TokensOf(a));
      WordsExtend(TokensOf(a), TokensOf(a + ("\n" + b)), WordsOf(a), LexWords(b).value);
    }
  }

  /** Tokens of the same words, on whatever lines, are read alike. */
  lemma LinesDoNotMatter(n: Numbers, s: string, x: seq<Token>, y: seq<Token>)
    requires LexWords(s).Some? && Strip(x) == LexWords(s).value && Strip(y) == LexWords(s).value
    requires ParseTokens(n, x).Ok?
    ensures ParseTokens(n, y) == ParseTokens(n, x)
  {
    WordsEnd(s);
    WordsExtend(x, y, WordsOf(s), [END]);
    var end := y[|WordsOf(s)|..];
    StripAt(end);
    assert Strip(end)[0] == END;
    DocumentItemsJoin(n, Document([], []), x, y, end);
  }

  /** What can come behind any document: nothing, an agent or a rule. */
  predicate StartsDocument(src: string) {
    Lex(src, 1).Ok? ==> Peek(TokensOf(src)).kind.Eof? || StartsItem(Peek(TokensOf(src)))
  }

  /** Whatever was read before, nothing but agents and rules is accepted next, or the end. */
  lemma OnlyItemsAccepted(n: Numbers, d: Document, ts: seq<Token>)
    requires DocumentItems(n, d, ts).Ok?
    ensures Peek(ts).kind.Eof? || StartsItem(Peek(ts))
  {
  }

  /** Nor is anything but its items in a block, or the end of it. */
  lemma OnlyItemsInBlocks(n: Numbers, a: Agent, p: Phase, b: Budget, ts: seq<Token>)
    requires !AtBlockEnd(ts)
    ensures AgentItems(n, a, ts).Done? ==>
      IsEffect(PeekIdent(ts))
      || PeekIdent(ts) in {"default", "model", "framework", "version", "var", "budget", "phase", "rules"}
    ensures PhaseItems(p, ts).Done? ==> IsEffect(PeekIdent(ts)) || PeekIdent(ts) in {"duration", "next"}
    ensures BudgetItems(n, b, ts).Done? ==> PeekIdent(ts) in {"max", "daily", "max_calls", "on_exceed"}
  {
  }

  /**
   Two sources joined by a newline, the first accepted and the second beginning as a document does: the whole is
   accepted if and only if the second is, and then it has the agents and the rules of both, all of them and in order.
   */
  lemma DocumentsJoin(n: Numbers, a: string, b: string)
    requires ParseSource(n, a).Ok? && StartsDocument(b)
    ensures ParseSource(n, a + ("\n" + b)).Ok? <==> ParseSource(n, b).Ok?
    ensures ParseSource(n, b).Ok? ==>
      ParseSource(n, a + ("\n" + b)) == Ok(Both(ParseSource(n, a).value, ParseSource(n, b).value))
  {
    JoinedTokens(a, b);
    if Lex(b, 1).Ok? {
      var x, y, z := TokensOf(a), TokensOf(a + ("\n" + b)), TokensOf(b);
      TokensJoin(n, b, x, y, y[|x| - 1..], z);
    }
  }

  lemma SameStart(x: seq<Token>, y: seq<Token>)
    requires Strip(x) == Strip(y) && x != []
    ensures Peek(y).kind == Peek(x).kind && Peek(y).val == Peek(x).val
  {
    StripAt(x);
    StripAt(y);
    assert Strip(x)[0] == Strip(y)[0];
  }

  lemma TokensJoin(n: Numbers, b: string, x: seq<Token>, y: seq<Token>, more: seq<Token>, z: seq<Token>)
    requires ParseTokens(n, x).Ok? && Extends(x, y, more)
    requires Lex(b, 1) == Ok(z) && Strip(more) == Strip(z) && (Peek(z).kind.Eof? || StartsItem(Peek(z)))
    ensures ParseTokens(n, y).Ok? <==> ParseTokens(n, z).Ok?
    ensures ParseTokens(n, z).Ok? ==> ParseTokens(n, y) == Ok(Both(ParseTokens(n, x).value, ParseTokens(n, z).value))
  {
    LexHasWords(b, 1);
    WordsEnd(b);
    SameStart(z, more);
    DocumentItemsJoin(n, Document([], []), x, y, more);
    ParsedBehind(n, ParseTokens(n, x).value, more);
    if ParseTokens(n, z).Ok? {
      LinesDoNotMatter(n, b, z, more);
    } else if ParseTokens(n, more).Ok? {
      LinesDoNotMatter(n, b, more, z);
    }
  }

  /**
   A flat list of rules is, as a document, exactly these rules in order if and only if every one of them starts with
   an effect.
   */
  lemma FlatRulesAreDocument(n: Numbers, src: string)
    requires ParseFlatRules(src).Ok?
    ensures ParseSource(n, src) == Ok(Document([], ParseFlatRules(src).value)) <==> EffectStarts(TokensOf(src))
  {
    var none, rs := Document([], []), ParseFlatRules(src).value;
    assert WithRules(none, rs) == Document([], rs) by {
      assert [] + rs == rs;
    }
    RulesInDocument(n, none, TokensOf(src));
  }
}
