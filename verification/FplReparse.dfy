/** The words of a printed document parse back to the document. */
module FplReparse {
  import opened Basics
  import opened FplLexer
  import opened FplParser
  import opened FplPrinter
  import opened FplWords
  import opened FplRoundTrip
  import opened FplDocument

  lemma WordAt(ts: seq<Token>, w: Word, ws: seq<Word>)
    requires Strip(ts) == [w] + ws && !w.kind.Eof?
    ensures Peek(ts).kind == w.kind && Peek(ts).val == w.val && Strip(Advance(ts)) == ws
    ensures w.kind.Ident? ==> PeekIdent(ts) == w.val && !AtBlockEnd(ts)
  {
    StripStep(ts, w, ws);
  }

  lemma NameReads(ts: seq<Token>, v: string, ws: seq<Word>)
    requires Strip(ts) == [Word(Ident, v)] + ws
    ensures Value(ts) == Done(v, Advance(ts)) && Strip(Advance(ts)) == ws
  {
    WordAt(ts, Word(Ident, v), ws);
  }

  lemma OpeningReads(ts: seq<Token>, keyword: string, name: string, ws: seq<Word>) returns (rest: seq<Token>)
    requires Strip(ts) == [Word(Ident, keyword), Word(Ident, name), OPEN] + ws
    ensures Opening(ts, keyword) == Done(name, rest) && Strip(rest) == ws
  {
    assert Strip(ts) == [Word(Ident, keyword)] + ([Word(Ident, name)] + ([OPEN] + ws));
    WordAt(ts, Word(Ident, keyword), [Word(Ident, name)] + ([OPEN] + ws));
    var ts1 := Advance(ts);
    NameReads(ts1, name, [OPEN] + ws);
    WordAt(Advance(ts1), OPEN, ws);
    rest := Advance(Advance(ts1));
  }

  lemma CloseReads<T>(value: T, ts: seq<Token>, ws: seq<Word>)
    requires Strip(ts) == [CLOSE] + ws
    ensures AtBlockEnd(ts)
    ensures Close(Done(value, ts)) == Done(value, Advance(ts)) && Strip(Advance(ts)) == ws
  {
    WordAt(ts, CLOSE, ws);
  }

  // ---------------------------------------------------------------- budgets

  lemma CurrencyReads(n: Numbers, ts: seq<Token>, keyword: string, amount: nat, ws: seq<Word>)
    returns (rest: seq<Token>)
    requires n.parseFloat(Digits(amount)) == Some(amount as real)
    requires Strip(ts) == [Word(Ident, keyword), Word(Dollar, "$"), Word(Number, Digits(amount))] + ws
    ensures PeekIdent(ts) == keyword && !AtBlockEnd(ts)
    ensures Currency(n, Advance(ts)) == Done(amount as real, rest) && Strip(rest) == ws
  {
    var number := Word(Number, Digits(amount));
    assert Strip(ts) == [Word(Ident, keyword)] + ([Word(Dollar, "$")] + ([number] + ws));
    WordAt(ts, Word(Ident, keyword), [Word(Dollar, "$")] + ([number] + ws));
    WordAt(Advance(ts), Word(Dollar, "$"), [number] + ws);
    WordAt(Advance(Advance(ts)), number, ws);
    rest := Advance(Advance(Advance(ts)));
  }

  lemma MaxReads(n: Numbers, b: Budget, ts: seq<Token>, x: real, ws: seq<Word>) returns (rest: seq<Token>)
    requires ReadsAmount(n, x) && b.max == 0.0 && Strip(ts) == DollarWords("max", x) + ws
    ensures BudgetItems(n, b, ts) == BudgetItems(n, b.(max := Amount(x) as real), rest) && Strip(rest) == ws
  {
    if x > 0.0 {
      rest := CurrencyReads(n, ts, "max", Amount(x), ws);
    } else {
      assert DollarWords("max", x) + ws == ws;
      rest := ts;
    }
  }

  lemma DailyReads(n: Numbers, b: Budget, ts: seq<Token>, x: real, ws: seq<Word>) returns (rest: seq<Token>)
    requires ReadsAmount(n, x) && b.daily == 0.0 && Strip(ts) == DollarWords("daily", x) + ws
    ensures BudgetItems(n, b, ts) == BudgetItems(n, b.(daily := Amount(x) as real), rest) && Strip(rest) == ws
  {
    if x > 0.0 {
      rest := CurrencyReads(n, ts, "daily", Amount(x), ws);
    } else {
      assert DollarWords("daily", x) + ws == ws;
      rest := ts;
    }
  }

  lemma CallsReads(n: Numbers, b: Budget, ts: seq<Token>, calls: int, ws: seq<Word>) returns (rest: seq<Token>)
    requires ReadsCalls(n, calls) && b.maxCalls == 0 && Strip(ts) == CallsWords(calls) + ws
    ensures BudgetItems(n, b, ts) == BudgetItems(n, b.(maxCalls := if calls > 0 then calls else 0), rest)
      && Strip(rest) == ws
  {
    if calls > 0 {
      var number := Word(Number, Digits(calls));
      assert Strip(ts) == [Word(Ident, "max_calls")] + ([number] + ws);
      WordAt(ts, Word(Ident, "max_calls"), [number] + ws);
      WordAt(Advance(ts), number, ws);
      rest := Advance(Advance(ts));
    } else {
      assert CallsWords(calls) + ws == ws;
      rest := ts;
    }
  }

  lemma ExceedReads(n: Numbers, b: Budget, ts: seq<Token>, v: string, ws: seq<Word>) returns (rest: seq<Token>)
    requires b.onExceed == "" && Strip(ts) == ExceedWords(v) + ws
    ensures BudgetItems(n, b, ts) == BudgetItems(n, b.(onExceed := v), rest) && Strip(rest) == ws
  {
    if v == "" {
      assert ExceedWords(v) + ws == ws;
      rest := ts;
    } else {
      assert Strip(ts) == [Word(Ident, "on_exceed")] + ([Word(Ident, v)] + ws);
      WordAt(ts, Word(Ident, "on_exceed"), [Word(Ident, v)] + ws);
      NameReads(Advance(ts), v, ws);
      rest := Advance(Advance(ts));
    }
  }

  lemma BudgetReads(n: Numbers, ts: seq<Token>, b: PrintBudget, ws: seq<Word>) returns (rest: seq<Token>)
    requires ReadsBudget(n, Some(b)) && BudgetOk(b) && Strip(ts) == BudgetWords(b) + ws
    ensures PeekIdent(ts) == "budget" && !AtBlockEnd(ts)
    ensures BudgetBlock(n, ts) == Done(RereadBudget(b), rest) && Strip(rest) == ws
  {
    var w4 := ExceedWords(b.onExceed) + ([CLOSE] + ws);
    var w3 := CallsWords(b.maxCalls) + w4;
    var w2 := DollarWords("daily", b.dailyUSD) + w3;
    var w1 := DollarWords("max", b.sessionUSD) + w2;
    var open := [Word(Ident, "budget"), Word(Ident, "session"), OPEN];
    Nest6Words(open, DollarWords("max", b.sessionUSD), DollarWords("daily", b.dailyUSD),
      CallsWords(b.maxCalls), ExceedWords(b.onExceed), [CLOSE], ws);
    assert open + w1 == [open[0]] + (open[1..] + w1);
    WordAt(ts, open[0], open[1..] + w1);
    var ts0 := OpeningReads(ts, "budget", "session", w1);
    var ts1 := MaxReads(n, Budget("session", 0.0, 0.0, 0, ""), ts0, b.sessionUSD, w2);
    var ts2 := DailyReads(n, Budget("session", Amount(b.sessionUSD) as real, 0.0, 0, ""), ts1, b.dailyUSD, w3);
    var ts3 := CallsReads(n, RereadBudget(b).(maxCalls := 0, onExceed := ""), ts2, b.maxCalls, w4);
    var ts4 := ExceedReads(n, RereadBudget(b).(onExceed := ""), ts3, b.onExceed, [CLOSE] + ws);
    CloseReads(RereadBudget(b), ts4, ws);
    rest := Advance(ts4);
  }

  // ---------------------------------------------------------------- phases and rules

  lemma RuleWordsEndRule(r: PrintRule, parts: seq<string>, ws: seq<Word>)
    requires RuleOk(r, parts)
    ensures EndsRule(RuleWords(r, parts) + ws) && IsEffect((RuleWords(r, parts) + ws)[0].val)
  {
  }

  /** A phase with more permitted tools. */
  function AddTools(p: Phase, tools: seq<string>): Phase {
    p.(rules := p.rules + RereadTools(tools), tools := p.tools + tools)
  }

  lemma AddToolsSnoc(p: Phase, tools: seq<string>)
    ensures AddTools(p, []) == p
    ensures tools != [] ==>
      AddTools(p, tools) == AddTools(AddTools(p, tools[..|tools| - 1]), [tools[|tools| - 1]])
  {
    assert p.rules + [] == p.rules && p.tools + [] == p.tools;
    if tools != [] {
      var front, last := tools[..|tools| - 1], tools[|tools| - 1];
      assert [last][..0] == [];
      assert RereadTools([last]) == [Rule("permit", last, "", "", "")];
      assert (p.rules + RereadTools(front)) + RereadTools([last]) == p.rules + RereadTools(tools);
      assert (p.tools + front) + [last] == p.tools + tools;
    }
  }

  lemma {:induction false} ToolsRead(p: Phase, ts: seq<Token>, tools: seq<string>, ws: seq<Word>)
    returns (rest: seq<Token>)
    requires (forall i :: 0 <= i < |tools| ==> ToolWords(tools[i]) != [])
    requires Strip(ts) == ToolsWords(tools) + ws && EndsRule(ws)
    ensures PhaseItems(p, ts) == PhaseItems(AddTools(p, tools), rest) && Strip(rest) == ws
  {
    AddToolsSnoc(p, tools);
    if tools == [] {
      assert ToolsWords(tools) + ws == ws;
      rest := ts;
    } else {
      var front, last := tools[..|tools| - 1], tools[|tools| - 1];
      var words := RuleWords(PermitRule(last), []);
      PermitOk(last);
      RuleWordsEndRule(PermitRule(last), [], ws);
      AppendAssociates(ToolsWords(front), words, ws);
      var mid := ToolsRead(p, ts, front, words + ws);
      rest := ToolReads(AddTools(p, front), mid, last, ws);
    }
  }

  lemma PhaseItemsAtRule(p: Phase, ts: seq<Token>, rule: Rule, rest: seq<Token>)
    requires IsEffect(PeekIdent(ts)) && !AtBlockEnd(ts) && FlatRule(ts) == Done(rule, rest)
    ensures PhaseItems(p, ts) == PhaseItems(p.(rules := p.rules + [rule], tools := p.tools + [rule.tool]), rest)
  {
  }

  lemma ToolReads(p: Phase, ts: seq<Token>, tool: string, ws: seq<Word>) returns (rest: seq<Token>)
    requires ToolWords(tool) != [] && Strip(ts) == RuleWords(PermitRule(tool), []) + ws && EndsRule(ws)
    ensures PhaseItems(p, ts) == PhaseItems(AddTools(p, [tool]), rest) && Strip(rest) == ws
  {
    var r := PermitRule(tool);
    PermitOk(tool);
    RuleReads(r, [], ts, ws);
    rest := FlatRule(ts).rest;
    RuleWordsAt(r, [], ts, ws);
    PhaseItemsAtRule(p, ts, Reread(r), rest);
    assert [tool][..0] == [];
    assert RereadTools([tool]) == [Reread(r)];
  }

  lemma RuleWordsAt(r: PrintRule, parts: seq<string>, ts: seq<Token>, ws: seq<Word>)
    requires RuleOk(r, parts) && Strip(ts) == RuleWords(r, parts) + ws
    ensures IsEffect(PeekIdent(ts)) && !AtBlockEnd(ts)
  {
    var words := RuleWords(r, parts) + ws;
    assert words == [Word(Ident, EffectWord(r))] + words[1..];
    WordAt(ts, Word(Ident, EffectWord(r)), words[1..]);
  }

  lemma CloseEndsRule(ws: seq<Word>)
    ensures EndsRule([CLOSE] + ws)
  {
  }

  lemma PhaseReads(ts: seq<Token>, p: (string, seq<string>), ws: seq<Word>) returns (rest: seq<Token>)
    requires PhaseOk(p) && Strip(ts) == PhaseWords(p) + ws
    ensures PeekIdent(ts) == "phase" && !AtBlockEnd(ts)
    ensures PhaseBlock(ts) == Done(Phase(p.0, p.1, RereadTools(p.1), "", ""), rest) && Strip(rest) == ws
  {
    var open := [Word(Ident, "phase"), Word(Ident, p.0), OPEN];
    var w1 := ToolsWords(p.1) + ([CLOSE] + ws);
    AppendAssociates(open, ToolsWords(p.1) + [CLOSE], ws);
    AppendAssociates(ToolsWords(p.1), [CLOSE], ws);
    assert open + w1 == [open[0]] + (open[1..] + w1);
    WordAt(ts, open[0], open[1..] + w1);
    var ts0 := OpeningReads(ts, "phase", p.0, w1);
    CloseEndsRule(ws);
    var ts1 := ToolsRead(Phase(p.0, [], [], "", ""), ts0, p.1, [CLOSE] + ws);
    var phase := Phase(p.0, p.1, RereadTools(p.1), "", "");
    assert [] + RereadTools(p.1) == RereadTools(p.1) && [] + p.1 == p.1;
    CloseReads(phase, ts1, ws);
    rest := Advance(ts1);
  }

  lemma {:induction false} RulesRead(ts: seq<Token>, rs: seq<PrintRule>, conds: seq<seq<string>>, ws: seq<Word>)
    returns (rest: seq<Token>)
    requires RulesOk(rs, conds) && Strip(ts) == RulesWords(rs, conds) + ws && EndsRule(ws)
    ensures RuleList(ts) == PrependRules(RereadRules(rs), RuleList(rest)) && Strip(rest) == ws
  {
    if rs == [] {
      assert RulesWords(rs, conds) + ws == ws;
      PrependRulesTwice([], [], RuleList(ts));
      rest := ts;
    } else {
      var k := |rs| - 1;
      var words := RuleWords(rs[k], conds[k]);
      RuleWordsEndRule(rs[k], conds[k], ws);
      AppendAssociates(RulesWords(rs[..k], conds[..k]), words, ws);
      var mid := RulesRead(ts, rs[..k], conds[..k], words + ws);
      RuleReads(rs[k], conds[k], mid, ws);
      rest := FlatRule(mid).rest;
      RuleWordsAt(rs[k], conds[k], mid, ws);
      RuleListStep(mid, Reread(rs[k]), rest);
      PrependRulesTwice(RereadRules(rs[..k]), [Reread(rs[k])], RuleList(rest));
    }
  }

  lemma RuleListStep(ts: seq<Token>, rule: Rule, rest: seq<Token>)
    requires FlatRule(ts) == Done(rule, rest) && !AtBlockEnd(ts)
    ensures RuleList(ts) == PrependRules([rule], RuleList(rest))
  {
  }

  lemma RulesBlockAt(ts: seq<Token>, ts2: seq<Token>, w1: seq<Word>)
    requires Strip(ts) == [Word(Ident, "rules")] + ([OPEN] + w1) && ts2 == Advance(Advance(ts))
    ensures PeekIdent(ts) == "rules" && !AtBlockEnd(ts)
    ensures RulesBlock(ts) == Close(RuleList(ts2)) && Strip(ts2) == w1
  {
    WordAt(ts, Word(Ident, "rules"), [OPEN] + w1);
    WordAt(Advance(ts), OPEN, w1);
  }

  lemma NestBlock(a: Word, b: Word, c: seq<Word>, d: seq<Word>, ws: seq<Word>)
    ensures ([a, b] + (c + d)) + ws == [a] + ([b] + (c + (d + ws)))
  {
  }

  lemma RulesBlockReads(ts: seq<Token>, rs: seq<PrintRule>, conds: seq<seq<string>>, ws: seq<Word>)
    returns (rest: seq<Token>)
    requires rs != [] && RulesOk(rs, conds) && Strip(ts) == RulesBlockWords(rs, conds) + ws
    ensures PeekIdent(ts) == "rules" && !AtBlockEnd(ts)
    ensures RulesBlock(ts) == Done(RereadRules(rs), rest) && Strip(rest) == ws
  {
    var w1 := RulesWords(rs, conds) + ([CLOSE] + ws);
    NestBlock(Word(Ident, "rules"), OPEN, RulesWords(rs, conds), [CLOSE], ws);
    var ts2 := Advance(Advance(ts));
    RulesBlockAt(ts, ts2, w1);
    CloseEndsRule(ws);
    var ts1 := RulesRead(ts2, rs, conds, [CLOSE] + ws);
    CloseReads(RereadRules(rs), ts1, ws);
    assert PrependRules(RereadRules(rs), Done([], ts1)) == Done(RereadRules(rs), ts1) by {
      assert RereadRules(rs) + [] == RereadRules(rs);
    }
    rest := Advance(ts1);
  }

  // ---------------------------------------------------------------- the agent block

  lemma DefaultReads(n: Numbers, a: Agent, ts: seq<Token>, v: string, ws: seq<Word>) returns (rest: seq<Token>)
    requires a.default_ == "" && Strip(ts) == DefaultWords(v) + ws
    ensures AgentItems(n, a, ts) == AgentItems(n, a.(default_ := v), rest) && Strip(rest) == ws
  {
    if v == "" {
      assert DefaultWords(v) + ws == ws;
      rest := ts;
    } else {
      assert Strip(ts) == [Word(Ident, "default")] + ([Word(Ident, v)] + ws);
      WordAt(ts, Word(Ident, "default"), [Word(Ident, v)] + ws);
      NameReads(Advance(ts), v, ws);
      rest := Advance(Advance(ts));
    }
  }

  lemma VarValueReads(ts: seq<Token>, v: string, ws: seq<Word>) returns (rest: seq<Token>)
    requires VarValueWords(v) != [] && Strip(ts) == VarValueWords(v) + ws
    ensures VarValue(ts) == Done(v, rest) && Strip(rest) == ws
  {
    var words := VarValueWords(v);
    if |words| == 1 {
      assert words == [words[0]];
      WordAt(ts, words[0], ws);
      rest := Advance(ts);
    } else {
      assert words + ws == [words[0]] + ([words[1]] + ws);
      WordAt(ts, words[0], [words[1]] + ws);
      WordAt(Advance(ts), words[1], ws);
      assert v == "$" + v[1..];
      rest := Advance(Advance(ts));
    }
  }

  lemma AgentItemsAtVar(
    n: Numbers, a: Agent, ts: seq<Token>, name: string, ts1: seq<Token>, v: string, rest: seq<Token>)
    requires PeekIdent(ts) == "var" && !AtBlockEnd(ts)
    requires Value(Advance(ts)) == Done(name, ts1) && VarValue(ts1) == Done(v, rest)
    ensures AgentItems(n, a, ts) == AgentItems(n, a.(vars := a.vars[name := v]), rest)
  {
  }

  lemma VarReads(n: Numbers, a: Agent, ts: seq<Token>, v: (string, string), ws: seq<Word>) returns (rest: seq<Token>)
    requires VarOk(v) && Strip(ts) == VarWords(v) + ws
    ensures AgentItems(n, a, ts) == AgentItems(n, a.(vars := a.vars[v.0 := v.1]), rest) && Strip(rest) == ws
  {
    var w1 := VarValueWords(v.1) + ws;
    assert Strip(ts) == [Word(Ident, "var")] + ([Word(Ident, v.0)] + w1);
    WordAt(ts, Word(Ident, "var"), [Word(Ident, v.0)] + w1);
    NameReads(Advance(ts), v.0, w1);
    rest := VarValueReads(Advance(Advance(ts)), v.1, ws);
    AgentItemsAtVar(n, a, ts, v.0, Advance(Advance(ts)), v.1, rest);
  }

  lemma {:induction false} VarsRead(n: Numbers, a: Agent, ts: seq<Token>, vars: seq<(string, string)>, ws: seq<Word>)
    returns (rest: seq<Token>)
    requires a.vars == map[] && (forall i :: 0 <= i < |vars| ==> VarOk(vars[i]))
    requires Strip(ts) == VarsWords(vars) + ws
    ensures AgentItems(n, a, ts) == AgentItems(n, a.(vars := VarMap(vars)), rest) && Strip(rest) == ws
  {
    if vars == [] {
      assert VarsWords(vars) + ws == ws;
      rest := ts;
    } else {
      var front, last := vars[..|vars| - 1], vars[|vars| - 1];
      AppendAssociates(VarsWords(front), VarWords(last), ws);
      var mid := VarsRead(n, a, ts, front, VarWords(last) + ws);
      rest := VarReads(n, a.(vars := VarMap(front)), mid, last, ws);
    }
  }

  lemma AgentItemsAtPhase(n: Numbers, a: Agent, ts: seq<Token>, p: Phase, rest: seq<Token>)
    requires PeekIdent(ts) == "phase" && !AtBlockEnd(ts) && PhaseBlock(ts) == Done(p, rest)
    ensures AgentItems(n, a, ts) == AgentItems(n, a.(phases := a.phases + [p]), rest)
  {
  }

  lemma {:induction false} PhasesRead(
    n: Numbers, a: Agent, ts: seq<Token>, ps: seq<(string, seq<string>)>, ws: seq<Word>)
    returns (rest: seq<Token>)
    requires a.phases == [] && (forall i :: 0 <= i < |ps| ==> PhaseOk(ps[i]))
    requires Strip(ts) == PhasesWords(ps) + ws
    ensures AgentItems(n, a, ts) == AgentItems(n, a.(phases := RereadPhases(ps)), rest) && Strip(rest) == ws
  {
    if ps == [] {
      assert PhasesWords(ps) + ws == ws;
      rest := ts;
    } else {
      var front, last := ps[..|ps| - 1], ps[|ps| - 1];
      AppendAssociates(PhasesWords(front), PhaseWords(last), ws);
      var mid := PhasesRead(n, a, ts, front, PhaseWords(last) + ws);
      rest := PhaseReads(mid, last, ws);
      AgentItemsAtPhase(
        n, a.(phases := RereadPhases(front)), mid, Phase(last.0, last.1, RereadTools(last.1), "", ""), rest);
    }
  }

  lemma AgentItemsAtBudget(n: Numbers, a: Agent, ts: seq<Token>, b: Budget, rest: seq<Token>)
    requires PeekIdent(ts) == "budget" && !AtBlockEnd(ts) && BudgetBlock(n, ts) == Done(b, rest)
    ensures AgentItems(n, a, ts) == AgentItems(n, a.(budgets := a.budgets + [b]), rest)
  {
  }

  lemma BudgetPartReads(n: Numbers, a: Agent, ts: seq<Token>, b: Option<PrintBudget>, ws: seq<Word>)
    returns (rest: seq<Token>)
    requires ReadsBudget(n, b) && a.budgets == [] && (b.Some? ==> BudgetOk(b.value)) && Strip(ts) == BudgetPart(b) + ws
    ensures AgentItems(n, a, ts) == AgentItems(n, a.(budgets := if b.Some? then [RereadBudget(b.value)] else []), rest)
    ensures Strip(rest) == ws
  {
    if b.None? {
      assert BudgetPart(b) + ws == ws;
      rest := ts;
    } else {
      rest := BudgetReads(n, ts, b.value, ws);
      AgentItemsAtBudget(n, a, ts, RereadBudget(b.value), rest);
      assert [] + [RereadBudget(b.value)] == [RereadBudget(b.value)];
    }
  }

  lemma AgentItemsAtRules(n: Numbers, a: Agent, ts: seq<Token>, rules: seq<Rule>, rest: seq<Token>)
    requires PeekIdent(ts) == "rules" && !AtBlockEnd(ts) && RulesBlock(ts) == Done(rules, rest)
    ensures AgentItems(n, a, ts) == AgentItems(n, a.(rules := a.rules + rules), rest)
  {
  }

  lemma RulesPartReads(n: Numbers, a: Agent, ts: seq<Token>, rs: seq<PrintRule>, conds: seq<seq<string>>, ws: seq<Word>)
    returns (rest: seq<Token>)
    requires a.rules == [] && RulesOk(rs, conds) && Strip(ts) == RulesBlockWords(rs, conds) + ws
    ensures AgentItems(n, a, ts) == AgentItems(n, a.(rules := RereadRules(rs)), rest) && Strip(rest) == ws
  {
    if rs == [] {
      assert RulesBlockWords(rs, conds) + ws == ws;
      rest := ts;
    } else {
      rest := RulesBlockReads(ts, rs, conds, ws);
      AgentItemsAtRules(n, a, ts, RereadRules(rs), rest);
      assert [] + RereadRules(rs) == RereadRules(rs);
    }
  }

  lemma BodyReads(n: Numbers, ts: seq<Token>, d: PrintDoc, conds: seq<seq<string>>) returns (rest: seq<Token>)
    requires ReadsBudget(n, d.budget) && DocOk(d, conds) && Strip(ts) == BodyWords(d, conds)
    ensures AgentItems(n, Agent(d.agentID, "", "", "", "", [], [], [], map[]), ts) == Done(RereadDoc(d), rest)
    ensures Strip(rest) == [CLOSE] + [END]
  {
    var a := Agent(d.agentID, "", "", "", "", [], [], [], map[]);
    var w4 := RulesBlockWords(d.rules, conds) + [CLOSE, END];
    var w3 := PhasesWords(d.phases) + w4;
    var w2 := BudgetPart(d.budget) + w3;
    var ts1 := DefaultReads(n, a, ts, d.defaultEffect, VarsWords(d.vars) + w2);
    var a1 := a.(default_ := d.defaultEffect);
    var ts2 := VarsRead(n, a1, ts1, d.vars, w2);
    var a2 := a1.(vars := VarMap(d.vars));
    var ts3 := BudgetPartReads(n, a2, ts2, d.budget, w3);
    var a3 := a2.(budgets := if d.budget.Some? then [RereadBudget(d.budget.value)] else []);
    var ts4 := PhasesRead(n, a3, ts3, d.phases, w4);
    var a4 := a3.(phases := RereadPhases(d.phases));
    rest := RulesPartReads(n, a4, ts4, d.rules, conds, [CLOSE, END]);
    assert [CLOSE, END] == [CLOSE] + [END];
    CloseReads(RereadDoc(d), rest, [END]);
  }

  lemma AgentBlockAt(n: Numbers, ts: seq<Token>, id: string, ts1: seq<Token>, a: Agent, ts2: seq<Token>, ws: seq<Word>)
    requires Opening(ts, "agent") == Done(id, ts1)
    requires AgentItems(n, Agent(id, "", "", "", "", [], [], [], map[]), ts1) == Done(a, ts2)
    requires Strip(ts2) == [CLOSE] + ws
    ensures AgentBlock(n, ts) == Done(a, Advance(ts2)) && Strip(Advance(ts2)) == ws
  {
    CloseReads(a, ts2, ws);
  }

  lemma AgentBlockReads(n: Numbers, ts: seq<Token>, d: PrintDoc, conds: seq<seq<string>>) returns (rest: seq<Token>)
    requires ReadsBudget(n, d.budget) && DocOk(d, conds) && Strip(ts) == DocWords(d, conds)
    ensures PeekIdent(ts) == "agent" && AgentBlock(n, ts) == Done(RereadDoc(d), rest) && Strip(rest) == [END]
  {
    var body := BodyWords(d, conds);
    NamedOpeningAt(ts, "agent", d.agentID, body);
    var ts1 := OpeningReads(ts, "agent", d.agentID, body);
    var ts2 := BodyReads(n, ts1, d, conds);
    AgentBlockAt(n, ts, d.agentID, ts1, RereadDoc(d), ts2, [END]);
    rest := Advance(ts2);
  }

  lemma NamedOpeningAt(ts: seq<Token>, keyword: string, name: string, ws: seq<Word>)
    requires Strip(ts) == [Word(Ident, keyword), Word(Ident, name), OPEN] + ws
    ensures PeekIdent(ts) == keyword && !AtBlockEnd(ts)
  {
    assert Strip(ts) == [Word(Ident, keyword)] + ([Word(Ident, name), OPEN] + ws);
    WordAt(ts, Word(Ident, keyword), [Word(Ident, name), OPEN] + ws);
  }

  lemma DocumentReads(n: Numbers, ts: seq<Token>, d: PrintDoc, conds: seq<seq<string>>)
    requires ReadsBudget(n, d.budget) && DocOk(d, conds) && Strip(ts) == DocWords(d, conds)
    ensures ParseTokens(n, ts) == Ok(Document([RereadDoc(d)], []))
  {
    var rest := AgentBlockReads(n, ts, d, conds);
    StripStep(rest, END, []);
    assert [] + [RereadDoc(d)] == [RereadDoc(d)];
    assert DocumentItems(n, Document([RereadDoc(d)], []), rest) == Ok(Document([RereadDoc(d)], []));
  }

  /** Some conditions make the document one that can be printed. */
  ghost predicate Printable(d: PrintDoc) {
    exists conds :: DocOk(d, conds)
  }

  /**
   Printing a document and parsing the text gives the document back, if the conversions read back the numbers
   that its budget prints.
   */
  lemma PrintThenParse(n: Numbers, d: PrintDoc)
    requires ReadsBudget(n, d.budget) && Printable(d)
    ensures ParseSource(n, DocText(d)) == Ok(Document([RereadDoc(d)], []))
  {
    var conds :| DocOk(d, conds);
    DocLexes(d, conds);
    assert LexesAt(DocText(d), DocWords(d, conds), 1);
    DocumentReads(n, Lex(DocText(d), 1).value, d, conds);
  }

  /** A positive amount comes back as it was exactly when it is a whole number of dollars. */
  lemma AmountKeptIffWhole(b: PrintBudget)
    requires b.sessionUSD > 0.0 && b.dailyUSD > 0.0
    ensures RereadBudget(b).max == b.sessionUSD <==> b.sessionUSD == b.sessionUSD.Floor as real
    ensures RereadBudget(b).daily == b.dailyUSD <==> b.dailyUSD == b.dailyUSD.Floor as real
  {
    RoundKeepsIffWhole(b.sessionUSD);
    RoundKeepsIffWhole(b.dailyUSD);
  }

  lemma RoundKeepsIffWhole(x: real)
    ensures Round(x) as real == x <==> x == x.Floor as real
  {
    if Round(x) as real == x {
      assert (Round(x) as real).Floor == Round(x);
    }
  }
  /** What is printed of any other amount is the nearest whole number, of two equally near ones the even one. */
  lemma PrintsNearest(x: real)
    ensures -0.5 <= Round(x) as real - x <= 0.5
    ensures Round(x) as real - x == 0.5 || Round(x) as real - x == -0.5 ==> Round(x) % 2 == 0
  {
  }
}
