/** Whatever rules the parser accepts, printing them and parsing the text gives the same rules. */
module FplFixpoint {
  import opened Basics
  import opened FplLexer
  import opened FplParser
  import opened FplPrinter
  import opened FplWords
  import opened FplRoundTrip
  import opened FplDocument
  import opened FplReparse

  // ---------------------------------------------------------------- what the tokenizer produces

  predicate TokenOk(t: Token) {
    match t.kind
    case Ident => IdentWord(t.val) || BangWord(t.val) || t.val == "!"
    case Str => RawString(t.val)
    case Number => NumberWord(t.val)
    case _ => true
  }

  predicate AllOk(ts: seq<Token>) {
    forall i :: 0 <= i < |ts| ==> TokenOk(ts[i])
  }

  lemma {:induction false} ClosedIsRaw(s: string, j: nat, k: nat)
    requires CloseQuote(s, j) == Some(k)
    ensures RawString(s[j..k])
    decreases |s| - j
  {
    if s[j] != '"' {
      if s[j] == '\\' {
        ClosedIsRaw(s, j + 2, k);
        assert s[j..k][2..] == s[j + 2..k];
      } else {
        ClosedIsRaw(s, j + 1, k);
        assert s[j..k][1..] == s[j + 1..k];
      }
    }
  }

  lemma FrontOk(s: string, line: nat)
    requires s != "" && Front(s).Take?
    ensures TokenOk(Token(Front(s).kind, Front(s).val, line))
  {
    var c := s[0];
    if c == '"' {
      ClosedIsRaw(s, 1, CloseQuote(s, 1).value);
    } else if Front(s).kind.Number? {
      var n := NumberLength(s);
      assert Front(s).val == s[..n];
    } else if Front(s).kind.Ident? {
      IdentFrontOk(s);
    }
  }

  lemma IdentFrontOk(s: string)
    requires s != "" && Front(s).Take? && Front(s).kind.Ident?
    ensures var w := Front(s).val; IdentWord(w) || BangWord(w) || w == "!"
  {
    var n := Run(IsIdentCont, s);
    var w := s[..n];
    assert Front(s).val == w;
    assert w[0] == s[0];
    assert AllIdentCont(w);
    if s[0] == '!' && n == 1 {
      assert w == "!";
    }
  }

  lemma {:induction false} LexedOk(s: string, line: nat)
    requires Lex(s, line).Ok?
    ensures AllOk(Lex(s, line).value)
  {
    if s != "" {
      match Front(s) {
        case Skip(n, newline) => LexedOk(s[n..], if newline then line + 1 else line);
        case Take(kind, val, n) =>
          FrontOk(s, line);
          LexedOk(s[n..], line);
        case _ =>
      }
    }
  }

  // ---------------------------------------------------------------- what the parser makes of it

  lemma AdvanceOk(ts: seq<Token>)
    requires AllOk(ts)
    ensures AllOk(Advance(ts)) && TokenOk(Peek(ts))
  {
  }

  lemma {:induction false} PlainIsRaw(s: string)
    requires forall i :: 0 <= i < |s| ==> s[i] != '"' && s[i] != '\\'
    ensures RawString(s)
  {
    if s != "" {
      PlainIsRaw(s[1..]);
    }
  }

  lemma WordIsRaw(s: string)
    requires IdentWord(s) || BangWord(s) || s == "!" || NumberWord(s)
    ensures forall i :: 0 <= i < |s| ==> s[i] != '"' && s[i] != '\\'
    ensures RawString(s)
  {
    PlainIsRaw(s);
  }

  lemma ValueOk(ts: seq<Token>)
    requires AllOk(ts) && Value(ts).Done?
    ensures RawString(Value(ts).value) && AllOk(Value(ts).rest)
  {
    var t, rest := Peek(ts), Advance(ts);
    AdvanceOk(ts);
    AdvanceOk(rest);
    if t.kind.Ident? {
      WordIsRaw(t.val);
    } else if t.kind.Number? {
      WordIsRaw(t.val);
      if Peek(rest).kind.Ident? && IsUnitSuffix(Peek(rest).val) {
        WordIsRaw(Peek(rest).val);
        PlainIsRaw(t.val + Peek(rest).val);
      }
    }
  }

  lemma TextIsPart(t: Token, line: nat)
    requires TokenOk(t) && !EndsCondition(t, line)
    ensures PartOk(Text(t))
  {
    if t.kind.Str? {
      var p := "\"" + t.val + "\"";
      assert p[1..|p| - 1] == t.val;
    }
  }

  lemma {:induction false} ConditionOk(ts: seq<Token>, line: nat)
    requires AllOk(ts)
    ensures PartsOk(Condition(ts, line).0) && AllOk(Condition(ts, line).1)
    decreases |ts|
  {
    if !EndsCondition(Peek(ts), line) {
      AdvanceOk(ts);
      TextIsPart(Peek(ts), line);
      ConditionOk(Advance(ts), line);
    }
  }

  lemma SkipColonOk(ts: seq<Token>)
    requires AllOk(ts)
    ensures AllOk(SkipColon(ts))
  {
    AdvanceOk(ts);
  }

  /** A condition is the texts of tokens, joined; notify and reason are insides of string literals. */
  ghost predicate Shaped(r: Rule) {
    && (exists parts :: PartsOk(parts) && r.condition == Join(parts))
    && RawString(r.notify) && RawString(r.reason)
  }

  lemma {:induction false} ClausesOk(rule: Rule, ts: seq<Token>)
    requires Shaped(rule) && AllOk(ts) && Clauses(rule, ts).Done?
    ensures Shaped(Clauses(rule, ts).value) && AllOk(Clauses(rule, ts).rest)
    decreases |ts|
  {
    AdvanceOk(ts);
    if Peek(ts).kind.Eof? {
    } else if PeekIdent(ts) == "when" {
      var line := Peek(Advance(ts)).line;
      ConditionOk(Advance(ts), line);
      var c := Condition(Advance(ts), line);
      ClausesOk(rule.(condition := Join(c.0)), c.1);
    } else if PeekIdent(ts) == "notify" {
      SkipColonOk(Advance(ts));
      ValueOk(SkipColon(Advance(ts)));
      var v := Value(SkipColon(Advance(ts)));
      ClausesOk(rule.(notify := v.value), v.rest);
    } else if PeekIdent(ts) == "reason" {
      SkipColonOk(Advance(ts));
      ValueOk(SkipColon(Advance(ts)));
      var v := Value(SkipColon(Advance(ts)));
      ClausesOk(rule.(reason := v.value), v.rest);
    }
  }

  lemma FlatRuleOk(ts: seq<Token>)
    requires AllOk(ts) && FlatRule(ts).Done?
    ensures Shaped(FlatRule(ts).value) && AllOk(FlatRule(ts).rest)
  {
    AdvanceOk(ts);
    AdvanceOk(Advance(ts));
    var strict := Peek(ts).val == "deny" && Peek(Advance(ts)).kind.Bang?;
    var at := if strict then Advance(Advance(ts)) else Advance(ts);
    ValueOk(at);
    var rule := Rule(if strict then "deny!" else Peek(ts).val, Value(at).value, "", "", "");
    assert Join([]) == "" && PartsOk([]);
    ClausesOk(rule, Value(at).rest);
  }

  predicate AllEffects(rs: seq<Rule>) {
    forall i :: 0 <= i < |rs| ==> IsEffect(rs[i].effect)
  }

  /** The tools are tokens: identifiers, or numbers with or without a unit. */
  predicate AllTools(rs: seq<Rule>) {
    forall i :: 0 <= i < |rs| ==> ToolWords(rs[i].tool) != []
  }

  lemma {:induction false} FlatRulesOk(ts: seq<Token>)
    requires AllOk(ts) && FlatRules(ts).Ok?
    ensures forall i :: 0 <= i < |FlatRules(ts).value| ==> Shaped(FlatRules(ts).value[i])
    decreases |ts|
  {
    if !Peek(ts).kind.Eof? {
      FlatRuleOk(ts);
      FlatRulesOk(FlatRule(ts).rest);
    }
  }

  // ---------------------------------------------------------------- the rules of whole documents

  predicate Fine<T>(p: Parse<T>) {
    p.Done? ==> AllOk(p.rest)
  }

  ghost predicate AllShaped(rs: seq<Rule>) {
    forall i :: 0 <= i < |rs| ==> Shaped(rs[i])
  }

  lemma OpeningFine(ts: seq<Token>, word: string)
    requires AllOk(ts)
    ensures Fine(Opening(ts, word))
  {
    AdvanceOk(ts);
    if ExpectWord(ts, word).Done? && Value(Advance(ts)).Done? {
      ValueOk(Advance(ts));
      AdvanceOk(Value(Advance(ts)).rest);
    }
  }

  lemma CloseFine<T>(p: Parse<T>)
    requires Fine(p)
    ensures Fine(Close(p))
  {
    if p.Done? {
      AdvanceOk(p.rest);
    }
  }

  lemma CurrencyFine(n: Numbers, ts: seq<Token>)
    requires AllOk(ts)
    ensures Fine(Currency(n, ts))
  {
    AdvanceOk(ts);
    AdvanceOk(if Peek(ts).kind.Dollar? then Advance(ts) else ts);
  }

  lemma {:induction false} BudgetItemsFine(n: Numbers, b: Budget, ts: seq<Token>)
    requires AllOk(ts)
    ensures Fine(BudgetItems(n, b, ts))
    decreases |ts|
  {
    if AtBlockEnd(ts) {
    } else if PeekIdent(ts) == "max" || PeekIdent(ts) == "daily" {
      AdvanceOk(ts);
      CurrencyFine(n, Advance(ts));
      match Currency(n, Advance(ts)) {
        case Fail(_) =>
        case Done(v, rest) => BudgetItemsFine(n, if PeekIdent(ts) == "max" then b.(max := v) else b.(daily := v), rest);
      }
    } else if PeekIdent(ts) == "max_calls" {
      AdvanceOk(ts);
      AdvanceOk(Advance(ts));
      match n.parseInt(Peek(Advance(ts)).val) {
        case None =>
        case Some(v) => BudgetItemsFine(n, b.(maxCalls := v), Advance(Advance(ts)));
      }
    } else if PeekIdent(ts) == "on_exceed" {
      AdvanceOk(ts);
      match Value(Advance(ts)) {
        case Fail(_) =>
        case Done(v, rest) =>
          ValueOk(Advance(ts));
          BudgetItemsFine(n, b.(onExceed := v), rest);
      }
    }
  }

  lemma BudgetBlockFine(n: Numbers, ts: seq<Token>)
    requires AllOk(ts)
    ensures Fine(BudgetBlock(n, ts))
  {
    OpeningFine(ts, "budget");
    match Opening(ts, "budget") {
      case Fail(_) =>
      case Done(id, rest) =>
        BudgetItemsFine(n, Budget(id, 0.0, 0.0, 0, ""), rest);
        CloseFine(BudgetItems(n, Budget(id, 0.0, 0.0, 0, ""), rest));
    }
  }

  lemma {:induction false} RuleListFine(ts: seq<Token>)
    requires AllOk(ts)
    ensures Fine(RuleList(ts)) && (RuleList(ts).Done? ==> AllShaped(RuleList(ts).value))
    decreases |ts|
  {
    if !AtBlockEnd(ts) && FlatRule(ts).Done? {
      FlatRuleOk(ts);
      RuleListFine(FlatRule(ts).rest);
    }
  }

  lemma RulesBlockFine(ts: seq<Token>)
    requires AllOk(ts)
    ensures Fine(RulesBlock(ts)) && (RulesBlock(ts).Done? ==> AllShaped(RulesBlock(ts).value))
  {
    AdvanceOk(ts);
    AdvanceOk(Advance(ts));
    RuleListFine(Advance(Advance(ts)));
    CloseFine(RuleList(Advance(Advance(ts))));
  }

  lemma ShapedSnoc(rs: seq<Rule>, more: seq<Rule>)
    requires AllShaped(rs) && AllShaped(more)
    ensures AllShaped(rs + more)
  {
    forall i | 0 <= i < |rs + more| ensures Shaped((rs + more)[i]) {
      assert (rs + more)[i] == if i < |rs| then rs[i] else more[i - |rs|];
    }
  }

  lemma OneShaped(r: Rule)
    requires Shaped(r)
    ensures AllShaped([r])
  {
  }

  lemma {:induction false} PhaseItemsFine(p: Phase, ts: seq<Token>)
    requires AllOk(ts) && AllShaped(p.rules)
    ensures Fine(PhaseItems(p, ts)) && (PhaseItems(p, ts).Done? ==> AllShaped(PhaseItems(p, ts).value.rules))
    decreases |ts|
  {
    if AtBlockEnd(ts) {
    } else if IsEffect(PeekIdent(ts)) {
      match FlatRule(ts) {
        case Fail(_) =>
        case Done(rule, rest) =>
          FlatRuleOk(ts);
          OneShaped(rule);
          ShapedSnoc(p.rules, [rule]);
          PhaseItemsFine(p.(rules := p.rules + [rule], tools := p.tools + [rule.tool]), rest);
      }
    } else if PeekIdent(ts) == "duration" || PeekIdent(ts) == "next" {
      AdvanceOk(ts);
      match Value(Advance(ts)) {
        case Fail(_) =>
        case Done(v, rest) =>
          ValueOk(Advance(ts));
          PhaseItemsFine(if PeekIdent(ts) == "duration" then p.(duration := v) else p.(next := v), rest);
      }
    }
  }

  lemma PhaseBlockFine(ts: seq<Token>)
    requires AllOk(ts)
    ensures Fine(PhaseBlock(ts)) && (PhaseBlock(ts).Done? ==> AllShaped(PhaseBlock(ts).value.rules))
  {
    OpeningFine(ts, "phase");
    match Opening(ts, "phase") {
      case Fail(_) =>
      case Done(id, rest) =>
        PhaseItemsFine(Phase(id, [], [], "", ""), rest);
        CloseFine(PhaseItems(Phase(id, [], [], "", ""), rest));
    }
  }

  lemma VarValueFine(ts: seq<Token>)
    requires AllOk(ts)
    ensures Fine(VarValue(ts))
  {
    AdvanceOk(ts);
    AdvanceOk(Advance(ts));
  }

  /** All the rules of an agent, those of its phases included. */
  ghost predicate AgentShaped(a: Agent) {
    AllShaped(a.rules) && forall i :: 0 <= i < |a.phases| ==> AllShaped(a.phases[i].rules)
  }

  ghost predicate AgentParsed(p: Parse<Agent>) {
    p.Done? ==> AllOk(p.rest) && AgentShaped(p.value)
  }

  lemma {:induction false} AgentItemsFine(n: Numbers, a: Agent, ts: seq<Token>)
    requires AllOk(ts) && AgentShaped(a)
    ensures AgentParsed(AgentItems(n, a, ts))
    decreases |ts|
  {
    var kw := PeekIdent(ts);
    AdvanceOk(ts);
    if AtBlockEnd(ts) {
    } else if kw in {"default", "model", "framework", "version"} {
      match Value(Advance(ts)) {
        case Fail(_) =>
        case Done(v, rest) =>
          ValueOk(Advance(ts));
          AgentItemsFine(n,
            if kw == "default" then a.(default_ := v)
            else if kw == "model" then a.(model := v)
            else if kw == "framework" then a.(framework := v)
            else a.(version := v), rest);
      }
    } else if kw == "var" {
      VarItemFine(n, a, ts);
    } else if kw == "budget" {
      BudgetBlockFine(n, ts);
      match BudgetBlock(n, ts) {
        case Fail(_) =>
        case Done(b, rest) => AgentItemsFine(n, a.(budgets := a.budgets + [b]), rest);
      }
    } else if kw == "phase" {
      PhaseBlockFine(ts);
      match PhaseBlock(ts) {
        case Fail(_) =>
        case Done(p, rest) => AgentItemsFine(n, a.(phases := a.phases + [p]), rest);
      }
    } else if kw == "rules" {
      RulesBlockFine(ts);
      match RulesBlock(ts) {
        case Fail(_) =>
        case Done(rules, rest) =>
          ShapedSnoc(a.rules, rules);
          AgentItemsFine(n, a.(rules := a.rules + rules), rest);
      }
    } else if IsEffect(kw) {
      match FlatRule(ts) {
        case Fail(_) =>
        case Done(rule, rest) =>
          FlatRuleOk(ts);
          OneShaped(rule);
          ShapedSnoc(a.rules, [rule]);
          AgentItemsFine(n, a.(rules := a.rules + [rule]), rest);
      }
    }
  }

  lemma {:induction false} VarItemFine(n: Numbers, a: Agent, ts: seq<Token>)
    requires AllOk(ts) && AgentShaped(a) && PeekIdent(ts) == "var"
    ensures AgentParsed(AgentItems(n, a, ts))
    decreases |ts|, 0
  {
    AdvanceOk(ts);
    match Value(Advance(ts)) {
      case Fail(_) =>
      case Done(name, ts1) =>
        ValueOk(Advance(ts));
        VarValueFine(ts1);
        match VarValue(ts1) {
          case Fail(_) =>
          case Done(v, rest) => AgentItemsFine(n, a.(vars := a.vars[name := v]), rest);
        }
    }
  }

  lemma AgentBlockFine(n: Numbers, ts: seq<Token>)
    requires AllOk(ts)
    ensures AgentParsed(AgentBlock(n, ts))
  {
    OpeningFine(ts, "agent");
    match Opening(ts, "agent") {
      case Fail(_) =>
      case Done(id, rest) =>
        AgentItemsFine(n, Agent(id, "", "", "", "", [], [], [], map[]), rest);
        CloseFine(AgentItems(n, Agent(id, "", "", "", "", [], [], [], map[]), rest));
    }
  }

  ghost predicate DocumentShaped(d: Document) {
    AllShaped(d.flatRules) && forall i :: 0 <= i < |d.agents| ==> AgentShaped(d.agents[i])
  }

  lemma {:induction false} DocumentItemsShaped(n: Numbers, d: Document, ts: seq<Token>)
    requires AllOk(ts) && DocumentShaped(d)
    ensures DocumentItems(n, d, ts).Ok? ==> DocumentShaped(DocumentItems(n, d, ts).value)
    decreases |ts|
  {
    var kw := PeekIdent(ts);
    if Peek(ts).kind.Eof? {
    } else if kw == "agent" {
      AgentBlockFine(n, ts);
      match AgentBlock(n, ts) {
        case Fail(_) =>
        case Done(a, rest) => DocumentItemsShaped(n, d.(agents := d.agents + [a]), rest);
      }
    } else if IsEffect(kw) {
      match FlatRule(ts) {
        case Fail(_) =>
        case Done(rule, rest) =>
          FlatRuleOk(ts);
          OneShaped(rule);
          ShapedSnoc(d.flatRules, [rule]);
          DocumentItemsShaped(n, d.(flatRules := d.flatRules + [rule]), rest);
      }
    }
  }

  lemma ParsedIsShaped(n: Numbers, src: string)
    requires ParseSource(n, src).Ok?
    ensures DocumentShaped(ParseSource(n, src).value)
  {
    LexedOk(src, 1);
    DocumentItemsShaped(n, Document([], []), Lex(src, 1).value);
  }

  // ---------------------------------------------------------------- printing parsed rules

  /** A parsed rule handed to the printer: a strict denial is split into "deny" and a mark. */
  function FromRule(r: Rule): PrintRule {
    var strict := r.effect == "deny!";
    PrintRule(if strict then "deny" else r.effect, r.tool, r.condition, r.notify, r.reason, strict)
  }

  function FromRules(rs: seq<Rule>): (ps: seq<PrintRule>)
    ensures |ps| == |rs|
  {
    if rs == [] then [] else FromRules(rs[..|rs| - 1]) + [FromRule(rs[|rs| - 1])]
  }

  /** The printer leaves a condition out when it is just "true". */
  function Normal(r: Rule): Rule {
    if r.condition == "true" then r.(condition := "") else r
  }

  function Normals(rs: seq<Rule>): seq<Rule> {
    if rs == [] then [] else Normals(rs[..|rs| - 1]) + [Normal(rs[|rs| - 1])]
  }

  lemma JoinEmpty(parts: seq<string>)
    requires PartsOk(parts)
    ensures Join(parts) == "" <==> parts == []
  {
    if parts != [] {
      assert PartOk(parts[0]);
    }
  }

  lemma ShapedPrints(r: Rule) returns (parts: seq<string>)
    requires Shaped(r) && IsEffect(r.effect) && ToolWords(r.tool) != []
    ensures RuleOk(FromRule(r), parts) && Reread(FromRule(r)) == Normal(r)
  {
    var p := FromRule(r);
    assert EffectWord(p) == r.effect by {
      assert "deny" + "!" == "deny!";
    }
    if PrintsWhen(p) {
      parts :| PartsOk(parts) && r.condition == Join(parts);
      JoinEmpty(parts);
    } else {
      parts := [];
    }
  }

  lemma RulesOkSnoc(ps: seq<PrintRule>, conds: seq<seq<string>>, p: PrintRule, parts: seq<string>)
    requires RulesOk(ps, conds) && RuleOk(p, parts)
    ensures RulesOk(ps + [p], conds + [parts]) && RereadRules(ps + [p]) == RereadRules(ps) + [Reread(p)]
  {
    assert (ps + [p])[..|ps|] == ps;
  }

  lemma {:induction false} RulesPrint(rs: seq<Rule>) returns (conds: seq<seq<string>>)
    requires (forall i :: 0 <= i < |rs| ==> Shaped(rs[i])) && AllEffects(rs) && AllTools(rs)
    ensures RulesOk(FromRules(rs), conds) && RereadRules(FromRules(rs)) == Normals(rs)
  {
    if rs == [] {
      conds := [];
    } else {
      var k := |rs| - 1;
      var before := RulesPrint(rs[..k]);
      var parts := ShapedPrints(rs[k]);
      RulesOkSnoc(FromRules(rs[..k]), before, FromRule(rs[k]), parts);
      conds := before + [parts];
    }
  }

  /** The document that the rules of an agent are printed in. */
  function RulesDoc(agentID: string, defaultEffect: string, rs: seq<Rule>): PrintDoc {
    PrintDoc(agentID, defaultEffect, [], [], FromRules(rs), None)
  }

  lemma ShapedRulesSurvive(n: Numbers, agentID: string, defaultEffect: string, rs: seq<Rule>)
    requires NameOk(agentID) && (defaultEffect == "" || NameOk(defaultEffect))
    requires (forall i :: 0 <= i < |rs| ==> Shaped(rs[i])) && AllEffects(rs) && AllTools(rs)
    ensures ParseSource(n, DocText(RulesDoc(agentID, defaultEffect, rs)))
      == Ok(Document([Agent(agentID, defaultEffect, "", "", "", [], [], Normals(rs), map[])], []))
  {
    var conds := RulesPrint(rs);
    var d := RulesDoc(agentID, defaultEffect, rs);
    assert DocOk(d, conds);
    PrintThenParse(n, d);
  }

  /**
   Parse, print, parse: for any source whose rules the parser accepts, with effects of the language and tools that
   are tokens, the printed rules parse back to the same list, a condition "true" becoming the empty one.
   */
  lemma ParsedRulesSurvive(n: Numbers, src: string, agentID: string, defaultEffect: string)
    requires NameOk(agentID) && (defaultEffect == "" || NameOk(defaultEffect))
    requires ParseFlatRules(src).Ok? && AllEffects(ParseFlatRules(src).value) && AllTools(ParseFlatRules(src).value)
    ensures var rs := ParseFlatRules(src).value;
      ParseSource(n, DocText(RulesDoc(agentID, defaultEffect, rs)))
      == Ok(Document([Agent(agentID, defaultEffect, "", "", "", [], [], Normals(rs), map[])], []))
  {
    LexedOk(src, 1);
    FlatRulesOk(Lex(src, 1).value);
    ShapedRulesSurvive(n, agentID, defaultEffect, ParseFlatRules(src).value);
  }

  /** The same for the rules of any agent of a whole document that the parser accepts. */
  lemma ParsedAgentRulesSurvive(n: Numbers, src: string, i: nat)
    requires ParseSource(n, src).Ok? && i < |ParseSource(n, src).value.agents|
    requires var a := ParseSource(n, src).value.agents[i];
      NameOk(a.id) && (a.default_ == "" || NameOk(a.default_)) && AllEffects(a.rules) && AllTools(a.rules)
    ensures var a := ParseSource(n, src).value.agents[i];
      ParseSource(n, DocText(RulesDoc(a.id, a.default_, a.rules)))
      == Ok(Document([Agent(a.id, a.default_, "", "", "", [], [], Normals(a.rules), map[])], []))
  {
    ParsedIsShaped(n, src);
    var a := ParseSource(n, src).value.agents[i];
    assert AgentShaped(a);
    ShapedRulesSurvive(n, a.id, a.default_, a.rules);
  }
}
