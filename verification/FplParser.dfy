/** The recursive-descent parser of FPL: what each construct makes of the tokens ahead, and the parser that does it. */
module FplParser {
  import opened Basics
  import opened FplLexer

  datatype Rule = Rule(effect: string, tool: string, condition: string, notify: string, reason: string)

  datatype Budget = Budget(id: string, max: real, daily: real, maxCalls: int, onExceed: string)

  datatype Phase = Phase(id: string, tools: seq<string>, rules: seq<Rule>, duration: string, next: string)

  datatype Agent = Agent(
    id: string, default_: string, model: string, framework: string, version: string,
    budgets: seq<Budget>, phases: seq<Phase>, rules: seq<Rule>, vars: map<string, string>)

  datatype Document = Document(agents: seq<Agent>, flatRules: seq<Rule>)

  datatype ParseError =
    | LexFailed(error: LexError)
    | ExpectedValue(line: nat)
    | ExpectedKind(line: nat, kind: Kind)
    | ExpectedWord(line: nat, word: string)
    | BadNumber(line: nat)
    | UnexpectedKeyword(line: nat)
    | OutsideModel(line: nat)

  /** strconv.ParseFloat and strconv.ParseInt, taken as given. */
  datatype Numbers = Numbers(parseFloat: string -> Option<real>, parseInt: string -> Option<int>)

  /** A construct read off the front of the tokens, and what is left of them. */
  datatype Parse<+T> = Done(value: T, rest: seq<Token>) | Fail(error: ParseError)

  // ---------------------------------------------------------------- single tokens

  function Peek(ts: seq<Token>): Token {
    if ts == [] then Token(Eof, "", 0) else ts[0]
  }

  /** The end of the input is never consumed. */
  function Advance(ts: seq<Token>): (r: seq<Token>)
    ensures |r| <= |ts|
    ensures !Peek(ts).kind.Eof? ==> |r| < |ts|
  {
    if Peek(ts).kind.Eof? then ts else ts[1..]
  }

  function PeekIdent(ts: seq<Token>): string {
    if Peek(ts).kind.Ident? then Peek(ts).val else ""
  }

  function Expect(ts: seq<Token>, kind: Kind): (r: Parse<()>)
    ensures r.Done? ==> |r.rest| <= |ts|
  {
    if Peek(ts).kind != kind then Fail(ExpectedKind(Peek(ts).line, kind)) else Done((), Advance(ts))
  }

  function ExpectWord(ts: seq<Token>, word: string): (r: Parse<()>)
    ensures r.Done? ==> |r.rest| < |ts|
  {
    if !Peek(ts).kind.Ident? || Peek(ts).val != word then Fail(ExpectedWord(Peek(ts).line, word))
    else Done((), Advance(ts))
  }

  function Lower(s: string): string {
    if s == "" then "" else [if 'A' <= s[0] <= 'Z' then s[0] - 'A' + 'a' else s[0]] + Lower(s[1..])
  }

  predicate IsUnitSuffix(s: string) {
    Lower(s) in {"s", "ms", "m", "h", "d", "w", "b", "kb", "mb", "gb", "tb", "usd", "eur", "gbp"}
  }

  /** A string, an identifier, or a number together with the unit that follows it. */
  function Value(ts: seq<Token>): (r: Parse<string>)
    ensures r.Done? ==> |r.rest| < |ts|
  {
    var t := Peek(ts);
    match t.kind
    case Str => Done(t.val, Advance(ts))
    case Ident => Done(t.val, Advance(ts))
    case Number =>
      var rest := Advance(ts);
      if Peek(rest).kind.Ident? && IsUnitSuffix(Peek(rest).val) then Done(t.val + Peek(rest).val, Advance(rest))
      else Done(t.val, rest)
    case _ => Fail(ExpectedValue(t.line))
  }

  // ---------------------------------------------------------------- rules

  predicate IsEffect(s: string) {
    s in {"permit", "allow", "approve", "deny", "deny!", "block", "reject", "defer"}
  }

  predicate IsTopLevel(s: string) {
    s in {"agent", "system", "permit", "allow", "approve", "deny", "deny!", "block", "reject", "defer", "manifest"}
  }

  lemma TopLevelIff(s: string)
    ensures IsTopLevel(s) <==> IsEffect(s) || s in {"agent", "system", "manifest"}
  {
  }

  /** What ends a condition that began on the given line. */
  predicate EndsCondition(t: Token, startLine: nat) {
    || t.kind in {Eof, LBrace, RBrace}
    || (t.kind.Ident? && t.val in {"notify", "reason"})
    || (t.kind.Ident? && IsEffect(t.val) && t.line != startLine)
    || (t.kind.Ident? && IsTopLevel(t.val))
  }

  /** How a token reads inside a condition. */
  function Text(t: Token): string {
    match t.kind
    case Str => "\"" + t.val + "\""
    case Colon => ":"
    case Dollar => "$"
    case Bang => "!"
    case _ => t.val
  }

  /** The texts of the tokens up to the end of a condition. */
  function Condition(ts: seq<Token>, startLine: nat): (r: (seq<string>, seq<Token>))
    ensures |r.1| <= |ts|
  {
    if EndsCondition(Peek(ts), startLine) then ([], ts)
    else
      var rest := Condition(Advance(ts), startLine);
      ([Text(Peek(ts))] + rest.0, rest.1)
  }

  function MoreParts(parts: seq<string>, c: (seq<string>, seq<Token>)): (seq<string>, seq<Token>) {
    (parts + c.0, c.1)
  }

  lemma ConditionStep(parts: seq<string>, ts: seq<Token>, startLine: nat)
    requires !EndsCondition(Peek(ts), startLine)
    ensures MoreParts(parts, Condition(ts, startLine))
      == MoreParts(parts + [Text(Peek(ts))], Condition(Advance(ts), startLine))
  {
    var rest := Condition(Advance(ts), startLine).0;
    assert parts + ([Text(Peek(ts))] + rest) == (parts + [Text(Peek(ts))]) + rest;
  }

  function Join(parts: seq<string>): string {
    if parts == [] then "" else if |parts| == 1 then parts[0] else parts[0] + " " + Join(parts[1..])
  }

  function SkipColon(ts: seq<Token>): (r: seq<Token>)
    ensures |r| <= |ts|
  {
    if Peek(ts).kind.Colon? then Advance(ts) else ts
  }

  /** The optional clauses of a rule, in any order; a later clause replaces an earlier one. */
  function Clauses(rule: Rule, ts: seq<Token>): (r: Parse<Rule>)
    ensures r.Done? ==> |r.rest| <= |ts|
    decreases |ts|
  {
    if Peek(ts).kind.Eof? then Done(rule, ts)
    else if PeekIdent(ts) == "when" then
      var c := Condition(Advance(ts), Peek(Advance(ts)).line);
      Clauses(rule.(condition := Join(c.0)), c.1)
    else if PeekIdent(ts) == "notify" then
      match Value(SkipColon(Advance(ts)))
      case Fail(e) => Fail(e)
      case Done(v, rest) => Clauses(rule.(notify := v), rest)
    else if PeekIdent(ts) == "reason" then
      match Value(SkipColon(Advance(ts)))
      case Fail(e) => Fail(e)
      case Done(v, rest) => Clauses(rule.(reason := v), rest)
    else Done(rule, ts)
  }

  /** An effect, "deny" and a separate "!" being one, a tool and the clauses. */
  function FlatRule(ts: seq<Token>): (r: Parse<Rule>)
    ensures r.Done? ==> |r.rest| < |ts|
  {
    var strict := Peek(ts).val == "deny" && Peek(Advance(ts)).kind.Bang?;
    match Value(if strict then Advance(Advance(ts)) else Advance(ts))
    case Fail(e) => Fail(e)
    case Done(tool, rest) =>
      Clauses(Rule(if strict then "deny!" else Peek(ts).val, tool, "", "", ""), rest)
  }

  predicate AtBlockEnd(ts: seq<Token>) {
    Peek(ts).kind.RBrace? || Peek(ts).kind.Eof?
  }

  /** Rules up to the closing brace. */
  function RuleList(ts: seq<Token>): (r: Parse<seq<Rule>>)
    ensures r.Done? ==> |r.rest| <= |ts|
    decreases |ts|
  {
    if AtBlockEnd(ts) then Done([], ts)
    else match FlatRule(ts)
      case Fail(e) => Fail(e)
      case Done(rule, rest) =>
        match RuleList(rest)
        case Fail(e) => Fail(e)
        case Done(rules, rest') => Done([rule] + rules, rest')
  }

  function PrependRules(rules: seq<Rule>, p: Parse<seq<Rule>>): Parse<seq<Rule>> {
    if p.Done? then Done(rules + p.value, p.rest) else p
  }

  lemma PrependRulesTwice(a: seq<Rule>, b: seq<Rule>, p: Parse<seq<Rule>>)
    ensures PrependRules(a, PrependRules(b, p)) == PrependRules(a + b, p)
    ensures PrependRules([], p) == p
  {
    if p.Done? {
      assert a + (b + p.value) == (a + b) + p.value;
      assert [] + p.value == p.value;
    }
  }

  lemma RuleListNext(rules: seq<Rule>, ts: seq<Token>, rule: Rule, rest: seq<Token>)
    requires !AtBlockEnd(ts) && FlatRule(ts) == Done(rule, rest)
    ensures PrependRules(rules, RuleList(ts)) == PrependRules(rules + [rule], RuleList(rest))
  {
    PrependRulesTwice(rules, [rule], RuleList(rest));
    assert RuleList(ts) == PrependRules([rule], RuleList(rest));
  }

  function Close<T>(p: Parse<T>): (r: Parse<T>)
    ensures r.Done? ==> p.Done? && r.value == p.value && |r.rest| <= |p.rest|
  {
    match p
    case Fail(e) => Fail(e)
    case Done(v, rest) =>
      match Expect(rest, RBrace)
      case Fail(e) => Fail(e)
      case Done(_, rest') => Done(v, rest')
  }

  function RulesBlock(ts: seq<Token>): (r: Parse<seq<Rule>>)
    ensures r.Done? ==> |r.rest| < |ts|
  {
    match ExpectWord(ts, "rules")
    case Fail(e) => Fail(e)
    case Done(_, ts1) =>
      match Expect(ts1, LBrace)
      case Fail(e) => Fail(e)
      case Done(_, ts2) => Close(RuleList(ts2))
  }

  // ---------------------------------------------------------------- budgets and phases

  function Currency(n: Numbers, ts: seq<Token>): (r: Parse<real>)
    ensures r.Done? ==> |r.rest| <= |ts|
  {
    var rest := if Peek(ts).kind.Dollar? then Advance(ts) else ts;
    match n.parseFloat(Peek(rest).val)
    case None => Fail(BadNumber(Peek(rest).line))
    case Some(v) => Done(v, Advance(rest))
  }

  function BudgetItems(n: Numbers, b: Budget, ts: seq<Token>): (r: Parse<Budget>)
    ensures r.Done? ==> |r.rest| <= |ts|
    decreases |ts|
  {
    if AtBlockEnd(ts) then Done(b, ts)
    else if PeekIdent(ts) == "max" then
      match Currency(n, Advance(ts))
      case Fail(e) => Fail(e)
      case Done(v, rest) => BudgetItems(n, b.(max := v), rest)
    else if PeekIdent(ts) == "daily" then
      match Currency(n, Advance(ts))
      case Fail(e) => Fail(e)
      case Done(v, rest) => BudgetItems(n, b.(daily := v), rest)
    else if PeekIdent(ts) == "max_calls" then
      var rest := Advance(ts);
      match n.parseInt(Peek(rest).val)
      case None => Fail(BadNumber(Peek(rest).line))
      case Some(v) => BudgetItems(n, b.(maxCalls := v), Advance(rest))
    else if PeekIdent(ts) == "on_exceed" then
      match Value(Advance(ts))
      case Fail(e) => Fail(e)
      case Done(v, rest) => BudgetItems(n, b.(onExceed := v), rest)
    else Fail(UnexpectedKeyword(Peek(ts).line))
  }

  /** A keyword, a name and an opening brace. */
  function Opening(ts: seq<Token>, word: string): (r: Parse<string>)
    ensures r.Done? ==> |r.rest| < |ts|
  {
    match ExpectWord(ts, word)
    case Fail(e) => Fail(e)
    case Done(_, ts1) =>
      match Value(ts1)
      case Fail(e) => Fail(e)
      case Done(id, ts2) =>
        match Expect(ts2, LBrace)
        case Fail(e) => Fail(e)
        case Done(_, ts3) => Done(id, ts3)
  }

  function BudgetBlock(n: Numbers, ts: seq<Token>): (r: Parse<Budget>)
    ensures r.Done? ==> |r.rest| < |ts|
  {
    match Opening(ts, "budget")
    case Fail(e) => Fail(e)
    case Done(id, rest) => Close(BudgetItems(n, Budget(id, 0.0, 0.0, 0, ""), rest))
  }

  function PhaseItems(p: Phase, ts: seq<Token>): (r: Parse<Phase>)
    ensures r.Done? ==> |r.rest| <= |ts|
    decreases |ts|
  {
    if AtBlockEnd(ts) then Done(p, ts)
    else if IsEffect(PeekIdent(ts)) then
      match FlatRule(ts)
      case Fail(e) => Fail(e)
      case Done(rule, rest) => PhaseItems(p.(rules := p.rules + [rule], tools := p.tools + [rule.tool]), rest)
    else if PeekIdent(ts) == "duration" then
      match Value(Advance(ts))
      case Fail(e) => Fail(e)
      case Done(v, rest) => PhaseItems(p.(duration := v), rest)
    else if PeekIdent(ts) == "next" then
      match Value(Advance(ts))
      case Fail(e) => Fail(e)
      case Done(v, rest) => PhaseItems(p.(next := v), rest)
    else Fail(UnexpectedKeyword(Peek(ts).line))
  }

  function PhaseBlock(ts: seq<Token>): (r: Parse<Phase>)
    ensures r.Done? ==> |r.rest| < |ts|
  {
    match Opening(ts, "phase")
    case Fail(e) => Fail(e)
    case Done(id, rest) => Close(PhaseItems(Phase(id, [], [], "", ""), rest))
  }

  // ---------------------------------------------------------------- agents and documents

  function VarValue(ts: seq<Token>): (r: Parse<string>)
    ensures r.Done? ==> |r.rest| < |ts|
  {
    var t := Peek(ts);
    match t.kind
    case Str => Done(t.val, Advance(ts))
    case Number => Done(t.val, Advance(ts))
    case Dollar => Done("$" + Peek(Advance(ts)).val, Advance(Advance(ts)))
    case Ident => Done(t.val, Advance(ts))
    case _ => Fail(ExpectedValue(t.line))
  }

  predicate IsOtherBlock(s: string) {
    s in {"delegate", "ambient", "selector", "credential"}
  }

  function AgentItems(n: Numbers, a: Agent, ts: seq<Token>): (r: Parse<Agent>)
    ensures r.Done? ==> |r.rest| <= |ts|
    decreases |ts|
  {
    var kw := PeekIdent(ts);
    if AtBlockEnd(ts) then Done(a, ts)
    else if kw in {"default", "model", "framework", "version"} then
      match Value(Advance(ts))
      case Fail(e) => Fail(e)
      case Done(v, rest) =>
        AgentItems(n,
          if kw == "default" then a.(default_ := v)
          else if kw == "model" then a.(model := v)
          else if kw == "framework" then a.(framework := v)
          else a.(version := v), rest)
    else if kw == "var" then
      match Value(Advance(ts))
      case Fail(e) => Fail(e)
      case Done(name, ts1) =>
        match VarValue(ts1)
        case Fail(e) => Fail(e)
        case Done(v, rest) => AgentItems(n, a.(vars := a.vars[name := v]), rest)
    else if kw == "budget" then
      match BudgetBlock(n, ts)
      case Fail(e) => Fail(e)
      case Done(b, rest) => AgentItems(n, a.(budgets := a.budgets + [b]), rest)
    else if kw == "phase" then
      match PhaseBlock(ts)
      case Fail(e) => Fail(e)
      case Done(p, rest) => AgentItems(n, a.(phases := a.phases + [p]), rest)
    else if kw == "rules" then
      match RulesBlock(ts)
      case Fail(e) => Fail(e)
      case Done(rules, rest) => AgentItems(n, a.(rules := a.rules + rules), rest)
    else if IsEffect(kw) then
      match FlatRule(ts)
      case Fail(e) => Fail(e)
      case Done(rule, rest) => AgentItems(n, a.(rules := a.rules + [rule]), rest)
    else if IsOtherBlock(kw) then Fail(OutsideModel(Peek(ts).line))
    else Fail(UnexpectedKeyword(Peek(ts).line))
  }

  function AgentBlock(n: Numbers, ts: seq<Token>): (r: Parse<Agent>)
    ensures r.Done? ==> |r.rest| < |ts|
  {
    match Opening(ts, "agent")
    case Fail(e) => Fail(e)
    case Done(id, rest) => Close(AgentItems(n, Agent(id, "", "", "", "", [], [], [], map[]), rest))
  }

  function DocumentItems(n: Numbers, d: Document, ts: seq<Token>): Result<Document, ParseError>
    decreases |ts|
  {
    var kw := PeekIdent(ts);
    if Peek(ts).kind.Eof? then Ok(d)
    else if kw == "agent" then
      match AgentBlock(n, ts)
      case Fail(e) => Err(e)
      case Done(a, rest) => DocumentItems(n, d.(agents := d.agents + [a]), rest)
    else if IsEffect(kw) then
      match FlatRule(ts)
      case Fail(e) => Err(e)
      case Done(rule, rest) => DocumentItems(n, d.(flatRules := d.flatRules + [rule]), rest)
    else if kw in {"system", "manifest"} then Err(OutsideModel(Peek(ts).line))
    else Err(UnexpectedKeyword(Peek(ts).line))
  }

  function ParseTokens(n: Numbers, ts: seq<Token>): Result<Document, ParseError> {
    DocumentItems(n, Document([], []), ts)
  }

  function ParseSource(n: Numbers, src: string): Result<Document, ParseError> {
    match Lex(src, 1)
    case Err(e) => Err(LexFailed(e))
    case Ok(ts) => ParseTokens(n, ts)
  }

  /** A flat list of rules, as the first version of the language had it: any first token will do for an effect. */
  function FlatRules(ts: seq<Token>): Result<seq<Rule>, ParseError>
    decreases |ts|
  {
    if Peek(ts).kind.Eof? then Ok([])
    else match FlatRule(ts)
      case Fail(e) => Err(e)
      case Done(rule, rest) =>
        match FlatRules(rest)
        case Err(e) => Err(e)
        case Ok(rules) => Ok([rule] + rules)
  }

  function ParseFlatRules(src: string): Result<seq<Rule>, ParseError> {
    match Lex(src, 1)
    case Err(e) => Err(LexFailed(e))
    case Ok(ts) => FlatRules(ts)
  }

  // ---------------------------------------------------------------- the parser

  class Parser {
    const tokens: seq<Token>
    const numbers: Numbers
    var pos: nat

    constructor (tokens: seq<Token>, numbers: Numbers)
      ensures this.tokens == tokens && this.numbers == numbers && pos == 0
    {
      this.tokens, this.numbers, this.pos := tokens, numbers, 0;
    }

    ghost predicate Valid()
      reads this
    {
      pos <= |tokens|
    }

    ghost function Rest(): seq<Token>
      requires Valid()
      reads this
    {
      tokens[pos..]
    }

    /** The outcome of a parse function on the tokens ahead, as a result and a new position. */
    ghost predicate Gives<T>(p: Parse<T>, r: Result<T, ParseError>)
      reads this
    {
      Valid() && match p
        case Done(v, rest) => r == Ok(v) && Rest() == rest
        case Fail(e) => r == Err(e)
    }

    function Ahead(): (t: Token)
      requires Valid()
      reads this
      ensures t == Peek(Rest())
    {
      if pos >= |tokens| then Token(Eof, "", 0) else tokens[pos]
    }

    function AheadIdent(): (s: string)
      requires Valid()
      reads this
      ensures s == PeekIdent(Rest())
    {
      if Ahead().kind.Ident? then Ahead().val else ""
    }

    method Next() returns (t: Token)
      requires Valid()
      modifies this`pos
      ensures Valid() && t == Peek(old(Rest())) && Rest() == Advance(old(Rest()))
    {
      t := Ahead();
      if !t.kind.Eof? {
        pos := pos + 1;
      }
    }

    method ExpectKind(kind: Kind) returns (r: Result<(), ParseError>)
      requires Valid()
      modifies this`pos
      ensures Gives(Expect(old(Rest()), kind), r)
    {
      var t := Next();
      if t.kind != kind {
        return Err(ExpectedKind(t.line, kind));
      }
      return Ok(());
    }

    method ExpectIdent(word: string) returns (r: Result<(), ParseError>)
      requires Valid()
      modifies this`pos
      ensures Gives(ExpectWord(old(Rest()), word), r)
    {
      var t := Next();
      if !t.kind.Ident? || t.val != word {
        return Err(ExpectedWord(t.line, word));
      }
      return Ok(());
    }

    method StringOrIdent() returns (r: Result<string, ParseError>)
      requires Valid()
      modifies this`pos
      ensures Gives(Value(old(Rest())), r)
    {
      var t := Ahead();
      match t.kind {
        case Str =>
          var _ := Next();
          return Ok(t.val);
        case Ident =>
          var _ := Next();
          return Ok(t.val);
        case Number =>
          var _ := Next();
          if Ahead().kind.Ident? && IsUnitSuffix(Ahead().val) {
            var unit := Next();
            return Ok(t.val + unit.val);
          }
          return Ok(t.val);
        case _ =>
          return Err(ExpectedValue(t.line));
      }
    }

    method ConsumeUntilKeyword() returns (parts: seq<string>)
      requires Valid()
      modifies this`pos
      ensures Valid() && (parts, Rest()) == Condition(old(Rest()), Peek(old(Rest())).line)
    {
      var startLine := Ahead().line;
      ghost var start := Rest();
      parts := [];
      assert [] + Condition(start, startLine).0 == Condition(start, startLine).0;
      while !EndsCondition(Ahead(), startLine)
        invariant Valid()
        invariant Condition(start, startLine) == MoreParts(parts, Condition(Rest(), startLine))
        decreases |tokens| - pos
      {
        ConditionStep(parts, Rest(), startLine);
        var t := Next();
        parts := parts + [Text(t)];
      }
      assert parts + [] == parts;
    }

    method ParseFlatRule() returns (r: Result<Rule, ParseError>)
      requires Valid()
      modifies this`pos
      ensures Gives(FlatRule(old(Rest())), r)
    {
      var effectTok := Next();
      var effect := effectTok.val;
      if effect == "deny" && Ahead().kind.Bang? {
        var _ := Next();
        effect := "deny!";
      }
      var tool := StringOrIdent();
      if tool.Err? {
        return Err(tool.error);
      }
      r := ParseClauses(Rule(effect, tool.value, "", "", ""));
    }

    method ParseClauses(head: Rule) returns (r: Result<Rule, ParseError>)
      requires Valid()
      modifies this`pos
      ensures Gives(Clauses(head, old(Rest())), r)
    {
      var rule := head;
      ghost var all := Clauses(head, Rest());
      while !Ahead().kind.Eof?
        invariant Valid() && Clauses(rule, Rest()) == all
        decreases |tokens| - pos
      {
        var ident := AheadIdent();
        if ident == "when" {
          var _ := Next();
          var parts := ConsumeUntilKeyword();
          rule := rule.(condition := Join(parts));
        } else if ident == "notify" {
          var v := ParseClauseValue();
          if v.Err? {
            return Err(v.error);
          }
          rule := rule.(notify := v.value);
        } else if ident == "reason" {
          var v := ParseClauseValue();
          if v.Err? {
            return Err(v.error);
          }
          rule := rule.(reason := v.value);
        } else {
          return Ok(rule);
        }
      }
      return Ok(rule);
    }

    method ParseClauseValue() returns (r: Result<string, ParseError>)
      requires Valid()
      modifies this`pos
      ensures Gives(Value(SkipColon(Advance(old(Rest())))), r)
    {
      var _ := Next();
      if Ahead().kind.Colon? {
        var _ := Next();
      }
      r := StringOrIdent();
    }

    method ParseRulesBlock() returns (r: Result<seq<Rule>, ParseError>)
      requires Valid()
      modifies this`pos
      ensures Gives(RulesBlock(old(Rest())), r)
    {
      var word := ExpectIdent("rules");
      if word.Err? {
        return Err(word.error);
      }
      var open := ExpectKind(LBrace);
      if open.Err? {
        return Err(open.error);
      }
      var rules: seq<Rule> := [];
      ghost var all := RuleList(Rest());
      PrependRulesTwice([], [], all);
      while !Ahead().kind.RBrace? && !Ahead().kind.Eof?
        invariant Valid() && PrependRules(rules, RuleList(Rest())) == all
        decreases |tokens| - pos
      {
        ghost var before := Rest();
        var rule := ParseFlatRule();
        if rule.Err? {
          return Err(rule.error);
        }
        RuleListNext(rules, before, rule.value, Rest());
        rules := rules + [rule.value];
      }
      assert rules + [] == rules;
      var close := ExpectKind(RBrace);
      if close.Err? {
        return Err(close.error);
      }
      return Ok(rules);
    }

    method ParseCurrency() returns (r: Result<real, ParseError>)
      requires Valid()
      modifies this`pos
      ensures Gives(Currency(numbers, old(Rest())), r)
    {
      if Ahead().kind.Dollar? {
        var _ := Next();
      }
      var t := Next();
      match numbers.parseFloat(t.val) {
        case None => return Err(BadNumber(t.line));
        case Some(v) => return Ok(v);
      }
    }

    method ParseOpening(word: string) returns (r: Result<string, ParseError>)
      requires Valid()
      modifies this`pos
      ensures Gives(Opening(old(Rest()), word), r)
    {
      var keyword := ExpectIdent(word);
      if keyword.Err? {
        return Err(keyword.error);
      }
      r := StringOrIdent();
      if r.Err? {
        return;
      }
      var open := ExpectKind(LBrace);
      if open.Err? {
        return Err(open.error);
      }
    }

    /** One round of the budget block's loop. */
    method ParseBudgetItem(bb: Budget) returns (r: Result<Budget, ParseError>)
      requires Valid() && !AtBlockEnd(Rest())
      modifies this`pos
      ensures Valid()
      ensures r.Err? ==> BudgetItems(numbers, bb, old(Rest())) == Fail(r.error)
      ensures r.Ok? ==> pos > old(pos) && BudgetItems(numbers, bb, old(Rest())) == BudgetItems(numbers, r.value, Rest())
    {
      var kw := AheadIdent();
      if kw == "max" || kw == "daily" {
        var _ := Next();
        var v := ParseCurrency();
        if v.Err? {
          return Err(v.error);
        }
        return Ok(if kw == "max" then bb.(max := v.value) else bb.(daily := v.value));
      } else if kw == "max_calls" {
        var _ := Next();
        var t := Next();
        var v := numbers.parseInt(t.val);
        if v.None? {
          return Err(BadNumber(t.line));
        }
        return Ok(bb.(maxCalls := v.value));
      } else if kw == "on_exceed" {
        var _ := Next();
        var v := StringOrIdent();
        if v.Err? {
          return Err(v.error);
        }
        return Ok(bb.(onExceed := v.value));
      } else {
        return Err(UnexpectedKeyword(Ahead().line));
      }
    }

    method ParseBudgetBlock() returns (r: Result<Budget, ParseError>)
      requires Valid()
      modifies this`pos
      ensures Gives(BudgetBlock(numbers, old(Rest())), r)
    {
      var id := ParseOpening("budget");
      if id.Err? {
        return Err(id.error);
      }
      var bb := Budget(id.value, 0.0, 0.0, 0, "");
      ghost var all := BudgetItems(numbers, bb, Rest());
      while !Ahead().kind.RBrace? && !Ahead().kind.Eof?
        invariant Valid() && BudgetItems(numbers, bb, Rest()) == all
        decreases |tokens| - pos
      {
        var item := ParseBudgetItem(bb);
        if item.Err? {
          return Err(item.error);
        }
        bb := item.value;
      }
      var close := ExpectKind(RBrace);
      if close.Err? {
        return Err(close.error);
      }
      return Ok(bb);
    }

    method ParsePhaseBlock() returns (r: Result<Phase, ParseError>)
      requires Valid()
      modifies this`pos
      ensures Gives(PhaseBlock(old(Rest())), r)
    {
      var id := ParseOpening("phase");
      if id.Err? {
        return Err(id.error);
      }
      var pb := Phase(id.value, [], [], "", "");
      ghost var all := PhaseItems(pb, Rest());
      while !Ahead().kind.RBrace? && !Ahead().kind.Eof?
        invariant Valid() && PhaseItems(pb, Rest()) == all
        decreases |tokens| - pos
      {
        var kw := AheadIdent();
        if IsEffect(kw) {
          var rule := ParseFlatRule();
          if rule.Err? {
            return Err(rule.error);
          }
          pb := pb.(rules := pb.rules + [rule.value], tools := pb.tools + [rule.value.tool]);
        } else if kw == "duration" {
          var _ := Next();
          var v := StringOrIdent();
          if v.Err? {
            return Err(v.error);
          }
          pb := pb.(duration := v.value);
        } else if kw == "next" {
          var _ := Next();
          var v := StringOrIdent();
          if v.Err? {
            return Err(v.error);
          }
          pb := pb.(next := v.value);
        } else {
          return Err(UnexpectedKeyword(Ahead().line));
        }
      }
      var close := ExpectKind(RBrace);
      if close.Err? {
        return Err(close.error);
      }
      return Ok(pb);
    }

    method ParseVarValue() returns (r: Result<string, ParseError>)
      requires Valid()
      modifies this`pos
      ensures Gives(VarValue(old(Rest())), r)
    {
      var t := Ahead();
      match t.kind {
        case Str =>
          var _ := Next();
          return Ok(t.val);
        case Number =>
          var _ := Next();
          return Ok(t.val);
        case Dollar =>
          var _ := Next();
          var n := Next();
          return Ok("$" + n.val);
        case Ident =>
          var _ := Next();
          return Ok(t.val);
        case _ =>
          return Err(ExpectedValue(t.line));
      }
    }

    /** One "default", "model", "framework" or "version" item. */
    method ParseNamed(ab: Agent, kw: string) returns (r: Result<Agent, ParseError>)
      requires Valid() && kw in {"default", "model", "framework", "version"}
      modifies this`pos
      ensures Valid() && match Value(Advance(old(Rest())))
        case Fail(e) => r == Err(e)
        case Done(v, rest) => Rest() == rest && r == Ok(
          if kw == "default" then ab.(default_ := v)
          else if kw == "model" then ab.(model := v)
          else if kw == "framework" then ab.(framework := v)
          else ab.(version := v))
    {
      var _ := Next();
      var v := StringOrIdent();
      if v.Err? {
        return Err(v.error);
      }
      if kw == "default" {
        return Ok(ab.(default_ := v.value));
      } else if kw == "model" {
        return Ok(ab.(model := v.value));
      } else if kw == "framework" {
        return Ok(ab.(framework := v.value));
      } else {
        return Ok(ab.(version := v.value));
      }
    }

    method ParseVar(ab: Agent) returns (r: Result<Agent, ParseError>)
      requires Valid()
      modifies this`pos
      ensures Valid() && match Value(Advance(old(Rest())))
        case Fail(e) => r == Err(e)
        case Done(name, ts1) =>
          match VarValue(ts1)
          case Fail(e) => r == Err(e)
          case Done(v, rest) => Rest() == rest && r == Ok(ab.(vars := ab.vars[name := v]))
    {
      var _ := Next();
      var name := StringOrIdent();
      if name.Err? {
        return Err(name.error);
      }
      var val := ParseVarValue();
      if val.Err? {
        return Err(val.error);
      }
      return Ok(ab.(vars := ab.vars[name.value := val.value]));
    }

    method ParseAgentBlock() returns (r: Result<Agent, ParseError>)
      requires Valid()
      modifies this`pos
      ensures Gives(AgentBlock(numbers, old(Rest())), r)
    {
      var id := ParseOpening("agent");
      if id.Err? {
        return Err(id.error);
      }
      var ab := Agent(id.value, "", "", "", "", [], [], [], map[]);
      ghost var all := AgentItems(numbers, ab, Rest());
      while !Ahead().kind.RBrace? && !Ahead().kind.Eof?
        invariant Valid() && AgentItems(numbers, ab, Rest()) == all
        decreases |tokens| - pos
      {
        var item := ParseAgentItem(ab);
        if item.Err? {
          return Err(item.error);
        }
        ab := item.value;
      }
      var close := ExpectKind(RBrace);
      if close.Err? {
        return Err(close.error);
      }
      return Ok(ab);
    }

    /** One round of the agent block's loop. */
    method ParseAgentItem(ab: Agent) returns (r: Result<Agent, ParseError>)
      requires Valid() && !AtBlockEnd(Rest())
      modifies this`pos
      ensures Valid()
      ensures r.Err? ==> AgentItems(numbers, ab, old(Rest())) == Fail(r.error)
      ensures r.Ok? ==> pos > old(pos) && AgentItems(numbers, ab, old(Rest())) == AgentItems(numbers, r.value, Rest())
    {
      var kw := AheadIdent();
      if kw in {"default", "model", "framework", "version"} {
        r := ParseNamed(ab, kw);
      } else if kw == "var" {
        r := ParseVar(ab);
      } else if kw == "budget" {
        var bb := ParseBudgetBlock();
        if bb.Err? {
          return Err(bb.error);
        }
        return Ok(ab.(budgets := ab.budgets + [bb.value]));
      } else if kw == "phase" {
        var pb := ParsePhaseBlock();
        if pb.Err? {
          return Err(pb.error);
        }
        return Ok(ab.(phases := ab.phases + [pb.value]));
      } else if kw == "rules" {
        var rules := ParseRulesBlock();
        if rules.Err? {
          return Err(rules.error);
        }
        return Ok(ab.(rules := ab.rules + rules.value));
      } else if IsEffect(kw) {
        var rule := ParseFlatRule();
        if rule.Err? {
          return Err(rule.error);
        }
        return Ok(ab.(rules := ab.rules + [rule.value]));
      } else if IsOtherBlock(kw) {
        return Err(OutsideModel(Ahead().line));
      } else {
        return Err(UnexpectedKeyword(Ahead().line));
      }
    }

    method ParseDocument() returns (r: Result<Document, ParseError>)
      requires Valid()
      modifies this`pos
      ensures r == ParseTokens(numbers, old(Rest()))
    {
      var doc := Document([], []);
      ghost var all := ParseTokens(numbers, Rest());
      while !Ahead().kind.Eof?
        invariant Valid() && DocumentItems(numbers, doc, Rest()) == all
        decreases |tokens| - pos
      {
        var kw := AheadIdent();
        if kw == "agent" {
          var ab := ParseAgentBlock();
          if ab.Err? {
            return Err(ab.error);
          }
          doc := doc.(agents := doc.agents + [ab.value]);
        } else if IsEffect(kw) {
          var rule := ParseFlatRule();
          if rule.Err? {
            return Err(rule.error);
          }
          doc := doc.(flatRules := doc.flatRules + [rule.value]);
        } else if kw in {"system", "manifest"} {
          return Err(OutsideModel(Ahead().line));
        } else {
          return Err(UnexpectedKeyword(Ahead().line));
        }
      }
      return Ok(doc);
    }

    method ParseFlatRuleList() returns (r: Result<seq<Rule>, ParseError>)
      requires Valid()
      modifies this`pos
      ensures r == FlatRules(old(Rest()))
    {
      var rules: seq<Rule> := [];
      ghost var all := FlatRules(Rest());
      assert all.Ok? ==> [] + all.value == all.value;
      while !Ahead().kind.Eof?
        invariant Valid() && AppendRules(rules, FlatRules(Rest())) == all
        decreases |tokens| - pos
      {
        ghost var before := Rest();
        var rule := ParseFlatRule();
        if rule.Err? {
          return Err(rule.error);
        }
        AppendRulesStep(rules, rule.value, FlatRules(Rest()));
        rules := rules + [rule.value];
      }
      assert rules + [] == rules;
      return Ok(rules);
    }
  }

  function AppendRules(rules: seq<Rule>, r: Result<seq<Rule>, ParseError>): Result<seq<Rule>, ParseError> {
    if r.Ok? then Ok(rules + r.value) else r
  }

  lemma AppendRulesStep(rules: seq<Rule>, rule: Rule, r: Result<seq<Rule>, ParseError>)
    ensures r.Ok? ==> AppendRules(rules, Ok([rule] + r.value)) == AppendRules(rules + [rule], r)
  {
    if r.Ok? {
      assert rules + ([rule] + r.value) == (rules + [rule]) + r.value;
    }
  }

  /** Parsing a source text: the tokenizer, then the parser over its tokens. */
  method ParseDocument(numbers: Numbers, src: string) returns (r: Result<Document, ParseError>)
    ensures r == ParseSource(numbers, src)
  {
    var tokens := Tokenize(src);
    if tokens.Err? {
      return Err(LexFailed(tokens.error));
    }
    var p := new Parser(tokens.value, numbers);
    assert p.tokens[0..] == tokens.value;
    r := p.ParseDocument();
  }

  method ParseFlatRulesV0(numbers: Numbers, src: string) returns (r: Result<seq<Rule>, ParseError>)
    ensures r == ParseFlatRules(src)
  {
    var tokens := Tokenize(src);
    if tokens.Err? {
      return Err(LexFailed(tokens.error));
    }
    var p := new Parser(tokens.value, numbers);
    assert p.tokens[0..] == tokens.value;
    r := p.ParseFlatRuleList();
  }
}
