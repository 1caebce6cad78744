/** Printing a whole agent document and parsing it back. */
module FplDocument {
  import opened Basics
  import opened FplLexer
  import opened FplParser
  import opened FplPrinter
  import opened FplWords
  import opened FplRoundTrip

  // ---------------------------------------------------------------- what can be printed

  predicate NameOk(s: string) {
    IdentWord(s) || BangWord(s)
  }

  /** The kind of a token that is one mark. */
  function MarkKind(s: string): Option<Kind> {
    if s == "{" then Some(LBrace)
    else if s == "}" then Some(RBrace)
    else if s == ":" then Some(Colon)
    else if s == "!" then Some(Bang)
    else if s == "$" then Some(Dollar)
    else None
  }

  /** The words of a variable's value: one token, or a dollar sign and one token, which may be a mark. */
  function VarValueWords(v: string): seq<Word> {
    if NeedsQuotes(v) then (if RawString(v) then [Word(Str, v)] else [])
    else if NameOk(v) then [Word(Ident, v)]
    else if NumberWord(v) then [Word(Number, v)]
    else if v != "" && v[0] == '$' && NameOk(v[1..]) then [Word(Dollar, "$"), Word(Ident, v[1..])]
    else if v != "" && v[0] == '$' && NumberWord(v[1..]) then [Word(Dollar, "$"), Word(Number, v[1..])]
    else if v != "" && v[0] == '$' && MarkKind(v[1..]).Some? then
      [Word(Dollar, "$"), Word(MarkKind(v[1..]).value, v[1..])]
    else []
  }

  predicate VarOk(v: (string, string)) {
    NameOk(v.0) && VarValueWords(v.1) != []
  }

  predicate BudgetOk(b: PrintBudget) {
    b.maxCalls < 0x8000_0000_0000_0000 && (b.onExceed == "" || NameOk(b.onExceed))
  }

  predicate PhaseOk(p: (string, seq<string>)) {
    NameOk(p.0) && forall i :: 0 <= i < |p.1| ==> ToolWords(p.1[i]) != []
  }

  /** The parts of every rule's condition. */
  predicate RulesOk(rs: seq<PrintRule>, conds: seq<seq<string>>) {
    |conds| == |rs| && forall i :: 0 <= i < |rs| ==> RuleOk(rs[i], conds[i])
  }

  predicate DocOk(d: PrintDoc, conds: seq<seq<string>>) {
    && NameOk(d.agentID)
    && (d.defaultEffect == "" || NameOk(d.defaultEffect))
    && (forall i :: 0 <= i < |d.vars| ==> VarOk(d.vars[i]))
    && (forall i :: 0 <= i < |d.phases| ==> PhaseOk(d.phases[i]))
    && (d.budget.Some? ==> BudgetOk(d.budget.value))
    && RulesOk(d.rules, conds)
  }

  /** strconv reads the digits printed for an amount as that amount. */
  predicate ReadsAmount(n: Numbers, x: real) {
    x > 0.0 ==> n.parseFloat(Digits(Amount(x))) == Some(Amount(x) as real)
  }

  predicate ReadsCalls(n: Numbers, calls: int) {
    calls > 0 ==> n.parseInt(Digits(calls)) == Some(calls)
  }

  /** The numbers that the document's budget prints, if it has one, read back as they are. */
  predicate ReadsBudget(n: Numbers, b: Option<PrintBudget>) {
    b.Some? ==>
      ReadsAmount(n, b.value.sessionUSD) && ReadsAmount(n, b.value.dailyUSD) && ReadsCalls(n, b.value.maxCalls)
  }

  // ---------------------------------------------------------------- what comes back

  function VarMap(vars: seq<(string, string)>): map<string, string> {
    if vars == [] then map[] else VarMap(vars[..|vars| - 1])[vars[|vars| - 1].0 := vars[|vars| - 1].1]
  }

  function RereadBudget(b: PrintBudget): Budget {
    Budget("session", Amount(b.sessionUSD) as real, Amount(b.dailyUSD) as real,
      if b.maxCalls > 0 then b.maxCalls else 0, b.onExceed)
  }

  function PermitRule(tool: string): PrintRule {
    PrintRule("permit", tool, "", "", "", false)
  }

  function RereadTools(tools: seq<string>): seq<Rule> {
    if tools == [] then [] else RereadTools(tools[..|tools| - 1]) + [Rule("permit", tools[|tools| - 1], "", "", "")]
  }

  function RereadPhases(ps: seq<(string, seq<string>)>): seq<Phase> {
    if ps == [] then []
    else
      var p := ps[|ps| - 1];
      RereadPhases(ps[..|ps| - 1]) + [Phase(p.0, p.1, RereadTools(p.1), "", "")]
  }

  function RereadRules(rs: seq<PrintRule>): seq<Rule> {
    if rs == [] then [] else RereadRules(rs[..|rs| - 1]) + [Reread(rs[|rs| - 1])]
  }

  function RereadDoc(d: PrintDoc): Agent {
    Agent(d.agentID, d.defaultEffect, "", "", "",
      if d.budget.Some? then [RereadBudget(d.budget.value)] else [],
      RereadPhases(d.phases), RereadRules(d.rules), VarMap(d.vars))
  }

  // ---------------------------------------------------------------- words

  const OPEN := Word(LBrace, "{")
  const CLOSE := Word(RBrace, "}")

  function DefaultWords(v: string): seq<Word> {
    if v == "" then [] else [Word(Ident, "default"), Word(Ident, v)]
  }

  function VarWords(v: (string, string)): seq<Word> {
    [Word(Ident, "var"), Word(Ident, v.0)] + VarValueWords(v.1)
  }

  function VarsWords(vars: seq<(string, string)>): seq<Word> {
    if vars == [] then [] else VarsWords(vars[..|vars| - 1]) + VarWords(vars[|vars| - 1])
  }

  function DollarWords(keyword: string, x: real): seq<Word> {
    if x > 0.0 then [Word(Ident, keyword), Word(Dollar, "$"), Word(Number, Digits(Amount(x)))] else []
  }

  function CallsWords(n: int): seq<Word> {
    if n > 0 then [Word(Ident, "max_calls"), Word(Number, Digits(n))] else []
  }

  function ExceedWords(v: string): seq<Word> {
    if v == "" then [] else [Word(Ident, "on_exceed"), Word(Ident, v)]
  }

  function BudgetWords(b: PrintBudget): seq<Word> {
    [Word(Ident, "budget"), Word(Ident, "session"), OPEN]
    + (DollarWords("max", b.sessionUSD) + (DollarWords("daily", b.dailyUSD)
    + (CallsWords(b.maxCalls) + (ExceedWords(b.onExceed) + [CLOSE]))))
  }

  function ToolsWords(tools: seq<string>): seq<Word> {
    if tools == [] then [] else ToolsWords(tools[..|tools| - 1]) + RuleWords(PermitRule(tools[|tools| - 1]), [])
  }

  function PhaseWords(p: (string, seq<string>)): seq<Word> {
    [Word(Ident, "phase"), Word(Ident, p.0), OPEN] + (ToolsWords(p.1) + [CLOSE])
  }

  function PhasesWords(ps: seq<(string, seq<string>)>): seq<Word> {
    if ps == [] then [] else PhasesWords(ps[..|ps| - 1]) + PhaseWords(ps[|ps| - 1])
  }

  function RulesWords(rs: seq<PrintRule>, conds: seq<seq<string>>): seq<Word>
    requires |conds| == |rs|
  {
    if rs == [] then []
    else RulesWords(rs[..|rs| - 1], conds[..|rs| - 1]) + RuleWords(rs[|rs| - 1], conds[|rs| - 1])
  }

  function RulesBlockWords(rs: seq<PrintRule>, conds: seq<seq<string>>): seq<Word>
    requires |conds| == |rs|
  {
    if rs == [] then [] else [Word(Ident, "rules"), OPEN] + (RulesWords(rs, conds) + [CLOSE])
  }

  // ---------------------------------------------------------------- texts lex to words

  lemma LineLexes(w: Word, rest: string, ws: seq<Word>)
    requires WordOk(w) && LexesTo(rest, ws)
    ensures LexesTo(Source(w) + ("\n" + rest), [w] + ws)
  {
    ConsBlank('\n', rest, ws);
    WordThenBlank(w, "\n" + rest, ws);
  }

  /** An indented keyword, a space and more text. */
  lemma KeywordLexes(indent: string, keyword: string, rest: string, ws: seq<Word>)
    requires AllBlank(indent) && NameOk(keyword) && LexesTo(rest, ws)
    ensures LexesTo(indent + (keyword + (" " + rest)), [Word(Ident, keyword)] + ws)
  {
    SpaceThen(rest, ws);
    WordThenBlank(Word(Ident, keyword), " " + rest, ws);
    ConsBlanks(indent, keyword + (" " + rest), [Word(Ident, keyword)] + ws);
  }

  lemma {:induction false} DigitsOk(n: nat)
    ensures NumberWord(Digits(n)) && forall i :: 0 <= i < |Digits(n)| ==> IsDigit(Digits(n)[i])
  {
    if n >= 10 {
      DigitsOk(n / 10);
      assert Digits(n)[0] == Digits(n / 10)[0];
    }
  }

  lemma ClosingLexes(indent: string, rest: string, ws: seq<Word>)
    requires AllBlank(indent) && LexesTo(rest, ws)
    ensures LexesTo(indent + ("}" + ("\n" + rest)), [CLOSE] + ws)
  {
    LineLexes(CLOSE, rest, ws);
    ConsBlanks(indent, "}" + ("\n" + rest), [CLOSE] + ws);
  }

  lemma NamedOpeningLexes(indent: string, keyword: string, name: string, rest: string, ws: seq<Word>)
    requires AllBlank(indent) && NameOk(keyword) && NameOk(name) && LexesTo(rest, ws)
    ensures LexesTo(indent + (keyword + (" " + (name + (" " + ("{" + ("\n" + rest)))))),
      [Word(Ident, keyword), Word(Ident, name), OPEN] + ws)
  {
    LineLexes(OPEN, rest, ws);
    KeywordLexes("", name, "{" + ("\n" + rest), [OPEN] + ws);
    var t := name + (" " + ("{" + ("\n" + rest)));
    assert "" + t == t;
    KeywordLexes(indent, keyword, t, [Word(Ident, name)] + ([OPEN] + ws));
    assert [Word(Ident, keyword), Word(Ident, name), OPEN] + ws
        == [Word(Ident, keyword)] + ([Word(Ident, name)] + ([OPEN] + ws));
  }

  lemma RulesOpeningLexes(rest: string, ws: seq<Word>)
    requires LexesTo(rest, ws)
    ensures LexesTo("\n  " + ("rules" + (" " + ("{" + ("\n" + rest)))), [Word(Ident, "rules"), OPEN] + ws)
  {
    LineLexes(OPEN, rest, ws);
    assert NameOk("rules");
    KeywordLexes("\n  ", "rules", "{" + ("\n" + rest), [OPEN] + ws);
    assert [Word(Ident, "rules"), OPEN] + ws == [Word(Ident, "rules")] + ([OPEN] + ws);
  }

  lemma Nest3(a: string, b: string, c: string, rest: string)
    ensures (a + b + c) + rest == a + (b + (c + rest))
  {
  }

  lemma Nest5(a: string, b: string, c: string, d: string, e: string, rest: string)
    ensures (a + b + c + d + e) + rest == a + (b + (c + (d + (e + rest))))
  {
  }

  /** An indented keyword and a name, on a line of their own. */
  lemma NamedLineLexes(indent: string, keyword: string, v: string, rest: string, ws: seq<Word>)
    requires AllBlank(indent) && NameOk(keyword) && NameOk(v) && LexesTo(rest, ws)
    ensures LexesTo(indent + (keyword + (" " + (v + ("\n" + rest)))), [Word(Ident, keyword), Word(Ident, v)] + ws)
  {
    LineLexes(Word(Ident, v), rest, ws);
    KeywordLexes(indent, keyword, v + ("\n" + rest), [Word(Ident, v)] + ws);
    assert [Word(Ident, keyword), Word(Ident, v)] + ws == [Word(Ident, keyword)] + ([Word(Ident, v)] + ws);
  }

  lemma DefaultLexes(v: string, rest: string, ws: seq<Word>)
    requires (v == "" || NameOk(v)) && LexesTo(rest, ws)
    ensures LexesTo(LineIf(v != "", "  default " + v) + rest, DefaultWords(v) + ws)
  {
    if v == "" {
      assert "" + rest == rest && [] + ws == ws;
    } else {
      assert NameOk("default");
      NamedLineLexes("  ", "default", v, rest, ws);
      assert "  default " == "  " + "default" + " ";
      Nest5("  ", "default", " ", v, "\n", rest);
    }
  }

  lemma ExceedLexes(v: string, rest: string, ws: seq<Word>)
    requires (v == "" || NameOk(v)) && LexesTo(rest, ws)
    ensures LexesTo(LineIf(v != "", "    on_exceed " + v) + rest, ExceedWords(v) + ws)
  {
    if v == "" {
      assert "" + rest == rest && [] + ws == ws;
    } else {
      assert NameOk("on_exceed");
      NamedLineLexes("    ", "on_exceed", v, rest, ws);
      assert "    on_exceed " == "    " + "on_exceed" + " ";
      Nest5("    ", "on_exceed", " ", v, "\n", rest);
    }
  }

  // ---------------------------------------------------------------- variables

  function ValueText(v: string): string {
    if NeedsQuotes(v) then Quoted(v) else v
  }

  lemma DollarWordLexes(w: Word, rest: string, ws: seq<Word>)
    requires WordOk(w) && StartsBlank(rest) && LexesTo(rest, ws)
    ensures LexesTo("$" + (Source(w) + rest), [Word(Dollar, "$")] + ([w] + ws))
  {
    WordThenBlank(w, rest, ws);
    ConsWord(Word(Dollar, "$"), Source(w) + rest, [w] + ws);
  }

  lemma ValueLexes(v: string, rest: string, ws: seq<Word>)
    requires VarValueWords(v) != [] && StartsBlank(rest) && LexesTo(rest, ws)
    ensures LexesTo(ValueText(v) + rest, VarValueWords(v) + ws)
  {
    var words := VarValueWords(v);
    if |words| == 1 {
      WordThenBlank(words[0], rest, ws);
    } else {
      DollarWordLexes(words[1], rest, ws);
      assert v == "$" + v[1..];
      AppendAssociates("$", v[1..], rest);
      assert words + ws == [words[0]] + ([words[1]] + ws);
    }
  }

  lemma TwoWords(a: Word, b: Word, ws: seq<Word>)
    ensures [a, b] + ws == [a] + ([b] + ws)
  {
  }

  lemma VarHeadLexes(name: string, text: string, words: seq<Word>)
    requires NameOk(name) && LexesTo(text, words)
    ensures LexesTo("  " + ("var" + (" " + (name + (" " + text)))), [Word(Ident, "var"), Word(Ident, name)] + words)
  {
    var t := name + (" " + text);
    SpaceThen(text, words);
    WordThenBlank(Word(Ident, name), " " + text, words);
    assert NameOk("var");
    KeywordLexes("  ", "var", t, [Word(Ident, name)] + words);
    TwoWords(Word(Ident, "var"), Word(Ident, name), words);
  }

  lemma VarLexes(v: (string, string), rest: string, ws: seq<Word>)
    requires VarOk(v) && LexesTo(rest, ws)
    ensures LexesTo(VarText(v) + rest, VarWords(v) + ws)
  {
    ConsBlank('\n', rest, ws);
    ValueLexes(v.1, "\n" + rest, ws);
    VarHeadLexes(v.0, ValueText(v.1) + ("\n" + rest), VarValueWords(v.1) + ws);
    AppendAssociates([Word(Ident, "var"), Word(Ident, v.0)], VarValueWords(v.1), ws);
    VarTextNested(v.0, ValueText(v.1), rest);
  }

  lemma VarTextNested(name: string, value: string, rest: string)
    ensures ("  var " + name + " " + value + "\n") + rest
      == "  " + ("var" + (" " + (name + (" " + (value + ("\n" + rest))))))
  {
    assert "  var " == "  " + "var" + " ";
    Nest5("  var ", name, " ", value, "\n", rest);
    Nest3("  ", "var", " ", name + (" " + (value + ("\n" + rest))));
  }

  lemma {:induction false} VarsLex(vars: seq<(string, string)>, rest: string, ws: seq<Word>)
    requires (forall i :: 0 <= i < |vars| ==> VarOk(vars[i])) && LexesTo(rest, ws)
    ensures LexesTo(VarsText(vars) + rest, VarsWords(vars) + ws)
  {
    if vars == [] {
      assert "" + rest == rest && [] + ws == ws;
    } else {
      var front, last := vars[..|vars| - 1], vars[|vars| - 1];
      VarLexes(last, rest, ws);
      VarsLex(front, VarText(last) + rest, VarWords(last) + ws);
      AppendAssociates(VarsText(front), VarText(last), rest);
      AppendAssociates(VarsWords(front), VarWords(last), ws);
    }
  }

  lemma Append(a: string, b: string, rest: string, v: seq<Word>, w: seq<Word>, ws: seq<Word>)
    requires LexesTo(a + (b + rest), v + (w + ws))
    ensures LexesTo((a + b) + rest, (v + w) + ws)
  {
    AppendAssociates(a, b, rest);
    AppendAssociates(v, w, ws);
  }

  // ---------------------------------------------------------------- budgets

  lemma DollarLineLexes(keyword: string, digits: string, rest: string, ws: seq<Word>)
    requires NameOk(keyword) && NumberWord(digits) && LexesTo(rest, ws)
    ensures LexesTo("    " + keyword + " $" + digits + "\n" + rest,
      [Word(Ident, keyword), Word(Dollar, "$"), Word(Number, digits)] + ws)
  {
    var t := "\n" + rest;
    ConsBlank('\n', rest, ws);
    DollarWordLexes(Word(Number, digits), t, ws);
    KeywordLexes("    ", keyword, "$" + (digits + t), [Word(Dollar, "$")] + ([Word(Number, digits)] + ws));
    assert "    " + keyword + " $" + digits + "\n" + rest == "    " + (keyword + (" " + ("$" + (digits + t)))) by {
      assert " $" == " " + "$";
      Nest5("    ", keyword, " $", digits, "\n", rest);
      AppendAssociates(" ", "$", digits + t);
    }
    assert [Word(Ident, keyword), Word(Dollar, "$"), Word(Number, digits)] + ws
        == [Word(Ident, keyword)] + ([Word(Dollar, "$")] + ([Word(Number, digits)] + ws));
  }

  lemma MaxLexes(x: real, rest: string, ws: seq<Word>)
    requires LexesTo(rest, ws)
    ensures LexesTo(LineIf(x > 0.0, "    max $" + Digits(Amount(x))) + rest, DollarWords("max", x) + ws)
  {
    if x > 0.0 {
      DigitsOk(Amount(x));
      assert NameOk("max");
      DollarLineLexes("max", Digits(Amount(x)), rest, ws);
      assert "    max $" == "    " + "max" + " $";
    } else {
      assert "" + rest == rest && [] + ws == ws;
    }
  }

  lemma DailyLexes(x: real, rest: string, ws: seq<Word>)
    requires LexesTo(rest, ws)
    ensures LexesTo(LineIf(x > 0.0, "    daily $" + Digits(Amount(x))) + rest, DollarWords("daily", x) + ws)
  {
    if x > 0.0 {
      DigitsOk(Amount(x));
      assert NameOk("daily");
      DollarLineLexes("daily", Digits(Amount(x)), rest, ws);
      assert "    daily $" == "    " + "daily" + " $";
    } else {
      assert "" + rest == rest && [] + ws == ws;
    }
  }

  lemma CallsLineLexes(digits: string, rest: string, ws: seq<Word>)
    requires NumberWord(digits) && LexesTo(rest, ws)
    ensures LexesTo("    max_calls " + digits + "\n" + rest, [Word(Ident, "max_calls"), Word(Number, digits)] + ws)
  {
    LineLexes(Word(Number, digits), rest, ws);
    assert LexesTo("    " + ("max_calls" + (" " + (digits + ("\n" + rest)))),
        [Word(Ident, "max_calls")] + ([Word(Number, digits)] + ws)) by {
      assert NameOk("max_calls");
      KeywordLexes("    ", "max_calls", digits + ("\n" + rest), [Word(Number, digits)] + ws);
    }
    assert "    max_calls " == "    " + "max_calls" + " ";
    Nest5("    ", "max_calls", " ", digits, "\n", rest);
    TwoWords(Word(Ident, "max_calls"), Word(Number, digits), ws);
  }

  lemma CallsLexes(n: int, rest: string, ws: seq<Word>)
    requires LexesTo(rest, ws)
    ensures LexesTo(LineIf(n > 0, "    max_calls " + Digits(if n > 0 then n else 0)) + rest, CallsWords(n) + ws)
  {
    if n > 0 {
      DigitsOk(n);
      CallsLineLexes(Digits(n), rest, ws);
    } else {
      assert "" + rest == rest && [] + ws == ws;
    }
  }

  lemma Nest6Words(a: seq<Word>, b: seq<Word>, c: seq<Word>, d: seq<Word>, e: seq<Word>, f: seq<Word>, ws: seq<Word>)
    ensures (a + (b + (c + (d + (e + f))))) + ws == a + (b + (c + (d + (e + (f + ws)))))
  {
  }

  lemma Nest6(a: string, b: string, c: string, d: string, e: string, f: string, rest: string)
    ensures (a + b + c + d + e + f) + rest == a + (b + (c + (d + (e + (f + rest)))))
  {
  }

  lemma BlockCloseText(rest: string)
    ensures "  }\n" + rest == "  " + ("}" + ("\n" + rest))
  {
    assert "  }\n" == "  " + "}" + "\n";
    Nest3("  ", "}", "\n", rest);
  }

  lemma BudgetOpenText(rest: string)
    ensures "\n  budget session {\n" + rest == "\n  " + ("budget" + (" " + ("session" + (" " + ("{" + ("\n" + rest))))))
  {
    assert "\n  budget session {\n" == "\n  " + "budget" + " " + "session" + " " + "{\n";
    Nest6("\n  ", "budget", " ", "session", " ", "{\n", rest);
    assert "{\n" == "{" + "\n";
    AppendAssociates("{", "\n", rest);
  }

  lemma BudgetLexes(b: PrintBudget, rest: string, ws: seq<Word>)
    requires BudgetOk(b) && LexesTo(rest, ws)
    ensures LexesTo(BudgetText(b) + rest, BudgetWords(b) + ws)
  {
    var l1, l2 := LineIf(b.sessionUSD > 0.0, "    max $" + Digits(Amount(b.sessionUSD))),
      LineIf(b.dailyUSD > 0.0, "    daily $" + Digits(Amount(b.dailyUSD)));
    var l3, l4 := LineIf(b.maxCalls > 0, "    max_calls " + Digits(if b.maxCalls > 0 then b.maxCalls else 0)),
      LineIf(b.onExceed != "", "    on_exceed " + b.onExceed);
    ClosingLexes("  ", rest, ws);
    BlockCloseText(rest);
    var t4, w4 := "  }\n" + rest, [CLOSE] + ws;
    ExceedLexes(b.onExceed, t4, w4);
    CallsLexes(b.maxCalls, l4 + t4, ExceedWords(b.onExceed) + w4);
    DailyLexes(b.dailyUSD, l3 + (l4 + t4), CallsWords(b.maxCalls) + (ExceedWords(b.onExceed) + w4));
    MaxLexes(b.sessionUSD, l2 + (l3 + (l4 + t4)),
      DollarWords("daily", b.dailyUSD) + (CallsWords(b.maxCalls) + (ExceedWords(b.onExceed) + w4)));
    var t0 := l1 + (l2 + (l3 + (l4 + t4)));
    assert NameOk("budget") && NameOk("session");
    NamedOpeningLexes("\n  ", "budget", "session", t0,
      DollarWords("max", b.sessionUSD)
      + (DollarWords("daily", b.dailyUSD) + (CallsWords(b.maxCalls) + (ExceedWords(b.onExceed) + w4))));
    BudgetOpenText(t0);
    Nest6("\n  budget session {\n", l1, l2, l3, l4, "  }\n", rest);
    Nest6Words([Word(Ident, "budget"), Word(Ident, "session"), OPEN], DollarWords("max", b.sessionUSD),
      DollarWords("daily", b.dailyUSD), CallsWords(b.maxCalls), ExceedWords(b.onExceed), [CLOSE], ws);
  }

  // ---------------------------------------------------------------- phases and rules

  lemma PermitOk(tool: string)
    requires ToolWords(tool) != []
    ensures RuleOk(PermitRule(tool), []) && RuleText(PermitRule(tool)) == ToolText(tool)
    ensures Reread(PermitRule(tool)) == Rule("permit", tool, "", "", "")
  {
    var r := PermitRule(tool);
    assert EffectWord(r) == "permit";
    assert "    " + "permit" + " " == "    permit ";
    assert RuleText(r) == "    " + "permit" + " " + tool + "" + "" + "" + "\n";
  }

  lemma {:induction false} ToolsLex(tools: seq<string>, rest: string, ws: seq<Word>)
    requires (forall i :: 0 <= i < |tools| ==> ToolWords(tools[i]) != []) && LexesTo(rest, ws)
    ensures LexesTo(ToolsText(tools) + rest, ToolsWords(tools) + ws)
  {
    if tools == [] {
      assert "" + rest == rest && [] + ws == ws;
    } else {
      var front, last := tools[..|tools| - 1], tools[|tools| - 1];
      PermitOk(last);
      RuleLexes(PermitRule(last), [], rest, ws);
      ToolsLex(front, ToolText(last) + rest, RuleWords(PermitRule(last), []) + ws);
      AppendAssociates(ToolsText(front), ToolText(last), rest);
      AppendAssociates(ToolsWords(front), RuleWords(PermitRule(last), []), ws);
    }
  }

  lemma PhaseTextNested(name: string, tools: string, rest: string)
    ensures ("\n  phase " + name + " {\n" + tools + "  }\n") + rest
      == "\n  " + ("phase" + (" " + (name + (" " + ("{" + ("\n" + (tools + ("  " + ("}" + ("\n" + rest))))))))))
  {
    var t := tools + ("  }\n" + rest);
    Nest5("\n  phase ", name, " {\n", tools, "  }\n", rest);
    assert "\n  phase " == "\n  " + "phase" + " " && " {\n" == " " + "{" + "\n";
    Nest3(" ", "{", "\n", t);
    Nest3("\n  ", "phase", " ", name + (" {\n" + t));
    BlockCloseText(rest);
  }

  lemma PhaseLexes(p: (string, seq<string>), rest: string, ws: seq<Word>)
    requires PhaseOk(p) && LexesTo(rest, ws)
    ensures LexesTo(PhaseText(p) + rest, PhaseWords(p) + ws)
  {
    var close := "  " + ("}" + ("\n" + rest));
    ClosingLexes("  ", rest, ws);
    ToolsLex(p.1, close, [CLOSE] + ws);
    assert NameOk("phase");
    NamedOpeningLexes("\n  ", "phase", p.0, ToolsText(p.1) + close, ToolsWords(p.1) + ([CLOSE] + ws));
    PhaseTextNested(p.0, ToolsText(p.1), rest);
    AppendAssociates(ToolsWords(p.1), [CLOSE], ws);
    AppendAssociates([Word(Ident, "phase"), Word(Ident, p.0), OPEN], ToolsWords(p.1) + [CLOSE], ws);
  }

  lemma {:induction false} PhasesLex(ps: seq<(string, seq<string>)>, rest: string, ws: seq<Word>)
    requires (forall i :: 0 <= i < |ps| ==> PhaseOk(ps[i])) && LexesTo(rest, ws)
    ensures LexesTo(PhasesText(ps) + rest, PhasesWords(ps) + ws)
  {
    if ps == [] {
      assert "" + rest == rest && [] + ws == ws;
    } else {
      var front, last := ps[..|ps| - 1], ps[|ps| - 1];
      PhaseLexes(last, rest, ws);
      PhasesLex(front, PhaseText(last) + rest, PhaseWords(last) + ws);
      AppendAssociates(PhasesText(front), PhaseText(last), rest);
      AppendAssociates(PhasesWords(front), PhaseWords(last), ws);
    }
  }

  lemma LastRule(rs: seq<PrintRule>, conds: seq<seq<string>>)
    requires rs != [] && RulesOk(rs, conds)
    ensures var k := |rs| - 1;
      RuleOk(rs[k], conds[k]) && RulesOk(rs[..k], conds[..k])
      && RulesText(rs) == RulesText(rs[..k]) + RuleText(rs[k])
      && RulesWords(rs, conds) == RulesWords(rs[..k], conds[..k]) + RuleWords(rs[k], conds[k])
  {
  }

  lemma {:induction false} RulesLex(rs: seq<PrintRule>, conds: seq<seq<string>>, rest: string, ws: seq<Word>)
    requires RulesOk(rs, conds) && LexesTo(rest, ws)
    ensures LexesTo(RulesText(rs) + rest, RulesWords(rs, conds) + ws)
  {
    if rs == [] {
      assert "" + rest == rest && [] + ws == ws;
    } else {
      var k := |rs| - 1;
      var front, before, last, parts := rs[..k], conds[..k], rs[k], conds[k];
      LastRule(rs, conds);
      RuleLexes(last, parts, rest, ws);
      RulesLex(front, before, RuleText(last) + rest, RuleWords(last, parts) + ws);
      Append(RulesText(front), RuleText(last), rest, RulesWords(front, before), RuleWords(last, parts), ws);
    }
  }

  lemma RulesBlockTextNested(rules: string, rest: string)
    ensures ("\n  rules {\n" + rules + "  }\n") + rest
      == "\n  " + ("rules" + (" " + ("{" + ("\n" + (rules + ("  " + ("}" + ("\n" + rest))))))))
  {
    var t := rules + ("  }\n" + rest);
    Nest3("\n  rules {\n", rules, "  }\n", rest);
    assert "\n  rules {\n" == "\n  " + "rules" + " " + "{" + "\n";
    Nest5("\n  ", "rules", " ", "{", "\n", t);
    BlockCloseText(rest);
  }

  lemma RulesBlockLexes(rs: seq<PrintRule>, conds: seq<seq<string>>, rest: string, ws: seq<Word>)
    requires RulesOk(rs, conds) && LexesTo(rest, ws)
    ensures LexesTo(RulesBlockText(rs) + rest, RulesBlockWords(rs, conds) + ws)
  {
    if rs == [] {
      assert "" + rest == rest && [] + ws == ws;
    } else {
      var close := "  " + ("}" + ("\n" + rest));
      ClosingLexes("  ", rest, ws);
      RulesLex(rs, conds, close, [CLOSE] + ws);
      RulesOpeningLexes(RulesText(rs) + close, RulesWords(rs, conds) + ([CLOSE] + ws));
      RulesBlockTextNested(RulesText(rs), rest);
      AppendAssociates(RulesWords(rs, conds), [CLOSE], ws);
      AppendAssociates([Word(Ident, "rules"), OPEN], RulesWords(rs, conds) + [CLOSE], ws);
    }
  }

  // ---------------------------------------------------------------- documents

  function BudgetPart(b: Option<PrintBudget>): seq<Word> {
    if b.Some? then BudgetWords(b.value) else []
  }

  /** The words of an agent block behind its opening brace. */
  function BodyWords(d: PrintDoc, conds: seq<seq<string>>): seq<Word>
    requires |conds| == |d.rules|
  {
    DefaultWords(d.defaultEffect) + (VarsWords(d.vars) + (BudgetPart(d.budget)
    + (PhasesWords(d.phases) + (RulesBlockWords(d.rules, conds) + [CLOSE, END]))))
  }

  function DocWords(d: PrintDoc, conds: seq<seq<string>>): seq<Word>
    requires |conds| == |d.rules|
  {
    [Word(Ident, "agent"), Word(Ident, d.agentID), OPEN] + BodyWords(d, conds)
  }

  function BudgetPartText(b: Option<PrintBudget>): string {
    if b.Some? then BudgetText(b.value) else ""
  }

  function BodyText(d: PrintDoc): string {
    LineIf(d.defaultEffect != "", "  default " + d.defaultEffect)
    + (VarsText(d.vars) + (BudgetPartText(d.budget) + (PhasesText(d.phases) + (RulesBlockText(d.rules) + "}\n"))))
  }

  lemma BodyLexes(d: PrintDoc, conds: seq<seq<string>>)
    requires DocOk(d, conds)
    ensures LexesTo(BodyText(d), BodyWords(d, conds))
  {
    EndLexes();
    ClosingLexes("", "", [END]);
    assert "" + ("}" + ("\n" + "")) == "}\n" && [CLOSE] + [END] == [CLOSE, END];
    var t1, w1 := RulesBlockText(d.rules) + "}\n", RulesBlockWords(d.rules, conds) + [CLOSE, END];
    RulesBlockLexes(d.rules, conds, "}\n", [CLOSE, END]);
    var t2, w2 := PhasesText(d.phases) + t1, PhasesWords(d.phases) + w1;
    PhasesLex(d.phases, t1, w1);
    var t3, w3 := BudgetPartText(d.budget) + t2, BudgetPart(d.budget) + w2;
    if d.budget.Some? {
      BudgetLexes(d.budget.value, t2, w2);
    } else {
      assert "" + t2 == t2 && [] + w2 == w2;
    }
    VarsLex(d.vars, t3, w3);
    DefaultLexes(d.defaultEffect, VarsText(d.vars) + t3, VarsWords(d.vars) + w3);
  }

  lemma NestDoc(id: string, a: string, b: string, c: string, d: string, e: string)
    ensures "agent " + id + " {\n" + a + b + c + d + e + "}\n"
      == "agent " + id + " {\n" + (a + (b + (c + (d + (e + "}\n")))))
  {
    var h := "agent " + id + " {\n";
    Nest5(a, b, c, d, e, "}\n");
    assert h + a + b + c + d + e + "}\n" == h + (a + b + c + d + e + "}\n");
  }

  lemma NestDocHead(id: string, body: string)
    ensures "agent " + id + " {\n" + body == "" + ("agent" + (" " + (id + (" " + ("{" + ("\n" + body))))))
  {
    Nest3("agent ", id, " {\n", body);
    assert "agent " == "agent" + " " && " {\n" == " " + "{" + "\n";
    Nest3(" ", "{", "\n", body);
    AppendAssociates("agent", " ", id + (" {\n" + body));
  }

  lemma DocTextIsHeadAndBody(d: PrintDoc)
    ensures DocText(d) == "agent " + d.agentID + " {\n" + BodyText(d)
  {
    NestDoc(d.agentID, LineIf(d.defaultEffect != "", "  default " + d.defaultEffect), VarsText(d.vars),
      BudgetPartText(d.budget), PhasesText(d.phases), RulesBlockText(d.rules));
  }

  lemma HeadLexes(id: string, body: string, ws: seq<Word>)
    requires NameOk(id) && LexesTo(body, ws)
    ensures LexesTo("agent " + id + " {\n" + body, [Word(Ident, "agent"), Word(Ident, id), OPEN] + ws)
  {
    assert NameOk("agent");
    NamedOpeningLexes("", "agent", id, body, ws);
    NestDocHead(id, body);
  }

  /** A printed document lexes to its words. */
  lemma DocLexes(d: PrintDoc, conds: seq<seq<string>>)
    requires DocOk(d, conds)
    ensures LexesTo(DocText(d), DocWords(d, conds))
  {
    BodyLexes(d, conds);
    HeadLexes(d.agentID, BodyText(d), BodyWords(d, conds));
    DocTextIsHeadAndBody(d);
  }
}
