/** The printer of FPL (DecompileToFPL). */
module FplPrinter {
  import opened Basics

  datatype PrintRule = PrintRule(
    effect: string, tool: string, when_: string, notify: string, reason: string, strictDeny: bool)

  datatype PrintBudget = PrintBudget(sessionUSD: real, dailyUSD: real, maxCalls: int, onExceed: string)

  /** A document to print. The program keeps vars and phases in maps: these lists are the order it visits them in. */
  datatype PrintDoc = PrintDoc(
    agentID: string, defaultEffect: string, vars: seq<(string, string)>, phases: seq<(string, seq<string>)>,
    rules: seq<PrintRule>, budget: Option<PrintBudget>)

  function Digits(n: nat): string {
    if n < 10 then ['0' + n as char] else Digits(n / 10) + ['0' + (n % 10) as char]
  }

  /** Rounding to a whole number, halves to the even neighbour (the %.0f verb). */
  function Round(x: real): int {
    var below, over := x.Floor, x - x.Floor as real;
    if over < 0.5 || (over == 0.5 && below % 2 == 0) then below else below + 1
  }

  /** White space of unicode.IsSpace among the ASCII characters, or a quote. */
  predicate NeedsQuotesAt(c: char) {
    c == '\t' || c == '\n' || c == '\U{b}' || c == '\U{c}' || c == '\r' || c == ' ' || c == '"'
  }

  predicate NeedsQuotes(s: string) {
    exists i :: 0 <= i < |s| && NeedsQuotesAt(s[i])
  }

  function Quoted(s: string): string {
    "\"" + s + "\""
  }

  // ---------------------------------------------------------------- the text of each part

  function VarText(v: (string, string)): string {
    "  var " + v.0 + " " + (if NeedsQuotes(v.1) then Quoted(v.1) else v.1) + "\n"
  }

  function VarsText(vars: seq<(string, string)>): string {
    if vars == [] then "" else VarsText(vars[..|vars| - 1]) + VarText(vars[|vars| - 1])
  }

  /** A line of its own, or nothing. */
  function LineIf(on: bool, line: string): string {
    if on then line + "\n" else ""
  }

  function BudgetText(b: PrintBudget): string {
    "\n  budget session {\n"
    + LineIf(b.sessionUSD > 0.0, "    max $" + Digits(Amount(b.sessionUSD)))
    + LineIf(b.dailyUSD > 0.0, "    daily $" + Digits(Amount(b.dailyUSD)))
    + LineIf(b.maxCalls > 0, "    max_calls " + Digits(if b.maxCalls > 0 then b.maxCalls else 0))
    + LineIf(b.onExceed != "", "    on_exceed " + b.onExceed)
    + "  }\n"
  }

  /** A positive amount in whole dollars, as printed. */
  function Amount(x: real): nat {
    if x > 0.0 then Round(x) else 0
  }

  function ToolText(tool: string): string {
    "    permit " + tool + "\n"
  }

  function ToolsText(tools: seq<string>): string {
    if tools == [] then "" else ToolsText(tools[..|tools| - 1]) + ToolText(tools[|tools| - 1])
  }

  function PhaseText(p: (string, seq<string>)): string {
    "\n  phase " + p.0 + " {\n" + ToolsText(p.1) + "  }\n"
  }

  function PhasesText(ps: seq<(string, seq<string>)>): string {
    if ps == [] then "" else PhasesText(ps[..|ps| - 1]) + PhaseText(ps[|ps| - 1])
  }

  function ClauseIf(on: bool, clause: string): string {
    if on then clause else ""
  }

  function RuleText(r: PrintRule): string {
    "    " + (r.effect + ClauseIf(r.strictDeny, "!")) + " " + r.tool
    + ClauseIf(r.when_ != "" && r.when_ != "true", " when " + r.when_)
    + ClauseIf(r.notify != "", " notify: " + Quoted(r.notify))
    + ClauseIf(r.reason != "", " reason: " + Quoted(r.reason))
    + "\n"
  }

  function RulesText(rs: seq<PrintRule>): string {
    if rs == [] then "" else RulesText(rs[..|rs| - 1]) + RuleText(rs[|rs| - 1])
  }

  function RulesBlockText(rs: seq<PrintRule>): string {
    if rs == [] then "" else "\n  rules {\n" + RulesText(rs) + "  }\n"
  }

  function DocText(d: PrintDoc): string {
    "agent " + d.agentID + " {\n"
    + LineIf(d.defaultEffect != "", "  default " + d.defaultEffect)
    + VarsText(d.vars)
    + (if d.budget.Some? then BudgetText(d.budget.value) else "")
    + PhasesText(d.phases)
    + RulesBlockText(d.rules)
    + "}\n"
  }

  // ---------------------------------------------------------------- the printer

  method WriteIf(before: string, on: bool, text: string) returns (b: string)
    ensures b == before + ClauseIf(on, text)
  {
    b := before;
    if on {
      b := b + text;
    }
  }

  method WriteLineIf(before: string, on: bool, line: string) returns (b: string)
    ensures b == before + LineIf(on, line)
  {
    b := before;
    if on {
      b := b + (line + "\n");
    }
  }

  method WriteRule(before: string, r: PrintRule) returns (b: string)
    ensures b == before + RuleText(r)
  {
    var effect := WriteIf(r.effect, r.strictDeny, "!");
    var line := "    " + effect + " " + r.tool;
    line := WriteIf(line, r.when_ != "" && r.when_ != "true", " when " + r.when_);
    line := WriteIf(line, r.notify != "", " notify: " + Quoted(r.notify));
    line := WriteIf(line, r.reason != "", " reason: " + Quoted(r.reason));
    b := before + (line + "\n");
  }

  method WriteBudget(before: string, budget: PrintBudget) returns (b: string)
    ensures b == before + BudgetText(budget)
  {
    var text := "\n  budget session {\n";
    text := WriteLineIf(text, budget.sessionUSD > 0.0, "    max $" + Digits(Amount(budget.sessionUSD)));
    text := WriteLineIf(text, budget.dailyUSD > 0.0, "    daily $" + Digits(Amount(budget.dailyUSD)));
    text := WriteLineIf(
      text, budget.maxCalls > 0, "    max_calls " + Digits(if budget.maxCalls > 0 then budget.maxCalls else 0));
    text := WriteLineIf(text, budget.onExceed != "", "    on_exceed " + budget.onExceed);
    b := before + (text + "  }\n");
  }

  method WriteVars(before: string, vars: seq<(string, string)>) returns (b: string)
    ensures b == before + VarsText(vars)
  {
    var text := "";
    for i := 0 to |vars|
      invariant text == VarsText(vars[..i])
    {
      assert vars[..i + 1][..i] == vars[..i];
      text := text + VarText(vars[i]);
    }
    assert vars[..|vars|] == vars;
    b := before + text;
  }

  method WritePhase(before: string, phase: (string, seq<string>)) returns (b: string)
    ensures b == before + PhaseText(phase)
  {
    var tools := phase.1;
    var text := "";
    for i := 0 to |tools|
      invariant text == ToolsText(tools[..i])
    {
      assert tools[..i + 1][..i] == tools[..i];
      text := text + ToolText(tools[i]);
    }
    assert tools[..|tools|] == tools;
    b := before + ("\n  phase " + phase.0 + " {\n" + text + "  }\n");
  }

  method WritePhases(before: string, phases: seq<(string, seq<string>)>) returns (b: string)
    ensures b == before + PhasesText(phases)
  {
    var text := "";
    for i := 0 to |phases|
      invariant text == PhasesText(phases[..i])
    {
      assert phases[..i + 1][..i] == phases[..i];
      text := WritePhase(text, phases[i]);
    }
    assert phases[..|phases|] == phases;
    b := before + text;
  }

  method WriteRules(before: string, rules: seq<PrintRule>) returns (b: string)
    ensures b == before + RulesBlockText(rules)
  {
    if |rules| == 0 {
      return before;
    }
    var text := "";
    for i := 0 to |rules|
      invariant text == RulesText(rules[..i])
    {
      assert rules[..i + 1][..i] == rules[..i];
      text := WriteRule(text, rules[i]);
    }
    assert rules[..|rules|] == rules;
    b := before + ("\n  rules {\n" + text + "  }\n");
  }

  method DecompileToFPL(d: PrintDoc) returns (b: string)
    ensures b == DocText(d)
  {
    b := "agent " + d.agentID + " {\n";
    b := WriteLineIf(b, d.defaultEffect != "", "  default " + d.defaultEffect);
    b := WriteVars(b, d.vars);
    if d.budget.Some? {
      b := WriteBudget(b, d.budget.value);
    } else {
      b := b + "";
    }
    b := WritePhases(b, d.phases);
    b := WriteRules(b, d.rules);
    b := b + "}\n";
  }
}
