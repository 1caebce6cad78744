/** Rules with their clauses in any order: a later clause replaces an earlier one of its kind. */
module FplClauses {
  import opened Basics
  import opened FplLexer
  import opened FplParser
  import opened FplWords
  import opened FplRoundTrip
  import opened FplReparse

  /** A condition, or a text behind "notify" or "reason", with or without a colon. */
  datatype Clause = When(parts: seq<string>) | Text(keyword: string, value: string, colon: bool)

  predicate ClauseOk(c: Clause) {
    match c
    case When(parts) => PartsOk(parts)
    case Text(keyword, _, _) => keyword in {"notify", "reason"}
  }

  /** Nothing but such a text ends a condition: a second "when" would be part of the first. */
  predicate ClausesOk(cs: seq<Clause>) {
    forall i :: 0 <= i < |cs| ==> ClauseOk(cs[i]) && (cs[i].When? && i + 1 < |cs| ==> cs[i + 1].Text?)
  }

  /** What a clause says. */
  function Said(rule: Rule, c: Clause): Rule {
    match c
    case When(parts) => rule.(condition := Join(parts))
    case Text(keyword, value, _) => if keyword == "notify" then rule.(notify := value) else rule.(reason := value)
  }

  function AllSaid(rule: Rule, cs: seq<Clause>): Rule
    decreases |cs|
  {
    if cs == [] then rule else AllSaid(Said(rule, cs[0]), cs[1..])
  }

  function Words(c: Clause, ws: seq<Word>): seq<Word> {
    match c
    case When(parts) => [Word(Ident, "when")] + (PartWords(parts) + ws)
    case Text(keyword, value, colon) =>
      var text := [Word(Str, value)] + ws;
      [Word(Ident, keyword)] + (if colon then [Word(Colon, ":")] + text else text)
  }

  function AllWords(cs: seq<Clause>, ws: seq<Word>): seq<Word>
    decreases |cs|
  {
    if cs == [] then ws else Words(cs[0], AllWords(cs[1..], ws))
  }

  /** What ends a condition. */
  predicate EndsWhen(ws: seq<Word>) {
    EndsRule(ws) || (ws != [] && ws[0].kind.Ident? && IsClauseWord(ws[0].val))
  }

  lemma TextReads(rule: Rule, ts: seq<Token>, c: Clause, ws: seq<Word>) returns (rest: seq<Token>)
    requires c.Text? && ClauseOk(c) && Strip(ts) == Words(c, ws)
    ensures Clauses(rule, ts) == Clauses(Said(rule, c), rest) && Strip(rest) == ws
  {
    var value := [Word(Str, c.value)] + ws;
    if c.colon {
      WordAt(ts, Word(Ident, c.keyword), [Word(Colon, ":")] + value);
      WordAt(Advance(ts), Word(Colon, ":"), value);
    } else {
      WordAt(ts, Word(Ident, c.keyword), value);
    }
    var at := SkipColon(Advance(ts));
    WordAt(if c.colon then at else Advance(ts), Word(Str, c.value), ws);
    rest := Value(at).rest;
  }

  lemma ConditionClauseReads(rule: Rule, ts: seq<Token>, c: Clause, ws: seq<Word>) returns (rest: seq<Token>)
    requires c.When? && ClauseOk(c) && Strip(ts) == Words(c, ws) && EndsWhen(ws)
    ensures Clauses(rule, ts) == Clauses(Said(rule, c), rest) && Strip(rest) == ws
  {
    WordAt(ts, Word(Ident, "when"), PartWords(c.parts) + ws);
    var line := Peek(Advance(ts)).line;
    ConditionReads(Advance(ts), line, c.parts, ws);
    rest := Condition(Advance(ts), line).1;
    ClausesAtWhen(rule, ts, c.parts, rest);
  }

  lemma {:induction false} ClausesRead(rule: Rule, ts: seq<Token>, cs: seq<Clause>, ws: seq<Word>)
    requires ClausesOk(cs) && Strip(ts) == AllWords(cs, ws) && EndsRule(ws)
    ensures var p := Clauses(rule, ts); p.Done? && p.value == AllSaid(rule, cs) && Strip(p.rest) == ws
    decreases |cs|
  {
    if cs == [] {
      NoClauses(rule, ts, ws);
    } else {
      var more, rest := AllWords(cs[1..], ws), [];
      assert ClauseOk(cs[0]);
      if cs[0].Text? {
        rest := TextReads(rule, ts, cs[0], more);
      } else {
        assert |cs| > 1 ==> cs[1].Text? && ClauseOk(cs[1]) && more == Words(cs[1], AllWords(cs[1..][1..], ws));
        rest := ConditionClauseReads(rule, ts, cs[0], more);
      }
      ClausesRead(Said(rule, cs[0]), rest, cs[1..], ws);
    }
  }

  lemma ClauseNoUnit(cs: seq<Clause>, ws: seq<Word>)
    requires ClausesOk(cs) && EndsRule(ws)
    ensures var all := AllWords(cs, ws); all != [] && (all[0].kind.Ident? ==> !IsUnitSuffix(all[0].val))
  {
    if cs == [] {
      EndsRuleNoUnit(ws);
    } else {
      assert ClauseOk(cs[0]);
      LongIsNoUnit(AllWords(cs, ws)[0].val);
    }
  }

  /** An effect, or "deny" and an exclamation mark behind it. */
  function EffectWords(effect: string, marked: bool): seq<Word> {
    [Word(Ident, effect)] + (if marked then [Word(Bang, "!")] else [])
  }

  lemma MarkedReads(ts: seq<Token>, tool: string, more: seq<Word>)
    requires ToolWords(tool) != [] && more != [] && (more[0].kind.Ident? ==> !IsUnitSuffix(more[0].val))
    requires Strip(ts) == [Word(Ident, "deny")] + ([Word(Bang, "!")] + (ToolWords(tool) + more))
    ensures var at := Advance(Advance(ts));
      && Value(at).Done? && Strip(Value(at).rest) == more
      && FlatRule(ts) == Clauses(Rule("deny!", tool, "", "", ""), Value(at).rest)
  {
    WordAt(ts, Word(Ident, "deny"), [Word(Bang, "!")] + (ToolWords(tool) + more));
    WordAt(Advance(ts), Word(Bang, "!"), ToolWords(tool) + more);
    ValueReads(Advance(Advance(ts)), tool, more);
  }

  /**
   A rule is read with its clauses in whatever order they stand, the last of each kind holding; and a strict denial may
   be written with its mark apart.
   */
  lemma RuleInAnyOrder(
    ts: seq<Token>, effect: string, marked: bool, tool: string, cs: seq<Clause>, ws: seq<Word>)
    requires (marked ==> effect == "deny") && ToolWords(tool) != [] && ClausesOk(cs) && EndsRule(ws)
    requires Strip(ts) == EffectWords(effect, marked) + (ToolWords(tool) + AllWords(cs, ws))
    ensures var p := FlatRule(ts);
      && p.Done? && Strip(p.rest) == ws
      && p.value == AllSaid(Rule(if marked then "deny!" else effect, tool, "", "", ""), cs)
  {
    var more := AllWords(cs, ws);
    ClauseNoUnit(cs, ws);
    if marked {
      AppendAssociates([Word(Ident, effect)], [Word(Bang, "!")], ToolWords(tool) + more);
      MarkedReads(ts, tool, more);
      ClausesRead(Rule("deny!", tool, "", "", ""), Value(Advance(Advance(ts))).rest, cs, ws);
    } else {
      RuleHeadReads(ts, effect, tool, more);
      ClausesRead(Rule(effect, tool, "", "", ""), Value(Advance(ts)).rest, cs, ws);
    }
  }

  /** An amount may be written with a dollar sign or without. */
  lemma DollarIsOptional(n: Numbers, ts: seq<Token>, number: string, ws: seq<Word>)
    requires Strip(ts) == [Word(Dollar, "$")] + ([Word(Number, number)] + ws) && n.parseFloat(number).Some?
    ensures Currency(n, ts) == Currency(n, Advance(ts)) == Done(n.parseFloat(number).value, Advance(Advance(ts)))
  {
    WordAt(ts, Word(Dollar, "$"), [Word(Number, number)] + ws);
    WordAt(Advance(ts), Word(Number, number), ws);
  }
  /** Each effect of the language and a tool make a document. */
  lemma EveryEffectReads(n: Numbers, effect: string, tool: string)
    requires effect in {"permit", "allow", "approve", "deny", "deny!", "block", "reject", "defer"}
    requires ToolWords(tool) != []
    ensures ParseSource(n, effect + (" " + (tool + "\n"))) == Ok(Document([], [Rule(effect, tool, "", "", "")]))
  {
    EffectFacts(effect);
    EndLexes();
    ConsBlank('\n', "", [END]);
    assert "\n" + "" == "\n";
    ToolLexes(tool, "\n", [END]);
    SpaceThen(tool + "\n", ToolWords(tool) + [END]);
    WordThenBlank(Word(Ident, effect), " " + (tool + "\n"), ToolWords(tool) + [END]);
    var words := [Word(Ident, effect)] + (ToolWords(tool) + [END]);
    assert LexesAt(effect + (" " + (tool + "\n")), words, 1);
    OneRule(n, Lex(effect + (" " + (tool + "\n")), 1).value, effect, tool);
  }

  lemma OneRule(n: Numbers, ts: seq<Token>, effect: string, tool: string)
    requires IsEffect(effect) && ToolWords(tool) != []
    requires Strip(ts) == [Word(Ident, effect)] + (ToolWords(tool) + [END])
    ensures ParseTokens(n, ts) == Ok(Document([], [Rule(effect, tool, "", "", "")]))
  {
    var rule := Rule(effect, tool, "", "", "");
    WordAt(ts, Word(Ident, effect), ToolWords(tool) + [END]);
    EffectFacts(effect);
    RuleHeadReads(ts, effect, tool, [END]);
    NoClauses(rule, Value(Advance(ts)).rest, [END]);
    var rest := Value(Advance(ts)).rest;
    StripStep(rest, END, []);
    assert effect != "agent" && FlatRule(ts) == Done(rule, rest);
    assert [] + [rule] == [rule];
    assert DocumentItems(n, Document([], [rule]), rest) == Ok(Document([], [rule]));
  }

  /** A number and a unit behind it are one value, in whatever case the unit is written. */
  lemma UnitReads(ts: seq<Token>, number: string, unit: string, ws: seq<Word>)
    requires Strip(ts) == [Word(Number, number)] + ([Word(Ident, unit)] + ws)
    requires Lower(unit) in
      {"s", "ms", "m", "h", "d", "w", "b", "kb", "mb", "gb", "tb", "usd", "eur", "gbp"}
    ensures Value(ts) == Done(number + unit, Advance(Advance(ts)))
  {
    WordAt(ts, Word(Number, number), [Word(Ident, unit)] + ws);
    WordAt(Advance(ts), Word(Ident, unit), ws);
  }
}
