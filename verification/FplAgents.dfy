/** Agents written item by item, in any order: the agent read is what its items say. */
module FplAgents {
  import opened Basics
  import opened FplLexer
  import opened FplParser
  import opened FplWords
  import opened FplRoundTrip
  import opened FplDocument
  import opened FplReparse
  import opened FplJoin

  /** An item of an agent. Rules are given as a source of their own. */
  datatype Item =
    | Setting(keyword: string, value: string)
    | BudgetItem(id: string, onExceed: string)
    | PhaseItem(id: string, duration: string, next: string, rules: string)
    | RulesItem(rules: string)

  predicate IsSetting(s: string) {
    s in {"default", "model", "framework", "version"}
  }

  /** A flat list of rules that all start with an effect. */
  predicate RulesSource(src: string) {
    ParseFlatRules(src).Ok? && EffectStarts(TokensOf(src))
  }

  predicate ItemOk(i: Item) {
    match i
    case Setting(keyword, value) => IsSetting(keyword) && ToolWords(value) != []
    case BudgetItem(id, onExceed) => NameOk(id) && ToolWords(onExceed) != []
    case PhaseItem(id, duration, next, rules) =>
      NameOk(id) && ToolWords(duration) != [] && ToolWords(next) != [] && RulesSource(rules)
    case RulesItem(rules) => RulesSource(rules)
  }

  predicate ItemsOk(items: seq<Item>) {
    forall i :: 0 <= i < |items| ==> ItemOk(items[i])
  }

  // ---------------------------------------------------------------- what the items say

  function Set(a: Agent, keyword: string, value: string): Agent {
    a.(default_ := if keyword == "default" then value else a.default_,
       model := if keyword == "model" then value else a.model,
       framework := if keyword == "framework" then value else a.framework,
       version := if keyword == "version" then value else a.version)
  }

  /** An agent with one more item: settings replace what was set, all else is added behind. */
  function Said(a: Agent, i: Item): Agent
    requires ItemOk(i)
  {
    match i
    case Setting(keyword, value) => Set(a, keyword, value)
    case BudgetItem(id, onExceed) => a.(budgets := a.budgets + [Budget(id, 0.0, 0.0, 0, onExceed)])
    case PhaseItem(id, duration, next, rules) =>
      var rs := ParseFlatRules(rules).value;
      a.(phases := a.phases + [Phase(id, Tools(rs), rs, duration, next)])
    case RulesItem(rules) => a.(rules := a.rules + ParseFlatRules(rules).value)
  }

  function AllSaid(a: Agent, items: seq<Item>): Agent
    requires ItemsOk(items)
    decreases |items|
  {
    if items == [] then a else AllSaid(Said(a, items[0]), items[1..])
  }

  // ---------------------------------------------------------------- their text

  function Line(keyword: string, value: string, rest: string): string {
    keyword + (" " + (value + ("\n" + rest)))
  }

  function Opened(keyword: string, name: string, rest: string): string {
    keyword + (" " + (name + (" " + ("{" + ("\n" + rest)))))
  }

  function Closed(rest: string): string {
    "}" + ("\n" + rest)
  }

  /** An item in front of a text. */
  function ItemText(i: Item, rest: string): string {
    match i
    case Setting(keyword, value) => Line(keyword, value, rest)
    case BudgetItem(id, onExceed) => Opened("budget", id, Line("on_exceed", onExceed, Closed(rest)))
    case PhaseItem(id, duration, next, rules) =>
      Opened("phase", id, Line("duration", duration, Line("next", next, rules + ("\n" + Closed(rest)))))
    case RulesItem(rules) => "rules" + (" " + ("{" + ("\n" + (rules + ("\n" + Closed(rest))))))
  }

  /** Items, then rules without a block around them. */
  function BodyText(items: seq<Item>, inline: string): string {
    if items == [] then inline + ("\n" + Closed("")) else ItemText(items[0], BodyText(items[1..], inline))
  }

  function AgentText(id: string, items: seq<Item>, inline: string): string {
    Opened("agent", id, BodyText(items, inline))
  }

  // ---------------------------------------------------------------- its words

  function OpenWords(keyword: string, name: string): seq<Word> {
    [Word(Ident, keyword), Word(Ident, name), OPEN]
  }

  function LineWords(keyword: string, value: string): seq<Word> {
    [Word(Ident, keyword)] + ToolWords(value)
  }

  function SourceWords(src: string): seq<Word> {
    if LexWords(src).Some? && LexWords(src).value != [] then WordsOf(src) else []
  }

  function ItemWords(i: Item, ws: seq<Word>): seq<Word> {
    match i
    case Setting(keyword, value) => LineWords(keyword, value) + ws
    case BudgetItem(id, onExceed) => OpenWords("budget", id) + (LineWords("on_exceed", onExceed) + ([CLOSE] + ws))
    case PhaseItem(id, duration, next, rules) =>
      OpenWords("phase", id)
      + (LineWords("duration", duration) + (LineWords("next", next) + (SourceWords(rules) + ([CLOSE] + ws))))
    case RulesItem(rules) => [Word(Ident, "rules")] + ([OPEN] + (SourceWords(rules) + ([CLOSE] + ws)))
  }

  function BodyWords(items: seq<Item>, inline: string): seq<Word> {
    if items == [] then SourceWords(inline) + ([CLOSE] + [END])
    else ItemWords(items[0], BodyWords(items[1..], inline))
  }

  lemma OpenedLexes(keyword: string, name: string, rest: string, ws: seq<Word>)
    requires NameOk(keyword) && NameOk(name) && LexesTo(rest, ws)
    ensures LexesTo(Opened(keyword, name, rest), OpenWords(keyword, name) + ws)
  {
    NamedOpeningLexes("", keyword, name, rest, ws);
    assert "" + Opened(keyword, name, rest) == Opened(keyword, name, rest);
  }

  lemma LineOfWords(keyword: string, value: string, rest: string, ws: seq<Word>)
    requires IdentWord(keyword) && ToolWords(value) != [] && LexesTo(rest, ws)
    ensures LexesTo(Line(keyword, value, rest), LineWords(keyword, value) + ws)
  {
    var tail, words := value + ("\n" + rest), ToolWords(value) + ws;
    ConsBlank('\n', rest, ws);
    ToolLexes(value, "\n" + rest, ws);
    SpaceThen(tail, words);
    WordThenBlank(Word(Ident, keyword), " " + tail, words);
    AppendAssociates([Word(Ident, keyword)], ToolWords(value), ws);
  }

  lemma SourceLexes(src: string, rest: string, ws: seq<Word>)
    requires LexWords(src).Some? && LexesTo(rest, ws)
    ensures LexesTo(src + ("\n" + rest), SourceWords(src) + ws)
  {
    WordsEnd(src);
    WordsJoin(src, rest);
    LexesToIsLexWords(rest, ws);
    LexesToIsLexWords(src + ("\n" + rest), SourceWords(src) + ws);
  }

  lemma RulesLexes(src: string, rest: string, ws: seq<Word>)
    requires RulesSource(src) && LexesTo(rest, ws)
    ensures LexesTo(src + ("\n" + rest), SourceWords(src) + ws)
  {
    LexHasWords(src, 1);
    SourceLexes(src, rest, ws);
  }

  lemma BudgetLexes(id: string, onExceed: string, rest: string, ws: seq<Word>)
    requires ItemOk(BudgetItem(id, onExceed)) && LexesTo(rest, ws)
    ensures LexesTo(ItemText(BudgetItem(id, onExceed), rest), ItemWords(BudgetItem(id, onExceed), ws))
  {
    assert IdentWord("on_exceed") && NameOk("budget");
    LineLexes(CLOSE, rest, ws);
    LineOfWords("on_exceed", onExceed, Closed(rest), [CLOSE] + ws);
    OpenedLexes(
      "budget", id, Line("on_exceed", onExceed, Closed(rest)), LineWords("on_exceed", onExceed) + ([CLOSE] + ws));
  }

  lemma PhaseHeadLexes(id: string, duration: string, next: string, rest: string, ws: seq<Word>)
    requires NameOk(id) && ToolWords(duration) != [] && ToolWords(next) != [] && LexesTo(rest, ws)
    ensures LexesTo(Opened("phase", id, Line("duration", duration, Line("next", next, rest))),
      OpenWords("phase", id) + (LineWords("duration", duration) + (LineWords("next", next) + ws)))
  {
    assert IdentWord("duration") && IdentWord("next") && NameOk("phase");
    LineOfWords("next", next, rest, ws);
    LineOfWords("duration", duration, Line("next", next, rest), LineWords("next", next) + ws);
    OpenedLexes("phase", id, Line("duration", duration, Line("next", next, rest)),
      LineWords("duration", duration) + (LineWords("next", next) + ws));
  }

  lemma RulesHeadLexes(rest: string, ws: seq<Word>)
    requires LexesTo(rest, ws)
    ensures LexesTo("rules" + (" " + ("{" + ("\n" + rest))), [Word(Ident, "rules")] + ([OPEN] + ws))
  {
    assert IdentWord("rules");
    ConsBlank('\n', rest, ws);
    WordThenBlank(OPEN, "\n" + rest, ws);
    SpaceThen("{" + ("\n" + rest), [OPEN] + ws);
    WordThenBlank(Word(Ident, "rules"), " " + ("{" + ("\n" + rest)), [OPEN] + ws);
  }

  lemma SettingLexes(keyword: string, value: string, rest: string, ws: seq<Word>)
    requires IsSetting(keyword) && ToolWords(value) != [] && LexesTo(rest, ws)
    ensures LexesTo(Line(keyword, value, rest), LineWords(keyword, value) + ws)
  {
    assert IdentWord("default") && IdentWord("model") && IdentWord("framework") && IdentWord("version");
    LineOfWords(keyword, value, rest, ws);
  }

  lemma PhaseLexes(id: string, duration: string, next: string, rules: string, rest: string, ws: seq<Word>)
    requires ItemOk(PhaseItem(id, duration, next, rules)) && LexesTo(rest, ws)
    ensures LexesTo(ItemText(PhaseItem(id, duration, next, rules), rest),
      ItemWords(PhaseItem(id, duration, next, rules), ws))
  {
    LineLexes(CLOSE, rest, ws);
    RulesLexes(rules, Closed(rest), [CLOSE] + ws);
    PhaseHeadLexes(id, duration, next, rules + ("\n" + Closed(rest)), SourceWords(rules) + ([CLOSE] + ws));
  }

  lemma RulesItemLexes(rules: string, rest: string, ws: seq<Word>)
    requires RulesSource(rules) && LexesTo(rest, ws)
    ensures LexesTo(ItemText(RulesItem(rules), rest), ItemWords(RulesItem(rules), ws))
  {
    LineLexes(CLOSE, rest, ws);
    RulesLexes(rules, Closed(rest), [CLOSE] + ws);
    RulesHeadLexes(rules + ("\n" + Closed(rest)), SourceWords(rules) + ([CLOSE] + ws));
  }

  lemma ItemLexes(i: Item, rest: string, ws: seq<Word>)
    requires ItemOk(i) && LexesTo(rest, ws)
    ensures LexesTo(ItemText(i, rest), ItemWords(i, ws))
  {
    match i {
      case Setting(keyword, value) => SettingLexes(keyword, value, rest, ws);
      case BudgetItem(id, onExceed) => BudgetLexes(id, onExceed, rest, ws);
      case PhaseItem(id, duration, next, rules) => PhaseLexes(id, duration, next, rules, rest, ws);
      case RulesItem(rules) => RulesItemLexes(rules, rest, ws);
    }
  }

  lemma {:induction false} BodyLexes(items: seq<Item>, inline: string)
    requires ItemsOk(items) && RulesSource(inline)
    ensures LexesTo(BodyText(items, inline), BodyWords(items, inline))
  {
    if items == [] {
      EndLexes();
      LineLexes(CLOSE, "", [END]);
      RulesLexes(inline, Closed(""), [CLOSE] + [END]);
    } else {
      BodyLexes(items[1..], inline);
      ItemLexes(items[0], BodyText(items[1..], inline), BodyWords(items[1..], inline));
    }
  }

  // ---------------------------------------------------------------- what is read from them

  /** The words do not start with a unit, which a number before them would take in. */
  predicate NoUnit(ws: seq<Word>) {
    ws != [] && (ws[0].kind.Ident? ==> !IsUnitSuffix(ws[0].val))
  }

  lemma LineReads(ts: seq<Token>, keyword: string, value: string, ws: seq<Word>)
    requires ToolWords(value) != [] && Strip(ts) == LineWords(keyword, value) + ws && NoUnit(ws)
    ensures PeekIdent(ts) == keyword && !AtBlockEnd(ts)
    ensures var v := Value(Advance(ts)); v.Done? && v.value == value && Strip(v.rest) == ws
  {
    AppendAssociates([Word(Ident, keyword)], ToolWords(value), ws);
    WordAt(ts, Word(Ident, keyword), ToolWords(value) + ws);
    ValueReads(Advance(ts), value, ws);
  }

  lemma SettingReads(n: Numbers, a: Agent, ts: seq<Token>, keyword: string, value: string, ws: seq<Word>)
    returns (rest: seq<Token>)
    requires IsSetting(keyword) && ToolWords(value) != [] && Strip(ts) == LineWords(keyword, value) + ws && NoUnit(ws)
    ensures AgentItems(n, a, ts) == AgentItems(n, Set(a, keyword, value), rest) && Strip(rest) == ws
  {
    LineReads(ts, keyword, value, ws);
    rest := Value(Advance(ts)).rest;
  }

  lemma BudgetItemReads(n: Numbers, a: Agent, ts: seq<Token>, id: string, onExceed: string, ws: seq<Word>)
    returns (rest: seq<Token>)
    requires ToolWords(onExceed) != []
    requires Strip(ts) == OpenWords("budget", id) + (LineWords("on_exceed", onExceed) + ([CLOSE] + ws))
    ensures AgentItems(n, a, ts) == AgentItems(n, a.(budgets := a.budgets + [Budget(id, 0.0, 0.0, 0, onExceed)]), rest)
      && Strip(rest) == ws
  {
    var inner := OpeningReads(ts, "budget", id, LineWords("on_exceed", onExceed) + ([CLOSE] + ws));
    LineReads(inner, "on_exceed", onExceed, [CLOSE] + ws);
    var start, b := Budget(id, 0.0, 0.0, 0, ""), Budget(id, 0.0, 0.0, 0, onExceed);
    var close := Value(Advance(inner)).rest;
    CloseReads(b, close, ws);
    assert BudgetItems(n, start, inner) == BudgetItems(n, b, close) == Done(b, close);
    rest := Advance(close);
    BlockStarts(ts, "budget", id, LineWords("on_exceed", onExceed) + ([CLOSE] + ws));
    AgentItemsAtBudget(n, a, ts, b, rest);
  }

  lemma BlockStarts(ts: seq<Token>, keyword: string, name: string, ws: seq<Word>)
    requires Strip(ts) == OpenWords(keyword, name) + ws
    ensures PeekIdent(ts) == keyword && !AtBlockEnd(ts)
  {
    assert OpenWords(keyword, name) + ws == [Word(Ident, keyword)] + ([Word(Ident, name), OPEN] + ws);
    WordAt(ts, Word(Ident, keyword), [Word(Ident, name), OPEN] + ws);
  }

  /** The rules of a source, ahead of a closing brace. */
  lemma SourceAhead(ts: seq<Token>, src: string, ws: seq<Word>) returns (more: seq<Token>)
    requires RulesSource(src) && Strip(ts) == SourceWords(src) + ([CLOSE] + ws)
    ensures Extends(TokensOf(src), ts, more) && Peek(more).kind.RBrace? && Strip(more) == [CLOSE] + ws
    ensures FlatRules(TokensOf(src)) == Ok(ParseFlatRules(src).value)
  {
    LexHasWords(src, 1);
    WordsEnd(src);
    WordsExtend(TokensOf(src), ts, WordsOf(src), [CLOSE] + ws);
    more := ts[|WordsOf(src)|..];
    WordAt(more, CLOSE, ws);
  }

  lemma SourceNoUnit(src: string, ws: seq<Word>)
    requires RulesSource(src)
    ensures NoUnit(SourceWords(src) + ([CLOSE] + ws))
  {
    LexHasWords(src, 1);
    WordsEnd(src);
    if WordsOf(src) != [] {
      StripAt(TokensOf(src));
      var first := TokensOf(src)[0];
      assert WordsOf(src)[0] == Word(first.kind, first.val);
      EffectFacts(first.val);
      LongIsNoUnit(first.val);
    }
  }

  /** The lines of a phase before its rules. */
  lemma PhaseHeadReads(ts: seq<Token>, id: string, duration: string, next: string, ws: seq<Word>)
    returns (inner: seq<Token>, rest: seq<Token>)
    requires ToolWords(duration) != [] && ToolWords(next) != [] && NoUnit(ws)
    requires Strip(ts)
      == OpenWords("phase", id) + (LineWords("duration", duration) + (LineWords("next", next) + ws))
    ensures PeekIdent(ts) == "phase" && !AtBlockEnd(ts) && Opening(ts, "phase") == Done(id, inner)
    ensures PhaseItems(Phase(id, [], [], "", ""), inner) == PhaseItems(Phase(id, [], [], duration, next), rest)
    ensures Strip(rest) == ws
  {
    var w1 := LineWords("next", next) + ws;
    inner := OpeningReads(ts, "phase", id, LineWords("duration", duration) + w1);
    BlockStarts(ts, "phase", id, LineWords("duration", duration) + w1);
    LongIsNoUnit("next");
    LineReads(inner, "duration", duration, w1);
    var second := Value(Advance(inner)).rest;
    LineReads(second, "next", next, ws);
    rest := Value(Advance(second)).rest;
    PhaseLines(Phase(id, [], [], "", ""), inner, second, rest, duration, next);
  }

  /** The rules of a phase and its closing brace. */
  lemma PhaseRulesRead(p: Phase, ts: seq<Token>, src: string, ws: seq<Word>) returns (rest: seq<Token>)
    requires RulesSource(src) && p.rules == [] && p.tools == []
    requires Strip(ts) == SourceWords(src) + ([CLOSE] + ws)
    ensures var rs := ParseFlatRules(src).value;
      Close(PhaseItems(p, ts)) == Done(p.(rules := rs, tools := Tools(rs)), rest) && Strip(rest) == ws
  {
    var rs := ParseFlatRules(src).value;
    var more := SourceAhead(ts, src, ws);
    RulesInPhase(p, TokensOf(src), ts, more);
    assert [] + rs == rs && [] + Tools(rs) == Tools(rs);
    CloseReads(p.(rules := rs, tools := Tools(rs)), more, ws);
    rest := Advance(more);
  }

  lemma PhaseItemReads(
    n: Numbers, a: Agent, ts: seq<Token>, id: string, duration: string, next: string, src: string, ws: seq<Word>)
    returns (rest: seq<Token>)
    requires ToolWords(duration) != [] && ToolWords(next) != [] && RulesSource(src)
    requires Strip(ts) == OpenWords("phase", id)
      + (LineWords("duration", duration) + (LineWords("next", next) + (SourceWords(src) + ([CLOSE] + ws))))
    ensures var rs := ParseFlatRules(src).value;
      AgentItems(n, a, ts) == AgentItems(n, a.(phases := a.phases + [Phase(id, Tools(rs), rs, duration, next)]), rest)
      && Strip(rest) == ws
  {
    var rs := ParseFlatRules(src).value;
    SourceNoUnit(src, ws);
    var inner, third := PhaseHeadReads(ts, id, duration, next, SourceWords(src) + ([CLOSE] + ws));
    rest := PhaseRulesRead(Phase(id, [], [], duration, next), third, src, ws);
    AgentItemsAtPhase(n, a, ts, Phase(id, Tools(rs), rs, duration, next), rest);
  }

  lemma PhaseLines(
    p: Phase, inner: seq<Token>, second: seq<Token>, third: seq<Token>, duration: string, next: string)
    requires PeekIdent(inner) == "duration" && !AtBlockEnd(inner) && Value(Advance(inner)) == Done(duration, second)
    requires PeekIdent(second) == "next" && !AtBlockEnd(second) && Value(Advance(second)) == Done(next, third)
    ensures PhaseItems(p, inner) == PhaseItems(p.(duration := duration, next := next), third)
  {
    assert PhaseItems(p, inner) == PhaseItems(p.(duration := duration), second);
  }

  lemma RulesItemReads(n: Numbers, a: Agent, ts: seq<Token>, src: string, ws: seq<Word>) returns (rest: seq<Token>)
    requires RulesSource(src)
    requires Strip(ts) == [Word(Ident, "rules")] + ([OPEN] + (SourceWords(src) + ([CLOSE] + ws)))
    ensures AgentItems(n, a, ts) == AgentItems(n, a.(rules := a.rules + ParseFlatRules(src).value), rest)
      && Strip(rest) == ws
  {
    var w := SourceWords(src) + ([CLOSE] + ws);
    WordAt(ts, Word(Ident, "rules"), [OPEN] + w);
    WordAt(Advance(ts), OPEN, w);
    var inner := Advance(Advance(ts));
    var more := SourceAhead(inner, src, ws);
    RulesInBlock(TokensOf(src), inner, more);
    CloseReads(ParseFlatRules(src).value, more, ws);
    rest := Advance(more);
    AgentItemsAtRules(n, a, ts, ParseFlatRules(src).value, rest);
  }

  lemma ItemReads(n: Numbers, a: Agent, ts: seq<Token>, i: Item, ws: seq<Word>) returns (rest: seq<Token>)
    requires ItemOk(i) && Strip(ts) == ItemWords(i, ws) && NoUnit(ws)
    ensures AgentItems(n, a, ts) == AgentItems(n, Said(a, i), rest) && Strip(rest) == ws
  {
    match i {
      case Setting(keyword, value) => rest := SettingReads(n, a, ts, keyword, value, ws);
      case BudgetItem(id, onExceed) => rest := BudgetItemReads(n, a, ts, id, onExceed, ws);
      case PhaseItem(id, duration, next, rules) => rest := PhaseItemReads(n, a, ts, id, duration, next, rules, ws);
      case RulesItem(rules) => rest := RulesItemReads(n, a, ts, rules, ws);
    }
  }

  lemma BodyNoUnit(items: seq<Item>, inline: string)
    requires ItemsOk(items) && RulesSource(inline)
    ensures NoUnit(BodyWords(items, inline))
  {
    if items == [] {
      SourceNoUnit(inline, [END]);
    } else {
      var first := if items[0].Setting? then items[0].keyword
        else if items[0].BudgetItem? then "budget" else if items[0].PhaseItem? then "phase" else "rules";
      assert BodyWords(items, inline)[0] == Word(Ident, first);
      LongIsNoUnit(first);
    }
  }

  lemma {:induction false} BodyReads(n: Numbers, a: Agent, ts: seq<Token>, items: seq<Item>, inline: string)
    returns (more: seq<Token>)
    requires ItemsOk(items) && RulesSource(inline) && Strip(ts) == BodyWords(items, inline)
    ensures var said := AllSaid(a, items);
      AgentItems(n, a, ts) == Done(said.(rules := said.rules + ParseFlatRules(inline).value), more)
    ensures Strip(more) == [CLOSE] + [END]
    decreases |items|
  {
    if items == [] {
      more := SourceAhead(ts, inline, [END]);
      RulesInAgent(n, a, TokensOf(inline), ts, more);
    } else {
      BodyNoUnit(items[1..], inline);
      var rest := ItemReads(n, a, ts, items[0], BodyWords(items[1..], inline));
      more := BodyReads(n, Said(a, items[0]), rest, items[1..], inline);
    }
  }

  /**
   An agent written as items, in any order, and rules behind them is read as what the items say: the last of each
   setting, and all budgets, phases and rules in order, with the tools of a phase's rules beside them.
   */
  lemma AgentReads(n: Numbers, id: string, items: seq<Item>, inline: string)
    requires NameOk(id) && ItemsOk(items) && RulesSource(inline)
    ensures var said := AllSaid(Agent(id, "", "", "", "", [], [], [], map[]), items);
      ParseSource(n, AgentText(id, items, inline))
        == Ok(Document([said.(rules := said.rules + ParseFlatRules(inline).value)], []))
  {
    var src, words := AgentText(id, items, inline), BodyWords(items, inline);
    assert NameOk("agent");
    BodyLexes(items, inline);
    OpenedLexes("agent", id, BodyText(items, inline), words);
    assert LexesAt(src, OpenWords("agent", id) + words, 1);
    var ts, start := TokensOf(src), Agent(id, "", "", "", "", [], [], [], map[]);
    var inner := OpeningReads(ts, "agent", id, words);
    BlockStarts(ts, "agent", id, words);
    var more := BodyReads(n, start, inner, items, inline);
    var a := AgentItems(n, start, inner).value;
    CloseReads(a, more, [END]);
    OnlyAgent(n, ts, a, Advance(more));
  }

  lemma OnlyAgent(n: Numbers, ts: seq<Token>, a: Agent, rest: seq<Token>)
    requires PeekIdent(ts) == "agent" && AgentBlock(n, ts) == Done(a, rest) && Strip(rest) == [END]
    ensures ParseTokens(n, ts) == Ok(Document([a], []))
  {
    StripAt(rest);
    assert Strip(rest)[0] == END;
    assert [] + [a] == [a];
    assert DocumentItems(n, Document([a], []), rest) == Ok(Document([a], []));
  }
}
