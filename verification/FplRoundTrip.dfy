/** Printing a rule list and parsing it back. */
module FplRoundTrip {
  import opened Basics
  import opened FplLexer
  import opened FplParser
  import opened FplPrinter
  import opened FplWords

  // ---------------------------------------------------------------- what can be printed

  /** A tool that reads back as itself: an identifier, or a number with or without a unit. */
  function ToolWords(tool: string): seq<Word> {
    if IdentWord(tool) || BangWord(tool) then [Word(Ident, tool)]
    else if NumberWord(tool) then [Word(Number, tool)]
    else if tool != "" && StartsNumber(tool) then
      var n := NumberLength(tool);
      if IdentWord(tool[n..]) && IsUnitSuffix(tool[n..]) then [Word(Number, tool[..n]), Word(Ident, tool[n..])] else []
    else []
  }

  /** What the words of a tool look like. */
  predicate ToolShape(tool: string, words: seq<Word>) {
    || (|words| == 1 && words[0].val == tool && words[0].kind in {Ident, Number} && WordOk(words[0]))
    || (&& |words| == 2 && tool == words[0].val + words[1].val
        && words[0].kind.Number? && NumberWord(words[0].val)
        && words[1].kind.Ident? && IdentWord(words[1].val) && IsUnitSuffix(words[1].val))
  }

  lemma ToolWordsShape(tool: string)
    requires ToolWords(tool) != []
    ensures ToolShape(tool, ToolWords(tool))
  {
    if |ToolWords(tool)| == 2 {
      var n := NumberLength(tool);
      assert tool == tool[..n] + tool[n..];
    }
  }

  function NumberLength(s: string): (n: nat)
    requires s != "" && StartsNumber(s)
    ensures 0 < n <= |s| && NumberWord(s[..n])
  {
    var from := if s[0] == '-' then 1 else 0;
    var n := from + Run(IsNumberCont, s[from..]);
    assert forall i :: from <= i < n ==> s[i] == s[from..][i - from];
    assert s[from..][0] == s[from];
    assert StartsNumber(s[..n]);
    n
  }

  predicate IsClauseWord(s: string) {
    s == "notify" || s == "reason"
  }

  /** One token of a condition, as the condition's text shows it. */
  predicate PartOk(p: string) {
    || p == "!" || p == ":" || p == "$"
    || QuotedPart(p)
    || NumberWord(p)
    || ((IdentWord(p) || BangWord(p)) && !IsClauseWord(p) && !IsTopLevel(p))
  }

  predicate QuotedPart(p: string) {
    |p| >= 2 && p[0] == '"' && p[|p| - 1] == '"' && RawString(p[1..|p| - 1])
  }

  function PartWord(p: string): Word {
    if p == "!" then Word(Bang, "!")
    else if p == ":" then Word(Colon, ":")
    else if p == "$" then Word(Dollar, "$")
    else if QuotedPart(p) then Word(Str, p[1..|p| - 1])
    else if NumberWord(p) then Word(Number, p)
    else Word(Ident, p)
  }

  predicate PartsOk(parts: seq<string>) {
    forall i :: 0 <= i < |parts| ==> PartOk(parts[i])
  }

  /** The effect as it is printed. */
  function EffectWord(r: PrintRule): string {
    r.effect + ClauseIf(r.strictDeny, "!")
  }

  predicate PrintsWhen(r: PrintRule) {
    r.when_ != "" && r.when_ != "true"
  }

  /** A rule that can be printed, with the parts its condition consists of. */
  predicate RuleOk(r: PrintRule, parts: seq<string>) {
    && IsEffect(EffectWord(r))
    && ToolWords(r.tool) != []
    && PartsOk(parts)
    && (if PrintsWhen(r) then parts != [] && r.when_ == Join(parts) else parts == [])
    && RawString(r.notify) && RawString(r.reason)
  }

  /** What parsing makes of a printed rule. */
  function Reread(r: PrintRule): Rule {
    Rule(EffectWord(r), r.tool, if PrintsWhen(r) then r.when_ else "", r.notify, r.reason)
  }

  // ---------------------------------------------------------------- words

  lemma EffectFacts(s: string)
    requires IsEffect(s)
    ensures IsTopLevel(s) && s != "when" && s != "notify" && s != "reason" && IdentWord(s)
  {
    assert IdentWord("permit") && IdentWord("allow") && IdentWord("approve") && IdentWord("deny");
    assert IdentWord("deny!") && IdentWord("block") && IdentWord("reject") && IdentWord("defer");
  }

  lemma {:induction false} LowerLength(s: string)
    ensures |Lower(s)| == |s|
  {
    if s != "" {
      LowerLength(s[1..]);
    }
  }

  lemma LongIsNoUnit(s: string)
    requires |s| > 3
    ensures !IsUnitSuffix(s)
  {
    LowerLength(s);
  }

  lemma PartWordOk(p: string)
    requires PartOk(p)
    ensures WordOk(PartWord(p)) && Source(PartWord(p)) == p
  {
    if QuotedPart(p) {
      assert p == "\"" + p[1..|p| - 1] + "\"";
    }
  }

  lemma PartReads(p: string, t: Token, line: nat)
    requires PartOk(p) && t.kind == PartWord(p).kind && t.val == PartWord(p).val
    ensures Text(t) == p && !EndsCondition(t, line)
  {
    PartWordOk(p);
    if t.kind.Ident? {
      assert t.val == p && !IsClauseWord(p) && !IsTopLevel(p);
      if IsEffect(p) {
        EffectFacts(p);
      }
    }
  }

  function WhenWords(parts: seq<string>): seq<Word> {
    if parts == [] then [] else [Word(Ident, "when")] + PartWords(parts)
  }

  function PartWords(parts: seq<string>): seq<Word> {
    if parts == [] then [] else [PartWord(parts[0])] + PartWords(parts[1..])
  }

  function ClauseWords(keyword: string, v: string): seq<Word> {
    if v == "" then [] else [Word(Ident, keyword), Word(Colon, ":"), Word(Str, v)]
  }

  function RuleWords(r: PrintRule, parts: seq<string>): seq<Word> {
    [Word(Ident, EffectWord(r))] + ToolWords(r.tool) + WhenWords(parts)
    + ClauseWords("notify", r.notify) + ClauseWords("reason", r.reason)
  }

  /** What may follow a rule: another rule, the end of the block, the end of the text. */
  predicate EndsRule(ws: seq<Word>) {
    ws != [] && (ws[0].kind in {RBrace, Eof} || (ws[0].kind.Ident? && IsEffect(ws[0].val)))
  }

  // ---------------------------------------------------------------- parsing words

  lemma StripStep(ts: seq<Token>, w: Word, ws: seq<Word>)
    requires Strip(ts) == [w] + ws
    ensures ts != [] && Peek(ts).kind == w.kind && Peek(ts).val == w.val
    ensures !w.kind.Eof? ==> Strip(Advance(ts)) == ws
  {
    assert ts != [];
    assert Strip(ts)[0] == w && Strip(ts)[1..] == Strip(ts[1..]);
  }

  lemma ValueReadsAs(ts: seq<Token>, tool: string, words: seq<Word>, ws: seq<Word>)
    requires ToolShape(tool, words) && Strip(ts) == words + ws
    requires ws != [] && (ws[0].kind.Ident? ==> !IsUnitSuffix(ws[0].val))
    ensures Value(ts).Done? && Value(ts).value == tool && Strip(Value(ts).rest) == ws
  {
    var first, more := words[0], words[1..] + ws;
    assert words + ws == [first] + more;
    StripStep(ts, first, more);
    if |words| == 2 {
      assert more == [words[1]] + ws;
      StripStep(Advance(ts), words[1], ws);
    } else {
      assert more == ws == [ws[0]] + ws[1..];
      StripStep(Advance(ts), ws[0], ws[1..]);
    }
  }

  lemma ValueReads(ts: seq<Token>, tool: string, ws: seq<Word>)
    requires ToolWords(tool) != [] && Strip(ts) == ToolWords(tool) + ws
    requires ws != [] && (ws[0].kind.Ident? ==> !IsUnitSuffix(ws[0].val))
    ensures Value(ts).Done? && Value(ts).value == tool && Strip(Value(ts).rest) == ws
  {
    ToolWordsShape(tool);
    ValueReadsAs(ts, tool, ToolWords(tool), ws);
  }

  lemma {:induction false} ConditionReads(ts: seq<Token>, line: nat, parts: seq<string>, ws: seq<Word>)
    requires PartsOk(parts) && Strip(ts) == PartWords(parts) + ws
    requires EndsRule(ws) || (ws != [] && ws[0].kind.Ident? && IsClauseWord(ws[0].val))
    ensures Condition(ts, line).0 == parts && Strip(Condition(ts, line).1) == ws
  {
    if parts == [] {
      assert ws == [ws[0]] + ws[1..];
      StripStep(ts, ws[0], ws[1..]);
      if ws[0].kind.Ident? && IsEffect(ws[0].val) {
        EffectFacts(ws[0].val);
      }
    } else {
      assert PartWords(parts) + ws == [PartWord(parts[0])] + (PartWords(parts[1..]) + ws);
      PartReads(parts[0], Token(PartWord(parts[0]).kind, PartWord(parts[0]).val, Peek(ts).line), line);
      StripStep(ts, PartWord(parts[0]), PartWords(parts[1..]) + ws);
      ConditionReads(Advance(ts), line, parts[1..], ws);
    }
  }

  // ---------------------------------------------------------------- clauses and rules

  lemma EndsRuleNoUnit(ws: seq<Word>)
    requires EndsRule(ws)
    ensures ws[0].kind.Ident? ==> !IsUnitSuffix(ws[0].val)
  {
    if ws[0].kind.Ident? {
      EffectFacts(ws[0].val);
      LongIsNoUnit(ws[0].val);
    }
  }

  lemma NoClauses(rule: Rule, ts: seq<Token>, ws: seq<Word>)
    requires Strip(ts) == ws && EndsRule(ws)
    ensures Clauses(rule, ts) == Done(rule, ts)
  {
    assert ws == [ws[0]] + ws[1..];
    StripStep(ts, ws[0], ws[1..]);
    if ws[0].kind.Ident? {
      EffectFacts(ws[0].val);
    }
  }

  /** The value of a clause: a colon and a string. */
  lemma ClauseValueReads(ts: seq<Token>, v: string, ws: seq<Word>)
    requires Strip(ts) == [Word(Colon, ":"), Word(Str, v)] + ws
    ensures var p := Value(SkipColon(ts)); p.Done? && p.value == v && Strip(p.rest) == ws && |p.rest| < |ts|
  {
    assert [Word(Colon, ":"), Word(Str, v)] + ws == [Word(Colon, ":")] + ([Word(Str, v)] + ws);
    StripStep(ts, Word(Colon, ":"), [Word(Str, v)] + ws);
    StripStep(Advance(ts), Word(Str, v), ws);
  }

  lemma ClauseStep(ts: seq<Token>, keyword: string, v: string, ws: seq<Word>)
    requires v != "" && Strip(ts) == ClauseWords(keyword, v) + ws
    ensures PeekIdent(ts) == keyword
    ensures var p := Value(SkipColon(Advance(ts))); p.Done? && p.value == v && Strip(p.rest) == ws
  {
    var value := [Word(Colon, ":"), Word(Str, v)];
    assert ClauseWords(keyword, v) + ws == [Word(Ident, keyword)] + (value + ws);
    StripStep(ts, Word(Ident, keyword), value + ws);
    ClauseValueReads(Advance(ts), v, ws);
  }

  lemma ReasonReads(rule: Rule, ts: seq<Token>, reason: string, ws: seq<Word>)
    requires rule.reason == "" && Strip(ts) == ClauseWords("reason", reason) + ws && EndsRule(ws)
    ensures var p := Clauses(rule, ts); p.Done? && p.value == rule.(reason := reason) && Strip(p.rest) == ws
  {
    if reason == "" {
      assert ClauseWords("reason", reason) + ws == ws;
      NoClauses(rule, ts, ws);
    } else {
      ClauseStep(ts, "reason", reason, ws);
      NoClauses(rule.(reason := reason), Value(SkipColon(Advance(ts))).rest, ws);
    }
  }

  lemma NotifyReads(rule: Rule, ts: seq<Token>, notify: string, reason: string, ws: seq<Word>)
    requires rule.notify == "" && rule.reason == "" && EndsRule(ws)
    requires Strip(ts) == ClauseWords("notify", notify) + (ClauseWords("reason", reason) + ws)
    ensures var p := Clauses(rule, ts);
      p.Done? && p.value == rule.(notify := notify, reason := reason) && Strip(p.rest) == ws
  {
    var more := ClauseWords("reason", reason) + ws;
    if notify == "" {
      assert ClauseWords("notify", notify) + more == more;
      ReasonReads(rule, ts, reason, ws);
    } else {
      ClauseStep(ts, "notify", notify, more);
      ReasonReads(rule.(notify := notify), Value(SkipColon(Advance(ts))).rest, reason, ws);
    }
  }

  lemma ClauseWordsHead(notify: string, reason: string, ws: seq<Word>)
    requires EndsRule(ws)
    ensures var all := ClauseWords("notify", notify) + (ClauseWords("reason", reason) + ws);
      EndsRule(all) || (all != [] && all[0].kind.Ident? && IsClauseWord(all[0].val))
  {
    if notify == "" && reason == "" {
      assert ClauseWords("notify", notify) + (ClauseWords("reason", reason) + ws) == ws;
    }
  }

  lemma ClausesAtWhen(rule: Rule, ts: seq<Token>, parts: seq<string>, rest: seq<Token>)
    requires PeekIdent(ts) == "when"
    requires Condition(Advance(ts), Peek(Advance(ts)).line) == (parts, rest)
    ensures Clauses(rule, ts) == Clauses(rule.(condition := Join(parts)), rest)
  {
  }

  lemma WhenClauseReads(rule: Rule, ts: seq<Token>, parts: seq<string>, more: seq<Word>) returns (rest: seq<Token>)
    requires parts != [] && PartsOk(parts) && Strip(ts) == WhenWords(parts) + more
    requires EndsRule(more) || (more != [] && more[0].kind.Ident? && IsClauseWord(more[0].val))
    ensures Strip(rest) == more
    ensures Clauses(rule, ts) == Clauses(rule.(condition := Join(parts)), rest)
  {
    assert WhenWords(parts) + more == [Word(Ident, "when")] + (PartWords(parts) + more);
    StripStep(ts, Word(Ident, "when"), PartWords(parts) + more);
    var line := Peek(Advance(ts)).line;
    assert Condition(Advance(ts), line).0 == parts && Strip(Condition(Advance(ts), line).1) == more by {
      ConditionReads(Advance(ts), line, parts, more);
    }
    rest := Condition(Advance(ts), line).1;
    ClausesAtWhen(rule, ts, parts, rest);
  }

  lemma WhenReads(rule: Rule, ts: seq<Token>, parts: seq<string>, notify: string, reason: string, ws: seq<Word>)
    requires rule.condition == "" && rule.notify == "" && rule.reason == "" && EndsRule(ws) && PartsOk(parts)
    requires Strip(ts) == WhenWords(parts) + (ClauseWords("notify", notify) + (ClauseWords("reason", reason) + ws))
    ensures var p := Clauses(rule, ts);
      p.Done? && p.value == rule.(condition := Join(parts), notify := notify, reason := reason) && Strip(p.rest) == ws
  {
    var more := ClauseWords("notify", notify) + (ClauseWords("reason", reason) + ws);
    if parts == [] {
      assert WhenWords(parts) + more == more;
      NotifyReads(rule, ts, notify, reason, ws);
    } else {
      ClauseWordsHead(notify, reason, ws);
      var rest := WhenClauseReads(rule, ts, parts, more);
      NotifyReads(rule.(condition := Join(parts)), rest, notify, reason, ws);
    }
  }

  lemma ToolIsNoBang(tool: string)
    requires ToolWords(tool) != []
    ensures !ToolWords(tool)[0].kind.Bang?
  {
  }

  lemma AfterToolNoUnit(parts: seq<string>, notify: string, reason: string, ws: seq<Word>)
    requires EndsRule(ws)
    ensures var more := WhenWords(parts) + (ClauseWords("notify", notify) + (ClauseWords("reason", reason) + ws));
      more != [] && (more[0].kind.Ident? ==> !IsUnitSuffix(more[0].val))
  {
    var clauses := ClauseWords("notify", notify) + (ClauseWords("reason", reason) + ws);
    LongIsNoUnit("when");
    LongIsNoUnit("notify");
    LongIsNoUnit("reason");
    EndsRuleNoUnit(ws);
    ClauseWordsHead(notify, reason, ws);
    if EndsRule(clauses) {
      EndsRuleNoUnit(clauses);
    }
    if parts == [] {
      assert WhenWords(parts) + clauses == clauses;
    }
  }

  lemma FlatRuleAt(ts: seq<Token>, tool: string)
    requires !Peek(Advance(ts)).kind.Bang?
    requires Value(Advance(ts)).Done? && Value(Advance(ts)).value == tool
    ensures FlatRule(ts) == Clauses(Rule(Peek(ts).val, tool, "", "", ""), Value(Advance(ts)).rest)
  {
  }

  lemma FirstWord(words: seq<Word>, more: seq<Word>)
    requires words != []
    ensures words + more == [words[0]] + (words[1..] + more)
  {
  }

  lemma AfterEffect(ts: seq<Token>, effect: string, tool: string, more: seq<Word>)
    requires ToolWords(tool) != [] && Strip(ts) == [Word(Ident, effect)] + (ToolWords(tool) + more)
    ensures Peek(ts).val == effect && Strip(Advance(ts)) == ToolWords(tool) + more && !Peek(Advance(ts)).kind.Bang?
  {
    var words := ToolWords(tool);
    StripStep(ts, Word(Ident, effect), words + more);
    FirstWord(words, more);
    StripStep(Advance(ts), words[0], words[1..] + more);
    ToolIsNoBang(tool);
  }

  lemma RuleHeadReads(ts: seq<Token>, effect: string, tool: string, more: seq<Word>)
    requires ToolWords(tool) != [] && Strip(ts) == [Word(Ident, effect)] + (ToolWords(tool) + more)
    requires more != [] && (more[0].kind.Ident? ==> !IsUnitSuffix(more[0].val))
    ensures Value(Advance(ts)).Done? && Strip(Value(Advance(ts)).rest) == more
    ensures FlatRule(ts) == Clauses(Rule(effect, tool, "", "", ""), Value(Advance(ts)).rest)
  {
    AfterEffect(ts, effect, tool, more);
    ValueReads(Advance(ts), tool, more);
    FlatRuleAt(ts, tool);
  }

  lemma Nest(a: seq<Word>, b: seq<Word>, c: seq<Word>, d: seq<Word>, e: seq<Word>, ws: seq<Word>)
    ensures (a + b + c + d + e) + ws == a + (b + (c + (d + (e + ws))))
  {
  }

  /** The words of a printed rule parse to the rule, whatever rule or block end follows. */
  lemma RuleReads(r: PrintRule, parts: seq<string>, ts: seq<Token>, ws: seq<Word>)
    requires RuleOk(r, parts) && Strip(ts) == RuleWords(r, parts) + ws && EndsRule(ws)
    ensures var p := FlatRule(ts); p.Done? && p.value == Reread(r) && Strip(p.rest) == ws
  {
    var more := WhenWords(parts) + (ClauseWords("notify", r.notify) + (ClauseWords("reason", r.reason) + ws));
    Nest([Word(Ident, EffectWord(r))], ToolWords(r.tool), WhenWords(parts),
      ClauseWords("notify", r.notify), ClauseWords("reason", r.reason), ws);
    AfterToolNoUnit(parts, r.notify, r.reason, ws);
    RuleHeadReads(ts, EffectWord(r), r.tool, more);
    WhenReads(Rule(EffectWord(r), r.tool, "", "", ""), Value(Advance(ts)).rest, parts, r.notify, r.reason, ws);
  }

  // ---------------------------------------------------------------- the text of a rule lexes to its words

  predicate StartsBlank(s: string) {
    s != "" && IsBlank(s[0])
  }

  lemma WordThenBlank(w: Word, text: string, ws: seq<Word>)
    requires WordOk(w) && StartsBlank(text) && LexesTo(text, ws)
    ensures LexesTo(Source(w) + text, [w] + ws)
  {
    assert EndsBefore(w.kind, text);
    ConsWord(w, text, ws);
  }

  /** A blank-separated piece of text in front of more text. */
  lemma SpaceThen(text: string, ws: seq<Word>)
    requires LexesTo(text, ws)
    ensures LexesTo(" " + text, ws) && StartsBlank(" " + text)
  {
    ConsBlank(' ', text, ws);
  }

  lemma StringLexes(v: string, rest: string, ws: seq<Word>)
    requires RawString(v) && LexesTo(rest, ws)
    ensures LexesTo(Quoted(v) + rest, [Word(Str, v)] + ws)
  {
    ConsWord(Word(Str, v), rest, ws);
  }

  lemma NonEmptyClauseLexes(keyword: string, v: string, rest: string, ws: seq<Word>)
    requires IdentWord(keyword) && RawString(v) && LexesTo(rest, ws)
    ensures LexesTo(" " + (keyword + (":" + (" " + (Quoted(v) + rest)))),
      [Word(Ident, keyword)] + ([Word(Colon, ":")] + ([Word(Str, v)] + ws)))
  {
    var t0, w0 := Quoted(v) + rest, [Word(Str, v)] + ws;
    StringLexes(v, rest, ws);
    SpaceThen(t0, w0);
    ConsWord(Word(Colon, ":"), " " + t0, w0);
    var t1, w1 := ":" + (" " + t0), [Word(Colon, ":")] + w0;
    assert EndsBefore(Ident, t1);
    ConsWord(Word(Ident, keyword), t1, w1);
    SpaceThen(keyword + t1, [Word(Ident, keyword)] + w1);
  }

  lemma ClauseTextNested(keyword: string, v: string, rest: string)
    ensures " " + keyword + ": " + Quoted(v) + rest == " " + (keyword + (":" + (" " + (Quoted(v) + rest))))
  {
    assert ": " == ":" + " ";
  }

  lemma ClauseLexes(keyword: string, v: string, rest: string, ws: seq<Word>)
    requires IdentWord(keyword) && RawString(v) && StartsBlank(rest) && LexesTo(rest, ws)
    ensures var text := ClauseIf(v != "", " " + keyword + ": " + Quoted(v)) + rest;
      LexesTo(text, ClauseWords(keyword, v) + ws) && StartsBlank(text)
  {
    if v == "" {
      assert "" + rest == rest && [] + ws == ws;
    } else {
      NonEmptyClauseLexes(keyword, v, rest, ws);
      ClauseTextNested(keyword, v, rest);
      assert ClauseWords(keyword, v) + ws
          == [Word(Ident, keyword)] + ([Word(Colon, ":")] + ([Word(Str, v)] + ws));
    }
  }

  lemma FirstPartLexes(p: string, text: string, ws: seq<Word>)
    requires PartOk(p) && LexesTo(text, ws)
    ensures LexesTo(p + (" " + text), [PartWord(p)] + ws)
    ensures StartsBlank(text) ==> LexesTo(p + text, [PartWord(p)] + ws)
  {
    PartWordOk(p);
    SpaceThen(text, ws);
    WordThenBlank(PartWord(p), " " + text, ws);
    if StartsBlank(text) {
      WordThenBlank(PartWord(p), text, ws);
    }
  }

  lemma MorePartsLex(p: string, text: string, words: seq<Word>, rest: string, ws: seq<Word>)
    requires PartOk(p) && LexesTo(text + rest, words + ws)
    ensures LexesTo(p + " " + text + rest, [PartWord(p)] + words + ws)
  {
    FirstPartLexes(p, text + rest, words + ws);
    assert p + " " + text + rest == p + (" " + (text + rest));
    assert [PartWord(p)] + words + ws == [PartWord(p)] + (words + ws);
  }

  lemma {:induction false} PartsLex(parts: seq<string>, rest: string, ws: seq<Word>)
    requires parts != [] && PartsOk(parts) && StartsBlank(rest) && LexesTo(rest, ws)
    ensures LexesTo(Join(parts) + rest, PartWords(parts) + ws)
  {
    if |parts| == 1 {
      FirstPartLexes(parts[0], rest, ws);
      assert PartWords(parts) == [PartWord(parts[0])];
    } else {
      PartsLex(parts[1..], rest, ws);
      MorePartsLex(parts[0], Join(parts[1..]), PartWords(parts[1..]), rest, ws);
    }
  }

  lemma NonEmptyWhenLexes(cond: string, rest: string, ws: seq<Word>)
    requires LexesTo(cond + rest, ws)
    ensures LexesTo(" " + ("when" + (" " + (cond + rest))), [Word(Ident, "when")] + ws)
  {
    var t := cond + rest;
    SpaceThen(t, ws);
    assert IdentWord("when");
    WordThenBlank(Word(Ident, "when"), " " + t, ws);
    SpaceThen("when" + (" " + t), [Word(Ident, "when")] + ws);
  }

  lemma WhenTextNested(cond: string, rest: string)
    ensures " when " + cond + rest == " " + ("when" + (" " + (cond + rest)))
  {
    assert " when " == " " + "when" + " ";
  }

  lemma WhenLexes(parts: seq<string>, rest: string, ws: seq<Word>)
    requires PartsOk(parts) && StartsBlank(rest) && LexesTo(rest, ws)
    ensures var text := ClauseIf(parts != [], " when " + Join(parts)) + rest;
      LexesTo(text, WhenWords(parts) + ws) && StartsBlank(text)
  {
    if parts == [] {
      assert "" + rest == rest && [] + ws == ws;
    } else {
      PartsLex(parts, rest, ws);
      NonEmptyWhenLexes(Join(parts), rest, PartWords(parts) + ws);
      WhenTextNested(Join(parts), rest);
      assert WhenWords(parts) + ws == [Word(Ident, "when")] + (PartWords(parts) + ws);
    }
  }

  lemma NumberUnitLexes(n: string, unit: string, rest: string, ws: seq<Word>)
    requires NumberWord(n) && IdentWord(unit) && StartsBlank(rest) && LexesTo(rest, ws)
    ensures LexesTo(n + (unit + rest), [Word(Number, n)] + ([Word(Ident, unit)] + ws))
  {
    WordThenBlank(Word(Ident, unit), rest, ws);
    assert (unit + rest)[0] == unit[0];
    ConsWord(Word(Number, n), unit + rest, [Word(Ident, unit)] + ws);
  }

  lemma PairThen(words: seq<Word>, ws: seq<Word>)
    requires |words| == 2
    ensures words + ws == [words[0]] + ([words[1]] + ws)
  {
  }

  lemma ToolLexesAs(tool: string, words: seq<Word>, rest: string, ws: seq<Word>)
    requires ToolShape(tool, words) && StartsBlank(rest) && LexesTo(rest, ws)
    ensures LexesTo(tool + rest, words + ws)
  {
    if |words| == 1 {
      assert words == [words[0]] && Source(words[0]) == tool;
      WordThenBlank(words[0], rest, ws);
    } else {
      var n, unit := words[0], words[1];
      NumberUnitLexes(n.val, unit.val, rest, ws);
      AppendAssociates(n.val, unit.val, rest);
      PairThen(words, ws);
      assert n == Word(Number, n.val) && unit == Word(Ident, unit.val);
    }
  }

  lemma ToolLexes(tool: string, rest: string, ws: seq<Word>)
    requires ToolWords(tool) != [] && StartsBlank(rest) && LexesTo(rest, ws)
    ensures LexesTo(tool + rest, ToolWords(tool) + ws)
  {
    ToolWordsShape(tool);
    ToolLexesAs(tool, ToolWords(tool), rest, ws);
  }

  lemma RuleHeadLexes(effect: string, tool: string, rest: string, ws: seq<Word>)
    requires IdentWord(effect) && ToolWords(tool) != [] && StartsBlank(rest) && LexesTo(rest, ws)
    ensures LexesTo("    " + (effect + (" " + (tool + rest))), [Word(Ident, effect)] + (ToolWords(tool) + ws))
  {
    var t, w := tool + rest, ToolWords(tool) + ws;
    ToolLexes(tool, rest, ws);
    SpaceThen(t, w);
    WordThenBlank(Word(Ident, effect), " " + t, w);
    ConsBlanks("    ", effect + (" " + t), [Word(Ident, effect)] + w);
  }

  lemma RuleTailLexes(when: seq<string>, notify: string, reason: string, rest: string, ws: seq<Word>)
    returns (text: string)
    requires PartsOk(when) && RawString(notify) && RawString(reason) && LexesTo(rest, ws)
    ensures text == ClauseIf(when != [], " when " + Join(when))
      + (ClauseIf(notify != "", " notify: " + Quoted(notify))
        + (ClauseIf(reason != "", " reason: " + Quoted(reason)) + ("\n" + rest)))
    ensures LexesTo(text, WhenWords(when) + (ClauseWords("notify", notify) + (ClauseWords("reason", reason) + ws)))
    ensures StartsBlank(text)
  {
    ConsBlank('\n', rest, ws);
    assert IdentWord("reason") && IdentWord("notify");
    ClauseLexes("reason", reason, "\n" + rest, ws);
    assert " " + "reason" + ": " == " reason: " && " " + "notify" + ": " == " notify: ";
    var t1 := ClauseIf(reason != "", " reason: " + Quoted(reason)) + ("\n" + rest);
    var w1 := ClauseWords("reason", reason) + ws;
    ClauseLexes("notify", notify, t1, w1);
    var t2, w2 := ClauseIf(notify != "", " notify: " + Quoted(notify)) + t1, ClauseWords("notify", notify) + w1;
    WhenLexes(when, t2, w2);
    text := ClauseIf(when != [], " when " + Join(when)) + t2;
  }

  lemma NestText(a: string, b: string, c: string, d: string, e: string, f: string, g: string, h: string, rest: string)
    ensures (a + b + c + d + e + f + g + h) + rest == a + (b + (c + (d + (e + (f + (g + (h + rest)))))))
  {
  }

  /** A printed rule, in front of any text, lexes to its words. */
  lemma RuleLexes(r: PrintRule, parts: seq<string>, rest: string, ws: seq<Word>)
    requires RuleOk(r, parts) && LexesTo(rest, ws)
    ensures LexesTo(RuleText(r) + rest, RuleWords(r, parts) + ws)
  {
    var effect := EffectWord(r);
    EffectFacts(effect);
    var tail := RuleTailLexes(parts, r.notify, r.reason, rest, ws);
    var more := WhenWords(parts) + (ClauseWords("notify", r.notify) + (ClauseWords("reason", r.reason) + ws));
    RuleHeadLexes(effect, r.tool, tail, more);
    Nest([Word(Ident, effect)], ToolWords(r.tool), WhenWords(parts),
      ClauseWords("notify", r.notify), ClauseWords("reason", r.reason), ws);
    NestText("    ", effect, " ", r.tool, ClauseIf(parts != [], " when " + Join(parts)),
      ClauseIf(r.notify != "", " notify: " + Quoted(r.notify)),
      ClauseIf(r.reason != "", " reason: " + Quoted(r.reason)),
      "\n", rest);
    assert ClauseIf(parts != [], " when " + Join(parts)) == ClauseIf(PrintsWhen(r), " when " + r.when_);
  }
}
