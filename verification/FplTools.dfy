/** Which tools survive printing: a rule reads back as it was if and only if its tool is a token. */
module FplTools {
  import opened Basics
  import opened FplLexer
  import opened FplParser
  import opened FplPrinter
  import opened FplWords
  import opened FplRoundTrip
  import opened FplReparse
  import opened FplFixpoint

  /** A tool is blanks and then either nothing more or something that is not a blank. */
  lemma {:induction false} AfterBlanks(tool: string) returns (blanks: string, x: string)
    ensures tool == blanks + x && AllBlank(blanks) && (x == "" || !IsBlank(x[0]))
  {
    if tool == "" || !IsBlank(tool[0]) {
      blanks, x := "", tool;
    } else {
      blanks, x := AfterBlanks(tool[1..]);
      blanks := [tool[0]] + blanks;
    }
  }

  lemma {:induction false} RawAfterBlanks(blanks: string, x: string)
    requires AllBlank(blanks) && RawString(blanks + x)
    ensures RawString(x)
  {
    if blanks == "" {
      assert blanks + x == x;
    } else {
      assert (blanks + x)[1..] == blanks[1..] + x;
      RawAfterBlanks(blanks[1..], x);
    }
  }

  /** What the words make a value of. */
  function WordsValue(ws: seq<Word>): Option<string> {
    if ws == [] then None
    else match ws[0].kind
      case Str => Some(ws[0].val)
      case Ident => Some(ws[0].val)
      case Number =>
        if |ws| > 1 && ws[1].kind.Ident? && IsUnitSuffix(ws[1].val) then Some(ws[0].val + ws[1].val)
        else Some(ws[0].val)
      case _ => None
  }

  lemma ValueOfWords(ts: seq<Token>)
    requires Value(ts).Done?
    ensures WordsValue(Strip(ts)) == Some(Value(ts).value)
  {
    if ts != [] {
      assert Strip(ts)[0] == Word(ts[0].kind, ts[0].val);
      if |ts| > 1 {
        assert Strip(ts[1..])[0] == Word(ts[1].kind, ts[1].val);
        assert Strip(ts)[1] == Word(ts[1].kind, ts[1].val);
      }
    }
  }

  /** What follows a printed tool: never a string, nor a unit. */
  predicate FollowsTool(ws: seq<Word>) {
    && ws != [] && ws[0].kind in {Ident, RBrace, Eof}
    && (ws[0].kind.Ident? ==> ws[0].val != "" && !IsBlank(ws[0].val[0]) && !IsUnitSuffix(ws[0].val))
  }

  lemma UnitTool(n: string, unit: string)
    requires NumberWord(n) && (IdentWord(unit) || BangWord(unit) || unit == "!") && IsUnitSuffix(unit)
    ensures ToolWords(n + unit) != []
  {
    var tool := n + unit;
    UnitIsIdent(unit);
    assert tool[0] == n[0] && (|n| > 1 ==> tool[1] == n[1]);
    var from := if n[0] == '-' then 1 else 0;
    assert tool[from..] == n[from..] + unit;
    RunOverWord(IsNumberCont, n[from..], unit);
    assert NumberLength(tool) == |n| && tool[|n|..] == unit;
  }

  lemma UnitIsIdent(unit: string)
    requires (IdentWord(unit) || BangWord(unit) || unit == "!") && IsUnitSuffix(unit)
    ensures IdentWord(unit) && !IsNumberCont(unit[0])
  {
    if unit[0] == '!' {
      assert Lower(unit)[0] == '!';
    }
  }

  lemma {:induction false} LexWordsOk(s: string)
    requires LexWords(s).Some?
    ensures forall i :: 0 <= i < |LexWords(s).value| ==>
      TokenOk(Token(LexWords(s).value[i].kind, LexWords(s).value[i].val, 0))
  {
    if s != "" {
      match Front(s) {
        case Skip(n, _) => LexWordsOk(s[n..]);
        case Take(_, _, n) =>
          FrontOk(s, 0);
          LexWordsOk(s[n..]);
        case _ =>
      }
    }
  }

  lemma FirstWordTaken(s: string)
    requires s != "" && !IsBlank(s[0]) && s[0] != '#' && LexWords(s).Some?
    ensures Front(s).Take? && LexWords(s).value != [] && LexWords(s).value[0] == Word(Front(s).kind, Front(s).val)
  {
  }

  /** A value that is a token, or a number with its unit, is the value of a tool that reads back. */
  lemma TokenValue(ws: seq<Word>, tool: string)
    requires WordsValue(ws) == Some(tool) && forall i :: 0 <= i < |ws| ==> TokenOk(Token(ws[i].kind, ws[i].val, 0))
    requires !ws[0].kind.Str? && !(ws[0].kind.Ident? && tool == "!")
    ensures ToolWords(tool) != []
  {
    if ws[0].kind.Number? && tool != ws[0].val {
      UnitTool(ws[0].val, ws[1].val);
    }
  }

  lemma BlankToolReadsOther(tool: string, ws: seq<Word>)
    requires AllBlank(tool) && FollowsTool(ws)
    ensures WordsValue(ws) != Some(tool)
  {
    assert tool != "" ==> IsBlank(tool[0]);
  }

  /** A string literal is not the value of a tool: the tool would hold the quote that opens the literal. */
  lemma NoStringValue(tool: string, blanks: string, x: string)
    requires tool == blanks + x && AllBlank(blanks) && x != "" && x[0] == '"'
    ensures !RawString(tool)
  {
    if RawString(tool) {
      RawAfterBlanks(blanks, x);
    }
  }

  lemma NoLoneMark(s: string)
    requires |s| > 1 && s[0] == '!' && IsBlank(s[1])
    ensures Front(s) == Take(Bang, "!", 1)
  {
  }

  lemma StringFront(s: string)
    requires s != "" && Front(s).Take? && Front(s).kind.Str?
    ensures s[0] == '"'
  {
  }

  lemma VisibleTool(tool: string, blanks: string, x: string, suffix: string, ws: seq<Word>)
    requires tool == blanks + x && AllBlank(blanks) && x != "" && !IsBlank(x[0]) && x[0] != '#' && StartsBlank(suffix)
    requires LexWords(x + suffix) == Some(ws) && WordsValue(ws) == Some(tool)
    ensures ToolWords(tool) != []
  {
    var s := x + suffix;
    assert s[0] == x[0];
    FirstWordTaken(s);
    LexWordsOk(s);
    if ws[0].kind.Str? {
      StringFront(s);
      NoStringValue(tool, blanks, x);
    } else {
      if ws[0].kind.Ident? && tool == "!" {
        LoneMark(blanks, x, suffix);
      }
      TokenValue(ws, tool);
    }
  }

  lemma LoneMark(blanks: string, x: string, suffix: string)
    requires blanks + x == "!" && x != "" && StartsBlank(suffix)
    ensures Front(x + suffix) == Take(Bang, "!", 1)
  {
    assert |blanks| + |x| == 1;
    assert x == "!" && (x + suffix)[1] == suffix[0];
    NoLoneMark(x + suffix);
  }

  lemma Behind(a: string, b: string)
    requires b != ""
    ensures b[0] in a + b
  {
    assert (a + b)[|a|] == b[0];
  }

  lemma SplitTool(tool: string, suffix: string) returns (blanks: string, x: string)
    ensures tool == blanks + x && AllBlank(blanks) && (x == "" || (x[0] in tool && !IsBlank(x[0])))
    ensures LexWords(tool + suffix) == LexWords(x + suffix)
  {
    blanks, x := AfterBlanks(tool);
    BlanksSkipped(blanks, x + suffix);
    AppendAssociates(blanks, x, suffix);
    if x != "" {
      Behind(blanks, x);
    }
  }

  predicate OneLine(s: string) {
    '\n' !in s
  }

  /** A comment takes the rest of its line. */
  lemma CommentTaken(comment: string, rest: string)
    requires comment != "" && comment[0] == '#' && OneLine(comment)
    ensures LexWords(comment + ("\n" + rest)) == LexWords(rest)
  {
    var s := comment + ("\n" + rest);
    assert s[0] == '#' && s[|comment|..] == "\n" + rest;
    RunOverWord(NotNewline, comment, "\n" + rest);
    BlankSkipped('\n', rest);
  }

  lemma BlanksThenComment(blanks: string, x: string, line: string, rest: string)
    requires AllBlank(blanks) && x != "" && x[0] == '#' && OneLine(x + line)
    ensures LexWords((blanks + x) + (line + ("\n" + rest))) == LexWords(rest)
  {
    var comment := x + line;
    assert comment[0] == '#';
    assert (blanks + x) + (line + ("\n" + rest)) == blanks + (comment + ("\n" + rest));
    BlanksSkipped(blanks, comment + ("\n" + rest));
    CommentTaken(comment, rest);
  }

  /** A tool that starts with a comment is not read at all: what is read is on another line. */
  lemma CommentReadsOther(tool: string, blanks: string, x: string, line: string, rest: string, ws: seq<Word>)
    requires tool == blanks + x && AllBlank(blanks) && x != "" && x[0] == '#' && OneLine(x + line)
    requires LexesTo(rest, ws) && EndsRule(ws)
    ensures forall words :: LexWords(tool + (line + ("\n" + rest))) == Some(words) ==> WordsValue(words) != Some(tool)
  {
    BlanksThenComment(blanks, x, line, rest);
    LexesToIsLexWords(rest, ws);
    Behind(blanks, x);
    if ws[0].kind.Ident? {
      EffectFacts(ws[0].val);
      assert '#' !in ws[0].val;
    }
  }

  /** When the value read where a tool was printed is that tool, then it is a token. */
  lemma OnlyTokensReadBack(
    tool: string, line: string, rest: string, after: seq<Word>, end: seq<Word>, ws: seq<Word>)
    requires ('#' in tool ==> OneLine(tool) && OneLine(line)) && StartsBlank(line + ("\n" + rest))
    requires LexesTo(rest, end) && EndsRule(end)
    requires LexesTo(line + ("\n" + rest), after) && FollowsTool(after)
    requires LexesTo(tool + (line + ("\n" + rest)), ws) && WordsValue(ws) == Some(tool)
    ensures ToolWords(tool) != []
  {
    var suffix := line + ("\n" + rest);
    LexesToIsLexWords(suffix, after);
    LexesToIsLexWords(tool + suffix, ws);
    var blanks, x := SplitTool(tool, suffix);
    if x == "" {
      assert x + suffix == suffix && tool == blanks;
      BlankToolReadsOther(tool, ws);
    } else if x[0] == '#' {
      CommentReadsOther(tool, blanks, x, line, rest, end);
    } else {
      VisibleTool(tool, blanks, x, suffix, ws);
    }
  }

  lemma {:induction false} ClausesKeepHead(rule: Rule, ts: seq<Token>)
    requires Clauses(rule, ts).Done?
    ensures Clauses(rule, ts).value.effect == rule.effect && Clauses(rule, ts).value.tool == rule.tool
    decreases |ts|
  {
    if Peek(ts).kind.Eof? {
    } else if PeekIdent(ts) == "when" {
      var c := Condition(Advance(ts), Peek(Advance(ts)).line);
      ClausesKeepHead(rule.(condition := Join(c.0)), c.1);
    } else if PeekIdent(ts) == "notify" {
      var v := Value(SkipColon(Advance(ts)));
      ClausesKeepHead(rule.(notify := v.value), v.rest);
    } else if PeekIdent(ts) == "reason" {
      var v := Value(SkipColon(Advance(ts)));
      ClausesKeepHead(rule.(reason := v.value), v.rest);
    }
  }

  /** The first rule of a text, if the text starts with one, is the given rule. */
  predicate ReadsBack(text: string, line: nat, rule: Rule) {
    && Lex(text, line).Ok?
    && FlatRule(Lex(text, line).value).Done?
    && FlatRule(Lex(text, line).value).value == rule
  }

  /** A rule in which everything but the tool is fit to be printed. */
  predicate RuleButToolOk(r: PrintRule, parts: seq<string>) {
    && IsEffect(EffectWord(r)) && PartsOk(parts)
    && (if PrintsWhen(r) then parts != [] && r.when_ == Join(parts) else parts == [])
    && RawString(r.notify) && RawString(r.reason)
  }

  lemma HeadReadsTool(ts: seq<Token>, effect: string, ws: seq<Word>)
    requires Strip(ts) == [Word(Ident, effect)] + ws
    requires FlatRule(ts).Done? && FlatRule(ts).value.effect == effect
    ensures WordsValue(ws) == Some(FlatRule(ts).value.tool)
  {
    StripStep(ts, Word(Ident, effect), ws);
    var strict := Peek(ts).val == "deny" && Peek(Advance(ts)).kind.Bang?;
    var v := Value(if strict then Advance(Advance(ts)) else Advance(ts));
    ClausesKeepHead(Rule(if strict then "deny!" else Peek(ts).val, v.value, "", "", ""), v.rest);
    ValueOfWords(Advance(ts));
  }

  predicate VisibleWord(w: Word) {
    w.kind in {Ident, RBrace, Eof} && (w.kind.Ident? ==> w.val != "" && !IsBlank(w.val[0]))
  }

  lemma ClausesVisible(notify: string, reason: string, ws: seq<Word>)
    requires EndsRule(ws)
    ensures var clauses := ClauseWords("notify", notify) + (ClauseWords("reason", reason) + ws);
      clauses != [] && VisibleWord(clauses[0])
  {
    if ws[0].kind.Ident? {
      EffectFacts(ws[0].val);
    }
  }

  lemma TailFollowsTool(parts: seq<string>, notify: string, reason: string, ws: seq<Word>)
    requires EndsRule(ws)
    ensures FollowsTool(WhenWords(parts) + (ClauseWords("notify", notify) + (ClauseWords("reason", reason) + ws)))
  {
    AfterToolNoUnit(parts, notify, reason, ws);
    ClausesVisible(notify, reason, ws);
    var clauses := ClauseWords("notify", notify) + (ClauseWords("reason", reason) + ws);
    if parts == [] {
      assert WhenWords(parts) + clauses == clauses;
    }
  }

  /** What is printed of a rule behind its tool, on the same line. */
  function LineTail(parts: seq<string>, notify: string, reason: string): string {
    ClauseIf(parts != [], " when " + Join(parts))
    + (ClauseIf(notify != "", " notify: " + Quoted(notify)) + ClauseIf(reason != "", " reason: " + Quoted(reason)))
  }

  lemma TailIsLine(a: string, b: string, c: string, rest: string)
    ensures a + (b + (c + rest)) == (a + (b + c)) + rest
  {
  }

  lemma TailOneLine(parts: seq<string>, notify: string, reason: string)
    requires OneLine(Join(parts)) && OneLine(notify) && OneLine(reason)
    ensures OneLine(LineTail(parts, notify, reason))
  {
    assert OneLine(" when " + Join(parts));
    assert OneLine(" notify: " + Quoted(notify)) && OneLine(" reason: " + Quoted(reason));
  }

  /** No newline in what is printed of a rule. */
  predicate OneLineRule(r: PrintRule) {
    OneLine(r.tool) && OneLine(r.when_) && OneLine(r.notify) && OneLine(r.reason)
  }

  lemma WrittenTail(r: PrintRule, parts: seq<string>, rest: string)
    requires IsEffect(EffectWord(r)) && (parts != [] <==> PrintsWhen(r)) && (parts != [] ==> r.when_ == Join(parts))
    ensures RuleText(r) + rest
      == "    " + (EffectWord(r) + (" " + (r.tool + (LineTail(parts, r.notify, r.reason) + ("\n" + rest)))))
  {
    var when, notify, reason := ClauseIf(parts != [], " when " + Join(parts)),
      ClauseIf(r.notify != "", " notify: " + Quoted(r.notify)),
      ClauseIf(r.reason != "", " reason: " + Quoted(r.reason));
    NestText("    ", EffectWord(r), " ", r.tool, when, notify, reason, "\n", rest);
    TailIsLine(when, notify, reason, "\n" + rest);
  }

  lemma RuleHeadReads(effect: string, tool: string, suffix: string, line: nat) returns (words: seq<Word>)
    requires IsEffect(effect)
    requires var text := "    " + (effect + (" " + (tool + suffix)));
      Lex(text, line).Ok? && FlatRule(Lex(text, line).value).Done?
      && FlatRule(Lex(text, line).value).value.effect == effect
    ensures LexesTo(tool + suffix, words)
    ensures WordsValue(words)
      == Some(FlatRule(Lex("    " + (effect + (" " + (tool + suffix))), line).value).value.tool)
  {
    var text := "    " + (effect + (" " + (tool + suffix)));
    LexHasWords(text, line);
    EffectFacts(effect);
    HeadTaken(effect, tool + suffix);
    words := LexWords(tool + suffix).value;
    LexesToIsLexWords(tool + suffix, words);
    HeadReadsTool(Lex(text, line).value, effect, words);
  }

  /**
   A printed rule, whatever rule or block end follows, reads back as it was if and only if its tool is a token: an
   identifier, or a number with or without a unit. (A comment sign in the tool and a newline in the rule together are
   not considered.)
   */
  lemma ToolReadsBackIff(r: PrintRule, parts: seq<string>, rest: string, ws: seq<Word>, line: nat)
    requires RuleButToolOk(r, parts) && ('#' in r.tool ==> OneLineRule(r)) && LexesTo(rest, ws) && EndsRule(ws)
    ensures ReadsBack(RuleText(r) + rest, line, Reread(r)) <==> ToolWords(r.tool) != []
  {
    var text := RuleText(r) + rest;
    LexHasWords(text, line);
    if ToolWords(r.tool) != [] {
      RuleLexes(r, parts, rest, ws);
      assert LexesAt(text, RuleWords(r, parts) + ws, line);
      RuleReads(r, parts, Lex(text, line).value, ws);
    }
    if ReadsBack(text, line, Reread(r)) {
      ToolIsToken(r, parts, rest, ws, line);
    }
  }

  lemma ToolIsToken(r: PrintRule, parts: seq<string>, rest: string, ws: seq<Word>, line: nat)
    requires RuleButToolOk(r, parts) && ('#' in r.tool ==> OneLineRule(r)) && LexesTo(rest, ws) && EndsRule(ws)
    requires ReadsBack(RuleText(r) + rest, line, Reread(r))
    ensures ToolWords(r.tool) != []
  {
    var tail := LineTail(parts, r.notify, r.reason);
    var after := WhenWords(parts) + (ClauseWords("notify", r.notify) + (ClauseWords("reason", r.reason) + ws));
    WrittenTail(r, parts, rest);
    var words := RuleHeadReads(EffectWord(r), r.tool, tail + ("\n" + rest), line);
    var text := RuleTailLexes(parts, r.notify, r.reason, rest, ws);
    TailIsLine(ClauseIf(parts != [], " when " + Join(parts)),
      ClauseIf(r.notify != "", " notify: " + Quoted(r.notify)),
      ClauseIf(r.reason != "", " reason: " + Quoted(r.reason)), "\n" + rest);
    TailFollowsTool(parts, r.notify, r.reason, ws);
    if '#' in r.tool {
      TailOneLine(parts, r.notify, r.reason);
    }
    OnlyTokensReadBack(r.tool, tail, rest, after, ws, words);
  }

  lemma HeadTaken(effect: string, s: string)
    requires IdentWord(effect)
    ensures LexWords("    " + (effect + (" " + s))) == PrependWord(Word(Ident, effect), LexWords(s))
  {
    BlanksSkipped("    ", effect + (" " + s));
    WordTaken(Word(Ident, effect), " " + s);
    BlanksSkipped(" ", s);
  }
}
