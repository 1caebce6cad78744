/** The printer escapes nothing: exactly which rules, and which texts of variables, survive printing. */
module FplTexts {
  import opened Basics
  import opened FplLexer
  import opened FplParser
  import opened FplPrinter
  import opened FplWords
  import opened FplRoundTrip
  import opened FplDocument
  import opened FplReparse
  import opened FplFixpoint
  import opened FplTools

  // ---------------------------------------------------------------- rules

  /**
   The tool is a token, the condition is texts of tokens joined by blanks, and notify and reason could stand in a string
   literal: each quote in them behind a backslash, which is not their last byte.
   */
  ghost predicate Survives(r: PrintRule) {
    && ToolWords(r.tool) != []
    && (PrintsWhen(r) ==> exists parts :: PartsOk(parts) && r.when_ == Join(parts))
    && RawString(r.notify) && RawString(r.reason)
  }

  ghost predicate HasParts(r: PrintRule, parts: seq<string>) {
    PartsOk(parts) && (if PrintsWhen(r) then parts != [] && r.when_ == Join(parts) else parts == [])
  }

  lemma PartsOf(r: PrintRule) returns (parts: seq<string>)
    requires PrintsWhen(r) ==> exists ps :: PartsOk(ps) && r.when_ == Join(ps)
    ensures HasParts(r, parts)
  {
    parts := [];
    if PrintsWhen(r) {
      parts :| PartsOk(parts) && r.when_ == Join(parts);
    }
  }

  /** Whatever text the parser accepts, the rule it makes is made of such pieces. */
  lemma ReadIsShaped(text: string, line: nat, rule: Rule)
    requires ReadsBack(text, line, rule)
    ensures Shaped(rule)
  {
    LexedOk(text, line);
    FlatRuleOk(Lex(text, line).value);
  }

  /**
   A printed rule, whatever rule or block end follows, reads back as it was if and only if each of its texts is of the
   kind that survives. (A comment sign in the tool and a newline in the rule together are not considered.)
   */
  lemma RuleReadsBackIff(r: PrintRule, rest: string, ws: seq<Word>, line: nat)
    requires IsEffect(EffectWord(r)) && ('#' in r.tool ==> OneLineRule(r)) && LexesTo(rest, ws) && EndsRule(ws)
    ensures ReadsBack(RuleText(r) + rest, line, Reread(r)) <==> Survives(r)
  {
    if ReadsBack(RuleText(r) + rest, line, Reread(r)) {
      ReadIsShaped(RuleText(r) + rest, line, Reread(r));
    }
    if ReadsBack(RuleText(r) + rest, line, Reread(r)) || Survives(r) {
      var parts := PartsOf(r);
      ToolReadsBackIff(r, parts, rest, ws, line);
    }
  }

  // ---------------------------------------------------------------- variables

  /** What the words of a variable's value make of it. */
  function VarWordsValue(ws: seq<Word>): Option<string> {
    if ws == [] then None
    else match ws[0].kind
      case Str => Some(ws[0].val)
      case Ident => Some(ws[0].val)
      case Number => Some(ws[0].val)
      case Dollar => Some("$" + (if |ws| > 1 then ws[1].val else ""))
      case _ => None
  }

  lemma VarValueOfWords(ts: seq<Token>)
    requires VarValue(ts).Done?
    ensures VarWordsValue(Strip(ts)) == Some(VarValue(ts).value)
  {
    if ts != [] {
      assert Strip(ts)[0] == Word(ts[0].kind, ts[0].val);
      if |ts| > 1 {
        assert Strip(ts[1..])[0] == Word(ts[1].kind, ts[1].val);
        assert Strip(ts)[1] == Word(ts[1].kind, ts[1].val);
      }
    }
  }

  /** What follows a variable in a block: an identifier or the end of the block. */
  predicate FollowsVar(ws: seq<Word>) {
    ws != [] && (ws[0] == Word(RBrace, "}") || (ws[0].kind.Ident? && (NameOk(ws[0].val) || ws[0].val == "!")))
  }

  lemma FollowerPlain(ws: seq<Word>)
    requires FollowsVar(ws)
    ensures ws[0].val != "" && '#' !in ws[0].val && '$' !in ws[0].val
  {
  }

  /** A text without blanks and quotes that is no comment: the first token, and what the rest of the text lexes to. */
  lemma PlainFront(v: string, suffix: string)
    requires v != "" && v[0] != '#' && !NeedsQuotes(v) && LexWords(v + suffix).Some?
    ensures var ws := LexWords(v + suffix).value;
      ws != [] && ws[0] == Word(Front(v + suffix).kind, Front(v + suffix).val)
      && !ws[0].kind.Str? && !ws[0].kind.Eof? && TokenOk(Token(ws[0].kind, ws[0].val, 0))
  {
    var s := v + suffix;
    assert s[0] == v[0] && !NeedsQuotesAt(v[0]);
    FirstWordTaken(s);
    FrontOk(s, 0);
  }

  lemma MarkFront(s: string)
    requires s != "" && Front(s).Take?
    ensures match Front(s).kind
      case LBrace => Front(s).val == "{"
      case RBrace => Front(s).val == "}"
      case Colon => Front(s).val == ":"
      case Bang => Front(s).val == "!"
      case Dollar => Front(s).val == "$" && Front(s).size == 1 && s[0] == '$'
      case _ => true
  {
  }

  /** A text that is itself the first token of the line is one of the tokens that a value can be made of. */
  lemma TokenText(t: string, rest: string, ws: seq<Word>)
    requires t != "" && t[0] != '#' && !NeedsQuotes(t) && LexWords(t + ("\n" + rest)) == Some(ws) && ws != []
    requires ws[0].val == t
    ensures NameOk(t) || NumberWord(t) || MarkKind(t).Some?
    ensures ws[0].kind.Ident? ==> NameOk(t)
    ensures ws[0].kind.Number? ==> NumberWord(t)
  {
    var s := t + ("\n" + rest);
    PlainFront(t, "\n" + rest);
    MarkFront(s);
    if t == "!" {
      assert s[0] == '!' && s[1] == '\n';
      NoLoneMark(s);
    }
  }

  lemma PlainIsOneLine(t: string)
    requires !NeedsQuotes(t)
    ensures OneLine(t)
  {
    forall i | 0 <= i < |t| ensures t[i] != '\n' {
      assert !NeedsQuotesAt(t[i]);
    }
  }

  lemma CommentedOut(t: string, rest: string, ws: seq<Word>)
    requires t != "" && t[0] == '#' && !NeedsQuotes(t) && LexesTo(rest, ws)
    ensures LexWords(t + ("\n" + rest)) == Some(ws)
  {
    PlainIsOneLine(t);
    CommentTaken(t, rest);
    LexesToIsLexWords(rest, ws);
  }

  lemma NothingWritten(rest: string, ws: seq<Word>)
    requires LexesTo(rest, ws)
    ensures LexWords("" + ("\n" + rest)) == Some(ws)
  {
    assert "" + ("\n" + rest) == "\n" + rest;
    BlankSkipped('\n', rest);
    LexesToIsLexWords(rest, ws);
  }

  lemma PlainTail(t: string)
    requires t != "" && !NeedsQuotes(t)
    ensures !NeedsQuotes(t[1..])
  {
    assert forall i :: 0 <= i < |t| - 1 ==> t[1..][i] == t[i + 1];
  }

  /** Behind a dollar sign: the next word is the rest of the text only if that is one token. */
  lemma BehindDollar(t: string, rest: string, ws: seq<Word>, words: seq<Word>)
    requires !NeedsQuotes(t) && LexesTo(rest, ws) && FollowsVar(ws)
    requires LexWords(t + ("\n" + rest)) == Some(words) && words != [] && words[0].val == t
    ensures NameOk(t) || NumberWord(t) || MarkKind(t).Some?
  {
    FollowerPlain(ws);
    if t == "" {
      NothingWritten(rest, ws);
    } else if t[0] == '#' {
      CommentedOut(t, rest, ws);
    } else {
      TokenText(t, rest, words);
    }
  }

  lemma DollarSplits(v: string, rest: string)
    requires v != "" && v[0] == '$'
    ensures LexWords(v + ("\n" + rest)) == PrependWord(Word(Dollar, "$"), LexWords(v[1..] + ("\n" + rest)))
  {
    var s := v + ("\n" + rest);
    assert s[0] == '$' && s[1..] == v[1..] + ("\n" + rest);
  }

  lemma {:induction false} WordsNotEmpty(s: string)
    requires LexWords(s).Some?
    ensures LexWords(s).value != []
  {
    if s != "" {
      match Front(s) {
        case Skip(n, _) => WordsNotEmpty(s[n..]);
        case _ =>
      }
    }
  }

  lemma PlainValue(v: string, rest: string, ws: seq<Word>, words: seq<Word>)
    requires !NeedsQuotes(v) && LexesTo(rest, ws) && FollowsVar(ws)
    requires LexWords(v + ("\n" + rest)) == Some(words) && VarWordsValue(words) == Some(v)
    ensures VarValueWords(v) != []
  {
    FollowerPlain(ws);
    if v == "" {
      NothingWritten(rest, ws);
    } else if v[0] == '#' {
      CommentedOut(v, rest, ws);
    } else if v[0] == '$' {
      DollarSplits(v, rest);
      WordsNotEmpty(v[1..] + ("\n" + rest));
      PlainTail(v);
      assert v == "$" + v[1..];
      BehindDollar(v[1..], rest, ws, LexWords(v[1..] + ("\n" + rest)).value);
    } else {
      PlainFront(v, "\n" + rest);
      MarkFront(v + ("\n" + rest));
      TokenText(v, rest, words);
    }
  }

  lemma QuotedValue(v: string, rest: string, words: seq<Word>)
    requires LexWords(Quoted(v) + rest) == Some(words) && VarWordsValue(words) == Some(v)
    ensures RawString(v)
  {
    var s := Quoted(v) + rest;
    assert s[0] == '"';
    FirstWordTaken(s);
    FrontOk(s, 0);
  }

  /** The text starts with a variable's line that reads as the given name and value. */
  predicate VarReadsBack(text: string, line: nat, v: (string, string)) {
    Lex(text, line).Ok?
    && var ts := Lex(text, line).value;
      PeekIdent(ts) == "var"
      && Value(Advance(ts)).Done? && Value(Advance(ts)).value == v.0
      && VarValue(Value(Advance(ts)).rest).Done? && VarValue(Value(Advance(ts)).rest).value == v.1
  }

  lemma VarHeadTaken(name: string, text: string)
    requires NameOk(name)
    ensures LexWords("  " + ("var" + (" " + (name + (" " + text)))))
      == PrependWord(Word(Ident, "var"), PrependWord(Word(Ident, name), LexWords(text)))
  {
    var t := name + (" " + text);
    BlanksSkipped("  ", "var" + (" " + t));
    assert IdentWord("var");
    WordTaken(Word(Ident, "var"), " " + t);
    BlankSkipped(' ', t);
    WordTaken(Word(Ident, name), " " + text);
    BlankSkipped(' ', text);
  }

  lemma VarReadValue(name: string, text: string, line: nat) returns (words: seq<Word>)
    requires NameOk(name) && Lex("  " + ("var" + (" " + (name + (" " + text)))), line).Ok?
    ensures LexWords(text) == Some(words)
    ensures var ts := Lex("  " + ("var" + (" " + (name + (" " + text)))), line).value;
      PeekIdent(ts) == "var" && Value(Advance(ts)) == Done(name, Advance(Advance(ts)))
      && Strip(Advance(Advance(ts))) == words
  {
    var all := "  " + ("var" + (" " + (name + (" " + text))));
    LexHasWords(all, line);
    VarHeadTaken(name, text);
    words := LexWords(text).value;
    var ts := Lex(all, line).value;
    WordAt(ts, Word(Ident, "var"), [Word(Ident, name)] + words);
    NameReads(Advance(ts), name, words);
  }

  /**
   A printed variable, whatever the next item of the block, reads back as it was if and only if its value is one token,
   or a dollar sign and one token, or, where it is quoted, could stand in a string literal.
   */
  lemma VarReadsBackIff(v: (string, string), rest: string, ws: seq<Word>, line: nat)
    requires NameOk(v.0) && LexesTo(rest, ws) && FollowsVar(ws)
    ensures VarReadsBack(VarText(v) + rest, line, v) <==> VarValueWords(v.1) != []
  {
    var text := ValueText(v.1) + ("\n" + rest);
    VarTextNested(v.0, ValueText(v.1), rest);
    if VarValueWords(v.1) != [] {
      ConsBlank('\n', rest, ws);
      ValueLexes(v.1, "\n" + rest, ws);
      VarHeadLexes(v.0, text, VarValueWords(v.1) + ws);
      assert LexesAt(VarText(v) + rest, [Word(Ident, "var"), Word(Ident, v.0)] + (VarValueWords(v.1) + ws), line);
      var words := VarReadValue(v.0, text, line);
      LexesToIsLexWords(text, words);
      LexesToIsLexWords(text, VarValueWords(v.1) + ws);
      var after := VarValueReads(Advance(Advance(Lex(VarText(v) + rest, line).value)), v.1, ws);
    }
    if VarReadsBack(VarText(v) + rest, line, v) {
      var words := VarReadValue(v.0, text, line);
      VarValueOfWords(Advance(Advance(Lex(VarText(v) + rest, line).value)));
      if NeedsQuotes(v.1) {
        QuotedValue(v.1, "\n" + rest, words);
      } else {
        PlainValue(v.1, rest, ws, words);
      }
    }
  }
}
