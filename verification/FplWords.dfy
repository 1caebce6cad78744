/** Words of the policy language: which texts lex as one token, and how texts of words and blanks lex. */
module FplWords {
  import opened Basics
  import opened FplLexer

  /** A token without its line. */
  datatype Word = Word(kind: Kind, val: string)

  predicate AllIdentCont(s: string) {
    forall i :: 0 <= i < |s| ==> IsIdentCont(s[i])
  }

  predicate IdentWord(s: string) {
    s != "" && IsIdentStart(s[0]) && AllIdentCont(s)
  }

  /** An identifier that starts with an exclamation mark. */
  predicate BangWord(s: string) {
    |s| >= 2 && s[0] == '!' && AllIdentCont(s)
  }

  predicate NumberWord(s: string) {
    s != "" && StartsNumber(s) && forall i :: 1 <= i < |s| ==> IsNumberCont(s[i])
  }

  /** The inside of a string literal: every quote in it is behind a backslash, which is not the last byte. */
  predicate RawString(s: string) {
    s == ""
    || (s[0] == '\\' && |s| >= 2 && RawString(s[2..]))
    || (s[0] != '\\' && s[0] != '"' && RawString(s[1..]))
  }

  predicate WordOk(w: Word) {
    match w.kind
    case Ident => IdentWord(w.val) || BangWord(w.val)
    case Str => RawString(w.val)
    case Number => NumberWord(w.val)
    case LBrace => w.val == "{"
    case RBrace => w.val == "}"
    case Colon => w.val == ":"
    case Bang => w.val == "!"
    case Dollar => w.val == "$"
    case Eof => false
  }

  function Source(w: Word): string {
    if w.kind.Str? then "\"" + w.val + "\"" else w.val
  }

  /** A word of this kind is not lengthened by what comes right behind it. */
  predicate EndsBefore(kind: Kind, rest: string) {
    rest == "" || match kind
      case Ident => !IsIdentCont(rest[0])
      case Number => !IsNumberCont(rest[0])
      case Bang => IsBlank(rest[0])
      case _ => true
  }

  // ---------------------------------------------------------------- one lexeme

  lemma {:induction false} CloseQuoteRaw(s: string, j: nat, rest: string)
    requires j <= |s| && RawString(s[j..])
    ensures CloseQuote(s + "\"" + rest, j) == Some(|s|)
    decreases |s| - j
  {
    var all := s + "\"" + rest;
    if j < |s| {
      assert all[j] == s[j..][0];
      if s[j] == '\\' {
        assert s[j..][2..] == s[j + 2..];
        CloseQuoteRaw(s, j + 2, rest);
      } else {
        assert s[j..][1..] == s[j + 1..];
        CloseQuoteRaw(s, j + 1, rest);
      }
    } else {
      assert all[j] == '"';
    }
  }

  lemma FrontAtQuote(s: string, close: nat)
    requires s != "" && s[0] == '"' && CloseQuote(s, 1) == Some(close)
    ensures Front(s) == Take(Str, s[1..close], close + 1)
  {
  }

  /** Inside a pair of quotes, whatever the quote is. */
  lemma InsideQuotes(q: string, val: string, rest: string)
    requires |q| == 1
    ensures var s := q + val + q + rest; s != "" && s[0] == q[0] && s[1..|val| + 1] == val
    ensures (q + val)[1..] == val && |q + val| == |val| + 1
  {
  }

  lemma CloseQuoteBehind(val: string, rest: string)
    requires RawString(val)
    ensures CloseQuote("\"" + val + "\"" + rest, 1) == Some(|val| + 1)
  {
    var upTo := "\"" + val;
    InsideQuotes("\"", val, rest);
    CloseQuoteRaw(upTo, 1, rest);
  }

  lemma FrontOfString(val: string, rest: string)
    requires RawString(val)
    ensures Front("\"" + val + "\"" + rest) == Take(Str, val, |val| + 2)
  {
    CloseQuoteBehind(val, rest);
    InsideQuotes("\"", val, rest);
    FrontAtQuote("\"" + val + "\"" + rest, |val| + 1);
  }

  lemma RunOverWord(p: char -> bool, val: string, rest: string)
    requires forall i :: 0 <= i < |val| ==> p(val[i])
    requires rest == "" || !p(rest[0])
    ensures Run(p, val + rest) == |val|
  {
    var s := val + rest;
    assert forall i :: 0 <= i < |val| ==> s[i] == val[i];
    assert rest != "" ==> s[|val|] == rest[0];
    RunFrom(p, s, |val|);
  }

  lemma FrontAtIdent(s: string)
    requires s != "" && IsIdentStart(s[0])
    ensures Front(s) == Take(Ident, s[..Run(IsIdentCont, s)], Run(IsIdentCont, s))
  {
    assert !StartsNumber(s);
  }

  lemma FrontAtBang(s: string)
    requires |s| > 1 && s[0] == '!' && IsIdentCont(s[1])
    ensures Front(s) == Take(Ident, s[..Run(IsIdentCont, s)], Run(IsIdentCont, s))
  {
  }

  lemma FrontOfIdent(val: string, rest: string)
    requires IdentWord(val) || BangWord(val)
    requires EndsBefore(Ident, rest)
    ensures Front(val + rest) == Take(Ident, val, |val|)
  {
    var s := val + rest;
    RunOverWord(IsIdentCont, val, rest);
    assert s[0] == val[0] && (|val| > 1 ==> s[1] == val[1]);
    if IsIdentStart(s[0]) {
      FrontAtIdent(s);
    } else {
      FrontAtBang(s);
    }
    assert s[..|val|] == val;
  }

  lemma FrontOfNumber(val: string, rest: string)
    requires NumberWord(val) && EndsBefore(Number, rest)
    ensures Front(val + rest) == Take(Number, val, |val|)
  {
    var s := val + rest;
    assert s[0] == val[0] && (|val| > 1 ==> s[1] == val[1]) && s[..|val|] == val;
    if val[0] == '-' {
      assert s[1..] == val[1..] + rest;
      RunOverWord(IsNumberCont, val[1..], rest);
    } else {
      assert s[0..] == s;
      RunOverWord(IsNumberCont, val, rest);
    }
  }

  lemma FrontOf(w: Word, rest: string)
    requires WordOk(w) && EndsBefore(w.kind, rest)
    ensures Front(Source(w) + rest) == Take(w.kind, w.val, |Source(w)|)
  {
    match w.kind {
      case Ident => FrontOfIdent(w.val, rest);
      case Number => FrontOfNumber(w.val, rest);
      case Str =>
        FrontOfString(w.val, rest);
        assert Source(w) + rest == "\"" + w.val + "\"" + rest;
      case Eof =>
      case LBrace => FrontOfMark(w, rest);
      case RBrace => FrontOfMark(w, rest);
      case Colon => FrontOfMark(w, rest);
      case Bang => FrontOfMark(w, rest);
      case Dollar => FrontOfMark(w, rest);
    }
  }

  lemma FrontOfMark(w: Word, rest: string)
    requires w.kind in {LBrace, RBrace, Colon, Bang, Dollar} && WordOk(w) && EndsBefore(w.kind, rest)
    ensures Front(Source(w) + rest) == Take(w.kind, w.val, |Source(w)|)
  {
    assert (w.val + rest)[0] == w.val[0];
    assert rest != "" ==> (w.val + rest)[1] == rest[0];
  }

  // ---------------------------------------------------------------- whole texts

  function Strip(ts: seq<Token>): seq<Word> {
    if ts == [] then [] else [Word(ts[0].kind, ts[0].val)] + Strip(ts[1..])
  }

  const END := Word(Eof, "")

  function PrependWord(w: Word, r: Option<seq<Word>>): Option<seq<Word>> {
    if r.Some? then Some([w] + r.value) else None
  }

  /** The words of a text; None if it does not lex. */
  function LexWords(s: string): Option<seq<Word>> {
    if s == "" then Some([END])
    else match Front(s)
      case Skip(n, _) => LexWords(s[n..])
      case Take(kind, val, n) => PrependWord(Word(kind, val), LexWords(s[n..]))
      case _ => None
  }

  lemma {:induction false} LexHasWords(s: string, line: nat)
    ensures Lex(s, line).Ok? <==> LexWords(s).Some?
    ensures Lex(s, line).Ok? ==> Strip(Lex(s, line).value) == LexWords(s).value
  {
    if s == "" {
      assert Lex(s, line).value[1..] == [];
    } else {
      match Front(s) {
        case Skip(n, newline) =>
          LexHasWords(s[n..], if newline then line + 1 else line);
        case Take(kind, val, n) =>
          LexHasWords(s[n..], line);
          if Lex(s, line).Ok? {
            assert Lex(s, line).value[1..] == Lex(s[n..], line).value;
          }
        case _ =>
      }
    }
  }

  predicate LexesAt(text: string, words: seq<Word>, line: nat) {
    Lex(text, line).Ok? && Strip(Lex(text, line).value) == words
  }

  /** The text lexes to the words, whatever line it starts on. */
  ghost predicate LexesTo(text: string, words: seq<Word>) {
    forall line: nat :: LexesAt(text, words, line)
  }

  lemma LexesToIsLexWords(text: string, words: seq<Word>)
    ensures LexesTo(text, words) <==> LexWords(text) == Some(words)
  {
    forall line: nat
      ensures LexesAt(text, words, line) <==> LexWords(text) == Some(words)
    {
      LexHasWords(text, line);
    }
    assert LexesAt(text, words, 0) <==> LexWords(text) == Some(words);
  }

  lemma EndLexes()
    ensures LexesTo("", [END])
  {
    LexesToIsLexWords("", [END]);
  }

  lemma BlankSkipped(c: char, text: string)
    requires IsBlank(c)
    ensures LexWords([c] + text) == LexWords(text)
  {
    assert ([c] + text)[1..] == text;
  }

  lemma ConsBlank(c: char, text: string, words: seq<Word>)
    requires IsBlank(c) && LexesTo(text, words)
    ensures LexesTo([c] + text, words)
  {
    BlankSkipped(c, text);
    LexesToIsLexWords(text, words);
    LexesToIsLexWords([c] + text, words);
  }

  predicate AllBlank(s: string) {
    forall i :: 0 <= i < |s| ==> IsBlank(s[i])
  }

  lemma {:induction false} BlanksSkipped(blanks: string, s: string)
    requires AllBlank(blanks)
    ensures LexWords(blanks + s) == LexWords(s)
  {
    if blanks == "" {
      assert blanks + s == s;
    } else {
      BlanksSkipped(blanks[1..], s);
      assert (blanks + s)[1..] == blanks[1..] + s;
    }
  }

  lemma ConsBlanks(blanks: string, text: string, words: seq<Word>)
    requires AllBlank(blanks) && LexesTo(text, words)
    ensures LexesTo(blanks + text, words)
  {
    BlanksSkipped(blanks, text);
    LexesToIsLexWords(text, words);
    LexesToIsLexWords(blanks + text, words);
  }

  lemma WordTaken(w: Word, s: string)
    requires WordOk(w) && EndsBefore(w.kind, s)
    ensures LexWords(Source(w) + s) == PrependWord(w, LexWords(s))
  {
    FrontOf(w, s);
    assert Source(w) != "" && (Source(w) + s)[|Source(w)|..] == s;
  }

  lemma ConsWord(w: Word, text: string, words: seq<Word>)
    requires WordOk(w) && EndsBefore(w.kind, text) && LexesTo(text, words)
    ensures LexesTo(Source(w) + text, [w] + words)
  {
    WordTaken(w, text);
    LexesToIsLexWords(text, words);
    LexesToIsLexWords(Source(w) + text, [w] + words);
  }
}
