/** Tokens of the policy language (FPL). Source text is a sequence of bytes, held in chars below 256. */
module FplLexer {
  import opened Basics

  datatype Kind = Ident | Str | Number | LBrace | RBrace | Colon | Bang | Dollar | Eof

  datatype Token = Token(kind: Kind, val: string, line: nat)

  datatype LexError = UnterminatedString(line: nat) | UnexpectedCharacter(line: nat, c: char)

  predicate IsDigit(c: char) {
    '0' <= c <= '9'
  }

  predicate IsIdentStart(c: char) {
    'a' <= c <= 'z' || 'A' <= c <= 'Z' || c == '_'
    || c == '>' || c == '<' || c == '=' || c == '(' || c == ')'
    || c == '[' || c == ']' || c == ',' || c == '/' || c == '*' || c == '+' || c == '&' || c == '|'
  }

  predicate IsIdentCont(c: char) {
    IsIdentStart(c) || IsDigit(c) || c == '-' || c == '.' || c == '!' || c == '@' || c == '%' || c == '^'
  }

  predicate IsNumberCont(c: char) {
    IsDigit(c) || c == '.'
  }

  /** What a word is made of; it cannot start with a digit or one of six marks. A number goes on in digits and dots. */
  lemma WordAlphabet(c: char)
    ensures IsNumberCont(c) <==> c in {'0', '1', '2', '3', '4', '5', '6', '7', '8', '9', '.'}
    ensures IsIdentCont(c) <==>
      || 'a' <= c <= 'z' || 'A' <= c <= 'Z' || '0' <= c <= '9'
      || c in {'_', '>', '<', '=', '(', ')', '[', ']', ',', '/', '*', '+', '&', '|', '-', '.', '!', '@', '%', '^'}
    ensures IsIdentStart(c) <==>
      IsIdentCont(c) && !('0' <= c <= '9') && c !in {'-', '.', '!', '@', '%', '^'}
  {
  }

  predicate NotNewline(c: char) {
    c != '\n'
  }

  predicate IsBlank(c: char) {
    c == ' ' || c == '\t' || c == '\n' || c == '\r'
  }

  /** How many bytes from the front satisfy p. */
  function Run(p: char -> bool, s: string): (n: nat)
    ensures n <= |s|
    ensures forall i :: 0 <= i < n ==> p(s[i])
    ensures n < |s| ==> !p(s[n])
  {
    if s == "" || !p(s[0]) then 0 else 1 + Run(p, s[1..])
  }

  /** The index of the quote that closes a string; a backslash hides the byte after it. */
  function CloseQuote(s: string, j: nat): (r: Option<nat>)
    ensures r.Some? ==> j <= r.value < |s| && s[r.value] == '"'
    decreases |s| + 1 - j
  {
    if j >= |s| then None
    else if s[j] == '"' then Some(j)
    else if s[j] == '\\' then (if j + 2 > |s| then None else CloseQuote(s, j + 2))
    else CloseQuote(s, j + 1)
  }

  // ---------------------------------------------------------------- one token at a time

  datatype Lexed =
    | Skip(size: nat, newline: bool)
    | Take(kind: Kind, val: string, size: nat)
    | Unterminated
    | Unexpected

  predicate StartsNumber(s: string)
    requires s != ""
  {
    IsDigit(s[0]) || (s[0] == '-' && |s| > 1 && IsDigit(s[1]))
  }

  /** What the front of the source is: something to skip, a token, or an error. */
  function Front(s: string): (r: Lexed)
    requires s != ""
    ensures r.Skip? || r.Take? ==> 0 < r.size <= |s|
  {
    var c := s[0];
    if c == '\n' then Skip(1, true)
    else if c == '\r' || c == ' ' || c == '\t' then Skip(1, false)
    else if c == '#' then Skip(Run(NotNewline, s), false)
    else if c == '{' then Take(LBrace, "{", 1)
    else if c == '}' then Take(RBrace, "}", 1)
    else if c == ':' then Take(Colon, ":", 1)
    else if c == '!' && (|s| == 1 || IsBlank(s[1])) then Take(Bang, "!", 1)
    else if c == '!' then
      var n := Run(IsIdentCont, s);
      Take(Ident, s[..n], n)
    else if c == '$' then Take(Dollar, "$", 1)
    else if c == '"' then
      match CloseQuote(s, 1)
      case None => Unterminated
      case Some(j) => Take(Str, s[1..j], j + 1)
    else if StartsNumber(s) then
      var from := if c == '-' then 1 else 0;
      var n := from + Run(IsNumberCont, s[from..]);
      Take(Number, s[..n], n)
    else if IsIdentStart(c) then
      var n := Run(IsIdentCont, s);
      Take(Ident, s[..n], n)
    else Unexpected
  }

  function Prepend(t: Token, r: Result<seq<Token>, LexError>): Result<seq<Token>, LexError> {
    if r.Ok? then Ok([t] + r.value) else r
  }

  /** The tokens of a source that starts on the given line. */
  function Lex(s: string, line: nat): Result<seq<Token>, LexError> {
    if s == "" then Ok([Token(Eof, "", line)])
    else match Front(s)
      case Skip(n, newline) => Lex(s[n..], if newline then line + 1 else line)
      case Take(kind, val, n) => Prepend(Token(kind, val, line), Lex(s[n..], line))
      case Unterminated => Err(UnterminatedString(line))
      case Unexpected => Err(UnexpectedCharacter(line, s[0]))
  }

  // ---------------------------------------------------------------- the tokenizer

  lemma {:induction false} RunFrom(p: char -> bool, s: string, n: nat)
    requires n <= |s| && (forall i :: 0 <= i < n ==> p(s[i])) && (n == |s| || !p(s[n]))
    ensures Run(p, s) == n
  {
    if n > 0 {
      RunFrom(p, s[1..], n - 1);
    }
  }

  /** Moves past the bytes that satisfy p. */
  method Scan(p: char -> bool, src: string, i: nat) returns (j: nat)
    requires i <= |src|
    ensures j == i + Run(p, src[i..])
  {
    j := i;
    while j < |src| && p(src[j])
      invariant i <= j <= |src|
      invariant forall k :: i <= k < j ==> p(src[k])
    {
      j := j + 1;
    }
    RunFrom(p, src[i..], j - i);
  }

  lemma {:induction false} CloseQuoteShift(src: string, i: nat, j: nat)
    requires i <= j && i <= |src|
    ensures CloseQuote(src[i..], j - i) == match CloseQuote(src, j) case None => None case Some(k) => Some(k - i)
    decreases |src| + 1 - j
  {
    if j < |src| && src[j] != '"' {
      if src[j] == '\\' {
        if j + 2 <= |src| {
          CloseQuoteShift(src, i, j + 2);
        }
      } else {
        CloseQuoteShift(src, i, j + 1);
      }
    }
  }

  method ScanString(src: string, i: nat) returns (j: nat)
    requires i < |src|
    ensures match CloseQuote(src[i..], 1)
      case None => j >= |src|
      case Some(k) => j == i + k && j < |src|
  {
    j := i + 1;
    while j < |src| && src[j] != '"'
      invariant i < j <= |src| + 1
      invariant CloseQuote(src, i + 1) == if j <= |src| then CloseQuote(src, j) else None
      decreases |src| + 1 - j
    {
      if src[j] == '\\' {
        j := j + 1;
      }
      j := j + 1;
    }
    CloseQuoteShift(src, i, i + 1);
  }

  function Continue(before: seq<Token>, r: Result<seq<Token>, LexError>): Result<seq<Token>, LexError> {
    if r.Ok? then Ok(before + r.value) else r
  }

  lemma ContinuePrepend(before: seq<Token>, t: Token, r: Result<seq<Token>, LexError>)
    ensures Continue(before, Prepend(t, r)) == Continue(before + [t], r)
    ensures Continue([], r) == r
  {
    if r.Ok? {
      assert before + ([t] + r.value) == (before + [t]) + r.value;
      assert [] + r.value == r.value;
    }
  }

  /** The tokens so far, followed by those of the rest of the source. */
  ghost function Total(tokens: seq<Token>, rest: string, line: nat): Result<seq<Token>, LexError> {
    Continue(tokens, Lex(rest, line))
  }

  lemma LexSkip(tokens: seq<Token>, rest: string, line: nat)
    requires rest != "" && Front(rest).Skip?
    ensures var f := Front(rest);
      Total(tokens, rest, line) == Total(tokens, rest[f.size..], if f.newline then line + 1 else line)
  {
  }

  lemma LexTake(tokens: seq<Token>, rest: string, line: nat)
    requires rest != "" && Front(rest).Take?
    ensures var f := Front(rest);
      Total(tokens, rest, line) == Total(tokens + [Token(f.kind, f.val, line)], rest[f.size..], line)
  {
    var f := Front(rest);
    ContinuePrepend(tokens, Token(f.kind, f.val, line), Lex(rest[f.size..], line));
  }

  method ScanNumber(src: string, i: nat) returns (j: nat)
    requires i < |src| && StartsNumber(src[i..])
    ensures i < j <= |src|
    ensures var from := if src[i] == '-' then 1 else 0; j - i == from + Run(IsNumberCont, src[i..][from..])
    ensures src[i..][..j - i] == src[i..j]
  {
    j := if src[i] == '-' then i + 1 else i;
    assert src[i..][j - i..] == src[j..];
    j := Scan(IsNumberCont, src, j);
  }

  /** One round of the tokenizer: what is found at src[i], by moving a second index j past it. */
  method Next(src: string, i: nat) returns (f: Lexed)
    requires i < |src|
    ensures f == Front(src[i..])
  {
    var ch := src[i];
    ghost var s := src[i..];
    assert s[0] == ch && |s| == |src| - i && (|s| > 1 ==> s[1] == src[i + 1]);
    if ch == '\n' {
      return Skip(1, true);
    } else if ch == '\r' {
      return Skip(1, false);
    } else if ch == ' ' || ch == '\t' {
      return Skip(1, false);
    } else if ch == '#' {
      var j := Scan(NotNewline, src, i);
      return Skip(j - i, false);
    } else if ch == '{' {
      return Take(LBrace, "{", 1);
    } else if ch == '}' {
      return Take(RBrace, "}", 1);
    } else if ch == ':' {
      return Take(Colon, ":", 1);
    } else if ch == '!' && (i + 1 >= |src| || IsBlank(src[i + 1])) {
      return Take(Bang, "!", 1);
    } else if ch == '$' {
      return Take(Dollar, "$", 1);
    } else if ch == '"' {
      var j := ScanString(src, i);
      if j >= |src| {
        return Unterminated;
      }
      assert s[1..j - i] == src[i + 1..j];
      return Take(Str, src[i + 1..j], j + 1 - i);
    } else {
      f := NextWord(src, i);
    }
  }

  predicate IsPunctuation(c: char) {
    IsBlank(c) || c == '#' || c == '{' || c == '}' || c == ':' || c == '$' || c == '"'
  }

  /** The arms of identifiers, those that start with an exclamation mark included, and of numbers. */
  method NextWord(src: string, i: nat) returns (f: Lexed)
    requires i < |src| && !IsPunctuation(src[i])
    requires src[i] == '!' ==> i + 1 < |src| && !IsBlank(src[i + 1])
    ensures f == Front(src[i..])
  {
    var ch := src[i];
    ghost var s := src[i..];
    assert s[0] == ch && |s| == |src| - i && (|s| > 1 ==> s[1] == src[i + 1]);
    if ch == '!' {
      var j := Scan(IsIdentCont, src, i);
      assert s[..j - i] == src[i..j];
      return Take(Ident, src[i..j], j - i);
    } else if IsDigit(ch) || (ch == '-' && i + 1 < |src| && IsDigit(src[i + 1])) {
      var j := ScanNumber(src, i);
      return Take(Number, src[i..j], j - i);
    } else if IsIdentStart(ch) {
      var j := Scan(IsIdentCont, src, i);
      assert s[..j - i] == src[i..j];
      return Take(Ident, src[i..j], j - i);
    } else {
      return Unexpected;
    }
  }

  method Tokenize(src: string) returns (r: Result<seq<Token>, LexError>)
    ensures r == Lex(src, 1)
  {
    var tokens: seq<Token>, line, i := [], 1, 0;
    ghost var rest := src;
    ContinuePrepend([], Token(Eof, "", 0), Lex(src, 1));
    while i < |src|
      invariant i <= |src| && rest == src[i..]
      invariant Total(tokens, rest, line) == Lex(src, 1)
      decreases |src| - i
    {
      var f := Next(src, i);
      match f {
        case Skip(size, newline) =>
          LexSkip(tokens, rest, line);
          rest := rest[size..];
          line := if newline then line + 1 else line;
          i := i + size;
        case Take(kind, val, size) =>
          LexTake(tokens, rest, line);
          rest := rest[size..];
          tokens := tokens + [Token(kind, val, line)];
          i := i + size;
        case Unterminated =>
          return Err(UnterminatedString(line));
        case Unexpected =>
          return Err(UnexpectedCharacter(line, src[i]));
      }
    }
    return Ok(tokens + [Token(Eof, "", line)]);
  }
}
