/** The tokenizer of the edge-condition language, against a declarative notion of spelling. */
module Lexer {
  import opened Common

  datatype Token =
    | Ident(path: string) | Str(s: string) | Num(n: real) | BoolLit(b: bool) | NullLit
    | Eq | Ne | Gt | Lt | Ge | Le
    | And | Or | Not

  datatype ParseError =
    | EmptyExpression
    | UnexpectedToken(token: Token)
    | UnterminatedString
    | InvalidNumber(text: string)
    | UnexpectedCharacter(c: char)
    | UnexpectedEnd
    | ExpectedValue(token: Token)

  datatype Result<+T> = Ok(value: T) | Err(error: ParseError)

  // ---- Characters and runs of characters ----

  predicate IsDigit(c: char) { '0' <= c <= '9' }
  predicate IsLetter(c: char) { 'a' <= c <= 'z' || 'A' <= c <= 'Z' }
  predicate IsSpace(c: char) { c == ' ' || c == '\t' || c == '\r' || c == '\n' }

  datatype Class = Until(quote: char) | InNumber | InIdent {
    predicate Has(c: char) {
      match this
      case Until(q) => c != q
      case InNumber => IsDigit(c) || c == '.'
      case InIdent => IsLetter(c) || IsDigit(c) || c == '_' || c == '.'
    }
  }

  /** How many leading characters belong to the class. */
  function Span(k: Class, s: string): (n: nat)
    ensures n <= |s|
    ensures forall i :: 0 <= i < n ==> k.Has(s[i])
    ensures n < |s| ==> !k.Has(s[n])
  {
    if s != [] && k.Has(s[0]) then 1 + Span(k, s[1..]) else 0
  }

  predicate AllOf(k: Class, s: string) { forall i :: 0 <= i < |s| ==> k.Has(s[i]) }

  /** The next character does not continue a run of the class. */
  predicate Ends(k: Class, rest: string) { rest == [] || !k.Has(rest[0]) }

  lemma SpanOf(k: Class, s: string, rest: string)
    requires AllOf(k, s) && Ends(k, rest)
    ensures Span(k, s + rest) == |s|
  {
    assert forall i :: 0 <= i < |s| ==> (s + rest)[i] == s[i];
    assert rest != [] ==> (s + rest)[|s|] == rest[0];
  }

  // ---- Numbers ----

  function Dots(s: string): nat {
    if s == [] then 0 else (if s[0] == '.' then 1 else 0) + Dots(s[1..])
  }

  function Mantissa(s: string): nat {
    if s == [] then 0
    else
      var c := s[|s| - 1];
      if IsDigit(c) then 10 * Mantissa(s[..|s| - 1]) + (c as int - '0' as int) else Mantissa(s[..|s| - 1])
  }

  function Scale(s: string): nat {
    if s == [] then 1 else if s[0] == '.' then Pow10(|s| - 1) else Scale(s[1..])
  }

  function Pow10(n: nat): (r: nat) ensures r > 0 { if n == 0 then 1 else 10 * Pow10(n - 1) }

  lemma ScalePositive(s: string) ensures Scale(s) > 0 {}

  /** Decimal text to its exact value; a second dot makes the text invalid. */
  function ParseNumber(text: string): Option<real> {
    var negative := text != [] && text[0] == '-';
    var body := if negative then text[1..] else text;
    if Dots(body) > 1 then None
    else
      ScalePositive(body);
      var v := Mantissa(body) as real / Scale(body) as real;
      Some(if negative then -v else v)
  }

  predicate NumberBody(s: string) { s != [] && IsDigit(s[0]) && AllOf(InNumber, s) }

  predicate NumberText(s: string) {
    NumberBody(s) || (s != [] && s[0] == '-' && NumberBody(s[1..]))
  }

  predicate IdentText(s: string) { s != [] && (IsLetter(s[0]) || s[0] == '_') && AllOf(InIdent, s) }

  function Word(s: string): Token {
    if s == "true" then BoolLit(true)
    else if s == "false" then BoolLit(false)
    else if s == "null" then NullLit
    else Ident(s)
  }

  // ---- One step of the tokenizer ----

  datatype Lexeme = Blank | Tok(token: Token, len: nat) | Fail(error: ParseError)

  /** A number literal with `sign` characters of sign. */
  function Number(s: string, sign: nat): (x: Lexeme)
    requires sign <= |s|
    ensures x.Tok? ==> x.len <= |s|
  {
    var n := sign + Span(InNumber, s[sign..]);
    match ParseNumber(s[..n])
    case Some(v) => Tok(Num(v), n)
    case None => Fail(InvalidNumber(s[..n]))
  }

  /** A string literal, `s` being what follows its opening quote. */
  function Quoted(quote: char, s: string): (x: Lexeme)
    ensures x.Tok? ==> 0 < x.len <= |s| + 1
  {
    var n := Span(Until(quote), s);
    if n == |s| then Fail(UnterminatedString) else Tok(Str(s[..n]), n + 2)
  }

  /** The operator a character starts, given the character after it. */
  function Operator(c: char, c1: Option<char>): (t: Option<Token>)
    ensures t.Some? && OperatorLength(t.value) == 2 ==> c1.Some?
  {
    if c == '=' && c1 == Some('=') then Some(Eq)
    else if c == '!' then Some(if c1 == Some('=') then Ne else Not)
    else if c == '>' then Some(if c1 == Some('=') then Ge else Gt)
    else if c == '<' then Some(if c1 == Some('=') then Le else Lt)
    else if c == '&' && c1 == Some('&') then Some(And)
    else if c == '|' && c1 == Some('|') then Some(Or)
    else None
  }

  function OperatorLength(t: Token): nat { if t.Not? || t.Gt? || t.Lt? then 1 else 2 }

  /** What the text starts with. */
  function Next(s: string): (x: Lexeme)
    requires s != []
    ensures x.Tok? ==> 0 < x.len <= |s|
  {
    var c := s[0];
    var c1 := if |s| > 1 then Some(s[1]) else None;
    if IsSpace(c) then Blank
    else if Operator(c, c1).Some? then
      var t := Operator(c, c1).value;
      Tok(t, OperatorLength(t))
    else if c == '"' || c == '\'' then
      Quoted(c, s[1..])
    else if IsDigit(c) then Number(s, 0)
    else if c == '-' && |s| > 1 && IsDigit(s[1]) then Number(s, 1)
    else if IsLetter(c) || c == '_' then
      var n := Span(InIdent, s);
      Tok(Word(s[..n]), n)
    else Fail(UnexpectedCharacter(c))
  }

  function Lex(s: string): Result<seq<Token>> {
    if s == [] then Ok([])
    else
      match Next(s)
      case Blank => Lex(s[1..])
      case Fail(e) => Err(e)
      case Tok(t, n) =>
        match Lex(s[n..])
        case Ok(ts) => Ok([t] + ts)
        case Err(e) => Err(e)
  }

  // ---- The tokenizer ----

  function Prepended(tokens: seq<Token>, r: Result<seq<Token>>): Result<seq<Token>> {
    match r case Ok(ts) => Ok(tokens + ts) case Err(e) => Err(e)
  }

  /** The tokens still to come from position `i` on. */
  function LexFrom(input: string, i: nat): Result<seq<Token>>
    requires i <= |input|
  {
    Lex(input[i..])
  }

  /** What is left to do once `x` has been read at position `i`. */
  function After(input: string, i: nat, tokens: seq<Token>, x: Lexeme): Result<seq<Token>>
    requires i < |input| && (x.Tok? ==> i + x.len <= |input|)
  {
    match x
    case Blank => Prepended(tokens, LexFrom(input, i + 1))
    case Fail(e) => Err(e)
    case Tok(t, n) => Prepended(tokens + [t], LexFrom(input, i + n))
  }

  lemma LexStep(input: string, i: nat, tokens: seq<Token>)
    requires i < |input|
    ensures Prepended(tokens, LexFrom(input, i)) == After(input, i, tokens, Next(input[i..]))
  {
    hide Next;
    var s := input[i..];
    assert s[1..] == input[i + 1..];
    match Next(s) {
      case Blank =>
      case Fail(_) =>
      case Tok(t, n) =>
        assert s[n..] == input[i + n..];
        match Lex(s[n..]) {
          case Ok(ts) => assert tokens + ([t] + ts) == (tokens + [t]) + ts;
          case Err(_) =>
        }
    }
  }

  lemma LexEnds(input: string, tokens: seq<Token>)
    ensures Prepended([], LexFrom(input, 0)) == Lex(input)
    ensures Prepended(tokens, LexFrom(input, |input|)) == Ok(tokens)
  {
    assert input[0..] == input && input[|input|..] == [];
    match Lex(input) {
      case Ok(ts) => assert [] + ts == ts;
      case Err(_) =>
    }
    assert tokens + [] == tokens;
  }

  /** The inner loops: advance over a run of characters. */
  method Advance(k: Class, input: string, start: nat) returns (i: nat)
    requires start <= |input|
    ensures start <= i <= |input| && i - start == Span(k, input[start..])
  {
    i := start;
    while i < |input| && k.Has(input[i])
      invariant start <= i <= |input|
      invariant forall j :: start <= j < i ==> k.Has(input[j])
    {
      i := i + 1;
    }
    assert input[start..] == input[start..i] + input[i..];
    SpanOf(k, input[start..i], input[i..]);
  }

  method ReadQuoted(input: string, start: nat, quote: char) returns (x: Lexeme)
    requires start <= |input|
    ensures x == Quoted(quote, input[start..])
  {
    var end := Advance(Until(quote), input, start);
    if end == |input| {
      x := Fail(UnterminatedString);
    } else {
      assert input[start..][..end - start] == input[start..end];
      x := Tok(Str(input[start..end]), end + 2 - start);
    }
  }

  method ReadNumber(input: string, i: nat, sign: nat) returns (x: Lexeme)
    requires i + sign <= |input|
    ensures x == Number(input[i..], sign)
  {
    var end := Advance(InNumber, input, i + sign);
    assert input[i..][sign..] == input[i + sign..];
    assert input[i..][..end - i] == input[i..end];
    match ParseNumber(input[i..end]) {
      case None => x := Fail(InvalidNumber(input[i..end]));
      case Some(v) => x := Tok(Num(v), end - i);
    }
  }

  /** One round of the tokenizer's loop: the token or blank at position `i`. */
  method ReadLexeme(input: string, i: nat) returns (x: Lexeme)
    requires i < |input|
    ensures x == Next(input[i..])
  {
    assert input[i..][0] == input[i] && input[i..][1..] == input[i + 1..];
    hide Operator, Quoted, Number;
    var c := input[i];
    var c1 := if i + 1 < |input| then Some(input[i + 1]) else None;
    if IsSpace(c) {
      x := Blank;
    } else if Operator(c, c1).Some? {
      var t := Operator(c, c1).value;
      x := Tok(t, OperatorLength(t));
    } else if c == '"' || c == '\'' {
      x := ReadQuoted(input, i + 1, c);
    } else if IsDigit(c) || (c == '-' && c1.Some? && IsDigit(c1.value)) {
      x := ReadNumber(input, i, if c == '-' then 1 else 0);
    } else if IsLetter(c) || c == '_' {
      var end := Advance(InIdent, input, i);
      assert input[i..][..end - i] == input[i..end];
      x := Tok(Word(input[i..end]), end - i);
    } else {
      x := Fail(UnexpectedCharacter(c));
    }
  }

  method Tokenize(input: string) returns (r: Result<seq<Token>>)
    ensures r == Lex(input)
  {
    var tokens: seq<Token> := [];
    var i := 0;
    LexEnds(input, []);
    hide Next, Lex, LexFrom;
    while i < |input|
      invariant i <= |input|
      invariant Prepended(tokens, LexFrom(input, i)) == Lex(input)
    {
      var x := ReadLexeme(input, i);
      LexStep(input, i, tokens);
      match x {
        case Blank => i := i + 1;
        case Tok(t, n) => tokens, i := tokens + [t], i + n;
        case Fail(e) => return Err(e);
      }
    }
    LexEnds(input, tokens);
    r := Ok(tokens);
  }

  // ---- Spelling: what texts stand for a token sequence ----

  ghost predicate Spells(w: string, t: Token) {
    match t
    case Ident(p) => w == p && IdentText(p) && Word(p) == t
    case Str(s) => (w == ['"'] + s + ['"'] && '"' !in s) || (w == ['\''] + s + ['\''] && '\'' !in s)
    case Num(v) => NumberText(w) && ParseNumber(w) == Some(v)
    case BoolLit(b) => w == if b then "true" else "false"
    case NullLit => w == "null"
    case Eq => w == "=="
    case Ne => w == "!="
    case Gt => w == ">"
    case Lt => w == "<"
    case Ge => w == ">="
    case Le => w == "<="
    case And => w == "&&"
    case Or => w == "||"
    case Not => w == "!"
  }

  /** What may follow a token without being absorbed into it. */
  ghost predicate Separates(t: Token, rest: string) {
    match t
    case Ident(_) => Ends(InIdent, rest)
    case BoolLit(_) => Ends(InIdent, rest)
    case NullLit => Ends(InIdent, rest)
    case Num(_) => Ends(InNumber, rest)
    case Gt => rest == [] || rest[0] != '='
    case Lt => rest == [] || rest[0] != '='
    case Not => rest == [] || rest[0] != '='
    case _ => true
  }

  /** `text` writes out `ts`, with any blanks before, between and after. */
  ghost predicate Writes(text: string, ts: seq<Token>)
    decreases |text|
  {
    if text == [] then ts == []
    else if IsSpace(text[0]) then Writes(text[1..], ts)
    else
      && ts != []
      && exists n ::
           0 < n <= |text| && Spells(text[..n], ts[0]) && Separates(ts[0], text[n..]) && Writes(text[n..], ts[1..])
  }

  // ---- The tokenizer and the spelling relation agree ----

  predicate IsQuote(c: char) { c == '"' || c == '\'' }

  predicate Wordy(t: Token) { t.Ident? || t.BoolLit? || t.NullLit? }

  lemma QuotedSpells(text: string)
    requires text != [] && IsQuote(text[0]) && Next(text).Tok?
    ensures var Tok(t, n) := Next(text); t.Str? && Spells(text[..n], t)
  {
  }

  lemma NumberSpells(text: string)
    requires text != [] && (IsDigit(text[0]) || text[0] == '-') && Next(text).Tok?
    ensures var Tok(t, n) := Next(text); t.Num? && Spells(text[..n], t) && Separates(t, text[n..])
  {
  }

  lemma WordSpells(text: string)
    requires text != [] && (IsLetter(text[0]) || text[0] == '_')
    ensures Next(text).Tok?
    ensures var Tok(t, n) := Next(text); Wordy(t) && Spells(text[..n], t) && Separates(t, text[n..])
  {
  }

  lemma OperatorSpells(text: string)
    requires text != [] && Next(text).Tok?
    requires !IsQuote(text[0]) && !IsDigit(text[0]) && text[0] != '-' && !IsLetter(text[0]) && text[0] != '_'
    ensures var Tok(t, n) := Next(text); Spells(text[..n], t) && Separates(t, text[n..])
  {
  }

  lemma NextSpells(text: string)
    requires text != [] && Next(text).Tok?
    ensures var Tok(t, n) := Next(text); Spells(text[..n], t) && Separates(t, text[n..])
  {
    hide Next, Spells;
    if IsQuote(text[0]) {
      QuotedSpells(text);
    } else if IsDigit(text[0]) || text[0] == '-' {
      NumberSpells(text);
    } else if IsLetter(text[0]) || text[0] == '_' {
      WordSpells(text);
    } else {
      OperatorSpells(text);
    }
  }

  lemma QuotedRead(w: string, t: Token, rest: string)
    requires t.Str? && Spells(w, t)
    ensures Next(w + rest) == Tok(t, |w|)
  {
    var q := w[0];
    assert w == [q] + t.s + [q];
    assert (w + rest)[1..] == t.s + ([q] + rest);
    SpanOf(Until(q), t.s, [q] + rest);
    assert (t.s + ([q] + rest))[..|t.s|] == t.s;
  }

  lemma NumberRead(w: string, t: Token, rest: string)
    requires t.Num? && Spells(w, t) && Separates(t, rest)
    ensures Next(w + rest) == Tok(t, |w|)
  {
    hide ParseNumber, Span;
    assert (w + rest)[..|w|] == w && (w + rest)[0] == w[0];
    if w[0] == '-' {
      SpanOf(InNumber, w[1..], rest);
      assert (w + rest)[1..] == w[1..] + rest && (w + rest)[1] == w[1..][0];
    } else {
      SpanOf(InNumber, w, rest);
    }
  }

  lemma SpelledWord(w: string, t: Token)
    requires Wordy(t) && Spells(w, t)
    ensures IdentText(w) && Word(w) == t
  {
  }

  lemma WordRead(w: string, t: Token, rest: string)
    requires Wordy(t) && Spells(w, t) && Separates(t, rest)
    ensures Next(w + rest) == Tok(t, |w|)
  {
    SpelledWord(w, t);
    hide Spells, Word;
    SpanOf(InIdent, w, rest);
    assert (w + rest)[..|w|] == w;
    assert (w + rest)[0] == w[0];
  }

  lemma OperatorRead(w: string, t: Token, rest: string)
    requires !Wordy(t) && !t.Num? && !t.Str? && Spells(w, t) && Separates(t, rest)
    ensures Next(w + rest) == Tok(t, |w|)
  {
  }

  lemma SpelledRead(w: string, t: Token, rest: string)
    requires Spells(w, t) && Separates(t, rest)
    ensures w != [] && Next(w + rest) == Tok(t, |w|)
  {
    assert w != [];
    hide Next, Spells;
    if Wordy(t) {
      WordRead(w, t, rest);
    } else if t.Num? {
      NumberRead(w, t, rest);
    } else if t.Str? {
      QuotedRead(w, t, rest);
    } else {
      OperatorRead(w, t, rest);
    }
  }

  lemma {:induction false} LexWrites(text: string, ts: seq<Token>)
    requires Lex(text) == Ok(ts)
    ensures Writes(text, ts)
    decreases |text|
  {
    hide Next, Spells, Separates;
    if text != [] {
      assert Next(text).Blank? <==> IsSpace(text[0]) by { NextBlank(text); }
      match Next(text) {
        case Blank => LexWrites(text[1..], ts);
        case Tok(t, n) =>
          NextSpells(text);
          assert ts[0] == t && Lex(text[n..]) == Ok(ts[1..]);
          LexWrites(text[n..], ts[1..]);
      }
    }
  }

  lemma NextBlank(text: string)
    requires text != []
    ensures Next(text).Blank? <==> IsSpace(text[0])
  {
  }

  lemma {:induction false} WritesLex(text: string, ts: seq<Token>)
    requires Writes(text, ts)
    ensures Lex(text) == Ok(ts)
    decreases |text|
  {
    hide Next, Spells, Separates;
    if text != [] {
      NextBlank(text);
      if IsSpace(text[0]) {
        WritesLex(text[1..], ts);
      } else {
        var n :| 0 < n <= |text| && Spells(text[..n], ts[0]) && Separates(ts[0], text[n..]) &&
          Writes(text[n..], ts[1..]);
        SpelledRead(text[..n], ts[0], text[n..]);
        assert text[..n] + text[n..] == text;
        WritesLex(text[n..], ts[1..]);
        assert [ts[0]] + ts[1..] == ts;
      }
    }
  }

  /** The tokenizer returns these tokens exactly when the text writes them. */
  lemma LexIffWrites(text: string, ts: seq<Token>)
    ensures Lex(text) == Ok(ts) <==> Writes(text, ts)
  {
    if Lex(text) == Ok(ts) {
      LexWrites(text, ts);
    }
    if Writes(text, ts) {
      WritesLex(text, ts);
    }
  }

  /** The printed form: one spelling per token, each followed by a blank. */
  function Spaced(words: seq<string>): string {
    if words == [] then "" else words[0] + " " + Spaced(words[1..])
  }

  lemma {:induction false} SpacedWrites(words: seq<string>, ts: seq<Token>)
    requires |words| == |ts| && forall i :: 0 <= i < |ts| ==> Spells(words[i], ts[i])
    ensures Writes(Spaced(words), ts)
  {
    hide Spells, Next;
    if words != [] {
      var w, rest := words[0], " " + Spaced(words[1..]);
      SpacedWrites(words[1..], ts[1..]);
      assert rest[1..] == Spaced(words[1..]);
      assert Spells(words[0], ts[0]);
      SpelledRead(w, ts[0], rest);
      NextBlank(w + rest);
      assert Spaced(words) == w + rest;
      assert (w + rest)[..|w|] == w && (w + rest)[|w|..] == rest;
    }
  }
}
