/** What the error of a condition text points at. */
module ConditionErrors {
  import opened Common
  import opened Lexer
  import opened Expression

  // ---- Texts that are not tokens ----

  /** Characters that can begin a token together with what follows them. */
  predicate Begins(s: string)
    requires s != []
  {
    var c := s[0];
    || IsSpace(c) || IsLetter(c) || IsDigit(c) || c in {'_', '"', '\'', '!', '<', '>'}
    || (|s| > 1 && c in {'=', '&', '|'} && s[1] == c)
    || (|s| > 1 && c == '-' && IsDigit(s[1]))
  }

  /** Nothing can be read at the start of `s`: a quote that is never closed, a number with two
      points, or a character that begins no token. */
  ghost predicate Blames(s: string, e: ParseError) {
    && s != []
    && match e
       case UnterminatedString => IsQuote(s[0]) && s[0] !in s[1..]
       case InvalidNumber(w) =>
         && NumberText(w) && w <= s && Ends(InNumber, s[|w|..])
         && exists i, j :: 0 <= i < j < |w| && w[i] == '.' && w[j] == '.'
       case UnexpectedCharacter(c) => s[0] == c && !Begins(s)
       case _ => false
  }

  /** Some tokens are written out, and then nothing can be read. */
  ghost predicate Stuck(text: string, e: ParseError)
    decreases |text|
  {
    && text != []
    && if IsSpace(text[0]) then Stuck(text[1..], e)
       else
         || Blames(text, e)
         || exists n, t ::
              0 < n <= |text| && Spells(text[..n], t) && Separates(t, text[n..]) && Stuck(text[n..], e)
  }

  lemma {:induction false} DotsSeen(s: string)
    ensures Dots(s) > 0 <==> '.' in s
    ensures Dots(s) > 1 <==> exists i, j :: 0 <= i < j < |s| && s[i] == '.' && s[j] == '.'
  {
    if s != [] {
      var tail := s[1..];
      DotsSeen(tail);
      if i, j :| 0 <= i < j < |tail| && tail[i] == '.' && tail[j] == '.' {
        assert s[i + 1] == '.' && s[j + 1] == '.';
      }
      if j :| 0 <= j < |tail| && tail[j] == '.' {
        assert s[j + 1] == '.';
      }
      if i, j :| 0 <= i < j < |s| && s[i] == '.' && s[j] == '.' {
        assert tail[j - 1] == '.';
        assert i > 0 ==> tail[i - 1] == '.';
      }
    }
  }

  /** A number fails to be read exactly when it has two points. */
  lemma NumberFails(w: string)
    requires NumberText(w)
    ensures ParseNumber(w) == None <==> exists i, j :: 0 <= i < j < |w| && w[i] == '.' && w[j] == '.'
  {
    var body := if w[0] == '-' then w[1..] else w;
    DotsSeen(body);
    DotsSeen(w);
    assert Dots(w) == Dots(body);
  }

  lemma FailBlames(s: string, e: ParseError)
    requires s != [] && Next(s) == Fail(e)
    ensures Blames(s, e)
  {
    if IsDigit(s[0]) {
      NumberFails(s[..Span(InNumber, s)]);
    } else if s[0] == '-' && |s| > 1 && IsDigit(s[1]) {
      NumberFails(s[..1 + Span(InNumber, s[1..])]);
    }
  }

  lemma BlamesFail(s: string, e: ParseError)
    requires Blames(s, e)
    ensures Next(s) == Fail(e)
  {
    if e.InvalidNumber? {
      NumberBlamed(s, e.text);
    } else if e.UnterminatedString? {
      assert forall i :: 0 <= i < |s| - 1 ==> s[1..][i] in s[1..];
    }
  }

  lemma NumberBlamed(s: string, w: string)
    requires s != [] && Blames(s, InvalidNumber(w))
    ensures Next(s) == Fail(InvalidNumber(w))
  {
    hide ParseNumber, Span, Blames, Lexer.Number, AllOf;
    NumberAhead(s, w);
    var sign := if w[0] == '-' then 1 else 0;
    SpanAhead(s, w, sign);
    assert Lexer.Number(s, sign) == Fail(InvalidNumber(w)) by { NumberTold(s, w, sign); }
    assert s[0] == w[0] && (sign == 1 ==> s[1] == w[1..][0]);
  }

  lemma NumberTold(s: string, w: string, sign: nat)
    requires sign <= |w| && w <= s && sign + Span(InNumber, s[sign..]) == |w| && ParseNumber(w) == None
    ensures Lexer.Number(s, sign) == Fail(InvalidNumber(w))
  {
    hide ParseNumber, Span;
    assert s[..|w|] == w;
  }

  lemma SpanAhead(s: string, w: string, sign: nat)
    requires sign <= |w| && AllOf(InNumber, w[sign..]) && w <= s && Ends(InNumber, s[|w|..])
    ensures sign + Span(InNumber, s[sign..]) == |w|
  {
    hide Span, AllOf;
    assert s[sign..] == w[sign..] + s[|w|..];
    SpanOf(InNumber, w[sign..], s[|w|..]);
  }

  lemma NumberAhead(s: string, w: string)
    requires s != [] && Blames(s, InvalidNumber(w))
    ensures NumberText(w) && w <= s && Ends(InNumber, s[|w|..]) && ParseNumber(w) == None
    ensures AllOf(InNumber, w[if w[0] == '-' then 1 else 0..])
  {
    NumberFails(w);
    hide ParseNumber;
    assert w[0..] == w;
  }

  lemma {:induction false} LexSticks(text: string, e: ParseError)
    requires Lex(text) == Err(e)
    ensures Stuck(text, e)
    decreases |text|
  {
    hide Next, Spells, Separates, Blames;
    NextBlank(text);
    match Next(text) {
      case Blank => LexSticks(text[1..], e);
      case Fail(_) => FailBlames(text, e);
      case Tok(t, n) =>
        NextSpells(text);
        LexSticks(text[n..], e);
    }
  }

  lemma {:induction false} StuckLexes(text: string, e: ParseError)
    requires Stuck(text, e)
    ensures Lex(text) == Err(e)
    decreases |text|
  {
    hide Next, Spells, Separates, Blames;
    NextBlank(text);
    if IsSpace(text[0]) {
      StuckLexes(text[1..], e);
    } else if Blames(text, e) {
      BlamesFail(text, e);
    } else {
      var n, t :| 0 < n <= |text| && Spells(text[..n], t) && Separates(t, text[n..]) && Stuck(text[n..], e);
      SpelledRead(text[..n], t, text[n..]);
      assert text[..n] + text[n..] == text;
      StuckLexes(text[n..], e);
    }
  }

  /** The tokenizer fails with an error exactly when, after some tokens, that is what is wrong. */
  lemma LexErrorIffStuck(text: string, e: ParseError)
    ensures Lex(text) == Err(e) <==> Stuck(text, e)
  {
    if Lex(text) == Err(e) {
      LexSticks(text, e);
    }
    if Stuck(text, e) {
      StuckLexes(text, e);
    }
  }

  // ---- Tokens that are not an expression ----

  /** Tokens after which an operand must come. */
  predicate Joins(t: Token) { t == Not || t == And || t == Or || ComparisonOf(t).Some? }

  predicate IsOperand(t: Token) { t.Ident? || t.Str? || t.Num? || t.BoolLit? || t.NullLit? }

  /** At position `i`, at the start or after a token that needs an operand, there is none. */
  ghost predicate Missing(ts: seq<Token>, i: nat, e: ParseError) {
    && i <= |ts| && (i == 0 || Joins(ts[i - 1]))
    && if i == |ts| then e == UnexpectedEnd else !IsOperand(ts[i]) && e == ExpectedValue(ts[i])
  }

  ghost predicate MissingFrom(ts: seq<Token>, from: nat, e: ParseError) { exists i :: from <= i && Missing(ts, i, e) }

  /** What is missing in a tail is missing in the whole, if the tail follows a joining token or
      the gap is inside it. */
  lemma MissingInTail(front: seq<Token>, tail: seq<Token>, from: nat, e: ParseError)
    requires MissingFrom(tail, from, e)
    requires from > 0 || (front != [] && Joins(front[|front| - 1]))
    ensures MissingFrom(front + tail, |front| + from, e)
  {
    hide IsOperand;
    var i :| from <= i && Missing(tail, i, e);
    assert Missing(front + tail, |front| + i, e) by {
      assert i < |tail| ==> (front + tail)[|front| + i] == tail[i];
      assert |front| + i > 0 ==> (front + tail)[|front| + i - 1] == if i > 0 then tail[i - 1] else front[|front| - 1];
    }
  }

  lemma ComparisonMissing(ts: seq<Token>)
    requires TreeComparison(ts).Err?
    ensures MissingFrom(ts, 0, TreeComparison(ts).error)
  {
    var e := TreeComparison(ts).error;
    if TreeOperand(ts).Err? {
      assert Missing(ts, 0, e);
    } else {
      assert Missing(ts, 2, e);
    }
  }

  lemma {:induction false} NegationMissing(ts: seq<Token>)
    requires TreeNegation(ts).Err?
    ensures MissingFrom(ts, 0, TreeNegation(ts).error)
  {
    hide TreeComparison, MissingFrom, Joins;
    if ts != [] && ts[0] == Not {
      NegationMissing(ts[1..]);
      assert Joins(Not) by { JoiningTokens(); }
      MissingInTail([Not], ts[1..], 0, TreeNegation(ts).error);
      assert [Not] + ts[1..] == ts;
      MissingSooner(ts, 1, TreeNegation(ts).error);
    } else {
      ComparisonMissing(ts);
    }
  }

  lemma JoiningTokens()
    ensures Joins(Not) && Joins(And) && Joins(Or)
  {
  }

  lemma MissingSooner(ts: seq<Token>, from: nat, e: ParseError)
    requires MissingFrom(ts, from, e)
    ensures MissingFrom(ts, 0, e)
  {
  }

  lemma {:induction false} AndLoopMissing(acc: Conjunction, ts: seq<Token>)
    requires TreeAndLoop(acc, ts).Err?
    ensures MissingFrom(ts, 1, TreeAndLoop(acc, ts).error)
    decreases |ts|
  {
    hide TreeNegation, MissingFrom, Joins, NegationTokens;
    var e := TreeAndLoop(acc, ts).error;
    JoiningTokens();
    assert ts == [And] + ts[1..];
    match TreeNegation(ts[1..]) {
      case Err(_) =>
        NegationMissing(ts[1..]);
        MissingInTail([And], ts[1..], 0, e);
      case Ok((x, r)) =>
        NegationUnparses(ts[1..]);
        AndLoopMissing(acc + [x], r);
        MissingInTail([And] + NegationTokens(x), r, 1, e);
        assert [And] + NegationTokens(x) + r == ts;
        MissingAfterOne(ts, |[And] + NegationTokens(x)| + 1, e);
    }
  }

  lemma MissingAfterOne(ts: seq<Token>, from: nat, e: ParseError)
    requires MissingFrom(ts, from, e) && from >= 1
    ensures MissingFrom(ts, 1, e)
  {
  }

  lemma ConjunctionMissing(ts: seq<Token>)
    requires TreeConjunction(ts).Err?
    ensures MissingFrom(ts, 0, TreeConjunction(ts).error)
  {
    hide TreeNegation, TreeAndLoop, MissingFrom, NegationTokens;
    match TreeNegation(ts) {
      case Err(_) => NegationMissing(ts);
      case Ok((x, r)) =>
        NegationUnparses(ts);
        AndLoopMissing([x], r);
        MissingInTail(NegationTokens(x), r, 1, TreeConjunction(ts).error);
        MissingSooner(ts, |NegationTokens(x)| + 1, TreeConjunction(ts).error);
    }
  }

  lemma {:induction false} OrLoopMissing(acc: Disjunction, ts: seq<Token>)
    requires (forall i :: 0 <= i < |acc| ==> acc[i] != []) && TreeOrLoop(acc, ts).Err?
    ensures MissingFrom(ts, 1, TreeOrLoop(acc, ts).error)
    decreases |ts|
  {
    hide TreeConjunction, MissingFrom, Joins, ConjunctionTokens;
    var e := TreeOrLoop(acc, ts).error;
    JoiningTokens();
    assert ts == [Or] + ts[1..];
    match TreeConjunction(ts[1..]) {
      case Err(_) =>
        ConjunctionMissing(ts[1..]);
        MissingInTail([Or], ts[1..], 0, e);
      case Ok((c, r)) =>
        ConjunctionUnparses(ts[1..]);
        OrLoopMissing(acc + [c], r);
        MissingInTail([Or] + ConjunctionTokens(c), r, 1, e);
        assert [Or] + ConjunctionTokens(c) + r == ts;
        MissingAfterOne(ts, |[Or] + ConjunctionTokens(c)| + 1, e);
    }
  }

  lemma DisjunctionMissing(ts: seq<Token>)
    requires TreeDisjunction(ts).Err?
    ensures MissingFrom(ts, 0, TreeDisjunction(ts).error)
  {
    hide TreeConjunction, TreeOrLoop, MissingFrom, ConjunctionTokens;
    match TreeConjunction(ts) {
      case Err(_) => ConjunctionMissing(ts);
      case Ok((c, r)) =>
        ConjunctionUnparses(ts);
        OrLoopMissing([c], r);
        MissingInTail(ConjunctionTokens(c), r, 1, TreeDisjunction(ts).error);
        MissingSooner(ts, |ConjunctionTokens(c)| + 1, TreeDisjunction(ts).error);
    }
  }

  /** The written tokens begin with an expression that `t` follows. */
  ghost predicate Leftover(ts: seq<Token>, t: Token) {
    exists d, rest :: WellFormed(d) && ts == DisjunctionTokens(d) + [t] + rest
  }

  /** What every error means: nothing written, text that is no token, a token left over after a
      whole expression, or an operand missing at the start or after an operator. */
  lemma EvaluateErrors(text: string, data: Json)
    requires Evaluate(text, data).Err?
    ensures var e := Evaluate(text, data).error;
      || (e == EmptyExpression && Writes(text, []))
      || Stuck(text, e)
      || exists ts ::
           && ts != [] && Writes(text, ts)
           && if e.UnexpectedToken? then Leftover(ts, e.token) else MissingFrom(ts, 0, e)
  {
    hide Lex, OrValue, TreeDisjunction, Writes, Stuck, EvalDisjunction, MissingFrom, DisjunctionTokens, WellFormed;
    var e := Evaluate(text, data).error;
    match Lex(text) {
      case Err(_) => LexErrorIffStuck(text, e);
      case Ok(ts) =>
        LexIffWrites(text, ts);
        if ts != [] {
          FusedIsEvalOfParse(ts, data);
          if TreeDisjunction(ts).Err? {
            DisjunctionMissing(ts);
            MissingIsNoLeftover(ts, e);
          } else {
            DisjunctionUnparses(ts);
            var (d, rest) := TreeDisjunction(ts).value;
            assert ts == DisjunctionTokens(d) + [rest[0]] + rest[1..];
            assert Leftover(ts, e.token);
          }
        }
    }
  }

  lemma MissingIsNoLeftover(ts: seq<Token>, e: ParseError)
    requires MissingFrom(ts, 0, e)
    ensures e == UnexpectedEnd || e.ExpectedValue?
  {
  }

  /** A token that cannot continue the expression before it is named by the error. */
  lemma LeftoverNamed(text: string, d: Disjunction, t: Token, rest: seq<Token>, data: Json)
    requires WellFormed(d) && Writes(text, DisjunctionTokens(d) + [t] + rest) && EndsDisjunction([t])
    ensures Evaluate(text, data) == Err(UnexpectedToken(t))
  {
    hide Lex, OrValue, TreeDisjunction, Writes, EvalDisjunction, DisjunctionTokens;
    var ts := DisjunctionTokens(d) + [t] + rest;
    LexIffWrites(text, ts);
    assert ts == DisjunctionTokens(d) + ([t] + rest);
    assert EndsDisjunction([t] + rest);
    DisjunctionParses(d, [t] + rest);
    FusedIsEvalOfParse(ts, data);
  }
}
