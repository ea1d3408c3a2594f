/** What condition texts say, in terms of characters, fields and values alone. */
module Conditions {
  import opened Common
  import opened Lexer
  import opened Expression

  // ---- Names and numbers as written ----

  /** Which texts are words and which are number literals. */
  lemma Alphabet(w: string)
    ensures IdentText(w) <==>
      && w != [] && ('a' <= w[0] <= 'z' || 'A' <= w[0] <= 'Z' || w[0] == '_')
      && forall i :: 0 <= i < |w| ==>
           'a' <= w[i] <= 'z' || 'A' <= w[i] <= 'Z' || '0' <= w[i] <= '9' || w[i] == '_' || w[i] == '.'
    ensures NumberBody(w) <==>
      w != [] && '0' <= w[0] <= '9' && forall i :: 0 <= i < |w| ==> '0' <= w[i] <= '9' || w[i] == '.'
  {
  }

  predicate White(c: char) { c == ' ' || c == '\t' || c == '\r' || c == '\n' }

  /** Exactly the texts of spaces, tabs and line ends are empty conditions. */
  lemma EmptyTexts(text: string, data: Json)
    ensures Lex(text) == Ok([]) <==> forall i :: 0 <= i < |text| ==> White(text[i])
    ensures Lex(text) == Ok([]) ==> Evaluate(text, data) == Err(EmptyExpression)
  {
    hide Lex, Writes;
    LexIffWrites(text, []);
    BlanksWriteNothing(text);
  }

  lemma {:induction false} BlanksWriteNothing(text: string)
    ensures Writes(text, []) <==> forall i :: 0 <= i < |text| ==> White(text[i])
  {
    if text != [] {
      BlanksWriteNothing(text[1..]);
      assert forall i :: 1 <= i < |text| ==> text[i] == text[1..][i - 1];
    }
  }

  ghost predicate Digits(s: string) { forall i :: 0 <= i < |s| ==> '0' <= s[i] <= '9' }

  function DigitOf(c: char): int { c as int - '0' as int }

  lemma {:induction false} DotsConcat(a: string, b: string)
    ensures Dots(a + b) == Dots(a) + Dots(b)
  {
    if a == [] {
      assert a + b == b;
    } else {
      DotsConcat(a[1..], b);
      assert (a + b)[1..] == a[1..] + b;
    }
  }

  lemma {:induction false} NoDots(s: string)
    requires Digits(s)
    ensures Dots(s) == 0 && Scale(s) == 1
  {
    if s != [] {
      NoDots(s[1..]);
    }
  }

  lemma {:induction false} MantissaSkipsDot(a: string, b: string)
    ensures Mantissa(a + ['.'] + b) == Mantissa(a + b)
  {
    if b == [] {
      assert (a + ['.'])[..|a|] == a && a + ['.'] + b == a + ['.'] && a + b == a;
    } else {
      var front := b[..|b| - 1];
      MantissaSkipsDot(a, front);
      assert (a + ['.'] + b)[..|a + ['.'] + b| - 1] == a + ['.'] + front;
      assert (a + b)[..|a + b| - 1] == a + front;
    }
  }

  lemma {:induction false} ScaleAtDot(a: string, b: string)
    requires Digits(a)
    ensures Scale(a + ['.'] + b) == Pow10(|b|)
  {
    if a == [] {
      assert (a + ['.'] + b)[0] == '.';
    } else {
      ScaleAtDot(a[1..], b);
      assert (a + ['.'] + b)[1..] == a[1..] + ['.'] + b;
      assert a[0] != '.';
    }
  }

  lemma PlainLiteral(w: string)
    requires Digits(w) && w != []
    ensures ParseNumber(w) == Some(Mantissa(w) as real)
  {
    hide Mantissa, Dots, Scale;
    NoDots(w);
    assert w[0] != '-';
    assert Mantissa(w) as real / 1 as real == Mantissa(w) as real;
  }

  /** The value of a text of digits: each further digit multiplies by ten and adds. */
  lemma IntegerLiteral(w: string, d: char)
    requires Digits(w) && '0' <= d <= '9'
    ensures ParseNumber([d]) == Some(DigitOf(d) as real)
    ensures w != [] ==>
      ParseNumber(w).Some? && ParseNumber(w + [d]) == Some(10.0 * ParseNumber(w).value + DigitOf(d) as real)
  {
    hide ParseNumber;
    PlainLiteral([d]);
    assert [d][..0] == [] && Mantissa([]) == 0;
    if w != [] {
      PlainLiteral(w);
      PlainLiteral(w + [d]);
      assert (w + [d])[..|w|] == w;
    }
  }

  lemma OneDot(w: string, f: string)
    requires Digits(w) && Digits(f)
    ensures Dots(w + ['.'] + f) == 1 && Scale(w + ['.'] + f) == Pow10(|f|) && Mantissa(w + ['.'] + f) == Mantissa(w + f)
  {
    hide Mantissa, Scale;
    NoDots(w);
    NoDots(f);
    DotsConcat(w + ['.'], f);
    DotsConcat(w, ['.']);
    ScaleAtDot(w, f);
    MantissaSkipsDot(w, f);
  }

  /** A point at the end changes nothing, and moving it one place left divides by ten. */
  lemma DecimalLiteral(w: string, d: char, f: string)
    requires Digits(w) && w != [] && '0' <= d <= '9' && Digits(f)
    ensures ParseNumber(w + ['.']) == ParseNumber(w)
    ensures var whole, shifted := ParseNumber(w + [d] + ['.'] + f), ParseNumber(w + ['.'] + [d] + f);
      whole.Some? && shifted.Some? && whole.value == 10.0 * shifted.value
  {
    hide Mantissa, Dots;
    PlainLiteral(w);
    PointAtEnd(w);
    PointedLiteral(w + [d], f);
    PointedLiteral(w, [d] + f);
    assert w + [d] + ['.'] + f == (w + [d]) + ['.'] + f && w + ['.'] + [d] + f == w + ['.'] + ([d] + f);
    assert (w + [d]) + f == w + ([d] + f);
    Tenfold(Mantissa(w + [d] + f) as real, Pow10(|f|) as real);
  }

  lemma PointAtEnd(w: string)
    requires Digits(w) && w != []
    ensures ParseNumber(w + ['.']) == Some(Mantissa(w) as real)
  {
    assert w + ['.'] + [] == w + ['.'] && w + [] == w;
    OneDot(w, []);
    assert (w + ['.'])[0] != '-';
  }

  lemma PointedLiteral(w: string, f: string)
    requires Digits(w) && w != [] && Digits(f)
    ensures ParseNumber(w + ['.'] + f) == Some(Mantissa(w + f) as real / Pow10(|f|) as real)
  {
    OneDot(w, f);
    assert (w + ['.'] + f)[0] != '-';
  }

  lemma Tenfold(m: real, p: real)
    requires p > 0.0
    ensures m / p == 10.0 * (m / (10.0 * p))
  {
  }

  /** A leading minus negates; a second point makes the text no number. */
  lemma SignedLiteral(w: string)
    requires w != [] && '0' <= w[0] <= '9'
    ensures ParseNumber(w).Some? ==> ParseNumber(['-'] + w) == Some(-ParseNumber(w).value)
    ensures ParseNumber(w).None? ==> ParseNumber(['-'] + w) == None
    ensures ParseNumber(w).None? <==> Dots(w) >= 2
  {
    assert (['-'] + w)[1..] == w;
  }

  // ---- Fields ----

  /** The names with points between them. */
  function Joined(names: seq<string>): string
    requires names != []
  {
    if |names| == 1 then names[0] else names[0] + ['.'] + Joined(names[1..])
  }

  /** Going down from object to object by these names ends at `v`. */
  ghost predicate Leads(data: Json, names: seq<string>, v: Json)
    decreases names
  {
    if names == [] then v == data
    else data.Object? && names[0] in data.fields && Leads(data.fields[names[0]], names[1..], v)
  }

  /** The dotted path names this value in the data. */
  ghost predicate HasField(data: Json, path: string, v: Json) {
    exists names: seq<string> ::
      && names != [] && (forall i :: 0 <= i < |names| ==> '.' !in names[i])
      && Joined(names) == path && Leads(data, names, v)
  }

  lemma {:induction false} SegmentsWord(w: string)
    requires '.' !in w
    ensures Segments(w) == [w]
  {
    if w != [] {
      SegmentsWord(w[1..]);
      assert [w[0]] + w[1..] == w;
    }
  }

  lemma {:induction false} SegmentsSplit(w: string, rest: string)
    requires '.' !in w
    ensures Segments(w + ['.'] + rest) == [w] + Segments(rest)
  {
    var path := w + ['.'] + rest;
    if w == [] {
      assert path[0] == '.' && path[1..] == rest;
    } else {
      SegmentsSplit(w[1..], rest);
      assert path[1..] == w[1..] + ['.'] + rest && path[0] == w[0];
      assert [w[0]] + w[1..] == w;
      assert ([w[1..]] + Segments(rest))[1..] == Segments(rest);
    }
  }

  lemma {:induction false} SegmentsJoined(names: seq<string>)
    requires names != [] && forall i :: 0 <= i < |names| ==> '.' !in names[i]
    ensures Segments(Joined(names)) == names
  {
    hide Segments;
    if |names| == 1 {
      SegmentsWord(names[0]);
      assert [names[0]] == names;
    } else {
      SegmentsJoined(names[1..]);
      SegmentsSplit(names[0], Joined(names[1..]));
      assert [names[0]] + names[1..] == names;
    }
  }

  lemma {:induction false} JoinedSegments(path: string)
    ensures Joined(Segments(path)) == path && forall i :: 0 <= i < |Segments(path)| ==> '.' !in Segments(path)[i]
  {
    if path != [] {
      var rest := Segments(path[1..]);
      JoinedSegments(path[1..]);
      if path[0] == '.' {
        assert Segments(path) == [""] + rest && ([""] + rest)[1..] == rest;
        assert path == ['.'] + path[1..];
      } else {
        JoinedPrefixed(path[0], rest);
        assert path == [path[0]] + path[1..];
      }
    }
  }

  lemma JoinedPrefixed(c: char, names: seq<string>)
    requires names != []
    ensures Joined([[c] + names[0]] + names[1..]) == [c] + Joined(names)
  {
    assert ([[c] + names[0]] + names[1..])[1..] == names[1..];
  }

  lemma {:induction false} LookupLeads(data: Json, names: seq<string>, v: Json)
    ensures Lookup(data, names) == Some(v) <==> Leads(data, names, v)
    decreases names
  {
    if names != [] && data.Object? && names[0] in data.fields {
      LookupLeads(data.fields[names[0]], names[1..], v);
    }
  }

  /** Resolving a path finds exactly the field that the dotted path names. */
  lemma LookupIsField(data: Json, path: string, v: Json)
    ensures Lookup(data, Segments(path)) == Some(v) <==> HasField(data, path, v)
  {
    hide Segments, Lookup, Leads, Joined;
    if Lookup(data, Segments(path)) == Some(v) {
      JoinedSegments(path);
      LookupLeads(data, Segments(path), v);
    }
    if HasField(data, path, v) {
      var names: seq<string> :|
        && names != [] && (forall i :: 0 <= i < |names| ==> '.' !in names[i])
        && Joined(names) == path && Leads(data, names, v);
      SegmentsJoined(names);
      LookupLeads(data, names, v);
    }
  }

  // ---- Texts of one comparison ----

  /** The text writes just this comparison. */
  ghost predicate Says(text: string, c: Comparison) { Writes(text, DisjunctionTokens([[Leaf(c)]])) }

  function Symbol(op: CompOp): string {
    match op
    case OpEq => "==" case OpNe => "!=" case OpGt => ">" case OpLt => "<" case OpGe => ">=" case OpLe => "<="
  }

  /** A field name, an operator and a number, with spaces between, say that comparison. */
  lemma ComparisonText(name: string, op: CompOp, literal: string, n: real)
    requires IdentText(name) && name != "true" && name != "false" && name != "null"
    requires NumberText(literal) && ParseNumber(literal) == Some(n)
    ensures Says(Spaced([name, Symbol(op), literal]), Compared(Path(name), op, NumLit(n)))
  {
    hide Writes, Spaced;
    var words, tokens := [name, Symbol(op), literal], [Ident(name), OpToken(op), Num(n)];
    OneComparison(Compared(Path(name), op, NumLit(n)));
    assert Spells(name, Ident(name)) && Spells(Symbol(op), OpToken(op)) && Spells(literal, Num(n));
    SpacedWrites(words, tokens);
  }

  lemma OneComparison(c: Comparison)
    ensures DisjunctionTokens([[Leaf(c)]]) == NegationTokens(Leaf(c))
  {
    hide NegationTokens;
    var x := Leaf(c);
    assert [x][1..] == [] && [[x]][1..] == [];
    assert AndTail([]) == [] && OrTail([]) == [];
  }

  lemma SaysValue(text: string, c: Comparison, data: Json)
    requires Says(text, c)
    ensures Evaluate(text, data) == Ok(EvalNegation(Leaf(c), data).AsBool())
  {
    hide Writes, Evaluate, ParsesTo;
    var d: Disjunction := [[Leaf(c)]];
    ParsesToIffWritten(text, d);
    assert EvalDisjunction(d, data) == EvalConjunction(d[0], data) == EvalNegation(d[0][0], data);
    EvaluateMeansTree(text, data, EvalNegation(Leaf(c), data).AsBool());
  }

  lemma FieldValue(data: Json, path: string, v: Json)
    requires HasField(data, path, v)
    ensures EvalOperand(Path(path), data) == FromJson(v)
  {
    hide HasField, Segments, Lookup;
    LookupIsField(data, path, v);
  }

  /** Comparing a number in the data with a literal. */
  lemma NumberComparison(text: string, path: string, op: CompOp, n: real, data: Json, x: real)
    requires Says(text, Compared(Path(path), op, NumLit(n))) && HasField(data, path, Number(x))
    ensures var gap := 1.0 / 4503599627370496.0;
      Evaluate(text, data) ==
      match op
      case OpGt => Ok(x > n)
      case OpLt => Ok(x < n)
      case OpGe => Ok(x > n - gap)
      case OpLe => Ok(x < n + gap)
      case OpEq => Ok(n - gap < x < n + gap)
      case OpNe => Ok(!(n - gap < x < n + gap))
  {
    hide Says, Evaluate, HasField, Resolve;
    SaysValue(text, Compared(Path(path), op, NumLit(n)), data);
    FieldValue(data, path, Number(x));
  }

  /** The first position at which two texts differ decides, or the shorter comes first. */
  ghost predicate Before(s: string, t: string) {
    exists k: nat :: BeforeAt(s, t, k)
  }

  ghost predicate BeforeAt(s: string, t: string, k: nat) {
    k <= |s| && k < |t| && s[..k] == t[..k] && (k == |s| || s[k] < t[k])
  }

  lemma {:induction false} StringLessIsBefore(s: string, t: string)
    ensures StringLess(s, t) <==> Before(s, t)
  {
    if t == [] {
    } else if s == [] {
      assert BeforeAt(s, t, 0);
    } else if s[0] != t[0] {
      if s[0] < t[0] {
        assert BeforeAt(s, t, 0);
      }
      forall k: nat | k > 0 ensures !BeforeAt(s, t, k) {
        assert k <= |s| && k < |t| ==> s[..k][0] == s[0] && t[..k][0] == t[0];
      }
    } else {
      StringLessIsBefore(s[1..], t[1..]);
      BeforeShift(s, t);
    }
  }

  lemma BeforeShift(s: string, t: string)
    requires s != [] && t != [] && s[0] == t[0]
    ensures Before(s, t) <==> Before(s[1..], t[1..])
  {
    hide BeforeAt;
    forall k: nat ensures BeforeAt(s, t, k + 1) <==> BeforeAt(s[1..], t[1..], k) {
      BeforeAtShift(s, t, k);
    }
    NotAtStart(s, t);
    if k: nat :| BeforeAt(s, t, k) {
      assert BeforeAt(s[1..], t[1..], k - 1) by { BeforeAtShift(s, t, k - 1); }
    }
  }

  lemma NotAtStart(s: string, t: string)
    requires s != [] && t != [] && s[0] == t[0]
    ensures !BeforeAt(s, t, 0)
  {
  }

  lemma BeforeAtShift(s: string, t: string, k: nat)
    requires s != [] && t != [] && s[0] == t[0]
    ensures BeforeAt(s, t, k + 1) <==> BeforeAt(s[1..], t[1..], k)
  {
    if k + 1 <= |s| && k + 1 <= |t| {
      assert s[..k + 1] == [s[0]] + s[1..][..k] && t[..k + 1] == [t[0]] + t[1..][..k];
      assert s[1..][..k] == s[..k + 1][1..] && t[1..][..k] == t[..k + 1][1..];
    }
  }

  /** Comparing a text in the data with a literal. */
  lemma StringComparison(text: string, path: string, op: CompOp, t: string, data: Json, s: string)
    requires Says(text, Compared(Path(path), op, StrLit(t))) && HasField(data, path, String(s))
    ensures Evaluate(text, data) ==
      match op
      case OpGt => Ok(Before(t, s))
      case OpLt => Ok(Before(s, t))
      case OpGe => Ok(s == t || Before(t, s))
      case OpLe => Ok(s == t || Before(s, t))
      case OpEq => Ok(s == t)
      case OpNe => Ok(s != t)
  {
    hide Says, Evaluate, HasField, Resolve, Before, StringLess;
    SaysValue(text, Compared(Path(path), op, StrLit(t)), data);
    FieldValue(data, path, String(s));
    StringLessIsBefore(s, t);
    StringLessIsBefore(t, s);
    StringTrichotomy(s, t);
  }

  /** Truth values can only be equal or unequal. */
  lemma BoolComparison(text: string, path: string, op: CompOp, b: bool, data: Json, x: bool)
    requires Says(text, Compared(Path(path), op, Truth(b))) && HasField(data, path, Bool(x))
    ensures Evaluate(text, data) == Ok((op.OpEq? && x == b) || (op.OpNe? && x != b))
  {
    hide Says, Evaluate, HasField, Resolve;
    SaysValue(text, Compared(Path(path), op, Truth(b)), data);
    FieldValue(data, path, Bool(x));
  }

  /** The literal and the value are of the same kind of number, text or truth value. */
  predicate SameKind(o: Operand, v: Json) {
    (o.NumLit? && v.Number?) || (o.StrLit? && v.String?) || (o.Truth? && v.Bool?)
  }

  /** Values of different kinds, arrays and objects are neither equal, unequal nor ordered. */
  lemma MixedComparison(text: string, path: string, op: CompOp, o: Operand, data: Json, v: Json)
    requires Says(text, Compared(Path(path), op, o)) && HasField(data, path, v)
    requires !o.Path? && !o.Nothing? && v != Null && !SameKind(o, v)
    ensures Evaluate(text, data) == Ok(false)
  {
    hide Says, Evaluate, HasField, Resolve;
    SaysValue(text, Compared(Path(path), op, o), data);
    FieldValue(data, path, v);
  }

  /** A null field compares like a missing one, and so does a comparison with null. */
  lemma NullComparison(text: string, path: string, op: CompOp, o: Operand, data: Json, v: Json)
    requires Says(text, Compared(Path(path), op, o)) && HasField(data, path, v) && !o.Path?
    requires v == Null || o.Nothing?
    ensures Evaluate(text, data) ==
            Ok((op.OpEq? && v == Null && o.Nothing?) || (op.OpNe? && !(v == Null && o.Nothing?)))
  {
    hide Says, Evaluate, HasField, Resolve;
    SaysValue(text, Compared(Path(path), op, o), data);
    FieldValue(data, path, v);
  }

  /** A field alone holds unless it is missing, null, false, zero or the empty text. */
  lemma Truthiness(text: string, path: string, data: Json)
    requires Says(text, Plain(Path(path)))
    ensures forall v :: HasField(data, path, v) ==>
      Evaluate(text, data) == Ok(v != Null && v != Bool(false) && v != Number(0.0) && v != String(""))
    ensures (forall v :: !HasField(data, path, v)) ==> Evaluate(text, data) == Ok(false)
  {
    hide Says, Evaluate, HasField, Segments, Lookup;
    SaysValue(text, Plain(Path(path)), data);
    forall v ensures Lookup(data, Segments(path)) == Some(v) <==> HasField(data, path, v) {
      LookupIsField(data, path, v);
    }
  }

  // ---- Whole conditions ----

  /** Negation turns truth around; a comparison is what it says. */
  ghost predicate Holds(x: Negation, data: Json) {
    match x
    case Bang(y) => !Holds(y, data)
    case Leaf(c) => EvalNegation(Leaf(c), data).AsBool()
  }

  ghost predicate AllHold(c: Conjunction, data: Json) { forall j :: 0 <= j < |c| ==> Holds(c[j], data) }

  lemma {:induction false} NegationHolds(x: Negation, data: Json)
    ensures EvalNegation(x, data).AsBool() <==> Holds(x, data)
  {
    match x {
      case Bang(y) => NegationHolds(y, data);
      case Leaf(c) =>
    }
  }

  lemma {:induction false} ConjunctionHolds(c: Conjunction, data: Json)
    requires c != []
    ensures EvalConjunction(c, data).AsBool() <==> AllHold(c, data)
  {
    hide EvalNegation, EvalConjunction, AllHold, Holds;
    NegationHolds(c[|c| - 1], data);
    ConjunctionLast(c, data);
    AllHoldLast(c, data);
    if |c| > 1 {
      ConjunctionHolds(c[..|c| - 1], data);
    }
  }

  lemma ConjunctionLast(c: Conjunction, data: Json)
    requires c != []
    ensures EvalConjunction(c, data).AsBool() ==
            (EvalNegation(c[|c| - 1], data).AsBool() && (|c| == 1 || EvalConjunction(c[..|c| - 1], data).AsBool()))
  {
    hide EvalNegation;
  }

  lemma AllHoldLast(c: Conjunction, data: Json)
    requires c != []
    ensures AllHold(c, data) <==> Holds(c[|c| - 1], data) && (|c| == 1 || AllHold(c[..|c| - 1], data))
  {
    hide Holds;
    assert forall j :: 0 <= j < |c| - 1 ==> c[..|c| - 1][j] == c[j];
  }

  ghost predicate SomeHolds(d: Disjunction, data: Json) { exists i :: 0 <= i < |d| && AllHold(d[i], data) }

  lemma {:induction false} DisjunctionHolds(d: Disjunction, data: Json)
    requires WellFormed(d)
    ensures EvalDisjunction(d, data).AsBool() <==> SomeHolds(d, data)
  {
    hide EvalConjunction, AllHold;
    var front, last := d[..|d| - 1], d[|d| - 1];
    ConjunctionHolds(last, data);
    if front != [] {
      DisjunctionHolds(front, data);
    }
    assert SomeHolds(d, data) <==> SomeHolds(front, data) || AllHold(last, data) by {
      assert forall i :: 0 <= i < |front| ==> d[i] == front[i];
      if i :| 0 <= i < |front| && AllHold(front[i], data) {
        assert AllHold(d[i], data);
      }
      if AllHold(last, data) {
        assert AllHold(d[|d| - 1], data);
      }
    }
  }

  /** A text that writes a disjunction of conjunctions is true exactly when all members of some
      conjunction hold. */
  lemma ConditionHolds(text: string, d: Disjunction, data: Json)
    requires WellFormed(d) && Writes(text, DisjunctionTokens(d))
    ensures Evaluate(text, data) == Ok(SomeHolds(d, data))
  {
    hide Writes, Evaluate, DisjunctionTokens, EvalDisjunction, SomeHolds;
    DisjunctionHolds(d, data);
    EvaluateMeansTree(text, data, SomeHolds(d, data));
  }
}
