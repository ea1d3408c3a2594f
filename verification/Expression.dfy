/** Edge conditions: a recursive-descent parser fused with evaluation, and the
    syntax trees it is equivalent to. */
module Expression {
  import opened Common
  import opened Lexer

  // ---- Evaluated values ----

  datatype EvalValue = EBool(b: bool) | ENum(n: real) | EStr(s: string) | ENull | EJson(v: Json) {
    predicate AsBool() {
      match this
      case EBool(b) => b
      case ENull => false
      case ENum(n) => n != 0.0
      case EStr(s) => s != []
      case EJson(Bool(b)) => b
      case EJson(Null) => false
      case EJson(_) => true
    }

    function AsNumber(): Option<real> {
      match this
      case ENum(n) => Some(n)
      case EJson(Number(n)) => Some(n)
      case _ => None
    }

    function AsString(): Option<string> {
      match this
      case EStr(s) => Some(s)
      case EJson(String(s)) => Some(s)
      case _ => None
    }

    predicate IsNull() {
      ENull? || this == EJson(Null)
    }
  }

  datatype CompOp = OpEq | OpNe | OpGt | OpLt | OpGe | OpLe

  /** The gap between 1.0 and the next double. */
  const EPSILON: real := 1.0 / 4503599627370496.0

  predicate Near(l: real, r: real) { -EPSILON < l - r < EPSILON }

  predicate StringLess(l: string, r: string) {
    if r == [] then false
    else if l == [] then true
    else if l[0] != r[0] then l[0] < r[0]
    else StringLess(l[1..], r[1..])
  }

  predicate Compare(l: EvalValue, r: EvalValue, op: CompOp) {
    if l.IsNull() || r.IsNull() then
      var both := l.IsNull() && r.IsNull();
      (op.OpEq? && both) || (op.OpNe? && !both)
    else if l.AsNumber().Some? && r.AsNumber().Some? then
      var x, y := l.AsNumber().value, r.AsNumber().value;
      match op
      case OpEq => Near(x, y)
      case OpNe => !Near(x, y)
      case OpGt => x > y
      case OpLt => x < y
      case OpGe => x >= y || Near(x, y)
      case OpLe => x <= y || Near(x, y)
    else if l.AsString().Some? && r.AsString().Some? then
      var x, y := l.AsString().value, r.AsString().value;
      match op
      case OpEq => x == y
      case OpNe => x != y
      case OpGt => StringLess(y, x)
      case OpLt => StringLess(x, y)
      case OpGe => !StringLess(x, y)
      case OpLe => !StringLess(y, x)
    else if l.EBool? && r.EBool? then
      (op.OpEq? && l.b == r.b) || (op.OpNe? && l.b != r.b)
    else false
  }

  // ---- Field paths ----

  /** The segments between dots; there is always at least one. */
  function Segments(path: string): (r: seq<string>)
    ensures r != []
  {
    if path == [] then [""]
    else
      var rest := Segments(path[1..]);
      if path[0] == '.' then [""] + rest else [[path[0]] + rest[0]] + rest[1..]
  }

  function Lookup(v: Json, segments: seq<string>): Option<Json> {
    if segments == [] then Some(v)
    else
      match v.Get(segments[0])
      case Some(w) => Lookup(w, segments[1..])
      case None => None
  }

  function FromJson(v: Json): EvalValue {
    match v
    case Null => ENull
    case Bool(b) => EBool(b)
    case Number(n) => ENum(n)
    case String(s) => EStr(s)
    case _ => EJson(v)
  }

  function Resolve(data: Json, path: string): EvalValue {
    match Lookup(data, Segments(path)) case Some(v) => FromJson(v) case None => ENull
  }

  /** The cursor walk down a dotted path; a missing field ends it with null. */
  method ResolvePath(data: Json, path: string) returns (r: EvalValue)
    ensures r == Resolve(data, path)
  {
    var segments := Segments(path);
    var current := data;
    for i := 0 to |segments|
      invariant Lookup(data, segments) == Lookup(current, segments[i..])
    {
      assert segments[i..][1..] == segments[i + 1..];
      match current.Get(segments[i]) {
        case Some(v) => current := v;
        case None => return ENull;
      }
    }
    r := FromJson(current);
  }

  // ---- The fused parser ----

  type Parse = Result<(EvalValue, seq<Token>)>

  /** A successful parse leaves strictly fewer tokens than it was given. */
  ghost predicate Consumes<T>(tokens: seq<Token>, r: Result<(T, seq<Token>)>) {
    r.Ok? ==> |r.value.1| < |tokens|
  }

  function ParsePrimary(tokens: seq<Token>, data: Json): (r: Parse)
    ensures Consumes(tokens, r)
  {
    if tokens == [] then Err(UnexpectedEnd)
    else
      match tokens[0]
      case Str(s) => Ok((EStr(s), tokens[1..]))
      case Num(n) => Ok((ENum(n), tokens[1..]))
      case BoolLit(b) => Ok((EBool(b), tokens[1..]))
      case NullLit => Ok((ENull, tokens[1..]))
      case Ident(path) => Ok((Resolve(data, path), tokens[1..]))
      case other => Err(ExpectedValue(other))
  }

  function ComparisonOf(t: Token): Option<CompOp> {
    match t
    case Eq => Some(OpEq)
    case Ne => Some(OpNe)
    case Gt => Some(OpGt)
    case Lt => Some(OpLt)
    case Ge => Some(OpGe)
    case Le => Some(OpLe)
    case _ => None
  }

  function ParseComparison(tokens: seq<Token>, data: Json): (r: Parse)
    ensures Consumes(tokens, r)
  {
    match ParsePrimary(tokens, data)
    case Err(e) => Err(e)
    case Ok((left, rest)) =>
      if rest == [] || ComparisonOf(rest[0]).None? then Ok((left, rest))
      else
        match ParsePrimary(rest[1..], data)
        case Err(e) => Err(e)
        case Ok((right, rest')) => Ok((EBool(Compare(left, right, ComparisonOf(rest[0]).value)), rest'))
  }

  function ParseNot(tokens: seq<Token>, data: Json): (r: Parse)
    ensures Consumes(tokens, r)
  {
    if tokens != [] && tokens[0] == Not then
      match ParseNot(tokens[1..], data)
      case Err(e) => Err(e)
      case Ok((v, rest)) => Ok((EBool(!v.AsBool()), rest))
    else ParseComparison(tokens, data)
  }

  /** The loop of parse_and, from an intermediate value. */
  function AndLoop(left: EvalValue, rest: seq<Token>, data: Json): (r: Parse)
    ensures r.Ok? ==> |r.value.1| <= |rest|
    decreases |rest|
  {
    if rest != [] && rest[0] == And then
      match ParseNot(rest[1..], data)
      case Err(e) => Err(e)
      case Ok((right, r)) => AndLoop(EBool(left.AsBool() && right.AsBool()), r, data)
    else Ok((left, rest))
  }

  function AndValue(tokens: seq<Token>, data: Json): (r: Parse)
    ensures Consumes(tokens, r)
  {
    match ParseNot(tokens, data)
    case Err(e) => Err(e)
    case Ok((left, rest)) => AndLoop(left, rest, data)
  }

  /** The loop of parse_or, from an intermediate value. */
  function OrLoop(left: EvalValue, rest: seq<Token>, data: Json): (r: Parse)
    ensures r.Ok? ==> |r.value.1| <= |rest|
    decreases |rest|
  {
    if rest != [] && rest[0] == Or then
      match AndValue(rest[1..], data)
      case Err(e) => Err(e)
      case Ok((right, r)) => OrLoop(EBool(left.AsBool() || right.AsBool()), r, data)
    else Ok((left, rest))
  }

  function OrValue(tokens: seq<Token>, data: Json): (r: Parse)
    ensures Consumes(tokens, r)
  {
    match AndValue(tokens, data)
    case Err(e) => Err(e)
    case Ok((left, rest)) => OrLoop(left, rest, data)
  }

  method ParseAnd(tokens: seq<Token>, data: Json) returns (r: Parse)
    ensures r == AndValue(tokens, data)
  {
    r := ParseNot(tokens, data);
    if r.Err? {
      return;
    }
    var (left, rest) := r.value;
    while rest != [] && rest[0] == And
      invariant AndValue(tokens, data) == AndLoop(left, rest, data)
      decreases |rest|
    {
      r := ParseNot(rest[1..], data);
      if r.Err? {
        return;
      }
      left, rest := EBool(left.AsBool() && r.value.0.AsBool()), r.value.1;
    }
    r := Ok((left, rest));
  }

  method ParseOr(tokens: seq<Token>, data: Json) returns (r: Parse)
    ensures r == OrValue(tokens, data)
  {
    r := ParseAnd(tokens, data);
    if r.Err? {
      return;
    }
    var (left, rest) := r.value;
    while rest != [] && rest[0] == Or
      invariant OrValue(tokens, data) == OrLoop(left, rest, data)
      decreases |rest|
    {
      r := ParseAnd(rest[1..], data);
      if r.Err? {
        return;
      }
      left, rest := EBool(left.AsBool() || r.value.0.AsBool()), r.value.1;
    }
    r := Ok((left, rest));
  }

  /** The meaning of a condition text on some data. */
  function Evaluate(text: string, data: Json): Result<bool> {
    match Lex(text)
    case Err(e) => Err(e)
    case Ok(tokens) =>
      if tokens == [] then Err(EmptyExpression)
      else
        match OrValue(tokens, data)
        case Err(e) => Err(e)
        case Ok((v, rest)) => if rest != [] then Err(UnexpectedToken(rest[0])) else Ok(v.AsBool())
  }

  method EvaluateText(text: string, data: Json) returns (r: Result<bool>)
    ensures r == Evaluate(text, data)
  {
    var lexed := Tokenize(text);
    if lexed.Err? {
      return Err(lexed.error);
    }
    if lexed.value == [] {
      return Err(EmptyExpression);
    }
    var parsed := ParseOr(lexed.value, data);
    if parsed.Err? {
      return Err(parsed.error);
    }
    var (v, rest) := parsed.value;
    r := if rest != [] then Err(UnexpectedToken(rest[0])) else Ok(v.AsBool());
  }

  // ---- Syntax trees ----

  datatype Operand = Path(p: string) | StrLit(s: string) | NumLit(n: real) | Truth(b: bool) | Nothing

  datatype Comparison = Plain(o: Operand) | Compared(left: Operand, op: CompOp, right: Operand)

  datatype Negation = Bang(inner: Negation) | Leaf(c: Comparison)

  /** A disjunction of conjunctions; the parser never builds an empty one. */
  type Conjunction = seq<Negation>
  type Disjunction = seq<Conjunction>

  ghost predicate WellFormed(d: Disjunction) {
    d != [] && forall i :: 0 <= i < |d| ==> d[i] != []
  }

  function EvalOperand(o: Operand, data: Json): EvalValue {
    match o
    case Path(p) => Resolve(data, p)
    case StrLit(s) => EStr(s)
    case NumLit(n) => ENum(n)
    case Truth(b) => EBool(b)
    case Nothing => ENull
  }

  function EvalNegation(x: Negation, data: Json): EvalValue {
    match x
    case Bang(y) => EBool(!EvalNegation(y, data).AsBool())
    case Leaf(Plain(o)) => EvalOperand(o, data)
    case Leaf(Compared(l, op, r)) => EBool(Compare(EvalOperand(l, data), EvalOperand(r, data), op))
  }

  function EvalConjunction(c: Conjunction, data: Json): EvalValue
    requires c != []
  {
    var last := EvalNegation(c[|c| - 1], data);
    if |c| == 1 then last
    else EBool(EvalConjunction(c[..|c| - 1], data).AsBool() && last.AsBool())
  }

  function EvalDisjunction(d: Disjunction, data: Json): EvalValue
    requires WellFormed(d)
  {
    var last := EvalConjunction(d[|d| - 1], data);
    if |d| == 1 then last
    else EBool(EvalDisjunction(d[..|d| - 1], data).AsBool() || last.AsBool())
  }

  // ---- The token string of a tree ----

  function OperandToken(o: Operand): Token {
    match o
    case Path(p) => Ident(p)
    case StrLit(s) => Str(s)
    case NumLit(n) => Num(n)
    case Truth(b) => BoolLit(b)
    case Nothing => NullLit
  }

  function OpToken(op: CompOp): Token {
    match op
    case OpEq => Eq case OpNe => Ne case OpGt => Gt case OpLt => Lt case OpGe => Ge case OpLe => Le
  }

  function NegationTokens(x: Negation): (ts: seq<Token>)
    ensures ts != []
  {
    match x
    case Bang(y) => [Not] + NegationTokens(y)
    case Leaf(Plain(o)) => [OperandToken(o)]
    case Leaf(Compared(l, op, r)) => [OperandToken(l), OpToken(op), OperandToken(r)]
  }

  function AndTail(c: Conjunction): seq<Token> {
    if c == [] then [] else [And] + NegationTokens(c[0]) + AndTail(c[1..])
  }

  function ConjunctionTokens(c: Conjunction): seq<Token>
    requires c != []
  {
    NegationTokens(c[0]) + AndTail(c[1..])
  }

  function OrTail(d: Disjunction): seq<Token>
    requires forall i :: 0 <= i < |d| ==> d[i] != []
  {
    if d == [] then [] else [Or] + ConjunctionTokens(d[0]) + OrTail(d[1..])
  }

  function DisjunctionTokens(d: Disjunction): seq<Token>
    requires WellFormed(d)
  {
    ConjunctionTokens(d[0]) + OrTail(d[1..])
  }

  // ---- Parsing to trees, without any data ----

  type TreeParse<T> = Result<(T, seq<Token>)>

  function TreeOperand(tokens: seq<Token>): (r: TreeParse<Operand>)
    ensures Consumes(tokens, r)
  {
    if tokens == [] then Err(UnexpectedEnd)
    else
      match tokens[0]
      case Str(s) => Ok((StrLit(s), tokens[1..]))
      case Num(n) => Ok((NumLit(n), tokens[1..]))
      case BoolLit(b) => Ok((Truth(b), tokens[1..]))
      case NullLit => Ok((Nothing, tokens[1..]))
      case Ident(path) => Ok((Path(path), tokens[1..]))
      case other => Err(ExpectedValue(other))
  }

  function TreeComparison(tokens: seq<Token>): (r: TreeParse<Comparison>)
    ensures Consumes(tokens, r)
  {
    match TreeOperand(tokens)
    case Err(e) => Err(e)
    case Ok((left, rest)) =>
      if rest == [] || ComparisonOf(rest[0]).None? then Ok((Plain(left), rest))
      else
        match TreeOperand(rest[1..])
        case Err(e) => Err(e)
        case Ok((right, rest')) => Ok((Compared(left, ComparisonOf(rest[0]).value, right), rest'))
  }

  function TreeNegation(tokens: seq<Token>): (r: TreeParse<Negation>)
    ensures Consumes(tokens, r)
  {
    if tokens != [] && tokens[0] == Not then
      match TreeNegation(tokens[1..])
      case Err(e) => Err(e)
      case Ok((x, rest)) => Ok((Bang(x), rest))
    else
      match TreeComparison(tokens)
      case Err(e) => Err(e)
      case Ok((c, rest)) => Ok((Leaf(c), rest))
  }

  function TreeAndLoop(acc: Conjunction, rest: seq<Token>): (r: TreeParse<Conjunction>)
    ensures r.Ok? ==> acc <= r.value.0 && |r.value.1| <= |rest|
    decreases |rest|
  {
    if rest != [] && rest[0] == And then
      match TreeNegation(rest[1..])
      case Err(e) => Err(e)
      case Ok((x, r)) => TreeAndLoop(acc + [x], r)
    else Ok((acc, rest))
  }

  function TreeConjunction(tokens: seq<Token>): (r: TreeParse<Conjunction>)
    ensures r.Ok? ==> r.value.0 != [] && |r.value.1| < |tokens|
  {
    match TreeNegation(tokens)
    case Err(e) => Err(e)
    case Ok((x, rest)) => TreeAndLoop([x], rest)
  }

  function TreeOrLoop(acc: Disjunction, rest: seq<Token>): (r: TreeParse<Disjunction>)
    requires forall i :: 0 <= i < |acc| ==> acc[i] != []
    ensures r.Ok? ==> acc <= r.value.0 && forall i :: 0 <= i < |r.value.0| ==> r.value.0[i] != []
    decreases |rest|
  {
    if rest != [] && rest[0] == Or then
      match TreeConjunction(rest[1..])
      case Err(e) => Err(e)
      case Ok((c, r)) => TreeOrLoop(acc + [c], r)
    else Ok((acc, rest))
  }

  function TreeDisjunction(tokens: seq<Token>): (r: TreeParse<Disjunction>)
    ensures r.Ok? ==> WellFormed(r.value.0)
  {
    match TreeConjunction(tokens)
    case Err(e) => Err(e)
    case Ok((c, rest)) => TreeOrLoop([c], rest)
  }

  // ---- Fused evaluation is evaluation of the parsed tree ----

  function NegationValue(r: TreeParse<Negation>, data: Json): Parse {
    if r.Err? then Err(r.error) else Ok((EvalNegation(r.value.0, data), r.value.1))
  }

  function ConjunctionValue(r: TreeParse<Conjunction>, data: Json): Parse
    requires r.Ok? ==> r.value.0 != []
  {
    if r.Err? then Err(r.error) else Ok((EvalConjunction(r.value.0, data), r.value.1))
  }

  function DisjunctionValue(r: TreeParse<Disjunction>, data: Json): Parse
    requires r.Ok? ==> WellFormed(r.value.0)
  {
    if r.Err? then Err(r.error) else Ok((EvalDisjunction(r.value.0, data), r.value.1))
  }

  lemma OperandFused(tokens: seq<Token>, data: Json)
    ensures var r := TreeOperand(tokens);
      ParsePrimary(tokens, data) == if r.Err? then Err(r.error) else Ok((EvalOperand(r.value.0, data), r.value.1))
  {
  }

  lemma ComparisonFused(tokens: seq<Token>, data: Json)
    ensures var r := TreeComparison(tokens);
      ParseComparison(tokens, data) ==
      if r.Err? then Err(r.error) else Ok((EvalNegation(Leaf(r.value.0), data), r.value.1))
  {
    hide ParsePrimary, TreeOperand, EvalOperand, Compare, ComparisonOf;
    OperandFused(tokens, data);
    if TreeOperand(tokens).Ok? {
      var rest := TreeOperand(tokens).value.1;
      if rest != [] {
        OperandFused(rest[1..], data);
      }
    }
  }

  lemma {:induction false} NotFused(tokens: seq<Token>, data: Json)
    ensures ParseNot(tokens, data) == NegationValue(TreeNegation(tokens), data)
  {
    if tokens != [] && tokens[0] == Not {
      NotFused(tokens[1..], data);
    } else {
      ComparisonFused(tokens, data);
    }
  }

  lemma ConjunctionSnoc(c: Conjunction, x: Negation, data: Json)
    requires c != []
    ensures EvalConjunction(c + [x], data) == EBool(EvalConjunction(c, data).AsBool() && EvalNegation(x, data).AsBool())
  {
  }

  lemma {:induction false} AndLoopFused(acc: Conjunction, rest: seq<Token>, data: Json)
    requires acc != []
    ensures AndLoop(EvalConjunction(acc, data), rest, data) == ConjunctionValue(TreeAndLoop(acc, rest), data)
    decreases |rest|
  {
    if rest != [] && rest[0] == And {
      NotFused(rest[1..], data);
      match TreeNegation(rest[1..]) {
        case Err(_) =>
        case Ok((x, r)) =>
          ConjunctionSnoc(acc, x, data);
          AndLoopFused(acc + [x], r, data);
      }
    }
  }

  lemma AndFused(tokens: seq<Token>, data: Json)
    ensures AndValue(tokens, data) == ConjunctionValue(TreeConjunction(tokens), data)
  {
    NotFused(tokens, data);
    match TreeNegation(tokens) {
      case Err(_) =>
      case Ok((x, rest)) => AndLoopFused([x], rest, data);
    }
  }

  lemma DisjunctionSnoc(d: Disjunction, c: Conjunction, data: Json)
    requires WellFormed(d) && c != []
    ensures EvalDisjunction(d + [c], data) ==
            EBool(EvalDisjunction(d, data).AsBool() || EvalConjunction(c, data).AsBool())
  {
  }

  lemma {:induction false} OrLoopFused(acc: Disjunction, rest: seq<Token>, data: Json)
    requires WellFormed(acc)
    ensures OrLoop(EvalDisjunction(acc, data), rest, data) == DisjunctionValue(TreeOrLoop(acc, rest), data)
    decreases |rest|
  {
    hide TreeConjunction, AndValue, EvalConjunction;
    if rest != [] && rest[0] == Or {
      AndFused(rest[1..], data);
      match TreeConjunction(rest[1..]) {
        case Err(_) =>
        case Ok((c, r)) =>
          DisjunctionSnoc(acc, c, data);
          OrLoopFused(acc + [c], r, data);
      }
    }
  }

  /** The fused parser computes exactly the value of the tree the plain parser builds. */
  lemma FusedIsEvalOfParse(tokens: seq<Token>, data: Json)
    ensures OrValue(tokens, data) == DisjunctionValue(TreeDisjunction(tokens), data)
  {
    hide AndValue, TreeConjunction, OrLoop, TreeOrLoop, EvalConjunction;
    AndFused(tokens, data);
    if TreeConjunction(tokens).Ok? {
      var (c, rest) := TreeConjunction(tokens).value;
      assert EvalDisjunction([c], data) == EvalConjunction(c, data);
      OrLoopFused([c], rest, data);
    }
  }

  /** Whether a condition is an error, and which one, depends on its text alone. */
  lemma ErrorsDependOnTextOnly(text: string, data: Json, data': Json)
    ensures Evaluate(text, data).Err? <==> Evaluate(text, data').Err?
    ensures Evaluate(text, data).Err? ==> Evaluate(text, data) == Evaluate(text, data')
  {
    hide OrValue, TreeDisjunction, EvalDisjunction, Lex;
    match Lex(text) {
      case Err(_) =>
      case Ok(tokens) =>
        FusedIsEvalOfParse(tokens, data);
        FusedIsEvalOfParse(tokens, data');
    }
  }

  // ---- Parsing inverts writing out ----

  /** Tokens that cannot continue an operand, a conjunction or a disjunction. */
  ghost predicate NotComparison(rest: seq<Token>) { rest == [] || ComparisonOf(rest[0]).None? }
  ghost predicate EndsConjunction(rest: seq<Token>) { NotComparison(rest) && (rest == [] || rest[0] != And) }
  ghost predicate EndsDisjunction(rest: seq<Token>) { EndsConjunction(rest) && (rest == [] || rest[0] != Or) }

  lemma OperandParses(o: Operand, rest: seq<Token>)
    ensures TreeOperand([OperandToken(o)] + rest) == Ok((o, rest)) && OperandToken(o) != Not
  {
  }

  lemma ComparisonParses(c: Comparison, rest: seq<Token>)
    requires NotComparison(rest)
    ensures TreeComparison(NegationTokens(Leaf(c)) + rest) == Ok((c, rest))
    ensures (NegationTokens(Leaf(c)) + rest)[0] != Not
  {
    hide TreeOperand, OperandToken;
    match c {
      case Plain(o) =>
        OperandParses(o, rest);
        assert NegationTokens(Leaf(c)) == [OperandToken(o)];
      case Compared(l, op, r) =>
        var tail := [OpToken(op)] + ([OperandToken(r)] + rest);
        OperandParses(l, tail);
        OperandParses(r, rest);
        assert NegationTokens(Leaf(c)) + rest == [OperandToken(l)] + tail;
        assert ComparisonOf(tail[0]) == Some(op) && tail[1..] == [OperandToken(r)] + rest;
    }
  }

  lemma {:induction false} NegationParses(x: Negation, rest: seq<Token>)
    requires NotComparison(rest)
    ensures TreeNegation(NegationTokens(x) + rest) == Ok((x, rest))
  {
    hide TreeComparison;
    var ts := NegationTokens(x) + rest;
    match x {
      case Bang(y) =>
        NegationParses(y, rest);
        assert ts[1..] == NegationTokens(y) + rest;
      case Leaf(c) =>
        ComparisonParses(c, rest);
    }
  }

  lemma {:induction false} AndTailStarts(c: Conjunction, rest: seq<Token>)
    requires NotComparison(rest)
    ensures NotComparison(AndTail(c) + rest)
  {
    hide NegationTokens;
    if c == [] {
      assert AndTail(c) + rest == rest;
    } else {
      assert (AndTail(c) + rest)[0] == And;
    }
  }

  lemma {:induction false} AndTailParses(acc: Conjunction, c: Conjunction, rest: seq<Token>)
    requires EndsConjunction(rest)
    ensures TreeAndLoop(acc, AndTail(c) + rest) == Ok((acc + c, rest))
    decreases |c|
  {
    hide TreeNegation, NegationTokens, NotComparison;
    var ts := AndTail(c) + rest;
    if c == [] {
      assert ts == rest && acc + c == acc;
    } else {
      var tail := AndTail(c[1..]) + rest;
      AndTailStarts(c[1..], rest);
      NegationParses(c[0], tail);
      assert ts == [And] + (NegationTokens(c[0]) + tail);
      assert TreeAndLoop(acc, ts) == TreeAndLoop(acc + [c[0]], tail);
      hide TreeAndLoop, AndTail;
      AndTailParses(acc + [c[0]], c[1..], rest);
      assert acc + [c[0]] + c[1..] == acc + c;
    }
  }

  lemma ConjunctionParses(c: Conjunction, rest: seq<Token>)
    requires c != [] && EndsConjunction(rest)
    ensures TreeConjunction(ConjunctionTokens(c) + rest) == Ok((c, rest))
  {
    hide TreeNegation, NegationTokens, AndTail, TreeAndLoop;
    AndTailStarts(c[1..], rest);
    NegationParses(c[0], AndTail(c[1..]) + rest);
    assert ConjunctionTokens(c) + rest == NegationTokens(c[0]) + (AndTail(c[1..]) + rest);
    AndTailParses([c[0]], c[1..], rest);
    assert [c[0]] + c[1..] == c;
  }

  lemma {:induction false} OrTailStarts(d: Disjunction, rest: seq<Token>)
    requires forall i :: 0 <= i < |d| ==> d[i] != []
    requires EndsConjunction(rest)
    ensures EndsConjunction(OrTail(d) + rest)
  {
    hide ConjunctionTokens;
    if d == [] {
      assert OrTail(d) + rest == rest;
    } else {
      assert (OrTail(d) + rest)[0] == Or;
    }
  }

  lemma {:induction false} OrTailParses(acc: Disjunction, d: Disjunction, rest: seq<Token>)
    requires (forall i :: 0 <= i < |acc| ==> acc[i] != []) && (forall i :: 0 <= i < |d| ==> d[i] != [])
    requires EndsDisjunction(rest)
    ensures TreeOrLoop(acc, OrTail(d) + rest) == Ok((acc + d, rest))
    decreases |d|
  {
    hide TreeConjunction, ConjunctionTokens;
    var ts := OrTail(d) + rest;
    if d == [] {
      assert ts == rest && acc + d == acc;
    } else {
      OrTailStarts(d[1..], rest);
      ConjunctionParses(d[0], OrTail(d[1..]) + rest);
      assert ts[1..] == ConjunctionTokens(d[0]) + (OrTail(d[1..]) + rest);
      OrTailParses(acc + [d[0]], d[1..], rest);
      assert acc + [d[0]] + d[1..] == acc + d;
    }
  }

  lemma DisjunctionParses(d: Disjunction, rest: seq<Token>)
    requires WellFormed(d) && EndsDisjunction(rest)
    ensures TreeDisjunction(DisjunctionTokens(d) + rest) == Ok((d, rest))
  {
    OrTailStarts(d[1..], rest);
    hide TreeConjunction, ConjunctionTokens, OrTail, TreeOrLoop;
    ConjunctionParses(d[0], OrTail(d[1..]) + rest);
    assert DisjunctionTokens(d) + rest == ConjunctionTokens(d[0]) + (OrTail(d[1..]) + rest);
    OrTailParses([d[0]], d[1..], rest);
    assert [d[0]] + d[1..] == d;
  }

  // ---- ... and writing out inverts parsing ----

  lemma ComparisonUnparses(tokens: seq<Token>)
    requires TreeComparison(tokens).Ok?
    ensures var (c, rest) := TreeComparison(tokens).value; tokens == NegationTokens(Leaf(c)) + rest
  {
  }

  lemma {:induction false} NegationUnparses(tokens: seq<Token>)
    requires TreeNegation(tokens).Ok?
    ensures var (x, rest) := TreeNegation(tokens).value; tokens == NegationTokens(x) + rest
  {
    if tokens[0] == Not {
      NegationUnparses(tokens[1..]);
    } else {
      ComparisonUnparses(tokens);
    }
  }

  lemma {:induction false} AndTailUnparses(acc: Conjunction, tokens: seq<Token>)
    requires TreeAndLoop(acc, tokens).Ok?
    ensures var (c, rest) := TreeAndLoop(acc, tokens).value; tokens == AndTail(c[|acc|..]) + rest
    decreases |tokens|
  {
    hide TreeNegation, NegationTokens;
    var (c, rest) := TreeAndLoop(acc, tokens).value;
    if tokens != [] && tokens[0] == And {
      NegationUnparses(tokens[1..]);
      var (x, r) := TreeNegation(tokens[1..]).value;
      AndTailUnparses(acc + [x], r);
      assert c[|acc|..][0] == x && c[|acc|..][1..] == c[|acc| + 1..];
      assert tokens == [And] + NegationTokens(x) + AndTail(c[|acc| + 1..]) + rest;
    } else {
      assert c[|acc|..] == [];
    }
  }

  lemma ConjunctionUnparses(tokens: seq<Token>)
    requires TreeConjunction(tokens).Ok?
    ensures var (c, rest) := TreeConjunction(tokens).value; tokens == ConjunctionTokens(c) + rest
  {
    hide TreeNegation, NegationTokens, AndTail, TreeAndLoop;
    NegationUnparses(tokens);
    var (x, r) := TreeNegation(tokens).value;
    AndTailUnparses([x], r);
  }

  lemma {:induction false} OrTailUnparses(acc: Disjunction, tokens: seq<Token>)
    requires (forall i :: 0 <= i < |acc| ==> acc[i] != []) && TreeOrLoop(acc, tokens).Ok?
    ensures var (d, rest) := TreeOrLoop(acc, tokens).value; tokens == OrTail(d[|acc|..]) + rest
    decreases |tokens|
  {
    hide TreeConjunction, ConjunctionTokens;
    var (d, rest) := TreeOrLoop(acc, tokens).value;
    if tokens != [] && tokens[0] == Or {
      ConjunctionUnparses(tokens[1..]);
      var (c, r) := TreeConjunction(tokens[1..]).value;
      OrTailUnparses(acc + [c], r);
      assert d[|acc|..][0] == c && d[|acc|..][1..] == d[|acc| + 1..];
      assert tokens == [Or] + ConjunctionTokens(c) + OrTail(d[|acc| + 1..]) + rest;
    } else {
      assert d[|acc|..] == [];
    }
  }

  lemma DisjunctionUnparses(tokens: seq<Token>)
    requires TreeDisjunction(tokens).Ok?
    ensures var (d, rest) := TreeDisjunction(tokens).value; tokens == DisjunctionTokens(d) + rest
  {
    hide TreeConjunction, ConjunctionTokens, OrTail, TreeOrLoop;
    ConjunctionUnparses(tokens);
    var (c, r) := TreeConjunction(tokens).value;
    OrTailUnparses([c], r);
  }

  /** A successful fused parse has consumed one written-out expression and returns what follows it. */
  lemma ParseConsumesExpression(tokens: seq<Token>, data: Json)
    requires OrValue(tokens, data).Ok?
    ensures var (v, rest) := OrValue(tokens, data).value;
      exists d :: WellFormed(d) && tokens == DisjunctionTokens(d) + rest && v == EvalDisjunction(d, data)
  {
    FusedIsEvalOfParse(tokens, data);
    DisjunctionUnparses(tokens);
  }

  // ---- The language ----

  /** The tree of a condition text, when it has one. */
  ghost predicate ParsesTo(text: string, d: Disjunction) {
    Lex(text).Ok? && TreeDisjunction(Lex(text).value) == Ok((d, []))
  }

  /** Tokenizing and parsing a text gives a tree exactly when the text writes that tree out. */
  lemma ParsesToIffWritten(text: string, d: Disjunction)
    requires WellFormed(d)
    ensures ParsesTo(text, d) <==> Writes(text, DisjunctionTokens(d))
  {
    if ParsesTo(text, d) {
      DisjunctionUnparses(Lex(text).value);
      assert DisjunctionTokens(d) + [] == DisjunctionTokens(d);
      LexIffWrites(text, DisjunctionTokens(d));
    }
    if Writes(text, DisjunctionTokens(d)) {
      LexIffWrites(text, DisjunctionTokens(d));
      DisjunctionParses(d, []);
      assert DisjunctionTokens(d) + [] == DisjunctionTokens(d);
    }
  }

  /** A condition evaluates to a value exactly when its text writes some tree with that value. */
  lemma EvaluateMeansTree(text: string, data: Json, b: bool)
    ensures Evaluate(text, data) == Ok(b) <==>
      exists d :: WellFormed(d) && Writes(text, DisjunctionTokens(d)) && EvalDisjunction(d, data).AsBool() == b
  {
    if Lex(text).Ok? {
      FusedIsEvalOfParse(Lex(text).value, data);
    }
    if Evaluate(text, data) == Ok(b) {
      var d := TreeDisjunction(Lex(text).value).value.0;
      ParsesToIffWritten(text, d);
    }
    if d :| WellFormed(d) && Writes(text, DisjunctionTokens(d)) && EvalDisjunction(d, data).AsBool() == b {
      ParsesToIffWritten(text, d);
    }
  }

  // ---- Laws of comparison ----

  /** Strings are totally ordered. */
  lemma {:induction false} StringTrichotomy(l: string, r: string)
    ensures !(StringLess(l, r) && StringLess(r, l))
    ensures StringLess(l, r) || StringLess(r, l) <==> l != r
  {
    if l != [] && r != [] && l[0] == r[0] {
      StringTrichotomy(l[1..], r[1..]);
      assert l == [l[0]] + l[1..] && r == [r[0]] + r[1..];
    }
  }

  predicate BothOrdered(l: EvalValue, r: EvalValue) {
    !l.IsNull() && !r.IsNull() &&
    ((l.AsNumber().Some? && r.AsNumber().Some?) || (l.AsString().Some? && r.AsString().Some?))
  }

  predicate Comparable(l: EvalValue, r: EvalValue) {
    l.IsNull() || r.IsNull() || BothOrdered(l, r) || (l.EBool? && r.EBool?)
  }

  /** Swapping the operands mirrors the operator; equal and unequal exclude each other, and one of
      them holds exactly on comparable operands; "or equal" adds equality to a strict comparison,
      and strict comparisons hold of ordered operands only, never both ways. */
  lemma CompareLaws(l: EvalValue, r: EvalValue)
    ensures Compare(l, r, OpEq) == Compare(r, l, OpEq) && Compare(l, r, OpNe) == Compare(r, l, OpNe)
    ensures Compare(l, r, OpGt) == Compare(r, l, OpLt) && Compare(l, r, OpGe) == Compare(r, l, OpLe)
    ensures !(Compare(l, r, OpEq) && Compare(l, r, OpNe))
    ensures Compare(l, r, OpEq) || Compare(l, r, OpNe) <==> Comparable(l, r)
    ensures Compare(l, r, OpGe) <==> BothOrdered(l, r) && (Compare(l, r, OpGt) || Compare(l, r, OpEq))
    ensures Compare(l, r, OpGe) || Compare(l, r, OpLt) <==> BothOrdered(l, r)
    ensures !(Compare(l, r, OpGt) && Compare(l, r, OpLt))
  {
    if l.AsString().Some? && r.AsString().Some? {
      StringTrichotomy(l.AsString().value, r.AsString().value);
    }
  }

  /** A comparison with a field that is missing is an equality with null: it is true for "==" on
      another null, for "!=" on anything else, and false for every other operator. */
  lemma MissingFieldComparison(text: string, path: string, op: CompOp, o: Operand, data: Json)
    requires Writes(text, DisjunctionTokens([[Leaf(Compared(Path(path), op, o))]]))
    requires Lookup(data, Segments(path)).None?
    ensures var isNull := EvalOperand(o, data).IsNull();
      Evaluate(text, data) == Ok((op == OpEq && isNull) || (op == OpNe && !isNull))
  {
    hide Writes, DisjunctionTokens, Evaluate, ParsesTo;
    var d: Disjunction := [[Leaf(Compared(Path(path), op, o))]];
    ParsesToIffWritten(text, d);
    var isNull := EvalOperand(o, data).IsNull();
    var b := (op == OpEq && isNull) || (op == OpNe && !isNull);
    assert EvalDisjunction(d, data).AsBool() == b by {
      assert EvalDisjunction(d, data) == EvalConjunction(d[0], data) == EvalNegation(d[0][0], data);
    }
    EvaluateMeansTree(text, data, b);
  }
}
