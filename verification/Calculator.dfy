/** The two-stack evaluator of the calculator sample, over any interpretation of numbers and of the
    four operators, so that the result is the same operation by operation, rounding included. */
module Calculator {

  datatype Option<T> = None | Some(value: T)

  /** `number` is std::stod (None where it throws), `zero` what ApplyOp returns by default. */
  datatype Algebra<!V> = Algebra(number: string -> Option<V>, add: (V, V) -> V, sub: (V, V) -> V,
                                 mul: (V, V) -> V, pow: (V, V) -> V, zero: V)

  function Precedence(op: char): nat {
    if op == '+' || op == '-' then 1
    else if op == '*' || op == '/' then 2
    else if op == '^' then 3
    else 0
  }

  function ApplyOp<V>(alg: Algebra<V>, a: V, b: V, op: char): V {
    match op
    case '+' => alg.add(a, b)
    case '-' => alg.sub(a, b)
    case '*' => alg.mul(a, b)
    case '^' => alg.pow(a, b)
    case _ => alg.zero
  }

  datatype Token = Num(text: string) | Open | Close | Op(op: char)

  // The two stacks, tops last.
  datatype Stacks<V> = Stacks(values: seq<V>, ops: seq<char>)

  // ---------------------------------------------------------------- the loops, as functions

  // Which operators a loop keeps popping.
  datatype Until = Below(op: char) | OpenParen | Empty

  predicate Pops(until: Until, top: char) {
    match until
    case Below(op) => Precedence(top) >= Precedence(op)
    case OpenParen => top != '('
    case Empty => true
  }

  /** Pop and apply while the top operator qualifies; None where the program would read an empty
      value stack. */
  function PopWhile<V>(alg: Algebra<V>, until: Until, s: Stacks<V>): Option<Stacks<V>>
    decreases |s.ops|
  {
    if s.ops == [] || !Pops(until, s.ops[|s.ops| - 1]) then Some(s)
    else if |s.values| < 2 then None
    else
      var n := |s.values|;
      var v := ApplyOp(alg, s.values[n - 2], s.values[n - 1], s.ops[|s.ops| - 1]);
      PopWhile(alg, until, Stacks(s.values[..n - 2] + [v], s.ops[..|s.ops| - 1]))
  }

  function DropOpen(ops: seq<char>): seq<char> {
    if ops == [] then [] else ops[..|ops| - 1]
  }

  function TokenEffect<V>(alg: Algebra<V>, t: Token, s: Stacks<V>): Option<Stacks<V>> {
    match t
    case Num(text) =>
      (match alg.number(text) case None => None case Some(v) => Some(Stacks(s.values + [v], s.ops)))
    case Open => Some(Stacks(s.values, s.ops + ['(']))
    case Close =>
      (match PopWhile(alg, OpenParen, s) case None => None case Some(s1) => Some(Stacks(s1.values, DropOpen(s1.ops))))
    case Op(op) =>
      (match PopWhile(alg, Below(op), s) case None => None case Some(s1) => Some(Stacks(s1.values, s1.ops + [op])))
  }

  function Process<V>(alg: Algebra<V>, tokens: seq<Token>, s: Stacks<V>): Option<Stacks<V>>
    decreases |tokens|
  {
    if tokens == [] then Some(s)
    else match TokenEffect(alg, tokens[0], s) case None => None case Some(s1) => Process(alg, tokens[1..], s1)
  }

  // The end of EvaluateExpression: FinalizeCalculation, then the top value.
  function Finish<V>(alg: Algebra<V>, s: Stacks<V>): Option<V> {
    match PopWhile(alg, Empty, s)
    case None => None
    case Some(s1) => if s1.values == [] then None else Some(s1.values[|s1.values| - 1])
  }

  function EvaluateTokens<V>(alg: Algebra<V>, tokens: seq<Token>): Option<V> {
    match Process(alg, tokens, Stacks([], [])) case None => None case Some(s) => Finish(alg, s)
  }

  lemma {:induction false} ProcessAppend<V>(alg: Algebra<V>, a: seq<Token>, b: seq<Token>, s: Stacks<V>)
    ensures Process(alg, a + b, s) == match Process(alg, a, s) case None => None case Some(s1) => Process(alg, b, s1)
    decreases |a|
  {
    if a == [] {
      assert a + b == b;
    } else {
      assert (a + b)[0] == a[0] && (a + b)[1..] == a[1..] + b;
      var first := TokenEffect(alg, a[0], s);
      if first.Some? { ProcessAppend(alg, a[1..], b, first.value); }
    }
  }

  // ---------------------------------------------------------------- expressions

  /** An expression as written, parentheses included. */
  datatype Expr = Lit(text: string) | Paren(inner: Expr) | Bin(op: char, left: Expr, right: Expr)

  predicate IsOperator(c: char) {
    c == '+' || c == '-' || c == '*' || c == '/' || c == '^'
  }

  function Level(e: Expr): nat {
    if e.Bin? then Precedence(e.op) else 4
  }

  /** Grouping as written: all operators associate to the left. */
  predicate Grouped(e: Expr) {
    match e
    case Lit(_) => true
    case Paren(inner) => Grouped(inner)
    case Bin(op, l, r) =>
      IsOperator(op) && Grouped(l) && Grouped(r) && Level(l) >= Precedence(op) && Level(r) > Precedence(op)
  }

  predicate Numeric<V>(alg: Algebra<V>, e: Expr) {
    match e
    case Lit(text) => alg.number(text).Some?
    case Paren(inner) => Numeric(alg, inner)
    case Bin(_, l, r) => Numeric(alg, l) && Numeric(alg, r)
  }

  function Value<V>(alg: Algebra<V>, e: Expr): V
    requires Numeric(alg, e)
  {
    match e
    case Lit(text) => alg.number(text).value
    case Paren(inner) => Value(alg, inner)
    case Bin(op, l, r) => ApplyOp(alg, Value(alg, l), Value(alg, r), op)
  }

  function Tokens(e: Expr): seq<Token> {
    match e
    case Lit(text) => [Num(text)]
    case Paren(inner) => [Open] + Tokens(inner) + [Close]
    case Bin(op, l, r) => Tokens(l) + [Op(op)] + Tokens(r)
  }

  // ---------------------------------------------------------------- the stacks after an expression

  // Reading an expression leaves its right spine unapplied: these values and these operators.
  function SpineValues<V>(alg: Algebra<V>, e: Expr): seq<V>
    requires Numeric(alg, e)
  {
    match e
    case Bin(op, l, r) => [Value(alg, l)] + SpineValues(alg, r)
    case _ => [Value(alg, e)]
  }

  function SpineOps(e: Expr): seq<char> {
    match e case Bin(op, l, r) => [op] + SpineOps(r) case _ => []
  }

  // No operator on top of `ops` would be popped by one of precedence `level`.
  predicate Guards(ops: seq<char>, level: nat) {
    ops == [] || Precedence(ops[|ops| - 1]) < level
  }

  lemma {:induction false} SpineOpsHigh(e: Expr)
    requires Grouped(e)
    ensures forall i :: 0 <= i < |SpineOps(e)| ==> IsOperator(SpineOps(e)[i]) && Precedence(SpineOps(e)[i]) >= Level(e)
  {
    if e.Bin? { SpineOpsHigh(e.right); }
  }

  lemma PopOne<V>(alg: Algebra<V>, until: Until, vs: seq<V>, a: V, b: V, ops: seq<char>, op: char)
    requires Pops(until, op)
    ensures PopWhile(alg, until, Stacks(vs + [a] + [b], ops + [op]))
         == PopWhile(alg, until, Stacks(vs + [ApplyOp(alg, a, b, op)], ops))
  {
    var s := Stacks(vs + [a] + [b], ops + [op]);
    assert s.values[..|s.values| - 2] == vs && s.ops[..|s.ops| - 1] == ops;
  }

  lemma Assoc<T>(a: seq<T>, b: seq<T>, c: seq<T>)
    ensures a + b + c == a + (b + c)
  {
  }

  predicate PopsAll(until: Until, ops: seq<char>) {
    forall i :: 0 <= i < |ops| ==> Pops(until, ops[i])
  }

  lemma SpineOf<V>(alg: Algebra<V>, e: Expr, vs: seq<V>, ops: seq<char>)
    requires Numeric(alg, e) && e.Bin?
    ensures vs + SpineValues(alg, e) == vs + [Value(alg, e.left)] + SpineValues(alg, e.right)
    ensures ops + SpineOps(e) == ops + [e.op] + SpineOps(e.right)
  {
    Assoc(vs, [Value(alg, e.left)], SpineValues(alg, e.right));
    Assoc(ops, [e.op], SpineOps(e.right));
  }

  lemma PopsTail(until: Until, e: Expr)
    requires e.Bin? && PopsAll(until, SpineOps(e))
    ensures Pops(until, e.op) && PopsAll(until, SpineOps(e.right))
  {
    assert SpineOps(e)[0] == e.op;
    assert forall i :: 0 <= i < |SpineOps(e.right)| ==> SpineOps(e.right)[i] == SpineOps(e)[i + 1];
  }

  /** A loop that pops the whole right spine turns it into the expression's value. */
  lemma {:induction false} SpineCollapses<V>(alg: Algebra<V>, until: Until, e: Expr, vs: seq<V>, ops: seq<char>)
    requires Numeric(alg, e) && PopsAll(until, SpineOps(e))
    ensures PopWhile(alg, until, Stacks(vs + SpineValues(alg, e), ops + SpineOps(e)))
         == PopWhile(alg, until, Stacks(vs + [Value(alg, e)], ops))
  {
    if e.Bin? {
      PopsTail(until, e);
      SpineOf(alg, e, vs, ops);
      SpineCollapses(alg, until, e.right, vs + [Value(alg, e.left)], ops + [e.op]);
      PopOne(alg, until, vs, Value(alg, e.left), Value(alg, e.right), ops, e.op);
    } else {
      assert ops + [] == ops;
    }
  }

  ghost predicate Reads<V>(alg: Algebra<V>, e: Expr, s: Stacks<V>)
    requires Numeric(alg, e)
  {
    Process(alg, Tokens(e), s) == Some(Stacks(s.values + SpineValues(alg, e), s.ops + SpineOps(e)))
  }

  /** Reading the tokens of an expression pushes exactly its right spine, whatever is below. */
  lemma {:induction false} ReadsSpine<V>(alg: Algebra<V>, e: Expr, s: Stacks<V>)
    requires Numeric(alg, e) && Grouped(e) && Guards(s.ops, Level(e))
    ensures Reads(alg, e, s)
  {
    match e
    case Lit(text) => ReadsLiteral(alg, text, s);
    case Paren(inner) =>
      ReadsSpine(alg, inner, Stacks(s.values, s.ops + ['(']));
      ReadsParen(alg, inner, s);
    case Bin(op, l, r) =>
      ReadsSpine(alg, l, s);
      ReadsSpine(alg, r, Stacks(s.values + [Value(alg, l)], s.ops + [op]));
      ReadsBin(alg, op, l, r, s);
  }

  lemma ReadsBin<V>(alg: Algebra<V>, op: char, l: Expr, r: Expr, s: Stacks<V>)
    requires Numeric(alg, l) && Numeric(alg, r) && Grouped(Bin(op, l, r)) && Guards(s.ops, Precedence(op))
    requires Reads(alg, l, s) && Reads(alg, r, Stacks(s.values + [Value(alg, l)], s.ops + [op]))
    ensures Reads(alg, Bin(op, l, r), s)
  {
    OperatorCollapses(alg, op, l, s);
    ProcessThree(alg, Tokens(l), Op(op), Tokens(r), s);
    SpineOf(alg, Bin(op, l, r), s.values, s.ops);
  }

  lemma ProcessThree<V>(alg: Algebra<V>, a: seq<Token>, t: Token, b: seq<Token>, s: Stacks<V>)
    requires Process(alg, a, s).Some? && TokenEffect(alg, t, Process(alg, a, s).value).Some?
    ensures Process(alg, a + [t] + b, s) == Process(alg, b, TokenEffect(alg, t, Process(alg, a, s).value).value)
  {
    OneToken(alg, t, Process(alg, a, s).value);
    ProcessAppend(alg, a, [t], s);
    ProcessAppend(alg, a + [t], b, s);
  }

  lemma OneToken<V>(alg: Algebra<V>, t: Token, s: Stacks<V>)
    ensures Process(alg, [t], s) == TokenEffect(alg, t, s)
  {
    assert [t][1..] == [];
    var r := TokenEffect(alg, t, s);
    if r.Some? { assert Process(alg, [], r.value) == r; }
  }

  lemma ReadsLiteral<V>(alg: Algebra<V>, text: string, s: Stacks<V>)
    requires alg.number(text).Some?
    ensures Reads(alg, Lit(text), s)
  {
    OneToken(alg, Num(text), s);
    assert s.ops + [] == s.ops;
  }

  // The operator of a Bin pops its left operand's spine and nothing below it.
  lemma OperatorCollapses<V>(alg: Algebra<V>, op: char, l: Expr, s: Stacks<V>)
    requires Numeric(alg, l) && Grouped(l) && IsOperator(op) && Level(l) >= Precedence(op) && Guards(s.ops, Precedence(op))
    ensures TokenEffect(alg, Op(op), Stacks(s.values + SpineValues(alg, l), s.ops + SpineOps(l)))
         == Some(Stacks(s.values + [Value(alg, l)], s.ops + [op]))
  {
    assert PopsAll(Below(op), SpineOps(l)) by { SpineOpsHigh(l); }
    SpineCollapses(alg, Below(op), l, s.values, s.ops);
    var done := Stacks(s.values + [Value(alg, l)], s.ops);
    assert PopWhile(alg, Below(op), done) == Some(done);
  }

  lemma ReadsParen<V>(alg: Algebra<V>, inner: Expr, s: Stacks<V>)
    requires Numeric(alg, inner) && Grouped(inner)
    requires Reads(alg, inner, Stacks(s.values, s.ops + ['(']))
    ensures Reads(alg, Paren(inner), s)
  {
    var inParen := Stacks(s.values, s.ops + ['(']);
    var read := Stacks(s.values + SpineValues(alg, inner), inParen.ops + SpineOps(inner));
    OneToken(alg, Open, s);
    ProcessAppend(alg, [Open], Tokens(inner), s);
    SpineOpsHigh(inner);
    SpineCollapses(alg, OpenParen, inner, s.values, inParen.ops);
    var closed := Stacks(s.values + [Value(alg, inner)], inParen.ops);
    assert PopWhile(alg, OpenParen, closed) == Some(closed);
    OneToken(alg, Close, read);
    assert DropOpen(inParen.ops) == s.ops && s.ops + [] == s.ops;
    ProcessAppend(alg, [Open] + Tokens(inner), [Close], s);
  }

  /** Token level: for every grouped expression the loop never reads an empty stack and the answer is
      the expression's value, in every interpretation of the operators. */
  lemma EvaluatesExpression<V>(alg: Algebra<V>, e: Expr)
    requires Numeric(alg, e) && Grouped(e)
    ensures EvaluateTokens(alg, Tokens(e)) == Some(Value(alg, e))
    ensures Process(alg, Tokens(e), Stacks([], [])).Some?
         && PopWhile(alg, Empty, Process(alg, Tokens(e), Stacks([], [])).value) == Some(Stacks([Value(alg, e)], []))
  {
    var none: seq<V> := [];
    var start := Stacks(none, []);
    ReadsSpine(alg, e, start);
    SpineCollapses(alg, Empty, e, none, []);
    assert none + [Value(alg, e)] == [Value(alg, e)];
    LastValue(alg, Tokens(e), Stacks(none + SpineValues(alg, e), start.ops + SpineOps(e)), Value(alg, e));
  }

  lemma LastValue<V>(alg: Algebra<V>, tokens: seq<Token>, s: Stacks<V>, v: V)
    requires Process(alg, tokens, Stacks([], [])) == Some(s) && PopWhile(alg, Empty, s) == Some(Stacks([v], []))
    ensures EvaluateTokens(alg, tokens) == Some(v)
  {
  }

  // ---------------------------------------------------------------- characters

  predicate IsSpace(c: char) {
    c == ' ' || c == '\t' || c == '\n' || c == '\r' || c == '\U{0B}' || c == '\U{0C}'
  }

  predicate IsNumberChar(c: char) {
    '0' <= c <= '9' || c == '.'
  }

  // ParseNumber: the maximal run of digits and points at the front.
  function NumberLength(text: string): (k: nat)
    ensures k <= |text| && (k < |text| ==> !IsNumberChar(text[k]))
    ensures forall i :: 0 <= i < k ==> IsNumberChar(text[i])
    ensures text != [] && IsNumberChar(text[0]) ==> k > 0
  {
    if text == [] || !IsNumberChar(text[0]) then 0 else 1 + NumberLength(text[1..])
  }

  function SymbolToken(c: char): Token {
    if c == '(' then Open else if c == ')' then Close else Op(c)
  }

  // The loop's own `i++` runs after ParseNumber has already moved past the number.
  function AfterNumber(text: string, k: nat): string {
    if k < |text| then text[k + 1..] else []
  }

  /** The tokens the loop acts on. */
  function CodeTokens(text: string): seq<Token>
    decreases |text|
  {
    if text == [] then []
    else if IsSpace(text[0]) then CodeTokens(text[1..])
    else if IsNumberChar(text[0]) then
      var k := NumberLength(text);
      [Num(text[..k])] + CodeTokens(AfterNumber(text, k))
    else [SymbolToken(text[0])] + CodeTokens(text[1..])
  }

  /** The tokens of the text: nothing skipped but blanks. */
  function TextTokens(text: string): seq<Token>
    decreases |text|
  {
    if text == [] then []
    else if IsSpace(text[0]) then TextTokens(text[1..])
    else if IsNumberChar(text[0]) then
      var k := NumberLength(text);
      [Num(text[..k])] + TextTokens(text[k..])
    else [SymbolToken(text[0])] + TextTokens(text[1..])
  }

  // Every number is followed by a blank or by the end of the text.
  predicate NumbersEndInBlank(text: string) {
    forall i :: 0 <= i < |text| - 1 && IsNumberChar(text[i]) && !IsNumberChar(text[i + 1]) ==> IsSpace(text[i + 1])
  }

  lemma BlankTail(text: string, k: nat)
    requires 0 < k <= |text|
    requires forall i :: 0 <= i < k && i < |text| - 1 && IsNumberChar(text[i]) && !IsNumberChar(text[i + 1]) ==> IsSpace(text[i + 1])
    ensures NumbersEndInBlank(text) <==> NumbersEndInBlank(text[k..])
  {
    if NumbersEndInBlank(text[k..]) {
      forall i | 0 <= i < |text| - 1 && IsNumberChar(text[i]) && !IsNumberChar(text[i + 1])
        ensures IsSpace(text[i + 1])
      {
        if i >= k { assert text[k..][i - k] == text[i] && text[k..][i - k + 1] == text[i + 1]; }
      }
    }
    if NumbersEndInBlank(text) {
      forall i | 0 <= i < |text[k..]| - 1 && IsNumberChar(text[k..][i]) && !IsNumberChar(text[k..][i + 1])
        ensures IsSpace(text[k..][i + 1])
      {
        assert text[k + i] == text[k..][i];
      }
    }
  }

  /** The loop reads the tokens of the text exactly if every number ends in a blank or at the end;
      otherwise it loses at least one symbol. */
  lemma {:induction false} TokensAgreeIff(text: string)
    ensures CodeTokens(text) == TextTokens(text) <==> NumbersEndInBlank(text)
    ensures |CodeTokens(text)| <= |TextTokens(text)|
    ensures !NumbersEndInBlank(text) ==> |CodeTokens(text)| < |TextTokens(text)|
    decreases |text|
  {
    if text == [] {
    } else if !IsNumberChar(text[0]) {
      TokensAgreeIff(text[1..]);
      BlankTail(text, 1);
    } else {
      NumberAgrees(text);
    }
  }

  lemma {:induction false} NumberAgrees(text: string)
    requires text != [] && IsNumberChar(text[0])
    ensures CodeTokens(text) == TextTokens(text) <==> NumbersEndInBlank(text)
    ensures |CodeTokens(text)| <= |TextTokens(text)|
    ensures !NumbersEndInBlank(text) ==> |CodeTokens(text)| < |TextTokens(text)|
    decreases |text|, 0
  {
    var k := NumberLength(text);
    assert !IsSpace(text[0]);
    if k == |text| {
      assert text[k..] == [];
    } else {
      var tail := text[k + 1..];
      assert text[k..][0] == text[k] && text[k..][1..] == tail;
      TokensAgreeIff(tail);
      if IsSpace(text[k]) {
        assert TextTokens(text[k..]) == TextTokens(tail);
        BlankTail(text, k + 1);
      } else {
        assert TextTokens(text[k..]) == [SymbolToken(text[k])] + TextTokens(tail);
        assert !NumbersEndInBlank(text) by { assert IsNumberChar(text[k - 1]); }
      }
    }
  }

  function FirstToken(text: string): Token
    requires text != []
  {
    if IsNumberChar(text[0]) then Num(text[..NumberLength(text)]) else SymbolToken(text[0])
  }

  // The text from position i, which the loop may have moved past the end.
  function From(text: string, i: nat): string {
    if i <= |text| then text[i..] else []
  }

  // Where the loop continues after the pass that starts at i.
  function NextIndex(text: string, i: nat): nat
    requires i < |text|
  {
    i + 1 + if !IsSpace(text[i]) && IsNumberChar(text[i]) then NumberLength(text[i..]) else 0
  }

  lemma TokensFrom(text: string, i: nat)
    requires i < |text|
    ensures CodeTokens(text[i..]) == (if IsSpace(text[i]) then [] else [FirstToken(text[i..])]) + CodeTokens(From(text, NextIndex(text, i)))
  {
    var rest := text[i..];
    assert rest[0] == text[i];
    if !IsSpace(text[i]) && IsNumberChar(text[i]) {
      assert AfterNumber(rest, NumberLength(rest)) == From(text, NextIndex(text, i));
    } else {
      assert rest[1..] == From(text, NextIndex(text, i));
    }
  }

  lemma ProcessFirst<V>(alg: Algebra<V>, text: string, rest: string, s: Stacks<V>)
    requires text != [] && CodeTokens(text) == (if IsSpace(text[0]) then [] else [FirstToken(text)]) + CodeTokens(rest)
    ensures IsSpace(text[0]) ==> Process(alg, CodeTokens(text), s) == Process(alg, CodeTokens(rest), s)
    ensures !IsSpace(text[0]) ==>
              Process(alg, CodeTokens(text), s) ==
              match TokenEffect(alg, FirstToken(text), s) case None => None case Some(s1) => Process(alg, CodeTokens(rest), s1)
  {
    if IsSpace(text[0]) {
      assert [] + CodeTokens(rest) == CodeTokens(rest);
    } else {
      assert ([FirstToken(text)] + CodeTokens(rest))[1..] == CodeTokens(rest);
    }
  }

  function EvaluateText<V>(alg: Algebra<V>, text: string): Option<V> {
    EvaluateTokens(alg, CodeTokens(text))
  }

  /** Text level: an expression whose numbers end in blanks is evaluated to its value. */
  lemma EvaluatesText<V>(alg: Algebra<V>, text: string, e: Expr)
    requires TextTokens(text) == Tokens(e) && NumbersEndInBlank(text)
    requires Numeric(alg, e) && Grouped(e)
    ensures EvaluateText(alg, text) == Some(Value(alg, e))
  {
    TokensAgreeIff(text);
    EvaluatesExpression(alg, e);
  }

  /** Without the blank the operator is lost: "1+2" evaluates to 2. */
  lemma MissingBlankExample<V>(alg: Algebra<V>)
    requires alg.number("1").Some? && alg.number("2").Some?
    ensures EvaluateText(alg, "1+2") == alg.number("2")
  {
    var text := "1+2";
    assert NumberLength(text) == 1 && text[..1] == "1" && AfterNumber(text, 1) == "2";
    assert NumberLength("2") == 1 && "2"[..1] == "2" && AfterNumber("2", 1) == [];
    assert CodeTokens("2") == [Num("2")];
    assert CodeTokens(text) == [Num("1"), Num("2")];
    var none: seq<V> := [];
    var (a, b) := (alg.number("1").value, alg.number("2").value);
    var s1 := Stacks(none + [a], []);
    assert [Num("1"), Num("2")][1..] == [Num("2")];
    OneToken(alg, Num("2"), s1);
    assert (none + [a] + [b])[1] == b;
  }

  /** Skipped are the characters numbered 32 and 9 to 13, wherever they stand between tokens, and no
      others: any other character gives a token. */
  lemma BlanksAreSkipped(c: char, text: string)
    ensures c as int == 32 || 9 <= c as int <= 13 ==>
              CodeTokens([c] + text) == CodeTokens(text) && TextTokens([c] + text) == TextTokens(text)
    ensures c as int != 32 && !(9 <= c as int <= 13) ==> CodeTokens([c] + text) != [] && TextTokens([c] + text) != []
  {
    assert ([c] + text)[0] == c && ([c] + text)[1..] == text;
  }

  // ---------------------------------------------------------------- printing

  predicate Printable(t: Token) {
    match t
    case Num(text) => text != [] && forall i :: 0 <= i < |text| ==> IsNumberChar(text[i])
    case Op(c) => !IsSpace(c) && !IsNumberChar(c) && c != '(' && c != ')'
    case _ => true
  }

  function TokenText(t: Token): string {
    match t case Num(text) => text case Open => "(" case Close => ")" case Op(c) => [c]
  }

  // Every token followed by one space.
  function Print(tokens: seq<Token>): string {
    if tokens == [] then [] else TokenText(tokens[0]) + " " + Print(tokens[1..])
  }

  lemma {:induction false} NumberLengthIs(text: string, k: nat)
    requires k <= |text| && (forall i :: 0 <= i < k ==> IsNumberChar(text[i])) && (k < |text| ==> !IsNumberChar(text[k]))
    ensures NumberLength(text) == k
    decreases k
  {
    if k > 0 { NumberLengthIs(text[1..], k - 1); }
  }

  lemma ReadsNumber(text: string, rest: string)
    requires text != [] && forall i :: 0 <= i < |text| ==> IsNumberChar(text[i])
    ensures CodeTokens(text + " " + rest) == [Num(text)] + CodeTokens(rest)
  {
    var all := text + " " + rest;
    assert all[0] == text[0] && all[|text|] == ' ';
    NumberLengthIs(all, |text|);
    assert all[..|text|] == text && all[|text| + 1..] == rest;
  }

  lemma ReadsSymbol(c: char, rest: string)
    requires !IsSpace(c) && !IsNumberChar(c)
    ensures CodeTokens([c] + " " + rest) == [SymbolToken(c)] + CodeTokens(rest)
  {
    var all := [c] + " " + rest;
    assert all[0] == c && all[1..] == " " + rest;
    assert (" " + rest)[0] == ' ' && (" " + rest)[1..] == rest;
    assert CodeTokens(" " + rest) == CodeTokens(rest);
  }

  /** What is printed with blanks is read back token by token. */
  lemma {:induction false} PrintReadsBack(tokens: seq<Token>)
    requires forall i :: 0 <= i < |tokens| ==> Printable(tokens[i])
    ensures CodeTokens(Print(tokens)) == tokens
    decreases |tokens|
  {
    if tokens != [] {
      var t, rest := tokens[0], Print(tokens[1..]);
      if t.Num? { ReadsNumber(t.text, rest); } else { ReadsSymbol(TokenText(t)[0], rest); }
      PrintReadsBack(tokens[1..]);
      assert tokens == [t] + tokens[1..];
    }
  }

  /** From expression to text and back to the value. */
  lemma EvaluatesPrinted<V>(alg: Algebra<V>, e: Expr)
    requires Numeric(alg, e) && Grouped(e) && forall i :: 0 <= i < |Tokens(e)| ==> Printable(Tokens(e)[i])
    ensures EvaluateText(alg, Print(Tokens(e))) == Some(Value(alg, e))
  {
    PrintReadsBack(Tokens(e));
    EvaluatesExpression(alg, e);
  }

  // ---------------------------------------------------------------- the program

  class Evaluator<V> {
    const alg: Algebra<V>
    var values: seq<V>
    var ops: seq<char>

    ghost function View(): Stacks<V>
      reads this
    {
      Stacks(values, ops)
    }

    constructor (alg: Algebra<V>)
      ensures this.alg == alg && View() == Stacks([], [])
    {
      this.alg := alg;
      values, ops := [], [];
    }

    // Body of the three popping loops; not ok where the program would read an empty value stack.
    method ApplyTop() returns (ok: bool)
      requires ops != []
      modifies this
      ensures ok == (|old(values)| >= 2)
      ensures ok ==> var n := |old(values)|;
                     && ops == old(ops)[..|old(ops)| - 1]
                     && values == old(values)[..n - 2] + [ApplyOp(alg, old(values)[n - 2], old(values)[n - 1], old(ops)[|old(ops)| - 1])]
    {
      if |values| < 2 {
        return false;
      }
      var val2 := values[|values| - 1];
      values := values[..|values| - 1];
      var val1 := values[|values| - 1];
      values := values[..|values| - 1];
      var op := ops[|ops| - 1];
      ops := ops[..|ops| - 1];
      values := values + [ApplyOp(alg, val1, val2, op)];
      ok := true;
    }

    method PopLoop(until: Until) returns (ok: bool)
      modifies this
      ensures ok == PopWhile(alg, until, old(View())).Some?
      ensures ok ==> PopWhile(alg, until, old(View())) == Some(View())
    {
      ok := true;
      while ops != [] && Pops(until, ops[|ops| - 1])
        invariant PopWhile(alg, until, View()) == PopWhile(alg, until, old(View()))
        decreases |ops|
      {
        ok := ApplyTop();
        if !ok {
          return;
        }
      }
    }

    method ProcessClosingParenthesis() returns (ok: bool)
      modifies this
      ensures ok == TokenEffect(alg, Close, old(View())).Some?
      ensures ok ==> TokenEffect(alg, Close, old(View())) == Some(View())
    {
      ok := PopLoop(OpenParen);
      if ok && ops != [] {
        ops := ops[..|ops| - 1];
      }
    }

    method ProcessOperator(op: char) returns (ok: bool)
      modifies this
      ensures ok == TokenEffect(alg, Op(op), old(View())).Some?
      ensures ok ==> TokenEffect(alg, Op(op), old(View())) == Some(View())
    {
      ok := PopLoop(Below(op));
      if ok {
        ops := ops + [op];
      }
    }

    method ParseNumber(expr: string, start: nat) returns (ok: bool, i: nat)
      requires start <= |expr|
      modifies this
      ensures i == start + NumberLength(expr[start..])
      ensures ok == TokenEffect(alg, Num(expr[start..i]), old(View())).Some?
      ensures ok ==> TokenEffect(alg, Num(expr[start..i]), old(View())) == Some(View())
    {
      i := start;
      var numStr := "";
      while i < |expr| && IsNumberChar(expr[i])
        invariant start <= i <= |expr| && numStr == expr[start..i]
        invariant forall j :: start <= j < i ==> IsNumberChar(expr[j])
      {
        numStr := numStr + [expr[i]];
        i := i + 1;
      }
      NumberLengthIs(expr[start..], i - start);
      var v := alg.number(numStr);
      ok := v.Some?;
      if ok {
        values := values + [v.value];
      }
    }

    // One pass of the loop body and the loop's own i++.
    method ReadOne(expr: string, at: nat) returns (ok: bool, i: nat)
      requires at < |expr|
      modifies this
      ensures i == NextIndex(expr, at)
      ensures IsSpace(expr[at]) ==> ok && View() == old(View())
      ensures !IsSpace(expr[at]) ==> ok == TokenEffect(alg, FirstToken(expr[at..]), old(View())).Some?
      ensures !IsSpace(expr[at]) && ok ==> TokenEffect(alg, FirstToken(expr[at..]), old(View())) == Some(View())
    {
      var c := expr[at];
      assert expr[at..][0] == c;
      ok, i := true, at;
      if !IsSpace(c) {
        if IsNumberChar(c) {
          ok, i := ParseNumber(expr, at);
          assert expr[at..i] == expr[at..][..i - at];
        } else if c == '(' {
          ops := ops + [c];
        } else if c == ')' {
          ok := ProcessClosingParenthesis();
        } else {
          ok := ProcessOperator(c);
        }
      }
      i := i + 1;
    }

    /** EvaluateExpression on the text; None where the program throws or reads an empty stack. */
    method EvaluateExpression(expr: string) returns (result: Option<V>)
      requires View() == Stacks([], [])
      modifies this
      ensures result == EvaluateText(alg, expr)
    {
      var i := 0;
      assert From(expr, 0) == expr;
      while i < |expr|
        invariant 0 <= i
        invariant Process(alg, CodeTokens(From(expr, i)), View()) == Process(alg, CodeTokens(expr), old(View()))
        decreases |expr| - i
      {
        ghost var before, at := View(), i;
        var ok;
        ok, i := ReadOne(expr, i);
        assert From(expr, at) == expr[at..];
        TokensFrom(expr, at);
        ProcessFirst(alg, expr[at..], From(expr, i), before);
        if !ok {
          return None;
        }
      }
      result := Finalize();
    }

    // FinalizeCalculation and the final values.top().
    method Finalize() returns (result: Option<V>)
      modifies this
      ensures result == Finish(alg, old(View()))
    {
      var ok := PopLoop(Empty);
      result := if ok && values != [] then Some(values[|values| - 1]) else None;
    }
  }
}
