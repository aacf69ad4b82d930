/** The expressions of the calculator as a grammar, with one level for each kind of operator, and what
    they mean, independent of how the evaluator ranks and applies operators. */
module CalculatorGrammar {
  import opened Calculator

  // Every level associates to the left.
  datatype Sum = Term(product: Product) | Plus(left: Sum, right: Product) | Minus(left: Sum, right: Product)
  datatype Product = Factor(power: Power) | Times(left: Product, right: Power) | Over(left: Product, right: Power)
  datatype Power = Base(atom: Atom) | Raised(left: Power, right: Atom)
  datatype Atom = Number(text: string) | Group(inner: Sum)

  // ---------------------------------------------------------------- meaning

  predicate SumNumeric<V>(alg: Algebra<V>, s: Sum) {
    match s
    case Term(p) => ProductNumeric(alg, p)
    case Plus(l, r) => SumNumeric(alg, l) && ProductNumeric(alg, r)
    case Minus(l, r) => SumNumeric(alg, l) && ProductNumeric(alg, r)
  }

  predicate ProductNumeric<V>(alg: Algebra<V>, p: Product) {
    match p
    case Factor(w) => PowerNumeric(alg, w)
    case Times(l, r) => ProductNumeric(alg, l) && PowerNumeric(alg, r)
    case Over(l, r) => ProductNumeric(alg, l) && PowerNumeric(alg, r)
  }

  predicate PowerNumeric<V>(alg: Algebra<V>, w: Power) {
    match w
    case Base(a) => AtomNumeric(alg, a)
    case Raised(l, r) => PowerNumeric(alg, l) && AtomNumeric(alg, r)
  }

  predicate AtomNumeric<V>(alg: Algebra<V>, a: Atom) {
    match a
    case Number(text) => alg.number(text).Some?
    case Group(s) => SumNumeric(alg, s)
  }

  function SumValue<V>(alg: Algebra<V>, s: Sum): V
    requires SumNumeric(alg, s)
  {
    match s
    case Term(p) => ProductValue(alg, p)
    case Plus(l, r) => alg.add(SumValue(alg, l), ProductValue(alg, r))
    case Minus(l, r) => alg.sub(SumValue(alg, l), ProductValue(alg, r))
  }

  // '/' has no case of its own in the program: the default applies.
  function ProductValue<V>(alg: Algebra<V>, p: Product): V
    requires ProductNumeric(alg, p)
  {
    match p
    case Factor(w) => PowerValue(alg, w)
    case Times(l, r) => alg.mul(ProductValue(alg, l), PowerValue(alg, r))
    case Over(l, r) => alg.zero
  }

  function PowerValue<V>(alg: Algebra<V>, w: Power): V
    requires PowerNumeric(alg, w)
  {
    match w
    case Base(a) => AtomValue(alg, a)
    case Raised(l, r) => alg.pow(PowerValue(alg, l), AtomValue(alg, r))
  }

  function AtomValue<V>(alg: Algebra<V>, a: Atom): V
    requires AtomNumeric(alg, a)
  {
    match a
    case Number(text) => alg.number(text).value
    case Group(s) => SumValue(alg, s)
  }

  // ---------------------------------------------------------------- writing

  function SumTokens(s: Sum): seq<Token> {
    match s
    case Term(p) => ProductTokens(p)
    case Plus(l, r) => SumTokens(l) + [Op('+')] + ProductTokens(r)
    case Minus(l, r) => SumTokens(l) + [Op('-')] + ProductTokens(r)
  }

  function ProductTokens(p: Product): seq<Token> {
    match p
    case Factor(w) => PowerTokens(w)
    case Times(l, r) => ProductTokens(l) + [Op('*')] + PowerTokens(r)
    case Over(l, r) => ProductTokens(l) + [Op('/')] + PowerTokens(r)
  }

  function PowerTokens(w: Power): seq<Token> {
    match w
    case Base(a) => AtomTokens(a)
    case Raised(l, r) => PowerTokens(l) + [Op('^')] + AtomTokens(r)
  }

  function AtomTokens(a: Atom): seq<Token> {
    match a
    case Number(text) => [Num(text)]
    case Group(s) => [Open] + SumTokens(s) + [Close]
  }

  // ---------------------------------------------------------------- the same as an expression

  function SumExpr(s: Sum): Expr {
    match s
    case Term(p) => ProductExpr(p)
    case Plus(l, r) => Bin('+', SumExpr(l), ProductExpr(r))
    case Minus(l, r) => Bin('-', SumExpr(l), ProductExpr(r))
  }

  function ProductExpr(p: Product): Expr {
    match p
    case Factor(w) => PowerExpr(w)
    case Times(l, r) => Bin('*', ProductExpr(l), PowerExpr(r))
    case Over(l, r) => Bin('/', ProductExpr(l), PowerExpr(r))
  }

  function PowerExpr(w: Power): Expr {
    match w
    case Base(a) => AtomExpr(a)
    case Raised(l, r) => Bin('^', PowerExpr(l), AtomExpr(r))
  }

  function AtomExpr(a: Atom): Expr {
    match a
    case Number(text) => Lit(text)
    case Group(s) => Paren(SumExpr(s))
  }

  lemma {:induction false} SumIsGrouped<V>(alg: Algebra<V>, s: Sum)
    ensures Grouped(SumExpr(s)) && Level(SumExpr(s)) >= 1 && Tokens(SumExpr(s)) == SumTokens(s)
    ensures Numeric(alg, SumExpr(s)) <==> SumNumeric(alg, s)
    ensures SumNumeric(alg, s) ==> Value(alg, SumExpr(s)) == SumValue(alg, s)
  {
    match s
    case Term(p) => ProductIsGrouped(alg, p);
    case Plus(l, r) => SumIsGrouped(alg, l); ProductIsGrouped(alg, r);
    case Minus(l, r) => SumIsGrouped(alg, l); ProductIsGrouped(alg, r);
  }

  lemma {:induction false} ProductIsGrouped<V>(alg: Algebra<V>, p: Product)
    ensures Grouped(ProductExpr(p)) && Level(ProductExpr(p)) >= 2 && Tokens(ProductExpr(p)) == ProductTokens(p)
    ensures Numeric(alg, ProductExpr(p)) <==> ProductNumeric(alg, p)
    ensures ProductNumeric(alg, p) ==> Value(alg, ProductExpr(p)) == ProductValue(alg, p)
  {
    match p
    case Factor(w) => PowerIsGrouped(alg, w);
    case Times(l, r) => ProductIsGrouped(alg, l); PowerIsGrouped(alg, r);
    case Over(l, r) => ProductIsGrouped(alg, l); PowerIsGrouped(alg, r);
  }

  lemma {:induction false} PowerIsGrouped<V>(alg: Algebra<V>, w: Power)
    ensures Grouped(PowerExpr(w)) && Level(PowerExpr(w)) >= 3 && Tokens(PowerExpr(w)) == PowerTokens(w)
    ensures Numeric(alg, PowerExpr(w)) <==> PowerNumeric(alg, w)
    ensures PowerNumeric(alg, w) ==> Value(alg, PowerExpr(w)) == PowerValue(alg, w)
  {
    match w
    case Base(a) => AtomIsGrouped(alg, a);
    case Raised(l, r) => PowerIsGrouped(alg, l); AtomIsGrouped(alg, r);
  }

  lemma {:induction false} AtomIsGrouped<V>(alg: Algebra<V>, a: Atom)
    ensures Grouped(AtomExpr(a)) && Level(AtomExpr(a)) == 4 && Tokens(AtomExpr(a)) == AtomTokens(a)
    ensures Numeric(alg, AtomExpr(a)) <==> AtomNumeric(alg, a)
    ensures AtomNumeric(alg, a) ==> Value(alg, AtomExpr(a)) == AtomValue(alg, a)
  {
    match a
    case Number(text) =>
    case Group(s) => SumIsGrouped(alg, s);
  }

  // ---------------------------------------------------------------- every grouped expression is one

  function ToSum(e: Expr): (s: Sum)
    requires Grouped(e)
    ensures SumExpr(s) == e
    decreases e, 3
  {
    if e.Bin? && e.op == '+' then Plus(ToSum(e.left), ToProduct(e.right))
    else if e.Bin? && e.op == '-' then Minus(ToSum(e.left), ToProduct(e.right))
    else Term(ToProduct(e))
  }

  function ToProduct(e: Expr): (p: Product)
    requires Grouped(e) && Level(e) >= 2
    ensures ProductExpr(p) == e
    decreases e, 2
  {
    if e.Bin? && e.op == '*' then Times(ToProduct(e.left), ToPower(e.right))
    else if e.Bin? && e.op == '/' then Over(ToProduct(e.left), ToPower(e.right))
    else Factor(ToPower(e))
  }

  function ToPower(e: Expr): (w: Power)
    requires Grouped(e) && Level(e) >= 3
    ensures PowerExpr(w) == e
    decreases e, 1
  {
    if e.Bin? then Raised(ToPower(e.left), ToAtom(e.right)) else Base(ToAtom(e))
  }

  function ToAtom(e: Expr): (a: Atom)
    requires Grouped(e) && Level(e) >= 4
    ensures AtomExpr(a) == e
    decreases e, 0
  {
    match e
    case Lit(text) => Number(text)
    case Paren(inner) => Group(ToSum(inner))
  }

  /** The groupings the evaluator respects are exactly those of the grammar. */
  lemma GroupedIff(e: Expr)
    ensures Grouped(e) <==> exists s :: SumExpr(s) == e
  {
    if Grouped(e) { assert SumExpr(ToSum(e)) == e; }
    forall s | SumExpr(s) == e ensures Grouped(e) {
      SumIsGrouped(Algebra(t => Some(0), (x, y) => 0, (x, y) => 0, (x, y) => 0, (x, y) => 0, 0), s);
    }
  }

  // ---------------------------------------------------------------- evaluation

  /** For every sum of the grammar and every meaning of numbers and operators the evaluator reads no
      empty stack and answers its value. */
  lemma EvaluatesSum<V>(alg: Algebra<V>, s: Sum)
    requires SumNumeric(alg, s)
    ensures EvaluateTokens(alg, SumTokens(s)) == Some(SumValue(alg, s))
  {
    SumIsGrouped(alg, s);
    EvaluatesExpression(alg, SumExpr(s));
  }

  lemma EvaluatesSumText<V>(alg: Algebra<V>, text: string, s: Sum)
    requires SumNumeric(alg, s) && TextTokens(text) == SumTokens(s) && NumbersEndInBlank(text)
    ensures EvaluateText(alg, text) == Some(SumValue(alg, s))
  {
    SumIsGrouped(alg, s);
    EvaluatesText(alg, text, SumExpr(s));
  }

  // ---------------------------------------------------------------- as text

  // Digits and points.
  predicate Digits(text: string) {
    text != [] && forall i :: 0 <= i < |text| ==> text[i] in "0123456789."
  }

  predicate SumWritten(s: Sum) {
    match s
    case Term(p) => ProductWritten(p)
    case Plus(l, r) => SumWritten(l) && ProductWritten(r)
    case Minus(l, r) => SumWritten(l) && ProductWritten(r)
  }

  predicate ProductWritten(p: Product) {
    match p
    case Factor(w) => PowerWritten(w)
    case Times(l, r) => ProductWritten(l) && PowerWritten(r)
    case Over(l, r) => ProductWritten(l) && PowerWritten(r)
  }

  predicate PowerWritten(w: Power) {
    match w
    case Base(a) => AtomWritten(a)
    case Raised(l, r) => PowerWritten(l) && AtomWritten(r)
  }

  predicate AtomWritten(a: Atom) {
    match a
    case Number(text) => Digits(text)
    case Group(s) => SumWritten(s)
  }

  // One space after every number, operator and parenthesis.
  function SumText(s: Sum): string {
    match s
    case Term(p) => ProductText(p)
    case Plus(l, r) => SumText(l) + "+ " + ProductText(r)
    case Minus(l, r) => SumText(l) + "- " + ProductText(r)
  }

  function ProductText(p: Product): string {
    match p
    case Factor(w) => PowerText(w)
    case Times(l, r) => ProductText(l) + "* " + PowerText(r)
    case Over(l, r) => ProductText(l) + "/ " + PowerText(r)
  }

  function PowerText(w: Power): string {
    match w
    case Base(a) => AtomText(a)
    case Raised(l, r) => PowerText(l) + "^ " + AtomText(r)
  }

  function AtomText(a: Atom): string {
    match a
    case Number(text) => text + " "
    case Group(s) => "( " + SumText(s) + ") "
  }

  ghost predicate Prints(tokens: seq<Token>, text: string) {
    Print(tokens) == text && forall i :: 0 <= i < |tokens| ==> Printable(tokens[i])
  }

  lemma {:induction false} PrintAppend(a: seq<Token>, b: seq<Token>)
    ensures Print(a + b) == Print(a) + Print(b)
    decreases |a|
  {
    if a == [] {
      assert a + b == b;
    } else {
      assert (a + b)[0] == a[0] && (a + b)[1..] == a[1..] + b;
      PrintAppend(a[1..], b);
    }
  }

  lemma PrintsOne(t: Token, text: string)
    requires Printable(t) && text == TokenText(t) + " "
    ensures Prints([t], text)
  {
    assert [t][1..] == [] && Print([t]) == text + [];
  }

  lemma PrintsThree(a: seq<Token>, t: Token, b: seq<Token>, x: string, y: string, z: string)
    requires Prints(a, x) && Prints([t], y) && Prints(b, z)
    ensures Prints(a + [t] + b, x + y + z)
  {
    PrintAppend(a, [t]);
    PrintAppend(a + [t], b);
  }

  lemma PrintsNumber(text: string)
    requires Digits(text)
    ensures Prints([Num(text)], text + " ")
  {
    assert forall i :: 0 <= i < |text| ==> IsNumberChar(text[i]);
    PrintsOne(Num(text), text + " ");
  }

  lemma PrintsOperator(c: char)
    requires c == '+' || c == '-' || c == '*' || c == '/' || c == '^'
    ensures Prints([Op(c)], [c] + " ")
  {
    PrintsOne(Op(c), [c] + " ");
  }

  lemma {:induction false} SumPrints(s: Sum)
    requires SumWritten(s)
    ensures Prints(SumTokens(s), SumText(s))
  {
    match s
    case Term(p) => ProductPrints(p);
    case Plus(l, r) =>
      SumPrints(l); ProductPrints(r); PrintsOperator('+');
      PrintsThree(SumTokens(l), Op('+'), ProductTokens(r), SumText(l), "+ ", ProductText(r));
    case Minus(l, r) =>
      SumPrints(l); ProductPrints(r); PrintsOperator('-');
      PrintsThree(SumTokens(l), Op('-'), ProductTokens(r), SumText(l), "- ", ProductText(r));
  }

  lemma {:induction false} ProductPrints(p: Product)
    requires ProductWritten(p)
    ensures Prints(ProductTokens(p), ProductText(p))
  {
    match p
    case Factor(w) => PowerPrints(w);
    case Times(l, r) =>
      ProductPrints(l); PowerPrints(r); PrintsOperator('*');
      PrintsThree(ProductTokens(l), Op('*'), PowerTokens(r), ProductText(l), "* ", PowerText(r));
    case Over(l, r) =>
      ProductPrints(l); PowerPrints(r); PrintsOperator('/');
      PrintsThree(ProductTokens(l), Op('/'), PowerTokens(r), ProductText(l), "/ ", PowerText(r));
  }

  lemma {:induction false} PowerPrints(w: Power)
    requires PowerWritten(w)
    ensures Prints(PowerTokens(w), PowerText(w))
  {
    match w
    case Base(a) => AtomPrints(a);
    case Raised(l, r) =>
      PowerPrints(l); AtomPrints(r); PrintsOperator('^');
      PrintsThree(PowerTokens(l), Op('^'), AtomTokens(r), PowerText(l), "^ ", AtomText(r));
  }

  lemma {:induction false} AtomPrints(a: Atom)
    requires AtomWritten(a)
    ensures Prints(AtomTokens(a), AtomText(a))
  {
    match a
    case Number(text) => PrintsNumber(text);
    case Group(s) =>
      SumPrints(s);
      PrintsOne(Open, "( ");
      PrintsOne(Close, ") ");
      PrintAppend([Open], SumTokens(s));
      PrintAppend([Open] + SumTokens(s), [Close]);
  }

  /** From a tree of the grammar to text and back to its value; no part of this statement mentions how
      the evaluator reads characters, ranks operators or applies them. */
  lemma EvaluatesWritten<V>(alg: Algebra<V>, s: Sum)
    requires SumNumeric(alg, s) && SumWritten(s)
    ensures EvaluateText(alg, SumText(s)) == Some(SumValue(alg, s))
  {
    SumPrints(s);
    PrintReadsBack(SumTokens(s));
    EvaluatesSum(alg, s);
  }

  lemma Single<V>(alg: Algebra<V>, text: string)
    requires Digits(text) && alg.number(text).Some?
    ensures var w := Base(Number(text));
            && PowerNumeric(alg, w) && PowerWritten(w) && PowerText(w) == text + " " && PowerValue(alg, w) == alg.number(text).value
            && ProductNumeric(alg, Factor(w)) && ProductWritten(Factor(w)) && ProductText(Factor(w)) == text + " "
            && ProductValue(alg, Factor(w)) == alg.number(text).value
  {
    assert AtomNumeric(alg, Number(text)) && AtomWritten(Number(text));
  }

  lemma SingleTerm<V>(alg: Algebra<V>, p: Product)
    requires ProductNumeric(alg, p) && ProductWritten(p)
    ensures SumNumeric(alg, Term(p)) && SumWritten(Term(p)) && SumText(Term(p)) == ProductText(p)
    ensures SumValue(alg, Term(p)) == ProductValue(alg, p)
  {
  }

  /** Times goes before plus, whichever numbers are written. */
  lemma TimesBeforePlus<V>(alg: Algebra<V>, x: string, y: string, z: string)
    requires Digits(x) && Digits(y) && Digits(z)
    requires alg.number(x).Some? && alg.number(y).Some? && alg.number(z).Some?
    ensures EvaluateText(alg, x + " " + "+ " + (y + " " + "* " + (z + " ")))
         == Some(alg.add(alg.number(x).value, alg.mul(alg.number(y).value, alg.number(z).value)))
  {
    Single(alg, x);
    Single(alg, y);
    Single(alg, z);
    var (left, right) := (Factor(Base(Number(x))), Times(Factor(Base(Number(y))), Base(Number(z))));
    SingleTerm(alg, left);
    EvaluatesWritten(alg, Plus(Term(left), right));
  }
}
