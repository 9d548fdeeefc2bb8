/**
  Printing arithmetic expressions with parentheses only where precedence needs
  them, and reading them back with the grammar.
 */
module Expressions {
  import opened Common
  import opened Numerals
  import opened ArithmeticGrammar

  datatype Expr = Num(n: int) | Add(left: Expr, right: Expr) | Mul(left: Expr, right: Expr)

  /** Every number is a 32-bit int. */
  predicate Representable(e: Expr) {
    match e
    case Num(n) => FitsInt(n)
    case Add(l, r) => Representable(l) && Representable(r)
    case Mul(l, r) => Representable(l) && Representable(r)
  }

  // ---------------------------------------------------------------------
  // Printing

  /** `e` where any expression may stand. */
  function Print(e: Expr): string
    decreases e, if e.Add? then 0 else if e.Mul? then 1 else 2
  {
    match e
    case Add(l, r) => Print(l) + "+" + PrintTerm(r)
    case _ => PrintTerm(e)
  }

  /** `e` as an operand of '+' on the right, or on its own: sums need parentheses. */
  function PrintTerm(e: Expr): string
    decreases e, if e.Add? then 2 else if e.Mul? then 0 else 1
  {
    match e
    case Mul(l, r) => PrintTerm(l) + "*" + PrintFactor(r)
    case _ => PrintFactor(e)
  }

  /** `e` as the right operand of '*': sums and products need parentheses. */
  function PrintFactor(e: Expr): string
    decreases e, if e.Add? then 1 else if e.Mul? then 2 else 0
  {
    match e
    case Num(n) => Decimal(n)
    case _ => "(" + Print(e) + ")"
  }

  // ---------------------------------------------------------------------
  // Reading: parse, then group repeated operands to the left

  function ExprOfSum(t: Sum): Expr
    requires WellFormedSum(t)
    decreases t
  {
    AddTerms(ExprOfProduct(t.first), t.more)
  }

  function AddTerms(e: Expr, t: Terms): Expr
    requires WellFormedTerms(t)
    decreases t
  {
    match t
    case NoTerm => e
    case Plus(term, next) => AddTerms(Add(e, ExprOfProduct(term)), next)
  }

  function ExprOfProduct(t: Product): Expr
    requires WellFormedProduct(t)
    decreases t
  {
    MulFactors(ExprOfFactor(t.first), t.more)
  }

  function MulFactors(e: Expr, t: Factors): Expr
    requires WellFormedFactors(t)
    decreases t
  {
    match t
    case NoFactor => e
    case Times(factor, next) => MulFactors(Mul(e, ExprOfFactor(factor)), next)
  }

  function ExprOfFactor(t: Factor): Expr
    requires WellFormedFactor(t)
    decreases t
  {
    match t
    case Literal(text) => Num(NumeralValue(text))
    case Group(inner) => ExprOfSum(inner)
  }

  /** The expression a whole input denotes, if it parses. */
  function Read(s: string): Option<Expr> {
    match ParseOrDie(s)
    case Some(t) => Some(ExprOfSum(t))
    case None => None
  }

  // ---------------------------------------------------------------------
  // The parse tree of a printed expression

  function SumOfExpr(e: Expr): Sum
    decreases e, if e.Add? then 0 else if e.Mul? then 1 else 2
  {
    match e
    case Add(l, r) => var s := SumOfExpr(l); Sum(s.first, AppendTerm(s.more, ProductOfExpr(r)))
    case _ => Sum(ProductOfExpr(e), NoTerm)
  }

  function ProductOfExpr(e: Expr): Product
    decreases e, if e.Add? then 2 else if e.Mul? then 0 else 1
  {
    match e
    case Mul(l, r) => var p := ProductOfExpr(l); Product(p.first, AppendFactor(p.more, FactorOfExpr(r)))
    case _ => Product(FactorOfExpr(e), NoFactor)
  }

  function FactorOfExpr(e: Expr): Factor
    decreases e, if e.Add? then 1 else if e.Mul? then 2 else 0
  {
    match e
    case Num(n) => Literal(Decimal(n))
    case _ => Group(SumOfExpr(e))
  }

  function AppendTerm(t: Terms, p: Product): Terms {
    match t
    case NoTerm => Plus(p, NoTerm)
    case Plus(term, next) => Plus(term, AppendTerm(next, p))
  }

  function AppendFactor(t: Factors, f: Factor): Factors {
    match t
    case NoFactor => Times(f, NoFactor)
    case Times(factor, next) => Times(factor, AppendFactor(next, f))
  }

  lemma {:induction false} AppendTermIsRight(e: Expr, t: Terms, p: Product)
    requires WellFormedTerms(t) && WellFormedProduct(p)
    ensures WellFormedTerms(AppendTerm(t, p))
    ensures SpellTerms(AppendTerm(t, p)) == SpellTerms(t) + ("+" + SpellProduct(p))
    ensures AddTerms(e, AppendTerm(t, p)) == Add(AddTerms(e, t), ExprOfProduct(p))
    decreases t
  {
    match t
    case NoTerm =>
    case Plus(term, next) =>
      AppendTermIsRight(Add(e, ExprOfProduct(term)), next, p);
  }

  lemma {:induction false} AppendFactorIsRight(e: Expr, t: Factors, f: Factor)
    requires WellFormedFactors(t) && WellFormedFactor(f)
    ensures WellFormedFactors(AppendFactor(t, f))
    ensures SpellFactors(AppendFactor(t, f)) == SpellFactors(t) + ("*" + SpellFactor(f))
    ensures MulFactors(e, AppendFactor(t, f)) == Mul(MulFactors(e, t), ExprOfFactor(f))
    decreases t
  {
    match t
    case NoFactor =>
    case Times(factor, next) =>
      AppendFactorIsRight(Mul(e, ExprOfFactor(factor)), next, f);
  }

  lemma {:induction false} SumOfExprIsRight(e: Expr)
    requires Representable(e)
    ensures WellFormedSum(SumOfExpr(e))
    ensures SpellSum(SumOfExpr(e)) == Print(e)
    ensures ExprOfSum(SumOfExpr(e)) == e
    decreases e, if e.Add? then 0 else if e.Mul? then 1 else 2
  {
    match e
    case Add(l, r) =>
      SumOfExprIsRight(l);
      ProductOfExprIsRight(r);
      var s := SumOfExpr(l);
      AppendTermIsRight(ExprOfProduct(s.first), s.more, ProductOfExpr(r));
    case _ =>
      ProductOfExprIsRight(e);
  }

  lemma {:induction false} ProductOfExprIsRight(e: Expr)
    requires Representable(e)
    ensures WellFormedProduct(ProductOfExpr(e))
    ensures SpellProduct(ProductOfExpr(e)) == PrintTerm(e)
    ensures ExprOfProduct(ProductOfExpr(e)) == e
    decreases e, if e.Add? then 2 else if e.Mul? then 0 else 1
  {
    match e
    case Mul(l, r) =>
      ProductOfExprIsRight(l);
      FactorOfExprIsRight(r);
      var p := ProductOfExpr(l);
      AppendFactorIsRight(ExprOfFactor(p.first), p.more, FactorOfExpr(r));
    case _ =>
      FactorOfExprIsRight(e);
  }

  lemma {:induction false} FactorOfExprIsRight(e: Expr)
    requires Representable(e)
    ensures WellFormedFactor(FactorOfExpr(e))
    ensures SpellFactor(FactorOfExpr(e)) == PrintFactor(e)
    ensures ExprOfFactor(FactorOfExpr(e)) == e
    decreases e, if e.Add? then 1 else if e.Mul? then 2 else 0
  {
    match e
    case Num(n) => DecimalRoundTrip(n);
    case _ => SumOfExprIsRight(e);
  }

  /** A printed expression is accepted whole and read back as the same tree. */
  lemma PrintedExprReadsBack(e: Expr)
    requires Representable(e)
    ensures Read(Print(e)) == Some(e)
  {
    SumOfExprIsRight(e);
    FindsSum(SumOfExpr(e), "");
    assert Print(e) + "" == Print(e);
  }

  /** Different expressions print differently. */
  lemma PrintIsInjective(e: Expr, f: Expr)
    requires Representable(e) && Representable(f)
    requires Print(e) == Print(f)
    ensures e == f
  {
    PrintedExprReadsBack(e);
    PrintedExprReadsBack(f);
  }

  /** Whatever is read is representable. */
  lemma {:induction false} ReadIsRepresentable(t: Sum)
    requires WellFormedSum(t)
    ensures Representable(ExprOfSum(t))
    decreases t
  {
    ProductIsRepresentable(t.first);
    TermsAreRepresentable(ExprOfProduct(t.first), t.more);
  }

  lemma {:induction false} TermsAreRepresentable(e: Expr, t: Terms)
    requires WellFormedTerms(t) && Representable(e)
    ensures Representable(AddTerms(e, t))
    decreases t
  {
    match t
    case NoTerm =>
    case Plus(term, next) =>
      ProductIsRepresentable(term);
      TermsAreRepresentable(Add(e, ExprOfProduct(term)), next);
  }

  lemma {:induction false} ProductIsRepresentable(t: Product)
    requires WellFormedProduct(t)
    ensures Representable(ExprOfProduct(t))
    decreases t
  {
    FactorIsRepresentable(t.first);
    FactorsAreRepresentable(ExprOfFactor(t.first), t.more);
  }

  lemma {:induction false} FactorsAreRepresentable(e: Expr, t: Factors)
    requires WellFormedFactors(t) && Representable(e)
    ensures Representable(MulFactors(e, t))
    decreases t
  {
    match t
    case NoFactor =>
    case Times(factor, next) =>
      FactorIsRepresentable(factor);
      FactorsAreRepresentable(Mul(e, ExprOfFactor(factor)), next);
  }

  lemma {:induction false} FactorIsRepresentable(t: Factor)
    requires WellFormedFactor(t)
    ensures Representable(ExprOfFactor(t))
    decreases t
  {
    match t
    case Literal(text) =>
    case Group(inner) => ReadIsRepresentable(inner);
  }

  /** Reading any input and printing the result gives an input that reads the same. */
  lemma ReadingIsStable(s: string)
    requires Read(s).Some?
    ensures Read(Print(Read(s).value)) == Read(s)
  {
    ReadIsRepresentable(ParseOrDie(s).value);
    PrintedExprReadsBack(Read(s).value);
  }
}
