/**
  The four mutually recursive rules of the arithmetic grammar, read twice:

  - as the greedy, ordered-choice recogniser that the combinators `>>`, `|` and
    `*` build (`ParseStart` and its companions);
  - as an ordinary, unordered context-free grammar (`Derives`), in which each
    repetition is a nonterminal with an empty and a recursive production.

  The two accept the same strings, and the grammar is unambiguous.
 */
module ArithmeticGrammar {
  import opened Common
  import opened Numerals

  // ---------------------------------------------------------------------
  // Parse trees

  datatype Sum = Sum(first: Product, more: Terms)
  datatype Terms = NoTerm | Plus(term: Product, next: Terms)
  datatype Product = Product(first: Factor, more: Factors)
  datatype Factors = NoFactor | Times(factor: Factor, next: Factors)
  datatype Factor = Literal(text: string) | Group(inner: Sum)

  /** The leaves of a tree, from left to right. */
  function SpellSum(t: Sum): string { SpellProduct(t.first) + SpellTerms(t.more) }

  function SpellTerms(t: Terms): string {
    match t
    case NoTerm => ""
    case Plus(term, next) => "+" + SpellProduct(term) + SpellTerms(next)
  }

  function SpellProduct(t: Product): string { SpellFactor(t.first) + SpellFactors(t.more) }

  function SpellFactors(t: Factors): string {
    match t
    case NoFactor => ""
    case Times(factor, next) => "*" + SpellFactor(factor) + SpellFactors(next)
  }

  function SpellFactor(t: Factor): string {
    match t
    case Literal(text) => text
    case Group(inner) => "(" + SpellSum(inner) + ")"
  }

  /** Trees whose number leaves are integer tokens. */
  predicate WellFormedSum(t: Sum) { WellFormedProduct(t.first) && WellFormedTerms(t.more) }

  predicate WellFormedTerms(t: Terms) {
    match t
    case NoTerm => true
    case Plus(term, next) => WellFormedProduct(term) && WellFormedTerms(next)
  }

  predicate WellFormedProduct(t: Product) { WellFormedFactor(t.first) && WellFormedFactors(t.more) }

  predicate WellFormedFactors(t: Factors) {
    match t
    case NoFactor => true
    case Times(factor, next) => WellFormedFactor(factor) && WellFormedFactors(next)
  }

  predicate WellFormedFactor(t: Factor) {
    match t
    case Literal(text) => IsLiteral(text)
    case Group(inner) => WellFormedSum(inner)
  }

  // ---------------------------------------------------------------------
  // The recogniser. A failed parser leaves the iterator where it was.

  datatype Match<+T> = Fail | Match(tree: T, rest: string)

  /** Reassembles an input from an operator, an operand and two tails. */
  lemma Regroup(op: string, operand: string, tail: string, rest: string, s: string)
    requires |op| == 1 && s != "" && s[0] == op[0]
    requires s[1..] == operand + (tail + rest)
    ensures op + operand + tail + rest == s
  {
    assert op + operand + tail + rest == op + s[1..];
  }

  /** start = product >> *('+' >> product) */
  function ParseStart(s: string): (r: Match<Sum>)
    ensures r.Match? ==> |r.rest| < |s|
    ensures r.Match? ==> WellFormedSum(r.tree) && SpellSum(r.tree) + r.rest == s
    decreases |s|, 4
  {
    match ParseProduct(s)
    case Fail => Fail
    case Match(first, rest) =>
      var (more, rest') := ParseTerms(rest);
      Match(Sum(first, more), rest')
  }

  /** *('+' >> product): a repetition always succeeds. */
  function ParseTerms(s: string): (r: (Terms, string))
    ensures |r.1| <= |s|
    ensures WellFormedTerms(r.0) && SpellTerms(r.0) + r.1 == s
    decreases |s|, 4
  {
    if s == "" || s[0] != '+' then (NoTerm, s)
    else
      match ParseProduct(s[1..])
      case Fail => (NoTerm, s)
      case Match(term, rest) =>
        var (next, rest') := ParseTerms(rest);
        Regroup("+", SpellProduct(term), SpellTerms(next), rest', s);
        (Plus(term, next), rest')
  }

  /** product = factor >> *('*' >> factor) */
  function ParseProduct(s: string): (r: Match<Product>)
    ensures r.Match? ==> |r.rest| < |s|
    ensures r.Match? ==> WellFormedProduct(r.tree) && SpellProduct(r.tree) + r.rest == s
    decreases |s|, 3
  {
    match ParseFactor(s)
    case Fail => Fail
    case Match(first, rest) =>
      var (more, rest') := ParseFactors(rest);
      Match(Product(first, more), rest')
  }

  /** *('*' >> factor) */
  function ParseFactors(s: string): (r: (Factors, string))
    ensures |r.1| <= |s|
    ensures WellFormedFactors(r.0) && SpellFactors(r.0) + r.1 == s
    decreases |s|, 3
  {
    if s == "" || s[0] != '*' then (NoFactor, s)
    else
      match ParseFactor(s[1..])
      case Fail => (NoFactor, s)
      case Match(factor, rest) =>
        var (next, rest') := ParseFactors(rest);
        Regroup("*", SpellFactor(factor), SpellFactors(next), rest', s);
        (Times(factor, next), rest')
  }

  /** factor = int_ | group: the second alternative is tried only if the first fails. */
  function ParseFactor(s: string): (r: Match<Factor>)
    ensures r.Match? ==> |r.rest| < |s|
    ensures r.Match? ==> WellFormedFactor(r.tree) && SpellFactor(r.tree) + r.rest == s
    decreases |s|, 2
  {
    match ParseInt(s)
    case Some(n) => Match(Literal(s[..n]), s[n..])
    case None => ParseGroup(s)
  }

  /** group = '(' >> start >> ')' */
  function ParseGroup(s: string): (r: Match<Factor>)
    ensures r.Match? ==> |r.rest| < |s|
    ensures r.Match? ==> WellFormedFactor(r.tree) && SpellFactor(r.tree) + r.rest == s
    decreases |s|, 1
  {
    if s == "" || s[0] != '(' then Fail
    else
      match ParseStart(s[1..])
      case Fail => Fail
      case Match(inner, rest) =>
        if rest == "" || rest[0] != ')' then Fail
        else Match(Group(inner), rest[1..])
  }

  /** `ParseOrDie`: the parse must succeed and reach the end of the input. */
  function ParseOrDie(s: string): (r: Option<Sum>)
    ensures r.Some? ==> WellFormedSum(r.value) && SpellSum(r.value) == s
  {
    match ParseStart(s)
    case Match(tree, "") => Some(tree)
    case _ => None
  }

  // ---------------------------------------------------------------------
  // The recogniser finds every tree

  predicate StartsWithDigit(w: string) { w != "" && IsDigit(w[0]) }

  predicate EndsProduct(w: string) { !StartsWithDigit(w) && (w != "" ==> w[0] != '*') }

  predicate EndsSum(w: string) { EndsProduct(w) && (w != "" ==> w[0] != '+') }

  lemma {:induction false} FindsSum(t: Sum, w: string)
    requires WellFormedSum(t) && EndsSum(w)
    ensures ParseStart(SpellSum(t) + w) == Match(t, w)
  {
    assert SpellSum(t) + w == SpellProduct(t.first) + (SpellTerms(t.more) + w);
    FindsProduct(t.first, SpellTerms(t.more) + w);
    FindsTerms(t.more, w);
  }

  lemma {:induction false} FindsTerms(t: Terms, w: string)
    requires WellFormedTerms(t) && EndsSum(w)
    ensures EndsProduct(SpellTerms(t) + w)
    ensures ParseTerms(SpellTerms(t) + w) == (t, w)
  {
    hide ParseProduct;
    match t
    case NoTerm =>
      assert SpellTerms(t) + w == w;
    case Plus(term, next) =>
      var s := SpellTerms(t) + w;
      assert s[1..] == SpellProduct(term) + (SpellTerms(next) + w);
      FindsTerms(next, w);
      FindsProduct(term, SpellTerms(next) + w);
  }

  lemma {:induction false} FindsProduct(t: Product, w: string)
    requires WellFormedProduct(t) && EndsProduct(w)
    ensures ParseProduct(SpellProduct(t) + w) == Match(t, w)
  {
    assert SpellProduct(t) + w == SpellFactor(t.first) + (SpellFactors(t.more) + w);
    FindsFactors(t.more, w);
    FindsFactor(t.first, SpellFactors(t.more) + w);
  }

  lemma {:induction false} FindsFactors(t: Factors, w: string)
    requires WellFormedFactors(t) && EndsProduct(w)
    ensures !StartsWithDigit(SpellFactors(t) + w)
    ensures ParseFactors(SpellFactors(t) + w) == (t, w)
  {
    match t
    case NoFactor =>
      assert SpellFactors(t) + w == w;
    case Times(factor, next) =>
      var s := SpellFactors(t) + w;
      assert s[1..] == SpellFactor(factor) + (SpellFactors(next) + w);
      FindsFactors(next, w);
      FindsFactor(factor, SpellFactors(next) + w);
  }

  lemma {:induction false} FindsFactor(t: Factor, w: string)
    requires WellFormedFactor(t) && !StartsWithDigit(w)
    ensures ParseFactor(SpellFactor(t) + w) == Match(t, w)
  {
    var s := SpellFactor(t) + w;
    match t
    case Literal(text) =>
      ParseIntReadsLiteral(text, w);
      assert s[..|text|] == text && s[|text|..] == w;
    case Group(inner) =>
      assert s[1..] == SpellSum(inner) + (")" + w);
      FindsSum(inner, ")" + w);
      assert (")" + w)[1..] == w;
      assert SignLength(s) == 0 && s[0..] == s && DigitRun(s) == 0;
      assert ParseInt(s) == None;
  }

  /** Every string has at most one parse tree. */
  lemma Unambiguous(t: Sum, u: Sum)
    requires WellFormedSum(t) && WellFormedSum(u)
    requires SpellSum(t) == SpellSum(u)
    ensures t == u
  {
    FindsSum(t, "");
    FindsSum(u, "");
  }

  // ---------------------------------------------------------------------
  // The same rules as a context-free grammar

  datatype Variable = VStart | VTerms | VProduct | VFactors | VFactor | VGroup

  datatype Symbol = Char(c: char) | Int | Var(v: Variable)

  /** The productions; `VTerms` and `VFactors` are the two repetitions. */
  predicate Production(v: Variable, rhs: seq<Symbol>) {
    match v
    case VStart => rhs == [Var(VProduct), Var(VTerms)]
    case VTerms => rhs == [] || rhs == [Char('+'), Var(VProduct), Var(VTerms)]
    case VProduct => rhs == [Var(VFactor), Var(VFactors)]
    case VFactors => rhs == [] || rhs == [Char('*'), Var(VFactor), Var(VFactors)]
    case VFactor => rhs == [Int] || rhs == [Var(VGroup)]
    case VGroup => rhs == [Char('('), Var(VStart), Char(')')]
  }

  /** Symbol `x` derives the string `s` by a derivation tree of height at most `h`. */
  ghost predicate DerivesWithin(x: Symbol, s: string, h: nat)
    decreases h, 0
  {
    match x
    case Char(c) => s == [c]
    case Int => IsLiteral(s)
    case Var(v) => h > 0 && exists rhs :: Production(v, rhs) && FormDerivesWithin(rhs, s, h - 1)
  }

  /** The sentential form `f` derives `s`: `s` splits into parts derived by its symbols. */
  ghost predicate FormDerivesWithin(f: seq<Symbol>, s: string, h: nat)
    decreases h, 1 + |f|
  {
    if f == [] then s == ""
    else exists k :: 0 <= k <= |s| && DerivesWithin(f[0], s[..k], h) && FormDerivesWithin(f[1..], s[k..], h)
  }

  ghost predicate Derives(x: Symbol, s: string) {
    exists h: nat :: DerivesWithin(x, s, h)
  }

  lemma {:induction false} DerivesHigher(x: Symbol, s: string, h: nat, h': nat)
    requires h <= h' && DerivesWithin(x, s, h)
    ensures DerivesWithin(x, s, h')
    decreases h, 0
  {
    if x.Var? {
      var rhs :| Production(x.v, rhs) && FormDerivesWithin(rhs, s, h - 1);
      FormDerivesHigher(rhs, s, h - 1, h' - 1);
    }
  }

  lemma {:induction false} FormDerivesHigher(f: seq<Symbol>, s: string, h: nat, h': nat)
    requires h <= h' && FormDerivesWithin(f, s, h)
    ensures FormDerivesWithin(f, s, h')
    decreases h, 1 + |f|
  {
    if f != [] {
      var k :| 0 <= k <= |s| && DerivesWithin(f[0], s[..k], h) && FormDerivesWithin(f[1..], s[k..], h);
      DerivesHigher(f[0], s[..k], h, h');
      FormDerivesHigher(f[1..], s[k..], h, h');
    }
  }

  ghost predicate FormDerives(f: seq<Symbol>, s: string) {
    exists h: nat :: FormDerivesWithin(f, s, h)
  }

  lemma EmptyFormDerives()
    ensures FormDerives([], "")
  {
    assert FormDerivesWithin([], "", 0);
  }

  lemma FormDerivesMore(x: Symbol, a: string, f: seq<Symbol>, b: string)
    requires Derives(x, a) && FormDerives(f, b)
    ensures FormDerives([x] + f, a + b)
  {
    var h: nat :| DerivesWithin(x, a, h);
    var h': nat :| FormDerivesWithin(f, b, h');
    var m := if h < h' then h' else h;
    DerivesHigher(x, a, h, m);
    FormDerivesHigher(f, b, h', m);
    var g, s := [x] + f, a + b;
    assert g[0] == x && g[1..] == f;
    assert s[..|a|] == a && s[|a|..] == b;
    assert FormDerivesWithin(g, s, m);
  }

  lemma SingleFormDerives(x: Symbol, a: string)
    requires Derives(x, a)
    ensures FormDerives([x], a)
  {
    EmptyFormDerives();
    FormDerivesMore(x, a, [], "");
    assert [x] + [] == [x] && a + "" == a;
  }

  lemma VariableDerives(v: Variable, rhs: seq<Symbol>, s: string)
    requires Production(v, rhs) && FormDerives(rhs, s)
    ensures Derives(Var(v), s)
  {
    var h: nat :| FormDerivesWithin(rhs, s, h);
    assert DerivesWithin(Var(v), s, h + 1);
  }

  lemma CharDerives(c: char)
    ensures Derives(Char(c), [c])
  {
    assert DerivesWithin(Char(c), [c], 0);
  }

  /** A form of two symbols derives the concatenation of what they derive. */
  lemma PairDerives(v: Variable, x: Symbol, a: string, y: Symbol, b: string)
    requires Production(v, [x, y]) && Derives(x, a) && Derives(y, b)
    ensures Derives(Var(v), a + b)
  {
    SingleFormDerives(y, b);
    FormDerivesMore(x, a, [y], b);
    assert [x] + [y] == [x, y];
    VariableDerives(v, [x, y], a + b);
  }

  lemma TripleDerives(v: Variable, x: Symbol, a: string, y: Symbol, b: string, z: Symbol, c: string)
    requires Production(v, [x, y, z]) && Derives(x, a) && Derives(y, b) && Derives(z, c)
    ensures Derives(Var(v), a + b + c)
  {
    SingleFormDerives(z, c);
    FormDerivesMore(y, b, [z], c);
    assert [y] + [z] == [y, z];
    FormDerivesMore(x, a, [y, z], b + c);
    assert [x] + [y, z] == [x, y, z] && a + (b + c) == a + b + c;
    VariableDerives(v, [x, y, z], a + b + c);
  }

  // From trees to derivations

  lemma {:induction false} SumDerives(t: Sum)
    requires WellFormedSum(t)
    ensures Derives(Var(VStart), SpellSum(t))
  {
    ProductDerives(t.first);
    TermsDerives(t.more);
    PairDerives(VStart, Var(VProduct), SpellProduct(t.first), Var(VTerms), SpellTerms(t.more));
  }

  lemma {:induction false} TermsDerives(t: Terms)
    requires WellFormedTerms(t)
    ensures Derives(Var(VTerms), SpellTerms(t))
  {
    match t
    case NoTerm =>
      EmptyFormDerives();
      VariableDerives(VTerms, [], "");
    case Plus(term, next) =>
      CharDerives('+');
      ProductDerives(term);
      TermsDerives(next);
      TripleDerives(VTerms, Char('+'), "+", Var(VProduct), SpellProduct(term), Var(VTerms), SpellTerms(next));
  }

  lemma {:induction false} ProductDerives(t: Product)
    requires WellFormedProduct(t)
    ensures Derives(Var(VProduct), SpellProduct(t))
  {
    FactorDerives(t.first);
    FactorsDerive(t.more);
    PairDerives(VProduct, Var(VFactor), SpellFactor(t.first), Var(VFactors), SpellFactors(t.more));
  }

  lemma {:induction false} FactorsDerive(t: Factors)
    requires WellFormedFactors(t)
    ensures Derives(Var(VFactors), SpellFactors(t))
  {
    match t
    case NoFactor =>
      EmptyFormDerives();
      VariableDerives(VFactors, [], "");
    case Times(factor, next) =>
      CharDerives('*');
      FactorDerives(factor);
      FactorsDerive(next);
      TripleDerives(VFactors, Char('*'), "*", Var(VFactor), SpellFactor(factor), Var(VFactors), SpellFactors(next));
  }

  lemma {:induction false} FactorDerives(t: Factor)
    requires WellFormedFactor(t)
    ensures Derives(Var(VFactor), SpellFactor(t))
  {
    var s := SpellFactor(t);
    match t
    case Literal(text) =>
      assert DerivesWithin(Int, text, 0);
      SingleFormDerives(Int, s);
      VariableDerives(VFactor, [Int], s);
    case Group(inner) =>
      CharDerives('(');
      CharDerives(')');
      SumDerives(inner);
      TripleDerives(VGroup, Char('('), "(", Var(VStart), SpellSum(inner), Char(')'), ")");
      SingleFormDerives(Var(VGroup), s);
      VariableDerives(VFactor, [Var(VGroup)], s);
  }

  // From derivations to trees

  lemma SplitOne(f: seq<Symbol>, s: string, h: nat)
    requires |f| == 1 && FormDerivesWithin(f, s, h)
    ensures DerivesWithin(f[0], s, h)
  {
    var k :| 0 <= k <= |s| && DerivesWithin(f[0], s[..k], h) && FormDerivesWithin(f[1..], s[k..], h);
    assert f[1..] == [] && s[k..] == "";
    assert s[..k] == s;
  }

  lemma SplitTwo(f: seq<Symbol>, s: string, h: nat) returns (a: string, b: string)
    requires |f| == 2 && FormDerivesWithin(f, s, h)
    ensures s == a + b && DerivesWithin(f[0], a, h) && DerivesWithin(f[1], b, h)
  {
    var k :| 0 <= k <= |s| && DerivesWithin(f[0], s[..k], h) && FormDerivesWithin(f[1..], s[k..], h);
    a, b := s[..k], s[k..];
    SplitOne(f[1..], b, h);
  }

  lemma SplitThree(f: seq<Symbol>, s: string, h: nat) returns (a: string, b: string, c: string)
    requires |f| == 3 && FormDerivesWithin(f, s, h)
    ensures s == a + b + c
    ensures DerivesWithin(f[0], a, h) && DerivesWithin(f[1], b, h) && DerivesWithin(f[2], c, h)
  {
    hide DerivesWithin;
    var k :| 0 <= k <= |s| && DerivesWithin(f[0], s[..k], h) && FormDerivesWithin(f[1..], s[k..], h);
    a := s[..k];
    b, c := SplitTwo(f[1..], s[k..], h);
  }

  lemma {:induction false} SumOfDerivation(s: string, h: nat) returns (t: Sum)
    requires DerivesWithin(Var(VStart), s, h)
    ensures WellFormedSum(t) && SpellSum(t) == s
    decreases h
  {
    var rhs :| Production(VStart, rhs) && FormDerivesWithin(rhs, s, h - 1);
    var a, b := SplitTwo(rhs, s, h - 1);
    var first := ProductOfDerivation(a, h - 1);
    var more := TermsOfDerivation(b, h - 1);
    t := Sum(first, more);
  }

  lemma {:induction false} TermsOfDerivation(s: string, h: nat) returns (t: Terms)
    requires DerivesWithin(Var(VTerms), s, h)
    ensures WellFormedTerms(t) && SpellTerms(t) == s
    decreases h
  {
    var rhs :| Production(VTerms, rhs) && FormDerivesWithin(rhs, s, h - 1);
    if rhs == [] {
      t := NoTerm;
    } else {
      var a, b, c := SplitThree(rhs, s, h - 1);
      var term := ProductOfDerivation(b, h - 1);
      var next := TermsOfDerivation(c, h - 1);
      t := Plus(term, next);
    }
  }

  lemma {:induction false} ProductOfDerivation(s: string, h: nat) returns (t: Product)
    requires DerivesWithin(Var(VProduct), s, h)
    ensures WellFormedProduct(t) && SpellProduct(t) == s
    decreases h
  {
    var rhs :| Production(VProduct, rhs) && FormDerivesWithin(rhs, s, h - 1);
    var a, b := SplitTwo(rhs, s, h - 1);
    var first := FactorOfDerivation(a, h - 1);
    var more := FactorsOfDerivation(b, h - 1);
    t := Product(first, more);
  }

  lemma {:induction false} FactorsOfDerivation(s: string, h: nat) returns (t: Factors)
    requires DerivesWithin(Var(VFactors), s, h)
    ensures WellFormedFactors(t) && SpellFactors(t) == s
    decreases h
  {
    var rhs :| Production(VFactors, rhs) && FormDerivesWithin(rhs, s, h - 1);
    if rhs == [] {
      t := NoFactor;
    } else {
      var a, b, c := SplitThree(rhs, s, h - 1);
      var factor := FactorOfDerivation(b, h - 1);
      var next := FactorsOfDerivation(c, h - 1);
      t := Times(factor, next);
    }
  }

  lemma {:induction false} FactorOfDerivation(s: string, h: nat) returns (t: Factor)
    requires DerivesWithin(Var(VFactor), s, h)
    ensures WellFormedFactor(t) && SpellFactor(t) == s
    decreases h
  {
    var rhs :| Production(VFactor, rhs) && FormDerivesWithin(rhs, s, h - 1);
    SplitOne(rhs, s, h - 1);
    if rhs == [Int] {
      t := Literal(s);
    } else {
      var g :| Production(VGroup, g) && FormDerivesWithin(g, s, h - 2);
      var a, b, c := SplitThree(g, s, h - 2);
      var inner := SumOfDerivation(b, h - 2);
      t := Group(inner);
    }
  }

  /**
    The greedy recogniser accepts a whole string exactly when the unordered
    grammar derives it from `start`.
   */
  lemma AcceptsExactlyTheLanguage(s: string)
    ensures ParseOrDie(s).Some? <==> Derives(Var(VStart), s)
  {
    if ParseOrDie(s).Some? {
      SumDerives(ParseOrDie(s).value);
    }
    if Derives(Var(VStart), s) {
      var h: nat :| DerivesWithin(Var(VStart), s, h);
      var t := SumOfDerivation(s, h);
      FindsSum(t, "");
      assert SpellSum(t) + "" == s;
    }
  }
}
