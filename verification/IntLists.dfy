/**
  The two bracketed-list grammars:

  - `'[' >> *(int_ >> ',') >> ']'`, every element followed by a comma;
  - `'[' >> (int_ % ',') >> ']'`, one or more elements separated by commas.
 */
module IntLists {
  import opened Common
  import opened Numerals

  /** The tokens a list parser took, and the input it left. */
  datatype Items = Items(texts: seq<string>, rest: string)

  /** *(int_ >> ','): an element without its comma is given back. */
  function ParseTerminated(s: string): (r: Items)
    ensures |r.rest| <= |s|
    decreases |s|
  {
    match TakeInt(s)
    case NoToken => Items([], s)
    case Token(text, rest) =>
      if rest != "" && rest[0] == ',' then
        var next := ParseTerminated(rest[1..]);
        Items([text] + next.texts, next.rest)
      else Items([], s)
  }

  /** The tail of `int_ % ','`: a comma without an element after it is given back. */
  function ParseSeparatedTail(s: string): (r: Items)
    ensures |r.rest| <= |s|
    decreases |s|
  {
    if s == "" || s[0] != ',' then Items([], s)
    else
      match TakeInt(s[1..])
      case NoToken => Items([], s)
      case Token(text, rest) =>
        var next := ParseSeparatedTail(rest);
        Items([text] + next.texts, next.rest)
  }

  /** int_ % ',' */
  function ParseSeparated(s: string): Option<Items> {
    match TakeInt(s)
    case NoToken => None
    case Token(text, rest) =>
      var tail := ParseSeparatedTail(rest);
      Some(Items([text] + tail.texts, tail.rest))
  }

  /** The first grammar, as its caller runs it: the input may go on after the list. */
  function ParseTerminatedList(s: string): Option<Items> {
    if s == "" || s[0] != '[' then None
    else
      var items := ParseTerminated(s[1..]);
      if items.rest != "" && items.rest[0] == ']' then Some(Items(items.texts, items.rest[1..])) else None
  }

  /** The tokens read when the first grammar accepts the whole input. */
  function TerminatedTokens(s: string): Option<seq<string>> {
    match ParseTerminatedList(s)
    case None => None
    case Some(items) => if items.rest == "" then Some(items.texts) else None
  }

  /** The tokens read when the second grammar accepts the whole input (`ParseOrDie`). */
  function SeparatedTokens(s: string): Option<seq<string>> {
    if s == "" || s[0] != '[' then None
    else
      match ParseSeparated(s[1..])
      case None => None
      case Some(items) => if items.rest == "]" then Some(items.texts) else None
  }

  // ---------------------------------------------------------------------
  // The languages, as lists of tokens

  predicate AllLiterals(texts: seq<string>) {
    forall k :: 0 <= k < |texts| ==> IsLiteral(texts[k])
  }

  /** Each text followed by a comma. */
  function Terminated(texts: seq<string>): string {
    if texts == [] then "" else texts[0] + ("," + Terminated(texts[1..]))
  }

  /** Each text preceded by a comma. */
  function Preceded(texts: seq<string>): string {
    if texts == [] then "" else "," + (texts[0] + Preceded(texts[1..]))
  }

  /** The texts with commas between them. */
  function Separated(texts: seq<string>): string
    requires texts != []
  {
    texts[0] + Preceded(texts[1..])
  }

  // Every text of the language is found

  lemma NoNumberHere(s: string)
    requires s != "" ==> !IsDigit(s[0]) && s[0] != '+' && s[0] != '-'
    ensures TakeInt(s) == NoToken
  {
    assert SignLength(s) == 0 && s[0..] == s && DigitRun(s) == 0;
  }

  lemma {:induction false} FindsTerminated(texts: seq<string>, rest: string)
    requires AllLiterals(texts) && rest != "" && rest[0] == ']'
    ensures ParseTerminated(Terminated(texts) + rest) == Items(texts, rest)
  {
    hide TakeInt, IsLiteral;
    if texts == [] {
      NoNumberHere(rest);
      assert Terminated(texts) + rest == rest;
    } else {
      var w := "," + (Terminated(texts[1..]) + rest);
      assert Terminated(texts) + rest == texts[0] + w;
      TakeIntReadsLiteral(texts[0], w);
      assert w[1..] == Terminated(texts[1..]) + rest;
      FindsTerminated(texts[1..], rest);
    }
  }

  lemma {:induction false} FindsPreceded(texts: seq<string>)
    requires AllLiterals(texts)
    ensures ParseSeparatedTail(Preceded(texts) + "]") == Items(texts, "]")
  {
    hide TakeInt, IsLiteral;
    if texts == [] {
      assert Preceded(texts) + "]" == "]";
    } else {
      var w := Preceded(texts[1..]) + "]";
      assert (Preceded(texts) + "]")[1..] == texts[0] + w;
      assert w[0] == ',' || w[0] == ']';
      TakeIntReadsLiteral(texts[0], w);
      FindsPreceded(texts[1..]);
    }
  }

  lemma FindsSeparated(texts: seq<string>)
    requires texts != [] && AllLiterals(texts)
    ensures ParseSeparated(Separated(texts) + "]") == Some(Items(texts, "]"))
  {
    hide TakeInt, IsLiteral;
    var w := Preceded(texts[1..]) + "]";
    assert Separated(texts) + "]" == texts[0] + w;
    assert w[0] == ',' || w[0] == ']';
    TakeIntReadsLiteral(texts[0], w);
    FindsPreceded(texts[1..]);
    assert [texts[0]] + texts[1..] == texts;
  }

  // Every accepted input is a text of the language

  lemma Glue(a: string, comma: string, b: string, c: string, rest: string)
    requires rest != "" && comma == [rest[0]] && rest[1..] == b + c
    ensures a + (comma + b) + c == a + rest
    ensures comma + (b + c) == rest
  {
    assert comma + b + c == comma + rest[1..] == rest;
  }

  lemma {:induction false} TerminatedIsSpelled(s: string)
    ensures AllLiterals(ParseTerminated(s).texts)
    ensures Terminated(ParseTerminated(s).texts) + ParseTerminated(s).rest == s
    decreases |s|
  {
    hide TakeInt, IsLiteral;
    match TakeInt(s)
    case NoToken =>
    case Token(text, rest) =>
      if rest != "" && rest[0] == ',' {
        TerminatedIsSpelled(rest[1..]);
        var next := ParseTerminated(rest[1..]);
        assert ([text] + next.texts)[1..] == next.texts;
        Glue(text, ",", Terminated(next.texts), next.rest, rest);
      }
  }

  lemma PrecededPrepends(text: string, next: Items, s: string)
    requires s != "" && s[0] == ',' && s[1..] == text + (Preceded(next.texts) + next.rest)
    ensures Preceded([text] + next.texts) + next.rest == s
  {
    assert ([text] + next.texts)[1..] == next.texts;
    ConcatIsAssociative(text, Preceded(next.texts), next.rest);
    ConcatIsAssociative(",", text + Preceded(next.texts), next.rest);
    assert s == "," + s[1..];
  }

  lemma {:induction false} SeparatedTailIsSpelled(s: string)
    ensures AllLiterals(ParseSeparatedTail(s).texts)
    ensures Preceded(ParseSeparatedTail(s).texts) + ParseSeparatedTail(s).rest == s
    decreases |s|
  {
    hide TakeInt, IsLiteral;
    if s != "" && s[0] == ',' {
      match TakeInt(s[1..])
      case NoToken =>
      case Token(text, rest) =>
        SeparatedTailIsSpelled(rest);
        PrecededPrepends(text, ParseSeparatedTail(rest), s);
    }
  }

  // ---------------------------------------------------------------------
  // Main results

  lemma TerminatedListIsSpelled(s: string)
    requires ParseTerminatedList(s).Some?
    ensures var items := ParseTerminatedList(s).value;
            AllLiterals(items.texts) && s == "[" + Terminated(items.texts) + "]" + items.rest
  {
    hide ParseTerminated, Terminated, AllLiterals;
    TerminatedIsSpelled(s[1..]);
    var items := ParseTerminated(s[1..]);
    Glue("", "[", Terminated(items.texts), items.rest, s);
    assert items.rest == "]" + items.rest[1..];
    ConcatIsAssociative("[" + Terminated(items.texts), "]", items.rest[1..]);
  }

  /** What the first grammar takes of an input, whatever follows: there is one list it can be. */
  lemma TerminatedListTaken(s: string, texts: seq<string>, rest: string)
    ensures ParseTerminatedList(s) == Some(Items(texts, rest)) <==>
            AllLiterals(texts) && s == "[" + Terminated(texts) + "]" + rest
  {
    hide ParseTerminated, Terminated, AllLiterals;
    if ParseTerminatedList(s) == Some(Items(texts, rest)) {
      TerminatedListIsSpelled(s);
    }
    if AllLiterals(texts) && s == "[" + Terminated(texts) + "]" + rest {
      FindsTerminated(texts, "]" + rest);
      assert s[1..] == Terminated(texts) + ("]" + rest);
    }
  }

  /** The first grammar accepts exactly the bracketed texts with a comma after each integer. */
  lemma TerminatedLanguage(s: string, texts: seq<string>)
    ensures TerminatedTokens(s) == Some(texts) <==> AllLiterals(texts) && s == "[" + Terminated(texts) + "]"
  {
    hide ParseTerminatedList, Terminated, IsLiteral;
    TerminatedListTaken(s, texts, "");
    assert "[" + Terminated(texts) + "]" + "" == "[" + Terminated(texts) + "]";
  }

  lemma SeparatedIsSpelled(s: string)
    requires ParseSeparated(s).Some?
    ensures var items := ParseSeparated(s).value;
            items.texts != [] && AllLiterals(items.texts) && Separated(items.texts) + items.rest == s
  {
    hide TakeInt, IsLiteral, ParseSeparatedTail, Preceded;
    var token, items := TakeInt(s), ParseSeparated(s).value;
    SeparatedTailIsSpelled(token.rest);
    assert items.texts[1..] == ParseSeparatedTail(token.rest).texts;
    ConcatIsAssociative(token.text, Preceded(items.texts[1..]), items.rest);
  }

  lemma SeparatedTokensAreSpelled(s: string)
    requires SeparatedTokens(s).Some?
    ensures var texts := SeparatedTokens(s).value;
            texts != [] && AllLiterals(texts) && s == "[" + Separated(texts) + "]"
  {
    hide ParseSeparated, Separated, AllLiterals;
    var texts := SeparatedTokens(s).value;
    SeparatedIsSpelled(s[1..]);
    Glue("", "[", Separated(texts), "]", s);
  }

  /** The second grammar accepts exactly the bracketed non-empty texts with commas between integers. */
  lemma SeparatedLanguage(s: string, texts: seq<string>)
    ensures SeparatedTokens(s) == Some(texts) <==>
            texts != [] && AllLiterals(texts) && s == "[" + Separated(texts) + "]"
  {
    hide ParseSeparated, IsLiteral;
    if SeparatedTokens(s) == Some(texts) {
      SeparatedTokensAreSpelled(s);
    }
    if texts != [] && AllLiterals(texts) && s == "[" + Separated(texts) + "]" {
      FindsSeparated(texts);
      assert s[1..] == Separated(texts) + "]";
    }
  }

  // Reading and printing values

  /** The integers that tokens stand for: the attribute the parsers fill in. */
  function Values(texts: seq<string>): (values: seq<int>)
    requires AllLiterals(texts)
    ensures |values| == |texts|
  {
    seq(|texts|, i requires 0 <= i < |texts| => NumeralValue(texts[i]))
  }

  function ReadTerminatedList(s: string): Option<seq<int>> {
    match TerminatedTokens(s)
    case None => None
    case Some(texts) => TerminatedLanguage(s, texts); Some(Values(texts))
  }

  function ReadSeparatedList(s: string): Option<seq<int>> {
    match SeparatedTokens(s)
    case None => None
    case Some(texts) => SeparatedLanguage(s, texts); Some(Values(texts))
  }

  function Texts(values: seq<int>): (texts: seq<string>)
    ensures |texts| == |values|
  {
    seq(|values|, i requires 0 <= i < |values| => Decimal(values[i]))
  }

  lemma TextsReadBack(values: seq<int>)
    requires forall k :: 0 <= k < |values| ==> FitsInt(values[k])
    ensures AllLiterals(Texts(values)) && Values(Texts(values)) == values
  {
    forall k | 0 <= k < |values|
      ensures IsLiteral(Texts(values)[k]) && NumeralValue(Texts(values)[k]) == values[k]
    {
      DecimalRoundTrip(values[k]);
    }
  }

  /** Both printers are inverted by their grammars; the empty list is only for the first. */
  lemma PrintedListsReadBack(values: seq<int>)
    requires forall k :: 0 <= k < |values| ==> FitsInt(values[k])
    ensures ReadTerminatedList("[" + Terminated(Texts(values)) + "]") == Some(values)
    ensures values != [] ==> ReadSeparatedList("[" + Separated(Texts(values)) + "]") == Some(values)
    ensures ReadSeparatedList("[]") == None
  {
    TextsReadBack(values);
    TerminatedLanguage("[" + Terminated(Texts(values)) + "]", Texts(values));
    if values != [] {
      SeparatedLanguage("[" + Separated(Texts(values)) + "]", Texts(values));
    }
    assert "[]"[1..] == "]";
    NoNumberHere("]");
  }

  lemma {:induction false} TerminatedEndsInComma(texts: seq<string>)
    requires texts != []
    ensures Terminated(texts) != "" && Terminated(texts)[|Terminated(texts)| - 1] == ','
  {
    if |texts| > 1 {
      TerminatedEndsInComma(texts[1..]);
    }
  }

  lemma LiteralEndsInDigit(text: string)
    requires IsLiteral(text)
    ensures text != "" && IsDigit(text[|text| - 1])
  {
    var digits := text[SignLength(text)..];
    assert IsDigit(digits[|digits| - 1]);
  }

  lemma {:induction false} SeparatedEndsInDigit(texts: seq<string>)
    requires texts != [] && AllLiterals(texts)
    ensures Separated(texts) != "" && IsDigit(Separated(texts)[|Separated(texts)| - 1])
  {
    LiteralEndsInDigit(texts[0]);
    if |texts| > 1 {
      assert Separated(texts) == texts[0] + ("," + Separated(texts[1..]));
      SeparatedEndsInDigit(texts[1..]);
    }
  }

  lemma SameInside(x: string, y: string)
    requires "[" + x + "]" == "[" + y + "]"
    ensures x == y
  {
    assert x == ("[" + x + "]")[1..|x| + 1];
    assert y == ("[" + y + "]")[1..|y| + 1];
  }

  /** No input is accepted whole by both grammars. */
  lemma GrammarsAreDisjoint(s: string)
    ensures TerminatedTokens(s).None? || SeparatedTokens(s).None?
  {
    if TerminatedTokens(s).Some? && SeparatedTokens(s).Some? {
      hide TakeInt, IsLiteral;
      var a, b := TerminatedTokens(s).value, SeparatedTokens(s).value;
      TerminatedLanguage(s, a);
      SeparatedLanguage(s, b);
      SeparatedEndsInDigit(b);
      if a != [] {
        TerminatedEndsInComma(a);
      }
      SameInside(Terminated(a), Separated(b));
    }
  }
}
