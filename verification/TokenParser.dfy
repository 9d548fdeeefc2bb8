/**
  The token splitter: one pass over a text that yields the characters before
  each space, and what follows the last space unless it is empty.
 */
module TokenParser {
  import opened Common

  predicate SpaceFree(s: string) {
    ' ' !in s
  }

  /** The position of the first space, or the length if there is none. */
  function FirstSpace(s: string): (n: nat)
    ensures n <= |s| && SpaceFree(s[..n])
    ensures n < |s| ==> s[n] == ' '
  {
    if s == "" || s[0] == ' ' then 0
    else
      assert forall k: nat :: k <= |s| - 1 ==> s[..k + 1] == [s[0]] + s[1..][..k];
      1 + FirstSpace(s[1..])
  }

  /** The tokens of a text. */
  function Split(s: string): (tokens: seq<string>)
    decreases |s|
  {
    if s == "" then []
    else
      var n := FirstSpace(s);
      if n == |s| then [s] else [s[..n]] + Split(s[n + 1..])
  }

  lemma FirstSpaceIs(s: string, n: nat)
    requires n <= |s| && SpaceFree(s[..n])
    requires n < |s| ==> s[n] == ' '
    ensures FirstSpace(s) == n
  {
    var m := FirstSpace(s);
    assert forall k :: 0 <= k < n ==> s[..n][k] == s[k];
    assert forall k :: 0 <= k < m ==> s[..m][k] == s[k];
  }

  /** A token ends at the first space at or after its start. */
  lemma TokenEndsAt(buf: string, start: nat, i: nat)
    requires start <= i < |buf| && buf[i] == ' ' && SpaceFree(buf[start..i])
    ensures Split(buf[start..]) == [buf[start..i]] + Split(buf[i + 1..])
  {
    var s, n := buf[start..], i - start;
    assert s[..n] == buf[start..i] && s[n + 1..] == buf[i + 1..];
    FirstSpaceIs(s, n);
  }

  lemma LastToken(buf: string, start: nat)
    requires start < |buf| && SpaceFree(buf[start..|buf|])
    ensures Split(buf[start..]) == [buf[start..]]
  {
    var s := buf[start..];
    assert s[..|s|] == buf[start..|buf|];
    FirstSpaceIs(s, |s|);
  }

  lemma NothingLeft(buf: string)
    ensures Split(buf[|buf|..]) == []
  {
  }

  // ---------------------------------------------------------------------
  // The loop, with its yields collected

  method RunToEnd(buf: string) returns (tokens: seq<string>)
    ensures tokens == Split(buf)
  {
    hide Split;
    NothingLeft(buf);
    tokens := [];
    var start := 0;
    assert buf[0..] == buf;
    for i := 0 to |buf|
      invariant start <= i
      invariant SpaceFree(buf[start..i])
      invariant tokens + Split(buf[start..]) == Split(buf)
    {
      if buf[i] == ' ' {
        TokenEndsAt(buf, start, i);
        ConcatIsAssociative(tokens, [buf[start..i]], Split(buf[i + 1..]));
        tokens := tokens + [buf[start..i]];
        start := i + 1;
      } else {
        assert buf[start..i + 1] == buf[start..i] + [buf[i]];
      }
    }
    if start < |buf| {
      LastToken(buf, start);
      tokens := tokens + [buf[start..]];
    }
  }

  // ---------------------------------------------------------------------
  // The loop as a coroutine

  /** The iterations of the loop that do not yield. */
  method NextSpace(buf: string, start: nat) returns (i: nat)
    requires start <= |buf|
    ensures start <= i <= |buf| && SpaceFree(buf[start..i])
    ensures i < |buf| ==> buf[i] == ' '
  {
    i := start;
    while i < |buf| && buf[i] != ' '
      invariant start <= i <= |buf|
      invariant SpaceFree(buf[start..i])
    {
      assert buf[start..i + 1] == buf[start..i] + [buf[i]];
      i := i + 1;
    }
  }

  datatype Suspension = NotStarted | InLoop | AfterLoop | Finished

  class Coroutine {
    const buf: string
    var start: nat
    var i: nat
    var suspension: Suspension

    constructor (buf: string)
      ensures this.buf == buf && Valid() && Remaining() == Split(buf)
    {
      this.buf, start, i, suspension := buf, 0, 0, NotStarted;
      new;
      assert buf[0..] == buf;
    }

    /** Where the pass stands when it is resumed. */
    ghost function Position(): nat
      reads this
    {
      match suspension
      case NotStarted => 0
      case InLoop => i + 1
      case AfterLoop => |buf|
      case Finished => |buf|
    }

    ghost predicate Valid()
      reads this
    {
      Position() <= |buf| && (suspension.NotStarted? ==> start == i == 0)
    }

    /** The tokens still to come. */
    ghost function Remaining(): seq<string>
      reads this
      requires Valid()
    {
      Split(buf[Position()..])
    }

    /** Runs to the next yield, or to the end. */
    method Resume() returns (token: Option<string>)
      requires Valid()
      modifies this
      ensures Valid()
      ensures token.None? ==> old(Remaining()) == Remaining() == []
      ensures token.Some? ==> old(Remaining()) == [token.value] + Remaining()
    {
      hide Split;
      NothingLeft(buf);
      if suspension.AfterLoop? || suspension.Finished? {
        suspension := Finished;
        return None;
      }
      if suspension.InLoop? {
        start := i + 1;
      }
      i := NextSpace(buf, start);
      if i < |buf| {
        suspension := InLoop;
        token := Some(buf[start..i]);
        TokenEndsAt(buf, start, i);
      } else if start < |buf| {
        suspension := AfterLoop;
        token := Some(buf[start..]);
        LastToken(buf, start);
      } else {
        suspension := Finished;
        token := None;
      }
    }
  }

  /** A token just pulled, followed by those still to come. */
  ghost function Pending(t: Option<string>, more: seq<string>): seq<string> {
    if t.Some? then [t.value] + more else more
  }

  /** Pulling one token at a time yields exactly the batch result. */
  method PullAll(buf: string) returns (tokens: seq<string>)
    ensures tokens == Split(buf)
  {
    var parser := new Coroutine(buf);
    tokens := [];
    var t := parser.Resume();
    while t.Some?
      invariant parser.Valid()
      invariant t.None? ==> parser.Remaining() == []
      invariant tokens + Pending(t, parser.Remaining()) == Split(buf)
      decreases |parser.Remaining()|, if t.Some? then 1 else 0
    {
      ConcatIsAssociative(tokens, [t.value], parser.Remaining());
      tokens := tokens + [t.value];
      t := parser.Resume();
    }
  }

  // ---------------------------------------------------------------------
  // Splitting inverts termination

  predicate AllSpaceFree(tokens: seq<string>) {
    forall k :: 0 <= k < |tokens| ==> SpaceFree(tokens[k])
  }

  /** Each token followed by one space. */
  function Terminate(tokens: seq<string>): string {
    if tokens == [] then "" else tokens[0] + " " + Terminate(tokens[1..])
  }

  /** The tokens with one space between them. */
  function Join(tokens: seq<string>): string {
    if tokens == [] then "" else if |tokens| == 1 then tokens[0] else tokens[0] + " " + Join(tokens[1..])
  }

  predicate EndsInSpace(s: string) {
    s != "" && s[|s| - 1] == ' '
  }

  lemma {:induction false} SplitsTerminated(tokens: seq<string>)
    requires AllSpaceFree(tokens)
    ensures Split(Terminate(tokens)) == tokens
  {
    if tokens != [] {
      var s, n := Terminate(tokens), |tokens[0]|;
      assert s[..n] == tokens[0] && s[n] == ' ' && s[n + 1..] == Terminate(tokens[1..]);
      FirstSpaceIs(s, n);
      SplitsTerminated(tokens[1..]);
      assert tokens == [tokens[0]] + tokens[1..];
    }
  }

  /** A text with one space at its end, added if it is missing there. */
  function WithLastSpace(s: string): string {
    if s == "" || EndsInSpace(s) then s else s + " "
  }

  lemma WithLastSpaceAfter(a: string, b: string)
    ensures WithLastSpace(a + " " + b) == a + " " + WithLastSpace(b)
  {
    if b != "" {
      var s := a + " " + b;
      assert s[|s| - 1] == b[|b| - 1];
      ConcatIsAssociative(a + " ", b, " ");
    }
  }

  lemma LastTokenAlone(s: string)
    requires s != "" && FirstSpace(s) == |s|
    ensures SpaceFree(s) && Terminate([s]) == WithLastSpace(s)
  {
    assert s[..|s|] == s;
    assert s[|s| - 1] in s;
    assert Terminate([s]) == s + " " + "" == s + " ";
  }

  /** The tokens are space-free, and terminating them gives back the text with its last space. */
  lemma {:induction false} TerminatesSplit(s: string)
    ensures AllSpaceFree(Split(s))
    ensures Terminate(Split(s)) == WithLastSpace(s)
    ensures s != "" ==> Split(s) != []
    decreases |s|
  {
    hide FirstSpace;
    if s != "" {
      var n := FirstSpace(s);
      if n == |s| {
        LastTokenAlone(s);
      } else {
        var others := Split(s[n + 1..]);
        TerminatesSplit(s[n + 1..]);
        assert ([s[..n]] + others)[1..] == others;
        WithLastSpaceAfter(s[..n], s[n + 1..]);
        assert s == s[..n] + " " + s[n + 1..];
      }
    }
  }

  lemma {:induction false} JoinIsTerminateWithoutLastSpace(tokens: seq<string>)
    requires tokens != []
    ensures Terminate(tokens) == Join(tokens) + " "
  {
    if |tokens| == 1 {
      assert Terminate(tokens[1..]) == "";
    } else {
      JoinIsTerminateWithoutLastSpace(tokens[1..]);
    }
  }

  /** Joining the tokens of a text gives the text, less one trailing space if it has one. */
  lemma JoinsSplit(s: string)
    ensures Join(Split(s)) == if EndsInSpace(s) then s[..|s| - 1] else s
  {
    TerminatesSplit(s);
    if s != "" {
      JoinIsTerminateWithoutLastSpace(Split(s));
      var j := Join(Split(s));
      assert j == (j + " ")[..|j + " "| - 1];
    }
  }

  /** The tokens of a text are the only space-free tokens whose termination is the terminated text. */
  lemma SplitIsTheOnlyTokenization(s: string, tokens: seq<string>)
    ensures tokens == Split(s) <==>
            AllSpaceFree(tokens) && Terminate(tokens) == WithLastSpace(s)
  {
    TerminatesSplit(s);
    if AllSpaceFree(tokens) && Terminate(tokens) == Terminate(Split(s)) {
      SplitsTerminated(tokens);
      SplitsTerminated(Split(s));
    }
  }
}
