/**
  What a session of the keep-alive protocol comes to, told by the positions of
  its script alone: the handshake completes at 0, the k-th read at 2k+1, the
  k-th write at 2k+2, and the shutdown after the completion that closes.
 */
module HttpOutcome {
  import opened HttpHandler
  import opened HttpSession

  /** The handshake and all of the first `k` rounds succeeded, and each kept the connection alive. */
  predicate Reaches(script: seq<Completion>, k: nat) {
    && 2 * k < |script| && script[0].error == NoError
    && forall j :: 0 <= j < k ==>
         && script[2 * j + 1].error == NoError && script[2 * j + 1].request.keepAlive
         && script[2 * j + 2].error == NoError
  }

  /** The k-th request was read, and is answered. */
  predicate Answered(script: seq<Completion>, k: nat) {
    Reaches(script, k) && 2 * k + 1 < |script| && script[2 * k + 1].error == NoError
  }

  function Answer(docRoot: string, script: seq<Completion>, k: nat): Response
    requires 2 * k + 1 < |script|
  {
    HandleRequest(docRoot, script[2 * k + 1].request, script[2 * k + 1].disk)
  }

  /** The log when the k-th read is awaited. */
  function LogAt(docRoot: string, script: seq<Completion>, k: nat): seq<Event>
    requires 2 * k < |script|
  {
    if k == 0 then [HandshakeIssued, ReadIssued]
    else LogAt(docRoot, script, k - 1) + [WriteIssued(Answer(docRoot, script, k - 1)), ReadIssued]
  }

  /**
    The session closes, and position `p` is that of the shutdown: the client
    ended the stream where a request was due, or an answer was written that
    does not keep the connection alive.
   */
  predicate ClosesBefore(script: seq<Completion>, k: nat, p: nat) {
    && Reaches(script, k) && p <= |script|
    && (|| (p == 2 * k + 2 && script[2 * k + 1].error == EndOfStream)
        || (p == 2 * k + 3 && Answered(script, k)
            && script[2 * k + 2].error == NoError && !script[2 * k + 1].request.keepAlive))
  }

  /** The session ends with the completion at `p`, in round `k`. */
  predicate EndsAt(script: seq<Completion>, k: nat, p: nat, what: string) {
    && p < |script|
    && match what
       case "handshake" => p == 0 && script[0].error != NoError
       case "read" =>
         p == 2 * k + 1 && Reaches(script, k) && script[p].error != NoError && script[p].error != EndOfStream
       case "write" => p == 2 * k + 2 && Answered(script, k) && script[p].error != NoError
       case "shutdown" => ClosesBefore(script, k, p)
       case _ => false
  }

  /** What is reported of an error. */
  predicate Reportable(error: ErrorCode) {
    error != NoError && error != StreamTruncated
  }

  function Report(what: string, error: ErrorCode): seq<Event> {
    if Reportable(error) then [Reported(what, error)] else []
  }

  // ---------------------------------------------------------------------
  // The states a session goes through

  lemma NothingYet(docRoot: string)
    ensures Run(docRoot, STARTED, []) == STARTED
  {
  }

  /** At a reached read, the whole log so far is known. */
  lemma {:induction false} ReachedState(docRoot: string, script: seq<Completion>, k: nat)
    requires Reaches(script, k)
    ensures Run(docRoot, STARTED, script[..2 * k + 1]) == State(Reading, LogAt(docRoot, script, k))
    decreases k, 0
  {
    hide Run, Answer;
    RunOneMore(docRoot, STARTED, script, 2 * k);
    if k == 0 {
      NothingYet(docRoot);
      assert script[..0] == [];
      assert [HandshakeIssued] + [ReadIssued] == [HandshakeIssued, ReadIssued];
    } else {
      assert Answered(script, k - 1);
      AnsweredState(docRoot, script, k - 1);
      assert LogAt(docRoot, script, k) ==
             LogAt(docRoot, script, k - 1) + [WriteIssued(Answer(docRoot, script, k - 1))] + [ReadIssued];
    }
  }

  lemma {:induction false} AnsweredState(docRoot: string, script: seq<Completion>, k: nat)
    requires Answered(script, k)
    ensures Run(docRoot, STARTED, script[..2 * k + 2]) ==
            State(Writing(script[2 * k + 1].request.keepAlive),
                  LogAt(docRoot, script, k) + [WriteIssued(Answer(docRoot, script, k))])
    decreases k, 1
  {
    hide Run, HandleRequest;
    ReachedState(docRoot, script, k);
    RunOneMore(docRoot, STARTED, script, 2 * k + 1);
    AnswersTell(docRoot, script[2 * k + 1].request, script[2 * k + 1].disk);
  }

  /** The log when the shutdown is issued. */
  function ClosingLog(docRoot: string, script: seq<Completion>, k: nat, p: nat): seq<Event>
    requires ClosesBefore(script, k, p)
  {
    LogAt(docRoot, script, k)
    + (if p == 2 * k + 3 then [WriteIssued(Answer(docRoot, script, k))] else [])
    + [ShutdownIssued]
  }

  lemma ClosingState(docRoot: string, script: seq<Completion>, k: nat, p: nat)
    requires ClosesBefore(script, k, p)
    ensures Run(docRoot, STARTED, script[..p]) == State(ShuttingDown, ClosingLog(docRoot, script, k, p))
  {
    hide Run, HandleRequest, LogAt;
    if p == 2 * k + 2 {
      ReachedState(docRoot, script, k);
    } else {
      AnsweredState(docRoot, script, k);
    }
    RunOneMore(docRoot, STARTED, script, p - 1);
    assert LogAt(docRoot, script, k) + [] == LogAt(docRoot, script, k);
  }

  /** The log when the completion that ends the session is awaited. */
  function LastLog(docRoot: string, script: seq<Completion>, k: nat, p: nat, what: string): seq<Event>
    requires EndsAt(script, k, p, what)
  {
    match what
    case "handshake" => [HandshakeIssued]
    case "read" => LogAt(docRoot, script, k)
    case "write" => LogAt(docRoot, script, k) + [WriteIssued(Answer(docRoot, script, k))]
    case _ => ClosingLog(docRoot, script, k, p)
  }

  lemma EndState(docRoot: string, script: seq<Completion>, k: nat, p: nat, what: string)
    requires EndsAt(script, k, p, what)
    ensures Run(docRoot, STARTED, script) ==
            State(Nothing, LastLog(docRoot, script, k, p, what) + Report(what, script[p].error))
  {
    hide HandleRequest, LogAt, ClosingLog;
    match what {
      case "handshake" => assert script[..0] == [];
      case "read" => ReachedState(docRoot, script, k);
      case "write" => AnsweredState(docRoot, script, k);
      case "shutdown" => ClosingState(docRoot, script, k, p);
    }
    RunOneMore(docRoot, STARTED, script, p);
    NothingIsFinal(docRoot, STARTED, script, p + 1);
    hide Run;
    var log := LastLog(docRoot, script, k, p, what);
    assert log + [] == log;
  }

  // ---------------------------------------------------------------------
  // Every script is in one of these situations

  lemma {:induction false} LastRound(script: seq<Completion>, from: nat) returns (k: nat)
    requires Reaches(script, from)
    ensures Reaches(script, k) && !Reaches(script, k + 1)
    decreases |script| - from
  {
    k := from;
    if Reaches(script, from + 1) {
      k := LastRound(script, from + 1);
    }
  }

  lemma NextRound(script: seq<Completion>, k: nat)
    requires Answered(script, k) && 2 * k + 2 < |script|
    requires script[2 * k + 2].error == NoError && script[2 * k + 1].request.keepAlive
    ensures Reaches(script, k + 1)
  {
  }

  lemma Situation(script: seq<Completion>) returns (k: nat, p: nat, what: string)
    ensures
      || script == []
      || EndsAt(script, k, p, what)
      || (Reaches(script, k) && |script| == 2 * k + 1)
      || (Answered(script, k) && |script| == 2 * k + 2)
      || (ClosesBefore(script, k, p) && |script| == p)
  {
    k, p, what := 0, 0, "handshake";
    if script != [] && script[0].error == NoError {
      assert Reaches(script, 0);
      k := LastRound(script, 0);
      if 2 * k + 1 < |script| {
        var read := script[2 * k + 1];
        if read.error == EndOfStream {
          p, what := 2 * k + 2, "shutdown";
        } else if read.error != NoError {
          p, what := 2 * k + 1, "read";
        } else if 2 * k + 2 < |script| {
          if script[2 * k + 2].error != NoError {
            p, what := 2 * k + 2, "write";
          } else if read.request.keepAlive {
            NextRound(script, k);
          } else {
            p, what := 2 * k + 3, "shutdown";
          }
        }
      }
    }
  }

  // ---------------------------------------------------------------------
  // Main results

  /** Neither a shutdown nor a report. */
  predicate Plain(log: seq<Event>) {
    forall e :: e in log ==> !e.ShutdownIssued? && !e.Reported?
  }

  lemma {:induction false} LogIsPlain(docRoot: string, script: seq<Completion>, k: nat)
    requires 2 * k < |script|
    ensures Plain(LogAt(docRoot, script, k))
  {
    hide HandleRequest;
    if k > 0 {
      LogIsPlain(docRoot, script, k - 1);
    }
  }

  lemma {:induction false} LogGrows(docRoot: string, st: State, script: seq<Completion>, k: nat)
    requires k <= |script|
    ensures Run(docRoot, st, script[..k]).log <= Run(docRoot, st, script).log
  {
    hide HandleRequest;
    if k == |script| {
      assert script[..k] == script;
    } else {
      var shorter := script[..|script| - 1];
      assert shorter[..k] == script[..k];
      LogGrows(docRoot, st, shorter, k);
    }
  }

  /** The state of a session, for each situation its script can be in. */
  lemma StateOf(docRoot: string, script: seq<Completion>) returns (k: nat, p: nat, what: string)
    ensures var st := Run(docRoot, STARTED, script);
            || (EndsAt(script, k, p, what)
                && st == State(Nothing, LastLog(docRoot, script, k, p, what) + Report(what, script[p].error)))
            || (ClosesBefore(script, k, p) && st == State(ShuttingDown, ClosingLog(docRoot, script, k, p)))
            || (!st.awaiting.Nothing? && Plain(st.log))
  {
    hide Run, HandleRequest, LogAt;
    k, p, what := Situation(script);
    if script == [] {
      assert Run(docRoot, STARTED, script) == STARTED by {
        NothingYet(docRoot);
      }
    } else if EndsAt(script, k, p, what) {
      EndState(docRoot, script, k, p, what);
    } else {
      assert script[..|script|] == script;
      LogIsPlain(docRoot, script, k);
      if |script| == 2 * k + 1 && Reaches(script, k) {
        ReachedState(docRoot, script, k);
      } else if |script| == 2 * k + 2 && Answered(script, k) {
        AnsweredState(docRoot, script, k);
      } else {
        ClosingState(docRoot, script, k, p);
      }
    }
  }

  /**
    A session shuts the stream down exactly when its client ended the stream at
    a read that was reached, or an answer that does not keep the connection
    alive was written.
   */
  lemma ShutsDownExactlyWhenClosing(docRoot: string, script: seq<Completion>)
    ensures ShutdownIssued in Run(docRoot, STARTED, script).log <==> exists k, p :: ClosesBefore(script, k, p)
  {
    hide Run, LogAt;
    if k, p :| ClosesBefore(script, k, p) {
      ClosingState(docRoot, script, k, p);
      LogGrows(docRoot, STARTED, script, p);
      var log := ClosingLog(docRoot, script, k, p);
      assert log[|log| - 1] == ShutdownIssued;
    }
    var k, p, what := StateOf(docRoot, script);
    if EndsAt(script, k, p, what) && what != "shutdown" {
      LogIsPlain(docRoot, script, if what == "handshake" then 0 else k);
    }
  }

  /** A session has ended exactly when some completion of its script ends it. */
  lemma EndsExactlyWhenTold(docRoot: string, script: seq<Completion>)
    ensures Run(docRoot, STARTED, script).awaiting.Nothing? <==> exists k, p, what :: EndsAt(script, k, p, what)
  {
    hide Run, LogAt;
    if k, p, what :| EndsAt(script, k, p, what) {
      EndState(docRoot, script, k, p, what);
    }
    var k, p, what := StateOf(docRoot, script);
  }

  /**
    The error of the completion that ended a session is reported under the
    name of its operation, unless there was none or the stream was truncated.
    Nothing else is reported.
   */
  lemma ReportsExactlyTheEnd(docRoot: string, script: seq<Completion>, what: string, error: ErrorCode)
    ensures Reported(what, error) in Run(docRoot, STARTED, script).log <==>
            Reportable(error) && exists k: nat, p: nat :: EndsAt(script, k, p, what) && script[p].error == error
  {
    hide Run, LogAt;
    if k: nat, p: nat :| Reportable(error) && EndsAt(script, k, p, what) && script[p].error == error {
      EndState(docRoot, script, k, p, what);
      var log := LastLog(docRoot, script, k, p, what) + Report(what, error);
      assert log[|log| - 1] == Reported(what, error);
    }
    var k, p, name := StateOf(docRoot, script);
    if EndsAt(script, k, p, name) {
      LogIsPlain(docRoot, script, if name == "handshake" then 0 else k);
    } else if ClosesBefore(script, k, p) {
      LogIsPlain(docRoot, script, k);
    }
  }
}
