/**
  What every run of the keep-alive protocol keeps: which request each response
  answers, exactly which responses are sent, and what may follow a response
  that closes the connection.
 */
module HttpProtocol {
  import opened HttpHandler
  import opened HttpSession

  /** The responses written, in order. */
  function Responses(log: seq<Event>): seq<Response> {
    if log == [] then []
    else
      var others := Responses(log[..|log| - 1]);
      match log[|log| - 1]
      case WriteIssued(response) => others + [response]
      case _ => others
  }

  lemma ResponsesAfter(log: seq<Event>, e: Event)
    ensures Responses(log + [e]) == Responses(log) + if e.WriteIssued? then [e.response] else []
  {
    assert (log + [e])[..|log|] == log;
  }

  lemma ResponsesAfterFail(log: seq<Event>, error: ErrorCode, what: string)
    ensures Responses(log + Fail(error, what)) == Responses(log)
  {
    if Fail(error, what) == [] {
      assert log + [] == log;
    } else {
      ResponsesAfter(log, Reported(what, error));
    }
  }

  /**
    In a script the handshake has index 0, the k-th read index 2k+1 and the
    k-th write index 2k+2. The k-th response is due when everything before it
    succeeded and every earlier response kept the connection alive.
   */
  predicate Due(docRoot: string, script: seq<Completion>, k: nat) {
    && 2 * k + 1 < |script|
    && script[0].error == NoError
    && (forall j :: 0 <= j <= k ==> script[2 * j + 1].error == NoError)
    && (forall j :: 0 <= j < k ==>
          script[2 * j + 2].error == NoError && Respond(docRoot, script[2 * j + 1]).keepAlive)
  }

  function Served(docRoot: string, script: seq<Completion>): seq<Response> {
    Responses(Run(docRoot, STARTED, script).log)
  }

  /** The k-th write succeeded, and its response keeps the connection alive. */
  predicate Continues(docRoot: string, script: seq<Completion>, k: nat)
    requires 2 * k + 2 < |script|
  {
    script[2 * k + 2].error == NoError && Respond(docRoot, script[2 * k + 1]).keepAlive
  }

  /** Something before response `n` has already gone wrong or closed the connection. */
  predicate Stuck(docRoot: string, script: seq<Completion>, n: nat) {
    || (script != [] && script[0].error != NoError)
    || (2 * n + 1 < |script| && script[2 * n + 1].error != NoError)
    || (0 < n && 2 * n < |script| && !Continues(docRoot, script, n - 1))
  }

  /** Where a session stands, in terms of the script it has seen and the responses it has sent. */
  predicate InPhase(docRoot: string, script: seq<Completion>, awaiting: Awaiting, served: seq<Response>) {
    var n := |served|;
    && (forall k :: 0 <= k < n ==> Due(docRoot, script, k) && served[k] == Respond(docRoot, script[2 * k + 1]))
    && match awaiting
       case Dispatch => false
       case Handshake => script == [] && n == 0
       case Reading =>
         |script| == 2 * n + 1 && script[0].error == NoError && (0 < n ==> Continues(docRoot, script, n - 1))
       case Writing(keepAlive) =>
         |script| == 2 * n && 0 < n && keepAlive == Respond(docRoot, script[2 * n - 1]).keepAlive
       case ShuttingDown => Stuck(docRoot, script, n)
       case Nothing => Stuck(docRoot, script, n)
  }

  lemma ResponsesAfterStep(docRoot: string, st: State, c: Completion)
    ensures Responses(Step(docRoot, st, c).log) ==
            Responses(st.log) + if st.awaiting.Reading? && c.error == NoError then [Respond(docRoot, c)] else []
  {
    hide Respond, Responses, Fail;
    match st.awaiting
    case Dispatch => ResponsesAfter(st.log, HandshakeIssued);
    case Handshake =>
      ResponsesAfter(st.log, ReadIssued);
      ResponsesAfterFail(st.log, c.error, "handshake");
    case Reading =>
      ResponsesAfter(st.log, ShutdownIssued);
      ResponsesAfterFail(st.log, c.error, "read");
      ResponsesAfter(st.log, WriteIssued(Respond(docRoot, c)));
    case Writing(_) =>
      ResponsesAfter(st.log, ShutdownIssued);
      ResponsesAfter(st.log, ReadIssued);
      ResponsesAfterFail(st.log, c.error, "write");
    case ShuttingDown =>
      ResponsesAfterFail(st.log, c.error, "shutdown");
    case Nothing =>
  }

  lemma DueLasts(docRoot: string, script: seq<Completion>, c: Completion, k: nat)
    requires Due(docRoot, script, k)
    ensures Due(docRoot, script + [c], k)
  {
  }

  lemma StuckLasts(docRoot: string, script: seq<Completion>, c: Completion, n: nat)
    requires Stuck(docRoot, script, n)
    ensures Stuck(docRoot, script + [c], n)
  {
    hide Respond;
  }

  lemma NextResponseIsDue(docRoot: string, script: seq<Completion>, c: Completion, n: nat)
    requires |script| == 2 * n + 1 && script[0].error == NoError && c.error == NoError
    requires 0 < n ==> Due(docRoot, script, n - 1) && Continues(docRoot, script, n - 1)
    ensures Due(docRoot, script + [c], n)
  {
    hide Respond;
    var longer := script + [c];
    forall j | 0 <= j <= n ensures longer[2 * j + 1].error == NoError {
    }
    forall j | 0 <= j < n
      ensures longer[2 * j + 2].error == NoError && Respond(docRoot, longer[2 * j + 1]).keepAlive
    {
    }
  }

  lemma StepKeepsPhase(docRoot: string, script: seq<Completion>, st: State, c: Completion)
    requires InPhase(docRoot, script, st.awaiting, Responses(st.log))
    ensures var st' := Step(docRoot, st, c);
            InPhase(docRoot, script + [c], st'.awaiting, Responses(st'.log))
  {
    hide Respond, Responses;
    ResponsesAfterStep(docRoot, st, c);
    var served := Responses(st.log);
    var longer, n := script + [c], |served|;
    forall k | 0 <= k < n ensures Due(docRoot, longer, k) && served[k] == Respond(docRoot, longer[2 * k + 1]) {
      DueLasts(docRoot, script, c, k);
    }
    assert longer[|script|] == c;
    match st.awaiting
    case Handshake =>
    case Reading =>
      if c.error == NoError {
        NextResponseIsDue(docRoot, script, c, n);
      }
    case Writing(keepAlive) =>
      assert Due(docRoot, longer, n - 1);
      assert Continues(docRoot, longer, n - 1) <==> c.error == NoError && keepAlive;
    case ShuttingDown =>
      StuckLasts(docRoot, script, c, n);
    case Nothing =>
      StuckLasts(docRoot, script, c, n);
  }

  lemma {:induction false} EveryRunIsInPhase(docRoot: string, script: seq<Completion>)
    ensures InPhase(docRoot, script, Run(docRoot, STARTED, script).awaiting, Served(docRoot, script))
  {
    if script == [] {
      assert [HandshakeIssued] == [] + [HandshakeIssued];
      ResponsesAfter([], HandshakeIssued);
    } else {
      var before, c := script[..|script| - 1], script[|script| - 1];
      assert script == before + [c];
      EveryRunIsInPhase(docRoot, before);
      StepKeepsPhase(docRoot, before, Run(docRoot, STARTED, before), c);
    }
  }

  /** A response that is due has been sent. */
  lemma NothingMissing(docRoot: string, script: seq<Completion>, k: nat, awaiting: Awaiting, served: seq<Response>)
    requires InPhase(docRoot, script, awaiting, served)
    requires Due(docRoot, script, k)
    ensures k < |served|
  {
    hide Respond;
  }

  /** The k-th response answers the k-th request, and responses are sent exactly when they are due. */
  lemma ResponsesAnswerRequests(docRoot: string, script: seq<Completion>, k: nat)
    ensures k < |Served(docRoot, script)| <==> Due(docRoot, script, k)
    ensures k < |Served(docRoot, script)| ==>
            Served(docRoot, script)[k] == HandleRequest(docRoot, script[2 * k + 1].request, script[2 * k + 1].disk)
  {
    EveryRunIsInPhase(docRoot, script);
    var n := |Served(docRoot, script)|;
    if Due(docRoot, script, k) && n <= k {
      NothingMissing(docRoot, script, k, Run(docRoot, STARTED, script).awaiting, Served(docRoot, script));
    }
  }

  // ---------------------------------------------------------------------
  // The order of operations

  /** Whether a later event `f` may follow `e`: nothing is read or written after a closing response. */
  predicate MayFollow(e: Event, f: Event) {
    match e
    case ShutdownIssued => f.Reported?
    case WriteIssued(response) => response.keepAlive || f.ShutdownIssued? || f.Reported?
    case Reported(_, _) => false
    case _ => true
  }

  predicate Orderly(log: seq<Event>) {
    forall i, j :: 0 <= i < j < |log| ==> MayFollow(log[i], log[j])
  }

  predicate AllAllow(log: seq<Event>, f: Event) {
    forall i :: 0 <= i < |log| ==> MayFollow(log[i], f)
  }

  /** What a log may hold while a session awaits this. */
  predicate MayPrecede(e: Event, awaiting: Awaiting) {
    match awaiting
    case Nothing => true
    case ShuttingDown => !e.Reported?
    case Writing(false) => !e.Reported? && !e.ShutdownIssued?
    case _ => !e.Reported? && !e.ShutdownIssued? && (e.WriteIssued? ==> e.response.keepAlive)
  }

  predicate OrderlyState(st: State) {
    Orderly(st.log) && forall i :: 0 <= i < |st.log| ==> MayPrecede(st.log[i], st.awaiting)
  }

  lemma OrderlyAfter(log: seq<Event>, e: Event)
    requires Orderly(log) && AllAllow(log, e)
    ensures Orderly(log + [e])
  {
  }

  lemma StepKeepsOrder(docRoot: string, st: State, c: Completion)
    requires OrderlyState(st)
    ensures OrderlyState(Step(docRoot, st, c))
  {
    hide Respond;
    var st' := Step(docRoot, st, c);
    if st'.log != st.log {
      var e := st'.log[|st.log|];
      assert st'.log == st.log + [e];
      assert AllAllow(st.log, e);
      OrderlyAfter(st.log, e);
    }
  }

  /**
    In every run no read or write follows a response that closes the
    connection, shutdown is issued at most once, and nothing follows a report.
   */
  lemma {:induction false} EveryRunIsOrderly(docRoot: string, st: State, script: seq<Completion>)
    requires OrderlyState(st)
    ensures OrderlyState(Run(docRoot, st, script))
  {
    if script != [] {
      var before := script[..|script| - 1];
      EveryRunIsOrderly(docRoot, st, before);
      StepKeepsOrder(docRoot, Run(docRoot, st, before), script[|script| - 1]);
    }
  }

  /** How many operations a session has issued. */
  function Operations(log: seq<Event>): nat {
    if log == [] then 0
    else Operations(log[..|log| - 1]) + if log[|log| - 1].Reported? then 0 else 1
  }

  lemma OperationsAfter(log: seq<Event>, e: Event)
    ensures Operations(log + [e]) == Operations(log) + if e.Reported? then 0 else 1
  {
    assert (log + [e])[..|log|] == log;
  }

  /** Every completion of the script was awaited. */
  predicate Delivered(docRoot: string, st: State, script: seq<Completion>) {
    forall k :: 0 <= k < |script| ==> !Run(docRoot, st, script[..k]).awaiting.Nothing?
  }

  /** The number of operations a session has outstanding, its posted start included. */
  function Outstanding(st: State): nat {
    if st.awaiting.Nothing? then 0 else 1
  }

  lemma StepIssuesOne(docRoot: string, st: State, c: Completion)
    requires !st.awaiting.Nothing?
    ensures Operations(Step(docRoot, st, c).log) == Operations(st.log) + Outstanding(Step(docRoot, st, c))
  {
    hide Respond, Operations;
    var st' := Step(docRoot, st, c);
    if st'.log != st.log {
      var e := st'.log[|st.log|];
      assert st'.log == st.log + [e];
      OperationsAfter(st.log, e);
    }
  }

  /** Operations issued are operations completed plus at most one outstanding. */
  lemma {:induction false} AtMostOneOutstanding(docRoot: string, script: seq<Completion>)
    requires Delivered(docRoot, POSTED, script)
    ensures 1 + Operations(Run(docRoot, POSTED, script).log) == |script| + Outstanding(Run(docRoot, POSTED, script))
  {
    if script != [] {
      var before := script[..|script| - 1];
      forall k | 0 <= k < |before| ensures !Run(docRoot, POSTED, before[..k]).awaiting.Nothing? {
        assert before[..k] == script[..k];
      }
      AtMostOneOutstanding(docRoot, before);
      StepIssuesOne(docRoot, Run(docRoot, POSTED, before), script[|script| - 1]);
    }
  }

  /** A posted session is a started one after its first turn. */
  lemma {:induction false} PostedThenStarted(docRoot: string, script: seq<Completion>)
    requires script != []
    ensures Run(docRoot, POSTED, script) == Run(docRoot, STARTED, script[1..])
  {
    var before := script[..|script| - 1];
    if before == [] {
      assert Run(docRoot, POSTED, before) == POSTED;
    } else {
      PostedThenStarted(docRoot, before);
      assert script[1..][..|script| - 2] == before[1..];
    }
  }
}
