/**
  The keep-alive protocol of the HTTPS server, as a step machine driven by
  completion results: what each operation reports decides which operation is
  issued next. Timeouts are one more source of errors.
 */
module HttpSession {
  import opened Common
  import opened HttpHandler

  datatype ErrorCode = NoError | EndOfStream | StreamTruncated | OtherError(message: string)

  /**
    What the environment reports for one operation: its error code, and for a
    read the request and the file system its handler will see.
   */
  datatype Completion = Completion(error: ErrorCode, request: Request, disk: Disk)

  datatype Event =
    | HandshakeIssued
    | ReadIssued
    | WriteIssued(response: Response)
    | ShutdownIssued
    | Reported(what: string, error: ErrorCode)

  /** The one operation a session waits for. */
  datatype Awaiting = Dispatch | Handshake | Reading | Writing(keepAlive: bool) | ShuttingDown | Nothing

  datatype State = State(awaiting: Awaiting, log: seq<Event>)

  /** `fail` says nothing about a truncated stream. */
  function Fail(error: ErrorCode, what: string): seq<Event> {
    if error == StreamTruncated then [] else [Reported(what, error)]
  }

  function Respond(docRoot: string, c: Completion): Response {
    HandleRequest(docRoot, c.request, c.disk)
  }

  function Step(docRoot: string, st: State, c: Completion): State {
    match st.awaiting
    case Dispatch => State(Handshake, st.log + [HandshakeIssued])
    case Handshake =>
      if c.error != NoError then State(Nothing, st.log + Fail(c.error, "handshake"))
      else State(Reading, st.log + [ReadIssued])
    case Reading =>
      if c.error == EndOfStream then State(ShuttingDown, st.log + [ShutdownIssued])
      else if c.error != NoError then State(Nothing, st.log + Fail(c.error, "read"))
      else
        var response := Respond(docRoot, c);
        State(Writing(response.keepAlive), st.log + [WriteIssued(response)])
    case Writing(keepAlive) =>
      if c.error != NoError then State(Nothing, st.log + Fail(c.error, "write"))
      else if !keepAlive then State(ShuttingDown, st.log + [ShutdownIssued])
      else State(Reading, st.log + [ReadIssued])
    case ShuttingDown =>
      State(Nothing, if c.error != NoError then st.log + Fail(c.error, "shutdown") else st.log)
    case Nothing => st
  }

  function Run(docRoot: string, st: State, script: seq<Completion>): State {
    if script == [] then st
    else Step(docRoot, Run(docRoot, st, script[..|script| - 1]), script[|script| - 1])
  }

  /** A session whose `run` has posted `on_run`. */
  const POSTED := State(Dispatch, [])

  /** A session whose handshake is under way. */
  const STARTED := State(Handshake, [HandshakeIssued])

  lemma RunOneMore(docRoot: string, st: State, script: seq<Completion>, k: nat)
    requires k < |script|
    ensures Run(docRoot, st, script[..k + 1]) == Step(docRoot, Run(docRoot, st, script[..k]), script[k])
  {
    assert script[..k + 1][..k] == script[..k];
  }

  /** Once nothing is awaited, the rest of a script changes nothing. */
  lemma {:induction false} NothingIsFinal(docRoot: string, st: State, script: seq<Completion>, k: nat)
    requires k <= |script| && Run(docRoot, st, script[..k]).awaiting.Nothing?
    ensures Run(docRoot, st, script) == Run(docRoot, st, script[..k])
  {
    if k < |script| {
      var shorter := script[..|script| - 1];
      assert shorter[..k] == script[..k];
      NothingIsFinal(docRoot, st, shorter, k);
    } else {
      assert script[..k] == script;
    }
  }

  // ---------------------------------------------------------------------
  // The blocking form

  /**
    `do_session`: one loop that performs each operation and looks at its error
    code. It stops early only where an operation has no completion yet.
   */
  method DoSession(docRoot: string, script: seq<Completion>) returns (log: seq<Event>, returned: bool)
    ensures log == Run(docRoot, STARTED, script).log
    ensures returned <==> Run(docRoot, STARTED, script).awaiting.Nothing?
  {
    hide Respond, Fail;
    log, returned := [HandshakeIssued], false;
    if |script| == 0 {
      return;
    }
    var error := script[0].error;
    var next := 1;
    RunOneMore(docRoot, STARTED, script, 0);
    if error != NoError {
      NothingIsFinal(docRoot, STARTED, script, next);
      return log + Fail(error, "handshake"), true;
    }
    while true
      invariant 1 <= next <= |script|
      invariant Run(docRoot, STARTED, script[..next]) == State(Reading, log + [ReadIssued])
      decreases |script| - next
    {
      log := log + [ReadIssued];
      if next == |script| {
        assert script[..next] == script;
        return;
      }
      var completion := script[next];
      RunOneMore(docRoot, STARTED, script, next);
      next := next + 1;
      if completion.error == EndOfStream {
        break;
      }
      if completion.error != NoError {
        NothingIsFinal(docRoot, STARTED, script, next);
        return log + Fail(completion.error, "read"), true;
      }
      var message := Respond(docRoot, completion);
      var keepAlive := message.keepAlive;
      log := log + [WriteIssued(message)];
      if next == |script| {
        assert script[..next] == script;
        return;
      }
      error := script[next].error;
      RunOneMore(docRoot, STARTED, script, next);
      next := next + 1;
      if error != NoError {
        NothingIsFinal(docRoot, STARTED, script, next);
        return log + Fail(error, "write"), true;
      }
      if !keepAlive {
        break;
      }
    }
    log := log + [ShutdownIssued];
    if next == |script| {
      assert script[..next] == script;
      return;
    }
    error := script[next].error;
    RunOneMore(docRoot, STARTED, script, next);
    NothingIsFinal(docRoot, STARTED, script, next + 1);
    if error != NoError {
      return log + Fail(error, "shutdown"), true;
    }
    return log, true;
  }

  // ---------------------------------------------------------------------
  // The callback form

  class Session {
    const docRoot: string
    var request: Option<Request>
    var awaiting: Awaiting
    var log: seq<Event>

    constructor (docRoot: string)
      ensures this.docRoot == docRoot && View() == State(Nothing, [])
    {
      this.docRoot, request, awaiting, log := docRoot, None, Nothing, [];
    }

    ghost function View(): State
      reads this
    {
      State(awaiting, log)
    }

    method Start()
      requires awaiting.Nothing?
      modifies this
      ensures View() == State(Dispatch, old(log))
    {
      awaiting := Dispatch;
    }

    method OnRun()
      requires awaiting.Dispatch?
      modifies this
      ensures View() == State(Handshake, old(log) + [HandshakeIssued])
    {
      awaiting, log := Handshake, log + [HandshakeIssued];
    }

    method OnHandshake(error: ErrorCode)
      requires awaiting.Handshake?
      modifies this
      ensures forall c: Completion :: c.error == error ==> View() == Step(docRoot, old(View()), c)
    {
      awaiting := Nothing;
      if error != NoError {
        log := log + Fail(error, "handshake");
        return;
      }
      DoRead();
    }

    method DoRead()
      modifies this
      ensures View() == State(Reading, old(log) + [ReadIssued]) && request == None
    {
      request := None;
      awaiting, log := Reading, log + [ReadIssued];
    }

    /** `request` was filled by the read. */
    method OnRead(error: ErrorCode, disk: Disk)
      requires awaiting.Reading? && (error == NoError ==> request.Some?)
      modifies this
      ensures forall c: Completion ::
        c.error == error && c.disk == disk && (error == NoError ==> old(request) == Some(c.request)) ==>
        View() == Step(docRoot, old(View()), c)
    {
      awaiting := Nothing;
      if error == EndOfStream {
        DoClose();
        return;
      }
      if error != NoError {
        log := log + Fail(error, "read");
        return;
      }
      SendResponse(HandleRequest(docRoot, request.value, disk));
    }

    method SendResponse(message: Response)
      modifies this
      ensures View() == State(Writing(message.keepAlive), old(log) + [WriteIssued(message)])
    {
      awaiting, log := Writing(message.keepAlive), log + [WriteIssued(message)];
    }

    method OnWrite(keepAlive: bool, error: ErrorCode)
      requires awaiting == Writing(keepAlive)
      modifies this
      ensures forall c: Completion :: c.error == error ==> View() == Step(docRoot, old(View()), c)
    {
      awaiting := Nothing;
      if error != NoError {
        log := log + Fail(error, "write");
        return;
      }
      if !keepAlive {
        DoClose();
        return;
      }
      DoRead();
    }

    method DoClose()
      modifies this
      ensures View() == State(ShuttingDown, old(log) + [ShutdownIssued])
    {
      awaiting, log := ShuttingDown, log + [ShutdownIssued];
    }

    method OnShutdown(error: ErrorCode)
      requires awaiting.ShuttingDown?
      modifies this
      ensures forall c: Completion :: c.error == error ==> View() == Step(docRoot, old(View()), c)
    {
      awaiting := Nothing;
      if error != NoError {
        log := log + Fail(error, "shutdown");
      }
    }

    /** The runtime completes the awaited operation and calls its handler. */
    method Complete(c: Completion)
      requires !awaiting.Nothing?
      modifies this
      ensures View() == Step(docRoot, old(View()), c)
    {
      match awaiting
      case Dispatch => OnRun();
      case Handshake => OnHandshake(c.error);
      case Reading =>
        request := if c.error == NoError then Some(c.request) else None;
        OnRead(c.error, c.disk);
      case Writing(keepAlive) => OnWrite(keepAlive, c.error);
      case ShuttingDown => OnShutdown(c.error);
    }
  }

  /** A callback session alone, from its construction. */
  method RunSession(docRoot: string, script: seq<Completion>) returns (log: seq<Event>, returned: bool)
    ensures log == Run(docRoot, STARTED, script).log
    ensures returned <==> Run(docRoot, STARTED, script).awaiting.Nothing?
  {
    var session := new Session(docRoot);
    session.Start();
    session.OnRun();
    var next := 0;
    while next < |script| && session.awaiting != Nothing
      invariant next <= |script| && session.docRoot == docRoot
      invariant session.View() == Run(docRoot, STARTED, script[..next])
    {
      session.Complete(script[next]);
      RunOneMore(docRoot, STARTED, script, next);
      next := next + 1;
    }
    if next < |script| {
      NothingIsFinal(docRoot, STARTED, script, next);
    } else {
      assert script[..next] == script;
    }
    return session.log, session.awaiting == Nothing;
  }

  /** The two forms do the same on every script. */
  method BothForms(docRoot: string, script: seq<Completion>)
    returns (blocking: seq<Event>, callbacks: seq<Event>, returnedBlocking: bool, returnedCallbacks: bool)
    ensures blocking == callbacks && returnedBlocking == returnedCallbacks
    ensures blocking == Run(docRoot, STARTED, script).log
  {
    blocking, returnedBlocking := DoSession(docRoot, script);
    callbacks, returnedCallbacks := RunSession(docRoot, script);
  }
}
