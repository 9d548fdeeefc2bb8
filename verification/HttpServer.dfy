/**
  The asynchronous HTTPS server: a listener and any number of sessions, whose
  handlers run in any order. Each session's strand makes its own handlers run
  one at a time, so a run is a sequence of turns.
 */
module HttpServer {
  import opened HttpSession
  import opened HttpProtocol
  import opened HttpOutcome
  import opened HttpHandler

  datatype Turn = Accepted(error: ErrorCode) | Completed(id: nat, completion: Completion)

  /** `log` holds what the listener itself reports. */
  datatype World = World(accepting: bool, sessions: seq<State>, log: seq<Event>)

  const LISTENING := World(true, [], [])

  /** The turn completes an operation that is outstanding. */
  predicate Enabled(w: World, t: Turn) {
    match t
    case Accepted(_) => w.accepting
    case Completed(id, _) => id < |w.sessions| && !w.sessions[id].awaiting.Nothing?
  }

  function Take(docRoot: string, w: World, t: Turn): World
    requires Enabled(w, t)
  {
    match t
    case Accepted(error) =>
      if error != NoError then World(false, w.sessions, w.log + Fail(error, "accept"))
      else World(true, w.sessions + [POSTED], w.log)
    case Completed(id, c) => w.(sessions := w.sessions[id := Step(docRoot, w.sessions[id], c)])
  }

  /** The turns are taken one after the other, each one enabled. */
  ghost predicate Runs(docRoot: string, schedule: seq<Turn>, w: World) {
    if schedule == [] then w == LISTENING
    else
      var t := schedule[|schedule| - 1];
      exists w' :: Runs(docRoot, schedule[..|schedule| - 1], w') && Enabled(w', t) && w == Take(docRoot, w', t)
  }

  /** The completions a schedule delivers to one session. */
  function ScriptOf(schedule: seq<Turn>, id: nat): seq<Completion> {
    if schedule == [] then []
    else
      var before, t := schedule[..|schedule| - 1], schedule[|schedule| - 1];
      ScriptOf(before, id) + if t.Completed? && t.id == id then [t.completion] else []
  }

  lemma {:induction false} SessionRunsAlone(docRoot: string, schedule: seq<Turn>, w: World, id: nat)
    requires Runs(docRoot, schedule, w)
    ensures id >= |w.sessions| ==> ScriptOf(schedule, id) == []
    ensures id < |w.sessions| ==> w.sessions[id] == Run(docRoot, POSTED, ScriptOf(schedule, id))
    ensures id < |w.sessions| ==> Delivered(docRoot, POSTED, ScriptOf(schedule, id))
  {
    hide Step;
    if schedule != [] {
      var before, t := schedule[..|schedule| - 1], schedule[|schedule| - 1];
      var w' :| Runs(docRoot, before, w') && Enabled(w', t) && w == Take(docRoot, w', t);
      SessionRunsAlone(docRoot, before, w', id);
      if t.Completed? && t.id == id {
        var script := ScriptOf(before, id);
        DeliveredOneMore(docRoot, script, t.completion);
      } else {
        assert ScriptOf(before, id) + [] == ScriptOf(before, id);
      }
    }
  }

  lemma DeliveredOneMore(docRoot: string, script: seq<Completion>, c: Completion)
    requires Delivered(docRoot, POSTED, script)
    requires !Run(docRoot, POSTED, script).awaiting.Nothing?
    ensures Delivered(docRoot, POSTED, script + [c])
    ensures Run(docRoot, POSTED, script + [c]) == Step(docRoot, Run(docRoot, POSTED, script), c)
  {
    hide Step;
    var longer := script + [c];
    assert longer[..|script|] == script;
    forall k | 0 <= k < |longer| ensures !Run(docRoot, POSTED, longer[..k]).awaiting.Nothing? {
      assert longer[..k] == script[..k];
      assert script[..|script|] == script;
    }
  }

  /**
    In every interleaving each session does exactly what it would do alone on
    the completions delivered to it. It has at most one operation outstanding,
    its k-th response answers its k-th request, and its log is orderly.
   */
  lemma SessionsDoNotInterfere(docRoot: string, schedule: seq<Turn>, w: World, id: nat)
    requires Runs(docRoot, schedule, w) && id < |w.sessions|
    ensures var st, script := w.sessions[id], ScriptOf(schedule, id);
            && st == Run(docRoot, POSTED, script)
            && 1 + Operations(st.log) == |script| + Outstanding(st)
            && Orderly(st.log)
            && (forall k :: 0 <= k < |Responses(st.log)| ==>
                  && 2 * k + 2 < |script|
                  && var c := script[2 * k + 2]; Responses(st.log)[k] == HandleRequest(docRoot, c.request, c.disk))
  {
    hide HandleRequest;
    SessionRunsAlone(docRoot, schedule, w, id);
    var st, script := w.sessions[id], ScriptOf(schedule, id);
    AtMostOneOutstanding(docRoot, script);
    EveryRunIsOrderly(docRoot, POSTED, script);
    if script != [] {
      PostedThenStarted(docRoot, script);
      forall k | 0 <= k < |Responses(st.log)|
        ensures 2 * k + 2 < |script|
        ensures Responses(st.log)[k] == HandleRequest(docRoot, script[2 * k + 2].request, script[2 * k + 2].disk)
      {
        ResponsesAnswerRequests(docRoot, script[1..], k);
      }
    }
  }

  /** In every interleaving each session closes and ends as its own completions say. */
  lemma SessionsEndAsTold(docRoot: string, schedule: seq<Turn>, w: World, id: nat)
    requires Runs(docRoot, schedule, w) && id < |w.sessions| && ScriptOf(schedule, id) != []
    ensures var st, script := w.sessions[id], ScriptOf(schedule, id)[1..];
            && (ShutdownIssued in st.log <==> exists k, p :: ClosesBefore(script, k, p))
            && (st.awaiting.Nothing? <==> exists k, p, what :: EndsAt(script, k, p, what))
  {
    hide Step, ClosesBefore, EndsAt;
    SessionRunsAlone(docRoot, schedule, w, id);
    var script := ScriptOf(schedule, id);
    PostedThenStarted(docRoot, script);
    ShutsDownExactlyWhenClosing(docRoot, script[1..]);
    EndsExactlyWhenTold(docRoot, script[1..]);
  }

  /** The listener stops for good at its first error: the accepts before it are the sessions. */
  lemma {:induction false} ListenerStopsAtFirstError(docRoot: string, schedule: seq<Turn>, w: World)
    requires Runs(docRoot, schedule, w)
    ensures |w.sessions| == AcceptsOf(schedule)
    ensures w.accepting <==> forall k :: 0 <= k < |schedule| && schedule[k].Accepted? ==> schedule[k].error == NoError
    ensures forall j, k :: 0 <= j < k < |schedule| && schedule[j].Accepted? && schedule[k].Accepted? ==>
              schedule[j].error == NoError
  {
    hide Step, Fail;
    if schedule != [] {
      var before, t := schedule[..|schedule| - 1], schedule[|schedule| - 1];
      var w' :| Runs(docRoot, before, w') && Enabled(w', t) && w == Take(docRoot, w', t);
      ListenerStopsAtFirstError(docRoot, before, w');
      assert schedule == before + [t];
    }
  }

  lemma TakeReports(docRoot: string, w: World, t: Turn, what: string, error: ErrorCode)
    requires Enabled(w, t)
    ensures Reported(what, error) in Take(docRoot, w, t).log <==>
            || Reported(what, error) in w.log
            || (what == "accept" && error != NoError && error != StreamTruncated && t == Accepted(error))
  {
    hide Step;
  }

  /** The listener reports the error of a failed accept, unless it is that of a truncated stream, and nothing else. */
  lemma {:induction false} ListenerReportsItsError(docRoot: string, schedule: seq<Turn>, w: World,
                                                   what: string, error: ErrorCode)
    requires Runs(docRoot, schedule, w)
    ensures Reported(what, error) in w.log <==>
            what == "accept" && error != NoError && error != StreamTruncated && Accepted(error) in schedule
  {
    hide Take, Enabled;
    if schedule != [] {
      var before, t := schedule[..|schedule| - 1], schedule[|schedule| - 1];
      var w' :| Runs(docRoot, before, w') && Enabled(w', t) && w == Take(docRoot, w', t);
      ListenerReportsItsError(docRoot, before, w', what, error);
      TakeReports(docRoot, w', t, what, error);
      assert schedule == before + [t];
    }
  }

  function AcceptsOf(schedule: seq<Turn>): nat {
    if schedule == [] then 0
    else AcceptsOf(schedule[..|schedule| - 1]) + if schedule[|schedule| - 1] == Accepted(NoError) then 1 else 0
  }

  // ---------------------------------------------------------------------
  // The listener object and its sessions

  class Listener {
    const docRoot: string
    var accepting: bool
    var sessions: seq<Session>
    var log: seq<Event>

    constructor (docRoot: string)
      ensures this.docRoot == docRoot && Valid() && View() == World(false, [], [])
    {
      this.docRoot, accepting, sessions, log := docRoot, false, [], [];
    }

    ghost predicate Valid()
      reads this, sessions
    {
      && (forall i, j :: 0 <= i < j < |sessions| ==> sessions[i] != sessions[j])
      && (forall i :: 0 <= i < |sessions| ==> sessions[i].docRoot == docRoot)
    }

    ghost function View(): World
      reads this, sessions
    {
      var states := seq(|sessions|, i requires 0 <= i < |sessions| reads this, sessions => sessions[i].View());
      World(accepting, states, log)
    }

    /** `run` and `do_accept`. */
    method DoAccept()
      modifies this`accepting
      ensures View() == old(View()).(accepting := true)
    {
      accepting := true;
    }

    method OnAccept(error: ErrorCode)
      requires Valid() && accepting
      modifies this
      ensures Valid() && forall s :: s in sessions && s !in old(sessions) ==> fresh(s)
      ensures View() == Take(docRoot, old(View()), Accepted(error))
    {
      accepting := false;
      if error != NoError {
        log := log + Fail(error, "accept");
        return;
      }
      var session := new Session(docRoot);
      session.Start();
      sessions := sessions + [session];
      DoAccept();
    }

    /** One turn of the runtime. */
    method Turn(t: Turn)
      requires Valid() && Enabled(View(), t)
      modifies this, sessions
      ensures Valid() && View() == Take(docRoot, old(View()), t)
      ensures forall s :: s in sessions && s !in old(sessions) ==> fresh(s)
    {
      match t
      case Accepted(error) => OnAccept(error);
      case Completed(id, c) => sessions[id].Complete(c);
    }
  }
}
