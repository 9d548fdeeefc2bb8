/**
  Ownership in the SSL server: sessions live on the heap, every pending
  operation holds the address of one, and a handler that sees an error deletes
  its session. Addresses are never reused, so that a handler of a deleted
  session can be told from one of a later session.
 */
module SslServer {
  import opened Common
  import Echo = EchoMachine

  datatype Handler =
    | HandleAccept(session: nat)
    | HandleHandshake(session: nat)
    | HandleRead(session: nat)
    | HandleWrite(session: nat)

  /** `fault` is set when a session that is not live is used or deleted. */
  datatype Server = Server(
    live: map<nat, Echo.State>, pending: multiset<Handler>,
    nextAddress: nat, deleted: seq<nat>, fault: bool)

  datatype Turn =
    | AcceptDone(session: nat, ok: bool)
    | HandshakeDone(session: nat, ok: bool)
    | ReadDone(session: nat, result: Echo.Completion)
    | WroteSome(session: nat, result: Echo.Completion)

  function HandlerOf(t: Turn): Handler {
    match t
    case AcceptDone(s, _) => HandleAccept(s)
    case HandshakeDone(s, _) => HandleHandshake(s)
    case ReadDone(s, _) => HandleRead(s)
    case WroteSome(s, _) => HandleWrite(s)
  }

  predicate Enabled(v: Server, t: Turn) {
    HandlerOf(t) in v.pending
  }

  /** A session that has not started to read. */
  function New(size: nat): Echo.State {
    Echo.State(Echo.Ended, Zeros(size), [], [])
  }

  /** `start_accept`: a new session waits for the next connection. */
  function StartAccept(size: nat, v: Server): Server {
    v.(live := v.live[v.nextAddress := New(size)],
       pending := v.pending + multiset{HandleAccept(v.nextAddress)},
       nextAddress := v.nextAddress + 1)
  }

  function Delete(v: Server, s: nat): Server {
    if s in v.live then v.(live := v.live - {s}, deleted := v.deleted + [s]) else v.(fault := true)
  }

  function Start(v: Server, h: Handler): Server {
    v.(pending := v.pending + multiset{h})
  }

  function Dispatch(size: nat, v: Server, t: Turn): Server {
    var s := t.session;
    var rest := v.(pending := v.pending - multiset{HandlerOf(t)});
    match t
    case AcceptDone(_, ok) => StartAccept(size, if ok then Start(rest, HandleHandshake(s)) else Delete(rest, s))
    case HandshakeDone(_, ok) => if ok then Begun(rest, s) else Delete(rest, s)
    case ReadDone(_, result) => Exchanged(rest, s, result)
    case WroteSome(_, result) => Exchanged(rest, s, result)
  }

  /** The handshake handler: the first read is started. */
  function Begun(v: Server, s: nat): Server {
    if s !in v.live then v.(fault := true)
    else Start(v.(live := v.live[s := v.live[s].(phase := Echo.Reading)]), HandleRead(s))
  }

  /** The read and write handlers: echo, or delete the session on an error. */
  function Exchanged(v: Server, s: nat, result: Echo.Completion): Server {
    if s !in v.live || !Echo.Fits(v.live[s]) then v.(fault := true)
    else
      var st := Echo.Step(v.live[s], result);
      var v' := v.(live := v.live[s := st]);
      match st.phase
      case Ended => Delete(v', s)
      case Reading => Start(v', HandleRead(s))
      case Writing(_, _) => Start(v', HandleWrite(s))
  }

  ghost predicate Runs(size: nat, schedule: seq<Turn>, v: Server) {
    if schedule == [] then v == StartAccept(size, Server(map[], multiset{}, 0, [], false))
    else
      var t := schedule[|schedule| - 1];
      exists u :: Runs(size, schedule[..|schedule| - 1], u) && Enabled(u, t) && v == Dispatch(size, u, t)
  }

  // ---------------------------------------------------------------------
  // Ownership

  /** The sessions that operations are pending for. */
  function Sessions(pending: multiset<Handler>): set<nat> {
    set h | h in pending :: h.session
  }

  /** No session has two operations pending. */
  predicate Exclusive(pending: multiset<Handler>) {
    && (forall h :: h in pending ==> pending[h] == 1)
    && (forall g, h :: g in pending && h in pending && g.session == h.session ==> g == h)
  }

  /** Each pending operation has a live session to itself, and each live session one operation. */
  predicate OneToOne(v: Server) {
    Exclusive(v.pending) && Sessions(v.pending) == v.live.Keys
  }

  /** Every session ever allocated is either live or was deleted. */
  predicate NoneLost(v: Server) {
    && (forall s :: s in v.live ==> s < v.nextAddress)
    && (forall s: nat :: s < v.nextAddress ==> (s in v.live <==> s !in v.deleted))
  }

  /** No session was deleted twice, and the numbers of sessions add up. */
  predicate DeletedOnce(v: Server) {
    && (forall i, j :: 0 <= i < j < |v.deleted| ==> v.deleted[i] != v.deleted[j])
    && (forall i :: 0 <= i < |v.deleted| ==> v.deleted[i] < v.nextAddress)
    && |v.live.Keys| + |v.deleted| == v.nextAddress
  }

  predicate AccountedFor(v: Server) {
    NoneLost(v) && DeletedOnce(v)
  }

  /** Every live session is in the state its pending operation needs, and echoes. */
  predicate SessionsFit(size: nat, v: Server) {
    forall h :: h in v.pending && h.session in v.live ==> Suits(size, h, v.live[h.session])
  }

  predicate Suits(size: nat, h: Handler, st: Echo.State) {
    && Echo.Echoing(st) && |st.data| == size
    && match h
       case HandleAccept(_) => st == New(size)
       case HandleHandshake(_) => st == New(size)
       case HandleRead(_) => st.phase.Reading?
       case HandleWrite(_) => st.phase.Writing?
  }

  predicate OneAccept(v: Server) {
    && (exists h :: h in v.pending && h.HandleAccept?)
    && (forall g, h :: g in v.pending && h in v.pending && g.HandleAccept? && h.HandleAccept? ==> g == h)
  }

  predicate Owned(size: nat, v: Server) {
    !v.fault && OneToOne(v) && AccountedFor(v) && SessionsFit(size, v)
  }

  /** The state while the handler of `s` runs: `s` is live and nothing waits for it. */
  predicate InHandler(size: nat, v: Server, s: nat) {
    && !v.fault && AccountedFor(v) && SessionsFit(size, v)
    && s in v.live && Exclusive(v.pending) && Sessions(v.pending) == v.live.Keys - {s}
  }

  lemma HandlerAdded(pending: multiset<Handler>, h: Handler)
    requires Exclusive(pending) && h.session !in Sessions(pending)
    ensures Exclusive(pending + multiset{h})
    ensures Sessions(pending + multiset{h}) == Sessions(pending) + {h.session}
  {
    var more := pending + multiset{h};
    assert h !in pending;
    assert forall g :: g in more <==> g == h || g in pending;
  }

  lemma HandlerRemoved(pending: multiset<Handler>, h: Handler)
    requires Exclusive(pending) && h in pending
    ensures Exclusive(pending - multiset{h})
    ensures Sessions(pending - multiset{h}) == Sessions(pending) - {h.session}
  {
    var fewer := pending - multiset{h};
    assert forall g :: g in fewer <==> g != h && g in pending;
  }

  lemma AccountsIgnorePending(v: Server, v': Server)
    requires AccountedFor(v)
    requires v'.nextAddress == v.nextAddress && v'.deleted == v.deleted && v'.live.Keys == v.live.Keys
    ensures AccountedFor(v')
  {
  }

  lemma HandlerRuns(size: nat, v: Server, t: Turn)
    requires Owned(size, v) && Enabled(v, t)
    ensures InHandler(size, v.(pending := v.pending - multiset{HandlerOf(t)}), t.session)
    ensures Suits(size, HandlerOf(t), v.live[t.session])
  {
    hide Suits, AccountedFor, Exclusive;
    var h, rest := HandlerOf(t), v.(pending := v.pending - multiset{HandlerOf(t)});
    assert h.session in Sessions(v.pending);
    HandlerRemoved(v.pending, h);
    AccountsIgnorePending(v, rest);
  }

  lemma StartIsOwned(size: nat, v: Server, h: Handler)
    requires InHandler(size, v, h.session) && Suits(size, h, v.live[h.session])
    ensures Owned(size, Start(v, h))
  {
    hide Suits, AccountedFor, Exclusive, Sessions;
    HandlerAdded(v.pending, h);
    AccountsIgnorePending(v, Start(v, h));
    assert forall g :: g in v.pending + multiset{h} ==> g == h || g in v.pending;
  }

  lemma DeleteIsAccounted(v: Server, s: nat)
    requires AccountedFor(v) && s in v.live
    ensures AccountedFor(Delete(v, s))
  {
    assert (v.live - {s}).Keys == v.live.Keys - {s};
  }

  lemma DeleteIsOwned(size: nat, v: Server, s: nat)
    requires InHandler(size, v, s)
    ensures Owned(size, Delete(v, s))
  {
    hide Suits, AccountedFor, Exclusive, Sessions;
    DeleteIsAccounted(v, s);
  }

  lemma StartAcceptLosesNone(size: nat, v: Server)
    requires AccountedFor(v)
    ensures v.nextAddress !in v.live && NoneLost(StartAccept(size, v))
  {
    hide New;
    assert forall i :: 0 <= i < |v.deleted| ==> v.deleted[i] != v.nextAddress;
  }

  lemma StartAcceptIsAccounted(size: nat, v: Server)
    requires AccountedFor(v)
    ensures v.nextAddress !in v.live && AccountedFor(StartAccept(size, v))
  {
    hide New, NoneLost;
    StartAcceptLosesNone(size, v);
    KeyAdded(v.live, v.nextAddress, New(size));
  }

  lemma KeyAdded<T>(m: map<nat, T>, k: nat, x: T)
    requires k !in m
    ensures m[k := x].Keys == m.Keys + {k} && |m[k := x].Keys| == |m.Keys| + 1
  {
    assert m[k := x].Keys == m.Keys + {k};
  }

  lemma StartAcceptFits(size: nat, v: Server)
    requires SessionsFit(size, v)
    requires forall g :: g in v.pending ==> g.session in v.live && g.session != v.nextAddress
    ensures SessionsFit(size, StartAccept(size, v))
  {
    hide Suits, New;
    var h := HandleAccept(v.nextAddress);
    NewSuits(size, h);
    assert forall g :: g in v.pending + multiset{h} ==> g == h || g in v.pending;
  }

  lemma StartAcceptIsOneToOne(size: nat, v: Server)
    requires OneToOne(v) && v.nextAddress !in v.live
    ensures OneToOne(StartAccept(size, v))
  {
    hide New, Exclusive, Sessions;
    HandlerAdded(v.pending, HandleAccept(v.nextAddress));
    KeyAdded(v.live, v.nextAddress, New(size));
  }

  lemma StartAcceptIsOwned(size: nat, v: Server)
    requires Owned(size, v)
    ensures Owned(size, StartAccept(size, v))
  {
    hide AccountedFor, New, Exclusive, SessionsFit;
    StartAcceptIsAccounted(size, v);
    assert forall g :: g in v.pending ==> g.session in Sessions(v.pending);
    StartAcceptFits(size, v);
    hide Sessions;
    StartAcceptIsOneToOne(size, v);
  }

  lemma NewSuits(size: nat, h: Handler)
    requires h.HandleAccept? || h.HandleHandshake?
    ensures Suits(size, h, New(size))
  {
  }

  lemma ExchangedIsOwned(size: nat, v: Server, s: nat, result: Echo.Completion)
    requires InHandler(size, v, s) && Echo.Echoing(v.live[s]) && |v.live[s].data| == size
    ensures Owned(size, Exchanged(v, s, result))
  {
    hide Suits, Echo.Step, Echo.Echoing, AccountedFor, Exclusive;
    Echo.EchoingFits(v.live[s]);
    Echo.StepKeepsEchoing(v.live[s], result);
    var st := Echo.Step(v.live[s], result);
    var v' := v.(live := v.live[s := st]);
    AccountsIgnorePending(v, v');
    assert forall g :: g in v.pending ==> g.session in Sessions(v.pending);
    assert InHandler(size, v', s);
    hide InHandler;
    match st.phase
    case Ended => DeleteIsOwned(size, v', s);
    case Reading =>
      ReadingSuits(size, s, st);
      StartIsOwned(size, v', HandleRead(s));
    case Writing(_, _) =>
      ReadingSuits(size, s, st);
      StartIsOwned(size, v', HandleWrite(s));
  }

  lemma BegunIsOwned(size: nat, v: Server, s: nat)
    requires InHandler(size, v, s) && v.live[s] == New(size)
    ensures Owned(size, Begun(v, s))
  {
    hide Suits, AccountedFor, Exclusive;
    var st := v.live[s].(phase := Echo.Reading);
    var v' := v.(live := v.live[s := st]);
    AccountsIgnorePending(v, v');
    assert forall g :: g in v.pending ==> g.session in Sessions(v.pending);
    ReadingSuits(size, s, st);
    StartIsOwned(size, v', HandleRead(s));
  }

  lemma ReadingSuits(size: nat, s: nat, st: Echo.State)
    requires Echo.Echoing(st) && |st.data| == size
    ensures st.phase.Reading? ==> Suits(size, HandleRead(s), st)
    ensures st.phase.Writing? ==> Suits(size, HandleWrite(s), st)
  {
  }

  lemma DispatchIsOwned(size: nat, v: Server, t: Turn)
    requires Owned(size, v) && Enabled(v, t)
    ensures Owned(size, Dispatch(size, v, t))
  {
    hide OneToOne, AccountedFor, SessionsFit, InHandler, Exchanged, Delete, Begun;
    HandlerRuns(size, v, t);
    var rest := v.(pending := v.pending - multiset{HandlerOf(t)});
    match t
    case AcceptDone(s, ok) =>
      NewSuits(size, HandleHandshake(s));
      if ok {
        StartIsOwned(size, rest, HandleHandshake(s));
        StartAcceptIsOwned(size, Start(rest, HandleHandshake(s)));
      } else {
        DeleteIsOwned(size, rest, s);
        StartAcceptIsOwned(size, Delete(rest, s));
      }
    case HandshakeDone(s, ok) =>
      if ok {
        BegunIsOwned(size, rest, s);
      } else {
        DeleteIsOwned(size, rest, s);
      }
    case ReadDone(s, result) => ExchangedIsOwned(size, rest, s, result);
    case WroteSome(s, result) => ExchangedIsOwned(size, rest, s, result);
  }

  /**
    In every run, live sessions and pending operations correspond one to one:
    no handler finds its session gone, no session is deleted twice or while an
    operation is pending for it, and every live session echoes.
   */
  lemma {:induction false} EveryRunOwns(size: nat, schedule: seq<Turn>, v: Server)
    requires Runs(size, schedule, v)
    ensures Owned(size, v)
  {
    hide Owned, Dispatch, Enabled;
    if schedule == [] {
      EmptyIsOwned(size);
      StartAcceptIsOwned(size, Server(map[], multiset{}, 0, [], false));
    } else {
      var before, t := schedule[..|schedule| - 1], schedule[|schedule| - 1];
      var u :| Runs(size, before, u) && Enabled(u, t) && v == Dispatch(size, u, t);
      EveryRunOwns(size, before, u);
      DispatchIsOwned(size, u, t);
    }
  }

  lemma EmptyIsOwned(size: nat)
    ensures Owned(size, Server(map[], multiset{}, 0, [], false))
  {
  }

  /**
    As long as no deletion ends the process, the server never stops accepting,
    and never has two accepts pending.
   */
  lemma {:induction false} AlwaysOneAccept(size: nat, schedule: seq<Turn>, v: Server)
    requires Runs(size, schedule, v)
    ensures OneAccept(v)
  {
    hide Owned;
    if schedule == [] {
      assert HandleAccept(0) in v.pending;
    } else {
      var before, t := schedule[..|schedule| - 1], schedule[|schedule| - 1];
      var u :| Runs(size, before, u) && Enabled(u, t) && v == Dispatch(size, u, t);
      AlwaysOneAccept(size, before, u);
      EveryRunOwns(size, before, u);
      DispatchKeepsOneAccept(size, u, t);
    }
  }

  /** Only the completion of an accept touches pending accepts. */
  lemma OthersLeaveAccepts(size: nat, v: Server, t: Turn)
    requires Enabled(v, t) && !t.AcceptDone?
    ensures forall g: Handler :: g.HandleAccept? ==> Dispatch(size, v, t).pending[g] == v.pending[g]
  {
    hide Echo.Step;
  }

  lemma NextAcceptIsPending(size: nat, v: Server, t: Turn)
    requires Enabled(v, t) && t.AcceptDone?
    ensures forall g: Handler :: g.HandleAccept? ==>
      Dispatch(size, v, t).pending[g] ==
      v.pending[g] - (if g == HandlerOf(t) then 1 else 0) + (if g == HandleAccept(v.nextAddress) then 1 else 0)
  {
    hide New;
  }

  lemma DispatchKeepsOneAccept(size: nat, v: Server, t: Turn)
    requires Owned(size, v) && Enabled(v, t) && OneAccept(v)
    ensures OneAccept(Dispatch(size, v, t))
  {
    hide Dispatch, AccountedFor, SessionsFit, Sessions;
    var v', h := Dispatch(size, v, t), HandlerOf(t);
    assert v.pending[h] == 1;
    if t.AcceptDone? {
      NextAcceptIsPending(size, v, t);
      assert HandleAccept(v.nextAddress) in v'.pending;
    } else {
      OthersLeaveAccepts(size, v, t);
      var g :| g in v.pending && g.HandleAccept?;
      assert g in v'.pending;
    }
    assert forall g :: g in v'.pending && g.HandleAccept? ==> g in v.pending || g == HandleAccept(v.nextAddress);
  }

  lemma {:induction false} ExclusiveCount(pending: multiset<Handler>)
    requires Exclusive(pending)
    ensures |pending| == |Sessions(pending)|
    decreases |pending|
  {
    if pending != multiset{} {
      var h :| h in pending;
      HandlerRemoved(pending, h);
      ExclusiveCount(pending - multiset{h});
      assert h.session in Sessions(pending);
    }
  }

  /** As many sessions are live as operations are pending, and all others were deleted. */
  lemma SessionsAreCounted(size: nat, schedule: seq<Turn>, v: Server)
    requires Runs(size, schedule, v)
    ensures |v.live.Keys| == |v.pending|
    ensures |v.deleted| == v.nextAddress - |v.pending|
  {
    EveryRunOwns(size, schedule, v);
    ExclusiveCount(v.pending);
  }

  /** A live session has sent a prefix of what it received, and all of it unless its write is pending. */
  lemma LiveSessionsEcho(size: nat, schedule: seq<Turn>, v: Server, s: nat)
    requires Runs(size, schedule, v) && s in v.live
    ensures v.live[s].sent <= v.live[s].received
    ensures HandleWrite(s) !in v.pending ==> v.live[s].sent == v.live[s].received
  {
    EveryRunOwns(size, schedule, v);
    assert s in Sessions(v.pending);
    var h :| h in v.pending && h.session == s;
  }

  // ---------------------------------------------------------------------
  // Which sessions are deleted, and what the others wait for

  /** The read and write completions of one session. */
  function IoOf(schedule: seq<Turn>, s: nat): seq<Echo.Completion> {
    if schedule == [] then []
    else
      var t := schedule[|schedule| - 1];
      IoOf(schedule[..|schedule| - 1], s) + if (t.ReadDone? || t.WroteSome?) && t.session == s then [t.result] else []
  }

  /** An operation of the session failed: its accept, its handshake, a read or a write. */
  predicate Failed(size: nat, schedule: seq<Turn>, s: nat) {
    || AcceptDone(s, false) in schedule
    || HandshakeDone(s, false) in schedule
    || !Echo.Smooth(size, IoOf(schedule, s))
  }

  /** What a schedule says about the session that `h` is pending for. */
  predicate WaitsRightly(size: nat, schedule: seq<Turn>, h: Handler, st: Echo.State) {
    var s, io := h.session, IoOf(schedule, h.session);
    && AcceptDone(s, false) !in schedule && HandshakeDone(s, false) !in schedule
    && (AcceptDone(s, true) in schedule <==> !h.HandleAccept?)
    && (HandshakeDone(s, true) in schedule <==> h.HandleRead? || h.HandleWrite?)
    && (h.HandleAccept? || h.HandleHandshake? ==> io == [])
    && (h.HandleRead? || h.HandleWrite? ==> st == Echo.Run(Echo.Opened(Zeros(size)), io))
  }

  /** What a schedule says about any session. */
  predicate Story(size: nat, schedule: seq<Turn>, v: Server, s: nat) {
    && (s >= v.nextAddress ==> forall t :: t in schedule ==> t.session != s)
    && (s < v.nextAddress && s !in v.live ==>
          || AcceptDone(s, false) in schedule || HandshakeDone(s, false) in schedule
          || Echo.Run(Echo.Opened(Zeros(size)), IoOf(schedule, s)).phase.Ended?)
    && (s in v.live ==>
          forall h :: h in v.pending && h.session == s ==> WaitsRightly(size, schedule, h, v.live[s]))
  }

  lemma IoOneMore(before: seq<Turn>, t: Turn, s: nat)
    ensures IoOf(before + [t], s) ==
            if (t.ReadDone? || t.WroteSome?) && t.session == s then IoOf(before, s) + [t.result] else IoOf(before, s)
  {
    assert IoOf(before, s) + [] == IoOf(before, s);
    var schedule := before + [t];
    assert schedule[..|schedule| - 1] == before && schedule[|schedule| - 1] == t;
  }

  lemma {:induction false} NoTurnsNoIo(schedule: seq<Turn>, s: nat)
    requires forall t :: t in schedule ==> t.session != s
    ensures IoOf(schedule, s) == []
  {
    if schedule != [] {
      NoTurnsNoIo(schedule[..|schedule| - 1], s);
    }
  }

  /** Nothing changed for the session. */
  ghost predicate SameFor(v: Server, v': Server, s: nat) {
    && (s in v'.live <==> s in v.live) && (s in v.live ==> v'.live[s] == v.live[s])
    && (forall h: Handler :: h.session == s ==> v'.pending[h] == v.pending[h])
  }

  lemma StartIsLocal(v: Server, h: Handler, s: nat)
    requires s != h.session
    ensures SameFor(v, Start(v, h), s)
  {
  }

  lemma DeleteIsLocal(v: Server, other: nat, s: nat)
    requires s != other
    ensures SameFor(v, Delete(v, other), s)
  {
  }

  lemma StartAcceptIsLocal(size: nat, v: Server, s: nat)
    requires s != v.nextAddress
    ensures SameFor(v, StartAccept(size, v), s)
  {
    hide New;
  }

  lemma ExchangeIsLocal(v: Server, other: nat, result: Echo.Completion, s: nat)
    requires s != other
    ensures SameFor(v, Exchanged(v, other, result), s)
  {
    hide Echo.Step, Echo.Fits, Start, Delete;
    if other in v.live && Echo.Fits(v.live[other]) {
      var v' := v.(live := v.live[other := Echo.Step(v.live[other], result)]);
      DeleteIsLocal(v', other, s);
      StartIsLocal(v', HandleRead(other), s);
      StartIsLocal(v', HandleWrite(other), s);
    }
  }

  /** A turn concerns its own session and, after an accept, the new one. */
  lemma TurnIsLocal(size: nat, v: Server, t: Turn, s: nat)
    requires Enabled(v, t) && s != t.session && (t.AcceptDone? ==> s != v.nextAddress)
    ensures SameFor(v, Dispatch(size, v, t), s)
  {
    hide Start, Delete, StartAccept, Exchanged, New;
    var rest, other := v.(pending := v.pending - multiset{HandlerOf(t)}), t.session;
    DeleteIsLocal(rest, other, s);
    StartIsLocal(rest, HandleHandshake(other), s);
    match t
    case AcceptDone(_, ok) =>
      var finished := if ok then Start(rest, HandleHandshake(other)) else Delete(rest, other);
      AcceptKeepsAddress(rest, other);
      StartAcceptIsLocal(size, finished, s);
    case HandshakeDone(_, ok) =>
      if ok && other in rest.live {
        StartIsLocal(rest.(live := rest.live[other := rest.live[other].(phase := Echo.Reading)]), HandleRead(other), s);
      }
    case _ => ExchangeIsLocal(rest, other, t.result, s);
  }

  lemma AcceptKeepsAddress(v: Server, s: nat)
    ensures Start(v, HandleHandshake(s)).nextAddress == Delete(v, s).nextAddress == v.nextAddress
  {
  }

  /** A turn leaves one operation pending for its session, or deletes it. */
  lemma TurnOfSession(size: nat, v: Server, t: Turn)
    requires Owned(size, v) && Enabled(v, t)
    ensures t.session in v.live && t.session < v.nextAddress && Echo.Fits(v.live[t.session])
    ensures var v', s, st := Dispatch(size, v, t), t.session, v.live[t.session];
            match t
            case AcceptDone(_, ok) =>
              if ok then s in v'.live && v'.live[s] == st && HandleHandshake(s) in v'.pending else s !in v'.live
            case HandshakeDone(_, ok) =>
              if ok then s in v'.live && v'.live[s] == st.(phase := Echo.Reading) && HandleRead(s) in v'.pending
              else s !in v'.live
            case _ =>
              var next := Echo.Step(st, t.result);
              if next.phase.Ended? then s !in v'.live
              else
                && s in v'.live && v'.live[s] == next
                && (if next.phase.Reading? then HandleRead(s) else HandleWrite(s)) in v'.pending
  {
    hide Echo.Step, New, Exclusive, DeletedOnce;
    HandlerRuns(size, v, t);
    hide Sessions, SessionsFit;
  }

  lemma OthersStory(size: nat, before: seq<Turn>, v: Server, t: Turn, s: nat)
    requires Enabled(v, t) && Story(size, before, v, s) && t.session < v.nextAddress
    requires s != t.session && (t.AcceptDone? ==> s != v.nextAddress)
    ensures Story(size, before + [t], Dispatch(size, v, t), s)
  {
    hide Dispatch, Enabled, Echo.Run, WaitsRightly;
    TurnIsLocal(size, v, t, s);
    AddressesGrow(size, v, t);
    IoOneMore(before, t, s);
    assert forall x :: x in before + [t] <==> x in before || x == t;
    var v' := Dispatch(size, v, t);
    if s in v'.live {
      forall h | h in v'.pending && h.session == s ensures WaitsRightly(size, before + [t], h, v'.live[s]) {
        assert h in v.pending;
        StillWaitsRightly(size, before, t, h, v.live[s]);
      }
    }
  }

  lemma StillWaitsRightly(size: nat, before: seq<Turn>, t: Turn, h: Handler, st: Echo.State)
    requires WaitsRightly(size, before, h, st) && t.session != h.session
    ensures WaitsRightly(size, before + [t], h, st)
  {
    hide Echo.Run;
    IoOneMore(before, t, h.session);
    assert forall x :: x in before + [t] <==> x in before || x == t;
  }

  lemma AddressesGrow(size: nat, v: Server, t: Turn)
    ensures Dispatch(size, v, t).nextAddress == v.nextAddress + if t.AcceptDone? then 1 else 0
  {
    hide Echo.Step, Echo.Fits, New;
  }

  /** The operation that a session is left with is the only one. */
  lemma OnlyPending(size: nat, schedule: seq<Turn>, v: Server, h: Handler)
    requires Owned(size, v) && h in v.pending && h.session in v.live
    requires WaitsRightly(size, schedule, h, v.live[h.session])
    requires h.session < v.nextAddress
    ensures Story(size, schedule, v, h.session)
  {
    hide AccountedFor, SessionsFit, WaitsRightly, Sessions;
  }

  lemma NewSessionsStory(size: nat, before: seq<Turn>, v: Server, t: Turn)
    requires Owned(size, v) && Enabled(v, t) && t.AcceptDone? && Story(size, before, v, v.nextAddress)
    requires Owned(size, Dispatch(size, v, t)) && t.session < v.nextAddress
    ensures Story(size, before + [t], Dispatch(size, v, t), v.nextAddress)
  {
    hide Owned, Story, Echo.Run, New;
    var v', h := Dispatch(size, v, t), HandleAccept(v.nextAddress);
    assert v.nextAddress in v'.live && h in v'.pending && v'.nextAddress == v.nextAddress + 1;
    assert forall g :: g in before ==> g.session != v.nextAddress by {
      NothingYet(size, before, v);
    }
    NoTurnsNoIo(before + [t], v.nextAddress);
    OnlyPending(size, before + [t], v', h);
  }

  lemma NothingYet(size: nat, schedule: seq<Turn>, v: Server)
    requires Story(size, schedule, v, v.nextAddress)
    ensures forall t :: t in schedule ==> t.session != v.nextAddress
  {
  }

  lemma OwnStory(size: nat, before: seq<Turn>, v: Server, t: Turn)
    requires Owned(size, v) && Enabled(v, t) && Story(size, before, v, t.session)
    requires Owned(size, Dispatch(size, v, t))
    ensures Story(size, before + [t], Dispatch(size, v, t), t.session)
  {
    hide Owned, Dispatch, Echo.Run, Echo.Step;
    TurnOfSession(size, v, t);
    var v', s := Dispatch(size, v, t), t.session;
    assert WaitsRightly(size, before, HandlerOf(t), v.live[s]);
    OwnedSuits(size, v, HandlerOf(t));
    IoOneMore(before, t, s);
    hide Story;
    AddressesGrow(size, v, t);
    match t
    case AcceptDone(_, ok) =>
      if ok {
        OnlyPending(size, before + [t], v', HandleHandshake(s));
      } else {
        GoneIsTold(size, before + [t], v', s);
      }
    case HandshakeDone(_, ok) =>
      if ok {
        NothingRun(size);
        OnlyPending(size, before + [t], v', HandleRead(s));
      } else {
        GoneIsTold(size, before + [t], v', s);
      }
    case _ =>
      RunAfter(size, IoOf(before, s), t.result);
      if s in v'.live {
        OnlyPending(size, before + [t], v', if v'.live[s].phase.Reading? then HandleRead(s) else HandleWrite(s));
      } else {
        GoneIsTold(size, before + [t], v', s);
      }
  }

  lemma OwnedSuits(size: nat, v: Server, h: Handler)
    requires Owned(size, v) && h in v.pending && h.session in v.live
    ensures Suits(size, h, v.live[h.session])
  {
  }

  lemma GoneIsTold(size: nat, schedule: seq<Turn>, v: Server, s: nat)
    requires s < v.nextAddress && s !in v.live
    requires AcceptDone(s, false) in schedule || HandshakeDone(s, false) in schedule
             || Echo.Run(Echo.Opened(Zeros(size)), IoOf(schedule, s)).phase.Ended?
    ensures Story(size, schedule, v, s)
  {
  }

  lemma NothingRun(size: nat)
    ensures Echo.Run(Echo.Opened(Zeros(size)), []) == New(size).(phase := Echo.Reading)
  {
  }

  lemma RunAfter(size: nat, io: seq<Echo.Completion>, c: Echo.Completion)
    ensures Echo.Run(Echo.Opened(Zeros(size)), io + [c]) == Echo.Step(Echo.Run(Echo.Opened(Zeros(size)), io), c)
  {
    assert (io + [c])[..|io|] == io;
  }

  lemma {:induction false} EveryStory(size: nat, schedule: seq<Turn>, v: Server, s: nat)
    requires Runs(size, schedule, v)
    ensures Story(size, schedule, v, s)
  {
    hide Owned, Dispatch, Story;
    EveryRunOwns(size, schedule, v);
    if schedule == [] {
      FirstStory(size, s);
    } else {
      var before, t := schedule[..|schedule| - 1], schedule[|schedule| - 1];
      var u :| Runs(size, before, u) && Enabled(u, t) && v == Dispatch(size, u, t);
      assert schedule == before + [t];
      EveryRunOwns(size, before, u);
      EveryStory(size, before, u, s);
      TurnOfSession(size, u, t);
      if s == t.session {
        OwnStory(size, before, u, t);
      } else if t.AcceptDone? && s == u.nextAddress {
        NewSessionsStory(size, before, u, t);
      } else {
        OthersStory(size, before, u, t, s);
      }
    }
  }

  lemma FirstStory(size: nat, s: nat)
    ensures Story(size, [], StartAccept(size, Server(map[], multiset{}, 0, [], false)), s)
  {
    assert IoOf([], s) == [];
  }

  /**
    A session is deleted exactly when its accept or its handshake reported an
    error, or one of its reads and writes did not succeed.
   */
  lemma DeletedExactlyOnFailure(size: nat, schedule: seq<Turn>, v: Server, s: nat)
    requires Runs(size, schedule, v) && s < v.nextAddress
    ensures s in v.deleted <==> Failed(size, schedule, s)
    ensures s in v.live <==> !Failed(size, schedule, s)
  {
    hide Echo.Run, Echo.Smooth;
    EveryRunOwns(size, schedule, v);
    EveryStory(size, schedule, v, s);
    Echo.EveryRunEchoes(Zeros(size), IoOf(schedule, s));
    if s in v.live {
      assert s in Sessions(v.pending);
      var h :| h in v.pending && h.session == s;
      assert WaitsRightly(size, schedule, h, v.live[s]);
      assert Suits(size, h, v.live[s]);
      assert Echo.Smooth(size, []) by {
        Echo.OpenedIsTold(Zeros(size));
      }
    }
  }

  /**
    A session none of whose operations failed has one operation pending: the
    accept until it completes, then the handshake until it completes, then reads
    and writes as its completions say. It then is what the echo machine makes of
    its own completions, whatever the other sessions do.
   */
  lemma NextOperationIsPending(size: nat, schedule: seq<Turn>, v: Server, s: nat)
    requires Runs(size, schedule, v) && s < v.nextAddress && !Failed(size, schedule, s)
    ensures HandleAccept(s) in v.pending <==> AcceptDone(s, true) !in schedule
    ensures HandleHandshake(s) in v.pending <==> AcceptDone(s, true) in schedule && HandshakeDone(s, true) !in schedule
    ensures HandleRead(s) in v.pending <==>
            HandshakeDone(s, true) in schedule && Echo.ReadIsNext(IoOf(schedule, s))
    ensures HandleWrite(s) in v.pending <==>
            HandshakeDone(s, true) in schedule && !Echo.ReadIsNext(IoOf(schedule, s))
    ensures HandshakeDone(s, true) in schedule ==>
            s in v.live && v.live[s] == Echo.Run(Echo.Opened(Zeros(size)), IoOf(schedule, s))
  {
    hide Echo.Run, Echo.Smooth, Echo.ReadIsNext, AccountedFor;
    DeletedExactlyOnFailure(size, schedule, v, s);
    EveryRunOwns(size, schedule, v);
    EveryStory(size, schedule, v, s);
    Echo.EveryRunEchoes(Zeros(size), IoOf(schedule, s));
    assert s in Sessions(v.pending);
    var h :| h in v.pending && h.session == s;
    assert WaitsRightly(size, schedule, h, v.live[s]);
    assert Suits(size, h, v.live[s]);
    assert forall g :: g in v.pending && g.session == s ==> g == h;
  }
}
