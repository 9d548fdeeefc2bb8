/**
  The TCP server with a fixed pool of sessions, as a machine over pending
  handlers: one thread dispatches them in any order, with any outcome.
  Handlers hold a slot and, to tell sessions apart, the number of the session
  that was there when the operation started.

  Kept as the code has it: `close` never releases a slot; the next read is
  started before the write completes; when no slot is free, accepting ends.
 */
module PooledServer {
  import opened Common
  import opened SlotPool

  /** A session in its slot; `received` and `sent` are what its socket has seen. */
  datatype Session = Session(
    id: nat, open: bool,
    rx: seq<Byte>, tx: seq<Byte>, rxUsed: nat, txUsed: nat,
    received: seq<Byte>, sent: seq<Byte>)

  datatype Handler =
    | OnAccept(slot: nat, id: nat)
    | OnRead(slot: nat, id: nat)
    | OnWrite(slot: nat, id: nat, offset: nat, length: nat)

  /** `fault` is set when a handler finds its slot without its session. */
  datatype Server = Server(
    slots: seq<Option<Session>>, pending: multiset<Handler>,
    nextId: nat, accepted: nat, fault: bool)

  function Emplaced(id: nat, size: nat): Session {
    Session(id, true, Zeros(size), Zeros(size), 0, 0, [], [])
  }

  // ---------------------------------------------------------------------
  // What the handlers do to a session

  /** A read completes with `chunk`: the input is copied to `tx` and `rx` is emptied. */
  function OnData(s: Session, chunk: seq<Byte>): Session
    requires |s.rx| == |s.tx| && s.rxUsed + |chunk| <= |s.rx|
  {
    var rx := Overlay(s.rx, s.rxUsed, chunk);
    var used := s.rxUsed + |chunk|;
    s.(rx := rx, tx := Overlay(s.tx, 0, rx[..used]), rxUsed := 0, txUsed := used, received := s.received + chunk)
  }

  /** One `write_some` of a composed write takes `n` bytes from `tx` as it is now. */
  function OnSent(s: Session, offset: nat, n: nat): Session
    requires offset + n <= |s.tx|
  {
    s.(sent := s.sent + s.tx[offset..offset + n])
  }

  function Closed(s: Session): Session {
    s.(open := false)
  }

  // ---------------------------------------------------------------------
  // The machine

  datatype Turn =
    | AcceptDone(h: Handler, ok: bool)
    | ReadDone(h: Handler, chunk: seq<Byte>)
    | ReadFailed(h: Handler)
    | WroteSome(h: Handler, n: nat)
    | WriteFailed(h: Handler)

  /** The slot of `h` still holds the session that `h` was started by. */
  predicate Points(v: Server, h: Handler) {
    h.slot < |v.slots| && v.slots[h.slot].Some? && v.slots[h.slot].value.id == h.id
  }

  /**
    The turn completes a pending operation with a result it can have: a
    successful read brings between one byte and the free space of `rx`; a
    successful write takes between one byte and what is left, and leaves while
    the socket is open.
   */
  predicate Enabled(size: nat, v: Server, t: Turn) {
    && t.h in v.pending
    && match t
       case AcceptDone(h, _) => h.OnAccept?
       case ReadDone(h, chunk) => h.OnRead? && 1 <= |chunk| <= size
       case ReadFailed(h) => h.OnRead?
       case WroteSome(h, n) =>
         h.OnWrite? && 1 <= n <= h.length - h.offset && (Points(v, h) ==> v.slots[h.slot].value.open)
       case WriteFailed(h) => h.OnWrite?
  }

  /** A connection was accepted: the first read of its session is started. */
  function Accepted(v: Server, h: Handler): Server {
    v.(pending := v.pending - multiset{h} + multiset{OnRead(h.slot, h.id)}, accepted := v.accepted + 1)
  }

  /** `do_accept`: without a free slot no accept is started, ever again. */
  function DoAccept(size: nat, v: Server): Server {
    match FirstFree(v.slots)
    case None => v
    case Some(i) =>
      v.(slots := v.slots[i := Some(Emplaced(v.nextId, size))],
         pending := v.pending + multiset{OnAccept(i, v.nextId)},
         nextId := v.nextId + 1)
  }

  function Start(size: nat, n: nat): Server {
    DoAccept(size, Server(seq(n, _ => None), multiset{}, 0, 0, false))
  }

  function Dispatch(size: nat, v: Server, t: Turn): Server
    requires Enabled(size, v, t)
  {
    var h := t.h;
    var rest := v.(pending := v.pending - multiset{h});
    if !Points(v, h) then rest.(fault := true)
    else
      var s := v.slots[h.slot].value;
      match t
      case AcceptDone(_, ok) =>
        if ok then DoAccept(size, Accepted(v, h))
        else DoAccept(size, rest.(slots := v.slots[h.slot := None]))
      case ReadDone(_, chunk) =>
        if |s.rx| != |s.tx| || s.rxUsed + |chunk| > |s.rx| then rest.(fault := true)
        else
          var s' := OnData(s, chunk);
          rest.(slots := v.slots[h.slot := Some(s')],
                pending := rest.pending + multiset{OnWrite(h.slot, h.id, 0, s'.txUsed), OnRead(h.slot, h.id)})
      case WroteSome(_, n) =>
        if h.offset + n > |s.tx| then rest.(fault := true)
        else
          rest.(slots := v.slots[h.slot := Some(OnSent(s, h.offset, n))], pending := rest.pending + Rest(h, n))
      case ReadFailed(_) => rest.(slots := v.slots[h.slot := Some(Closed(s))])
      case WriteFailed(_) => rest.(slots := v.slots[h.slot := Some(Closed(s))])
  }

  /** A read that is taken by its own session: a write is added, and the read is started again. */
  lemma ReadDoneUnfolds(size: nat, v: Server, h: Handler, chunk: seq<Byte>)
    requires Enabled(size, v, ReadDone(h, chunk)) && Points(v, h) && BuffersFit(size, v)
    ensures Dispatch(size, v, ReadDone(h, chunk)) == v.(
      slots := v.slots[h.slot := Some(OnData(v.slots[h.slot].value, chunk))],
      pending := v.pending + multiset{OnWrite(h.slot, h.id, 0, |chunk|)})
  {
    hide Overlay;
    var w := OnWrite(h.slot, h.id, 0, |chunk|);
    assert v.pending - multiset{h} + multiset{w, h} == v.pending + multiset{w};
  }

  lemma WroteSomeUnfolds(size: nat, v: Server, h: Handler, n: nat)
    requires Enabled(size, v, WroteSome(h, n)) && Points(v, h) && BuffersFit(size, v) && h.length <= size
    ensures Dispatch(size, v, WroteSome(h, n)) == v.(
      slots := v.slots[h.slot := Some(OnSent(v.slots[h.slot].value, h.offset, n))],
      pending := v.pending - multiset{h} + Rest(h, n))
  {
  }

  /** What is left of a write after `n` more bytes. */
  function Rest(h: Handler, n: nat): multiset<Handler>
    requires h.OnWrite?
  {
    if h.offset + n == h.length then multiset{} else multiset{h.(offset := h.offset + n)}
  }

  lemma FailureUnfolds(size: nat, v: Server, t: Turn)
    requires Enabled(size, v, t) && Points(v, t.h) && (t.ReadFailed? || t.WriteFailed?)
    ensures Dispatch(size, v, t) == v.(
      slots := v.slots[t.h.slot := Some(Closed(v.slots[t.h.slot].value))],
      pending := v.pending - multiset{t.h})
  {
  }

  ghost predicate Runs(size: nat, n: nat, schedule: seq<Turn>, v: Server) {
    if schedule == [] then v == Start(size, n)
    else
      var t := schedule[|schedule| - 1];
      exists u :: Runs(size, n, schedule[..|schedule| - 1], u) && Enabled(size, u, t) && v == Dispatch(size, u, t)
  }

  // ---------------------------------------------------------------------
  // Safety

  predicate Accepting(v: Server) {
    exists h :: h in v.pending && h.OnAccept?
  }

  /** Every pending handler points to its session, in an occupied slot. */
  predicate HandlersPoint(v: Server) {
    forall h :: h in v.pending ==> Points(v, h)
  }

  /** One accept at most; one read at most per session; none for a session not yet accepted. */
  predicate HandlersAreFew(v: Server) {
    && (forall h :: h in v.pending && !h.OnWrite? ==> v.pending[h] == 1)
    && (forall g, h :: g in v.pending && h in v.pending && g.OnAccept? && h.OnAccept? ==> g == h)
    && (forall g, h :: g in v.pending && h in v.pending && g.OnAccept? && g.slot == h.slot ==> g == h)
  }

  predicate WritesFit(size: nat, v: Server) {
    forall h :: h in v.pending && h.OnWrite? ==> h.offset < h.length <= size
  }

  predicate BuffersFit(size: nat, v: Server) {
    forall i :: 0 <= i < |v.slots| && v.slots[i].Some? ==>
      var s := v.slots[i].value;
      |s.rx| == |s.tx| == size && s.rxUsed == 0 && s.id < v.nextId
  }

  /** Occupied slots are the accepted connections and the pending accept. */
  predicate SlotsAreAccountedFor(v: Server) {
    && Occupied(v.slots) == v.accepted + (if Accepting(v) then 1 else 0)
    && (!Accepting(v) ==> FirstFree(v.slots).None?)
  }

  predicate Safe(size: nat, n: nat, v: Server) {
    && !v.fault && |v.slots| == n
    && HandlersPoint(v) && HandlersAreFew(v)
    && WritesFit(size, v) && BuffersFit(size, v)
    && SlotsAreAccountedFor(v)
  }

  /** Between an accept's completion and the next accept. */
  predicate Quiet(size: nat, n: nat, v: Server) {
    && !v.fault && |v.slots| == n
    && HandlersPoint(v) && HandlersAreFew(v)
    && WritesFit(size, v) && BuffersFit(size, v)
    && !Accepting(v) && Occupied(v.slots) == v.accepted
  }

  lemma AddHandler(v: Server, v': Server, h: Handler)
    requires HandlersPoint(v) && HandlersAreFew(v)
    requires v'.pending == v.pending + multiset{h} && v'.slots == v.slots
    requires Points(v, h) && (!h.OnWrite? ==> h !in v.pending)
    requires forall g :: g in v.pending && (g.OnAccept? || h.OnAccept?) ==> g.slot != h.slot
    requires h.OnAccept? ==> !Accepting(v)
    ensures HandlersPoint(v') && HandlersAreFew(v')
  {
    forall g | g in v'.pending ensures Points(v', g) && (g == h || g in v.pending) {
      assert g == h || Points(v, g);
    }
  }

  lemma RemoveHandler(v: Server, v': Server, h: Handler)
    requires HandlersPoint(v) && HandlersAreFew(v) && h in v.pending && h.OnAccept?
    requires v'.pending == v.pending - multiset{h}
    requires v'.slots == v.slots || v'.slots == v.slots[h.slot := None]
    ensures HandlersPoint(v') && HandlersAreFew(v')
    ensures !Accepting(v') && forall g :: g in v'.pending ==> g.slot != h.slot
  {
    forall g | g in v'.pending ensures g in v.pending && g != h && g.slot != h.slot && Points(v', g) {
      assert Points(v, g);
    }
  }

  lemma DoAcceptIsSafe(size: nat, n: nat, v: Server)
    requires Quiet(size, n, v)
    ensures Safe(size, n, DoAccept(size, v))
  {
    hide Occupied, FirstFree, HandlersPoint, HandlersAreFew;
    var free := FirstFree(v.slots);
    if free.Some? {
      var i := free.value;
      var h := OnAccept(i, v.nextId);
      var w := v.(slots := v.slots[i := Some(Emplaced(v.nextId, size))]);
      OccupiedAfterUpdate(v.slots, i, Some(Emplaced(v.nextId, size)));
      FreeSlotHasNoHandlers(v, i, Emplaced(v.nextId, size), w);
      AddHandler(w, DoAccept(size, v), h);
      assert h in DoAccept(size, v).pending;
    }
  }

  lemma FreeSlotHasNoHandlers(v: Server, i: nat, s: Session, w: Server)
    requires HandlersPoint(v) && HandlersAreFew(v) && i < |v.slots| && v.slots[i].None?
    requires w.pending == v.pending && w.slots == v.slots[i := Some(s)]
    ensures HandlersPoint(w) && HandlersAreFew(w)
    ensures forall g :: g in v.pending ==> g.slot != i
  {
    forall g | g in v.pending ensures g.slot != i && Points(w, g) {
      assert Points(v, g);
    }
  }

  lemma AcceptBecomesRead(v: Server, h: Handler)
    requires HandlersPoint(v) && HandlersAreFew(v) && h in v.pending && h.OnAccept?
    ensures HandlersPoint(Accepted(v, h)) && HandlersAreFew(Accepted(v, h)) && !Accepting(Accepted(v, h))
  {
    assert Points(v, h);
    hide HandlersPoint, HandlersAreFew;
    var r := OnRead(h.slot, h.id);
    var u := v.(pending := v.pending - multiset{h});
    RemoveHandler(v, u, h);
    AddHandler(u, Accepted(v, h), r);
    assert forall g :: g in u.pending + multiset{r} ==> g == r || (g in u.pending && !g.OnAccept?);
  }

  lemma AcceptedIsQuiet(size: nat, n: nat, v: Server, h: Handler)
    requires Safe(size, n, v) && h in v.pending && h.OnAccept?
    ensures Quiet(size, n, Accepted(v, h))
  {
    hide Occupied, FirstFree, HandlersPoint, HandlersAreFew;
    AcceptBecomesRead(v, h);
    hide Accepting;
    assert forall g :: g in Accepted(v, h).pending && g.OnWrite? ==> g in v.pending;
  }

  lemma RefusedIsQuiet(size: nat, n: nat, v: Server, h: Handler)
    requires Safe(size, n, v) && h in v.pending && h.OnAccept?
    ensures Quiet(size, n, v.(pending := v.pending - multiset{h}, slots := v.slots[h.slot := None]))
  {
    hide Occupied, FirstFree, HandlersAreFew;
    assert Points(v, h);
    hide HandlersPoint;
    var u := v.(pending := v.pending - multiset{h}, slots := v.slots[h.slot := None]);
    OccupiedAfterUpdate(v.slots, h.slot, None);
    RemoveHandler(v, u, h);
  }

  /** Replacing one session by a later state of it changes no accounting. */
  lemma SlotsUpdated(v: Server, v': Server, i: nat, s: Session)
    requires i < |v.slots| && v.slots[i].Some? && v'.slots == v.slots[i := Some(s)]
    ensures Occupied(v'.slots) == Occupied(v.slots)
    ensures FirstFree(v.slots).None? ==> FirstFree(v'.slots).None?
  {
    OccupiedAfterUpdate(v.slots, i, Some(s));
    FullExactlyWithoutFreeSlot(v.slots);
    FullExactlyWithoutFreeSlot(v'.slots);
  }

  /**
    A turn of a started session: its slot keeps it, and its handlers stay the
    same except for writes of its own.
   */
  predicate OwnTurn(size: nat, v: Server, v': Server, h: Handler) {
    && Points(v, h) && !h.OnAccept?
    && |v'.slots| == |v.slots| && v'.slots[h.slot].Some?
    && v'.slots == v.slots[h.slot := v'.slots[h.slot]]
    && (var s' := v'.slots[h.slot].value;
        s'.id == h.id && |s'.rx| == |s'.tx| == size && s'.rxUsed == 0)
    && (forall g :: g in v'.pending && g !in v.pending ==>
          g.OnWrite? && g.slot == h.slot && g.id == h.id && g.offset < g.length <= size)
    && (forall g :: g in v'.pending && !g.OnWrite? ==> v'.pending[g] <= v.pending[g])
    && (forall g :: g in v.pending && g.OnAccept? ==> g in v'.pending)
    && v'.nextId == v.nextId && v'.accepted == v.accepted && v'.fault == v.fault
  }

  lemma OwnTurnKeepsHandlers(size: nat, n: nat, v: Server, v': Server, h: Handler)
    requires Safe(size, n, v) && h in v.pending && OwnTurn(size, v, v', h)
    ensures HandlersPoint(v') && HandlersAreFew(v')
  {
    hide Occupied, FirstFree, SlotsAreAccountedFor;
    forall g | g in v'.pending ensures Points(v', g) {
      if g in v.pending {
        assert Points(v, g);
      }
    }
  }

  lemma OwnTurnIsSafe(size: nat, n: nat, v: Server, v': Server, h: Handler)
    requires Safe(size, n, v) && h in v.pending && OwnTurn(size, v, v', h)
    ensures Safe(size, n, v')
  {
    hide Occupied, FirstFree, HandlersPoint, HandlersAreFew;
    OwnTurnKeepsHandlers(size, n, v, v', h);
    SlotsUpdated(v, v', h.slot, v'.slots[h.slot].value);
    assert Accepting(v') <==> Accepting(v) by {
      assert forall g :: g in v'.pending && g.OnAccept? ==> g in v.pending;
    }
  }

  lemma ReadDoneIsSafe(size: nat, n: nat, v: Server, h: Handler, chunk: seq<Byte>)
    requires Safe(size, n, v) && Enabled(size, v, ReadDone(h, chunk))
    ensures Safe(size, n, Dispatch(size, v, ReadDone(h, chunk)))
  {
    hide Overlay, SlotsAreAccountedFor, HandlersAreFew, Dispatch;
    var v' := Dispatch(size, v, ReadDone(h, chunk));
    assert Points(v, h);
    ReadDoneUnfolds(size, v, h, chunk);
    OwnTurnIsSafe(size, n, v, v', h);
  }

  lemma WroteSomeIsSafe(size: nat, n: nat, v: Server, h: Handler, k: nat)
    requires Safe(size, n, v) && Enabled(size, v, WroteSome(h, k))
    ensures Safe(size, n, Dispatch(size, v, WroteSome(h, k)))
  {
    hide SlotsAreAccountedFor, HandlersAreFew, Dispatch;
    var v' := Dispatch(size, v, WroteSome(h, k));
    assert Points(v, h);
    WroteSomeUnfolds(size, v, h, k);
    OwnTurnIsSafe(size, n, v, v', h);
  }

  lemma FailureIsSafe(size: nat, n: nat, v: Server, t: Turn)
    requires Safe(size, n, v) && Enabled(size, v, t) && (t.ReadFailed? || t.WriteFailed?)
    ensures Safe(size, n, Dispatch(size, v, t))
  {
    hide SlotsAreAccountedFor, HandlersAreFew, Dispatch;
    var v', h := Dispatch(size, v, t), t.h;
    assert Points(v, h);
    FailureUnfolds(size, v, t);
    OwnTurnIsSafe(size, n, v, v', h);
  }

  lemma DispatchIsSafe(size: nat, n: nat, v: Server, t: Turn)
    requires Safe(size, n, v) && Enabled(size, v, t)
    ensures Safe(size, n, Dispatch(size, v, t))
  {
    hide Safe, Quiet, DoAccept, OnData, OnSent;
    match t
    case AcceptDone(h, ok) =>
      PendingPoints(size, n, v, h);
      if ok {
        AcceptedIsQuiet(size, n, v, h);
        DoAcceptIsSafe(size, n, Accepted(v, h));
      } else {
        RefusedIsQuiet(size, n, v, h);
        DoAcceptIsSafe(size, n, v.(pending := v.pending - multiset{h}, slots := v.slots[h.slot := None]));
      }
    case ReadDone(h, chunk) => ReadDoneIsSafe(size, n, v, h, chunk);
    case WroteSome(h, k) => WroteSomeIsSafe(size, n, v, h, k);
    case ReadFailed(_) => FailureIsSafe(size, n, v, t);
    case WriteFailed(_) => FailureIsSafe(size, n, v, t);
  }

  lemma PendingPoints(size: nat, n: nat, v: Server, h: Handler)
    requires Safe(size, n, v) && h in v.pending
    ensures Points(v, h)
  {
  }

  lemma {:induction false} NoneOccupied<T>(n: nat)
    ensures Occupied(seq(n, _ => Option<T>.None)) == 0
  {
    if n > 0 {
      assert seq(n, _ => Option<T>.None)[1..] == seq(n - 1, _ => Option<T>.None);
      NoneOccupied<T>(n - 1);
    }
  }

  lemma StartIsSafe(size: nat, n: nat)
    ensures Safe(size, n, Start(size, n))
  {
    NoneOccupied<Session>(n);
    DoAcceptIsSafe(size, n, Server(seq(n, _ => None), multiset{}, 0, 0, false));
  }

  /**
    In every reachable state each pending handler points to an occupied slot
    that still holds its session, handlers are few, and slots are accounted for.
   */
  lemma {:induction false} EveryRunIsSafe(size: nat, n: nat, schedule: seq<Turn>, v: Server)
    requires Runs(size, n, schedule, v)
    ensures Safe(size, n, v)
  {
    hide Safe, Dispatch, Enabled;
    if schedule == [] {
      StartIsSafe(size, n);
    } else {
      var before, t := schedule[..|schedule| - 1], schedule[|schedule| - 1];
      var u :| Runs(size, n, before, u) && Enabled(size, u, t) && v == Dispatch(size, u, t);
      EveryRunIsSafe(size, n, before, u);
      DispatchIsSafe(size, n, u, t);
    }
  }

  // ---------------------------------------------------------------------
  // Conservation

  /** Every accepted connection and the pending accept hold a slot, and nothing else does. */
  lemma SlotsAreConserved(size: nat, n: nat, schedule: seq<Turn>, v: Server)
    requires Runs(size, n, schedule, v)
    ensures Occupied(v.slots) == v.accepted + (if Accepting(v) then 1 else 0) <= n
    ensures !Accepting(v) <==> v.accepted == n
    ensures v.accepted == AcceptedIn(schedule)
  {
    EveryRunIsSafe(size, n, schedule, v);
    FullExactlyWithoutFreeSlot(v.slots);
    CountsAccepts(size, n, schedule, v);
  }

  function AcceptedIn(schedule: seq<Turn>): nat {
    if schedule == [] then 0
    else
      var t := schedule[|schedule| - 1];
      AcceptedIn(schedule[..|schedule| - 1]) + if t.AcceptDone? && t.ok then 1 else 0
  }

  lemma {:induction false} CountsAccepts(size: nat, n: nat, schedule: seq<Turn>, v: Server)
    requires Runs(size, n, schedule, v)
    ensures v.accepted == AcceptedIn(schedule)
  {
    hide Enabled, Safe, Dispatch;
    if schedule != [] {
      var before, t := schedule[..|schedule| - 1], schedule[|schedule| - 1];
      var u :| Runs(size, n, before, u) && Enabled(size, u, t) && v == Dispatch(size, u, t);
      CountsAccepts(size, n, before, u);
      EveryRunIsSafe(size, n, before, u);
      DispatchCountsAccepts(size, n, u, t);
    }
  }

  lemma DispatchCountsAccepts(size: nat, n: nat, v: Server, t: Turn)
    requires Safe(size, n, v) && Enabled(size, v, t)
    ensures Dispatch(size, v, t).accepted == v.accepted + if t.AcceptDone? && t.ok then 1 else 0
  {
    hide Safe, OnData, OnSent, FirstFree;
    PendingPoints(size, n, v, t.h);
  }

  /** Once no accept is pending, none ever is, and no slot is taken or freed. */
  lemma IdleAcceptorStaysIdle(size: nat, v: Server, t: Turn)
    requires Enabled(size, v, t) && !Accepting(v)
    ensures !Accepting(Dispatch(size, v, t))
    ensures Dispatch(size, v, t).accepted == v.accepted
    ensures Used(Dispatch(size, v, t).slots) == Used(v.slots)
  {
    hide OnData, OnSent, DoAccept;
    var v' := Dispatch(size, v, t);
    NoNewAccepts(size, v, t);
    assert forall i :: 0 <= i < |v.slots| ==> v'.slots[i].Some? == v.slots[i].Some?;
  }

  lemma NoNewAccepts(size: nat, v: Server, t: Turn)
    requires Enabled(size, v, t) && !t.AcceptDone?
    ensures forall g :: g in Dispatch(size, v, t).pending && g.OnAccept? ==> g in v.pending
  {
    hide OnData, OnSent, DoAccept, Points;
  }

  lemma {:induction false} RunsAreDeterministic(size: nat, n: nat, schedule: seq<Turn>, v: Server, w: Server)
    requires Runs(size, n, schedule, v) && Runs(size, n, schedule, w)
    ensures v == w
  {
    hide Enabled, Dispatch;
    if schedule != [] {
      var before, t := schedule[..|schedule| - 1], schedule[|schedule| - 1];
      var a :| Runs(size, n, before, a) && Enabled(size, a, t) && v == Dispatch(size, a, t);
      var b :| Runs(size, n, before, b) && Enabled(size, b, t) && w == Dispatch(size, b, t);
      RunsAreDeterministic(size, n, before, a, b);
    }
  }

  /** The acceptor that is idle at some point of a run is idle, with the same slots taken, ever after. */
  lemma {:induction false} IdleForGood(size: nat, n: nat, schedule: seq<Turn>, k: nat, u: Server, v: Server)
    requires k <= |schedule|
    requires Runs(size, n, schedule[..k], u) && !Accepting(u)
    requires Runs(size, n, schedule, v)
    ensures !Accepting(v) && v.accepted == u.accepted && Used(v.slots) == Used(u.slots)
  {
    hide Enabled, Dispatch, Used, Accepting;
    if k == |schedule| {
      assert schedule[..k] == schedule;
      RunsAreDeterministic(size, n, schedule, u, v);
    } else {
      var before, t := schedule[..|schedule| - 1], schedule[|schedule| - 1];
      assert before[..k] == schedule[..k];
      var a :| Runs(size, n, before, a) && Enabled(size, a, t) && v == Dispatch(size, a, t);
      IdleForGood(size, n, before, k, u, a);
      IdleAcceptorStaysIdle(size, a, t);
    }
  }

  /**
    A full pool means an idle acceptor exactly when all its sessions have been
    accepted; with one missing, the last slot is held by the pending accept.
   */
  lemma FullPoolAndIdleAcceptor(size: nat, n: nat, schedule: seq<Turn>, v: Server)
    requires Runs(size, n, schedule, v)
    ensures FirstFree(v.slots).None? <==> v.accepted + 1 >= n
    ensures FirstFree(v.slots).None? ==> (!Accepting(v) <==> v.accepted == n)
  {
    EveryRunIsSafe(size, n, schedule, v);
    FullExactlyWithoutFreeSlot(v.slots);
  }

  /**
    A pool of one slot is full as soon as the server has started, while its
    acceptor is still waiting.
   */
  lemma FullPoolMayStillAccept(size: nat)
    ensures Runs(size, 1, [], Start(size, 1))
    ensures FirstFree(Start(size, 1).slots).None? && Accepting(Start(size, 1))
  {
    var v := Start(size, 1);
    assert OnAccept(0, 0) in v.pending;
  }
}
