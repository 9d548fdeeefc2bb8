/**
  What each session of the pooled server is, told by the schedule alone: which
  of its operations are pending, whether its socket is open, and what it has
  received.
 */
module PooledHistory {
  import opened Common
  import opened SlotPool
  import opened PooledServer

  /** The chunks that the reads of one session brought. */
  function ReceivedBy(schedule: seq<Turn>, slot: nat, id: nat): seq<Byte> {
    if schedule == [] then []
    else
      var before, t := ReceivedBy(schedule[..|schedule| - 1], slot, id), schedule[|schedule| - 1];
      if t.ReadDone? && t.h.slot == slot && t.h.id == id then before + t.chunk else before
  }

  /** How many bytes its writes took. */
  function WrittenBy(schedule: seq<Turn>, slot: nat, id: nat): nat {
    if schedule == [] then 0
    else
      var before, t := WrittenBy(schedule[..|schedule| - 1], slot, id), schedule[|schedule| - 1];
      if t.WroteSome? && t.h.slot == slot && t.h.id == id then before + t.n else before
  }

  /** A read or a write of the session failed. */
  predicate HadFailure(schedule: seq<Turn>, slot: nat, id: nat) {
    exists t :: t in schedule && (t.ReadFailed? || t.WriteFailed?) && t.h.slot == slot && t.h.id == id
  }

  /** The session in an occupied slot is what the schedule says. */
  predicate Told(schedule: seq<Turn>, v: Server, i: nat)
    requires i < |v.slots| && v.slots[i].Some?
  {
    var s := v.slots[i].value;
    var accept, read := OnAccept(i, s.id), OnRead(i, s.id);
    && (accept in v.pending <==> AcceptDone(accept, true) !in schedule)
    && (read in v.pending <==> AcceptDone(accept, true) in schedule && ReadFailed(read) !in schedule)
    && (ReadFailed(read) in schedule ==> AcceptDone(accept, true) in schedule)
    && (s.open <==> !HadFailure(schedule, i, s.id))
    && s.received == ReceivedBy(schedule, i, s.id)
    && |s.sent| == WrittenBy(schedule, i, s.id)
  }

  /** All sessions so far have numbers below the next one. */
  predicate NumbersArePast(schedule: seq<Turn>, v: Server) {
    && (forall t :: t in schedule ==> t.h.id < v.nextId)
    && (forall h :: h in v.pending ==> h.id < v.nextId)
  }

  predicate AllTold(schedule: seq<Turn>, v: Server) {
    && NumbersArePast(schedule, v)
    && forall i :: 0 <= i < |v.slots| && v.slots[i].Some? ==> Told(schedule, v, i)
  }

  lemma OneMore(before: seq<Turn>, t: Turn, slot: nat, id: nat)
    ensures var mine := t.h.slot == slot && t.h.id == id;
            && ReceivedBy(before + [t], slot, id) ==
               (if t.ReadDone? && mine then ReceivedBy(before, slot, id) + t.chunk else ReceivedBy(before, slot, id))
            && WrittenBy(before + [t], slot, id) ==
               WrittenBy(before, slot, id) + (if t.WroteSome? && mine then t.n else 0)
            && (HadFailure(before + [t], slot, id) <==>
                HadFailure(before, slot, id) || ((t.ReadFailed? || t.WriteFailed?) && mine))
            && (forall x :: x in before + [t] <==> x in before || x == t)
  {
    var schedule := before + [t];
    assert schedule[..|schedule| - 1] == before && schedule[|schedule| - 1] == t;
    assert forall x :: x in schedule <==> x in before || x == t;
  }

  lemma {:induction false} NothingOfNewNumbers(schedule: seq<Turn>, slot: nat, id: nat)
    requires forall t :: t in schedule ==> t.h.id < id
    ensures ReceivedBy(schedule, slot, id) == [] && WrittenBy(schedule, slot, id) == 0
    ensures !HadFailure(schedule, slot, id)
  {
    if schedule != [] {
      NothingOfNewNumbers(schedule[..|schedule| - 1], slot, id);
    }
  }

  /** A turn that concerns another session leaves this one as it was. */
  lemma OthersAreTold(before: seq<Turn>, v: Server, t: Turn, v': Server, i: nat)
    requires i < |v.slots| == |v'.slots| && v.slots[i].Some? && v'.slots[i] == v.slots[i]
    requires Told(before, v, i) && t.h.slot != i
    requires forall h: Handler :: h.slot == i && !h.OnWrite? ==> v'.pending[h] == v.pending[h]
    ensures Told(before + [t], v', i)
  {
    var s := v.slots[i].value;
    OneMore(before, t, i, s.id);
    hide HadFailure;
    assert forall h: Handler :: h.slot == i && !h.OnWrite? ==> (h in v'.pending <==> h in v.pending);
  }

  // ---------------------------------------------------------------------
  // Accepts

  /** `do_accept` tells nothing new of the sessions there are, and its new one has done nothing. */
  lemma DoAcceptIsTold(size: nat, schedule: seq<Turn>, v: Server)
    requires AllTold(schedule, v)
    ensures AllTold(schedule, DoAccept(size, v))
  {
    hide ReceivedBy, WrittenBy, HadFailure;
    var v' := DoAccept(size, v);
    var free := FirstFree(v.slots);
    if free.Some? {
      NothingOfNewNumbers(schedule, free.value, v.nextId);
      forall i | 0 <= i < |v'.slots| && v'.slots[i].Some? ensures Told(schedule, v', i) {
        if i != free.value {
          assert Told(schedule, v, i);
        } else {
          assert OnAccept(i, v.nextId) in v'.pending && OnRead(i, v.nextId) !in v'.pending;
        }
      }
    }
  }

  /** While a slot waits for its connection, it has no other operation, and a successful accept makes that a read. */
  lemma OnlyAcceptOfSlot(v: Server, h: Handler)
    requires HandlersAreFew(v) && h in v.pending && h.OnAccept?
    ensures OnAccept(h.slot, h.id) == h && v.pending[h] == 1
    ensures forall g :: g in v.pending && g.slot == h.slot ==> g == h
    ensures h !in Accepted(v, h).pending && OnRead(h.slot, h.id) in Accepted(v, h).pending
  {
  }

  lemma AcceptedSessionIsTold(before: seq<Turn>, v: Server, h: Handler)
    requires Points(v, h) && HandlersAreFew(v) && Told(before, v, h.slot) && h in v.pending && h.OnAccept?
    ensures Told(before + [AcceptDone(h, true)], Accepted(v, h), h.slot)
  {
    hide ReceivedBy, WrittenBy, HadFailure;
    OneMore(before, AcceptDone(h, true), h.slot, h.id);
    OnlyAcceptOfSlot(v, h);
    hide HandlersAreFew, Accepted;
    assert Accepted(v, h).slots == v.slots;
  }

  lemma AcceptedIsTold(size: nat, n: nat, before: seq<Turn>, v: Server, h: Handler)
    requires Safe(size, n, v) && AllTold(before, v) && h in v.pending && h.OnAccept?
    ensures AllTold(before + [AcceptDone(h, true)], Accepted(v, h))
  {
    hide SlotsAreAccountedFor, BuffersFit, HandlersAreFew, Told;
    var t, v' := AcceptDone(h, true), Accepted(v, h);
    assert Points(v, h);
    OneMore(before, t, 0, 0);
    forall i | 0 <= i < |v'.slots| && v'.slots[i].Some? ensures Told(before + [t], v', i) {
      assert Told(before, v, i);
      if i != h.slot {
        OthersAreTold(before, v, t, v', i);
      } else {
        AcceptedSessionIsTold(before, v, h);
      }
    }
    assert forall g :: g in v'.pending ==> g in v.pending || g == OnRead(h.slot, h.id);
  }

  lemma RefusedIsTold(size: nat, n: nat, before: seq<Turn>, v: Server, h: Handler)
    requires Safe(size, n, v) && AllTold(before, v) && h in v.pending && h.OnAccept?
    ensures AllTold(before + [AcceptDone(h, false)],
                    v.(pending := v.pending - multiset{h}, slots := v.slots[h.slot := None]))
  {
    hide SlotsAreAccountedFor, BuffersFit, HandlersAreFew, Told;
    var t, v' := AcceptDone(h, false), v.(pending := v.pending - multiset{h}, slots := v.slots[h.slot := None]);
    assert Points(v, h);
    OneMore(before, t, 0, 0);
    forall i | 0 <= i < |v'.slots| && v'.slots[i].Some? ensures Told(before + [t], v', i) {
      assert Told(before, v, i) && i != h.slot;
      OthersAreTold(before, v, t, v', i);
    }
  }

  // ---------------------------------------------------------------------
  // Turns of started sessions

  lemma ReadIsTold(size: nat, before: seq<Turn>, v: Server, h: Handler, chunk: seq<Byte>)
    requires Enabled(size, v, ReadDone(h, chunk)) && Points(v, h) && BuffersFit(size, v) && Told(before, v, h.slot)
    ensures var v' := Dispatch(size, v, ReadDone(h, chunk));
            |v'.slots| == |v.slots| && v'.slots[h.slot].Some? && Told(before + [ReadDone(h, chunk)], v', h.slot)
  {
    hide Dispatch, Overlay, ReceivedBy, WrittenBy, HadFailure;
    OneMore(before, ReadDone(h, chunk), h.slot, h.id);
    ReadDoneUnfolds(size, v, h, chunk);
    hide BuffersFit;
  }

  lemma WriteIsTold(size: nat, before: seq<Turn>, v: Server, h: Handler, n: nat)
    requires Enabled(size, v, WroteSome(h, n)) && Points(v, h) && BuffersFit(size, v) && h.length <= size
    requires Told(before, v, h.slot)
    ensures var v' := Dispatch(size, v, WroteSome(h, n));
            |v'.slots| == |v.slots| && v'.slots[h.slot].Some? && Told(before + [WroteSome(h, n)], v', h.slot)
  {
    hide Dispatch, ReceivedBy, WrittenBy, HadFailure;
    OneMore(before, WroteSome(h, n), h.slot, h.id);
    WroteSomeUnfolds(size, v, h, n);
    hide BuffersFit;
  }

  lemma FailureIsTold(size: nat, before: seq<Turn>, v: Server, t: Turn)
    requires Enabled(size, v, t) && Points(v, t.h) && (t.ReadFailed? || t.WriteFailed?)
    requires Told(before, v, t.h.slot) && (t.h.OnRead? ==> v.pending[t.h] == 1)
    ensures var v' := Dispatch(size, v, t);
            |v'.slots| == |v.slots| && v'.slots[t.h.slot].Some? && Told(before + [t], v', t.h.slot)
  {
    hide Dispatch, ReceivedBy, WrittenBy, HadFailure;
    OneMore(before, t, t.h.slot, t.h.id);
    FailureUnfolds(size, v, t);
  }

  /** The session that a turn is about, after it. */
  lemma OwnTurnIsTold(size: nat, n: nat, before: seq<Turn>, v: Server, t: Turn)
    requires Safe(size, n, v) && Enabled(size, v, t) && !t.AcceptDone? && AllTold(before, v)
    ensures t.h.slot < |v.slots| == |Dispatch(size, v, t).slots| && Dispatch(size, v, t).slots[t.h.slot].Some?
    ensures Told(before + [t], Dispatch(size, v, t), t.h.slot)
  {
    hide Dispatch, SlotsAreAccountedFor, BuffersFit, Told;
    assert Points(v, t.h);
    assert Told(before, v, t.h.slot);
    match t {
      case ReadDone(h, chunk) => ReadIsTold(size, before, v, h, chunk);
      case WroteSome(h, k) => WriteIsTold(size, before, v, h, k);
      case _ => FailureIsTold(size, before, v, t);
    }
  }

  lemma DispatchIsTold(size: nat, n: nat, before: seq<Turn>, v: Server, t: Turn)
    requires Safe(size, n, v) && Enabled(size, v, t) && AllTold(before, v)
    ensures AllTold(before + [t], Dispatch(size, v, t))
  {
    hide Safe, AllTold, DoAccept, Accepted;
    PendingPoints(size, n, v, t.h);
    if t.AcceptDone? {
      if t.ok {
        AcceptedIsTold(size, n, before, v, t.h);
        DoAcceptIsTold(size, before + [t], Accepted(v, t.h));
      } else {
        RefusedIsTold(size, n, before, v, t.h);
        var released := v.(pending := v.pending - multiset{t.h}, slots := v.slots[t.h.slot := None]);
        DoAcceptIsTold(size, before + [t], released);
      }
    } else {
      StartedTurnIsTold(size, n, before, v, t);
    }
  }

  lemma StartedTurnIsTold(size: nat, n: nat, before: seq<Turn>, v: Server, t: Turn)
    requires Safe(size, n, v) && Enabled(size, v, t) && !t.AcceptDone? && AllTold(before, v)
    ensures AllTold(before + [t], Dispatch(size, v, t))
  {
    hide Dispatch, Safe, Told;
    var v' := Dispatch(size, v, t);
    OwnTurnIsTold(size, n, before, v, t);
    StartedTurnIsLocal(size, n, v, t);
    OneMore(before, t, 0, 0);
    forall i | 0 <= i < |v'.slots| && v'.slots[i].Some? ensures Told(before + [t], v', i) {
      if i != t.h.slot {
        assert Told(before, v, i);
        OthersAreTold(before, v, t, v', i);
      }
    }
  }

  lemma StartedTurnIsLocal(size: nat, n: nat, v: Server, t: Turn)
    requires Safe(size, n, v) && Enabled(size, v, t) && !t.AcceptDone?
    ensures var v' := Dispatch(size, v, t);
            && |v'.slots| == |v.slots| && v'.nextId == v.nextId
            && (forall i :: 0 <= i < |v.slots| && i != t.h.slot ==> v'.slots[i] == v.slots[i])
            && (forall h: Handler :: h.slot != t.h.slot ==> v'.pending[h] == v.pending[h])
            && (forall h :: h in v'.pending ==> h in v.pending || h.id == t.h.id)
  {
    hide OnData, OnSent, Closed, SlotsAreAccountedFor, HandlersAreFew, BuffersFit;
    assert Points(v, t.h);
    hide HandlersPoint, WritesFit;
  }

  // ---------------------------------------------------------------------
  // Main results

  lemma {:induction false} EveryRunIsTold(size: nat, n: nat, schedule: seq<Turn>, v: Server)
    requires Runs(size, n, schedule, v)
    ensures Safe(size, n, v) && AllTold(schedule, v)
  {
    hide Safe, Enabled, Dispatch, AllTold;
    EveryRunIsSafe(size, n, schedule, v);
    if schedule == [] {
      StartIsTold(size, n);
    } else {
      var before, t := schedule[..|schedule| - 1], schedule[|schedule| - 1];
      var u :| Runs(size, n, before, u) && Enabled(size, u, t) && v == Dispatch(size, u, t);
      EveryRunIsTold(size, n, before, u);
      DispatchIsTold(size, n, before, u, t);
      assert schedule == before + [t];
    }
  }

  lemma StartIsTold(size: nat, n: nat)
    ensures AllTold([], Start(size, n))
  {
    DoAcceptIsTold(size, [], Server(seq(n, _ => None), multiset{}, 0, 0, false));
  }

  /**
    In every run, the session in a slot waits for its connection until its
    accept completes; from then on it has exactly one read pending until a read
    fails. Its socket is open exactly until a read or a write of it fails, it has
    received the chunks of its reads in order, and sent as many bytes as its
    writes took.
   */
  lemma SessionsAreTold(size: nat, n: nat, schedule: seq<Turn>, v: Server, i: nat)
    requires Runs(size, n, schedule, v) && i < |v.slots| && v.slots[i].Some?
    ensures var s := v.slots[i].value;
            var accept, read := OnAccept(i, s.id), OnRead(i, s.id);
            var started := AcceptDone(accept, true) in schedule;
            && v.pending[accept] == (if started then 0 else 1)
            && v.pending[read] == (if started && ReadFailed(read) !in schedule then 1 else 0)
            && (s.open <==> !HadFailure(schedule, i, s.id))
            && (started && s.open ==> v.pending[read] == 1)
            && s.received == ReceivedBy(schedule, i, s.id)
            && |s.sent| == WrittenBy(schedule, i, s.id)
  {
    EveryRunIsTold(size, n, schedule, v);
    assert Told(schedule, v, i);
    hide ReceivedBy, WrittenBy, SlotsAreAccountedFor, HandlersPoint, BuffersFit, WritesFit;
    var read := OnRead(i, v.slots[i].value.id);
    if ReadFailed(read) in schedule {
      assert HadFailure(schedule, i, v.slots[i].value.id);
    }
  }
}
