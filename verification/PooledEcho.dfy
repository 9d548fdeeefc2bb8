/**
  What the pooled server echoes. A session starts its next read before its
  write completes, and the handler of that read overwrites the buffer being
  written. So the bytes sent are a prefix of the bytes received as long as each
  write completes before the next read of its session does, and no longer.
 */
module PooledEcho {
  import opened Common
  import opened SlotPool
  import opened PooledServer

  predicate Writing(v: Server, slot: nat) {
    exists w :: w in v.pending && w.OnWrite? && w.slot == slot
  }

  /** The turn is not a read that overtakes a write of its session. */
  predicate InTurn(v: Server, t: Turn) {
    t.ReadDone? ==> !Writing(v, t.h.slot)
  }

  ghost predicate RunsInTurn(size: nat, n: nat, schedule: seq<Turn>, v: Server) {
    if schedule == [] then v == Start(size, n)
    else
      var t := schedule[|schedule| - 1];
      exists u ::
        && RunsInTurn(size, n, schedule[..|schedule| - 1], u)
        && Enabled(size, u, t) && InTurn(u, t) && v == Dispatch(size, u, t)
  }

  lemma {:induction false} RunsInTurnAreRuns(size: nat, n: nat, schedule: seq<Turn>, v: Server)
    requires RunsInTurn(size, n, schedule, v)
    ensures Runs(size, n, schedule, v)
  {
    hide Enabled, Dispatch, InTurn;
    if schedule != [] {
      var before, t := schedule[..|schedule| - 1], schedule[|schedule| - 1];
      var u :| RunsInTurn(size, n, before, u) && Enabled(size, u, t) && InTurn(u, t) && v == Dispatch(size, u, t);
      RunsInTurnAreRuns(size, n, before, u);
    }
  }

  /** What is still to be sent of what was received, while the socket is open. */
  predicate EchoesWrite(s: Session, w: Handler)
    requires w.OnWrite?
  {
    w.offset <= w.length <= |s.tx| && s.received == s.sent + s.tx[w.offset..w.length]
  }

  predicate Echoes(v: Server, slot: nat)
    requires slot < |v.slots| && v.slots[slot].Some?
  {
    var s := v.slots[slot].value;
    && s.sent <= s.received
    && (s.open ==>
          && (!Writing(v, slot) ==> s.sent == s.received)
          && (forall w :: w in v.pending && w.OnWrite? && w.slot == slot ==> v.pending[w] == 1 && EchoesWrite(s, w))
          && (forall w, x :: w in v.pending && w.OnWrite? && w.slot == slot ==>
                x in v.pending && x.OnWrite? && x.slot == slot ==> w == x))
  }

  predicate AllEcho(v: Server) {
    forall i :: 0 <= i < |v.slots| && v.slots[i].Some? ==> Echoes(v, i)
  }

  /** A slot whose session and writes a turn leaves alone still echoes. */
  lemma OthersStillEcho(v: Server, v': Server, slot: nat)
    requires slot < |v.slots| == |v'.slots| && v.slots[slot].Some? && v'.slots[slot] == v.slots[slot]
    requires forall w: Handler :: w.OnWrite? && w.slot == slot ==> v'.pending[w] == v.pending[w]
    requires Echoes(v, slot)
    ensures Echoes(v', slot)
  {
    assert forall w: Handler :: w.OnWrite? && w.slot == slot ==> (w in v'.pending <==> w in v.pending);
  }

  lemma ReadEchoes(size: nat, n: nat, v: Server, h: Handler, chunk: seq<Byte>)
    requires Safe(size, n, v) && AllEcho(v) && Enabled(size, v, ReadDone(h, chunk)) && InTurn(v, ReadDone(h, chunk))
    ensures h.slot < |v.slots| && v.slots[h.slot].Some? && Dispatch(size, v, ReadDone(h, chunk)).slots[h.slot].Some?
    ensures Echoes(Dispatch(size, v, ReadDone(h, chunk)), h.slot)
  {
    hide SlotsAreAccountedFor, HandlersAreFew, Dispatch;
    assert Points(v, h) && Echoes(v, h.slot);
    ReadDoneUnfolds(size, v, h, chunk);
    hide HandlersPoint, BuffersFit;
    var v' := Dispatch(size, v, ReadDone(h, chunk));
    var s, s' := v.slots[h.slot].value, v'.slots[h.slot].value;
    var w := OnWrite(h.slot, h.id, 0, |chunk|);
    ChunkIsCopied(s, chunk);
    assert w in v'.pending;
    assert forall x :: x in v'.pending && x.OnWrite? && x.slot == h.slot ==> x == w;
    assert v.pending[w] == 0;
  }

  lemma ChunkIsCopied(s: Session, chunk: seq<Byte>)
    requires |s.rx| == |s.tx| && s.rxUsed == 0 && |chunk| <= |s.rx|
    ensures OnData(s, chunk).tx[0..|chunk|] == chunk
  {
    var rx := Overlay(s.rx, 0, chunk);
    assert rx[..|chunk|] == rx[0..|chunk|] == chunk;
  }

  lemma WriteEchoes(size: nat, n: nat, v: Server, h: Handler, k: nat)
    requires Safe(size, n, v) && AllEcho(v) && Enabled(size, v, WroteSome(h, k))
    ensures h.slot < |v.slots| && v.slots[h.slot].Some? && Dispatch(size, v, WroteSome(h, k)).slots[h.slot].Some?
    ensures Echoes(Dispatch(size, v, WroteSome(h, k)), h.slot)
  {
    hide SlotsAreAccountedFor, HandlersAreFew, Dispatch;
    assert Points(v, h) && Echoes(v, h.slot);
    WroteSomeUnfolds(size, v, h, k);
    hide HandlersPoint, BuffersFit;
    var v' := Dispatch(size, v, WroteSome(h, k));
    var s, s' := v.slots[h.slot].value, v'.slots[h.slot].value;
    var w := h.(offset := h.offset + k);
    SentSome(s, h, k);
    RestOfWrite(v.pending, h, k);
    hide Rest;
    assert s' == OnSent(s, h.offset, k);
  }

  /** What is left of the only write of a slot is its only write. */
  lemma RestOfWrite(pending: multiset<Handler>, h: Handler, k: nat)
    requires h.OnWrite? && pending[h] == 1 && 1 <= k <= h.length - h.offset
    requires forall x :: x in pending && x.OnWrite? && x.slot == h.slot ==> x == h
    ensures var w, after := h.(offset := h.offset + k), pending - multiset{h} + Rest(h, k);
            && (forall x :: x in after && x.OnWrite? && x.slot == h.slot ==> x == w && w.offset < w.length)
            && (w.offset < w.length ==> w in after && after[w] == 1)
  {
  }

  lemma SentSome(s: Session, h: Handler, k: nat)
    requires h.OnWrite? && EchoesWrite(s, h) && h.offset + k <= h.length
    ensures EchoesWrite(OnSent(s, h.offset, k), h.(offset := h.offset + k))
    ensures OnSent(s, h.offset, k).sent <= s.received
    ensures h.offset + k == h.length ==> OnSent(s, h.offset, k).sent == s.received
  {
    assert s.tx[h.offset..h.length] == s.tx[h.offset..h.offset + k] + s.tx[h.offset + k..h.length];
    ConcatIsAssociative(s.sent, s.tx[h.offset..h.offset + k], s.tx[h.offset + k..h.length]);
  }

  lemma FailureEchoes(size: nat, n: nat, v: Server, t: Turn)
    requires Safe(size, n, v) && AllEcho(v) && Enabled(size, v, t) && (t.ReadFailed? || t.WriteFailed?)
    ensures t.h.slot < |v.slots| && v.slots[t.h.slot].Some? && Dispatch(size, v, t).slots[t.h.slot].Some?
    ensures Echoes(Dispatch(size, v, t), t.h.slot)
  {
    hide SlotsAreAccountedFor, HandlersAreFew, Dispatch;
    assert Points(v, t.h) && Echoes(v, t.h.slot);
    FailureUnfolds(size, v, t);
  }

  /** An accept's completion touches no write, and changes slots only by emptying and emplacing. */
  lemma AcceptTouchesNoWrites(size: nat, n: nat, v: Server, t: Turn)
    requires Safe(size, n, v) && Enabled(size, v, t) && t.AcceptDone?
    ensures var v' := Dispatch(size, v, t);
            && |v'.slots| == |v.slots|
            && (forall w: Handler :: w.OnWrite? ==> v'.pending[w] == v.pending[w])
            && (forall i :: 0 <= i < |v.slots| && v'.slots[i].Some? && v'.slots[i] != v.slots[i] ==>
                  v'.slots[i].value == Emplaced(v.nextId, size) && (v.slots[i].None? || i == t.h.slot))
  {
    hide SlotsAreAccountedFor, HandlersAreFew, BuffersFit, Emplaced, DoAccept;
    assert Points(v, t.h);
    hide HandlersPoint;
    if t.ok {
      DoAcceptTouchesNoWrites(size, Accepted(v, t.h));
    } else {
      DoAcceptTouchesNoWrites(size, v.(pending := v.pending - multiset{t.h}, slots := v.slots[t.h.slot := None]));
    }
  }

  lemma DoAcceptTouchesNoWrites(size: nat, v: Server)
    ensures var v' := DoAccept(size, v);
            && |v'.slots| == |v.slots|
            && (forall w: Handler :: w.OnWrite? ==> v'.pending[w] == v.pending[w])
            && (forall i :: 0 <= i < |v.slots| && v'.slots[i] != v.slots[i] ==>
                  v.slots[i].None? && v'.slots[i] == Some(Emplaced(v.nextId, size)))
  {
    hide Emplaced;
  }

  lemma AcceptEchoes(size: nat, n: nat, v: Server, t: Turn)
    requires Safe(size, n, v) && AllEcho(v) && Enabled(size, v, t) && t.AcceptDone?
    ensures AllEcho(Dispatch(size, v, t))
  {
    hide Echoes, Dispatch, Emplaced;
    AcceptTouchesNoWrites(size, n, v, t);
    var v' := Dispatch(size, v, t);
    forall i | 0 <= i < |v'.slots| && v'.slots[i].Some? ensures Echoes(v', i) {
      if v'.slots[i] == v.slots[i] {
        assert Echoes(v, i);
        OthersStillEcho(v, v', i);
      } else {
        FreshSlotEchoes(size, n, v, v', t.h, i);
      }
    }
  }

  /** A slot just emplaced has no writes, and has neither received nor sent. */
  lemma FreshSlotEchoes(size: nat, n: nat, v: Server, v': Server, h: Handler, i: nat)
    requires Safe(size, n, v) && h in v.pending && h.OnAccept?
    requires i < |v.slots| == |v'.slots| && (v.slots[i].None? || i == h.slot)
    requires v'.slots[i].Some? && v'.slots[i].value == Emplaced(v.nextId, size)
    requires forall w: Handler :: w.OnWrite? ==> v'.pending[w] == v.pending[w]
    ensures Echoes(v', i)
  {
    hide SlotsAreAccountedFor;
    forall w | w in v'.pending && w.OnWrite? ensures w.slot != i {
      assert w in v.pending && Points(v, w);
    }
  }

  /** A turn of a started session changes no other slot and no write of another slot. */
  lemma TurnIsLocal(size: nat, n: nat, v: Server, t: Turn)
    requires Safe(size, n, v) && Enabled(size, v, t) && !t.AcceptDone?
    ensures Points(v, t.h)
    ensures var v' := Dispatch(size, v, t);
            && |v'.slots| == |v.slots|
            && (forall i :: 0 <= i < |v.slots| && i != t.h.slot ==> v'.slots[i] == v.slots[i])
            && (forall w: Handler :: w.OnWrite? && w.slot != t.h.slot ==> v'.pending[w] == v.pending[w])
  {
    hide OnData, OnSent, SlotsAreAccountedFor, HandlersAreFew, BuffersFit;
    assert Points(v, t.h);
  }

  lemma DispatchKeepsEcho(size: nat, n: nat, v: Server, t: Turn)
    requires Safe(size, n, v) && AllEcho(v) && Enabled(size, v, t) && InTurn(v, t)
    ensures AllEcho(Dispatch(size, v, t))
  {
    hide Echoes, Dispatch, Enabled, Safe;
    if t.AcceptDone? {
      AcceptEchoes(size, n, v, t);
    } else {
      var v', h := Dispatch(size, v, t), t.h;
      TurnIsLocal(size, n, v, t);
      match t {
        case ReadDone(_, chunk) => ReadEchoes(size, n, v, h, chunk);
        case WroteSome(_, k) => WriteEchoes(size, n, v, h, k);
        case _ => FailureEchoes(size, n, v, t);
      }
      forall i | 0 <= i < |v'.slots| && v'.slots[i].Some? ensures Echoes(v', i) {
        if i != h.slot {
          assert Echoes(v, i);
          OthersStillEcho(v, v', i);
        }
      }
    }
  }

  /**
    In a run where each write completes before the next read of its session,
    every session has sent a prefix of what it received, and all of it whenever
    its socket is open and it has no write pending.
   */
  lemma {:induction false} RunsInTurnEcho(size: nat, n: nat, schedule: seq<Turn>, v: Server)
    requires RunsInTurn(size, n, schedule, v)
    ensures Safe(size, n, v) && AllEcho(v)
  {
    hide Safe, Enabled, Dispatch, InTurn, Echoes;
    RunsInTurnAreRuns(size, n, schedule, v);
    EveryRunIsSafe(size, n, schedule, v);
    if schedule == [] {
      StartEchoes(size, n);
    } else {
      var before, t := schedule[..|schedule| - 1], schedule[|schedule| - 1];
      var u :| RunsInTurn(size, n, before, u) && Enabled(size, u, t) && InTurn(u, t) && v == Dispatch(size, u, t);
      RunsInTurnEcho(size, n, before, u);
      DispatchKeepsEcho(size, n, u, t);
    }
  }

  lemma StartEchoes(size: nat, n: nat)
    ensures AllEcho(Start(size, n))
  {
  }

  // ---------------------------------------------------------------------
  // Exactly when

  predicate PrefixAt(v: Server, slot: nat) {
    slot < |v.slots| && v.slots[slot].Some? ==> v.slots[slot].value.sent <= v.slots[slot].value.received
  }

  /** Whatever the read brings, one more write step of its session sends the right bytes. */
  ghost predicate NextReadIsHarmless(size: nat, v: Server, r: Handler) {
    forall chunk: seq<Byte>, w: Handler, k: nat ::
      Enabled(size, v, ReadDone(r, chunk)) && w.slot == r.slot
      && Enabled(size, Dispatch(size, v, ReadDone(r, chunk)), WroteSome(w, k)) ==>
      PrefixAt(Dispatch(size, Dispatch(size, v, ReadDone(r, chunk)), WroteSome(w, k)), r.slot)
  }

  /** A chunk that differs from what is being written spoils the next byte sent. */
  lemma ChunkSpoilsWrite(s: Session, w: Handler, chunk: seq<Byte>)
    requires w.OnWrite? && w.offset < w.length <= |chunk| == |s.rx| == |s.tx| && s.rxUsed == 0
    requires EchoesWrite(s, w) && chunk[w.offset] != s.tx[w.offset]
    ensures !(OnSent(OnData(s, chunk), w.offset, 1).sent <= OnData(s, chunk).received)
  {
    ChunkIsCopied(s, chunk);
    var s1 := OnData(s, chunk);
    var s2 := OnSent(s1, w.offset, 1);
    assert s1.tx[w.offset] == s1.tx[0..|chunk|][w.offset] == chunk[w.offset];
    assert s2.sent[|s.sent|] == chunk[w.offset];
    assert s2.received[|s.sent|] == s.tx[w.offset..w.length][0] == s.tx[w.offset];
  }

  /** A read that overtakes a write can make the server send a byte it never received there. */
  lemma OvertakingCorrupts(size: nat, n: nat, v: Server, r: Handler, w: Handler) returns (chunk: seq<Byte>)
    requires Safe(size, n, v) && AllEcho(v)
    requires r in v.pending && r.OnRead? && w in v.pending && w.OnWrite? && w.slot == r.slot
    requires Points(v, r) && v.slots[r.slot].value.open
    ensures Enabled(size, v, ReadDone(r, chunk))
    ensures var v1 := Dispatch(size, v, ReadDone(r, chunk));
            Enabled(size, v1, WroteSome(w, 1)) && !PrefixAt(Dispatch(size, v1, WroteSome(w, 1)), r.slot)
  {
    hide SlotsAreAccountedFor, HandlersAreFew, Dispatch;
    assert Points(v, w) && Echoes(v, r.slot);
    var s := v.slots[r.slot].value;
    var wrong: Byte := if s.tx[w.offset] == 0 then 1 else 0;
    chunk := seq(size, _ => wrong);
    ChunkSpoilsWrite(s, w, chunk);
    hide EchoesWrite, Overlay, Echoes, OnData, OnSent, HandlersPoint, WritesFit;
    ReadDoneUnfolds(size, v, r, chunk);
    DispatchIsSafe(size, n, v, ReadDone(r, chunk));
    hide BuffersFit;
    var s1 := OnData(s, chunk);
    var v1 := Dispatch(size, v, ReadDone(r, chunk));
    assert w in v1.pending && v1.slots[r.slot] == Some(s1);
    WroteSomeUnfolds(size, v1, w, 1);
    assert Dispatch(size, v1, WroteSome(w, 1)).slots[r.slot] == Some(OnSent(s1, w.offset, 1));
  }

  /** The next read of an open session is harmless exactly when no write of it is pending. */
  lemma HarmlessExactlyWhenNotWriting(size: nat, n: nat, schedule: seq<Turn>, v: Server, r: Handler)
    requires RunsInTurn(size, n, schedule, v)
    requires r in v.pending && r.OnRead? && Points(v, r) && v.slots[r.slot].value.open
    ensures NextReadIsHarmless(size, v, r) <==> !Writing(v, r.slot)
  {
    hide Safe, Enabled, Dispatch, Echoes, Points, PrefixAt;
    RunsInTurnEcho(size, n, schedule, v);
    if Writing(v, r.slot) {
      var w :| w in v.pending && w.OnWrite? && w.slot == r.slot;
      var chunk := OvertakingCorrupts(size, n, v, r, w);
    } else {
      forall chunk: seq<Byte>, w: Handler, k: nat |
        Enabled(size, v, ReadDone(r, chunk)) && w.slot == r.slot
        && Enabled(size, Dispatch(size, v, ReadDone(r, chunk)), WroteSome(w, k))
        ensures PrefixAt(Dispatch(size, Dispatch(size, v, ReadDone(r, chunk)), WroteSome(w, k)), r.slot)
      {
        DispatchIsSafe(size, n, v, ReadDone(r, chunk));
        DispatchKeepsEcho(size, n, v, ReadDone(r, chunk));
        var v1 := Dispatch(size, v, ReadDone(r, chunk));
        DispatchKeepsEcho(size, n, v1, WroteSome(w, k));
        EchoIsPrefix(Dispatch(size, v1, WroteSome(w, k)), r.slot);
      }
    }
  }

  lemma EchoIsPrefix(v: Server, slot: nat)
    requires AllEcho(v)
    ensures PrefixAt(v, slot)
  {
    if slot < |v.slots| && v.slots[slot].Some? {
      assert Echoes(v, slot);
    }
  }

  // ---------------------------------------------------------------------
  // A whole run that fails

  lemma OneMoreTurn(size: nat, n: nat, before: seq<Turn>, u: Server, t: Turn)
    requires Enabled(size, u, t)
    ensures Runs(size, n, before, u) ==> Runs(size, n, before + [t], Dispatch(size, u, t))
    ensures RunsInTurn(size, n, before, u) && InTurn(u, t) ==>
              RunsInTurn(size, n, before + [t], Dispatch(size, u, t))
  {
    hide Enabled, Dispatch, InTurn;
    var schedule := before + [t];
    assert schedule[..|schedule| - 1] == before && schedule[|schedule| - 1] == t;
  }

  /** At start the first slot waits for a connection; the accept starts its read. */
  lemma FirstAccept(size: nat, n: nat)
    requires n >= 1
    ensures var start, accept := Start(size, n), AcceptDone(OnAccept(0, 0), true);
            && Enabled(size, start, accept)
            && var v := Dispatch(size, start, accept);
            && OnRead(0, 0) in v.pending && !Writing(v, 0)
            && v.slots != [] && v.slots[0] == Some(Emplaced(0, size))
  {
    hide Zeros;
    var free := seq(n, _ => Option<Session>.None);
    FirstFreeIs(free, 0);
    assert OnAccept(0, 0) in Start(size, n).pending;
  }

  /** The first connection is accepted and sends one byte: its next read is started while that byte is written. */
  lemma FirstByteArrives(size: nat, n: nat) returns (schedule: seq<Turn>, u: Server)
    requires size >= 1 && n >= 1
    ensures RunsInTurn(size, n, schedule, u)
    ensures Points(u, OnRead(0, 0)) && u.slots[0].value.open
    ensures OnRead(0, 0) in u.pending && OnWrite(0, 0, 0, 1) in u.pending
  {
    hide Start, Dispatch, Overlay, HandlersPoint, HandlersAreFew, WritesFit, SlotsAreAccountedFor, BuffersFit;
    var start, accept, read := Start(size, n), AcceptDone(OnAccept(0, 0), true), ReadDone(OnRead(0, 0), [7]);
    FirstAccept(size, n);
    var v := Dispatch(size, start, accept);
    StartIsSafe(size, n);
    DispatchIsSafe(size, n, start, accept);
    OneMoreTurn(size, n, [], start, accept);
    OneMoreTurn(size, n, [] + [accept], v, read);
    ReadDoneUnfolds(size, v, read.h, read.chunk);
    schedule, u := [] + [accept] + [read], Dispatch(size, v, read);
  }

  /** Some run of any server with a slot and a buffer sends what it did not receive. */
  lemma SomeRunDoesNotEcho(size: nat, n: nat) returns (schedule: seq<Turn>, v: Server)
    requires size >= 1 && n >= 1
    ensures Runs(size, n, schedule, v) && !PrefixAt(v, 0)
  {
    hide Safe, Enabled, Dispatch, Points, PrefixAt, AllEcho;
    var before, u := FirstByteArrives(size, n);
    var r, w := OnRead(0, 0), OnWrite(0, 0, 0, 1);
    RunsInTurnEcho(size, n, before, u);
    RunsInTurnAreRuns(size, n, before, u);
    var chunk := OvertakingCorrupts(size, n, u, r, w);
    OneMoreTurn(size, n, before, u, ReadDone(r, chunk));
    var u' := Dispatch(size, u, ReadDone(r, chunk));
    OneMoreTurn(size, n, before + [ReadDone(r, chunk)], u', WroteSome(w, 1));
    schedule, v := before + [ReadDone(r, chunk)] + [WroteSome(w, 1)], Dispatch(size, u', WroteSome(w, 1));
  }

  /** Without slots or without buffers, no read ever completes. */
  lemma {:induction false} InTurnWithoutBuffers(size: nat, n: nat, schedule: seq<Turn>, v: Server)
    requires Runs(size, n, schedule, v) && (size == 0 || n == 0)
    ensures RunsInTurn(size, n, schedule, v)
  {
    hide Dispatch;
    if schedule != [] {
      var before, t := schedule[..|schedule| - 1], schedule[|schedule| - 1];
      var u :| Runs(size, n, before, u) && Enabled(size, u, t) && v == Dispatch(size, u, t);
      InTurnWithoutBuffers(size, n, before, u);
      EveryRunIsSafe(size, n, before, u);
      PendingPoints(size, n, u, t.h);
      hide Enabled, Safe;
      assert InTurn(u, t);
    }
  }

  ghost predicate AlwaysEchoes(size: nat, n: nat) {
    forall schedule, v, slot :: Runs(size, n, schedule, v) ==> PrefixAt(v, slot)
  }

  /** A server echoes in all its runs only if it cannot receive anything. */
  lemma EchoesAlwaysOnlyWhenUseless(size: nat, n: nat)
    ensures AlwaysEchoes(size, n) <==> size == 0 || n == 0
  {
    hide PrefixAt, AllEcho, Safe;
    if size == 0 || n == 0 {
      forall schedule, v, slot | Runs(size, n, schedule, v) ensures PrefixAt(v, slot) {
        InTurnWithoutBuffers(size, n, schedule, v);
        RunsInTurnEcho(size, n, schedule, v);
        EchoIsPrefix(v, slot);
      }
    } else {
      var schedule, v := SomeRunDoesNotEcho(size, n);
    }
  }
}
