/**
  The pooled server as objects: sessions with their two buffers, the array of
  slots, and the server whose handlers update them in place. Each handler is
  proved to take the turn that the machine `PooledServer` takes.
 */
module PooledObjects {
  import opened Common
  import SlotPool
  import Machine = PooledServer

  type Handler = Machine.Handler

  class Session {
    const rx: array<Byte>
    const tx: array<Byte>
    var rxUsed: nat
    var txUsed: nat
    var open: bool
    ghost const id: nat
    ghost var received: seq<Byte>
    ghost var sent: seq<Byte>

    constructor (size: nat, ghost id: nat)
      ensures fresh(rx) && fresh(tx) && Valid()
      ensures View() == Machine.Emplaced(id, size)
    {
      var rx', tx' := new Byte[size](_ => 0), new Byte[size](_ => 0);
      rx, tx := rx', tx';
      rxUsed, txUsed, open := 0, 0, true;
      this.id := id;
      received, sent := [], [];
      new;
      assert rx[..] == Zeros(size) && tx[..] == Zeros(size);
    }

    ghost predicate Valid() {
      rx != tx && rx.Length == tx.Length
    }

    ghost function View(): Machine.Session
      reads this, rx, tx
    {
      Machine.Session(id, open, rx[..], tx[..], rxUsed, txUsed, received, sent)
    }

    /** The read handler on success, once the runtime has put `chunk` into `rx`. */
    method ReadCompleted(chunk: seq<Byte>)
      requires Valid() && rxUsed + |chunk| <= rx.Length
      modifies this, rx, tx
      ensures View() == Machine.OnData(old(View()), chunk)
    {
      hide Overlay;
      Fill(chunk);
      received := received + chunk;
      rxUsed := rxUsed + |chunk|;
      OnData();
    }

    /** The runtime puts a chunk behind the input that is there. */
    method Fill(chunk: seq<Byte>)
      requires rxUsed + |chunk| <= rx.Length
      modifies rx
      ensures rx[..] == Overlay(old(rx[..]), rxUsed, chunk)
    {
      forall k | 0 <= k < |chunk| {
        rx[rxUsed + k] := chunk[k];
      }
    }

    /** The copy of the input to the output buffer. */
    method OnData()
      requires Valid() && rxUsed <= rx.Length
      modifies this, tx
      ensures rxUsed == 0 && txUsed == old(rxUsed)
      ensures tx[..] == Overlay(old(tx[..]), 0, rx[..old(rxUsed)])
      ensures open == old(open) && received == old(received) && sent == old(sent)
    {
      forall k | 0 <= k < rxUsed {
        tx[k] := rx[k];
      }
      txUsed := rxUsed;
      rxUsed := 0;
    }

    /** One step of the composed write takes bytes from `tx`. */
    ghost method BytesLeave(offset: nat, n: nat)
      requires offset + n <= tx.Length
      modifies this`sent
      ensures View() == Machine.OnSent(old(View()), offset, n)
    {
      sent := sent + tx[offset..offset + n];
    }

    method Close()
      modifies this`open
      ensures View() == Machine.Closed(old(View()))
    {
      open := false;
    }
  }

  class SessionPool {
    const slots: array<Session?>

    constructor (n: nat)
      ensures slots.Length == n && fresh(slots)
      ensures Valid() && View() == seq(n, _ => None) && Footprint() == {}
    {
      slots := new Session?[n](_ => null);
    }

    /** Sessions in different slots share nothing. */
    ghost predicate Valid()
      reads slots
    {
      && (forall i :: 0 <= i < slots.Length && slots[i] != null ==> slots[i].Valid())
      && (forall i, j :: 0 <= i < j < slots.Length && slots[i] != null && slots[j] != null ==>
            Apart(slots[i], slots[j]))
    }

    static ghost predicate Apart(a: Session, b: Session) {
      a != b && a.rx != b.rx && a.rx != b.tx && a.tx != b.rx && a.tx != b.tx
    }

    ghost function Footprint(): set<object>
      reads slots
    {
      (set i | 0 <= i < slots.Length && slots[i] != null :: slots[i] as object)
      + (set i | 0 <= i < slots.Length && slots[i] != null :: slots[i].rx as object)
      + (set i | 0 <= i < slots.Length && slots[i] != null :: slots[i].tx as object)
    }

    lemma InFootprint(i: nat)
      requires i < slots.Length && slots[i] != null
      ensures slots[i] in Footprint() && slots[i].rx in Footprint() && slots[i].tx in Footprint()
    {
    }

    ghost function At(i: nat): Option<Machine.Session>
      reads slots, Footprint()
      requires i < slots.Length
    {
      if slots[i] == null then None
      else
        assert slots[i] in Footprint() && slots[i].rx in Footprint() && slots[i].tx in Footprint();
        Some(slots[i].View())
    }

    ghost function View(): seq<Option<Machine.Session>>
      reads slots, Footprint()
    {
      seq(slots.Length, i requires 0 <= i < slots.Length reads slots, Footprint() => At(i))
    }

    /** Running a handler of one session leaves the others as they were. */
    twostate lemma OneSessionChanged(i: nat)
      requires i < slots.Length && slots[i] != null && old(Valid())
      requires slots[..] == old(slots[..])
      requires forall j :: 0 <= j < slots.Length && j != i && slots[j] != null ==>
        unchanged(slots[j]) && unchanged(slots[j].rx) && unchanged(slots[j].tx)
      ensures Valid() && View() == old(View())[i := Some(slots[i].View())]
    {
      forall j | 0 <= j < slots.Length ensures slots[j] == old(slots[j]) && (j != i ==> At(j) == old(At(j))) {
        assert slots[..][j] == old(slots[..])[j];
      }
    }

    method Emplace(i: nat, size: nat, ghost id: nat)
      requires Valid() && i < slots.Length && slots[i] == null
      modifies slots
      ensures Valid() && View() == old(View())[i := Some(Machine.Emplaced(id, size))]
      ensures forall o :: o in Footprint() ==> o in old(Footprint()) || fresh(o)
    {
      var session := new Session(size, id);
      Place(i, session);
    }

    /** A slot gets another occupant; the others stay as they were. */
    twostate lemma OneSlotChanged(i: nat)
      requires i < slots.Length
      requires forall j :: 0 <= j < slots.Length && j != i ==> slots[j] == old(slots[j])
      requires forall j :: 0 <= j < slots.Length && j != i && slots[j] != null ==>
        unchanged(slots[j]) && unchanged(slots[j].rx) && unchanged(slots[j].tx)
      ensures View() == old(View())[i := At(i)]
    {
      assert forall j :: 0 <= j < slots.Length && j != i ==> At(j) == old(At(j));
    }

    /** A session that shares nothing with those in the pool is put into an empty slot. */
    method Place(i: nat, session: Session)
      requires Valid() && i < slots.Length && slots[i] == null
      requires session.Valid()
      requires session !in Footprint() && session.rx !in Footprint() && session.tx !in Footprint()
      modifies slots
      ensures Valid() && View() == old(View())[i := Some(session.View())]
      ensures forall o :: o in Footprint() ==> o in old(Footprint()) + {session, session.rx, session.tx}
    {
      forall j | 0 <= j < slots.Length && slots[j] != null
        ensures Apart(slots[j], session) && Apart(session, slots[j])
      {
        InFootprint(j);
      }
      hide Apart, View;
      slots[i] := session;
      OneSlotChanged(i);
    }

    /** The first slot without a session gets a new one; nothing else moves. */
    method Acquire(size: nat, ghost id: nat) returns (r: Option<nat>)
      requires Valid()
      modifies slots
      ensures Valid()
      ensures r == SlotPool.FirstFree(old(View()))
      ensures r.None? ==> View() == old(View())
      ensures r.Some? ==> r.value < slots.Length && View() == old(View())[r.value := Some(Machine.Emplaced(id, size))]
      ensures forall o :: o in Footprint() ==> o in old(Footprint()) || fresh(o)
    {
      hide Machine.Emplaced;
      ghost var before := View();
      for i := 0 to slots.Length
        invariant View() == before && Valid() && slots[..] == old(slots[..])
        invariant forall k :: 0 <= k < i ==> slots[k] != null
      {
        if slots[i] == null {
          SlotPool.FirstFreeIs(before, i);
          Emplace(i, size, id);
          return Some(i);
        }
      }
      return None;
    }

    /** Empties the slot that holds this very session. */
    method Release(session: Session)
      requires Valid()
      modifies slots
      ensures Valid()
      ensures forall i :: 0 <= i < slots.Length && old(slots[i]) == session ==> View() == old(View())[i := None]
      ensures (forall i :: 0 <= i < slots.Length ==> old(slots[i]) != session) ==> View() == old(View())
      ensures forall o :: o in Footprint() ==> o in old(Footprint())
    {
      for i := 0 to slots.Length
        invariant slots[..] == old(slots[..])
        invariant forall k :: 0 <= k < i ==> slots[k] != session
      {
        if slots[i] != null && slots[i] == session {
          slots[i] := null;
          OneSlotChanged(i);
          return;
        }
      }
    }
  }

  /** The server between the end of one accept and the next. */
  ghost function AfterAccept(v: Machine.Server, h: Handler, ok: bool): Machine.Server
    requires h.slot < |v.slots|
  {
    if ok then Machine.Accepted(v, h)
    else v.(pending := v.pending - multiset{h}, slots := v.slots[h.slot := None])
  }

  lemma UnfoldAcceptDone(size: nat, v: Machine.Server, h: Handler, ok: bool)
    requires Machine.Enabled(size, v, Machine.AcceptDone(h, ok)) && Machine.Points(v, h)
    ensures Machine.Dispatch(size, v, Machine.AcceptDone(h, ok)) == Machine.DoAccept(size, AfterAccept(v, h, ok))
  {
    hide Machine.DoAccept;
  }

  class Server {
    const size: nat
    const pool: SessionPool
    var pending: multiset<Handler>
    var nextId: nat
    var accepted: nat

    constructor (size: nat, n: nat)
      ensures Valid() && this.size == size && pool.slots.Length == n
      ensures View() == Machine.Server(seq(n, _ => None), multiset{}, 0, 0, false)
      ensures fresh(pool) && fresh(pool.slots) && pool.Footprint() == {}
    {
      this.size := size;
      pool := new SessionPool(n);
      pending, nextId, accepted := multiset{}, 0, 0;
    }

    ghost predicate Valid()
      reads this, pool.slots
    {
      pool.Valid()
    }

    ghost function View(): Machine.Server
      reads this, pool.slots, pool.Footprint()
    {
      Machine.Server(pool.View(), pending, nextId, accepted, false)
    }

    /** `start` and `do_accept`. */
    method DoAccept()
      requires Valid()
      modifies this, pool.slots
      ensures Valid() && View() == Machine.DoAccept(size, old(View()))
      ensures forall o :: o in pool.Footprint() ==> o in old(pool.Footprint()) || fresh(o)
    {
      var session := pool.Acquire(size, nextId);
      if session.None? {
        return;
      }
      pending := pending + multiset{Machine.OnAccept(session.value, nextId)};
      nextId := nextId + 1;
    }

    /** An operation has completed, and its handler is about to run. */
    method Retire(h: Handler)
      requires Valid()
      modifies this`pending
      ensures View() == old(View()).(pending := old(View()).pending - multiset{h})
    {
      pending := pending - multiset{h};
    }

    /** `session->start()`: the first read is started. */
    method StartSession(h: Handler)
      requires Valid()
      modifies this`pending, this`accepted
      ensures View() == old(View()).(
          pending := old(View()).pending + multiset{Machine.OnRead(h.slot, h.id)},
          accepted := old(View()).accepted + 1)
    {
      pending := pending + multiset{Machine.OnRead(h.slot, h.id)};
      accepted := accepted + 1;
    }

    method ReleaseSession(slot: nat)
      requires Valid() && slot < pool.slots.Length && pool.slots[slot] != null
      modifies pool.slots
      ensures Valid() && View() == old(View()).(slots := old(View()).slots[slot := None])
      ensures forall o :: o in pool.Footprint() ==> o in old(pool.Footprint())
    {
      pool.Release(pool.slots[slot]);
    }

    /** Either branch of the accept handler. */
    method FinishAccept(h: Handler, ok: bool)
      requires Valid() && h in pending && h.slot < pool.slots.Length && pool.slots[h.slot] != null
      modifies this, pool.slots
      ensures Valid() && View() == AfterAccept(old(View()), h, ok)
      ensures forall o :: o in pool.Footprint() ==> o in old(pool.Footprint())
    {
      hide View, SessionPool.View, SessionPool.Valid, SessionPool.Footprint;
      Retire(h);
      if ok {
        StartSession(h);
      } else {
        ReleaseSession(h.slot);
      }
    }

    method OnAccept(h: Handler, ok: bool)
      requires Valid() && Machine.Enabled(size, View(), Machine.AcceptDone(h, ok)) && Machine.Points(View(), h)
      modifies this, pool.slots
      ensures Valid() && View() == Machine.Dispatch(size, old(View()), Machine.AcceptDone(h, ok))
      ensures forall o :: o in pool.Footprint() ==> o in old(pool.Footprint()) || fresh(o)
    {
      hide Machine.DoAccept, Machine.Dispatch, AfterAccept;
      UnfoldAcceptDone(size, View(), h, ok);
      assert View().slots[h.slot] == pool.At(h.slot);
      FinishAccept(h, ok);
      DoAccept();
    }

    method OnRead(h: Handler, chunk: seq<Byte>)
      requires Valid() && Machine.Enabled(size, View(), Machine.ReadDone(h, chunk))
      requires Machine.Points(View(), h) && Machine.BuffersFit(size, View())
      modifies this, pool.Footprint()
      ensures Valid() && pool.slots[..] == old(pool.slots[..])
      ensures View() == Machine.Dispatch(size, old(View()), Machine.ReadDone(h, chunk))
    {
      hide Machine.OnData;
      var session := pool.slots[h.slot];
      pool.InFootprint(h.slot);
      assert old(View()).slots[h.slot] == Some(session.View());
      pending := pending - multiset{h};
      session.ReadCompleted(chunk);
      pending := pending + multiset{Machine.OnWrite(h.slot, h.id, 0, session.txUsed), Machine.OnRead(h.slot, h.id)};
      pool.OneSessionChanged(h.slot);
    }

    method OnWrote(h: Handler, n: nat)
      requires Valid() && Machine.Enabled(size, View(), Machine.WroteSome(h, n))
      requires Machine.Points(View(), h) && Machine.BuffersFit(size, View()) && h.length <= size
      modifies this, pool.Footprint()
      ensures Valid() && pool.slots[..] == old(pool.slots[..])
      ensures View() == Machine.Dispatch(size, old(View()), Machine.WroteSome(h, n))
    {
      hide Machine.OnSent, Machine.Dispatch;
      Machine.WroteSomeUnfolds(size, View(), h, n);
      var session := pool.slots[h.slot];
      pool.InFootprint(h.slot);
      assert old(View()).slots[h.slot] == Some(session.View());
      pending := pending - multiset{h};
      session.BytesLeave(h.offset, n);
      pending := pending + Machine.Rest(h, n);
      pool.OneSessionChanged(h.slot);
    }

    /** The error branch of the read and write handlers. */
    method OnError(h: Handler)
      requires Valid() && h in pending && Machine.Points(View(), h)
      modifies this, pool.Footprint()
      ensures Valid() && pool.slots[..] == old(pool.slots[..])
      ensures h.OnRead? ==> View() == Machine.Dispatch(size, old(View()), Machine.ReadFailed(h))
      ensures h.OnWrite? ==> View() == Machine.Dispatch(size, old(View()), Machine.WriteFailed(h))
    {
      if !h.OnAccept? {
        Machine.FailureUnfolds(size, View(), if h.OnRead? then Machine.ReadFailed(h) else Machine.WriteFailed(h));
      }
      assert View().slots[h.slot] == pool.At(h.slot);
      hide View, SessionPool.View, SessionPool.Valid, SessionPool.Footprint, Machine.Dispatch, Machine.Closed;
      CloseSession(h.slot);
      Retire(h);
    }

    method CloseSession(slot: nat)
      requires Valid() && slot < pool.slots.Length && pool.slots[slot] != null
      modifies pool.Footprint()
      ensures Valid() && pool.slots[..] == old(pool.slots[..])
      ensures slot < |old(View()).slots| && old(View()).slots[slot].Some?
      ensures View() == old(View()).(
          slots := old(View()).slots[slot := Some(Machine.Closed(old(View()).slots[slot].value))])
    {
      hide Machine.Closed;
      var session := pool.slots[slot];
      pool.InFootprint(slot);
      assert old(View()).slots[slot] == Some(session.View());
      session.Close();
      pool.OneSessionChanged(slot);
    }

    /** One turn of the runtime; every state it leads to is safe. */
    method Dispatch(t: Machine.Turn)
      requires Valid() && Machine.Safe(size, pool.slots.Length, View())
      requires Machine.Enabled(size, View(), t)
      modifies this, pool.slots, pool.Footprint()
      ensures Valid() && View() == Machine.Dispatch(size, old(View()), t)
      ensures Machine.Safe(size, pool.slots.Length, View())
    {
      hide Machine.HandlersPoint, Machine.HandlersAreFew, Machine.SlotsAreAccountedFor, Machine.Dispatch;
      Machine.DispatchIsSafe(size, pool.slots.Length, View(), t);
      Machine.PendingPoints(size, pool.slots.Length, View(), t.h);
      match t
      case AcceptDone(h, ok) => OnAccept(h, ok);
      case ReadDone(h, chunk) => OnRead(h, chunk);
      case ReadFailed(h) => OnError(h);
      case WroteSome(h, n) => OnWrote(h, n);
      case WriteFailed(h) => OnError(h);
    }
  }
}
