/**
  The SSL server as objects: sessions allocated on the heap, each with one
  buffer for every read, and the server whose handlers use and delete them.
  Reading and writing are those of `EchoSessions.TcpSession`; where that session
  lets go, this one is deleted.
 */
module SslObjects {
  import opened Common
  import Echo = EchoMachine
  import opened EchoSessions
  import Machine = SslServer

  type Heap = map<nat, TcpSession>

  /** Different sessions share neither fields nor buffers. */
  ghost predicate Apart(live: Heap) {
    forall a, b :: a in live && b in live && a != b ==> live[a] != live[b] && live[a].data != live[b].data
  }

  ghost function Objects(live: Heap): set<object> {
    (set a | a in live :: live[a] as object) + (set a | a in live :: live[a].data as object)
  }

  lemma AreObjects(live: Heap)
    ensures forall a :: a in live ==> live[a] in Objects(live) && live[a].data in Objects(live)
  {
  }

  ghost function States(live: Heap): map<nat, Echo.State>
    reads Objects(live)
  {
    AreObjects(live);
    map a | a in live :: live[a].View()
  }

  lemma SessionAdded(live: Heap, s: nat, session: TcpSession)
    requires Apart(live) && s !in live
    requires session !in Objects(live) && session.data !in Objects(live)
    ensures Apart(live[s := session])
    ensures States(live[s := session]) == States(live)[s := session.View()]
  {
    AreObjects(live);
    assert forall a :: a in live ==> live[a] != session && live[a].data != session.data;
  }

  lemma ObjectsAdded(live: Heap, s: nat, session: TcpSession)
    ensures forall o :: o in Objects(live[s := session]) ==> o in Objects(live) || o == session || o == session.data
  {
    AreObjects(live);
  }

  lemma SessionRemoved(live: Heap, s: nat)
    requires Apart(live)
    ensures Apart(live - {s}) && States(live - {s}) == States(live) - {s}
    ensures Objects(live - {s}) <= Objects(live)
  {
  }

  /** The server between the end of one accept and the next. */
  ghost function AfterAccept(v: Machine.Server, s: nat, ok: bool): Machine.Server {
    var rest := v.(pending := v.pending - multiset{Machine.HandleAccept(s)});
    if ok then Machine.Start(rest, Machine.HandleHandshake(s)) else Machine.Delete(rest, s)
  }

  lemma AcceptDispatch(size: nat, v: Machine.Server, s: nat, ok: bool)
    ensures Machine.Dispatch(size, v, Machine.AcceptDone(s, ok)) == Machine.StartAccept(size, AfterAccept(v, s, ok))
  {
    hide Machine.StartAccept;
  }

  lemma HandshakeDispatch(size: nat, v: Machine.Server, s: nat, ok: bool)
    ensures var rest := v.(pending := v.pending - multiset{Machine.HandleHandshake(s)});
            Machine.Dispatch(size, v, Machine.HandshakeDone(s, ok)) ==
            if ok then Machine.Begun(rest, s) else Machine.Delete(rest, s)
  {
    hide Machine.Begun, Machine.Delete;
  }

  lemma IoDispatch(size: nat, v: Machine.Server, t: Machine.Turn)
    requires t.ReadDone? || t.WroteSome?
    ensures var rest := v.(pending := v.pending - multiset{Machine.HandlerOf(t)});
            Machine.Dispatch(size, v, t) == Machine.Exchanged(rest, t.session, t.result)
  {
    hide Machine.Exchanged;
  }

  /** The server with one session in another state. */
  ghost function Updated(v: Machine.Server, s: nat, st: Echo.State): Machine.Server {
    v.(live := v.live[s := st])
  }

  /** The branches of the read and write handlers. */
  lemma ExchangedBranches(v: Machine.Server, s: nat, result: Echo.Completion)
    requires s in v.live && Echo.Fits(v.live[s])
    ensures var st := Echo.Step(v.live[s], result);
            && (st.phase.Ended? ==> Machine.Exchanged(v, s, result) == Machine.Delete(Updated(v, s, st), s))
            && (st.phase.Reading? ==>
                  Machine.Exchanged(v, s, result) == Machine.Start(Updated(v, s, st), Machine.HandleRead(s)))
            && (st.phase.Writing? ==>
                  Machine.Exchanged(v, s, result) == Machine.Start(Updated(v, s, st), Machine.HandleWrite(s)))
  {
    hide Echo.Step, Machine.Delete, Machine.Start;
  }

  /** Ownership gives each handler what it relies on. */
  lemma OwnedSessions(size: nat, v: Machine.Server, t: Machine.Turn)
    requires Machine.Owned(size, v) && Machine.Enabled(v, t)
    ensures t.session in v.live && v.nextAddress !in v.live
    ensures t.ReadDone? || t.WroteSome? ==> Echo.Fits(v.live[t.session]) && !v.live[t.session].phase.Ended?
  {
    Machine.HandlerRuns(size, v, t);
  }

  class Server {
    const maxLength: nat
    var live: Heap
    var pending: multiset<Machine.Handler>
    var nextAddress: nat
    var deleted: seq<nat>

    constructor (maxLength: nat)
      ensures Valid() && this.maxLength == maxLength && live == map[]
      ensures View() == Machine.Server(map[], multiset{}, 0, [], false)
    {
      this.maxLength := maxLength;
      live, pending, nextAddress, deleted := map[], multiset{}, 0, [];
    }

    ghost predicate Valid()
      reads this
    {
      Apart(live) && this !in Objects(live)
    }

    ghost function View(): Machine.Server
      reads this, Objects(live)
    {
      Machine.Server(States(live), pending, nextAddress, deleted, false)
    }

    method StartAccept()
      requires Valid() && nextAddress !in live
      modifies this
      ensures Valid() && View() == Machine.StartAccept(maxLength, old(View()))
      ensures forall o :: o in Objects(live) ==> o in old(Objects(live)) || fresh(o)
    {
      hide States, Machine.New;
      AreObjects(live);
      var newSession := new TcpSession(maxLength);
      ANewSession(maxLength);
      SessionAdded(live, nextAddress, newSession);
      ObjectsAdded(live, nextAddress, newSession);
      live := live[nextAddress := newSession];
      pending := pending + multiset{Machine.HandleAccept(nextAddress)};
      nextAddress := nextAddress + 1;
    }

    /** Running a handler of one session leaves the others as they were. */
    twostate lemma OneSessionChanged(s: nat)
      requires s in live && live == old(live) && Apart(live)
      requires forall a :: a in live && a != s ==> unchanged(live[a]) && unchanged(live[a].data)
      ensures States(live) == old(States(live))[s := live[s].View()]
    {
    }

    /** `delete` of a live session. */
    method Delete(s: nat)
      requires Valid() && s in live
      modifies this
      ensures Valid() && View() == Machine.Delete(old(View()), s)
      ensures live == old(live) - {s} && nextAddress == old(nextAddress)
      ensures Objects(live) <= old(Objects(live))
    {
      HasState(live, s);
      hide Apart, Objects, States;
      SessionRemoved(live, s);
      live := live - {s};
      deleted := deleted + [s];
    }

    /** An operation is started. */
    method Issue(h: Machine.Handler)
      requires Valid()
      modifies this`pending
      ensures Valid() && View() == Machine.Start(old(View()), h)
    {
      pending := pending + multiset{h};
    }

    /** An operation has completed, and its handler is about to run. */
    method Retire(h: Machine.Handler)
      requires Valid()
      modifies this`pending
      ensures Valid() && View() == old(View()).(pending := old(View()).pending - multiset{h})
    {
      pending := pending - multiset{h};
    }

    /** Either branch of the accept handler. */
    method FinishAccept(s: nat, ok: bool)
      requires Valid() && s in live && nextAddress !in live && Machine.HandleAccept(s) in pending
      modifies this
      ensures Valid() && nextAddress !in live
      ensures View() == AfterAccept(old(View()), s, ok)
    {
      hide Apart, States, Objects, View, Machine.Delete, Machine.Start;
      Retire(Machine.HandleAccept(s));
      if ok {
        Issue(Machine.HandleHandshake(s));
      } else {
        Delete(s);
      }
    }

    method HandleAccept(s: nat, ok: bool)
      requires Valid() && s in live && nextAddress !in live && Machine.HandleAccept(s) in pending
      modifies this
      ensures Valid() && View() == Machine.Dispatch(maxLength, old(View()), Machine.AcceptDone(s, ok))
    {
      hide Apart, States, AfterAccept, Machine.StartAccept, Machine.Dispatch;
      AcceptDispatch(maxLength, View(), s, ok);
      FinishAccept(s, ok);
      StartAccept();
    }

    lemma HasView(s: nat)
      requires s in live
      ensures s in View().live && View().live[s] == live[s].View()
    {
    }

    method HandleHandshake(s: nat, ok: bool)
      requires Valid() && s in live && Machine.HandleHandshake(s) in pending
      modifies this, Objects(live)
      ensures Valid() && View() == Machine.Dispatch(maxLength, old(View()), Machine.HandshakeDone(s, ok))
    {
      HandshakeDispatch(maxLength, View(), s, ok);
      hide Objects, States, Apart, View, Machine.Delete, Machine.Begun, Machine.Dispatch;
      Retire(Machine.HandleHandshake(s));
      if ok {
        Begin(s);
      } else {
        Delete(s);
      }
    }

    /** The first read of a session is started. */
    method Begin(s: nat)
      requires Valid() && s in live
      modifies this`pending, Objects(live)
      ensures Valid() && View() == Machine.Begun(old(View()), s)
    {
      HasView(s);
      hide Objects, States, Apart, View, Machine.Start;
      StartReading(s);
      Issue(Machine.HandleRead(s));
    }

    method StartReading(s: nat)
      requires Valid() && s in live
      modifies Objects(live)
      ensures s in old(View()).live
      ensures Valid() && View() == Updated(old(View()), s, old(View()).live[s].(phase := Echo.Reading))
    {
      HasView(s);
      AreObjects(live);
      hide States;
      live[s].DoRead();
      OneSessionChanged(s);
    }

    /** The runtime completes the operation of one session, which calls its handler. */
    method CompleteIo(s: nat, result: Echo.Completion)
      requires Valid() && s in live && Echo.Fits(live[s].View()) && !live[s].phase.Ended?
      modifies Objects(live)
      ensures s in old(View()).live
      ensures Valid() && View() == Updated(old(View()), s, Echo.Step(old(View()).live[s], result))
      ensures live[s].phase == Echo.Step(old(View()).live[s], result).phase
    {
      HasView(s);
      AreObjects(live);
      hide States, Echo.Step, Echo.Fits;
      live[s].Complete(result);
      OneSessionChanged(s);
    }

    /** `handle_read` and `handle_write`, once the operation is no longer pending. */
    method HandleIo(s: nat, result: Echo.Completion)
      requires Valid() && s in live && Echo.Fits(live[s].View()) && !live[s].phase.Ended?
      modifies this, Objects(live)
      ensures Valid() && View() == Machine.Exchanged(old(View()), s, result)
    {
      HasView(s);
      ExchangedBranches(View(), s, result);
      hide Objects, States, Apart, View, Updated, Echo.Step, Echo.Fits;
      hide Machine.Exchanged, Machine.Delete, Machine.Start;
      CompleteIo(s, result);
      match live[s].phase
      case Ended => Delete(s);
      case Reading => Issue(Machine.HandleRead(s));
      case Writing(_, _) => Issue(Machine.HandleWrite(s));
    }

    method HandleRead(s: nat, result: Echo.Completion)
      requires Valid() && s in live && Echo.Fits(live[s].View()) && !live[s].phase.Ended?
      modifies this, Objects(live)
      ensures Valid() && View() == Machine.Dispatch(maxLength, old(View()), Machine.ReadDone(s, result))
    {
      IoDispatch(maxLength, View(), Machine.ReadDone(s, result));
      hide Objects, States, Apart, View, Machine.Exchanged, Machine.Dispatch, Echo.Fits;
      Retire(Machine.HandleRead(s));
      HandleIo(s, result);
    }

    method HandleWrite(s: nat, result: Echo.Completion)
      requires Valid() && s in live && Echo.Fits(live[s].View()) && !live[s].phase.Ended?
      modifies this, Objects(live)
      ensures Valid() && View() == Machine.Dispatch(maxLength, old(View()), Machine.WroteSome(s, result))
    {
      IoDispatch(maxLength, View(), Machine.WroteSome(s, result));
      hide Objects, States, Apart, View, Machine.Exchanged, Machine.Dispatch, Echo.Fits;
      Retire(Machine.HandleWrite(s));
      HandleIo(s, result);
    }

    /** One turn of the runtime; ownership holds after it. */
    method Dispatch(t: Machine.Turn)
      requires Valid() && Machine.Owned(maxLength, View()) && Machine.Enabled(View(), t)
      modifies this, Objects(live)
      ensures Valid() && View() == Machine.Dispatch(maxLength, old(View()), t)
      ensures Machine.Owned(maxLength, View())
    {
      OwnedSessions(maxLength, View(), t);
      Machine.DispatchIsOwned(maxLength, View(), t);
      var s := t.session;
      LiveKeys(live);
      HasState(live, s);
      hide Objects, States, Apart, Machine.Owned, Machine.Dispatch, Echo.Fits;
      match t
      case AcceptDone(_, ok) => HandleAccept(s, ok);
      case HandshakeDone(_, ok) => HandleHandshake(s, ok);
      case ReadDone(_, result) => HandleRead(s, result);
      case WroteSome(_, result) => HandleWrite(s, result);
    }
  }

  lemma LiveKeys(live: Heap)
    ensures States(live).Keys == live.Keys
  {
  }

  lemma HasState(live: Heap, s: nat)
    requires s in live
    ensures s in States(live) && States(live)[s] == live[s].View()
  {
  }

  lemma ANewSession(size: nat)
    ensures Machine.New(size) == Echo.State(Echo.Ended, Zeros(size), [], [])
  {
  }
}
