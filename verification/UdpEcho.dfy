/**
  The UDP echo server: one socket, one buffer and one sender address, reused by
  every receive and by the send that answers it.
 */
module UdpEcho {
  import opened Common

  type Endpoint = nat

  datatype Datagram = Datagram(endpoint: Endpoint, bytes: seq<Byte>)

  /** A pending send keeps its destination, but its bytes stay in the shared buffer. */
  datatype Operation = Receive | Send(to: Endpoint, length: nat)

  /** `issued` lists the sends as they were asked for, `wire` those that have left, as they left. */
  datatype State = State(
    data: seq<Byte>, sender: Endpoint, pending: multiset<Operation>,
    issued: seq<Datagram>, wire: seq<Datagram>)

  /** What completes: a receive, with an error or a datagram, or a send, which has left unless it reports an error. */
  datatype Turn = Received(error: bool, datagram: Datagram) | Sent(error: bool, op: Operation)

  function Truncated(bytes: seq<Byte>, size: nat): (r: seq<Byte>)
    ensures |r| == if |bytes| <= size then |bytes| else size
    ensures r == bytes[..|r|]
  {
    if |bytes| <= size then bytes else bytes[..size]
  }

  predicate Enabled(st: State, t: Turn) {
    match t
    case Received(_, _) => Receive in st.pending
    case Sent(_, op) => op in st.pending && op.Send? && op.length <= |st.data|
  }

  function Start(size: nat): State {
    State(Zeros(size), 0, multiset{Receive}, [], [])
  }

  function Step(st: State, t: Turn): (r: State)
    requires Enabled(st, t)
    ensures |r.data| == |st.data|
  {
    match t
    case Received(error, d) =>
      var rest := st.pending - multiset{Receive};
      if error then st.(pending := rest + multiset{Receive})
      else
        var bytes := Truncated(d.bytes, |st.data|);
        var filled := st.(data := Overlay(st.data, 0, bytes), sender := d.endpoint);
        if |bytes| > 0 then
          filled.(pending := rest + multiset{Send(filled.sender, |bytes|)},
                  issued := st.issued + [Datagram(filled.sender, filled.data[..|bytes|])])
        else filled.(pending := rest + multiset{Receive})
    case Sent(error, op) =>
      var left := if error then [] else [Datagram(op.to, st.data[..op.length])];
      st.(pending := st.pending - multiset{op} + multiset{Receive}, wire := st.wire + left)
  }

  ghost predicate Runs(size: nat, schedule: seq<Turn>, st: State) {
    if schedule == [] then st == Start(size)
    else
      var t := schedule[|schedule| - 1];
      exists u :: Runs(size, schedule[..|schedule| - 1], u) && Enabled(u, t) && st == Step(u, t)
  }

  /** The echoes due: one for each successful, non-empty receive, of its first `size` bytes. */
  function Echoes(size: nat, schedule: seq<Turn>): seq<Datagram> {
    if schedule == [] then []
    else
      var before, t := Echoes(size, schedule[..|schedule| - 1]), schedule[|schedule| - 1];
      if t.Received? && !t.error && size > 0 && t.datagram.bytes != [] then
        var length := if |t.datagram.bytes| <= size then |t.datagram.bytes| else size;
        before + [Datagram(t.datagram.endpoint, t.datagram.bytes[..length])]
      else before
  }

  /** What should have left: the send that succeeds is the echo issued last. */
  function Departures(size: nat, schedule: seq<Turn>): seq<Datagram> {
    if schedule == [] then []
    else
      var before, t := schedule[..|schedule| - 1], schedule[|schedule| - 1];
      var due := Echoes(size, before);
      Departures(size, before) + if t.Sent? && !t.error && due != [] then [due[|due| - 1]] else []
  }

  /** The completed sends that reported an error. */
  function Failures(schedule: seq<Turn>): nat {
    if schedule == [] then 0
    else
      var t := schedule[|schedule| - 1];
      Failures(schedule[..|schedule| - 1]) + if t.Sent? && t.error then 1 else 0
  }

  /** The sends issued, less the one under way. */
  function Completed(st: State): seq<Datagram> {
    if Receive in st.pending || st.issued == [] then st.issued else st.issued[..|st.issued| - 1]
  }

  /** One operation is pending; a pending send is the last one issued, and its bytes are in the buffer. */
  predicate Consistent(st: State) {
    || st.pending == multiset{Receive}
    || (exists op ::
          && op in st.pending && st.pending == multiset{op} && op.Send? && op.length <= |st.data|
          && st.issued != [] && st.issued[|st.issued| - 1] == Datagram(op.to, st.data[..op.length]))
  }

  lemma ReceivedIsConsistent(st: State, error: bool, d: Datagram)
    requires Consistent(st) && Enabled(st, Received(error, d))
    ensures var st', bytes := Step(st, Received(error, d)), Truncated(d.bytes, |st.data|);
            && Consistent(st') && Completed(st') == Completed(st) == st.issued
            && st'.issued == st.issued + if error || bytes == [] then [] else [Datagram(d.endpoint, bytes)]
  {
    hide Overlay;
    assert st.pending == multiset{Receive};
    var bytes := Truncated(d.bytes, |st.data|);
    if !error && bytes != [] {
      var data := Overlay(st.data, 0, bytes);
      assert data[..|bytes|] == data[0..|bytes|] == bytes;
      var st' := Step(st, Received(error, d));
      assert st'.pending == multiset{Send(d.endpoint, |bytes|)};
      assert Send(d.endpoint, |bytes|) in st'.pending;
      assert st'.issued[..|st'.issued| - 1] == st.issued;
    }
  }

  lemma SentIsConsistent(st: State, error: bool, op: Operation)
    requires Consistent(st) && Enabled(st, Sent(error, op))
    ensures Consistent(Step(st, Sent(error, op))) && st.issued != []
    ensures var st', last := Step(st, Sent(error, op)), st.issued[|st.issued| - 1];
            && st'.issued == Completed(st') == st.issued == Completed(st) + [last]
            && st'.wire == st.wire + if error then [] else [last]
  {
    assert st.pending == multiset{op};
  }

  /** In every run exactly one operation is pending, and the sends issued are the echoes due, in order. */
  lemma {:induction false} EveryRunIssuesEchoes(size: nat, schedule: seq<Turn>, st: State)
    requires Runs(size, schedule, st)
    ensures |st.data| == size && Consistent(st) && |st.pending| == 1
    ensures st.issued == Echoes(size, schedule)
  {
    hide Step, Enabled;
    if schedule != [] {
      var before, t := schedule[..|schedule| - 1], schedule[|schedule| - 1];
      var u :| Runs(size, before, u) && Enabled(u, t) && st == Step(u, t);
      EveryRunIssuesEchoes(size, before, u);
      match t
      case Received(error, d) => ReceivedIsConsistent(u, error, d);
      case Sent(error, op) => SentIsConsistent(u, error, op);
    }
  }

  /**
    What has left is the echoes whose sends succeeded, each with its own bytes:
    no receive overwrites a buffer that is being sent. It is all that was issued,
    less the send under way, exactly when no completed send reported an error.
   */
  lemma {:induction false} EveryRunEchoes(size: nat, schedule: seq<Turn>, st: State)
    requires Runs(size, schedule, st)
    ensures st.wire == Departures(size, schedule)
    ensures |st.wire| + Failures(schedule) == |Completed(st)|
    ensures st.wire == Completed(st) <==> Failures(schedule) == 0
  {
    hide Step, Enabled, Consistent;
    if schedule != [] {
      var before, t := schedule[..|schedule| - 1], schedule[|schedule| - 1];
      var u :| Runs(size, before, u) && Enabled(u, t) && st == Step(u, t);
      EveryRunEchoes(size, before, u);
      EveryRunIssuesEchoes(size, before, u);
      match t
      case Received(error, d) =>
        ReceivedIsConsistent(u, error, d);
        ReceivedLeavesWire(u, error, d);
      case Sent(error, op) => SentIsConsistent(u, error, op);
    }
  }

  lemma ReceivedLeavesWire(st: State, error: bool, d: Datagram)
    requires Enabled(st, Received(error, d))
    ensures Step(st, Received(error, d)).wire == st.wire
  {
    hide Overlay;
  }

  // ---------------------------------------------------------------------
  // The server object

  class ServerAsync {
    const data: array<Byte>
    var senderEndpoint: Endpoint
    var pending: multiset<Operation>
    ghost var issued: seq<Datagram>
    ghost var wire: seq<Datagram>

    constructor (maxLength: nat)
      ensures fresh(data) && View() == Start(maxLength)
    {
      data := new Byte[maxLength](_ => 0);
      senderEndpoint, pending, issued, wire := 0, multiset{}, [], [];
      new;
      DoReceive();
      assert data[..] == Zeros(maxLength);
    }

    ghost function View(): State
      reads this, data
    {
      State(data[..], senderEndpoint, pending, issued, wire)
    }

    method DoReceive()
      modifies this`pending
      ensures View() == old(View()).(pending := old(pending) + multiset{Receive})
    {
      pending := pending + multiset{Receive};
    }

    method DoSend(length: nat)
      requires length <= data.Length
      modifies this`pending, this`issued
      ensures View() == old(View()).(
        pending := old(pending) + multiset{Send(senderEndpoint, length)},
        issued := old(issued) + [Datagram(senderEndpoint, data[..length])])
    {
      pending := pending + multiset{Send(senderEndpoint, length)};
      issued := issued + [Datagram(senderEndpoint, data[..length])];
    }

    /** The receive handler, after the runtime has filled the buffer and the sender. */
    method OnReceive(error: bool, d: Datagram)
      requires Receive in pending
      modifies this, data
      ensures View() == Step(old(View()), Received(error, d))
    {
      hide Overlay;
      var bytesReceived: nat := 0;
      pending := pending - multiset{Receive};
      if !error {
        var bytes := Truncated(d.bytes, data.Length);
        bytesReceived := |bytes|;
        Fill(bytes);
        senderEndpoint := d.endpoint;
      }
      if !error && bytesReceived > 0 {
        DoSend(bytesReceived);
      } else {
        DoReceive();
      }
    }

    method Fill(bytes: seq<Byte>)
      requires |bytes| <= data.Length
      modifies data
      ensures data[..] == Overlay(old(data[..]), 0, bytes)
    {
      forall k | 0 <= k < |bytes| {
        data[k] := bytes[k];
      }
    }

    /** The send handler ignores its result; only a send without an error has left. */
    method OnSend(error: bool, op: Operation)
      requires Enabled(View(), Sent(error, op))
      modifies this
      ensures View() == Step(old(View()), Sent(error, op))
    {
      pending := pending - multiset{op};
      wire := wire + if error then [] else [Datagram(op.to, data[..op.length])];
      DoReceive();
    }
  }
}
