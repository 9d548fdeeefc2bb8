/**
  The echo sessions in their control styles: callbacks over a shared buffer,
  coroutine loops, and the short-write loop for one message. Each is proved to
  do what `EchoMachine` does on every script of completion results.
 */
module EchoSessions {
  import opened Common
  import opened EchoMachine

  // ---------------------------------------------------------------------
  // Callbacks

  /** The session of the callback TCP server. */
  class TcpSession {
    const data: array<Byte>
    var phase: Phase
    ghost var received: seq<Byte>
    ghost var sent: seq<Byte>

    constructor (maxLength: nat)
      ensures fresh(data) && View() == State(Ended, Zeros(maxLength), [], [])
    {
      data := new Byte[maxLength](_ => 0);
      phase, received, sent := Ended, [], [];
      new;
      assert data[..] == Zeros(maxLength);
    }

    ghost function View(): State
      reads this, data
    {
      State(phase, data[..], received, sent)
    }

    /** `start` and `do_read`. */
    method DoRead()
      modifies this
      ensures View() == old(View()).(phase := Reading)
    {
      phase := Reading;
    }

    /** The read handler, once the runtime has put a chunk of `length` bytes into the buffer. */
    method OnRead(error: bool, length: nat)
      requires phase.Reading?
      modifies this
      ensures View() == old(View()).(phase := if error then Ended else Writing(0, length))
    {
      phase := Ended;
      if !error {
        DoWrite(length);
      }
    }

    method DoWrite(length: nat)
      modifies this
      ensures View() == old(View()).(phase := Writing(0, length))
    {
      phase := Writing(0, length);
    }

    /** The write handler, called when the composed write is over. */
    method OnWrite(error: bool)
      modifies this
      ensures View() == old(View()).(phase := if error then Ended else Reading)
    {
      phase := Ended;
      if !error {
        DoRead();
      }
    }

    /** The runtime completes one socket operation. */
    method Complete(c: Completion)
      requires Fits(View()) && !phase.Ended?
      modifies this, data
      ensures View() == Step(old(View()), c) && Fits(View())
    {
      if phase.Reading? {
        var r := ReadResult(c, data.Length);
        if r.None? {
          OnRead(true, 0);
          return;
        }
        forall k | 0 <= k < |r.value| {
          data[k] := r.value[k];
        }
        assert data[..] == Overlay(old(data[..]), 0, r.value);
        received := received + r.value;
        OnRead(false, |r.value|);
      } else {
        var offset, length := phase.offset, phase.length;
        var r := WriteResult(c, length - offset);
        if r.None? {
          OnWrite(true);
          return;
        }
        sent := sent + data[offset..offset + r.value];
        if offset + r.value == length {
          OnWrite(false);
        } else {
          phase := Writing(offset + r.value, length);
        }
      }
    }
  }

  // ---------------------------------------------------------------------
  // Coroutines

  datatype Outcome = Done | Threw | Blocked

  /** The machine agrees with what a loop has done, the buffer outside the write aside. */
  ghost predicate Matches(st: State, phase: Phase, received: seq<Byte>, sent: seq<Byte>) {
    st.phase == phase && st.received == received && st.sent == sent
  }

  /** One short write, seen by the machine. */
  lemma OneShortWrite(start: State, script: seq<Completion>, k: nat, bytes: seq<Byte>, offset: nat,
                      received: seq<Byte>, sent: seq<Byte>)
    requires Fits(start) && k < |script| && offset <= |bytes| <= |start.data|
    requires Matches(Run(start, script[..k]), Writing(offset, |bytes|), received, sent)
    requires Run(start, script[..k]).data[..|bytes|] == bytes
    ensures var after := Run(start, script[..k + 1]);
            && after.data[..|bytes|] == bytes
            && match WriteResult(script[k], |bytes| - offset)
               case None => Matches(after, Ended, received, sent)
               case Some(n) =>
                 Matches(after, if offset + n == |bytes| then Reading else Writing(offset + n, |bytes|),
                         received, sent + bytes[offset..offset + n])
  {
    hide Run;
    RunOneMore(start, script, k);
    var r := WriteResult(script[k], |bytes| - offset);
    if r.Some? {
      var data := Run(start, script[..k]).data;
      assert bytes[offset..offset + r.value] == data[offset..offset + r.value];
    }
  }

  /** `async_write`: short writes until the whole buffer has gone, or one of them fails. */
  method AsyncWrite(data: array<Byte>, length: nat, script: seq<Completion>, from: nat, sent: seq<Byte>,
                    ghost start: State, ghost received: seq<Byte>)
    returns (wire: seq<Byte>, next: nat, outcome: Outcome)
    requires from <= |script| && length <= data.Length == |start.data| && Fits(start)
    requires Matches(Run(start, script[..from]), Writing(0, length), received, sent)
    requires Run(start, script[..from]).data[..length] == data[..length]
    ensures from <= next <= |script|
    ensures outcome.Done? ==> Matches(Run(start, script[..next]), Reading, received, wire)
    ensures outcome.Threw? ==> Matches(Run(start, script[..next]), Ended, received, wire)
    ensures outcome.Blocked? ==> next == |script| && exists offset ::
      Matches(Run(start, script), Writing(offset, length), received, wire)
  {
    hide Run, Step, Overlay;
    wire, next := sent, from;
    var offset: nat := 0;
    while next < |script|
      invariant offset <= length && from <= next <= |script|
      invariant Matches(Run(start, script[..next]), Writing(offset, length), received, wire)
      invariant Run(start, script[..next]).data[..length] == data[..length]
    {
      var r := WriteResult(script[next], length - offset);
      OneShortWrite(start, script, next, data[..length], offset, received, wire);
      next := next + 1;
      if r.None? {
        return wire, next, Threw;
      }
      assert data[offset..offset + r.value] == data[..length][offset..offset + r.value];
      wire := wire + data[offset..offset + r.value];
      offset := offset + r.value;
      if offset == length {
        return wire, next, Done;
      }
    }
    assert script[..next] == script;
    return wire, next, Blocked;
  }

  /**
    `EchoServer_One::session`: one buffer for the whole loop. An error code
    leaves the loop as an exception.
   */
  method Session(size: nat, script: seq<Completion>)
    returns (received: seq<Byte>, sent: seq<Byte>, ended: bool)
    ensures var st := Run(Opened(Zeros(size)), script);
            received == st.received && sent == st.sent && ended == st.phase.Ended?
  {
    hide Run;
    ghost var start := Opened(Zeros(size));
    var data := new Byte[size](_ => 0);
    var next := 0;
    received, sent := [], [];
    NothingRunYet(start, script);
    while next < |script|
      invariant next <= |script|
      invariant Matches(Run(start, script[..next]), Reading, received, sent)
    {
      var r := ReadResult(script[next], size);
      RunOneMore(start, script, next);
      next := next + 1;
      if r.None? {
        EndedIsFinal(start, script, next);
        return received, sent, true;
      }
      OverlayStart(Run(start, script[..next - 1]).data, r.value);
      var bytes := |r.value|;
      forall k | 0 <= k < bytes {
        data[k] := r.value[k];
      }
      assert data[..bytes] == r.value;
      received := received + r.value;
      var outcome;
      sent, next, outcome := AsyncWrite(data, bytes, script, next, sent, start, received);
      if outcome.Threw? {
        EndedIsFinal(start, script, next);
        return received, sent, true;
      }
      if outcome.Blocked? {
        return received, sent, false;
      }
    }
    assert script[..next] == script;
    return received, sent, false;
  }

  /** `EchoServer_Refactor::echo_once`: one chunk, through a buffer of its own. */
  method EchoOnce(size: nat, script: seq<Completion>, from: nat, received: seq<Byte>, sent: seq<Byte>,
                  ghost start: State)
    returns (received': seq<Byte>, sent': seq<Byte>, next: nat, outcome: Outcome)
    requires from <= |script| && Fits(start) && |start.data| == size
    requires Matches(Run(start, script[..from]), Reading, received, sent)
    ensures from <= next <= |script|
    ensures outcome.Done? ==> from < next && Matches(Run(start, script[..next]), Reading, received', sent')
    ensures outcome.Threw? ==> Matches(Run(start, script[..next]), Ended, received', sent')
    ensures outcome.Blocked? ==> next == |script| && exists phase: Phase ::
      !phase.Ended? && Matches(Run(start, script), phase, received', sent')
  {
    hide Run;
    if from == |script| {
      assert script[..from] == script;
      return received, sent, from, Blocked;
    }
    var buffer := new Byte[size](_ => 0);
    var r := ReadResult(script[from], size);
    RunOneMore(start, script, from);
    if r.None? {
      return received, sent, from + 1, Threw;
    }
    OverlayStart(Run(start, script[..from]).data, r.value);
    var bytes := |r.value|;
    forall k | 0 <= k < bytes {
      buffer[k] := r.value[k];
    }
    assert buffer[..bytes] == r.value;
    received' := received + r.value;
    sent', next, outcome := AsyncWrite(buffer, bytes, script, from + 1, sent, start, received');
  }

  /** `EchoServer_Refactor::echo`. */
  method Echo(size: nat, script: seq<Completion>)
    returns (received: seq<Byte>, sent: seq<Byte>, ended: bool)
    ensures var st := Run(Opened(Zeros(size)), script);
            received == st.received && sent == st.sent && ended == st.phase.Ended?
  {
    hide Run;
    ghost var start := Opened(Zeros(size));
    NothingRunYet(start, script);
    received, sent := [], [];
    var next := 0;
    while true
      invariant next <= |script|
      invariant Matches(Run(start, script[..next]), Reading, received, sent)
      decreases |script| - next
    {
      var outcome;
      received, sent, next, outcome := EchoOnce(size, script, next, received, sent, start);
      if outcome.Threw? {
        EndedIsFinal(start, script, next);
        return received, sent, true;
      }
      if outcome.Blocked? {
        return received, sent, false;
      }
    }
  }

  lemma OverlayStart(buf: seq<Byte>, bytes: seq<Byte>)
    requires |bytes| <= |buf|
    ensures Overlay(buf, 0, bytes)[..|bytes|] == bytes
  {
  }

  lemma NothingRunYet(start: State, script: seq<Completion>)
    requires Fits(start)
    ensures Run(start, script[..0]) == start
  {
  }

  // ---------------------------------------------------------------------
  // One message

  /** `write_to_socket`, for any message; the results of `write_some` are given in order. */
  method WriteToSocket(msg: seq<Byte>, results: seq<Completion>)
    returns (wire: seq<Byte>, used: nat, outcome: Outcome)
    ensures used <= |results| && wire <= msg
    ensures outcome.Done? <==> wire == msg
    ensures outcome.Blocked? ==> used == |results|
    ensures !outcome.Threw? ==> |wire| == Transferred(results[..used])
    ensures outcome.Threw? ==> 0 < used && |wire| == Transferred(results[..used - 1])
    ensures outcome.Threw? ==> WriteResult(results[used - 1], |msg| - |wire|).None?
  {
    var bytesSend: nat := 0;
    wire, used := [], 0;
    while bytesSend != |msg|
      invariant bytesSend <= |msg| && used <= |results|
      invariant wire == msg[..bytesSend]
      invariant bytesSend == Transferred(results[..used])
      decreases |results| - used
    {
      if used == |results| {
        return wire, used, Blocked;
      }
      var r := WriteResult(results[used], |msg| - bytesSend);
      assert results[..used + 1][..used] == results[..used];
      used := used + 1;
      if r.None? {
        return wire, used, Threw;
      }
      wire := wire + msg[bytesSend..bytesSend + r.value];
      bytesSend := bytesSend + r.value;
    }
    return wire, used, Done;
  }

  function Transferred(results: seq<Completion>): nat {
    if results == [] then 0
    else Transferred(results[..|results| - 1]) + if results[|results| - 1].Wrote? then results[|results| - 1].n else 0
  }
}
