/**
  The echo sessions that read, write everything back and only then read again,
  as a step machine over completion results. A composed write is a sequence of
  short writes out of the session's buffer.
 */
module EchoMachine {
  import opened Common

  /** What one socket operation reports; anything that does not fit the operation is an error. */
  datatype Completion = Data(chunk: seq<Byte>) | Wrote(n: nat) | Failed

  /** The bytes of a successful read into a buffer of `size` bytes. */
  function ReadResult(c: Completion, size: nat): (r: Option<seq<Byte>>)
    ensures r.Some? ==> |r.value| <= size
  {
    if c.Data? && |c.chunk| <= size then Some(c.chunk) else None
  }

  /** The byte count of a successful `write_some` of `left` bytes: it makes progress if it can. */
  function WriteResult(c: Completion, left: nat): (r: Option<nat>)
    ensures r.Some? ==> r.value <= left && (r.value == 0 ==> left == 0)
  {
    if c.Wrote? && c.n <= left && (c.n == 0 ==> left == 0) then Some(c.n) else None
  }

  datatype Phase = Reading | Writing(offset: nat, length: nat) | Ended

  datatype State = State(phase: Phase, data: seq<Byte>, received: seq<Byte>, sent: seq<Byte>)

  /** The write in progress stays within the buffer. */
  predicate Fits(st: State) {
    st.phase.Writing? ==> st.phase.offset <= st.phase.length <= |st.data|
  }

  function Step(st: State, c: Completion): (r: State)
    requires Fits(st)
    ensures Fits(r) && |r.data| == |st.data|
  {
    match st.phase
    case Reading =>
      (match ReadResult(c, |st.data|)
       case None => st.(phase := Ended)
       case Some(chunk) =>
         State(Writing(0, |chunk|), Overlay(st.data, 0, chunk), st.received + chunk, st.sent))
    case Writing(offset, length) =>
      (match WriteResult(c, length - offset)
       case None => st.(phase := Ended)
       case Some(n) =>
         st.(phase := if offset + n == length then Reading else Writing(offset + n, length),
             sent := st.sent + st.data[offset..offset + n]))
    case Ended => st
  }

  function Run(st: State, script: seq<Completion>): (r: State)
    requires Fits(st)
    ensures Fits(r) && |r.data| == |st.data|
  {
    if script == [] then st else Step(Run(st, script[..|script| - 1]), script[|script| - 1])
  }

  function Opened(data: seq<Byte>): (st: State)
    ensures Fits(st)
  {
    State(Reading, data, [], [])
  }

  lemma RunOneMore(st: State, script: seq<Completion>, k: nat)
    requires Fits(st) && k < |script|
    ensures Run(st, script[..k + 1]) == Step(Run(st, script[..k]), script[k])
  {
    assert script[..k + 1][..k] == script[..k];
  }

  /** An ended session does nothing more. */
  lemma {:induction false} EndedIsFinal(st: State, script: seq<Completion>, k: nat)
    requires Fits(st) && k <= |script| && Run(st, script[..k]).phase.Ended?
    ensures Run(st, script) == Run(st, script[..k])
  {
    if k < |script| {
      var shorter := script[..|script| - 1];
      assert shorter[..k] == script[..k];
      EndedIsFinal(st, shorter, k);
    } else {
      assert script[..k] == script;
    }
  }

  // ---------------------------------------------------------------------
  // Conservation

  /** What has been received is what has been sent and what is still being written. */
  predicate Echoing(st: State) {
    && Fits(st)
    && st.sent <= st.received
    && match st.phase
       case Reading => st.sent == st.received
       case Writing(offset, length) => st.received == st.sent + st.data[offset..length]
       case Ended => true
  }

  lemma EchoingFits(st: State)
    requires Echoing(st)
    ensures Fits(st)
  {
  }

  lemma PartIsSent(st: State, offset: nat, middle: nat, length: nat)
    requires offset <= middle <= length <= |st.data|
    requires st.received == st.sent + st.data[offset..length]
    ensures st.received == st.sent + st.data[offset..middle] + st.data[middle..length]
    ensures middle == length ==> st.received == st.sent + st.data[offset..middle]
  {
    assert st.data[offset..length] == st.data[offset..middle] + st.data[middle..length];
    ConcatIsAssociative(st.sent, st.data[offset..middle], st.data[middle..length]);
  }

  lemma StepKeepsEchoing(st: State, c: Completion)
    requires Echoing(st)
    ensures Echoing(Step(st, c))
  {
    match st.phase
    case Reading =>
      var r := ReadResult(c, |st.data|);
      if r.Some? {
        ChunkIsInBuffer(st.data, r.value);
      }
    case Writing(offset, length) =>
      var r := WriteResult(c, length - offset);
      if r.Some? {
        PartIsSent(st, offset, offset + r.value, length);
      }
    case Ended =>
  }

  lemma ChunkIsInBuffer(buf: seq<Byte>, chunk: seq<Byte>)
    requires |chunk| <= |buf|
    ensures Overlay(buf, 0, chunk)[0..|chunk|] == chunk
  {
  }

  // ---------------------------------------------------------------------
  // What a script says by itself

  /** The bytes that the data completions of a script bring. */
  function Chunks(script: seq<Completion>): seq<Byte> {
    if script == [] then []
    else
      var c := script[|script| - 1];
      Chunks(script[..|script| - 1]) + if c.Data? then c.chunk else []
  }

  /** The byte counts of its write completions, added up. */
  function Counts(script: seq<Completion>): nat {
    if script == [] then 0
    else
      var c := script[|script| - 1];
      Counts(script[..|script| - 1]) + if c.Wrote? then c.n else 0
  }

  /** After these completions a read is awaited: all that was read has been written. */
  predicate ReadIsNext(script: seq<Completion>) {
    script == [] || (script[|script| - 1].Wrote? && Counts(script) == |Chunks(script)|)
  }

  /** The completion is a success of what is awaited next. */
  predicate Succeeds(size: nat, before: seq<Completion>, c: Completion) {
    if ReadIsNext(before) then c.Data? && |c.chunk| <= size
    else
      var left := |Chunks(before)| - Counts(before);
      c.Wrote? && c.n <= left && (c.n == 0 ==> left == 0)
  }

  /** Every completion is a success of what was awaited. */
  predicate Smooth(size: nat, script: seq<Completion>) {
    script == []
    || (Smooth(size, script[..|script| - 1]) && Succeeds(size, script[..|script| - 1], script[|script| - 1]))
  }

  /** The completions before the first failure. */
  function Taken(size: nat, script: seq<Completion>): seq<Completion> {
    if Smooth(size, script) then script else Taken(size, script[..|script| - 1])
  }

  /** The bytes that arrive before the first failure. */
  function Arrived(size: nat, script: seq<Completion>): seq<Byte> {
    Chunks(Taken(size, script))
  }

  lemma OneMore(size: nat, before: seq<Completion>, c: Completion)
    ensures Chunks(before + [c]) == Chunks(before) + if c.Data? then c.chunk else []
    ensures Counts(before + [c]) == Counts(before) + if c.Wrote? then c.n else 0
    ensures Smooth(size, before + [c]) <==> Smooth(size, before) && Succeeds(size, before, c)
    ensures Taken(size, before + [c]) == if Smooth(size, before + [c]) then before + [c] else Taken(size, before)
  {
    var script := before + [c];
    assert script[..|script| - 1] == before && script[|script| - 1] == c;
  }

  /** A state is what its script says. */
  predicate Told(size: nat, script: seq<Completion>, st: State) {
    && |st.data| == size && Echoing(st)
    && st.received == Arrived(size, script) && |st.sent| == Counts(Taken(size, script))
    && match st.phase
       case Reading => Smooth(size, script) && ReadIsNext(script)
       case Writing(offset, length) =>
         && Smooth(size, script) && !ReadIsNext(script)
         && length - offset == |Chunks(script)| - Counts(script)
       case Ended => !Smooth(size, script)
  }

  lemma ToldAfterStep(size: nat, before: seq<Completion>, st: State, c: Completion)
    requires Told(size, before, st)
    ensures Told(size, before + [c], Step(st, c))
  {
    hide Smooth, Taken, Chunks, Counts;
    OneMore(size, before, c);
    StepKeepsEchoing(st, c);
    SmoothIsTaken(size, before);
    SmoothIsTaken(size, before + [c]);
  }

  lemma SmoothIsTaken(size: nat, script: seq<Completion>)
    ensures Smooth(size, script) ==> Taken(size, script) == script
  {
  }

  lemma {:induction false} RunIsTold(data: seq<Byte>, script: seq<Completion>)
    ensures Told(|data|, script, Run(Opened(data), script))
  {
    hide Step, Told;
    if script == [] {
      OpenedIsTold(data);
    } else {
      var before, c := script[..|script| - 1], script[|script| - 1];
      RunIsTold(data, before);
      ToldAfterStep(|data|, before, Run(Opened(data), before), c);
      assert script == before + [c];
    }
  }

  lemma OpenedIsTold(data: seq<Byte>)
    ensures Told(|data|, [], Opened(data))
  {
  }

  /**
    What a session does, told by its completions alone. It takes those before
    the first one that is no success of what it awaits: a read that fits the
    buffer, then writes until the chunk is written. The bytes sent are the first
    of those that arrived, as many as its writes count. It has ended exactly
    when some completion was no success.
   */
  lemma EveryRunEchoes(data: seq<Byte>, script: seq<Completion>)
    ensures var st, taken := Run(Opened(data), script), Taken(|data|, script);
            && st.received == Chunks(taken)
            && Counts(taken) <= |Chunks(taken)| && st.sent == Chunks(taken)[..Counts(taken)]
            && (st.phase.Ended? <==> !Smooth(|data|, script))
            && (st.phase.Reading? <==> Smooth(|data|, script) && ReadIsNext(script))
            && (st.phase.Reading? ==> st.sent == st.received)
            && Echoing(st)
  {
    hide Smooth, Taken, Chunks, Counts;
    RunIsTold(data, script);
  }

  // ---------------------------------------------------------------------
  // Progress

  /** A chunk that fits, and the positive parts in which it is written. */
  datatype Exchange = Exchange(chunk: seq<Byte>, parts: seq<nat>)

  function Sum(parts: seq<nat>): nat {
    if parts == [] then 0 else Sum(parts[..|parts| - 1]) + parts[|parts| - 1]
  }

  predicate Fitting(size: nat, e: Exchange) {
    && 1 <= |e.chunk| <= size && Sum(e.parts) == |e.chunk|
    && forall k :: 0 <= k < |e.parts| ==> e.parts[k] > 0
  }

  function Writes(parts: seq<nat>): seq<Completion> {
    seq(|parts|, i requires 0 <= i < |parts| => Wrote(parts[i]))
  }

  function ScriptFor(exchanges: seq<Exchange>): seq<Completion> {
    if exchanges == [] then []
    else
      var e := exchanges[|exchanges| - 1];
      ScriptFor(exchanges[..|exchanges| - 1]) + [Data(e.chunk)] + Writes(e.parts)
  }

  function AllChunks(exchanges: seq<Exchange>): seq<Byte> {
    if exchanges == [] then []
    else AllChunks(exchanges[..|exchanges| - 1]) + exchanges[|exchanges| - 1].chunk
  }

  lemma {:induction false} SumOfMore(parts: seq<nat>, k: nat)
    requires k <= |parts| && forall j :: 0 <= j < |parts| ==> parts[j] > 0
    ensures Sum(parts[..k]) + (|parts| - k) <= Sum(parts)
  {
    if k < |parts| {
      var fewer := parts[..|parts| - 1];
      assert fewer[..k] == parts[..k];
      SumOfMore(fewer, k);
    } else {
      assert parts[..k] == parts;
    }
  }

  lemma SumOneMore(parts: seq<nat>, k: nat)
    requires k <= |parts|
    ensures Sum(parts[..0]) == 0
    ensures k < |parts| ==> Sum(parts[..k + 1]) == Sum(parts[..k]) + parts[k]
  {
    assert k < |parts| ==> parts[..k + 1][..k] == parts[..k];
  }

  lemma {:induction false} PartsAreSmooth(size: nat, before: seq<Completion>, e: Exchange, k: nat)
    requires Smooth(size, before) && ReadIsNext(before) && Counts(before) == |Chunks(before)|
    requires Fitting(size, e) && k <= |e.parts|
    ensures var script := before + [Data(e.chunk)] + Writes(e.parts[..k]);
            && Smooth(size, script) && Chunks(script) == Chunks(before) + e.chunk
            && Counts(script) == Counts(before) + Sum(e.parts[..k])
            && (ReadIsNext(script) <==> k == |e.parts|)
  {
    hide Smooth, Counts, Chunks, Taken, Sum;
    var first := before + [Data(e.chunk)];
    OneMore(size, before, Data(e.chunk));
    SumOfMore(e.parts, k);
    assert e.parts[..|e.parts|] == e.parts;
    if k == 0 {
      SumOneMore(e.parts, 0);
      assert first + Writes(e.parts[..0]) == first;
      assert first[|first| - 1].Data?;
    } else {
      var shorter := first + Writes(e.parts[..k - 1]);
      PartsAreSmooth(size, before, e, k - 1);
      SumOneMore(e.parts, k - 1);
      SumOfMore(e.parts, k - 1);
      OneMore(size, shorter, Wrote(e.parts[k - 1]));
      assert first + Writes(e.parts[..k]) == shorter + [Wrote(e.parts[k - 1])];
    }
  }

  lemma {:induction false} ExchangesAreSmooth(size: nat, exchanges: seq<Exchange>)
    requires forall k :: 0 <= k < |exchanges| ==> Fitting(size, exchanges[k])
    ensures var script := ScriptFor(exchanges);
            && Smooth(size, script) && ReadIsNext(script)
            && Chunks(script) == AllChunks(exchanges) && Counts(script) == |Chunks(script)|
  {
    if exchanges != [] {
      hide Smooth, Counts, Chunks, Sum;
      var others, e := exchanges[..|exchanges| - 1], exchanges[|exchanges| - 1];
      ExchangesAreSmooth(size, others);
      PartsAreSmooth(size, ScriptFor(others), e, |e.parts|);
      assert e.parts[..|e.parts|] == e.parts;
    }
  }

  /**
    Chunks that fit the buffer, each written in any positive parts, are all
    echoed, and the session reads on: a full buffer is as good as any other.
   */
  lemma FittingChunksAreEchoed(data: seq<Byte>, exchanges: seq<Exchange>)
    requires forall k :: 0 <= k < |exchanges| ==> Fitting(|data|, exchanges[k])
    ensures var st := Run(Opened(data), ScriptFor(exchanges));
            st.phase.Reading? && st.sent == st.received == AllChunks(exchanges)
  {
    hide Smooth, Counts, Chunks, ScriptFor;
    ExchangesAreSmooth(|data|, exchanges);
    EveryRunEchoes(data, ScriptFor(exchanges));
    SmoothIsTaken(|data|, ScriptFor(exchanges));
  }

  /** The completion that ended a session. */
  lemma {:induction false} LastCompletion(st: State, script: seq<Completion>) returns (k: nat)
    requires Fits(st) && !st.phase.Ended? && Run(st, script).phase.Ended?
    ensures k < |script| && !Run(st, script[..k]).phase.Ended?
    ensures Run(st, script) == Run(st, script[..k + 1]) == Step(Run(st, script[..k]), script[k])
  {
    hide Step;
    var before := script[..|script| - 1];
    if Run(st, before).phase.Ended? {
      k := LastCompletion(st, before);
      EndedIsFinal(st, script, |before|);
      assert before[..k] == script[..k] && before[..k + 1] == script[..k + 1];
    } else {
      k := |before|;
      assert script[..k + 1] == script;
    }
  }

  lemma EndingStep(st: State, c: Completion)
    requires Echoing(st) && !st.phase.Ended? && Step(st, c).phase.Ended?
    ensures Step(st, c) == st.(phase := Ended)
  {
  }

  /** The part of the last chunk that was still to be written. */
  function Unwritten(st: State): seq<Byte>
    requires Fits(st)
  {
    if st.phase.Writing? then st.data[st.phase.offset..st.phase.length] else []
  }

  /**
    A session that ended at a read, by an error or the end of the stream, has
    sent all that arrived. One that ended at a write has sent all but the bytes
    that were still to be written.
   */
  lemma EndedSessionsSent(data: seq<Byte>, script: seq<Completion>) returns (k: nat)
    requires Run(Opened(data), script).phase.Ended?
    ensures k < |script|
    ensures var last, st := Run(Opened(data), script[..k]), Run(Opened(data), script);
            && !last.phase.Ended? && st == last.(phase := Ended)
            && Arrived(|data|, script) == st.received == st.sent + Unwritten(last)
            && (last.phase.Reading? ==> st.sent == st.received)
            && (st.sent == st.received <==> last.phase.Reading? || last.phase.offset == last.phase.length)
  {
    hide Step, Run;
    k := LastCompletion(Opened(data), script);
    EveryRunEchoes(data, script);
    EveryRunEchoes(data, script[..k]);
    EndingStep(Run(Opened(data), script[..k]), script[k]);
  }

  /** Sessions differing only in what their buffers held before do the same. */
  predicate SameOutside(a: State, b: State) {
    && a.phase == b.phase && a.received == b.received && a.sent == b.sent && |a.data| == |b.data|
    && Fits(a)
    && (a.phase.Writing? ==> a.data[a.phase.offset..a.phase.length] == b.data[a.phase.offset..a.phase.length])
  }

  /** Buffers that agree on `[i..l]` agree on every part of it. */
  lemma SameSlices(a: seq<Byte>, b: seq<Byte>, i: nat, j: nat, k: nat, l: nat)
    requires i <= j <= k <= l <= |a| && l <= |b| && a[i..l] == b[i..l]
    ensures a[j..k] == b[j..k]
  {
    forall m | j <= m < k ensures a[m] == b[m] {
      assert a[m] == a[i..l][m - i] && b[m] == b[i..l][m - i];
    }
    assert a[j..k] == b[j..k];
  }

  lemma StepsAreSameOutside(a: State, b: State, c: Completion)
    requires SameOutside(a, b)
    ensures SameOutside(Step(a, c), Step(b, c))
  {
    match a.phase
    case Reading =>
    case Writing(offset, length) =>
      var r := WriteResult(c, length - offset);
      if r.Some? {
        SameSlices(a.data, b.data, offset, offset, offset + r.value, length);
        SameSlices(a.data, b.data, offset, offset + r.value, length, length);
      }
    case Ended =>
  }

  /** The earlier content of the buffer never shows. */
  lemma {:induction false} BufferContentDoesNotShow(a: seq<Byte>, b: seq<Byte>, script: seq<Completion>)
    requires |a| == |b|
    ensures SameOutside(Run(Opened(a), script), Run(Opened(b), script))
  {
    if script != [] {
      var before := script[..|script| - 1];
      BufferContentDoesNotShow(a, b, before);
      StepsAreSameOutside(Run(Opened(a), before), Run(Opened(b), before), script[|script| - 1]);
    }
  }
}
