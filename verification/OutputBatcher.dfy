/** The output batcher of the agent stream, and the log row its chunks are appended to.

    When ticks come, what each read yields, when the context is cancelled, whether an append succeeds
    and whether a send is dropped are inputs. */
module OutputBatcher {
  import opened Basics

  newtype Byte = x: int | 0 <= x < 256

  type Bytes = seq<Byte>

  const NUL: Byte := 0
  const LF: Byte := 10
  const READ_MAX := 4096

  // ----- the log row

  /** The bytes the database accepts. */
  function Sanitize(s: Bytes): (r: Bytes)
    ensures NUL !in r && |r| <= |s|
    ensures NUL !in s ==> r == s
  {
    if s == [] then []
    else if s[0] == NUL then Sanitize(s[1..])
    else
      assert s == [s[0]] + s[1..];
      [s[0]] + Sanitize(s[1..])
  }

  lemma {:induction false} SanitizeConcat(a: Bytes, b: Bytes)
    ensures Sanitize(a + b) == Sanitize(a) + Sanitize(b)
  {
    if a == [] {
      assert a + b == b;
    } else {
      assert (a + b)[1..] == a[1..] + b;
      SanitizeConcat(a[1..], b);
    }
  }

  function Content(row: Option<Bytes>): Bytes {
    if row.Some? then row.value else []
  }

  class StageLog {
    var row: Option<Bytes>

    constructor ()
      ensures row == None
    {
      row := None;
    }

    /** Replaces the content; a failed statement changes nothing. */
    method Save(content: Bytes, works: bool)
      modifies this
      ensures row == if works then Some(Sanitize(content)) else old(row)
    {
      if works {
        row := Some(Sanitize(content));
      }
    }

    /** Adds to the content, or creates the row; a failed statement changes nothing. */
    method Append(content: Bytes, works: bool) returns (ok: bool)
      modifies this
      ensures ok == works
      ensures row == if works then Some(Content(old(row)) + Sanitize(content)) else old(row)
    {
      ok := works;
      if works {
        row := Some(Content(row) + Sanitize(content));
      }
    }
  }

  // ----- the stream

  datatype ReadEnd = More | Eof | Broken

  datatype Event = Cancelled | Tick | Read(data: Bytes, end: ReadEnd)

  datatype Stop = AtEof | AtError | AtCancel

  /** The threshold of the size trigger. */
  function EffectiveFlushBytes(configured: int): (r: nat)
    ensures r > 0 && r == if configured > 0 then configured else 8192
  {
    if configured <= 0 then 8192 else configured
  }

  predicate Stops(e: Event) {
    e.Cancelled? || (e.Read? && e.end != More)
  }

  predicate Fits(schedule: seq<Event>) {
    forall i | 0 <= i < |schedule| :: schedule[i].Read? ==> |schedule[i].data| <= READ_MAX
  }

  function DataOf(e: Event): Bytes {
    if e.Read? then e.data else []
  }

  function BytesRead(events: seq<Event>): Bytes {
    if events == [] then [] else BytesRead(events[..|events| - 1]) + DataOf(events[|events| - 1])
  }

  function Flat(chunks: seq<Bytes>): Bytes {
    if chunks == [] then [] else Flat(chunks[..|chunks| - 1]) + chunks[|chunks| - 1]
  }

  /** What follows the last newline. */
  function Tail(s: Bytes): (r: Bytes)
    ensures LF !in r && |r| <= |s|
    ensures r == s[|s| - |r|..] && (|r| < |s| ==> s[|s| - |r| - 1] == LF)
  {
    if s == [] || s[|s| - 1] == LF then []
    else
      Tail(s[..|s| - 1]) + [s[|s| - 1]]
  }

  /** The tail of a text is fixed by being newline-free and following a newline. */
  lemma {:induction false} TailAfterNewline(front: Bytes, rest: Bytes)
    requires front != [] && front[|front| - 1] == LF && LF !in rest
    ensures Tail(front + rest) == rest
  {
    hide Tail;
    if rest == [] {
      assert front + rest == front;
      TailOfLine(front);
    } else {
      var n := |rest| - 1;
      var most, last := rest[..n], rest[n];
      assert rest == most + [last];
      TailAfterNewline(front, most);
      TailSnoc(front + most, last);
      assert front + (most + [last]) == (front + most) + [last];
    }
  }

  lemma TailOfLine(s: Bytes)
    requires s != [] && s[|s| - 1] == LF
    ensures Tail(s) == []
  {
  }

  lemma TailSnoc(s: Bytes, c: Byte)
    requires c != LF
    ensures Tail(s + [c]) == Tail(s) + [c]
  {
    assert (s + [c])[..|s|] == s;
  }

  // ----- what is pending, and what the returned buffer holds

  /** What an event leaves unflushed: what follows the last newline, unless the size or a tick flushes it. */
  function Keep(before: Bytes, e: Event, limit: nat): Bytes {
    match e
    case Cancelled => before
    case Tick => []
    case Read(data, _) => if |Tail(before + data)| >= limit then [] else Tail(before + data)
  }

  /** The bytes read but not flushed after the events. */
  function Pending(events: seq<Event>, limit: nat): Bytes {
    if events == [] then []
    else Keep(Pending(events[..|events| - 1], limit), events[|events| - 1], limit)
  }

  /** Between events nothing pending holds a newline or reaches the threshold. */
  lemma {:induction false} PendingStaysSmall(events: seq<Event>, limit: nat)
    requires limit > 0
    ensures LF !in Pending(events, limit) && |Pending(events, limit)| < limit
  {
    if events != [] {
      PendingStaysSmall(events[..|events| - 1], limit);
    }
  }

  /** The bytes that ticks flush: they are written into the returned buffer a second time. */
  function Repeated(events: seq<Event>, limit: nat): Bytes {
    if events == [] then []
    else
      var front, e := events[..|events| - 1], events[|events| - 1];
      Repeated(front, limit) + if e.Tick? then Pending(front, limit) else []
  }

  /** The returned buffer: the bytes in the order they are written to it. */
  function Buffer(events: seq<Event>, limit: nat): Bytes {
    if events == [] then []
    else
      var front, e := events[..|events| - 1], events[|events| - 1];
      Buffer(front, limit) + if e.Tick? then Pending(front, limit) else DataOf(e)
  }

  /** The returned buffer exceeds the bytes read by exactly the bytes that ticks flushed. */
  lemma {:induction false} BufferExcess(events: seq<Event>, limit: nat)
    ensures |Buffer(events, limit)| == |BytesRead(events)| + |Repeated(events, limit)|
    ensures multiset(Buffer(events, limit)) == multiset(BytesRead(events)) + multiset(Repeated(events, limit))
    ensures Repeated(events, limit) == [] ==> Buffer(events, limit) == BytesRead(events)
  {
    if events != [] {
      BufferExcess(events[..|events| - 1], limit);
    }
  }

  /** Tick i, if it is one, finds nothing pending. */
  ghost predicate QuietAt(events: seq<Event>, limit: nat, i: nat)
    requires i < |events|
  {
    events[i].Tick? ==> Pending(events[..i], limit) == []
  }

  ghost predicate TicksFindNothing(events: seq<Event>, limit: nat) {
    forall i :: 0 <= i < |events| ==> QuietAt(events, limit, i)
  }

  lemma QuietFront(events: seq<Event>, limit: nat, n: nat)
    requires n + 1 == |events|
    ensures TicksFindNothing(events, limit) <==> TicksFindNothing(events[..n], limit) && QuietAt(events, limit, n)
  {
    hide Pending;
    assert forall i :: 0 <= i < n ==> events[..n][i] == events[i] && events[..n][..i] == events[..i];
    assert forall i :: 0 <= i < n ==> (QuietAt(events, limit, i) <==> QuietAt(events[..n], limit, i));
  }

  lemma {:induction false} NothingRepeated(events: seq<Event>, limit: nat)
    ensures Repeated(events, limit) == [] <==> TicksFindNothing(events, limit)
  {
    hide TicksFindNothing, Pending;
    if events == [] {
      NoTicks(limit);
    } else {
      QuietFront(events, limit, |events| - 1);
      NothingRepeated(events[..|events| - 1], limit);
    }
  }

  lemma NoTicks(limit: nat)
    ensures TicksFindNothing([], limit)
  {
  }

  /** The returned buffer is the bytes read exactly when no tick finds pending bytes. */
  lemma BufferIsInput(events: seq<Event>, limit: nat)
    ensures Buffer(events, limit) == BytesRead(events) <==> TicksFindNothing(events, limit)
  {
    hide TicksFindNothing;
    BufferExcess(events, limit);
    NothingRepeated(events, limit);
  }

  lemma Extend(front: seq<Event>, e: Event, limit: nat)
    ensures BytesRead(front + [e]) == BytesRead(front) + DataOf(e)
    ensures Buffer(front + [e], limit) == Buffer(front, limit) + if e.Tick? then Pending(front, limit) else DataOf(e)
    ensures Pending(front + [e], limit) == Keep(Pending(front, limit), e, limit)
  {
    assert (front + [e])[..|front|] == front;
  }

  /** A newline-free text, read in one piece and then caught by a tick, is returned twice. */
  lemma TickRepeats(s: Bytes, limit: nat)
    requires LF !in s && |s| < limit
    ensures var events := [Read(s, More), Tick];
            BytesRead(events) == s && Buffer(events, limit) == s + s
  {
    hide Buffer, BytesRead, Pending, Tail;
    var e0, e1 := Read(s, More), Tick;
    var none: seq<Event> := [];
    assert none + [e0] == [e0] && [e0] + [e1] == [e0, e1];
    EmptyStart(limit);
    Extend(none, e0, limit);
    Extend([e0], e1, limit);
    assert [] + s == s;
  }

  lemma EmptyStart(limit: nat)
    ensures BytesRead([]) == [] && Buffer([], limit) == [] && Pending([], limit) == []
  {
  }

  // ----- chunks

  /** A chunk is not empty, holds a newline only as its last byte, and is bounded. */
  ghost predicate WellCut(c: Bytes, limit: nat) {
    c != [] && |c| < limit + READ_MAX && forall i :: 0 <= i < |c| - 1 ==> c[i] != LF
  }

  ghost predicate AllWellCut(chunks: seq<Bytes>, limit: nat) {
    forall i :: 0 <= i < |chunks| ==> WellCut(chunks[i], limit)
  }

  lemma WellCutSnoc(chunks: seq<Bytes>, c: Bytes, limit: nat)
    requires AllWellCut(chunks, limit) && WellCut(c, limit)
    ensures AllWellCut(chunks + [c], limit)
  {
  }

  /** The chunks that pass, by position, one after another. */
  function Chosen(chunks: seq<Bytes>, passes: nat -> bool): Bytes {
    if chunks == [] then []
    else
      var n := |chunks| - 1;
      Chosen(chunks[..n], passes) + if passes(n) then chunks[n] else []
  }

  lemma {:induction false} AllChosen(chunks: seq<Bytes>, passes: nat -> bool)
    requires forall i: nat :: i < |chunks| ==> passes(i)
    ensures Chosen(chunks, passes) == Flat(chunks)
  {
    if chunks != [] {
      AllChosen(chunks[..|chunks| - 1], passes);
    }
  }

  lemma ChosenSnoc(chunks: seq<Bytes>, c: Bytes, passes: nat -> bool)
    ensures Chosen(chunks + [c], passes) == Chosen(chunks, passes) + if passes(|chunks|) then c else []
  {
    assert (chunks + [c])[..|chunks|] == chunks;
  }

  /** How the append of each chunk, its retry, and its send turn out. */
  datatype Sinks = Sinks(first: nat -> bool, retry: nat -> bool, sends: nat -> bool) {
    function Stores(): nat -> bool {
      (i: nat) => first(i) || retry(i)
    }
  }

  /** The row holds what it held before, and then every chunk stored. */
  ghost predicate Logged(before: Option<Bytes>, row: Option<Bytes>, chunks: seq<Bytes>, sinks: Sinks) {
    Content(row) == Content(before) + Sanitize(Chosen(chunks, sinks.Stores())) && (before.Some? ==> row.Some?)
  }

  lemma LoggedSnoc(before: Option<Bytes>, row: Option<Bytes>, chunks: seq<Bytes>, sinks: Sinks, c: Bytes)
    requires Logged(before, row, chunks, sinks)
    ensures Logged(before, if sinks.Stores()(|chunks|) then Some(Content(row) + Sanitize(c)) else row, chunks + [c], sinks)
  {
    hide Chosen, Sanitize;
    ChosenSnoc(chunks, c, sinks.Stores());
    var had := Chosen(chunks, sinks.Stores());
    SanitizeConcat(had, c);
    assert had + [] == had;
    assert Content(before) + (Sanitize(had) + Sanitize(c)) == Content(before) + Sanitize(had) + Sanitize(c);
  }

  // ----- the batcher

  /** What the batcher has done so far with its chunks. */
  ghost predicate Handled(before: Option<Bytes>, row: Option<Bytes>, chunks: seq<Bytes>, sent: Bytes, sinks: Sinks, limit: nat) {
    Logged(before, row, chunks, sinks) && sent == Chosen(chunks, sinks.sends) && AllWellCut(chunks, limit)
  }

  /** Appends the chunk to the row, twice if need be, and then sends it. */
  method Flush(log: StageLog, ghost before: Option<Bytes>, chunks: seq<Bytes>, sent: Bytes, sinks: Sinks, ghost limit: nat, chunk: Bytes)
    returns (chunks': seq<Bytes>, sent': Bytes)
    requires Handled(before, log.row, chunks, sent, sinks, limit) && WellCut(chunk, limit)
    modifies log
    ensures Handled(before, log.row, chunks', sent', sinks, limit)
    ensures chunks' == chunks + [chunk] && Flat(chunks') == Flat(chunks) + chunk
  {
    LoggedSnoc(before, log.row, chunks, sinks, chunk);
    ChosenSnoc(chunks, chunk, sinks.sends);
    WellCutSnoc(chunks, chunk, limit);
    hide Chosen, Flat, Sanitize, AllWellCut, WellCut;
    var ok := log.Append(chunk, sinks.first(|chunks|));
    if !ok {
      ok := log.Append(chunk, sinks.retry(|chunks|));
    }
    chunks' := chunks + [chunk];
    sent' := if sinks.sends(|chunks|) then sent + chunk else sent;
  }

  /** Walks the bytes of one read: every newline flushes the line it ends, then the size may flush the rest. */
  method TakeData(log: StageLog, ghost before: Option<Bytes>, chunks: seq<Bytes>, sent: Bytes, sinks: Sinks, limit: nat,
                  held: Bytes, data: Bytes)
    returns (chunks': seq<Bytes>, sent': Bytes, pending: Bytes)
    requires Handled(before, log.row, chunks, sent, sinks, limit)
    requires LF !in held && |held| < limit && |data| <= READ_MAX
    modifies log
    ensures Handled(before, log.row, chunks', sent', sinks, limit)
    ensures Flat(chunks') + pending == Flat(chunks) + held + data
    ensures forall end :: pending == Keep(held, Read(data, end), limit)
    ensures LF !in pending && |pending| < limit
  {
    hide Handled, Flat, Tail;
    chunks', sent', pending := chunks, sent, held;
    var start := 0;
    assert data[..0] == [] && held + data[..0] == held;
    for i := 0 to |data|
      invariant 0 <= start <= i
      invariant Handled(before, log.row, chunks', sent', sinks, limit)
      invariant Flat(chunks') + pending == Flat(chunks) + held + data[..start]
      invariant LF !in data[start..i] && LF !in pending
      invariant if start == 0 then pending == held else pending == [] && data[start - 1] == LF
    {
      if data[i] == LF {
        CutLine(pending, data, start, i, limit);
        Regroup(Flat(chunks'), pending, Flat(chunks) + held, data, start, i + 1);
        pending := pending + data[start..i + 1];
        chunks', sent' := Flush(log, before, chunks', sent', sinks, limit, pending);
        start := i + 1;
        pending := [];
      }
    }
    Regroup(Flat(chunks'), pending, Flat(chunks) + held, data, start, |data|);
    WhatIsLeft(held, data, start, pending);
    assert data[start..|data|] == data[start..] && data[..|data|] == data;
    pending := pending + data[start..];
    if |pending| >= limit {
      assert WellCut(pending, limit);
      chunks', sent' := Flush(log, before, chunks', sent', sinks, limit, pending);
      pending := [];
    }
  }

  lemma Regroup(flat: Bytes, pending: Bytes, front: Bytes, data: Bytes, start: nat, end: nat)
    requires start <= end <= |data| && flat + pending == front + data[..start]
    ensures flat + (pending + data[start..end]) == front + data[..end]
  {
    assert flat + (pending + data[start..end]) == (flat + pending) + data[start..end];
    assert data[..end] == data[..start] + data[start..end];
  }

  lemma CutLine(pending: Bytes, data: Bytes, start: nat, i: nat, limit: nat)
    requires start <= i < |data| <= READ_MAX && LF !in pending && LF !in data[start..i] && data[i] == LF
    requires |pending| < limit
    ensures WellCut(pending + data[start..i + 1], limit)
  {
    var c := pending + data[start..i + 1];
    forall k | 0 <= k < |c| - 1
      ensures c[k] != LF
    {
      if k < |pending| {
        assert c[k] in pending;
      } else {
        assert c[k] == data[start..i][k - |pending|];
      }
    }
  }

  lemma WhatIsLeft(held: Bytes, data: Bytes, start: nat, pending: Bytes)
    requires LF !in held && start <= |data| && LF !in data[start..]
    requires if start == 0 then pending == held else pending == [] && data[start - 1] == LF
    ensures Tail(held + data) == pending + data[start..]
  {
    hide Tail;
    if start == 0 {
      assert data[0..] == data;
    } else {
      TailFrom(held, data, start);
      assert [] + data[start..] == data[start..];
    }
  }

  lemma TailFrom(held: Bytes, data: Bytes, start: nat)
    requires 0 < start <= |data| && data[start - 1] == LF && LF !in data[start..]
    ensures Tail(held + data) == data[start..]
  {
    hide Tail;
    var front := held + data[..start];
    assert front[|front| - 1] == data[start - 1];
    TailAfterNewline(front, data[start..]);
    assert held + data == front + data[start..];
  }

  /** The events up to the first that stops the batcher, inclusive. */
  function Until(schedule: seq<Event>): (r: seq<Event>)
    ensures (exists i :: 0 <= i < |schedule| && Stops(schedule[i])) ==> r != [] && Stops(r[|r| - 1])
    ensures forall i :: 0 <= i < |r| - 1 ==> !Stops(r[i])
  {
    if schedule == [] then []
    else if Stops(schedule[0]) then [schedule[0]]
    else [schedule[0]] + Until(schedule[1..])
  }

  lemma {:induction false} UntilFirst(schedule: seq<Event>, k: nat)
    requires k < |schedule| && Stops(schedule[k]) && forall i :: 0 <= i < k ==> !Stops(schedule[i])
    ensures Until(schedule) == schedule[..k + 1]
  {
    if k == 0 {
      assert schedule[..1] == [schedule[0]];
    } else {
      UntilFirst(schedule[1..], k - 1);
      assert schedule[..k + 1] == [schedule[0]] + schedule[1..][..k];
    }
  }

  /** The batcher has taken the events: nothing is lost, nothing is reordered, and little is held back. */
  ghost predicate Took(events: seq<Event>, limit: nat, chunks: seq<Bytes>, pending: Bytes, buffer: Bytes) {
    && Flat(chunks) + pending == BytesRead(events)
    && pending == Pending(events, limit)
    && buffer == Buffer(events, limit)
    && LF !in pending && |pending| < limit
  }

  lemma HandledNothing(row: Option<Bytes>, sinks: Sinks, limit: nat)
    ensures Handled(row, row, [], [], sinks, limit)
  {
  }

  /** How the batcher ended. */
  function StopOf(events: seq<Event>): Stop
    requires events != [] && Stops(events[|events| - 1])
  {
    match events[|events| - 1]
    case Cancelled => AtCancel
    case Read(_, end) => if end == Eof then AtEof else AtError
  }

  /** The first event that stops the batcher decides how it ends. */
  lemma StopsBecause(schedule: seq<Event>, k: nat)
    requires k < |schedule| && Stops(schedule[k]) && forall i :: 0 <= i < k ==> !Stops(schedule[i])
    ensures var stop := StopOf(Until(schedule));
            && (stop == AtCancel <==> schedule[k].Cancelled?)
            && (stop == AtEof <==> schedule[k].Read? && schedule[k].end == Eof)
            && (stop == AtError <==> schedule[k].Read? && schedule[k].end == Broken)
  {
    hide Until;
    UntilFirst(schedule, k);
  }

  lemma TookAll(events: seq<Event>, limit: nat, chunks: seq<Bytes>, pending: Bytes, buffer: Bytes, chunks': seq<Bytes>)
    requires Took(events, limit, chunks, pending, buffer) && Flat(chunks') == Flat(chunks) + pending
    ensures Flat(chunks') == BytesRead(events) && buffer == Buffer(events, limit)
  {
  }

  lemma HandledAll(before: Option<Bytes>, row: Option<Bytes>, chunks: seq<Bytes>, sent: Bytes, sinks: Sinks, limit: nat)
    requires Handled(before, row, chunks, sent, sinks, limit)
    ensures Logged(before, row, chunks, sinks) && sent == Chosen(chunks, sinks.sends) && AllWellCut(chunks, limit)
  {
  }

  lemma TookNothing(limit: nat)
    requires limit > 0
    ensures Took([], limit, [], [], [])
  {
  }

  lemma TookTick(events: seq<Event>, limit: nat, chunks: seq<Bytes>, pending: Bytes, buffer: Bytes, chunks': seq<Bytes>)
    requires Took(events, limit, chunks, pending, buffer) && Flat(chunks') == Flat(chunks) + pending
    ensures Took(events + [Tick], limit, chunks', [], buffer + pending)
  {
    Extend(events, Tick, limit);
  }

  lemma TookRead(events: seq<Event>, limit: nat, chunks: seq<Bytes>, pending: Bytes, buffer: Bytes,
                 data: Bytes, end: ReadEnd, chunks': seq<Bytes>, pending': Bytes)
    requires Took(events, limit, chunks, pending, buffer)
    requires Flat(chunks') + pending' == Flat(chunks) + pending + data
    requires pending' == Keep(pending, Read(data, end), limit) && LF !in pending' && |pending'| < limit
    ensures Took(events + [Read(data, end)], limit, chunks', pending', buffer + data)
  {
    hide Flat, Tail;
    Extend(events, Read(data, end), limit);
  }

  lemma TookCancel(events: seq<Event>, limit: nat, chunks: seq<Bytes>, pending: Bytes, buffer: Bytes)
    requires Took(events, limit, chunks, pending, buffer)
    ensures Took(events + [Cancelled], limit, chunks, pending, buffer)
  {
    Extend(events, Cancelled, limit);
  }

  /** A newline-free, bounded remainder can be flushed. */
  lemma PendingIsWellCut(pending: Bytes, limit: nat)
    requires LF !in pending && |pending| < limit && pending != []
    ensures WellCut(pending, limit)
  {
    assert forall i :: 0 <= i < |pending| ==> pending[i] in pending;
  }

  /** Reads until the end of the stream, an error or the cancellation; hands on every byte read, and
      holds nothing back when it returns. */
  method StreamOutput(schedule: seq<Event>, configured: int, log: StageLog, sinks: Sinks)
    returns (buffer: Bytes, stop: Stop, chunks: seq<Bytes>, sent: Bytes)
    requires Fits(schedule) && exists i :: 0 <= i < |schedule| && Stops(schedule[i])
    modifies log
    ensures Flat(chunks) == BytesRead(Until(schedule))
    ensures AllWellCut(chunks, EffectiveFlushBytes(configured))
    ensures buffer == Buffer(Until(schedule), EffectiveFlushBytes(configured))
    ensures sent == Chosen(chunks, sinks.sends)
    ensures Logged(old(log.row), log.row, chunks, sinks)
    ensures stop == StopOf(Until(schedule))
  {
    hide Took, Handled, Flat, BytesRead, Buffer, Pending, Chosen, AllWellCut, Until, Keep;
    ghost var before := log.row;
    var limit := EffectiveFlushBytes(configured);
    buffer, chunks, sent := [], [], [];
    var pending: Bytes := [];
    TookNothing(limit);
    HandledNothing(log.row, sinks, limit);
    ghost var end :| 0 <= end < |schedule| && Stops(schedule[end]);
    var k := 0;
    var done := false;
    while !done
      invariant k <= end + (if done then 1 else 0)
      invariant done ==> 0 < k && Stops(schedule[k - 1])
      invariant forall i :: 0 <= i < k - (if done then 1 else 0) ==> !Stops(schedule[i])
      invariant Took(schedule[..k], limit, chunks, pending, buffer)
      invariant Handled(before, log.row, chunks, sent, sinks, limit)
      invariant LF !in pending && |pending| < limit
      decreases !done, end - k
    {
      var e := schedule[k];
      assert schedule[..k + 1] == schedule[..k] + [e];
      match e {
        case Cancelled =>
          TookCancel(schedule[..k], limit, chunks, pending, buffer);
          done := true;
        case Tick =>
          ghost var was := chunks;
          if pending != [] {
            PendingIsWellCut(pending, limit);
            chunks, sent := Flush(log, before, chunks, sent, sinks, limit, pending);
          }
          assert Flat(chunks) == Flat(was) + pending;
          TookTick(schedule[..k], limit, was, pending, buffer, chunks);
          buffer, pending := buffer + pending, [];
        case Read(data, readEnd) =>
          ghost var was, held := chunks, pending;
          chunks, sent, pending := TakeData(log, before, chunks, sent, sinks, limit, pending, data);
          TookRead(schedule[..k], limit, was, held, buffer, data, readEnd, chunks, pending);
          buffer := buffer + data;
          done := readEnd != More;
      }
      k := k + 1;
    }
    UntilFirst(schedule, k - 1);
    stop := match schedule[k - 1] case Cancelled => AtCancel case Read(_, readEnd) => if readEnd == Eof then AtEof else AtError;
    ghost var was := chunks;
    if pending != [] {
      PendingIsWellCut(pending, limit);
      chunks, sent := Flush(log, before, chunks, sent, sinks, limit, pending);
    }
    assert Flat(chunks) == Flat(was) + pending;
    TookAll(schedule[..k], limit, was, pending, buffer, chunks);
    HandledAll(before, log.row, chunks, sent, sinks, limit);
  }

  /** With a row that was reset, and no chunk lost on the way to it, the row ends as one save of the
      whole stream would leave it: the sanitized bytes read. */
  lemma AppendsRefineOneSave(before: Option<Bytes>, row: Option<Bytes>, chunks: seq<Bytes>, sinks: Sinks, read: Bytes)
    requires Logged(before, row, chunks, sinks) && Flat(chunks) == read && before == Some([])
    requires forall i: nat :: i < |chunks| ==> sinks.first(i) || sinks.retry(i)
    ensures row == Some(Sanitize(read))
  {
    hide Chosen, Flat, Sanitize;
    assert forall i: nat :: i < |chunks| ==> sinks.Stores()(i);
    AllChosen(chunks, sinks.Stores());
    assert [] + Sanitize(read) == Sanitize(read);
  }

  /** A reset of the row, the whole stream in chunks, and the row equals what one save would store. */
  method StreamAfterReset(schedule: seq<Event>, configured: int, log: StageLog, sinks: Sinks)
    returns (buffer: Bytes, stop: Stop)
    requires Fits(schedule) && exists i :: 0 <= i < |schedule| && Stops(schedule[i])
    requires forall i: nat :: sinks.first(i) || sinks.retry(i)
    modifies log
    ensures log.row == Some(Sanitize(BytesRead(Until(schedule))))
  {
    log.Save([], true);
    var chunks, sent;
    buffer, stop, chunks, sent := StreamOutput(schedule, configured, log, sinks);
    AppendsRefineOneSave(Some([]), log.row, chunks, sinks, BytesRead(Until(schedule)));
  }
}
