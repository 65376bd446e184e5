/** Process output in batched `Progress` signals. */
module Streaming {
  import opened Splitting

  const BATCH_MAX_LINES := 200

  type Line = string

  datatype Signal = Progress(lines: seq<Line>) | Finished(code: int)

  /** One stream between callbacks. `timer` is the pending flush timeout's id, or 0;
      `armed` is what the main loop really has scheduled for this stream; `signals`
      is everything emitted so far. */
  datatype Stream = Stream(
    buf: seq<Line>, timer: nat, armed: set<nat>, partial: Line, signals: seq<Signal>)

  function Fresh(signals: seq<Signal>): Stream {
    Stream([], 0, {}, "", signals)
  }

  // --- What each callback does, as a function of the state it finds ---

  /** `lines` cut into batches of exactly 200, and what is left over. */
  function FullBatches(lines: seq<Line>): seq<Signal> {
    if |lines| < BATCH_MAX_LINES then []
    else [Progress(lines[..BATCH_MAX_LINES])] + FullBatches(lines[BATCH_MAX_LINES..])
  }

  function Leftover(lines: seq<Line>): (rest: seq<Line>)
    ensures |rest| < BATCH_MAX_LINES
  {
    if |lines| < BATCH_MAX_LINES then lines else Leftover(lines[BATCH_MAX_LINES..])
  }

  function NonEmptyBatch(lines: seq<Line>): seq<Signal> {
    if lines == [] then [] else [Progress(lines)]
  }

  /** A chunk arrives: full batches leave at once; a timer runs while lines wait.
      `id` is the id the main loop would hand out for a new timeout. */
  function AfterChunk(s: Stream, data: string, id: nat): Stream {
    var pieces := Split(s.partial + data, '\n');
    var waiting := s.buf + Front(pieces);
    var rest := Leftover(waiting);
    var timer :=
      if rest == [] then 0
      else if |waiting| < BATCH_MAX_LINES && s.timer != 0 then s.timer
      else id;
    Stream(rest, timer, if timer == 0 then {} else {timer}, Last(pieces),
           s.signals + FullBatches(waiting))
  }

  /** The flush timeout `id` fires: one-shot, everything waiting leaves. */
  function AfterTimer(s: Stream, id: nat): Stream {
    Stream([], 0, s.armed - {id}, s.partial, s.signals + NonEmptyBatch(s.buf))
  }

  /** End of output: an unterminated last line still counts; nothing stays behind. */
  function AfterEof(s: Stream): Stream {
    var waiting := if s.partial == "" then s.buf else s.buf + [s.partial];
    Stream([], 0, s.armed - {s.timer}, "", s.signals + NonEmptyBatch(waiting))
  }

  // --- Whole runs ---

  datatype Event = Chunk(data: string, id: nat) | Fire(id: nat)

  /** The environment may deliver any non-empty chunk, and may fire only a timeout
      that is really scheduled; a new timeout gets an unused non-zero id. */
  predicate Enabled(s: Stream, e: Event) {
    match e
    case Chunk(data, id) => data != "" && id != 0 && id !in s.armed
    case Fire(id) => id in s.armed
  }

  function After(s: Stream, e: Event): Stream {
    match e
    case Chunk(data, id) => AfterChunk(s, data, id)
    case Fire(id) => AfterTimer(s, id)
  }

  predicate Runnable(s: Stream, events: seq<Event>)
    decreases events
  {
    events == [] || (Enabled(s, events[0]) && Runnable(After(s, events[0]), events[1..]))
  }

  function Run(s: Stream, events: seq<Event>): Stream
    requires Runnable(s, events)
    decreases events
  {
    if events == [] then s else Run(After(s, events[0]), events[1..])
  }

  /** All output bytes a run delivered. */
  function Fed(events: seq<Event>): string {
    if events == [] then ""
    else (if events[0].Chunk? then events[0].data else "") + Fed(events[1..])
  }

  /** The lines a subscriber has seen, in order. */
  function LinesSent(signals: seq<Signal>): seq<Line> {
    if signals == [] then []
    else (if signals[0].Progress? then signals[0].lines else []) + LinesSent(signals[1..])
  }

  predicate BatchSized(signals: seq<Signal>) {
    forall i :: 0 <= i < |signals| && signals[i].Progress? ==>
      1 <= |signals[i].lines| <= 200
  }

  predicate AllProgress(signals: seq<Signal>) {
    forall i :: 0 <= i < |signals| ==> signals[i].Progress?
  }

  // --- The conservation invariant ---

  predicate TimerMatchesBuffer(s: Stream) {
    && |s.buf| < BATCH_MAX_LINES
    && (s.timer != 0 <==> s.buf != [])
    && s.armed == (if s.timer == 0 then {} else {s.timer})
  }

  /** Nothing lost, nothing invented: the lines already sent on this trace before
      the stream began (`base`) followed by the pieces of the output `fed` so far. */
  predicate Conserves(s: Stream, base: seq<Line>, fed: string) {
    && LinesSent(s.signals) + s.buf + [s.partial] == base + Split(fed, '\n')
    && '\n' !in s.partial
  }

  predicate Inv(s: Stream, base: seq<Line>, fed: string) {
    TimerMatchesBuffer(s) && Conserves(s, base, fed) && BatchSized(s.signals)
  }

  lemma {:induction false} LinesSentAppend(a: seq<Signal>, b: seq<Signal>)
    ensures LinesSent(a + b) == LinesSent(a) + LinesSent(b)
  {
    if a == [] {
      assert a + b == b;
    } else {
      assert (a + b)[1..] == a[1..] + b;
      LinesSentAppend(a[1..], b);
    }
  }

  lemma NonEmptyBatchLines(lines: seq<Line>)
    ensures LinesSent(NonEmptyBatch(lines)) == lines
  {
    if lines != [] {
      assert [Progress(lines)][1..] == [];
    }
  }

  /** The batches and the leftover are the lines, and each batch is full. */
  lemma {:induction false} BatchesPartition(lines: seq<Line>)
    ensures LinesSent(FullBatches(lines)) + Leftover(lines) == lines
    ensures BatchSized(FullBatches(lines))
    ensures forall i :: 0 <= i < |FullBatches(lines)| ==> FullBatches(lines)[i].Progress?
  {
    if |lines| >= BATCH_MAX_LINES {
      var tail := lines[BATCH_MAX_LINES..];
      BatchesPartition(tail);
      var first := [Progress(lines[..BATCH_MAX_LINES])];
      LinesSentAppend(first, FullBatches(tail));
      assert first[1..] == [];
      assert lines[..BATCH_MAX_LINES] + tail == lines;
    }
  }

  /** Queuing one more line sends a batch exactly when it is the 200th waiting. */
  lemma {:induction false} BatchesPush(lines: seq<Line>, line: Line)
    ensures var rest := Leftover(lines) + [line];
            if |rest| == BATCH_MAX_LINES
            then FullBatches(lines + [line]) == FullBatches(lines) + [Progress(rest)]
                 && Leftover(lines + [line]) == []
            else FullBatches(lines + [line]) == FullBatches(lines)
                 && Leftover(lines + [line]) == rest
  {
    if |lines| < BATCH_MAX_LINES {
      if |lines| + 1 == BATCH_MAX_LINES {
        assert (lines + [line])[..BATCH_MAX_LINES] == lines + [line];
        assert (lines + [line])[BATCH_MAX_LINES..] == [];
      }
    } else {
      assert (lines + [line])[BATCH_MAX_LINES..] == lines[BATCH_MAX_LINES..] + [line];
      assert (lines + [line])[..BATCH_MAX_LINES] == lines[..BATCH_MAX_LINES];
      BatchesPush(lines[BATCH_MAX_LINES..], line);
    }
  }

  /** The pieces so far end in the unfinished line; everything before it was queued. */
  lemma QueuedSoFar(s: Stream, base: seq<Line>, fed: string)
    requires Conserves(s, base, fed)
    ensures Last(Split(fed, '\n')) == s.partial
    ensures LinesSent(s.signals) + s.buf == base + Front(Split(fed, '\n'))
  {
    var queued, pieces := LinesSent(s.signals) + s.buf, Split(fed, '\n');
    assert Last(queued + [s.partial]) == Last(base + pieces);
    assert Front(queued + [s.partial]) == Front(base + pieces);
    assert Front(base + pieces) == base + Front(pieces);
    assert Front(queued + [s.partial]) == queued;
  }

  lemma Regroup<T>(sent: seq<T>, buf: seq<T>, front: seq<T>, last: T,
                   batched: seq<T>, rest: seq<T>, base: seq<T>, before: seq<T>)
    requires batched + rest == buf + front
    requires sent + buf == base + before
    ensures sent + batched + rest + [last] == base + (before + (front + [last]))
  {
    calc {
      sent + batched + rest + [last];
      sent + (batched + rest) + [last];
      sent + buf + front + [last];
      base + before + front + [last];
      base + (before + (front + [last]));
    }
  }

  lemma {:induction false} ChunkConserves(s: Stream, base: seq<Line>, fed: string, data: string, id: nat)
    requires Conserves(s, base, fed)
    ensures Conserves(AfterChunk(s, data, id), base, fed + data)
  {
    var pieces := Split(s.partial + data, '\n');
    var before := Front(Split(fed, '\n'));
    var waiting := s.buf + Front(pieces);
    var batches, rest := FullBatches(waiting), Leftover(waiting);
    assert '\n' !in Last(pieces) by { JoinOfSplit(s.partial + data, '\n'); }
    assert Split(fed + data, '\n') == before + pieces by {
      QueuedSoFar(s, base, fed);
      SplitAppend(fed, data, '\n');
    }
    assert LinesSent(s.signals + batches) + rest + [Last(pieces)] == base + (before + pieces) by {
      QueuedSoFar(s, base, fed);
      BatchesPartition(waiting);
      LinesSentAppend(s.signals, batches);
      Regroup(LinesSent(s.signals), s.buf, Front(pieces), Last(pieces), LinesSent(batches), rest, base, before);
      assert Front(pieces) + [Last(pieces)] == pieces;
    }
  }

  lemma BatchesOnly(lines: seq<Line>)
    ensures AllProgress(FullBatches(lines)) && AllProgress(NonEmptyBatch(lines))
  {
    BatchesPartition(lines);
  }

  /** A stream callback only ever appends batches to what its operation has emitted. */
  lemma CallbackAppends(st: Stream, e: Event)
    ensures var next := After(st, e).signals;
            |st.signals| <= |next| && next[..|st.signals|] == st.signals && AllProgress(next[|st.signals|..])
  {
    match e {
      case Chunk(data, id) => BatchesOnly(st.buf + Front(Split(st.partial + data, '\n')));
      case Fire(id) => BatchesOnly(st.buf);
    }
  }

  lemma ChunkKeepsInv(s: Stream, base: seq<Line>, fed: string, data: string, id: nat)
    requires Inv(s, base, fed)
    requires Enabled(s, Chunk(data, id))
    ensures Inv(AfterChunk(s, data, id), base, fed + data)
  {
    ChunkConserves(s, base, fed, data, id);
    BatchesPartition(s.buf + Front(Split(s.partial + data, '\n')));
  }

  lemma TimerKeepsInv(s: Stream, base: seq<Line>, fed: string, id: nat)
    requires Inv(s, base, fed)
    requires id in s.armed
    ensures Inv(AfterTimer(s, id), base, fed)
  {
    NonEmptyBatchLines(s.buf);
    LinesSentAppend(s.signals, NonEmptyBatch(s.buf));
  }

  /** After end of output the subscriber has seen exactly the lines of the output,
      no timeout is left that could emit anything later, and nothing waits. */
  lemma {:induction false} EofDelivers(s: Stream, base: seq<Line>, fed: string)
    requires Inv(s, base, fed)
    ensures var s' := AfterEof(s);
            && s' == Fresh(s'.signals)
            && LinesSent(s'.signals) == base + LinesOf(fed)
            && BatchSized(s'.signals)
  {
    var waiting := if s.partial == "" then s.buf else s.buf + [s.partial];
    NonEmptyBatchLines(waiting);
    LinesSentAppend(s.signals, NonEmptyBatch(waiting));
    CutLast(LinesSent(s.signals), s.buf, s.partial, base, Split(fed, '\n'));
  }

  /** Two equal sequences with the last element split off. */
  lemma CutLast(sent: seq<Line>, buf: seq<Line>, last: Line, base: seq<Line>, pieces: seq<Line>)
    requires sent + buf + [last] == base + pieces && |pieces| >= 1
    ensures Last(pieces) == last && sent + buf == base + Front(pieces)
    ensures sent + (buf + [last]) == base + pieces
  {
    assert Last(base + pieces) == last;
    assert Front(base + pieces) == base + Front(pieces);
    assert Front(sent + buf + [last]) == sent + buf;
  }

  lemma {:induction false} RunKeepsInv(s: Stream, base: seq<Line>, fed: string, events: seq<Event>)
    requires Inv(s, base, fed)
    requires Runnable(s, events)
    ensures Inv(Run(s, events), base, fed + Fed(events))
    decreases events
  {
    if events == [] {
      assert fed + "" == fed;
    } else {
      var e := events[0];
      match e {
        case Chunk(data, id) =>
          ChunkKeepsInv(s, base, fed, data, id);
          RunKeepsInv(After(s, e), base, fed + data, events[1..]);
          assert fed + data + Fed(events[1..]) == fed + Fed(events);
        case Fire(id) =>
          TimerKeepsInv(s, base, fed, id);
          RunKeepsInv(After(s, e), base, fed, events[1..]);
          assert "" + Fed(events[1..]) == Fed(events[1..]);
      }
    }
  }

  /** For every way of cutting the output into chunks and every interleaving of
      timer firings: the batches concatenate to the lines of the whole output, every
      batch has 1 to 200 lines, and at each event boundary a flush is pending exactly
      when lines are waiting. */
  lemma {:induction false} EveryRunDeliversTheOutput(events: seq<Event>)
    requires Runnable(Fresh([]), events)
    ensures var s := Run(Fresh([]), events);
            && TimerMatchesBuffer(s)
            && LinesSent(AfterEof(s).signals) == LinesOf(Fed(events))
            && BatchSized(AfterEof(s).signals)
            && AfterEof(s).armed == {}
  {
    assert Inv(Fresh([]), [], "");
    RunKeepsInv(Fresh([]), [], "", events);
    assert "" + Fed(events) == Fed(events);
    EofDelivers(Run(Fresh([]), events), [], Fed(events));
  }

  /** Two runs over the same output, however it was cut and whenever timers fired,
      show a subscriber the same lines. */
  lemma {:induction false} ChunkingIsInvisible(a: seq<Event>, b: seq<Event>)
    requires Runnable(Fresh([]), a) && Runnable(Fresh([]), b)
    requires Fed(a) == Fed(b)
    ensures LinesSent(AfterEof(Run(Fresh([]), a)).signals)
         == LinesSent(AfterEof(Run(Fresh([]), b)).signals)
  {
    EveryRunDeliversTheOutput(a);
    EveryRunDeliversTheOutput(b);
  }

  // --- The callbacks themselves ---

  /** The buffer, timer id and partial line that the callbacks share. */
  class LineStreamer {
    var buf: seq<Line>
    var timer: nat
    var armed: set<nat>
    var partial: Line
    var signals: seq<Signal>

    ghost function State(): Stream
      reads this
    {
      Stream(buf, timer, armed, partial, signals)
    }

    constructor (signals: seq<Signal>)
      ensures State() == Fresh(signals)
      ensures TimerMatchesBuffer(State())
    {
      buf, timer, armed, partial, this.signals := [], 0, {}, "", signals;
    }

    method EmitBuffered()
      modifies this
      ensures State() == old(State()).(buf := [], signals := old(signals) + NonEmptyBatch(old(buf)))
    {
      if buf != [] {
        signals := signals + [Progress(buf)];
        buf := [];
      }
    }

    method FlushNow()
      modifies this
      ensures State() == Stream([], 0, old(armed) - (if old(timer) == 0 then {} else {old(timer)}),
                                old(partial), old(signals) + NonEmptyBatch(old(buf)))
    {
      if timer != 0 {
        armed := armed - {timer};
        timer := 0;
      }
      EmitBuffered();
    }

    method OnTimer(id: nat)
      requires TimerMatchesBuffer(State())
      requires id in armed
      modifies this
      ensures State() == AfterTimer(old(State()), id)
      ensures TimerMatchesBuffer(State())
    {
      timer := 0;
      armed := armed - {id};
      EmitBuffered();
    }

    method QueueLine(raw: Line)
      requires |buf| < BATCH_MAX_LINES
      requires armed == (if timer == 0 then {} else {timer})
      modifies this
      ensures partial == old(partial)
      ensures if old(|buf|) + 1 < BATCH_MAX_LINES
              then State() == old(State()).(buf := old(buf) + [raw])
              else State() == Stream([], 0, {}, partial, old(signals) + [Progress(old(buf) + [raw])])
    {
      buf := buf + [raw];
      if |buf| >= BATCH_MAX_LINES {
        FlushNow();
      }
    }

    /** A non-empty read; `id` is what the main loop answers if a timeout is added. */
    method OnChunk(data: string, id: nat)
      requires TimerMatchesBuffer(State())
      requires Enabled(State(), Chunk(data, id))
      modifies this
      ensures State() == AfterChunk(old(State()), data, id)
      ensures TimerMatchesBuffer(State())
    {
      var pieces := Split(partial + data, '\n');
      partial := Last(pieces);
      var lines := Front(pieces);
      ghost var held := buf;
      assert held + lines[..0] == held;
      var i := 0;
      while i < |lines|
        invariant 0 <= i <= |lines|
        invariant partial == Last(pieces)
        invariant buf == Leftover(held + lines[..i])
        invariant signals == old(signals) + FullBatches(held + lines[..i])
        invariant timer == if |held| + i < BATCH_MAX_LINES then old(timer) else 0
        invariant armed == if timer == 0 then {} else {timer}
      {
        BatchesPush(held + lines[..i], lines[i]);
        assert held + lines[..i] + [lines[i]] == held + lines[..i + 1];
        QueueLine(lines[i]);
        i := i + 1;
      }
      assert lines[..i] == lines;
      if buf != [] && timer == 0 {
        timer := id;
        armed := armed + {id};
      }
    }

    method OnEof()
      requires TimerMatchesBuffer(State())
      modifies this
      ensures State() == AfterEof(old(State()))
      ensures TimerMatchesBuffer(State())
    {
      if partial != "" {
        QueueLine(partial);
        partial := "";
      }
      FlushNow();
    }
  }
}
