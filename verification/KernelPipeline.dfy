/** Kernel build commands run one after the other, like `&&`. */
module KernelPipeline {
  import opened Splitting
  import opened Streaming

  type Argv = seq<string>

  datatype Phase = Reading | Waiting | Over

  /** `started`, `outputs` and `codes` are history: the commands started, what each has
      written so far, and how each has exited. */
  datatype Pipeline = Pipeline(
    index: nat, phase: Phase, stream: Stream,
    started: seq<Argv>, outputs: seq<string>, codes: seq<int>)

  function Begin(commands: seq<Argv>): Pipeline
    requires commands != []
  {
    Pipeline(0, Reading, Fresh([]), [commands[0]], [""], [])
  }

  function AfterOutput(p: Pipeline, e: Event): Pipeline
    requires p.outputs != []
  {
    p.(stream := After(p.stream, e),
       outputs := Front(p.outputs) + [Last(p.outputs) + if e.Chunk? then e.data else ""])
  }

  function AfterEndOfOutput(p: Pipeline): Pipeline {
    p.(stream := AfterEof(p.stream), phase := Waiting)
  }

  function AfterExit(commands: seq<Argv>, p: Pipeline, code: int): Pipeline {
    var p := p.(codes := p.codes + [code]);
    if code != 0 || p.index + 1 >= |commands| then
      p.(phase := Over, stream := p.stream.(signals := p.stream.signals + [Finished(code)]))
    else
      p.(phase := Reading, index := p.index + 1, stream := p.stream.(partial := ""),
         started := p.started + [commands[p.index + 1]], outputs := p.outputs + [""])
  }

  datatype Happening = Output(event: Event) | EndOfOutput | Exited(code: int)

  predicate Possible(p: Pipeline, h: Happening) {
    match h
    case Output(e) => p.phase == Reading && p.outputs != [] && Enabled(p.stream, e)
    case EndOfOutput => p.phase == Reading
    case Exited(_) => p.phase == Waiting
  }

  function Next(commands: seq<Argv>, p: Pipeline, h: Happening): Pipeline
    requires Possible(p, h)
  {
    match h
    case Output(e) => AfterOutput(p, e)
    case EndOfOutput => AfterEndOfOutput(p)
    case Exited(code) => AfterExit(commands, p, code)
  }

  predicate Feasible(commands: seq<Argv>, p: Pipeline, hs: seq<Happening>)
    decreases hs
  {
    hs == [] || (Possible(p, hs[0]) && Feasible(commands, Next(commands, p, hs[0]), hs[1..]))
  }

  function Build(commands: seq<Argv>, p: Pipeline, hs: seq<Happening>): Pipeline
    requires Feasible(commands, p, hs)
    decreases hs
  {
    if hs == [] then p else Build(commands, Next(commands, p, hs[0]), hs[1..])
  }

  // --- What a build must have delivered ---

  /** Each command's lines, one command after the other. */
  function AllLines(outputs: seq<string>): seq<Line> {
    if outputs == [] then [] else AllLines(Front(outputs)) + LinesOf(Last(outputs))
  }

  /** The exit code of `a && b && ...`: the first that is not zero, or else zero. */
  function FirstFailure(codes: seq<int>): int {
    if codes == [] then 0 else if codes[0] != 0 then codes[0] else FirstFailure(codes[1..])
  }

  predicate AllZero(codes: seq<int>) {
    forall i :: 0 <= i < |codes| ==> codes[i] == 0
  }

  /** Commands are started in order, each only after the ones before it exited 0. */
  predicate InOrder(commands: seq<Argv>, p: Pipeline) {
    && p.index < |commands|
    && p.started == commands[..p.index + 1]
    && |p.outputs| == p.index + 1
    && |p.codes| == p.index + (if p.phase == Over then 1 else 0)
    && AllZero(p.codes[..p.index])
    && (p.phase == Over ==> Last(p.codes) != 0 || p.index + 1 == |commands|)
  }

  predicate Streamed(p: Pipeline)
    requires p.outputs != []
  {
    var signals := p.stream.signals;
    match p.phase
    case Reading =>
      && AllProgress(signals) && Inv(p.stream, AllLines(Front(p.outputs)), Last(p.outputs))
      && AllLines(Front(p.outputs)) <= LinesSent(signals)
    case Waiting =>
      AllProgress(signals) && p.stream == Fresh(signals) && LinesSent(signals) == AllLines(p.outputs)
      && BatchSized(signals)
    case Over =>
      && signals != [] && p.codes != [] && Last(signals) == Finished(Last(p.codes))
      && AllProgress(Front(signals)) && BatchSized(Front(signals))
      && p.stream == Fresh(signals) && LinesSent(Front(signals)) == AllLines(p.outputs)
  }

  predicate BuildInv(commands: seq<Argv>, p: Pipeline) {
    InOrder(commands, p) && Streamed(p)
  }

  lemma FreshConserves(signals: seq<Signal>)
    requires BatchSized(signals)
    ensures Inv(Fresh(signals), LinesSent(signals), "")
  {
    assert Split("", '\n') == [[]];
  }

  lemma OutputKeepsInv(commands: seq<Argv>, p: Pipeline, e: Event)
    requires BuildInv(commands, p) && Possible(p, Output(e))
    ensures BuildInv(commands, AfterOutput(p, e))
  {
    var p' := AfterOutput(p, e);
    var base, fed := AllLines(Front(p.outputs)), Last(p.outputs);
    CallbackAppends(p.stream, e);
    assert Front(p'.outputs) == Front(p.outputs);
    assert Inv(p'.stream, base, Last(p'.outputs)) by {
      match e {
        case Chunk(data, id) => ChunkKeepsInv(p.stream, base, fed, data, id);
        case Fire(id) =>
          TimerKeepsInv(p.stream, base, fed, id);
          assert fed + "" == fed;
      }
    }
    var emitted := p'.stream.signals[|p.stream.signals|..];
    assert p'.stream.signals == p.stream.signals + emitted;
    LinesSentAppend(p.stream.signals, emitted);
  }

  lemma EndOfOutputKeepsInv(commands: seq<Argv>, p: Pipeline)
    requires BuildInv(commands, p) && Possible(p, EndOfOutput)
    ensures BuildInv(commands, AfterEndOfOutput(p))
  {
    EofDelivers(p.stream, AllLines(Front(p.outputs)), Last(p.outputs));
    BatchesOnly(if p.stream.partial == "" then p.stream.buf else p.stream.buf + [p.stream.partial]);
  }

  lemma ExitKeepsInv(commands: seq<Argv>, p: Pipeline, code: int)
    requires BuildInv(commands, p) && Possible(p, Exited(code))
    ensures BuildInv(commands, AfterExit(commands, p, code))
  {
    var p' := AfterExit(commands, p, code);
    var signals := p.stream.signals;
    if p'.phase == Over {
      assert Front(signals + [Finished(code)]) == signals;
      assert p'.codes[..p'.index] == p.codes[..p.index];
    } else {
      assert commands[..p.index + 1] + [commands[p.index + 1]] == commands[..p.index + 2];
      assert Front(p'.outputs) == p.outputs;
      FreshConserves(signals);
      assert p'.codes[..p'.index] == p.codes[..p.index] + [code];
    }
  }

  lemma {:induction false} BuildKeepsInv(commands: seq<Argv>, p: Pipeline, hs: seq<Happening>)
    requires BuildInv(commands, p) && Feasible(commands, p, hs)
    ensures BuildInv(commands, Build(commands, p, hs))
    decreases hs
  {
    if hs != [] {
      match hs[0] {
        case Output(e) => OutputKeepsInv(commands, p, e);
        case EndOfOutput => EndOfOutputKeepsInv(commands, p);
        case Exited(code) => ExitKeepsInv(commands, p, code);
      }
      BuildKeepsInv(commands, Next(commands, p, hs[0]), hs[1..]);
    }
  }

  lemma {:induction false} FirstFailureOfPrefix(codes: seq<int>)
    requires codes != [] && AllZero(Front(codes))
    ensures FirstFailure(codes) == Last(codes)
  {
    if |codes| > 1 {
      assert codes[0] == Front(codes)[0];
      forall i | 0 <= i < |codes[1..]| - 1 ensures Front(codes[1..])[i] == 0 {
        assert Front(codes)[i + 1] == 0;
      }
      FirstFailureOfPrefix(codes[1..]);
    } else {
      assert codes[1..] == [];
    }
  }

  // --- Main results ---

  lemma {:induction false} FinishedAddsNoLines(front: seq<Signal>, code: int)
    ensures LinesSent(front + [Finished(code)]) == LinesSent(front)
  {
    LinesSentAppend(front, [Finished(code)]);
    assert [Finished(code)][1..] == [];
  }

  lemma {:induction false} EarlierLinesAreSent(p: Pipeline)
    requires p.outputs != [] && Streamed(p)
    ensures AllLines(Front(p.outputs)) <= LinesSent(p.stream.signals)
  {
    var signals := p.stream.signals;
    assert AllLines(p.outputs) == AllLines(Front(p.outputs)) + LinesOf(Last(p.outputs));
    if p.phase == Over {
      FinishedAddsNoLines(Front(signals), Last(p.codes));
      assert signals == Front(signals) + [Finished(Last(p.codes))];
    }
  }

  /** In every build, the commands started are a prefix of the pipeline in order; the
      next one starts only when every earlier one exited 0 with all its lines emitted. */
  lemma CommandsRunInOrder(commands: seq<Argv>, hs: seq<Happening>)
    requires commands != [] && Feasible(commands, Begin(commands), hs)
    ensures var p := Build(commands, Begin(commands), hs);
            && p.index < |commands| && p.started == commands[..p.index + 1]
            && |p.outputs| == |p.started| && |p.codes| >= p.index
            && AllZero(p.codes[..p.index])
            && AllLines(Front(p.outputs)) <= LinesSent(p.stream.signals)
  {
    FreshConserves([]);
    BuildKeepsInv(commands, Begin(commands), hs);
    EarlierLinesAreSent(Build(commands, Begin(commands), hs));
  }

  lemma FinalCode(commands: seq<Argv>, p: Pipeline)
    requires InOrder(commands, p) && p.phase == Over
    ensures FirstFailure(p.codes) == Last(p.codes)
    ensures FirstFailure(p.codes) == 0 ==> p.started == commands
  {
    assert Front(p.codes) == p.codes[..p.index];
    FirstFailureOfPrefix(p.codes);
  }

  /** Exactly one `Finished`, last; its code is the first non-zero exit or else 0; the
      lines before it are every started command's lines in order; nothing can follow. */
  ghost predicate EndsCleanly(commands: seq<Argv>, p: Pipeline) {
    var signals := p.stream.signals;
    && signals != [] && AllProgress(Front(signals)) && BatchSized(Front(signals))
    && Last(signals) == Finished(FirstFailure(p.codes))
    && (FirstFailure(p.codes) == 0 ==> p.started == commands)
    && LinesSent(Front(signals)) == AllLines(p.outputs)
    && (forall h :: !Possible(p, h))
  }

  lemma OverEndsCleanly(commands: seq<Argv>, p: Pipeline)
    requires BuildInv(commands, p) && p.phase == Over
    ensures EndsCleanly(commands, p)
  {
    FinalCode(commands, p);
  }

  /** Every build, wherever it is: batches only until it is over, and then a clean end. */
  lemma FinishedBuild(commands: seq<Argv>, hs: seq<Happening>)
    requires commands != [] && Feasible(commands, Begin(commands), hs)
    ensures var p := Build(commands, Begin(commands), hs);
            if p.phase == Over then EndsCleanly(commands, p) else AllProgress(p.stream.signals)
  {
    FreshConserves([]);
    BuildKeepsInv(commands, Begin(commands), hs);
    var p := Build(commands, Begin(commands), hs);
    if p.phase == Over {
      OverEndsCleanly(commands, p);
    }
  }

  // --- The streamer object ---

  /** Runs `commands` through one set of stream cells; `phase` is which callback the
      main loop may deliver next. */
  class PipelineStreamer {
    const commands: seq<Argv>
    const cells: LineStreamer
    var index: nat
    var phase: Phase
    ghost var started: seq<Argv>
    ghost var outputs: seq<string>
    ghost var codes: seq<int>

    ghost function State(): Pipeline
      reads this, cells
    {
      Pipeline(index, phase, cells.State(), started, outputs, codes)
    }

    ghost predicate Valid()
      reads this, cells
    {
      && index < |commands|
      && outputs != []
      && TimerMatchesBuffer(cells.State())
    }

    constructor (commands: seq<Argv>)
      requires commands != []
      ensures Valid() && fresh(cells)
      ensures this.commands == commands && State() == Begin(commands)
    {
      this.commands := commands;
      cells := new LineStreamer([]);
      index, phase := 0, Reading;
      started, outputs, codes := [commands[0]], [""], [];
    }

    method RunCurrent()
      requires index < |commands|
      requires TimerMatchesBuffer(cells.State())
      modifies this, cells
      ensures Valid()
      ensures State() == old(State()).(phase := Reading, stream := old(cells.State()).(partial := ""),
                                       started := old(started) + [commands[index]], outputs := old(outputs) + [""])
    {
      started, outputs := started + [commands[index]], outputs + [""];
      cells.partial := "";
      phase := Reading;
    }

    method OnChunk(data: string, id: nat)
      requires Valid() && Possible(State(), Output(Chunk(data, id)))
      modifies this, cells
      ensures Valid()
      ensures State() == AfterOutput(old(State()), Chunk(data, id))
    {
      cells.OnChunk(data, id);
      outputs := Front(outputs) + [Last(outputs) + data];
    }

    method OnTimer(id: nat)
      requires Valid() && Possible(State(), Output(Fire(id)))
      modifies this, cells
      ensures Valid()
      ensures State() == AfterOutput(old(State()), Fire(id))
    {
      cells.OnTimer(id);
      assert Last(outputs) + "" == Last(outputs);
      assert Front(outputs) + [Last(outputs)] == outputs;
    }

    method OnEof()
      requires Valid() && Possible(State(), EndOfOutput)
      modifies this, cells
      ensures Valid()
      ensures State() == AfterEndOfOutput(old(State()))
    {
      cells.OnEof();
      phase := Waiting;
    }

    method OnDone(code: int)
      requires Valid() && Possible(State(), Exited(code))
      modifies this, cells
      ensures Valid()
      ensures State() == AfterExit(commands, old(State()), code)
    {
      codes := codes + [code];
      if code != 0 || index + 1 >= |commands| {
        cells.signals := cells.signals + [Finished(code)];
        phase := Over;
        return;
      }
      index := index + 1;
      RunCurrent();
    }
  }
}
