/** The package lock, its operations and the idle exit. */
module SoftwareService {
  import opened Splitting
  import opened Streaming

  const IDLE_TIMEOUT_SECONDS := 120

  datatype Method =
    | InstallPreview | Install | InstallMulti | InstallBinaryMulti | Rebuild | UpdateWorld
    | Depclean | DepcleanMulti | UnmergeMulti | Sync | SyncRepos | MarkNewsRead
    | MarkNewsUnread | Deselect | PackageStatus | UnknownMethod

  datatype Kind =
    | StreamingOp(title: string)  // spawns a process and streams it
    | BlockingOp(title: string)   // runs its processes inside the call
    | NoOp                        // never takes the lock

  function KindOf(m: Method): Kind {
    match m
    case Install | InstallMulti | InstallBinaryMulti => StreamingOp("A package install")
    case Rebuild => StreamingOp("A package rebuild")
    case UpdateWorld => StreamingOp("A system update")
    case Depclean | DepcleanMulti | UnmergeMulti => StreamingOp("A package removal")
    case Sync => StreamingOp("A Portage tree sync")
    case SyncRepos => BlockingOp("A repository sync")
    case Deselect => BlockingOp("An @world set update")
    case InstallPreview | MarkNewsRead | MarkNewsUnread | PackageStatus | UnknownMethod => NoOp
  }

  /** Calls whose arguments the handler itself checks before starting. */
  predicate ChecksArguments(m: Method) {
    m in {InstallMulti, InstallBinaryMulti, Depclean, DepcleanMulti, UnmergeMulti, SyncRepos, Deselect}
  }

  /** One method call with the outside world's answers: what external package tool is
      running ("" for none), what polkit says, whether the arguments are well formed,
      and the processes a blocking call wants run, each with the exit code it would give. */
  datatype Call = Call(name: Method, external: string, authorized: bool, argumentsOk: bool,
                       processes: seq<Process>, now: int)

  datatype Process = Process(name: string, code: int)

  /** What a blocking call reports about one process it ran. */
  datatype Section = Section(name: string, ok: bool)

  datatype Reply =
    | Busy(message: string)
    | AccessDenied
    | InvalidArguments
    | Started
    | Ran(ok: bool, sections: seq<Section>)
    | Status(busy: bool, message: string)
    | Unlocked

  datatype Tagged = Tagged(op: nat, signal: Signal)

  /** A streaming operation between callbacks: its stream, and whether its output is
      still being read (afterwards only its exit is awaited). */
  datatype Operation = Operation(stream: Stream, reading: bool)

  datatype Service = Service(
    active: int, operation: string, live: map<nat, Operation>, started: nat,
    lastActivity: int, exitRequested: bool, trace: seq<Tagged>)

  function Idle(now: int): Service {
    Service(0, "", map[], 0, now, false, [])
  }

  // --- Handlers ---

  function BusyMessage(active: int, operation: string, external: string): string {
    if active > 0 then
      (if operation == "" then "A package operation" else operation) + " is running in another GeST session"
    else if external != "" then "An external " + external + " is running outside GeST"
    else ""
  }

  function EndOp(s: Service, now: int): Service {
    var active := if s.active - 1 > 0 then s.active - 1 else 0;
    s.(active := active, operation := if active == 0 then "" else s.operation, lastActivity := now)
  }

  /** One section per process, in order: a failure does not keep the later ones from running. */
  function Sections(processes: seq<Process>): seq<Section> {
    seq(|processes|, i requires 0 <= i < |processes| => Section(processes[i].name, processes[i].code == 0))
  }

  predicate AllExitedZero(processes: seq<Process>) {
    forall i :: 0 <= i < |processes| ==> processes[i].code == 0
  }

  /** The service right after a handler marked its operation begun. */
  function Begun(s: Service, c: Call): Service
    requires !KindOf(c.name).NoOp?
  {
    s.(lastActivity := c.now, active := s.active + 1, operation := KindOf(c.name).title)
  }

  function AfterCall(s: Service, c: Call): (Service, Reply) {
    var touched := s.(lastActivity := c.now);
    var busy := BusyMessage(s.active, s.operation, c.external);
    if c.name == PackageStatus then (touched, Status(busy != "", busy))
    else if KindOf(c.name).NoOp? then (touched, Unlocked)
    else if busy != "" then (touched, Busy(busy))
    else if !c.authorized then (touched, AccessDenied)
    else if ChecksArguments(c.name) && !c.argumentsOk then (touched, InvalidArguments)
    else
      if KindOf(c.name).BlockingOp? then
        (EndOp(Begun(s, c), c.now), Ran(AllExitedZero(c.processes), Sections(c.processes)))
      else (Spawn(Begun(s, c)), Started)
  }

  function Spawn(s: Service): Service {
    var op := s.started + 1;
    s.(live := s.live[op := Operation(Fresh([]), true)], started := op)
  }

  function Tag(op: nat, signals: seq<Signal>): seq<Tagged> {
    seq(|signals|, i requires 0 <= i < |signals| => Tagged(op, signals[i]))
  }

  /** A callback of operation `op` moved its stream to `next`; what it emitted is on the bus. */
  function Publish(s: Service, op: nat, next: Stream, reading: bool): Service
    requires op in s.live && |s.live[op].stream.signals| <= |next.signals|
  {
    s.(live := s.live[op := Operation(next, reading)],
       trace := s.trace + Tag(op, next.signals[|s.live[op].stream.signals|..]))
  }

  function AfterOutput(s: Service, op: nat, e: Event): Service
    requires op in s.live
  {
    Publish(s, op, After(s.live[op].stream, e), true)
  }

  function AfterEndOfOutput(s: Service, op: nat): Service
    requires op in s.live
  {
    Publish(s, op, AfterEof(s.live[op].stream), false)
  }

  function AfterExit(s: Service, op: nat, code: int, now: int): Service {
    EndOp(s.(trace := s.trace + [Tagged(op, Finished(code))], live := s.live - {op}), now)
  }

  predicate ShouldExit(active: int, idleSeconds: int, codeChanged: bool) {
    active == 0 && (codeChanged || idleSeconds >= IDLE_TIMEOUT_SECONDS)
  }

  function AfterIdleCheck(s: Service, now: int, codeChanged: bool): Service {
    if ShouldExit(s.active, now - s.lastActivity, codeChanged) then s.(exitRequested := true) else s
  }

  // --- Runs ---

  datatype Happening =
    | Called(call: Call)
    | Output(op: nat, event: Event)
    | EndOfOutput(op: nat)
    | Exited(op: nat, code: int, now: int)
    | IdleCheck(now: int, codeChanged: bool)

  /** Anything the main loop can deliver: any call at any time, output and timeouts of
      operations whose pipe is open, the exit of one whose pipe is closed. */
  predicate Possible(s: Service, h: Happening) {
    match h
    case Called(_) => true
    case Output(op, e) => op in s.live && s.live[op].reading && Enabled(s.live[op].stream, e)
    case EndOfOutput(op) => op in s.live && s.live[op].reading
    case Exited(op, _, _) => op in s.live && !s.live[op].reading
    case IdleCheck(_, _) => true
  }

  function Next(s: Service, h: Happening): Service
    requires Possible(s, h)
  {
    match h
    case Called(c) => AfterCall(s, c).0
    case Output(op, e) => AfterOutput(s, op, e)
    case EndOfOutput(op) => AfterEndOfOutput(s, op)
    case Exited(op, code, now) => AfterExit(s, op, code, now)
    case IdleCheck(now, changed) => AfterIdleCheck(s, now, changed)
  }

  predicate Feasible(s: Service, hs: seq<Happening>)
    decreases hs
  {
    hs == [] || (Possible(s, hs[0]) && Feasible(Next(s, hs[0]), hs[1..]))
  }

  function Serve(s: Service, hs: seq<Happening>): Service
    requires Feasible(s, hs)
    decreases hs
  {
    if hs == [] then s else Serve(Next(s, hs[0]), hs[1..])
  }

  // --- What happened, told without the service ---

  predicate Streams(m: Method) {
    m.Install? || m.InstallMulti? || m.InstallBinaryMulti? || m.Rebuild? || m.UpdateWorld?
    || m.Depclean? || m.DepcleanMulti? || m.UnmergeMulti? || m.Sync?
  }

  predicate Blocks(m: Method) {
    m.SyncRepos? || m.Deselect?
  }

  /** The handlers that look at their arguments themselves. */
  predicate Checked(m: Method) {
    m.InstallMulti? || m.InstallBinaryMulti? || m.Depclean? || m.DepcleanMulti? || m.UnmergeMulti? || Blocks(m)
  }

  /** What another session is told is running. */
  function Title(m: Method): string {
    if m.Install? || m.InstallMulti? || m.InstallBinaryMulti? then "A package install"
    else if m.Rebuild? then "A package rebuild"
    else if m.UpdateWorld? then "A system update"
    else if m.Depclean? || m.DepcleanMulti? || m.UnmergeMulti? then "A package removal"
    else if m.Sync? then "A Portage tree sync"
    else if m.SyncRepos? then "A repository sync"
    else "An @world set update"
  }

  /** A history: the method whose operation is running, how many were started so far, what
      each one's process wrote and the code it exited with, and when something last called
      or ended. */
  datatype Memory = Memory(
    holder: Option<Method>, granted: nat, outputs: map<nat, string>, exits: map<nat, int>, touched: int)

  datatype Option<T> = None | Some(value: T)

  function Written(m: Memory, op: nat): string {
    if op in m.outputs then m.outputs[op] else ""
  }

  /** Nothing runs here or outside, polkit says yes, and the arguments pass. */
  predicate Grants(m: Memory, c: Call) {
    m.holder.None? && c.external == "" && c.authorized && (Checked(c.name) ==> c.argumentsOk)
  }

  function Remember(m: Memory, h: Happening): Memory {
    match h
    case Called(c) =>
      if Streams(c.name) && Grants(m, c)
      then m.(touched := c.now, holder := Some(c.name), granted := m.granted + 1)
      else m.(touched := c.now)
    case Output(op, Chunk(data, _)) => m.(outputs := m.outputs[op := Written(m, op) + data])
    case Exited(op, code, now) => m.(touched := now, holder := None, exits := m.exits[op := code])
    case _ => m
  }

  function RememberAll(m: Memory, hs: seq<Happening>): Memory
    decreases hs
  {
    if hs == [] then m else RememberAll(Remember(m, hs[0]), hs[1..])
  }

  function History(now: int, hs: seq<Happening>): Memory {
    RememberAll(Memory(None, 0, map[], map[], now), hs)
  }

  /** The sentence a session gets that asks whether package management is locked. */
  function Sentence(m: Memory, external: string): string {
    if m.holder.Some? then Title(m.holder.value) + " is running in another GeST session"
    else if external != "" then "An external " + external + " is running outside GeST"
    else ""
  }

  // --- The invariant ---

  function SignalsOf(trace: seq<Tagged>, op: nat): seq<Signal> {
    if trace == [] then []
    else (if trace[0].op == op then [trace[0].signal] else []) + SignalsOf(trace[1..], op)
  }

  /** Operations follow one another on the bus, and `Finished` is an operation's last word:
      read without the tags, the trace is a prefix of (Progress* Finished)*. */
  predicate Orderly(trace: seq<Tagged>) {
    forall i, j :: 0 <= i < j < |trace| ==>
      trace[i].op <= trace[j].op && (trace[i].signal.Finished? ==> trace[i].op < trace[j].op)
  }

  /** An ended operation delivered exactly its process's lines, then one `Finished` with its
      process's exit code. */
  predicate Delivered(signals: seq<Signal>, output: string, code: int) {
    && signals != []
    && Last(signals) == Finished(code)
    && AllProgress(Front(signals))
    && LinesSent(Front(signals)) == LinesOf(output)
    && BatchSized(Front(signals))
  }

  /** A running operation has emitted only batches, and everything else is still held. */
  predicate Underway(o: Operation, signals: seq<Signal>, output: string) {
    && o.stream.signals == signals
    && AllProgress(signals)
    && if o.reading then Inv(o.stream, [], output)
       else o.stream == Fresh(signals) && LinesSent(signals) == LinesOf(output) && BatchSized(signals)
  }

  predicate LockInv(s: Service, m: Memory) {
    && s.live.Keys == (if m.holder.Some? then {m.granted} else {})
    && (m.holder.Some? ==> m.granted >= 1)
    && s.started == m.granted
    && s.active == |s.live|
    && s.operation == (if m.holder.Some? then Title(m.holder.value) else "")
    && s.lastActivity == m.touched
  }

  predicate TraceInv(s: Service) {
    && Orderly(s.trace)
    && (forall i :: 0 <= i < |s.trace| ==> 1 <= s.trace[i].op <= s.started)
    && (forall i :: 0 <= i < |s.trace| && s.trace[i].op in s.live ==> s.trace[i].signal.Progress?)
  }

  predicate OpInv(s: Service, m: Memory, op: nat) {
    if op in s.live then Underway(s.live[op], SignalsOf(s.trace, op), Written(m, op))
    else op in m.exits && Delivered(SignalsOf(s.trace, op), Written(m, op), m.exits[op])
  }

  ghost predicate OutputInv(s: Service, m: Memory) {
    && (forall op :: op in m.outputs ==> op <= s.started)
    && (forall op :: 1 <= op <= s.started ==> OpInv(s, m, op))
  }

  ghost predicate ServiceInv(s: Service, m: Memory) {
    LockInv(s, m) && TraceInv(s) && OutputInv(s, m)
  }

  lemma {:induction false} SignalsOfAppend(a: seq<Tagged>, b: seq<Tagged>, op: nat)
    ensures SignalsOf(a + b, op) == SignalsOf(a, op) + SignalsOf(b, op)
  {
    if a == [] {
      assert a + b == b;
    } else {
      assert (a + b)[1..] == a[1..] + b;
      SignalsOfAppend(a[1..], b, op);
      Assoc(if a[0].op == op then [a[0].signal] else [], SignalsOf(a[1..], op), SignalsOf(b, op));
    }
  }

  lemma {:induction false} SignalsOfTag(op: nat, signals: seq<Signal>, other: nat)
    ensures SignalsOf(Tag(op, signals), other) == if other == op then signals else []
  {
    if signals != [] {
      assert Tag(op, signals)[1..] == Tag(op, signals[1..]);
      SignalsOfTag(op, signals[1..], other);
    }
  }

  lemma {:induction false} SignalsOfStranger(trace: seq<Tagged>, op: nat)
    requires forall i :: 0 <= i < |trace| ==> trace[i].op != op
    ensures SignalsOf(trace, op) == []
  {
    if trace != [] {
      SignalsOfStranger(trace[1..], op);
    }
  }

  /** Appending the running operation's own signals keeps the trace orderly and shows
      up in that operation's signals only. */
  lemma PublishKeepsTrace(s: Service, m: Memory, op: nat, signals: seq<Signal>)
    requires TraceInv(s) && LockInv(s, m) && op in s.live
    requires AllProgress(signals)
    ensures TraceInv(s.(trace := s.trace + Tag(op, signals)))
    ensures forall k :: SignalsOf(s.trace + Tag(op, signals), k)
                     == SignalsOf(s.trace, k) + if k == op then signals else []
  {
    assert op == s.started;
    forall k ensures SignalsOf(s.trace + Tag(op, signals), k)
                  == SignalsOf(s.trace, k) + if k == op then signals else []
    {
      SignalsOfAppend(s.trace, Tag(op, signals), k);
      SignalsOfTag(op, signals, k);
    }
  }

  /** What holds of another operation is not touched by anything this one does. */
  lemma OthersKeepOpInv(s: Service, m: Memory, s': Service, m': Memory, op: nat)
    requires forall k :: k != op ==> SignalsOf(s'.trace, k) == SignalsOf(s.trace, k)
    requires forall k :: k != op ==> (k in s.live <==> k in s'.live) && (k in s.live ==> s.live[k] == s'.live[k])
    requires forall k :: k != op ==> Written(m', k) == Written(m, k)
    requires forall k :: k != op && k in m.exits ==> k in m'.exits && m'.exits[k] == m.exits[k]
    requires forall k :: 1 <= k <= s.started ==> OpInv(s, m, k)
    ensures forall k :: k != op && 1 <= k <= s.started ==> OpInv(s', m', k)
  {
    forall k | k != op && 1 <= k <= s.started ensures OpInv(s', m', k) {
      assert OpInv(s, m, k);
    }
  }

  lemma LiveIsLast(s: Service, m: Memory, op: nat)
    requires LockInv(s, m) && op in s.live
    ensures 1 <= op == s.started && s.live.Keys == {op}
  {
  }

  lemma LiveIsUnderway(s: Service, m: Memory, op: nat)
    requires ServiceInv(s, m) && op in s.live
    ensures 1 <= op == s.started && s.live.Keys == {op}
    ensures Underway(s.live[op], SignalsOf(s.trace, op), Written(m, op))
  {
    LiveIsLast(s, m, op);
    assert OpInv(s, m, op);
  }

  lemma PublishKeepsLock(s: Service, m: Memory, op: nat, next: Stream, reading: bool, m': Memory)
    requires LockInv(s, m) && op in s.live && |s.live[op].stream.signals| <= |next.signals|
    requires m'.holder == m.holder && m'.granted == m.granted && m'.touched == m.touched
    ensures LockInv(Publish(s, op, next, reading), m')
    ensures Publish(s, op, next, reading).live.Keys == s.live.Keys
  {
    var s' := Publish(s, op, next, reading);
    assert s'.live.Keys == s.live.Keys;
    assert |s'.live.Keys| == |s'.live| && |s.live.Keys| == |s.live|;
  }

  /** What the operation has emitted by now: everything before, then batches. */
  predicate Extends(before: Stream, next: Stream) {
    && |before.signals| <= |next.signals|
    && next.signals[..|before.signals|] == before.signals
    && AllProgress(next.signals[|before.signals|..])
  }

  lemma PublishedSignals(s: Service, m: Memory, op: nat, next: Stream, reading: bool)
    requires TraceInv(s) && LockInv(s, m) && op in s.live && s.live[op].stream.signals == SignalsOf(s.trace, op)
    requires Extends(s.live[op].stream, next)
    ensures var s' := Publish(s, op, next, reading);
            && TraceInv(s') && SignalsOf(s'.trace, op) == next.signals
            && forall k :: k != op ==> SignalsOf(s'.trace, k) == SignalsOf(s.trace, k)
  {
    var before := s.live[op].stream.signals;
    var emitted := next.signals[|before|..];
    PublishKeepsTrace(s, m, op, emitted);
    assert before + emitted == next.signals;
    assert forall k :: k != op ==> SignalsOf(s.trace, k) + [] == SignalsOf(s.trace, k);
  }

  lemma PublishKeepsOps(s: Service, m: Memory, op: nat, s': Service, m': Memory)
    requires OutputInv(s, m) && s'.started == s.started && s'.live.Keys == s.live.Keys && op in s.live
    requires m'.exits == m.exits && forall k :: k in m'.outputs ==> k in m.outputs || k == op
    requires op <= s.started
    requires forall k :: k != op && k in s.live ==> s'.live[k] == s.live[k]
    requires forall k :: k != op ==> SignalsOf(s'.trace, k) == SignalsOf(s.trace, k)
    requires forall k :: k != op ==> Written(m', k) == Written(m, k)
    requires Underway(s'.live[op], SignalsOf(s'.trace, op), Written(m', op))
    ensures OutputInv(s', m')
  {
    OthersKeepOpInv(s, m, s', m', op);
    assert OpInv(s', m', op);
  }

  lemma PublishShape(s: Service, op: nat, next: Stream, reading: bool)
    requires op in s.live && |s.live[op].stream.signals| <= |next.signals|
    ensures var s' := Publish(s, op, next, reading);
            && s'.started == s.started && s'.live.Keys == s.live.Keys && s'.live[op] == Operation(next, reading)
            && forall k :: k != op && k in s.live ==> s'.live[k] == s.live[k]
  {
  }

  lemma PublishKeepsOutput(s: Service, m: Memory, op: nat, next: Stream, reading: bool, m': Memory)
    requires LockInv(s, m) && TraceInv(s) && OutputInv(s, m) && op in s.live && op <= s.started
    requires s.live[op].stream.signals == SignalsOf(s.trace, op) && Extends(s.live[op].stream, next)
    requires m'.exits == m.exits && forall k :: k in m'.outputs ==> k in m.outputs || k == op
    requires forall k :: k != op ==> Written(m', k) == Written(m, k)
    requires Underway(Operation(next, reading), next.signals, Written(m', op))
    ensures TraceInv(Publish(s, op, next, reading)) && OutputInv(Publish(s, op, next, reading), m')
  {
    PublishedSignals(s, m, op, next, reading);
    PublishShape(s, op, next, reading);
    PublishKeepsOps(s, m, op, Publish(s, op, next, reading), m');
  }

  lemma PublishKeepsInv(s: Service, m: Memory, op: nat, next: Stream, reading: bool, m': Memory)
    requires ServiceInv(s, m) && op in s.live
    requires Extends(s.live[op].stream, next)
    requires m'.holder == m.holder && m'.granted == m.granted && m'.touched == m.touched && m'.exits == m.exits
    requires forall k :: k in m'.outputs ==> k in m.outputs || k == op
    requires forall k :: k != op ==> Written(m', k) == Written(m, k)
    requires Underway(Operation(next, reading), next.signals, Written(m', op))
    ensures ServiceInv(Publish(s, op, next, reading), m')
  {
    LiveIsUnderway(s, m, op);
    PublishKeepsLock(s, m, op, next, reading, m');
    PublishKeepsOutput(s, m, op, next, reading, m');
  }

  lemma OutputAdvances(st: Stream, e: Event, before: string, after: string)
    requires Inv(st, [], before) && AllProgress(st.signals) && Enabled(st, e)
    requires after == before + if e.Chunk? then e.data else ""
    ensures Extends(st, After(st, e)) && Underway(Operation(After(st, e), true), After(st, e).signals, after)
  {
    CallbackAppends(st, e);
    match e {
      case Chunk(data, id) => ChunkKeepsInv(st, [], before, data, id);
      case Fire(id) =>
        TimerKeepsInv(st, [], before, id);
        assert before + "" == before;
    }
    var next := After(st, e).signals;
    assert next == st.signals + next[|st.signals|..];
  }

  lemma OutputKeepsInv(s: Service, m: Memory, op: nat, e: Event)
    requires ServiceInv(s, m) && Possible(s, Output(op, e))
    ensures ServiceInv(AfterOutput(s, op, e), Remember(m, Output(op, e)))
  {
    LiveIsUnderway(s, m, op);
    var m' := Remember(m, Output(op, e));
    assert Written(m, op) + "" == Written(m, op);
    OutputAdvances(s.live[op].stream, e, Written(m, op), Written(m', op));
    PublishKeepsInv(s, m, op, After(s.live[op].stream, e), true, m');
  }

  lemma EofExtends(st: Stream, output: string)
    requires Inv(st, [], output) && AllProgress(st.signals)
    ensures Extends(st, AfterEof(st)) && Underway(Operation(AfterEof(st), false), AfterEof(st).signals, output)
  {
    BatchesOnly(if st.partial == "" then st.buf else st.buf + [st.partial]);
    EofDelivers(st, [], output);
    Assoc(LinesOf(output), [], []);
  }

  lemma EndOfOutputKeepsInv(s: Service, m: Memory, op: nat)
    requires ServiceInv(s, m) && Possible(s, EndOfOutput(op))
    ensures ServiceInv(AfterEndOfOutput(s, op), m)
  {
    LiveIsUnderway(s, m, op);
    EofExtends(s.live[op].stream, Written(m, op));
    PublishKeepsInv(s, m, op, AfterEof(s.live[op].stream), false, m);
  }

  lemma FinishedSignals(trace: seq<Tagged>, op: nat, code: int)
    ensures forall k :: SignalsOf(trace + [Tagged(op, Finished(code))], k)
                     == SignalsOf(trace, k) + if k == op then [Finished(code)] else []
  {
    forall k ensures SignalsOf(trace + [Tagged(op, Finished(code))], k)
                  == SignalsOf(trace, k) + if k == op then [Finished(code)] else []
    {
      SignalsOfAppend(trace, [Tagged(op, Finished(code))], k);
      assert [Tagged(op, Finished(code))][1..] == [];
    }
  }

  lemma FinishDelivers(signals: seq<Signal>, o: Operation, output: string, code: int)
    requires Underway(o, signals, output) && !o.reading
    ensures Delivered(signals + [Finished(code)], output, code)
  {
    assert Front(signals + [Finished(code)]) == signals;
  }

  lemma ExitKeepsLock(s: Service, m: Memory, op: nat, code: int, now: int)
    requires LockInv(s, m) && op in s.live
    ensures LockInv(AfterExit(s, op, code, now), Remember(m, Exited(op, code, now)))
  {
    assert op == s.started && s.live.Keys == {op};
    assert s.active == |s.live.Keys| == 1;
    assert AfterExit(s, op, code, now).live == map[];
  }

  lemma ExitKeepsTrace(s: Service, m: Memory, op: nat, code: int, now: int)
    requires LockInv(s, m) && TraceInv(s) && op in s.live
    ensures TraceInv(AfterExit(s, op, code, now))
  {
    assert op == s.started && s.live.Keys == {op};
    assert AfterExit(s, op, code, now).live == map[];
  }

  lemma ExitKeepsOps(s: Service, m: Memory, op: nat, s': Service, m': Memory)
    requires OutputInv(s, m) && s'.started == s.started && s.live.Keys == {op} && s'.live == map[]
    requires op in m'.exits && m'.exits == m.exits[op := m'.exits[op]] && m'.outputs == m.outputs
    requires forall k :: k != op ==> SignalsOf(s'.trace, k) == SignalsOf(s.trace, k)
    requires Delivered(SignalsOf(s'.trace, op), Written(m', op), m'.exits[op])
    ensures OutputInv(s', m')
  {
    OthersKeepOpInv(s, m, s', m', op);
    assert OpInv(s', m', op);
  }

  lemma ExitKeepsInv(s: Service, m: Memory, op: nat, code: int, now: int)
    requires ServiceInv(s, m) && Possible(s, Exited(op, code, now))
    ensures ServiceInv(AfterExit(s, op, code, now), Remember(m, Exited(op, code, now)))
  {
    LiveIsUnderway(s, m, op);
    ExitKeepsLock(s, m, op, code, now);
    ExitKeepsTrace(s, m, op, code, now);
    FinishedSignals(s.trace, op, code);
    assert forall k :: k != op ==> SignalsOf(s.trace, k) + [] == SignalsOf(s.trace, k);
    FinishDelivers(SignalsOf(s.trace, op), s.live[op], Written(m, op), code);
    assert AfterExit(s, op, code, now).live == map[];
    ExitKeepsOps(s, m, op, AfterExit(s, op, code, now), Remember(m, Exited(op, code, now)));
  }

  lemma FreshUnderway()
    ensures Underway(Operation(Fresh([]), true), [], "")
  {
    assert Split("", '\n') == [[]];
    assert [] + [[]] + [] == [] + [""];
  }

  lemma SpawnKeepsOps(s: Service, m: Memory, m': Memory)
    requires TraceInv(s) && OutputInv(s, m) && s.live == map[]
    requires m'.outputs == m.outputs && m'.exits == m.exits
    ensures OutputInv(Spawn(s), m')
  {
    var s' := Spawn(s);
    SignalsOfStranger(s.trace, s'.started);
    FreshUnderway();
    assert s'.started !in m.outputs;
    assert OpInv(s', m', s'.started);
    OthersKeepOpInv(s, m, s', m', s'.started);
  }

  /** Only the history, the trace and the running operations matter to what the operations
      have delivered. */
  lemma BookkeepingKeepsOps(s: Service, m: Memory, s': Service, m': Memory)
    requires s' == s.(active := s'.active, operation := s'.operation,
                      lastActivity := s'.lastActivity, exitRequested := s'.exitRequested)
    requires m'.outputs == m.outputs && m'.exits == m.exits
    requires TraceInv(s) && OutputInv(s, m)
    ensures TraceInv(s') && OutputInv(s', m')
  {
    forall op | 1 <= op <= s'.started ensures OpInv(s', m', op) {
      assert OpInv(s, m, op);
    }
  }

  /** The methods and what they are, one by one. */
  lemma KindsAre(m: Method)
    ensures KindOf(m).StreamingOp? <==> Streams(m)
    ensures KindOf(m).BlockingOp? <==> Blocks(m)
    ensures ChecksArguments(m) <==> Checked(m)
    ensures !KindOf(m).NoOp? ==> KindOf(m).title == Title(m)
  {
  }

  lemma TitlesAreNotEmpty(m: Method)
    ensures Title(m) != ""
  {
  }

  /** The handlers' sentence is the history's. */
  lemma BusyMessageIsSentence(s: Service, m: Memory, external: string)
    requires LockInv(s, m)
    ensures BusyMessage(s.active, s.operation, external) == Sentence(m, external)
    ensures Sentence(m, external) == "" <==> m.holder.None? && external == ""
    ensures s.live == map[] <==> m.holder.None?
  {
    assert |s.live| == |s.live.Keys|;
    if m.holder.Some? {
      TitlesAreNotEmpty(m.holder.value);
      assert s.live.Keys == {m.granted};
    } else {
      assert s.live == map[];
    }
  }

  /** Which calls are granted, and that nothing was running then. */
  lemma GrantedIff(s: Service, m: Memory, c: Call)
    requires LockInv(s, m)
    ensures AfterCall(s, c).1.Started? <==> Streams(c.name) && Grants(m, c)
    ensures Grants(m, c) ==> s.live == map[]
  {
    KindsAre(c.name);
    BusyMessageIsSentence(s, m, c.external);
  }

  lemma SpawnKeepsLock(s: Service, m: Memory, c: Call)
    requires LockInv(s, m) && m.holder.None? && s.live == map[] && Streams(c.name)
    ensures LockInv(Spawn(Begun(s, c)), m.(touched := c.now, holder := Some(c.name), granted := m.granted + 1))
  {
    KindsAre(c.name);
    var s' := Spawn(Begun(s, c));
    assert s'.live.Keys == {s'.started} && |s'.live| == |s'.live.Keys|;
  }

  lemma OtherCallKeepsLock(s: Service, m: Memory, c: Call)
    requires LockInv(s, m) && !AfterCall(s, c).1.Started?
    ensures LockInv(AfterCall(s, c).0, m.(touched := c.now))
  {
    KindsAre(c.name);
    BusyMessageIsSentence(s, m, c.external);
  }

  lemma CallKeepsLock(s: Service, m: Memory, c: Call)
    requires LockInv(s, m)
    ensures LockInv(AfterCall(s, c).0, Remember(m, Called(c)))
    ensures AfterCall(s, c).1.Started? ==> s.live == map[]
  {
    GrantedIff(s, m, c);
    if AfterCall(s, c).1.Started? {
      SpawnKeepsLock(s, m, c);
    } else {
      OtherCallKeepsLock(s, m, c);
    }
  }

  lemma CallKeepsOps(s: Service, m: Memory, c: Call)
    requires TraceInv(s) && OutputInv(s, m)
    requires AfterCall(s, c).1.Started? ==> s.live == map[]
    ensures TraceInv(AfterCall(s, c).0) && OutputInv(AfterCall(s, c).0, Remember(m, Called(c)))
  {
    var m' := Remember(m, Called(c));
    if AfterCall(s, c).1.Started? {
      BookkeepingKeepsOps(s, m, Begun(s, c), m);
      SpawnKeepsOps(Begun(s, c), m, m');
    } else {
      BookkeepingKeepsOps(s, m, AfterCall(s, c).0, m');
    }
  }

  lemma CallKeepsInv(s: Service, m: Memory, c: Call)
    requires ServiceInv(s, m)
    ensures ServiceInv(AfterCall(s, c).0, Remember(m, Called(c)))
  {
    CallKeepsLock(s, m, c);
    CallKeepsOps(s, m, c);
  }

  lemma StepKeepsInv(s: Service, m: Memory, h: Happening)
    requires ServiceInv(s, m) && Possible(s, h)
    ensures ServiceInv(Next(s, h), Remember(m, h))
  {
    match h
    case Called(c) => CallKeepsInv(s, m, c);
    case Output(op, e) => OutputKeepsInv(s, m, op, e);
    case EndOfOutput(op) => EndOfOutputKeepsInv(s, m, op);
    case Exited(op, code, now) => ExitKeepsInv(s, m, op, code, now);
    case IdleCheck(_, _) => BookkeepingKeepsOps(s, m, Next(s, h), m);
  }

  lemma {:induction false} ServeKeepsInv(s: Service, m: Memory, hs: seq<Happening>)
    requires ServiceInv(s, m) && Feasible(s, hs)
    ensures ServiceInv(Serve(s, hs), RememberAll(m, hs))
    decreases hs
  {
    if hs != [] {
      StepKeepsInv(s, m, hs[0]);
      ServeKeepsInv(Next(s, hs[0]), Remember(m, hs[0]), hs[1..]);
    }
  }

  // --- Main results ---

  /** In every run, told by its history alone: the running operation is the one granted last,
      if it has not exited, and the counter and the label say so; operations never interleave
      on the bus; every ended operation delivered exactly the lines its process wrote and then
      exactly one `Finished`, with the code that process exited with. */
  lemma EveryRunIsSerial(now: int, hs: seq<Happening>)
    requires Feasible(Idle(now), hs)
    ensures var s, m := Serve(Idle(now), hs), History(now, hs);
            && s.live.Keys == (if m.holder.Some? then {m.granted} else {})
            && s.started == m.granted
            && s.active == (if m.holder.Some? then 1 else 0)
            && s.operation == (if m.holder.Some? then Title(m.holder.value) else "")
            && s.lastActivity == m.touched
            && Orderly(s.trace)
            && (forall op :: 1 <= op <= m.granted && op !in s.live ==>
                  op in m.exits && Delivered(SignalsOf(s.trace, op), Written(m, op), m.exits[op]))
            && (forall op :: op in s.live ==> AllProgress(SignalsOf(s.trace, op)))
            && (forall i :: 0 <= i < |s.trace| ==> 1 <= s.trace[i].op <= m.granted)
  {
    ServeKeepsInv(Idle(now), Memory(None, 0, map[], map[], now), hs);
    var s, m := Serve(Idle(now), hs), History(now, hs);
    assert |s.live| == |s.live.Keys|;
    forall op | 1 <= op <= m.granted && op !in s.live
      ensures op in m.exits && Delivered(SignalsOf(s.trace, op), Written(m, op), m.exits[op])
    {
      assert OpInv(s, m, op);
    }
    forall op | op in s.live ensures AllProgress(SignalsOf(s.trace, op)) {
      assert op == m.granted && OpInv(s, m, op);
    }
  }

  /** The clamp at zero is never used: an operation that ends was counted. */
  lemma EndOpNeverClamps(now: int, hs: seq<Happening>, op: nat, code: int, later: int)
    requires Feasible(Idle(now), hs)
    requires Possible(Serve(Idle(now), hs), Exited(op, code, later))
    ensures AfterExit(Serve(Idle(now), hs), op, code, later).active == Serve(Idle(now), hs).active - 1 == 0
  {
    EveryRunIsSerial(now, hs);
  }

  /** Nor by a blocking call, which begins and ends its operation inside the call and runs
      every process of it. */
  lemma BlockingEndNeverClamps(now: int, hs: seq<Happening>, c: Call)
    requires Feasible(Idle(now), hs) && !KindOf(c.name).NoOp?
    requires AfterCall(Serve(Idle(now), hs), c).1.Ran?
    ensures var s := Serve(Idle(now), hs);
            var (s', reply) := AfterCall(s, c);
            && Begun(s, c).active == 1 && s'.active == Begun(s, c).active - 1 == 0
            && s'.live == s.live == map[] && s'.trace == s.trace
            && |reply.sections| == |c.processes|
            && (forall i :: 0 <= i < |c.processes| ==>
                  reply.sections[i] == Section(c.processes[i].name, c.processes[i].code == 0))
            && (reply.ok <==> forall i :: 0 <= i < |c.processes| ==> c.processes[i].code == 0)
  {
    ServeKeepsInv(Idle(now), Memory(None, 0, map[], map[], now), hs);
    BusyMessageIsSentence(Serve(Idle(now), hs), History(now, hs), c.external);
    KindsAre(c.name);
  }

  /** Which answer every call gets, from the history alone: a call that wants the lock gets it
      exactly when nothing runs here or outside, it is authorized and its checked arguments
      are good, the refusals coming in that order; the status call says whether and why it
      would be refused; the other calls never look at the lock. */
  lemma LockDecision(now: int, hs: seq<Happening>, c: Call)
    requires Feasible(Idle(now), hs)
    ensures var s, m := Serve(Idle(now), hs), History(now, hs);
            var (s', reply) := AfterCall(s, c);
            var sentence := Sentence(m, c.external);
            && (reply.Started? <==> Streams(c.name) && Grants(m, c))
            && (reply.Ran? <==> Blocks(c.name) && Grants(m, c))
            && ((Streams(c.name) || Blocks(c.name)) && !Grants(m, c) ==>
                  reply == if sentence != "" then Busy(sentence)
                           else if !c.authorized then AccessDenied else InvalidArguments)
            && (c.name == PackageStatus ==> reply == Status(m.holder.Some? || c.external != "", sentence))
            && (!Streams(c.name) && !Blocks(c.name) && c.name != PackageStatus ==> reply == Unlocked)
            && (reply.Started? <==> s'.started == s.started + 1)
            && (!reply.Started? ==> s'.live == s.live && s'.active == s.active && s'.trace == s.trace)
  {
    ServeKeepsInv(Idle(now), Memory(None, 0, map[], map[], now), hs);
    BusyMessageIsSentence(Serve(Idle(now), hs), History(now, hs), c.external);
    KindsAre(c.name);
  }

  /** The idle exit is requested only while no operation is active, whatever the clock and the
      installed version say, and then exactly when the code changed or 120 seconds have passed
      since the last call or exit. */
  lemma ExitOnlyWhenIdle(now: int, hs: seq<Happening>, at: int, changed: bool)
    requires Feasible(Idle(now), hs)
    ensures var s, m := Serve(Idle(now), hs), History(now, hs);
            var s' := AfterIdleCheck(s, at, changed);
            && s' == s.(exitRequested := s'.exitRequested)
            && (s'.exitRequested <==> s.exitRequested || (m.holder.None? && (changed || at - m.touched >= 120)))
  {
    EveryRunIsSerial(now, hs);
  }

  // --- The service object ---

  /** The object itself: counters, the running operations, the bus. An operation's
      stream cells are held as a value; `Streaming.LineStreamer` is the callbacks' code
      on those cells, proved to compute exactly `After` and `AfterEof`. */
  class PackageService {
    var active: int
    var operation: string
    var live: map<nat, Operation>
    var started: nat
    var lastActivity: int
    var exitRequested: bool
    var trace: seq<Tagged>

    ghost function State(): Service
      reads this
    {
      Service(active, operation, live, started, lastActivity, exitRequested, trace)
    }

    constructor (now: int)
      ensures State() == Idle(now)
    {
      active, operation, live, started := 0, "", map[], 0;
      lastActivity, exitRequested, trace := now, false, [];
    }

    method BeginOp(title: string)
      modifies this
      ensures State() == old(State()).(active := old(active) + 1, operation := title)
    {
      active := active + 1;
      operation := title;
    }

    method EndOperation(now: int)
      modifies this
      ensures State() == EndOp(old(State()), now)
    {
      active := if active - 1 > 0 then active - 1 else 0;
      if active == 0 {
        operation := "";
      }
      lastActivity := now;
    }

    /** Every lock-taking handler: refuse if busy, then polkit, then the arguments,
        and only then start; a read-only call changes nothing but the idle clock. */
    method OnMethodCall(c: Call) returns (reply: Reply)
      modifies this
      ensures (State(), reply) == AfterCall(old(State()), c)
    {
      lastActivity := c.now;
      var busy := BusyMessage(active, operation, c.external);
      if c.name == PackageStatus {
        return Status(busy != "", busy);
      }
      if KindOf(c.name).NoOp? {
        return Unlocked;
      }
      if busy != "" {
        return Busy(busy);
      }
      if !c.authorized {
        return AccessDenied;
      }
      if ChecksArguments(c.name) && !c.argumentsOk {
        return InvalidArguments;
      }
      BeginOp(KindOf(c.name).title);
      if KindOf(c.name).BlockingOp? {
        var ok, sections := RunAll(c.processes);
        EndOperation(c.now);
        return Ran(ok, sections);
      }
      SpawnStreaming();
      return Started;
    }

    /** The processes a blocking call runs one after the other, all of them. */
    method RunAll(processes: seq<Process>) returns (ok: bool, sections: seq<Section>)
      ensures ok == AllExitedZero(processes)
      ensures sections == Sections(processes)
    {
      ok, sections := true, [];
      for i := 0 to |processes|
        invariant ok == AllExitedZero(processes[..i])
        invariant sections == Sections(processes[..i])
      {
        var code := processes[i].code;
        if code != 0 {
          ok := false;
        }
        sections := sections + [Section(processes[i].name, code == 0)];
        assert processes[..i + 1] == processes[..i] + [processes[i]];
      }
      assert processes[..|processes|] == processes;
    }

    method SpawnStreaming()
      modifies this
      ensures State() == Spawn(old(State()))
    {
      started := started + 1;
      live := live[started := Operation(Fresh([]), true)];
    }

    /** A stream callback of `op` left its cells as `next`; its new signals go out. */
    method Emit(op: nat, next: Stream, reading: bool)
      requires op in live && |live[op].stream.signals| <= |next.signals|
      modifies this
      ensures State() == Publish(old(State()), op, next, reading)
    {
      var emitted := next.signals[|live[op].stream.signals|..];
      live := live[op := Operation(next, reading)];
      trace := trace + Tag(op, emitted);
    }

    method OnOutput(op: nat, e: Event)
      requires Possible(State(), Output(op, e))
      modifies this
      ensures State() == AfterOutput(old(State()), op, e)
    {
      Emit(op, After(live[op].stream, e), true);
    }

    method OnEof(op: nat)
      requires Possible(State(), EndOfOutput(op))
      modifies this
      ensures State() == AfterEndOfOutput(old(State()), op)
    {
      Emit(op, AfterEof(live[op].stream), false);
    }

    method OnDone(op: nat, code: int, now: int)
      requires Possible(State(), Exited(op, code, now))
      modifies this
      ensures State() == AfterExit(old(State()), op, code, now)
    {
      trace := trace + [Tagged(op, Finished(code))];
      live := live - {op};
      EndOperation(now);
    }

    method OnIdleCheck(now: int, codeChanged: bool)
      modifies this
      ensures State() == AfterIdleCheck(old(State()), now, codeChanged)
    {
      if ShouldExit(active, now - lastActivity, codeChanged) {
        exitRequested := true;
      }
    }
  }
}
