/** The install loop. */
module InstallEngine {
  import opened Splitting
  import opened StateStore

  // Ordered steps with retry, skip and abort, one teardown at the end, resumable through the
  // completed-step store.

  /** What a step's own check asks: the world, the store for a key (mostly, but not always,
      the step's own), or both. */
  datatype Check = AsksWorld | AsksStore(asked: string) | AsksBoth(asked: string)

  datatype Step = Step(key: string, opensChroot: bool, check: Check)

  datatype Probe = Satisfied | Unsatisfied | ProbeRaises

  datatype Action = Retry | Skip | Abort

  /** How running a step ends. Many steps mark themselves as the last thing they do; if that
      mark cannot be saved the run fails, with the mark in memory only. */
  datatype Run = Fails | FailsToMark | Works | WorksAndMarks

  /** The outside world's answers for one turn of the loop: what a probe would say, how
      running the step ends, whether the target's /etc has appeared by then, whether the
      engine's own mark can be saved, and what the user chooses after a failure. */
  datatype Turn = Turn(probe: Probe, run: Run, targetAppears: bool, saves: bool, action: Action)

  predicate Succeeds(t: Turn) {
    t.run.Works? || t.run.WorksAndMarks?
  }

  predicate MarksItself(t: Turn) {
    t.run.FailsToMark? || t.run.WorksAndMarks?
  }

  /** `OwnMark` is the mark a step makes itself, saved or not; `MarkSaved` the engine's. */
  datatype Entry =
    | Probed(index: nat, answer: Probe)
    | Ran(index: nat, succeeded: bool)
    | OwnMark(key: string, saved: bool)
    | MarkSaved(key: string)
    | Passed(index: nat, reason: Reason)
    | TornDown

  datatype Reason = WasSatisfied | Succeeded | Skipped

  /** Killed: the process died before the run could end. */
  datatype Outcome = Completed | Raised | Killed

  /** The loop between turns. `chrootOpen` is whether a chroot-opening step completed. */
  datatype Loop = Loop(index: nat, chrootOpen: bool, session: Session, log: seq<Entry>)

  datatype Result = Result(outcome: Outcome, loop: Loop)

  // --- One turn ---

  datatype Next = Go(loop: Loop) | Stop(loop: Loop)

  /** `mark` then advance, or raise if the mark cannot be saved. */
  function MarkAndAdvance(l: Loop, step: Step, reason: Reason, saves: bool): Next {
    if saves then
      Go(l.(session := Marked(l.session, step.key), index := l.index + 1,
            log := l.log + [MarkSaved(step.key), Passed(l.index, reason)]))
    else Stop(l.(session := MarkedUnsaved(l.session, step.key)))
  }

  function IsSatisfied(s: Session, step: Step, probe: Probe): Probe {
    match step.check
    case AsksWorld => probe
    case AsksStore(key) => if key in s.done then Satisfied else Unsatisfied
    case AsksBoth(key) => if probe == Satisfied && key !in s.done then Unsatisfied else probe
  }

  function AfterProbe(steps: seq<Step>, l: Loop, t: Turn): Loop
    requires l.index < |steps|
  {
    l.(log := l.log + [Probed(l.index, IsSatisfied(l.session, steps[l.index], t.probe))])
  }

  function WithOwnMark(log: seq<Entry>, key: string, run: Run): seq<Entry> {
    match run
    case FailsToMark => log + [OwnMark(key, false)]
    case WorksAndMarks => log + [OwnMark(key, true)]
    case _ => log
  }

  function AfterOwnMark(s: Session, key: string, run: Run): Session {
    match run
    case FailsToMark => MarkedUnsaved(s, key)
    case WorksAndMarks => Marked(s, key)
    case _ => s
  }

  /** The step at `index` did its work. */
  function AfterWork(steps: seq<Step>, l: Loop, t: Turn): Loop
    requires l.index < |steps|
  {
    Loop(l.index, l.chrootOpen || (Succeeds(t) && steps[l.index].opensChroot),
         if t.targetAppears then TargetAppeared(l.session) else l.session,
         l.log + [Ran(l.index, Succeeds(t))])
  }

  /** ... and its run is over. */
  function AfterRunning(steps: seq<Step>, l: Loop, t: Turn): Loop
    requires l.index < |steps|
  {
    var key, worked := steps[l.index].key, AfterWork(steps, l, t);
    worked.(session := AfterOwnMark(worked.session, key, t.run), log := WithOwnMark(worked.log, key, t.run))
  }

  /** What becomes of a step that ran. */
  function AfterRun(step: Step, hasHook: bool, ran: Loop, t: Turn): Next {
    if Succeeds(t) then MarkAndAdvance(ran, step, Succeeded, t.saves)
    else if hasHook && t.action == Retry then Go(ran)
    else if hasHook && t.action == Skip then MarkAndAdvance(ran, step, Skipped, t.saves)
    else Stop(ran)
  }

  function TakeTurn(steps: seq<Step>, hasHook: bool, l: Loop, t: Turn): Next
    requires l.index < |steps|
  {
    var probed := AfterProbe(steps, l, t);
    match IsSatisfied(l.session, steps[l.index], t.probe)
    case ProbeRaises => Stop(probed)
    case Satisfied => Go(probed.(index := l.index + 1, log := probed.log + [Passed(l.index, WasSatisfied)]))
    case Unsatisfied => AfterRun(steps[l.index], hasHook, AfterRunning(steps, probed, t), t)
  }

  /** The `finally`: tear down exactly if a chroot was opened. */
  function Close(outcome: Outcome, l: Loop): Result {
    Result(outcome, if l.chrootOpen && outcome != Killed then l.(log := l.log + [TornDown]) else l)
  }

  function Continue(steps: seq<Step>, hasHook: bool, l: Loop, env: seq<Turn>): Result
    decreases env
  {
    if l.index >= |steps| then Close(Completed, l)
    else if env == [] then Close(Killed, l)
    else match TakeTurn(steps, hasHook, l, env[0])
      case Go(next) => Continue(steps, hasHook, next, env[1..])
      case Stop(last) => Close(Raised, last)
  }

  function RunFrom(steps: seq<Step>, hasHook: bool, s: Session, env: seq<Turn>): Result {
    Continue(steps, hasHook, Loop(0, false, s, []), env)
  }

  lemma ContinueOnce(steps: seq<Step>, hasHook: bool, l: Loop, env: seq<Turn>, turn: nat)
    requires l.index < |steps| && turn < |env|
    ensures var next := TakeTurn(steps, hasHook, l, env[turn]);
            Continue(steps, hasHook, l, env[turn..]) ==
              if next.Go? then Continue(steps, hasHook, next.loop, env[turn + 1..]) else Close(Raised, next.loop)
  {
    assert env[turn..][0] == env[turn] && env[turn..][1..] == env[turn + 1..];
  }

  /** A step's run, as far as the store and the log are concerned. */
  method RunStep(step: Step, l: Loop, t: Turn) returns (after: Loop)
    ensures var s := if t.targetAppears then TargetAppeared(l.session) else l.session;
            after == l.(session := AfterOwnMark(s, step.key, t.run),
                        log := WithOwnMark(l.log + [Ran(l.index, Succeeds(t))], step.key, t.run))
  {
    after := l.(log := l.log + [Ran(l.index, Succeeds(t))]);
    if t.targetAppears {
      after := after.(session := TargetAppeared(after.session));
    }
    if t.run == WorksAndMarks {
      after := after.(session := Marked(after.session, step.key), log := after.log + [OwnMark(step.key, true)]);
    } else if t.run == FailsToMark {
      after := after.(session := MarkedUnsaved(after.session, step.key), log := after.log + [OwnMark(step.key, false)]);
    }
  }

  /** The engine's own mark, and on to the next step if it could be saved. */
  method MarkStep(step: Step, l: Loop, reason: Reason, saves: bool) returns (after: Loop)
    ensures MarkAndAdvance(l, step, reason, saves) == if saves then Go(after) else Stop(after)
  {
    if !saves {
      return l.(session := MarkedUnsaved(l.session, step.key));
    }
    after := l.(session := Marked(l.session, step.key), index := l.index + 1,
                log := l.log + [MarkSaved(step.key), Passed(l.index, reason)]);
  }

  /** The loop as written, one script of answers long. */
  method RunInstall(steps: seq<Step>, hasHook: bool, s: Session, env: seq<Turn>) returns (r: Result)
    ensures r == RunFrom(steps, hasHook, s, env)
  {
    var l := Loop(0, false, s, []);
    var turn := 0;
    var outcome := Completed;
    while l.index < |steps|
      invariant turn <= |env|
      invariant Continue(steps, hasHook, l, env[turn..]) == RunFrom(steps, hasHook, s, env)
      decreases |env| - turn
    {
      if turn == |env| {
        assert env[turn..] == [];
        return Result(Killed, l);
      }
      var t := env[turn];
      ghost var next := TakeTurn(steps, hasHook, l, t);
      ContinueOnce(steps, hasHook, l, env, turn);
      turn := turn + 1;
      var step := steps[l.index];
      var satisfied := IsSatisfied(l.session, step, t.probe);
      l := l.(log := l.log + [Probed(l.index, satisfied)]);
      if satisfied == ProbeRaises {
        assert next == Stop(l);
        outcome := Raised;
        break;
      }
      if satisfied == Satisfied {
        l := l.(log := l.log + [Passed(l.index, WasSatisfied)], index := l.index + 1);
        assert next == Go(l);
        continue;
      }
      assert next == AfterRun(step, hasHook, AfterRunning(steps, l, t), t);
      l := RunStep(step, l, t);
      var reason := Succeeded;
      if !Succeeds(t) {
        if !hasHook || t.action == Abort {
          assert next == Stop(l);
          outcome := Raised;
          break;
        }
        if t.action == Retry {
          assert next == Go(l);
          continue;
        }
        reason := Skipped;
      } else if step.opensChroot {
        l := l.(chrootOpen := true);
      }
      assert next == MarkAndAdvance(l, step, reason, t.saves);
      l := MarkStep(step, l, reason, t.saves);
      if !t.saves {
        outcome := Raised;
        break;
      }
    }
    if l.chrootOpen {
      l := l.(log := l.log + [TornDown]);
    }
    return Result(outcome, l);
  }

  /** What was added to a log: no teardown, and no run of any step but `k`. */
  predicate AddsRunsOf(before: seq<Entry>, after: seq<Entry>, k: nat) {
    before <= after && forall j :: |before| <= j < |after| ==> OnlyRuns(after[j], k)
  }

  predicate OnlyRuns(e: Entry, k: nat) {
    !e.TornDown? && (e.Ran? ==> e.index == k)
  }

  lemma RunAdds(steps: seq<Step>, hasHook: bool, p: Loop, t: Turn)
    requires p.index < |steps|
    ensures AddsRunsOf(p.log, AfterRun(steps[p.index], hasHook, AfterRunning(steps, p, t), t).loop.log, p.index)
  {
    var ran := AfterRunning(steps, p, t).log;
    assert AddsRunsOf(p.log, ran, p.index);
    forall e: Entry, f: Entry | OnlyRuns(e, p.index) && OnlyRuns(f, p.index)
      ensures AddsRunsOf(p.log, ran + [e, f], p.index)
    {
    }
  }

  lemma TurnAdds(steps: seq<Step>, hasHook: bool, l: Loop, t: Turn)
    requires l.index < |steps|
    ensures AddsRunsOf(l.log, TakeTurn(steps, hasHook, l, t).loop.log, l.index)
  {
    RunAdds(steps, hasHook, AfterProbe(steps, l, t), t);
  }

  // --- What a log must look like ---

  /** What a run was given: the steps, the store it started with and every answer. */
  datatype Script = Script(steps: seq<Step>, hasHook: bool, start: Session, env: seq<Turn>)

  /** How many steps the log has passed. */
  function PassedCount(log: seq<Entry>): nat {
    if log == [] then 0 else PassedCount(Front(log)) + if Last(log).Passed? then 1 else 0
  }

  /** How many turns the log has taken: each begins with a probe. */
  function Turns(log: seq<Entry>): nat {
    if log == [] then 0 else Turns(Front(log)) + if Last(log).Probed? then 1 else 0
  }

  predicate Saves(e: Entry) {
    e.MarkSaved? || (e.OwnMark? && e.saved)
  }

  /** The keys whose marks were saved. */
  function SavedKeys(log: seq<Entry>): set<string> {
    set i | 0 <= i < |log| && Saves(log[i]) :: log[i].key
  }

  /** The keys the store was told, saved or not. */
  function MarkedKeys(log: seq<Entry>): set<string> {
    set i | 0 <= i < |log| && (log[i].MarkSaved? || log[i].OwnMark?) :: log[i].key
  }

  function KeyOf(e: Entry): set<string> {
    if e.MarkSaved? || e.OwnMark? then {e.key} else {}
  }

  /** A chroot-opening step ran to success. */
  predicate OpenedIn(steps: seq<Step>, log: seq<Entry>) {
    exists i :: 0 <= i < |log| && Opens(steps, log[i])
  }

  predicate Opens(steps: seq<Step>, e: Entry) {
    e.Ran? && e.succeeded && e.index < |steps| && steps[e.index].opensChroot
  }

  /** The answers of the turn the log is in. */
  predicate InTurn(sc: Script, log: seq<Entry>) {
    1 <= Turns(log) <= |sc.env|
  }

  function Current(sc: Script, log: seq<Entry>): Turn
    requires InTurn(sc, log)
  {
    sc.env[Turns(log) - 1]
  }

  /** The log without the mark a step has just made itself. */
  function ToRun(log: seq<Entry>): seq<Entry> {
    if log != [] && Last(log).OwnMark? then Front(log) else log
  }

  /** The log ends with a finished run: the run, then its own mark exactly if it makes one. */
  predicate RunOver(sc: Script, log: seq<Entry>) {
    && InTurn(sc, log) && ToRun(log) != [] && Last(ToRun(log)).Ran?
    && (Last(log).OwnMark? <==> MarksItself(Current(sc, log)))
  }

  function RunOf(sc: Script, log: seq<Entry>): Entry
    requires RunOver(sc, log)
  {
    Last(ToRun(log))
  }

  /** A new turn may begin: at the start, after a pass, or after a failure the user wants
      retried. */
  predicate MayBegin(sc: Script, log: seq<Entry>) {
    || log == []
    || Last(log).Passed?
    || (RunOver(sc, log) && RunOf(sc, log) == Ran(PassedCount(log), false)
        && sc.hasHook && Current(sc, log).action == Retry)
  }

  /** The engine is to mark the step that just ran: it succeeded, or its failure is skipped. */
  predicate WantsMark(sc: Script, log: seq<Entry>) {
    RunOver(sc, log) && (RunOf(sc, log).succeeded || (sc.hasHook && Current(sc, log).action == Skip))
  }

  predicate CannotMark(sc: Script, log: seq<Entry>) {
    WantsMark(sc, log) && !Current(sc, log).saves
  }

  /** A run ends by raising here: the probe raised, the step failed and nobody was asked or the
      answer was to abort, or its mark could not be saved. */
  predicate Raises(sc: Script, log: seq<Entry>) {
    || (log != [] && Last(log).Probed? && Last(log).answer == ProbeRaises)
    || (RunOver(sc, log) && !RunOf(sc, log).succeeded && (!sc.hasHook || Current(sc, log).action == Abort))
    || CannotMark(sc, log)
  }

  /** The store after what the log tells: every mark in it, saved or not, on the disk as the
      target's arrivals have left it. */
  function SessionOf(sc: Script, log: seq<Entry>): Session {
    if log == [] then sc.start
    else
      var before := SessionOf(sc, Front(log));
      match Last(log)
      case Ran(_, _) =>
        if InTurn(sc, Front(log)) && Current(sc, Front(log)).targetAppears then TargetAppeared(before) else before
      case OwnMark(key, saved) => if saved then Marked(before, key) else MarkedUnsaved(before, key)
      case MarkSaved(key) => Marked(before, key)
      case _ => before
  }

  /** The store's answer: yes if the key was in it at the start or marked since, and only if
      it was there (or in the live-session file) or marked since. */
  predicate StoreSays(sc: Script, log: seq<Entry>, key: string, answer: Probe) {
    && answer != ProbeRaises
    && (key in sc.start.done + MarkedKeys(log) ==> answer == Satisfied)
    && (answer == Satisfied ==> key in sc.start.done + ReadFile(sc.start.disk.runFile) + MarkedKeys(log))
  }

  predicate TrueAnswer(sc: Script, log: seq<Entry>, step: Step, answer: Probe)
    requires Turns(log) < |sc.env|
  {
    var probe := sc.env[Turns(log)].probe;
    match step.check
    case AsksWorld => answer == probe
    case AsksStore(key) => StoreSays(sc, log, key, answer)
    case AsksBoth(key) => if probe == Satisfied then StoreSays(sc, log, key, answer) else answer == probe
  }

  /** What may come next in a log: the next step is probed, a step runs only when its probe
      said no, it marks itself only as its run says, the engine's mark is saved only after
      the run is over and succeeded or is to be skipped, and the step is passed only right
      after the probe that said yes or that mark. */
  predicate Follows(sc: Script, log: seq<Entry>, e: Entry) {
    match e
    case Probed(k, answer) =>
      && k == PassedCount(log) && k < |sc.steps| && Turns(log) < |sc.env|
      && MayBegin(sc, log) && TrueAnswer(sc, log, sc.steps[k], answer)
    case Ran(k, succeeded) =>
      log != [] && Last(log) == Probed(k, Unsatisfied) && InTurn(sc, log) && succeeded == Succeeds(Current(sc, log))
    case OwnMark(key, saved) =>
      && log != [] && Last(log).Ran? && Last(log).index < |sc.steps| && key == sc.steps[Last(log).index].key
      && InTurn(sc, log) && Current(sc, log).run == if saved then WorksAndMarks else FailsToMark
    case MarkSaved(key) =>
      && RunOver(sc, log) && RunOf(sc, log).index < |sc.steps| && key == sc.steps[RunOf(sc, log).index].key
      && Current(sc, log).saves
      && (RunOf(sc, log).succeeded || (sc.hasHook && Current(sc, log).action == Skip))
    case Passed(k, WasSatisfied) => log != [] && Last(log) == Probed(k, Satisfied)
    case Passed(k, reason) =>
      && |log| >= 2 && k < |sc.steps| && Last(log) == MarkSaved(sc.steps[k].key)
      && RunOver(sc, Front(log)) && RunOf(sc, Front(log)) == Ran(k, reason == Succeeded)
    case TornDown => false
  }

  predicate InOrder(sc: Script, log: seq<Entry>) {
    log == [] || (InOrder(sc, Front(log)) && Follows(sc, Front(log), Last(log)))
  }

  predicate LogInv(sc: Script, l: Loop) {
    && InOrder(sc, l.log)
    && PassedCount(l.log) == l.index <= |sc.steps|
    && (l.chrootOpen <==> OpenedIn(sc.steps, l.log))
  }

  /** The store knows what it knew and what was marked since, and no more than that. */
  predicate StoreInv(sc: Script, l: Loop) {
    StoreKnows(sc.start, l.session, MarkedKeys(l.log))
  }

  predicate StoreKnows(start: Session, now: Session, marked: set<string>) {
    var all := start.done + ReadFile(start.disk.runFile) + marked;
    && start.done + marked <= now.done <= all
    && ReadFile(now.disk.runFile) <= all
  }

  predicate LoopInv(sc: Script, l: Loop, left: seq<Turn>) {
    && LogInv(sc, l) && StoreInv(sc, l) && MayBegin(sc, l.log) && l.session == SessionOf(sc, l.log)
    && Turns(l.log) <= |sc.env| && left == sc.env[Turns(l.log)..]
  }

  /** The loop inside the turn with answers `t`, `left` still to come. */
  predicate TurnInv(sc: Script, l: Loop, t: Turn, left: seq<Turn>) {
    && LogInv(sc, l) && StoreInv(sc, l) && l.index < |sc.steps| && l.session == SessionOf(sc, l.log)
    && InTurn(sc, l.log) && Current(sc, l.log) == t && left == sc.env[Turns(l.log)..]
  }

  /** The run raises at the end of this turn. */
  predicate StopInv(sc: Script, l: Loop) {
    && LogInv(sc, l) && l.index < |sc.steps| && Raises(sc, l.log)
    && l.session == LastSession(sc, l.log)
  }

  /** A mark that could not be saved when the run raised is in memory only. */
  function LastSession(sc: Script, log: seq<Entry>): Session {
    if CannotMark(sc, log) && RunOf(sc, log).index < |sc.steps|
    then MarkedUnsaved(SessionOf(sc, log), sc.steps[RunOf(sc, log).index].key)
    else SessionOf(sc, log)
  }

  predicate NextInv(sc: Script, next: Next, left: seq<Turn>) {
    match next
    case Go(l) => LoopInv(sc, l, left)
    case Stop(l) => StopInv(sc, l)
  }

  lemma KeysAppend(log: seq<Entry>, e: Entry)
    ensures SavedKeys(log + [e]) == SavedKeys(log) + if Saves(e) then {e.key} else {}
    ensures MarkedKeys(log + [e]) == MarkedKeys(log) + KeyOf(e)
  {
    var log' := log + [e];
    assert log'[|log|] == e;
    assert forall i :: 0 <= i < |log| ==> log'[i] == log[i];
  }

  lemma AppendEntry(sc: Script, log: seq<Entry>, e: Entry)
    requires InOrder(sc, log) && Follows(sc, log, e)
    ensures InOrder(sc, log + [e]) && Last(log + [e]) == e && Front(log + [e]) == log
    ensures PassedCount(log + [e]) == PassedCount(log) + if e.Passed? then 1 else 0
    ensures Turns(log + [e]) == Turns(log) + if e.Probed? then 1 else 0
    ensures MarkedKeys(log + [e]) == MarkedKeys(log) + KeyOf(e)
    ensures OpenedIn(sc.steps, log + [e]) <==> OpenedIn(sc.steps, log) || Opens(sc.steps, e)
  {
    assert Front(log + [e]) == log;
    KeysAppend(log, e);
    OpenedAppend(sc.steps, log, e);
  }

  lemma OpenedAppend(steps: seq<Step>, log: seq<Entry>, e: Entry)
    ensures OpenedIn(steps, log + [e]) <==> OpenedIn(steps, log) || Opens(steps, e)
  {
    var log' := log + [e];
    assert log'[|log|] == e;
    assert forall i :: 0 <= i < |log| ==> log'[i] == log[i];
  }

  /** The run of the current step is over, in a turn with answers `t`. */
  predicate RanInv(sc: Script, l: Loop, t: Turn, left: seq<Turn>) {
    TurnInv(sc, l, t, left) && RunOver(sc, l.log) && RunOf(sc, l.log) == Ran(l.index, Succeeds(t))
  }

  /** The mark of the step that ran, then its pass. */
  lemma MarkedEntries(sc: Script, l: Loop, reason: Reason)
    requires LogInv(sc, l) && l.index < |sc.steps| && RunOver(sc, l.log) && Current(sc, l.log).saves
    requires RunOf(sc, l.log) == Ran(l.index, reason == Succeeded) && reason != WasSatisfied
    requires reason == Skipped ==> sc.hasHook && Current(sc, l.log).action == Skip
    ensures var key := sc.steps[l.index].key;
            var log := l.log + [MarkSaved(key), Passed(l.index, reason)];
            && InOrder(sc, log) && PassedCount(log) == l.index + 1 && Turns(log) == Turns(l.log)
            && MarkedKeys(log) == MarkedKeys(l.log) + {key} && Last(log).Passed?
            && SessionOf(sc, log) == Marked(SessionOf(sc, l.log), key)
            && (OpenedIn(sc.steps, log) <==> OpenedIn(sc.steps, l.log))
  {
    var key := sc.steps[l.index].key;
    var mid := l.log + [MarkSaved(key)];
    AppendEntry(sc, l.log, MarkSaved(key));
    AppendEntry(sc, mid, Passed(l.index, reason));
    assert l.log + [MarkSaved(key), Passed(l.index, reason)] == mid + [Passed(l.index, reason)];
  }

  /** What the store may know after a mark, saved or not. */
  lemma MarkKeepsStore(start: Session, now: Session, marked: set<string>, key: string)
    requires StoreKnows(start, now, marked)
    ensures StoreKnows(start, Marked(now, key), marked + {key})
    ensures StoreKnows(start, MarkedUnsaved(now, key), marked + {key})
  {
  }

  lemma MarkKeepsInv(sc: Script, l: Loop, t: Turn, reason: Reason, left: seq<Turn>)
    requires RanInv(sc, l, t, left) && reason != WasSatisfied && (reason == Succeeded <==> Succeeds(t))
    requires reason == Skipped ==> sc.hasHook && t.action == Skip
    ensures var next := MarkAndAdvance(l, sc.steps[l.index], reason, t.saves);
            NextInv(sc, next, left)
  {
    if t.saves {
      MarkedEntries(sc, l, reason);
      MarkKeepsStore(sc.start, l.session, MarkedKeys(l.log), sc.steps[l.index].key);
    }
  }

  lemma ProbeKeepsInv(sc: Script, l: Loop, left: seq<Turn>)
    requires LoopInv(sc, l, left) && l.index < |sc.steps| && left != []
    ensures var p := AfterProbe(sc.steps, l, left[0]);
            && TurnInv(sc, p, left[0], left[1..])
            && Last(p.log) == Probed(l.index, IsSatisfied(l.session, sc.steps[l.index], left[0].probe))
  {
    AppendEntry(sc, l.log, Probed(l.index, IsSatisfied(l.session, sc.steps[l.index], left[0].probe)));
  }

  lemma OwnMarkEntry(sc: Script, log: seq<Entry>, k: nat, saved: bool)
    requires InOrder(sc, log) && k < |sc.steps| && InTurn(sc, log)
    requires Current(sc, log).run == if saved then WorksAndMarks else FailsToMark
    requires log != [] && Last(log) == Ran(k, saved)
    ensures var more := log + [OwnMark(sc.steps[k].key, saved)];
            && InOrder(sc, more) && RunOver(sc, more) && RunOf(sc, more) == Ran(k, saved)
            && PassedCount(more) == PassedCount(log) && Turns(more) == Turns(log)
            && MarkedKeys(more) == MarkedKeys(log) + {sc.steps[k].key}
            && (OpenedIn(sc.steps, more) <==> OpenedIn(sc.steps, log))
  {
    AppendEntry(sc, log, OwnMark(sc.steps[k].key, saved));
  }

  lemma OwnMarkKeepsStore(start: Session, now: Session, marked: set<string>, key: string, t: Turn)
    requires StoreKnows(start, now, marked) && MarksItself(t)
    ensures StoreKnows(start, AfterOwnMark(now, key, t.run), marked + {key})
  {
    MarkKeepsStore(start, now, marked, key);
  }

  lemma OwnMarkKeepsInv(sc: Script, l: Loop, t: Turn, left: seq<Turn>, next: Loop)
    requires TurnInv(sc, l, t, left) && l.log != [] && Last(l.log) == Ran(l.index, Succeeds(t)) && MarksItself(t)
    requires next.index == l.index && next.chrootOpen == l.chrootOpen
    requires next.session == AfterOwnMark(l.session, sc.steps[l.index].key, t.run)
    requires next.log == l.log + [OwnMark(sc.steps[l.index].key, Succeeds(t))]
    ensures RanInv(sc, next, t, left)
  {
    OwnMarkEntry(sc, l.log, l.index, Succeeds(t));
    OwnMarkKeepsStore(sc.start, l.session, MarkedKeys(l.log), sc.steps[l.index].key, t);
  }

  lemma WorkKeepsInv(sc: Script, p: Loop, t: Turn, left: seq<Turn>)
    requires TurnInv(sc, p, t, left) && p.log != [] && Last(p.log) == Probed(p.index, Unsatisfied)
    ensures var worked := AfterWork(sc.steps, p, t);
            TurnInv(sc, worked, t, left) && Last(worked.log) == Ran(p.index, Succeeds(t))
  {
    AppendEntry(sc, p.log, Ran(p.index, Succeeds(t)));
  }

  /** The run, and the mark it may have made itself. */
  lemma RunEntries(sc: Script, p: Loop, t: Turn, left: seq<Turn>)
    requires TurnInv(sc, p, t, left) && p.log != [] && Last(p.log) == Probed(p.index, Unsatisfied)
    ensures RanInv(sc, AfterRunning(sc.steps, p, t), t, left)
  {
    WorkKeepsInv(sc, p, t, left);
    if MarksItself(t) {
      OwnMarkKeepsInv(sc, AfterWork(sc.steps, p, t), t, left, AfterRunning(sc.steps, p, t));
    }
  }

  lemma PassingKeepsInv(sc: Script, l: Loop, left: seq<Turn>)
    requires LoopInv(sc, l, left) && l.index < |sc.steps| && left != []
    requires IsSatisfied(l.session, sc.steps[l.index], left[0].probe) == Satisfied
    ensures var p := AfterProbe(sc.steps, l, left[0]);
            LoopInv(sc, p.(index := l.index + 1, log := p.log + [Passed(l.index, WasSatisfied)]), left[1..])
  {
    ProbeKeepsInv(sc, l, left);
    AppendEntry(sc, AfterProbe(sc.steps, l, left[0]).log, Passed(l.index, WasSatisfied));
  }

  lemma RunKeepsInv(sc: Script, ran: Loop, t: Turn, left: seq<Turn>)
    requires RanInv(sc, ran, t, left)
    ensures var next := AfterRun(sc.steps[ran.index], sc.hasHook, ran, t);
            NextInv(sc, next, left)
  {
    if Succeeds(t) {
      MarkKeepsInv(sc, ran, t, Succeeded, left);
    } else if sc.hasHook && t.action == Skip {
      MarkKeepsInv(sc, ran, t, Skipped, left);
    }
  }

  lemma TurnKeepsInv(sc: Script, l: Loop, left: seq<Turn>)
    requires LoopInv(sc, l, left) && l.index < |sc.steps| && left != []
    ensures var next := TakeTurn(sc.steps, sc.hasHook, l, left[0]);
            NextInv(sc, next, left[1..])
  {
    ProbeKeepsInv(sc, l, left);
    match IsSatisfied(l.session, sc.steps[l.index], left[0].probe) {
      case ProbeRaises =>
      case Satisfied => PassingKeepsInv(sc, l, left);
      case Unsatisfied =>
        var p := AfterProbe(sc.steps, l, left[0]);
        RunEntries(sc, p, left[0], left[1..]);
        RunKeepsInv(sc, AfterRunning(sc.steps, p, left[0]), left[0], left[1..]);
    }
  }

  /** The log of a run without its teardown. */
  function Untorn(log: seq<Entry>): seq<Entry> {
    if log != [] && Last(log) == TornDown then Front(log) else log
  }

  /** What every run, however it ends, looks like. */
  predicate GoodResult(sc: Script, r: Result) {
    var before := Untorn(r.loop.log);
    && InOrder(sc, before)
    && PassedCount(before) == r.loop.index <= |sc.steps|
    && (r.outcome == Completed <==> r.loop.index == |sc.steps|)
    && (r.outcome == Raised <==> Raises(sc, before))
    && (r.outcome != Raised ==> MayBegin(sc, before))
    && (r.outcome == Killed ==> Turns(before) == |sc.env|)
    && r.loop.session == LastSession(sc, before)
    && (r.loop.log != before <==> r.outcome != Killed && OpenedIn(sc.steps, before))
  }

  lemma CloseIsGood(sc: Script, l: Loop, left: seq<Turn>, outcome: Outcome)
    requires if outcome == Raised then StopInv(sc, l) else LoopInv(sc, l, left)
    requires outcome == Completed <==> l.index == |sc.steps|
    requires outcome == Killed ==> left == []
    ensures GoodResult(sc, Close(outcome, l))
  {
    assert Front(l.log + [TornDown]) == l.log;
  }

  lemma {:induction false} ContinueIsGood(sc: Script, l: Loop, left: seq<Turn>)
    requires LoopInv(sc, l, left)
    ensures GoodResult(sc, Continue(sc.steps, sc.hasHook, l, left))
    decreases left
  {
    if l.index >= |sc.steps| {
      CloseIsGood(sc, l, left, Completed);
    } else if left == [] {
      CloseIsGood(sc, l, left, Killed);
    } else {
      TurnKeepsInv(sc, l, left);
      match TakeTurn(sc.steps, sc.hasHook, l, left[0]) {
        case Go(next) => ContinueIsGood(sc, next, left[1..]);
        case Stop(last) => CloseIsGood(sc, last, left, Raised);
      }
    }
  }

  // --- Main results ---

  /** For every step list, store and script of answers: steps are probed, run and passed in
      list order; a step is passed only when its probe said it is satisfied (the key it asks
      for was in the store or marked earlier in this run, or the world said so), or right
      after its own mark was saved because it succeeded or the user skipped its failure; it
      marks itself exactly when its run says so; it runs again only when the user wants a
      retry. The run raises if and only if its last turn's probe raised, its step failed with
      nobody to ask or with abort for an answer, or its mark could not be saved; it completes
      if and only if all steps were passed, and nothing else ends it. The store is what the
      marks in the log make of it. On every exit there is exactly one teardown, last, if and
      only if a chroot-opening step succeeded in this run. */
  lemma EveryRun(steps: seq<Step>, hasHook: bool, s: Session, env: seq<Turn>)
    ensures GoodResult(Script(steps, hasHook, s, env), RunFrom(steps, hasHook, s, env))
  {
    assert env == env[0..];
    assert MarkedKeys([]) == {};
    ContinueIsGood(Script(steps, hasHook, s, env), Loop(0, false, s, []), env);
  }

  lemma {:induction false} PrefixInOrder(sc: Script, log: seq<Entry>, i: nat)
    requires InOrder(sc, log) && i <= |log|
    ensures InOrder(sc, log[..i]) && (i < |log| ==> Follows(sc, log[..i], log[i]))
    decreases |log| - i
  {
    if i < |log| {
      PrefixInOrder(sc, log, i + 1);
      assert Front(log[..i + 1]) == log[..i] && Last(log[..i + 1]) == log[i];
    } else {
      assert log[..i] == log;
    }
  }

  lemma ProbeIsCurrent(sc: Script, log: seq<Entry>)
    requires InOrder(sc, log) && log != [] && Last(log).Probed?
    ensures Last(log).index == PassedCount(log) < |sc.steps|
  {
    assert Follows(sc, Front(log), Last(log));
  }

  /** What runs is the first step not passed yet. */
  lemma RunIsCurrent(sc: Script, log: seq<Entry>)
    requires InOrder(sc, log) && RunOver(sc, log)
    ensures RunOf(sc, log).index == PassedCount(log) < |sc.steps|
    ensures RunOf(sc, log).succeeded == Succeeds(Current(sc, log))
  {
    var run := ToRun(log);
    assert InOrder(sc, run) && PassedCount(run) == PassedCount(log) && Turns(run) == Turns(log);
    var probed := Front(run);
    assert InOrder(sc, probed) && Follows(sc, probed, Last(run));
    ProbeIsCurrent(sc, probed);
    assert PassedCount(run) == PassedCount(probed) && Turns(run) == Turns(probed);
  }

  /** In every run and after every run of a step in it, what the answers of that turn call for
      comes next: a success, or a failure to be skipped, whose mark can be saved is marked and
      passed, and then the next step is probed if there are answers left; a failure to be
      retried is followed by a probe of the same step; anything else ends the run, raising. */
  lemma EveryAnswerIsObeyed(steps: seq<Step>, hasHook: bool, s: Session, env: seq<Turn>, i: nat)
    requires i <= |Untorn(RunFrom(steps, hasHook, s, env).loop.log)|
    requires RunOver(Script(steps, hasHook, s, env), Untorn(RunFrom(steps, hasHook, s, env).loop.log)[..i])
    ensures var sc, r := Script(steps, hasHook, s, env), RunFrom(steps, hasHook, s, env);
            var log := Untorn(r.loop.log);
            var t, k, ok := Current(sc, log[..i]), RunOf(sc, log[..i]).index, RunOf(sc, log[..i]).succeeded;
            && k < |steps| && ok == Succeeds(t)
            && if (ok || (hasHook && t.action == Skip)) && t.saves then
                 && i + 2 <= |log| && log[i] == MarkSaved(steps[k].key)
                 && log[i + 1] == Passed(k, if ok then Succeeded else Skipped)
                 && if i + 2 < |log| then log[i + 2].Probed? && log[i + 2].index == k + 1
                    else k + 1 == |steps| || Turns(log) == |env|
               else if !ok && hasHook && t.action == Retry then
                 if i < |log| then log[i].Probed? && log[i].index == k else Turns(log) == |env|
               else i == |log| && r.outcome == Raised
  {
    var sc, r := Script(steps, hasHook, s, env), RunFrom(steps, hasHook, s, env);
    EveryRun(steps, hasHook, s, env);
    var log := Untorn(r.loop.log);
    PrefixInOrder(sc, log, i);
    RunIsCurrent(sc, log[..i]);
    if i == |log| {
      assert log[..i] == log;
      RunMayEnd(sc, log, r);
    } else {
      RunThen(sc, log, i);
      if log[i].MarkSaved? {
        MarkedMustPass(sc, log, r);
        MarkThen(sc, log, i);
        PassThen(sc, log, i);
        if i + 2 == |log| {
          assert log[..i + 2] == log;
          PassMayEnd(sc, log, r);
        }
      }
    }
  }

  /** A run that ends right after running a step raised, or its answers ran out on a retry. */
  lemma RunMayEnd(sc: Script, log: seq<Entry>, r: Result)
    requires GoodResult(sc, r) && log == Untorn(r.loop.log) && RunOver(sc, log)
    ensures if (RunOf(sc, log).succeeded || (sc.hasHook && Current(sc, log).action == Skip)) && Current(sc, log).saves
            then false
            else if !RunOf(sc, log).succeeded && sc.hasHook && Current(sc, log).action == Retry
            then Turns(log) == |sc.env| else r.outcome == Raised
  {
    assert InOrder(sc, log);
    RunIsCurrent(sc, log);
  }

  lemma MarkedMustPass(sc: Script, log: seq<Entry>, r: Result)
    requires GoodResult(sc, r) && log == Untorn(r.loop.log) && log != []
    ensures !Last(log).MarkSaved?
  {
  }

  lemma PassMayEnd(sc: Script, log: seq<Entry>, r: Result)
    requires GoodResult(sc, r) && log == Untorn(r.loop.log) && log != [] && Last(log).Passed?
    ensures PassedCount(log) == |sc.steps| || Turns(log) == |sc.env|
  {
  }

  lemma AfterARun(sc: Script, log: seq<Entry>, e: Entry)
    requires InOrder(sc, log) && RunOver(sc, log) && Follows(sc, log, e)
    ensures var t, k := Current(sc, log), PassedCount(log);
            && k < |sc.steps|
            && if WantsMark(sc, log) then t.saves && e == MarkSaved(sc.steps[k].key)
               else !Succeeds(t) && sc.hasHook && t.action == Retry && e.Probed? && e.index == k
  {
    RunIsCurrent(sc, log);
  }

  lemma AfterAMark(sc: Script, log: seq<Entry>, e: Entry)
    requires log != [] && Last(log).MarkSaved? && RunOver(sc, Front(log)) && Follows(sc, log, e)
    ensures e.Passed? && e == Passed(RunOf(sc, Front(log)).index,
                                     if RunOf(sc, Front(log)).succeeded then Succeeded else Skipped)
  {
    assert e.Passed? && RunOf(sc, Front(log)) == Ran(e.index, e.reason == Succeeded);
  }

  /** What follows a run in any log in order. */
  lemma RunThen(sc: Script, log: seq<Entry>, i: nat)
    requires InOrder(sc, log) && i < |log| && RunOver(sc, log[..i])
    ensures var t, k := Current(sc, log[..i]), PassedCount(log[..i]);
            && k < |sc.steps|
            && if WantsMark(sc, log[..i]) then t.saves && log[i] == MarkSaved(sc.steps[k].key)
               else !Succeeds(t) && sc.hasHook && t.action == Retry && log[i].Probed? && log[i].index == k
  {
    PrefixInOrder(sc, log, i);
    AfterARun(sc, log[..i], log[i]);
  }

  lemma MarkThen(sc: Script, log: seq<Entry>, i: nat)
    requires InOrder(sc, log) && i + 1 < |log| && RunOver(sc, log[..i]) && log[i].MarkSaved?
    ensures log[i + 1] == Passed(RunOf(sc, log[..i]).index,
                                 if RunOf(sc, log[..i]).succeeded then Succeeded else Skipped)
  {
    PrefixInOrder(sc, log, i + 1);
    assert Front(log[..i + 1]) == log[..i] && Last(log[..i + 1]) == log[i];
    AfterAMark(sc, log[..i + 1], log[i + 1]);
  }

  lemma PassThen(sc: Script, log: seq<Entry>, i: nat)
    requires InOrder(sc, log) && i + 1 < |log| && log[i].MarkSaved? && log[i + 1].Passed?
    ensures PassedCount(log[..i + 2]) == PassedCount(log[..i]) + 1
    ensures i + 2 < |log| ==> log[i + 2].Probed? && log[i + 2].index == PassedCount(log[..i]) + 1
  {
    var marked, passed := log[..i + 1], log[..i + 2];
    assert Front(marked) == log[..i] && Last(marked) == log[i];
    assert Front(passed) == marked && Last(passed) == log[i + 1];
    assert PassedCount(marked) == PassedCount(log[..i]);
    if i + 2 < |log| {
      PrefixInOrder(sc, log, i + 2);
    }
  }

  function Retries(env: seq<Turn>): nat {
    if env == [] then 0 else (if env[0].action == Retry then 1 else 0) + Retries(env[1..])
  }

  lemma {:induction false} ContinueTerminates(steps: seq<Step>, hasHook: bool, l: Loop, env: seq<Turn>)
    requires l.index <= |steps|
    requires |env| >= |steps| - l.index + Retries(env)
    ensures Continue(steps, hasHook, l, env).outcome != Killed
    decreases env
  {
    if l.index < |steps| && env != [] {
      match TakeTurn(steps, hasHook, l, env[0]) {
        case Go(next) => ContinueTerminates(steps, hasHook, next, env[1..]);
        case Stop(_) =>
      }
    }
  }

  /** Every turn passes a step, ends the run, or is a retry: a run ends within one turn
      per step and one per retry answer. */
  lemma {:induction false} EndsWithinBudget(steps: seq<Step>, hasHook: bool, s: Session, env: seq<Turn>)
    requires |env| >= |steps| + Retries(env)
    ensures RunFrom(steps, hasHook, s, env).outcome != Killed
  {
    ContinueTerminates(steps, hasHook, Loop(0, false, s, []), env);
  }

  // --- Resumed runs ---

  /** What follows an attempt: another one on the same machine (the process crashed, was
      killed or gave up), or a reboot first, with the target mounted again before the next
      store loads or not. */
  datatype Ending = Resumes | Reboots(targetBack: bool)

  datatype Attempt = Attempt(env: seq<Turn>, ending: Ending)

  function DiskAfter(d: Disk, ending: Ending): Disk {
    match ending
    case Resumes => d
    case Reboots(back) => Rebooted(d, back)
  }

  /** One attempt, with a store loaded from the disk. */
  function Try(steps: seq<Step>, hasHook: bool, d: Disk, env: seq<Turn>): Loop {
    RunFrom(steps, hasHook, Reloaded(d), env).loop
  }

  /** The disk the next attempt starts from. */
  function NextDisk(steps: seq<Step>, hasHook: bool, d: Disk, a: Attempt): Disk {
    DiskAfter(Try(steps, hasHook, d, a.env).session.disk, a.ending)
  }

  /** The log of all attempts. */
  function LogOf(steps: seq<Step>, hasHook: bool, d: Disk, attempts: seq<Attempt>): seq<Entry>
    decreases attempts
  {
    if attempts == [] then []
    else
      Try(steps, hasHook, d, attempts[0].env).log
      + LogOf(steps, hasHook, NextDisk(steps, hasHook, d, attempts[0]), attempts[1..])
  }

  /** No reboot loses the mark once it was saved: the store loaded next still finds it. */
  predicate Survives(steps: seq<Step>, hasHook: bool, d: Disk, attempts: seq<Attempt>, key: string, saved: bool)
    decreases attempts
  {
    attempts == [] ||
    (var next := NextDisk(steps, hasHook, d, attempts[0]);
     var now := saved || key in SavedKeys(Try(steps, hasHook, d, attempts[0].env).log);
     && (attempts[0].ending.Reboots? && now ==> key in Loaded(next))
     && Survives(steps, hasHook, next, attempts[1..], key, now))
  }

  predicate RunsAsking(steps: seq<Step>, e: Entry, key: string) {
    e.Ran? && e.index < |steps| && steps[e.index].check == AsksStore(key)
  }

  /** No step that asks for `key` runs once its mark is saved. */
  ghost predicate NeverAgain(steps: seq<Step>, log: seq<Entry>, key: string, saved: bool)
    decreases log
  {
    log == [] ||
    (&& (saved ==> !RunsAsking(steps, log[0], key))
     && NeverAgain(steps, log[1..], key, saved || (Saves(log[0]) && log[0].key == key)))
  }

  lemma {:induction false} NeverAgainAppend(steps: seq<Step>, a: seq<Entry>, b: seq<Entry>, key: string, saved: bool)
    ensures NeverAgain(steps, a + b, key, saved) <==>
            NeverAgain(steps, a, key, saved) && NeverAgain(steps, b, key, saved || key in SavedKeys(a))
    decreases a
  {
    if a == [] {
      assert a + b == b;
    } else {
      assert (a + b)[1..] == a[1..] + b;
      NeverAgainAppend(steps, a[1..], b, key, saved || (Saves(a[0]) && a[0].key == key));
      assert SavedKeys(a) == (if Saves(a[0]) then {a[0].key} else {}) + SavedKeys(a[1..]) by {
        assert forall i :: 1 <= i < |a| ==> a[1..][i - 1] == a[i];
        assert a[0] == a[0];
      }
    }
  }

  /** A saved mark is in the store and on its disk. */
  predicate Knows(s: Session, key: string, saved: bool) {
    saved ==> key in s.done && key in Loaded(s.disk)
  }

  /** The log keeps the rule, and a mark saved in it is on disk. */
  ghost predicate Kept(steps: seq<Step>, l: Loop, key: string, saved: bool) {
    && NeverAgain(steps, l.log, key, saved)
    && (saved || key in SavedKeys(l.log) ==> key in Loaded(l.session.disk))
  }

  /** The loop keeps the rule, and the store knows the marks saved so far. */
  ghost predicate Remembering(steps: seq<Step>, l: Loop, key: string, saved: bool) {
    NeverAgain(steps, l.log, key, saved) && Knows(l.session, key, saved || key in SavedKeys(l.log))
  }

  lemma AppendNeverRepeats(steps: seq<Step>, log: seq<Entry>, e: Entry, key: string, saved: bool)
    requires NeverAgain(steps, log, key, saved)
    requires saved || key in SavedKeys(log) ==> !RunsAsking(steps, e, key)
    ensures NeverAgain(steps, log + [e], key, saved)
    ensures key in SavedKeys(log + [e]) <==> key in SavedKeys(log) || (Saves(e) && e.key == key)
  {
    NeverAgainAppend(steps, log, [e], key, saved);
    assert [e][1..] == [];
    KeysAppend(log, e);
  }

  lemma MarkNeverRepeats(steps: seq<Step>, l: Loop, step: Step, reason: Reason, saves: bool, key: string, saved: bool)
    requires Remembering(steps, l, key, saved)
    ensures var next := MarkAndAdvance(l, step, reason, saves);
            Kept(steps, next.loop, key, saved) && (next.Go? ==> Remembering(steps, next.loop, key, saved))
  {
    if saves {
      var mid := l.log + [MarkSaved(step.key)];
      AppendNeverRepeats(steps, l.log, MarkSaved(step.key), key, saved);
      AppendNeverRepeats(steps, mid, Passed(l.index, reason), key, saved);
      assert l.log + [MarkSaved(step.key), Passed(l.index, reason)] == mid + [Passed(l.index, reason)];
    }
  }

  /** A step runs only when the store does not know the key it asks for. */
  lemma RunNeverRepeats(steps: seq<Step>, p: Loop, t: Turn, key: string, saved: bool)
    requires p.index < |steps| && Remembering(steps, p, key, saved)
    requires steps[p.index].check == AsksStore(key) ==> key !in p.session.done
    ensures Remembering(steps, AfterRunning(steps, p, t), key, saved)
  {
    var own, run := steps[p.index].key, Ran(p.index, Succeeds(t));
    AppendNeverRepeats(steps, p.log, run, key, saved);
    if t.run == FailsToMark {
      AppendNeverRepeats(steps, p.log + [run], OwnMark(own, false), key, saved);
    } else if t.run == WorksAndMarks {
      AppendNeverRepeats(steps, p.log + [run], OwnMark(own, true), key, saved);
    }
  }

  lemma TurnNeverRepeats(steps: seq<Step>, hasHook: bool, l: Loop, t: Turn, key: string, saved: bool)
    requires l.index < |steps| && Remembering(steps, l, key, saved)
    ensures var next := TakeTurn(steps, hasHook, l, t);
            Kept(steps, next.loop, key, saved) && (next.Go? ==> Remembering(steps, next.loop, key, saved))
  {
    var answer := IsSatisfied(l.session, steps[l.index], t.probe);
    var probed := AfterProbe(steps, l, t);
    AppendNeverRepeats(steps, l.log, Probed(l.index, answer), key, saved);
    match answer {
      case ProbeRaises =>
      case Satisfied =>
        AppendNeverRepeats(steps, probed.log, Passed(l.index, WasSatisfied), key, saved);
      case Unsatisfied =>
        RunNeverRepeats(steps, probed, t, key, saved);
        var ran := AfterRunning(steps, probed, t);
        if Succeeds(t) {
          MarkNeverRepeats(steps, ran, steps[l.index], Succeeded, t.saves, key, saved);
        } else if hasHook && t.action == Skip {
          MarkNeverRepeats(steps, ran, steps[l.index], Skipped, t.saves, key, saved);
        }
    }
  }

  lemma CloseKeeps(steps: seq<Step>, l: Loop, outcome: Outcome, key: string, saved: bool)
    requires Kept(steps, l, key, saved)
    ensures Kept(steps, Close(outcome, l).loop, key, saved)
  {
    AppendNeverRepeats(steps, l.log, TornDown, key, saved);
  }

  lemma {:induction false} ContinueNeverRepeats(steps: seq<Step>, hasHook: bool, l: Loop, env: seq<Turn>,
                                                key: string, saved: bool)
    requires Remembering(steps, l, key, saved)
    ensures Kept(steps, Continue(steps, hasHook, l, env).loop, key, saved)
    decreases env
  {
    if l.index < |steps| && env != [] {
      TurnNeverRepeats(steps, hasHook, l, env[0], key, saved);
      match TakeTurn(steps, hasHook, l, env[0]) {
        case Go(next) => ContinueNeverRepeats(steps, hasHook, next, env[1..], key, saved);
        case Stop(last) => CloseKeeps(steps, last, Raised, key, saved);
      }
    } else {
      CloseKeeps(steps, l, if l.index >= |steps| then Completed else Killed, key, saved);
    }
  }

  /** One attempt from any disk. */
  lemma TryNeverRepeats(steps: seq<Step>, hasHook: bool, d: Disk, env: seq<Turn>, key: string, saved: bool)
    requires saved ==> key in Loaded(d)
    ensures Kept(steps, Try(steps, hasHook, d, env), key, saved)
  {
    assert SavedKeys([]) == {};
    ContinueNeverRepeats(steps, hasHook, Loop(0, false, Reloaded(d), []), env, key, saved);
  }

  lemma {:induction false} AttemptsNeverRepeat(steps: seq<Step>, hasHook: bool, d: Disk, attempts: seq<Attempt>,
                                               key: string, saved: bool)
    requires saved ==> key in Loaded(d)
    requires Survives(steps, hasHook, d, attempts, key, saved)
    ensures NeverAgain(steps, LogOf(steps, hasHook, d, attempts), key, saved)
    decreases attempts
  {
    if attempts != [] {
      var log := Try(steps, hasHook, d, attempts[0].env).log;
      var next := NextDisk(steps, hasHook, d, attempts[0]);
      TryNeverRepeats(steps, hasHook, d, attempts[0].env, key, saved);
      AttemptsNeverRepeat(steps, hasHook, next, attempts[1..], key, saved || key in SavedKeys(log));
      NeverAgainAppend(steps, log, LogOf(steps, hasHook, next, attempts[1..]), key, saved);
    }
  }

  lemma {:induction false} NeverAgainSpelledOut(steps: seq<Step>, log: seq<Entry>, key: string, saved: bool, j: nat)
    requires NeverAgain(steps, log, key, saved)
    requires j < |log| && (saved || key in SavedKeys(log[..j]))
    ensures !RunsAsking(steps, log[j], key)
  {
    var a, b := log[..j], log[j..];
    assert log == a + b;
    NeverAgainAppend(steps, a, b, key, saved);
    assert b[0] == log[j];
  }

  /** Across any number of resumed runs, from any disk (crashes, kills, aborts, and reboots
      that do not lose the mark): a step that asks the store for a key never runs again after
      that key's mark was saved, not later in that run, not in any later one. */
  lemma MarkedStepsNeverRerun(steps: seq<Step>, hasHook: bool, d: Disk, attempts: seq<Attempt>, i: nat, j: nat)
    requires var log := LogOf(steps, hasHook, d, attempts);
             i < j < |log| && Saves(log[i]) && Survives(steps, hasHook, d, attempts, log[i].key, false)
    ensures var log := LogOf(steps, hasHook, d, attempts);
            !RunsAsking(steps, log[j], log[i].key)
  {
    var log := LogOf(steps, hasHook, d, attempts);
    AttemptsNeverRepeat(steps, hasHook, d, attempts, log[i].key, false);
    assert log[..j][i] == log[i];
    NeverAgainSpelledOut(steps, log, log[i].key, false, j);
  }

  // --- When a marked step can run again ---

  predicate RunsStep(log: seq<Entry>, k: nat) {
    exists i :: 0 <= i < |log| && log[i].Ran? && log[i].index == k
  }

  /** Some attempt from this disk runs step `k`. */
  ghost predicate CanRun(steps: seq<Step>, hasHook: bool, d: Disk, k: nat) {
    exists env: seq<Turn> :: RunsStep(Try(steps, hasHook, d, env).log, k)
  }

  /** Every step succeeds and every mark is saved. */
  function Smooth(turns: nat): seq<Turn> {
    if turns == 0 then [] else [Turn(Satisfied, Works, false, true, Abort)] + Smooth(turns - 1)
  }

  lemma {:induction false} SmoothRunReaches(steps: seq<Step>, hasHook: bool, l: Loop, k: nat)
    requires l.index <= k < |steps| && steps[k].check.AsksStore?
    requires steps[k].check.asked !in l.session.done + ReadFile(l.session.disk.runFile)
    requires forall i :: l.index <= i < k ==> steps[i].key != steps[k].check.asked
    ensures RunsStep(Continue(steps, hasHook, l, Smooth(k + 1 - l.index)).loop.log, k)
    decreases k - l.index
  {
    var env := Smooth(k + 1 - l.index);
    assert env[1..] == Smooth(k - l.index);
    var next := TakeTurn(steps, hasHook, l, env[0]).loop;
    if l.index < k {
      SmoothRunReaches(steps, hasHook, next, k);
    } else {
      assert next.log[|l.log| + 1] == Ran(k, true);
      assert Continue(steps, hasHook, next, env[1..]).loop.log[|l.log| + 1] == Ran(k, true);
    }
  }

  /** The exact condition, for any disk: an attempt can run a step that asks the store for a
      key (one that no earlier step of the list marks) if and only if the key is not among
      what a store loaded from that disk knows. */
  lemma CanRunIff(steps: seq<Step>, hasHook: bool, d: Disk, k: nat)
    requires k < |steps| && steps[k].check.AsksStore?
    requires forall i :: 0 <= i < k ==> steps[i].key != steps[k].check.asked
    ensures CanRun(steps, hasHook, d, k) <==> steps[k].check.asked !in Loaded(d)
  {
    var key := steps[k].check.asked;
    if key in Loaded(d) {
      forall env: seq<Turn> ensures !RunsStep(Try(steps, hasHook, d, env).log, k) {
        var log := Try(steps, hasHook, d, env).log;
        TryNeverRepeats(steps, hasHook, d, env, key, true);
        forall j | 0 <= j < |log| ensures !RunsAsking(steps, log[j], key) {
          NeverAgainSpelledOut(steps, log, key, true, j);
        }
      }
    } else {
      SmoothRunReaches(steps, hasHook, Loop(0, false, Reloaded(d), []), k);
      assert RunsStep(Try(steps, hasHook, d, Smooth(k + 1)).log, k);
    }
  }

  /** After an attempt that saved the step's mark, or started knowing it: the next attempt can
      run the step again if and only if a reboot came in between and either the target was not
      mounted again before the store loaded or its state file does not hold the mark. */
  lemma MarkedStepRunsAgainIff(steps: seq<Step>, hasHook: bool, d: Disk, a: Attempt, k: nat)
    requires k < |steps| && steps[k].check.AsksStore?
    requires forall i :: 0 <= i < k ==> steps[i].key != steps[k].check.asked
    requires steps[k].check.asked in Loaded(d) + SavedKeys(Try(steps, hasHook, d, a.env).log)
    ensures CanRun(steps, hasHook, NextDisk(steps, hasHook, d, a), k) <==>
            a.ending.Reboots? &&
            !(a.ending.targetBack &&
              steps[k].check.asked in ReadFile(Try(steps, hasHook, d, a.env).session.disk.targetFile))
  {
    var key := steps[k].check.asked;
    CanRunIff(steps, hasHook, NextDisk(steps, hasHook, d, a), k);
    TryNeverRepeats(steps, hasHook, d, a.env, key, key in Loaded(d));
  }

  /** The named case: partitioning is done and its mark is on the target; the machine reboots
      and the store loads before the target is mounted. Then partitioning runs again. */
  lemma EarlyReloadRepartitions(hasHook: bool, partition: Step, target: set<string>)
    requires partition.check == AsksStore(partition.key) && partition.key in target
    ensures var onTarget := Disk(None, Some(target), true);
            && !CanRun([partition], hasHook, onTarget, 0)
            && RunsStep(LogOf([partition], hasHook, onTarget,
                              [Attempt([], Reboots(false)), Attempt(Smooth(1), Resumes)]), 0)
  {
    var steps, onTarget := [partition], Disk(None, Some(target), true);
    CanRunIff(steps, hasHook, onTarget, 0);
    var attempts := [Attempt([], Reboots(false)), Attempt(Smooth(1), Resumes)];
    var away := Disk(None, Some(target), false);
    assert NextDisk(steps, hasHook, onTarget, attempts[0]) == away;
    assert attempts[1..][0] == attempts[1] && attempts[1..][1..] == [];
    SmoothRunReaches(steps, hasHook, Loop(0, false, Reloaded(away), []), 0);
    var second := Try(steps, hasHook, away, Smooth(1)).log;
    assert LogOf(steps, hasHook, away, attempts[1..]) == second + [] == second;
    assert LogOf(steps, hasHook, onTarget, attempts) == [] + second == second;
  }

  // --- Steps that hide behind another step's mark ---

  lemma RunsStepAppend(log: seq<Entry>, e: Entry, k: nat)
    ensures RunsStep(log + [e], k) <==> RunsStep(log, k) || (e.Ran? && e.index == k)
  {
    var log' := log + [e];
    assert log'[|log|] == e;
    assert forall i :: 0 <= i < |log| ==> log'[i] == log[i];
  }

  lemma TurnBehindMark(steps: seq<Step>, hasHook: bool, l: Loop, t: Turn, i: nat, k: nat)
    requires i < k < |steps| && steps[k].check == steps[i].check == AsksStore(steps[i].key)
    requires l.index < |steps| && (l.index > i ==> steps[i].key in l.session.done) && !RunsStep(l.log, k)
    ensures var next := TakeTurn(steps, hasHook, l, t).loop;
            (next.index > i ==> steps[i].key in next.session.done) && !RunsStep(next.log, k)
  {
    if l.index != k {
      TurnAdds(steps, hasHook, l, t);
      var next := TakeTurn(steps, hasHook, l, t).loop;
      assert forall j :: |l.log| <= j < |next.log| ==> OnlyRuns(next.log[j], l.index);
    }
  }

  lemma {:induction false} ContinueBehindMark(steps: seq<Step>, hasHook: bool, l: Loop, env: seq<Turn>, i: nat, k: nat)
    requires i < k < |steps| && steps[k].check == steps[i].check == AsksStore(steps[i].key)
    requires (l.index > i ==> steps[i].key in l.session.done) && !RunsStep(l.log, k)
    ensures !RunsStep(Continue(steps, hasHook, l, env).loop.log, k)
    decreases env
  {
    RunsStepAppend(l.log, TornDown, k);
    if l.index < |steps| && env != [] {
      TurnBehindMark(steps, hasHook, l, env[0], i, k);
      match TakeTurn(steps, hasHook, l, env[0]) {
        case Go(next) => ContinueBehindMark(steps, hasHook, next, env[1..], i, k);
        case Stop(last) => RunsStepAppend(last.log, TornDown, k);
      }
    }
  }

  /** A step that asks for the mark of an earlier step which asks for its own (making the
      file systems, after partitioning) is never run, in any run from any store: by the time
      it is reached the earlier step is marked. */
  lemma BehindMarkNeverRuns(steps: seq<Step>, hasHook: bool, s: Session, env: seq<Turn>, i: nat, k: nat)
    requires i < k < |steps| && steps[k].check == steps[i].check == AsksStore(steps[i].key)
    ensures !RunsStep(RunFrom(steps, hasHook, s, env).loop.log, k)
  {
    ContinueBehindMark(steps, hasHook, Loop(0, false, s, []), env, i, k);
  }

  // --- A mark in memory only ---

  /** A step that fails only because its own mark could not be saved, and is retried: for
      every loop at such a step, the retry finds the key in memory and passes the step, with
      nothing written; a store loaded from that disk knows the key exactly if it did before. */
  lemma UnsavedMarkPassesOnRetry(steps: seq<Step>, l: Loop, first: Turn, second: Turn)
    requires l.index < |steps| && steps[l.index].check == AsksStore(steps[l.index].key)
    requires steps[l.index].key !in l.session.done
    requires first.run == FailsToMark && first.action == Retry && !first.targetAppears
    ensures var retry := TakeTurn(steps, true, l, first);
            && retry.Go? && retry.loop.index == l.index
            && var next := TakeTurn(steps, true, retry.loop, second);
               && next.Go? && next.loop.index == l.index + 1
               && Last(next.loop.log) == Passed(l.index, WasSatisfied)
               && next.loop.session.disk == l.session.disk
               && SavedKeys(next.loop.log) == SavedKeys(l.log)
  {
    var key := steps[l.index].key;
    var log := l.log;
    KeysAppend(log, Probed(l.index, Unsatisfied));
    log := log + [Probed(l.index, Unsatisfied)];
    KeysAppend(log, Ran(l.index, false));
    log := log + [Ran(l.index, false)];
    KeysAppend(log, OwnMark(key, false));
    log := log + [OwnMark(key, false)];
    assert TakeTurn(steps, true, l, first).loop.log == log;
    KeysAppend(log, Probed(l.index, Satisfied));
    log := log + [Probed(l.index, Satisfied)];
    KeysAppend(log, Passed(l.index, WasSatisfied));
  }
}
