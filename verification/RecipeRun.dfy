/** Running a compiled plan: in order, halting at the first failure or manual step. */
module RecipeRun {
  import opened Splitting
  import opened LutrisImport
  import opened RecipePlan

  datatype Status = Done | Failed | NeedsHuman | WouldRun | NotReached

  datatype Outcome = Outcome(op: Op, status: Status, code: int)

  /** What was recorded, and which operations the runner was actually given. */
  datatype Report = Report(outcomes: seq<Outcome>, calls: seq<Op>)

  datatype Mode = Mode(dryRun: bool, stopOnManual: bool)

  /** The runner's exit code for its first call, its second, and so on. */
  type Runner = nat -> int

  function NonManual(ops: seq<Op>): seq<Op> {
    if ops == [] then [] else NonManual(Front(ops)) + if Last(ops).Manual? then [] else [Last(ops)]
  }

  /** Does the run halt at `i`, having reached it? */
  predicate Halts(ops: seq<Op>, runner: Runner, mode: Mode, i: nat)
    requires i < |ops|
  {
    && !mode.dryRun
    && (if ops[i].Manual? then mode.stopOnManual else runner(|NonManual(ops[..i])|) != 0)
  }

  function HaltFrom(ops: seq<Op>, runner: Runner, mode: Mode, k: nat): (h: nat)
    requires k <= |ops|
    ensures k <= h <= |ops|
    ensures forall i :: k <= i < h ==> !Halts(ops, runner, mode, i)
    ensures h < |ops| ==> Halts(ops, runner, mode, h)
    decreases |ops| - k
  {
    if k == |ops| || Halts(ops, runner, mode, k) then k else HaltFrom(ops, runner, mode, k + 1)
  }

  /** Where the run halts, or |ops|. */
  function HaltAt(ops: seq<Op>, runner: Runner, mode: Mode): (h: nat)
    ensures h <= |ops|
    ensures forall i :: 0 <= i < h ==> !Halts(ops, runner, mode, i)
    ensures h < |ops| ==> Halts(ops, runner, mode, h)
  {
    HaltFrom(ops, runner, mode, 0)
  }

  function OutcomeAt(ops: seq<Op>, runner: Runner, mode: Mode, i: nat): Outcome
    requires i < |ops|
  {
    if i > HaltAt(ops, runner, mode) then Outcome(ops[i], NotReached, 0)
    else if ops[i].Manual? then Outcome(ops[i], NeedsHuman, 0)
    else if mode.dryRun then Outcome(ops[i], WouldRun, 0)
    else
      var code := runner(|NonManual(ops[..i])|);
      Outcome(ops[i], if code == 0 then Done else Failed, code)
  }

  /** Everything up to and including the halt was given to the runner, unless manual. */
  function Reached(ops: seq<Op>, runner: Runner, mode: Mode): seq<Op> {
    var h := HaltAt(ops, runner, mode);
    if h < |ops| then ops[..h + 1] else ops
  }

  function Executed(ops: seq<Op>, runner: Runner, mode: Mode): Report {
    Report(seq(|ops|, i requires 0 <= i < |ops| => OutcomeAt(ops, runner, mode, i)),
           if mode.dryRun then [] else NonManual(Reached(ops, runner, mode)))
  }

  method Execute(ops: seq<Op>, runner: Runner, mode: Mode) returns (report: Report)
    ensures report == Executed(ops, runner, mode)
  {
    ghost var h := HaltAt(ops, runner, mode);
    var outcomes: seq<Outcome> := [];
    var calls: seq<Op> := [];
    var halted := false;
    for n := 0 to |ops|
      invariant halted <==> h < n
      invariant |outcomes| == n && forall i :: 0 <= i < n ==> outcomes[i] == OutcomeAt(ops, runner, mode, i)
      invariant calls == if mode.dryRun then [] else NonManual(if halted then ops[..h + 1] else ops[..n])
    {
      var op := ops[n];
      assert !halted ==> (h == n <==> Halts(ops, runner, mode, n));
      assert Front(ops[..n + 1]) == ops[..n] && Last(ops[..n + 1]) == op;
      if halted {
        outcomes := outcomes + [Outcome(op, NotReached, 0)];
      } else if op.Manual? {
        outcomes := outcomes + [Outcome(op, NeedsHuman, 0)];
        if mode.stopOnManual && !mode.dryRun {
          halted := true;
        }
      } else if mode.dryRun {
        outcomes := outcomes + [Outcome(op, WouldRun, 0)];
      } else {
        var code := runner(|calls|);
        calls := calls + [op];
        outcomes := outcomes + [Outcome(op, if code == 0 then Done else Failed, code)];
        if code != 0 {
          halted := true;
        }
      }
    }
    assert ops[..|ops|] == ops;
    report := Report(outcomes, calls);
  }

  /** The report's own verdict: nothing failed and nothing was left unreached. */
  predicate Ok(r: Report) {
    forall i :: 0 <= i < |r.outcomes| ==> r.outcomes[i].status !in {Failed, NotReached}
  }

  // --- Main results ---

  /** The runner sees each operation at most once, in order: all non-manual ones up to the
      halt and none after it. */
  lemma {:induction false} RunnerCalls(ops: seq<Op>, runner: Runner, mode: Mode)
    requires !mode.dryRun
    ensures Executed(ops, runner, mode).calls == NonManual(Reached(ops, runner, mode)) <= NonManual(ops)
    ensures forall i :: HaltAt(ops, runner, mode) < i < |ops| ==>
              Executed(ops, runner, mode).outcomes[i].status == NotReached
  {
    var h := HaltAt(ops, runner, mode);
    if h < |ops| {
      NonManualPrefix(ops, h + 1);
    }
  }

  /** A dry run calls nothing, reaches everything and reports ok. */
  lemma DryRunCallsNothing(ops: seq<Op>, runner: Runner, stopOnManual: bool)
    ensures var r := Executed(ops, runner, Mode(true, stopOnManual));
            && r.calls == [] && Ok(r)
            && forall i :: 0 <= i < |ops| ==> r.outcomes[i].status == if ops[i].Manual? then NeedsHuman else WouldRun
  {
  }

  lemma {:induction false} NonManualPrefix(ops: seq<Op>, n: nat)
    requires n <= |ops|
    ensures NonManual(ops[..n]) <= NonManual(ops)
  {
    if n == |ops| {
      assert ops[..n] == ops;
    } else {
      NonManualPrefix(Front(ops), n);
      assert Front(ops)[..n] == ops[..n];
    }
  }

  /** The report says ok exactly when the run never halted, or halted at a manual step that
      is the last operation; a manual step that still waits for a human at the very end
      does not spoil it. */
  lemma OkIff(ops: seq<Op>, runner: Runner, mode: Mode)
    ensures var h := HaltAt(ops, runner, mode);
            Ok(Executed(ops, runner, mode)) <==> h == |ops| || (h == |ops| - 1 && ops[h].Manual?)
  {
    var h := HaltAt(ops, runner, mode);
    var r := Executed(ops, runner, mode);
    assert forall i :: 0 <= i < |ops| ==> r.outcomes[i] == OutcomeAt(ops, runner, mode, i);
    assert forall i :: 0 <= i < h ==> !Halts(ops, runner, mode, i);
    assert h < |ops| ==> Halts(ops, runner, mode, h);
    if h < |ops| - 1 {
      assert r.outcomes[h + 1].status == NotReached;
    } else if h == |ops| - 1 && !ops[h].Manual? {
      assert r.outcomes[h].status == Failed;
    } else {
      forall i | 0 <= i < |ops| ensures r.outcomes[i].status !in {Failed, NotReached} {
        assert i <= h && (i == h ==> ops[h].Manual?);
        assert i < h ==> !Halts(ops, runner, mode, i);
      }
    }
  }

  function FirstManual(ds: seq<Directive>): (i: nat)
    ensures i <= |ds|
    ensures forall j :: 0 <= j < i ==> !IsManual(ds[j])
    ensures i < |ds| ==> IsManual(ds[i])
  {
    if ds == [] || IsManual(ds[0]) then 0 else 1 + FirstManual(ds[1..])
  }

  lemma {:induction false} NoManualIsAll(ops: seq<Op>)
    requires forall i :: 0 <= i < |ops| ==> !ops[i].Manual?
    ensures NonManual(ops) == ops
  {
    if ops != [] {
      NoManualIsAll(Front(ops));
    }
  }

  lemma RunStopsAtFirstManual(ops: seq<Op>, m: nat, runner: Runner)
    requires m <= |ops| && (forall i :: 0 <= i < m ==> !ops[i].Manual?) && (m < |ops| ==> ops[m].Manual?)
    requires forall n :: runner(n) == 0
    ensures HaltAt(ops, runner, Mode(false, true)) == m
    ensures Executed(ops, runner, Mode(false, true)).calls == ops[..m]
  {
    var mode := Mode(false, true);
    assert forall i :: 0 <= i < m ==> !Halts(ops, runner, mode, i);
    assert m < |ops| ==> Halts(ops, runner, mode, m);
    NoManualIsAll(ops[..m]);
    if m < |ops| {
      assert Front(ops[..m + 1]) == ops[..m] && Last(ops[..m + 1]) == ops[m];
    } else {
      assert ops[..m] == ops;
    }
  }

  /** Import, compile, run: when every command succeeds, exactly the steps before the first
      flagged directive are run, in order, and everything after it is left unreached. */
  lemma {:induction false} ImportedRunStopsAtFirstFlag(ds: seq<Directive>, files: seq<RecipeFile>, c: Context,
                                                       runner: Runner)
    requires forall n :: runner(n) == 0
    ensures var ops := Planned(WithAll(NOTHING, ds).steps, files, c);
            var m := FirstManual(Kept(ds));
            && |ops| == |Kept(ds)| && HaltAt(ops, runner, Mode(false, true)) == m
            && Executed(ops, runner, Mode(false, true)).calls == ops[..m]
  {
    var ops := Planned(WithAll(NOTHING, ds).steps, files, c);
    ImportConserves(ds);
    forall i | 0 <= i < |ops| ensures ops[i].Manual? <==> IsManual(Kept(ds)[i]) {
      ImportedPlanIsManualWhereFlagged(ds, files, c, i);
    }
    RunStopsAtFirstManual(ops, FirstManual(Kept(ds)), runner);
  }
}
