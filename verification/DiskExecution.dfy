/** The two ways a plan is carried out run the same commands. */
module DiskExecution {
  import opened Splitting
  import opened Fstab
  import opened DiskPlans
  import opened MountPlans
  import opened DiskWorld

  /** The machine and every command run on it so far. */
  datatype Host = Host(world: World, log: seq<Command>)

  /** How the machine answers: the exit code of the last command of a log. */
  type Exits = seq<Command> -> int

  datatype Verdict = Done | StepFailed | Refused

  /** A command that exits 0 had its effect; any other leaves the mount table and the
      nodes as they were. */
  function RunOne(h: Host, exits: Exits, c: Command): (Host, Verdict) {
    var log := h.log + [c];
    if exits(log) == 0 then (Host(Exec(h.world, c), log), Done) else (Host(h.world, log), StepFailed)
  }

  /** In order, stopping at the first failure. */
  function RunSteps(h: Host, exits: Exits, cs: seq<Command>): (Host, Verdict)
    decreases cs
  {
    if cs == [] then (h, Done)
    else
      var (h1, v) := RunOne(h, exits, cs[0]);
      if v == Done then RunSteps(h1, exits, cs[1..]) else (h1, v)
  }

  // --- The guards ---

  /** The source mounted at `/`, as far as it is a device. */
  function RootSource(mounts: seq<Mounted>): Option<string> {
    if mounts == [] then None
    else if mounts[0].path == "/" && "/dev/" <= mounts[0].source then Some(mounts[0].source)
    else RootSource(mounts[1..])
  }

  predicate DiskBusy(mounts: seq<Mounted>, disk: string) {
    exists i :: 0 <= i < |mounts| && "/dev/" <= mounts[i].source && Touches(mounts[i].source, disk)
  }

  predicate DeviceBusy(mounts: seq<Mounted>, device: string) {
    exists i :: 0 <= i < |mounts| && "/dev/" <= mounts[i].source && mounts[i].source == device
  }

  /** The server-side check before anything destructive. */
  predicate GuardRefuses(mounts: seq<Mounted>, device: string, wholeDisk: bool) {
    var root := RootSource(mounts);
    if wholeDisk then DiskBusy(mounts, device) || (root.Some? && Touches(root.value, device))
    else DeviceBusy(mounts, device) || root == Some(device)
  }

  predicate IsBlockDevice(w: World, device: string) {
    ValidDevice(device) && device in w.present
  }

  // --- The direct path ---

  function ApplyDirectly(h: Host, exits: Exits, plan: DiskPlan, bootSource: Option<string>): (Host, Verdict) {
    if plan.disk !in h.world.present || DiskBusy(h.world.mounts, plan.disk)
       || (bootSource.Some? && bootSource.value != "" && Touches(bootSource.value, plan.disk)) || !Accepted(plan)
    then (h, Refused)
    else RunSteps(h, exits, Steps(plan))
  }

  function MountDirectly(h: Host, exits: Exits, mp: MountPlan): (Host, Verdict) {
    if !ValidTargetRoot(mp.root) || !AcceptedMounts(mp) then (h, Refused)
    else RunSteps(h, exits, MountSteps(mp))
  }

  // --- The backend's calls ---

  function CallPartition(h: Host, exits: Exits, disk: string, wipe: bool, ps: seq<Partition>): (Host, Verdict) {
    if GuardRefuses(h.world.mounts, disk, true) || !IsBlockDevice(h.world, disk) || ps == []
       || !(forall i :: 0 <= i < |ps| ==> AcceptedPartition(ps[i]))
    then (h, Refused)
    else RunSteps(h, exits, PartitionSteps(disk, wipe, ps))
  }

  /** MakeFilesystem and MakeSwap differ only in the command. */
  function CallFormat(h: Host, exits: Exits, f: Filesystem): (Host, Verdict) {
    if GuardRefuses(h.world.mounts, f.device, false) || !IsBlockDevice(h.world, f.device) || !AcceptedFilesystem(f)
    then (h, Refused)
    else RunOne(h, exits, FormatCommand(f))
  }

  function CallMountAt(h: Host, exits: Exits, device: string, path: string): (Host, Verdict) {
    if !ValidTargetRoot(path) || GuardRefuses(h.world.mounts, device, false) || !IsBlockDevice(h.world, device)
    then (h, Refused)
    else RunSteps(h, exits, [MakeDirectory(path), MountDevice(device, path)])
  }

  function CallSwapOn(h: Host, exits: Exits, device: string): (Host, Verdict) {
    if !IsBlockDevice(h.world, device) then (h, Refused) else RunOne(h, exits, SwapOn(device))
  }

  function FormatAll(h: Host, exits: Exits, fs: seq<Filesystem>): (Host, Verdict)
    decreases fs
  {
    if fs == [] then (h, Done)
    else
      var (h1, v) := CallFormat(h, exits, fs[0]);
      if v == Done then FormatAll(h1, exits, fs[1..]) else (h1, v)
  }

  function ApplyViaBackend(h: Host, exits: Exits, plan: DiskPlan): (Host, Verdict) {
    var (h1, v) := CallPartition(h, exits, plan.disk, plan.wipe, plan.partitions);
    if v == Done then FormatAll(h1, exits, plan.filesystems) else (h1, v)
  }

  function MountAll(h: Host, exits: Exits, root: string, ms: seq<TargetMount>): (Host, Verdict)
    decreases ms
  {
    if ms == [] then (h, Done)
    else
      var (h1, v) := CallMountAt(h, exits, ms[0].device, TargetAbs(root, ms[0].path));
      if v == Done then MountAll(h1, exits, root, ms[1..]) else (h1, v)
  }

  function SwapAll(h: Host, exits: Exits, devices: seq<string>): (Host, Verdict)
    decreases devices
  {
    if devices == [] then (h, Done)
    else
      var (h1, v) := CallSwapOn(h, exits, devices[0]);
      if v == Done then SwapAll(h1, exits, devices[1..]) else (h1, v)
  }

  function MountViaBackend(h: Host, exits: Exits, mp: MountPlan): (Host, Verdict) {
    if !ValidTargetRoot(mp.root) then (h, Refused)
    else
      var (h1, v) := MountAll(h, exits, mp.root, mp.mounts);
      if v == Done then SwapAll(h1, exits, mp.swap) else (h1, v)
  }

  // --- The machine object: the loops that run the commands ---

  class Machine {
    const exits: Exits
    var world: World
    var log: seq<Command>

    ghost function State(): Host
      reads this
    {
      Host(world, log)
    }

    constructor (exits: Exits, world: World)
      ensures this.exits == exits && State() == Host(world, [])
    {
      this.exits, this.world, log := exits, world, [];
    }

    method Run(c: Command) returns (v: Verdict)
      modifies this
      ensures (State(), v) == RunOne(old(State()), exits, c)
    {
      log := log + [c];
      if exits(log) == 0 {
        world := Exec(world, c);
        return Done;
      }
      return StepFailed;
    }

    method RunSequence(cs: seq<Command>) returns (v: Verdict)
      modifies this
      ensures (State(), v) == RunSteps(old(State()), exits, cs)
    {
      for i := 0 to |cs|
        invariant RunSteps(old(State()), exits, cs) == RunSteps(State(), exits, cs[i..])
      {
        assert cs[i..][0] == cs[i] && cs[i..][1..] == cs[i + 1..];
        v := Run(cs[i]);
        if v != Done {
          return;
        }
      }
      return Done;
    }

    method ApplyPlan(plan: DiskPlan, bootSource: Option<string>) returns (v: Verdict)
      modifies this
      ensures (State(), v) == ApplyDirectly(old(State()), exits, plan, bootSource)
    {
      if plan.disk !in world.present || DiskBusy(world.mounts, plan.disk)
         || (bootSource.Some? && bootSource.value != "" && Touches(bootSource.value, plan.disk)) {
        return Refused;
      }
      var steps := PlanSteps(plan);
      if steps.Err? {
        return Refused;
      }
      v := RunSequence(steps.value);
    }

    method ApplyPlanViaBackend(plan: DiskPlan) returns (v: Verdict)
      modifies this
      ensures (State(), v) == ApplyViaBackend(old(State()), exits, plan)
    {
      v := PartitionDisk(plan.disk, plan.wipe, plan.partitions);
      if v != Done {
        return;
      }
      ghost var partitioned := State();
      var fs := plan.filesystems;
      for i := 0 to |fs|
        invariant FormatAll(partitioned, exits, fs) == FormatAll(State(), exits, fs[i..])
      {
        assert fs[i..][0] == fs[i] && fs[i..][1..] == fs[i + 1..];
        v := Format(fs[i]);
        if v != Done {
          return;
        }
      }
      return Done;
    }

    method PartitionDisk(disk: string, wipe: bool, ps: seq<Partition>) returns (v: Verdict)
      modifies this
      ensures (State(), v) == CallPartition(old(State()), exits, disk, wipe, ps)
    {
      if GuardRefuses(world.mounts, disk, true) || !IsBlockDevice(world, disk) || ps == []
         || !(forall i :: 0 <= i < |ps| ==> AcceptedPartition(ps[i])) {
        return Refused;
      }
      v := RunSequence(PartitionSteps(disk, wipe, ps));
    }

    method Format(f: Filesystem) returns (v: Verdict)
      modifies this
      ensures (State(), v) == CallFormat(old(State()), exits, f)
    {
      if GuardRefuses(world.mounts, f.device, false) || !IsBlockDevice(world, f.device) || !AcceptedFilesystem(f) {
        return Refused;
      }
      v := Run(FormatCommand(f));
    }

    method MountAt(device: string, path: string) returns (v: Verdict)
      modifies this
      ensures (State(), v) == CallMountAt(old(State()), exits, device, path)
    {
      if !ValidTargetRoot(path) || GuardRefuses(world.mounts, device, false) || !IsBlockDevice(world, device) {
        return Refused;
      }
      v := RunSequence([MakeDirectory(path), MountDevice(device, path)]);
    }

    method EnableSwap(device: string) returns (v: Verdict)
      modifies this
      ensures (State(), v) == CallSwapOn(old(State()), exits, device)
    {
      if !IsBlockDevice(world, device) {
        return Refused;
      }
      v := Run(SwapOn(device));
    }

    method ApplyMountPlan(mp: MountPlan) returns (v: Verdict)
      modifies this
      ensures (State(), v) == MountDirectly(old(State()), exits, mp)
    {
      if !ValidTargetRoot(mp.root) {
        return Refused;
      }
      var steps := BuildMountSteps(mp);
      if steps.Err? {
        return Refused;
      }
      v := RunSequence(steps.value);
    }

    method ApplyMountPlanViaBackend(mp: MountPlan) returns (v: Verdict)
      modifies this
      ensures (State(), v) == MountViaBackend(old(State()), exits, mp)
    {
      if !ValidTargetRoot(mp.root) {
        return Refused;
      }
      ghost var start := State();
      var ms := mp.mounts;
      for i := 0 to |ms|
        invariant MountAll(start, exits, mp.root, ms) == MountAll(State(), exits, mp.root, ms[i..])
      {
        assert ms[i..][0] == ms[i] && ms[i..][1..] == ms[i + 1..];
        v := MountAt(ms[i].device, TargetAbs(mp.root, ms[i].path));
        if v != Done {
          return;
        }
      }
      ghost var mounted := State();
      var ds := mp.swap;
      for i := 0 to |ds|
        invariant SwapAll(mounted, exits, ds) == SwapAll(State(), exits, ds[i..])
      {
        assert ds[i..][0] == ds[i] && ds[i..][1..] == ds[i + 1..];
        v := EnableSwap(ds[i]);
        if v != Done {
          return;
        }
      }
      return Done;
    }
  }

  // --- The two paths agree ---

  lemma {:induction false} RunAppend(h: Host, exits: Exits, a: seq<Command>, b: seq<Command>)
    ensures var (h1, v) := RunSteps(h, exits, a);
            RunSteps(h, exits, a + b) == if v == Done then RunSteps(h1, exits, b) else (h1, v)
    decreases a
  {
    if a == [] {
      assert a + b == b;
    } else {
      assert (a + b)[1..] == a[1..] + b;
      var (h1, v) := RunOne(h, exits, a[0]);
      RunAppend(h1, exits, a[1..], b);
    }
  }

  /** A run that finished had exactly the effect of its commands. */
  lemma {:induction false} DoneMeansExecuted(h: Host, exits: Exits, cs: seq<Command>)
    requires RunSteps(h, exits, cs).1 == Done
    ensures RunSteps(h, exits, cs).0 == Host(ExecAll(h.world, cs), h.log + cs)
    decreases cs
  {
    if cs != [] {
      DoneMeansExecuted(RunOne(h, exits, cs[0]).0, exits, cs[1..]);
      assert h.log + [cs[0]] + cs[1..] == h.log + cs;
    } else {
      assert h.log + [] == h.log;
    }
  }

  lemma {:induction false} RootSourceIsMounted(mounts: seq<Mounted>)
    requires RootSource(mounts).Some?
    ensures "/dev/" <= RootSource(mounts).value
    ensures exists i :: 0 <= i < |mounts| && mounts[i].source == RootSource(mounts).value
  {
    if !(mounts[0].path == "/" && "/dev/" <= mounts[0].source) {
      RootSourceIsMounted(mounts[1..]);
      var i :| 0 <= i < |mounts[1..]| && mounts[1..][i].source == RootSource(mounts).value;
      assert mounts[i + 1].source == RootSource(mounts).value;
    } else {
      assert mounts[0].source == RootSource(mounts).value;
    }
  }

  /** The extra root clause of the guard adds nothing: the root device is a mount source. */
  lemma GuardIsMountCheck(mounts: seq<Mounted>, device: string)
    ensures GuardRefuses(mounts, device, true) <==> DiskBusy(mounts, device)
    ensures GuardRefuses(mounts, device, false) <==> DeviceBusy(mounts, device)
  {
    if RootSource(mounts).Some? {
      RootSourceIsMounted(mounts);
    }
  }

  // --- Provisioning: when the two paths agree ---

  /** Both paths look at this before anything runs. */
  predicate DiskUnfit(w: World, disk: string) {
    disk !in w.present || DiskBusy(w.mounts, disk)
  }

  predicate PartitionsAccepted(plan: DiskPlan) {
    && ValidDevice(plan.disk) && plan.partitions != []
    && forall i :: 0 <= i < |plan.partitions| ==> AcceptedPartition(plan.partitions[i])
  }

  /** The backend lets every format call through: valid, present, not mounted. */
  predicate FormatsPass(w: World, fs: seq<Filesystem>) {
    forall i :: 0 <= i < |fs| ==>
      AcceptedFilesystem(fs[i]) && fs[i].device in w.present && !DeviceBusy(w.mounts, fs[i].device)
  }

  predicate BootsFrom(bootSource: Option<string>, disk: string) {
    bootSource.Some? && bootSource.value != "" && Touches(bootSource.value, disk)
  }

  lemma FormatStep(fs: seq<Filesystem>)
    requires fs != []
    ensures FormatSteps(fs)[0] == FormatCommand(fs[0]) && FormatSteps(fs)[1..] == FormatSteps(fs[1..])
  {
  }

  /** Formatting changes neither what is there nor what is mounted, so all calls pass or the
      first one that would not pass still does not. */
  lemma {:induction false} PassingFormatsAgree(h: Host, exits: Exits, fs: seq<Filesystem>)
    requires FormatsPass(h.world, fs)
    ensures FormatAll(h, exits, fs) == RunSteps(h, exits, FormatSteps(fs))
    decreases fs
  {
    if fs != [] {
      FormatStep(fs);
      GuardIsMountCheck(h.world.mounts, fs[0].device);
      assert CallFormat(h, exits, fs[0]) == RunOne(h, exits, FormatCommand(fs[0]));
      var (h1, v) := RunOne(h, exits, FormatCommand(fs[0]));
      if v == Done {
        assert h1.world.present == h.world.present && h1.world.mounts == h.world.mounts;
        PassingFormatsAgree(h1, exits, fs[1..]);
      }
    }
  }

  /** When every command succeeds, a format call that does not pass is a refusal. */
  lemma {:induction false} BlockedFormatsRefuse(h: Host, exits: Exits, fs: seq<Filesystem>)
    requires !FormatsPass(h.world, fs) && forall log :: exits(log) == 0
    ensures FormatAll(h, exits, fs).1 == Refused
    decreases fs
  {
    var f := fs[0];
    GuardIsMountCheck(h.world.mounts, f.device);
    if AcceptedFilesystem(f) && f.device in h.world.present && !DeviceBusy(h.world.mounts, f.device) {
      var (h1, _) := RunOne(h, exits, FormatCommand(f));
      var i :| 0 <= i < |fs| && !(AcceptedFilesystem(fs[i]) && fs[i].device in h.world.present
                                  && !DeviceBusy(h.world.mounts, fs[i].device));
      assert fs[1..][i - 1] == fs[i];
      BlockedFormatsRefuse(h1, exits, fs[1..]);
    }
  }

  /** The machine on which every command succeeds. */
  function AllSucceed(): Exits {
    log => 0
  }

  lemma {:induction false} AllSucceedRuns(h: Host, cs: seq<Command>)
    ensures RunSteps(h, AllSucceed(), cs) == (Host(ExecAll(h.world, cs), h.log + cs), Done)
    decreases cs
  {
    if cs == [] {
      assert h.log + cs == h.log;
    } else {
      AllSucceedRuns(RunOne(h, AllSucceed(), cs[0]).0, cs[1..]);
      assert h.log + [cs[0]] + cs[1..] == h.log + cs;
    }
  }

  /** What each path does, before any format step. */
  lemma PathsUnfolded(h: Host, exits: Exits, plan: DiskPlan, bootSource: Option<string>)
    ensures DiskUnfit(h.world, plan.disk) || !PartitionsAccepted(plan) ==>
              ApplyViaBackend(h, exits, plan) == (h, Refused) == ApplyDirectly(h, exits, plan, bootSource)
    ensures !DiskUnfit(h.world, plan.disk) && PartitionsAccepted(plan) ==>
              ApplyViaBackend(h, exits, plan) ==
                var (h1, v) := RunSteps(h, exits, PartitionSteps(plan.disk, plan.wipe, plan.partitions));
                if v == Done then FormatAll(h1, exits, plan.filesystems) else (h1, v)
    ensures !DiskUnfit(h.world, plan.disk) && Accepted(plan) && !BootsFrom(bootSource, plan.disk) ==>
              ApplyDirectly(h, exits, plan, bootSource) ==
                var (h1, v) := RunSteps(h, exits, PartitionSteps(plan.disk, plan.wipe, plan.partitions));
                if v == Done then RunSteps(h1, exits, FormatSteps(plan.filesystems)) else (h1, v)
  {
    GuardIsMountCheck(h.world.mounts, plan.disk);
    RunAppend(h, exits, PartitionSteps(plan.disk, plan.wipe, plan.partitions), FormatSteps(plan.filesystems));
    NeverRefused(h, exits, PartitionSteps(plan.disk, plan.wipe, plan.partitions));
  }

  /** The world in which the formatting begins. */
  function Partitioned(w: World, plan: DiskPlan): World {
    ExecAll(w, PartitionSteps(plan.disk, plan.wipe, plan.partitions))
  }

  predicate AgreeWhen(w: World, plan: DiskPlan, bootSource: Option<string>) {
    || DiskUnfit(w, plan.disk)
    || !PartitionsAccepted(plan)
    || (!BootsFrom(bootSource, plan.disk) && FormatsPass(Partitioned(w, plan), plan.filesystems))
  }

  lemma AgreeingPaths(h: Host, exits: Exits, plan: DiskPlan, bootSource: Option<string>)
    requires AgreeWhen(h.world, plan, bootSource)
    ensures ApplyViaBackend(h, exits, plan) == ApplyDirectly(h, exits, plan, bootSource)
  {
    var cs := PartitionSteps(plan.disk, plan.wipe, plan.partitions);
    PathsUnfolded(h, exits, plan, bootSource);
    if !DiskUnfit(h.world, plan.disk) && PartitionsAccepted(plan) {
      assert Accepted(plan) by {
        assert forall i :: 0 <= i < |plan.filesystems| ==> AcceptedFilesystem(plan.filesystems[i]);
      }
      var (h1, v) := RunSteps(h, exits, cs);
      if v == Done {
        DoneMeansExecuted(h, exits, cs);
        PassingFormatsAgree(h1, exits, plan.filesystems);
      }
    }
  }

  lemma DisagreeingPaths(h: Host, plan: DiskPlan, bootSource: Option<string>)
    requires !AgreeWhen(h.world, plan, bootSource)
    ensures ApplyViaBackend(h, AllSucceed(), plan) != ApplyDirectly(h, AllSucceed(), plan, bootSource)
  {
    var cs := PartitionSteps(plan.disk, plan.wipe, plan.partitions);
    var h1 := Host(Partitioned(h.world, plan), h.log + cs);
    PathsUnfolded(h, AllSucceed(), plan, bootSource);
    AllSucceedRuns(h, cs);
    AllSucceedRuns(h1, FormatSteps(plan.filesystems));
    LogGrows(h1, AllSucceed(), plan.filesystems);
    assert |h1.log| > |h.log|;
    if !FormatsPass(h1.world, plan.filesystems) {
      BlockedFormatsRefuse(h1, AllSucceed(), plan.filesystems);
    }
  }

  lemma {:induction false} LogGrows(h: Host, exits: Exits, fs: seq<Filesystem>)
    ensures |FormatAll(h, exits, fs).0.log| >= |h.log|
    decreases fs
  {
    if fs != [] {
      var (h1, v) := CallFormat(h, exits, fs[0]);
      if v == Done {
        LogGrows(h1, exits, fs[1..]);
      }
    }
  }

  /** The exact condition, for every plan whatever and every world: the two paths do the same
      for every way the machine may answer if and only if both refuse at once, or the live
      medium is elsewhere and, once the disk is partitioned, every file system's device is
      valid, there and not mounted. */
  lemma ProvisioningPathsAgreeIff(h: Host, plan: DiskPlan, bootSource: Option<string>)
    ensures (forall exits :: ApplyViaBackend(h, exits, plan) == ApplyDirectly(h, exits, plan, bootSource)) <==>
              AgreeWhen(h.world, plan, bootSource)
  {
    if AgreeWhen(h.world, plan, bootSource) {
      forall exits ensures ApplyViaBackend(h, exits, plan) == ApplyDirectly(h, exits, plan, bootSource) {
        AgreeingPaths(h, exits, plan, bootSource);
      }
    } else {
      DisagreeingPaths(h, plan, bootSource);
    }
  }

  /** Every file system sits on a partition of the plan, as every layout's do. */
  predicate OnOwnPartitions(plan: DiskPlan) {
    forall i :: 0 <= i < |plan.filesystems| ==> plan.filesystems[i].device in NodesOf(plan.disk, plan.partitions)
  }

  lemma ZapKeeps(w: World, plan: DiskPlan)
    ensures var zap := if plan.wipe then [WipeSignatures(plan.disk), ZapTable(plan.disk)] else [];
            ExecAll(w, zap).mounts == w.mounts
  {
    if plan.wipe {
      assert [WipeSignatures(plan.disk), ZapTable(plan.disk)] == [WipeSignatures(plan.disk)] + [ZapTable(plan.disk)];
      ExecAppend(w, [WipeSignatures(plan.disk)], [ZapTable(plan.disk)]);
      ExecOne(w, WipeSignatures(plan.disk));
      ExecOne(Exec(w, WipeSignatures(plan.disk)), ZapTable(plan.disk));
    }
  }

  lemma CreatedAppear(w: World, d: string, ps: seq<Partition>)
    ensures var w' := ExecAll(w, [CreatePartitions(d, ps), ReReadTable(d), SettleDevices]);
            w'.mounts == w.mounts && forall n :: n in NodesOf(d, ps) ==> n in w'.present
  {
    var c0, c1, c2 := CreatePartitions(d, ps), ReReadTable(d), SettleDevices;
    assert [c0, c1, c2] == [c0] + ([c1] + [c2]);
    ExecAppend(w, [c0], [c1] + [c2]);
    ExecOne(w, c0);
    ExecAppend(Exec(w, c0), [c1], [c2]);
    ExecOne(Exec(w, c0), c1);
    ExecOne(Exec(Exec(w, c0), c1), c2);
  }

  /** On any world at all the planned nodes are there after partitioning. */
  lemma PlannedNodesAppear(w: World, plan: DiskPlan)
    ensures Partitioned(w, plan).mounts == w.mounts
    ensures forall n :: n in NodesOf(plan.disk, plan.partitions) ==> n in Partitioned(w, plan).present
  {
    var zap := if plan.wipe then [WipeSignatures(plan.disk), ZapTable(plan.disk)] else [];
    ZapKeeps(w, plan);
    CreatedAppear(ExecAll(w, zap), plan.disk, plan.partitions);
    ExecAppend(w, zap, [CreatePartitions(plan.disk, plan.partitions), ReReadTable(plan.disk), SettleDevices]);
  }

  lemma OwnPartitionsPass(w: World, plan: DiskPlan)
    requires Accepted(plan) && OnOwnPartitions(plan) && !DiskBusy(w.mounts, plan.disk)
    ensures FormatsPass(Partitioned(w, plan), plan.filesystems)
  {
    PlannedNodesAppear(w, plan);
    forall i | 0 <= i < |plan.filesystems|
      ensures AcceptedFilesystem(plan.filesystems[i]) && plan.filesystems[i].device in Partitioned(w, plan).present
      ensures !DeviceBusy(w.mounts, plan.filesystems[i].device)
    {
      NodeTouches(plan.disk, plan.partitions, plan.filesystems[i].device);
    }
  }

  /** For every accepted plan on its own partitions, every world and every way the machine
      answers, both paths run the same commands, up to and including the first failure, with
      the same result. They refuse exactly when the disk is absent or something on it is
      mounted: never mid-run. */
  lemma {:induction false} ProvisioningPathsAgree(h: Host, exits: Exits, plan: DiskPlan)
    requires Accepted(plan) && OnOwnPartitions(plan)
    ensures ApplyViaBackend(h, exits, plan) == ApplyDirectly(h, exits, plan, None)
    ensures ApplyViaBackend(h, exits, plan) ==
              if DiskUnfit(h.world, plan.disk) then (h, Refused) else RunSteps(h, exits, Steps(plan))
    ensures ApplyViaBackend(h, exits, plan).1 == Refused <==> DiskUnfit(h.world, plan.disk)
  {
    if !DiskUnfit(h.world, plan.disk) {
      OwnPartitionsPass(h.world, plan);
    }
    AgreeingPaths(h, exits, plan, None);
    NeverRefused(h, exits, Steps(plan));
  }

  /** The checks look at mounts only. For an accepted, layable plan on a disk they let
      through, both paths run all the commands, and those are all legal if and only if no
      active swap is on the disk (and, without a wipe, no planned partition is there). */
  lemma ChecksMissSwapsIff(h: Host, exits: Exits, plan: DiskPlan)
    requires Accepted(plan) && Layable(plan) && TableConsistent(h.world, plan) && !DiskUnfit(h.world, plan.disk)
    ensures ApplyViaBackend(h, exits, plan) == ApplyDirectly(h, exits, plan, None) == RunSteps(h, exits, Steps(plan))
    ensures AllLegal(h.world, Steps(plan)) <==> NoSwapOn(h.world, plan.disk) && NothingInTheWay(h.world, plan)
  {
    ProvisioningPathsAgree(h, exits, plan);
    ProvisioningIsLegalIff(h.world, plan);
  }

  /** One partition over the whole disk. */
  function OnePartition(disk: string, fs: seq<Filesystem>): DiskPlan {
    DiskPlan(disk, true, [Partition(1, "rest", "8300", "")], fs)
  }

  lemma OnePartitionIsAccepted(disk: string)
    requires ValidDevice(disk)
    ensures PartitionsAccepted(OnePartition(disk, []))
  {
    assert AcceptedPartition(Partition(1, "rest", "8300", ""));
  }

  /** The named case for the swap: the disk's only partition is an active swap and nothing is
      mounted. Both paths run every command of the plan, which zaps the table in use. */
  lemma ActiveSwapGoesUnnoticed(disk: string, exits: Exits)
    requires ValidDevice(disk)
    ensures var node := Node(disk, 1);
            var w := World(map[node := disk], {}, {disk, node}, map[node := "swap"], [], {}, {node});
            var h, plan := Host(w, []), OnePartition(disk, []);
            && ApplyViaBackend(h, exits, plan) == ApplyDirectly(h, exits, plan, None) == RunSteps(h, exits, Steps(plan))
            && Steps(plan)[1] == ZapTable(disk) && !Legal(w, ZapTable(disk))
            && !AllLegal(w, Steps(plan))
  {
    var node := Node(disk, 1);
    var w := World(map[node := disk], {}, {disk, node}, map[node := "swap"], [], {}, {node});
    var plan := OnePartition(disk, []);
    OnePartitionIsAccepted(disk);
    assert node in NodesOf(disk, plan.partitions) by {
      assert plan.partitions[0].number == 1;
    }
    NodeTouches(disk, plan.partitions, node);
    ChecksMissSwapsIff(Host(w, []), exits, plan);
    assert OnDisk(w, node, disk);
  }

  /** The named case for the late refusal: a file system kind no builder knows. The direct path
      refuses at once; the backend wipes and partitions the disk and refuses then. */
  lemma UnknownKindIsRefusedLate(h: Host, disk: string)
    requires ValidDevice(disk) && !DiskUnfit(h.world, disk)
    ensures var plan := OnePartition(disk, [Filesystem(Node(disk, 1), "zfs", "")]);
            && ApplyDirectly(h, AllSucceed(), plan, None) == (h, Refused)
            && ApplyViaBackend(h, AllSucceed(), plan)
                 == (Host(Partitioned(h.world, plan), h.log + PartitionSteps(disk, true, plan.partitions)), Refused)
  {
    var plan := OnePartition(disk, [Filesystem(Node(disk, 1), "zfs", "")]);
    OnePartitionIsAccepted(disk);
    assert !AcceptedFilesystem(plan.filesystems[0]);
    PathsUnfolded(h, AllSucceed(), plan, None);
    AllSucceedRuns(h, PartitionSteps(disk, true, plan.partitions));
  }

  lemma {:induction false} NeverRefused(h: Host, exits: Exits, cs: seq<Command>)
    ensures RunSteps(h, exits, cs).1 != Refused
    decreases cs
  {
    if cs != [] {
      NeverRefused(RunOne(h, exits, cs[0]).0, exits, cs[1..]);
    }
  }

  predicate DistinctMountDevices(ms: seq<TargetMount>) {
    forall i, j :: 0 <= i < j < |ms| ==> ms[i].device != ms[j].device
  }

  predicate MountsReady(w: World, ms: seq<TargetMount>) {
    && (forall i :: 0 <= i < |ms| ==> ms[i].device in w.present && !IsMounted(w, ms[i].device))
    && DistinctMountDevices(ms)
  }

  /** What the machine must offer a mount plan: present, unmounted, distinct devices. */
  predicate DevicesReady(w: World, mp: MountPlan) {
    MountsReady(w, mp.mounts) && forall i :: 0 <= i < |mp.swap| ==> mp.swap[i] in w.present
  }

  lemma CallMountAtRuns(h: Host, exits: Exits, root: string, m: TargetMount)
    requires ValidTargetRoot(root) && MountAccepted(root, m) && "/" <= m.path
    requires m.device in h.world.present && !IsMounted(h.world, m.device)
    ensures CallMountAt(h, exits, m.device, TargetAbs(root, m.path)) == RunSteps(h, exits, OneMount(root, m))
  {
    TargetsStayConfined(root, m.path);
    GuardIsMountCheck(h.world.mounts, m.device);
  }

  lemma MountCommandsFirst(root: string, ms: seq<TargetMount>)
    requires ms != []
    ensures MountCommands(root, ms) == OneMount(root, ms[0]) + MountCommands(root, ms[1..])
  {
    if |ms| == 1 {
      assert Front(ms) == [] && ms[1..] == [];
    } else {
      MountCommandsFirst(root, Front(ms));
      assert Front(ms)[1..] == Front(ms[1..]);
    }
  }

  lemma {:induction false} MountCallsNeverRefuse(h: Host, exits: Exits, mp: MountPlan, k: nat)
    requires ValidTargetRoot(mp.root) && AcceptedMounts(mp) && k <= |mp.mounts|
    requires forall i :: 0 <= i < |mp.mounts| ==> "/" <= mp.mounts[i].path
    requires forall i :: k <= i < |mp.mounts| ==>
      mp.mounts[i].device in h.world.present && !IsMounted(h.world, mp.mounts[i].device)
    requires forall i, j :: 0 <= i < j < |mp.mounts| ==> mp.mounts[i].device != mp.mounts[j].device
    ensures MountAll(h, exits, mp.root, mp.mounts[k..]) == RunSteps(h, exits, MountCommands(mp.root, mp.mounts[k..]))
    decreases |mp.mounts| - k
  {
    var root, ms := mp.root, mp.mounts;
    if k < |ms| {
      var m := ms[k];
      assert MountAccepted(root, m);
      CallMountAtRuns(h, exits, root, m);
      MountCommandsFirst(root, ms[k..]);
      assert ms[k..][0] == m && ms[k..][1..] == ms[k + 1..];
      RunAppend(h, exits, OneMount(root, m), MountCommands(root, ms[k + 1..]));
      var (h1, v) := RunSteps(h, exits, OneMount(root, m));
      if v == Done {
        DoneMeansExecuted(h, exits, OneMount(root, m));
        OneMountWorld(h.world, root, m);
        MountCallsNeverRefuse(h1, exits, mp, k + 1);
      }
    } else {
      assert ms[k..] == [];
    }
  }

  lemma OneMountWorld(w: World, root: string, m: TargetMount)
    ensures var w' := ExecAll(w, OneMount(root, m));
            w'.present == w.present && w'.mounts == w.mounts + [Mounted(m.device, TargetAbs(root, m.path))]
    ensures forall d :: d != m.device ==> (IsMounted(ExecAll(w, OneMount(root, m)), d) <==> IsMounted(w, d))
  {
    var dest := TargetAbs(root, m.path);
    assert OneMount(root, m) == [MakeDirectory(dest)] + [MountDevice(m.device, dest)];
    ExecAppend(w, [MakeDirectory(dest)], [MountDevice(m.device, dest)]);
    ExecOne(w, MakeDirectory(dest));
    ExecOne(Exec(w, MakeDirectory(dest)), MountDevice(m.device, dest));
    var w' := ExecAll(w, OneMount(root, m));
    forall d | d != m.device && IsMounted(w, d) ensures IsMounted(w', d) {
      var i :| 0 <= i < |w.mounts| && w.mounts[i].source == d;
      assert w'.mounts[i].source == d;
    }
  }

  lemma {:induction false} MountingKeepsNodes(w: World, root: string, ms: seq<TargetMount>)
    ensures ExecAll(w, MountCommands(root, ms)).present == w.present
  {
    if ms != [] {
      MountingKeepsNodes(w, root, Front(ms));
      ExecAppend(w, MountCommands(root, Front(ms)), OneMount(root, Last(ms)));
      OneMountWorld(ExecAll(w, MountCommands(root, Front(ms))), root, Last(ms));
    }
  }

  lemma {:induction false} SwapCallsNeverRefuse(h: Host, exits: Exits, ds: seq<string>, k: nat)
    requires k <= |ds|
    requires forall i :: 0 <= i < |ds| ==> ValidDevice(ds[i]) && ds[i] in h.world.present
    ensures SwapAll(h, exits, ds[k..]) == RunSteps(h, exits, SwapCommands(ds[k..]))
    decreases |ds| - k
  {
    if k < |ds| {
      assert ds[k..][0] == ds[k] && ds[k..][1..] == ds[k + 1..];
      assert SwapCommands(ds[k..]) == [SwapOn(ds[k])] + SwapCommands(ds[k + 1..]);
      assert SwapCommands(ds[k..])[1..] == SwapCommands(ds[k + 1..]);
      SwapCallsNeverRefuse(RunOne(h, exits, SwapOn(ds[k])).0, exits, ds, k + 1);
    } else {
      assert ds[k..] == [];
    }
  }

  /** Mounting: for every accepted mount plan whose devices are present, unmounted and
      distinct, and every way the machine may answer, both paths run the same commands
      up to and including the first failure; the backend never refuses mid-run. */
  lemma MountingPathsAgree(h: Host, exits: Exits, mp: MountPlan)
    requires ValidTargetRoot(mp.root) && AcceptedMounts(mp) && DevicesReady(h.world, mp)
    requires forall i :: 0 <= i < |mp.mounts| ==> "/" <= mp.mounts[i].path
    ensures MountViaBackend(h, exits, mp) == MountDirectly(h, exits, mp) == RunSteps(h, exits, MountSteps(mp))
    ensures MountViaBackend(h, exits, mp).1 != Refused
  {
    var ms := mp.mounts;
    assert ms[0..] == ms && mp.swap[0..] == mp.swap;
    MountCallsNeverRefuse(h, exits, mp, 0);
    RunAppend(h, exits, MountCommands(mp.root, ms), SwapCommands(mp.swap));
    NeverRefused(h, exits, MountSteps(mp));
    var (h1, v) := RunSteps(h, exits, MountCommands(mp.root, ms));
    if v == Done {
      DoneMeansExecuted(h, exits, MountCommands(mp.root, ms));
      MountingKeepsNodes(h.world, mp.root, ms);
      SwapCallsNeverRefuse(h1, exits, mp.swap, 0);
    }
  }

  /** When every command succeeds, a mount call on a device that is absent, already mounted
      or mounted by an earlier call is a refusal. */
  lemma {:induction false} BlockedMountsRefuse(h: Host, exits: Exits, root: string, ms: seq<TargetMount>)
    requires !MountsReady(h.world, ms) && forall log :: exits(log) == 0
    requires forall i :: 0 <= i < |ms| ==> ValidDevice(ms[i].device)
    ensures MountAll(h, exits, root, ms).1 == Refused
    decreases ms
  {
    var m, dest := ms[0], TargetAbs(root, ms[0].path);
    GuardIsMountCheck(h.world.mounts, m.device);
    if CallMountAt(h, exits, m.device, dest).1 == Done {
      OneCallMounts(h, exits, m.device, dest);
      var h1 := CallMountAt(h, exits, m.device, dest).0;
      assert m.device in h.world.present && !IsMounted(h.world, m.device);
      ReadyBefore(h.world, h1.world, Mounted(m.device, dest), ms);
      BlockedMountsRefuse(h1, exits, root, ms[1..]);
    } else {
      TwoSucceed(h, exits, MakeDirectory(dest), MountDevice(m.device, dest));
    }
  }

  lemma TwoSucceed(h: Host, exits: Exits, a: Command, b: Command)
    requires forall log :: exits(log) == 0
    ensures RunSteps(h, exits, [a, b]).1 == Done
    ensures RunSteps(h, exits, [a, b]).0.world == Exec(Exec(h.world, a), b)
  {
    assert exits(h.log + [a]) == 0;
    var (h1, _) := RunOne(h, exits, a);
    assert exits(h1.log + [b]) == 0;
    var (h2, _) := RunOne(h1, exits, b);
    assert [a, b][1..] == [b] && [b][1..] == [];
    assert RunSteps(h2, exits, []) == (h2, Done);
    assert RunSteps(h1, exits, [b]) == (h2, Done);
  }

  lemma OneCallMounts(h: Host, exits: Exits, device: string, path: string)
    requires forall log :: exits(log) == 0
    requires CallMountAt(h, exits, device, path).1 == Done
    ensures var w := CallMountAt(h, exits, device, path).0.world;
            w.mounts == h.world.mounts + [Mounted(device, path)] && w.present == h.world.present
  {
    TwoSucceed(h, exits, MakeDirectory(path), MountDevice(device, path));
  }

  /** What is ready after a first mount that went through was ready before it. */
  lemma ReadyBefore(w: World, w1: World, made: Mounted, ms: seq<TargetMount>)
    requires ms != [] && made.source == ms[0].device
    requires ms[0].device in w.present && !IsMounted(w, ms[0].device)
    requires w1.present == w.present && w1.mounts == w.mounts + [made]
    ensures MountsReady(w1, ms[1..]) ==> MountsReady(w, ms)
  {
    var rest := ms[1..];
    if MountsReady(w1, rest) {
      assert w1.mounts[|w.mounts|] == made;
      forall i | 0 <= i < |ms| ensures ms[i].device in w.present && !IsMounted(w, ms[i].device) {
        if i > 0 {
          assert rest[i - 1] == ms[i];
          assert forall k :: 0 <= k < |w.mounts| ==> w1.mounts[k] == w.mounts[k];
        }
      }
      forall i, j | 0 <= i < j < |ms| ensures ms[i].device != ms[j].device {
        assert rest[j - 1] == ms[j];
        if i > 0 {
          assert rest[i - 1] == ms[i];
        }
      }
    }
  }

  lemma {:induction false} BlockedSwapsRefuse(h: Host, exits: Exits, ds: seq<string>)
    requires (exists i :: 0 <= i < |ds| && ds[i] !in h.world.present) && forall log :: exits(log) == 0
    ensures SwapAll(h, exits, ds).1 == Refused
    decreases ds
  {
    if IsBlockDevice(h.world, ds[0]) {
      var i :| 0 <= i < |ds| && ds[i] !in h.world.present;
      assert ds[1..][i - 1] == ds[i];
      BlockedSwapsRefuse(RunOne(h, exits, SwapOn(ds[0])).0, exits, ds[1..]);
    }
  }

  /** The exact condition for mounting, for every accepted mount plan and every world: both
      paths do the same for every way the machine may answer if and only if the devices are
      there, not mounted, and no two mounts share one. */
  lemma MountingPathsAgreeIff(h: Host, mp: MountPlan)
    requires ValidTargetRoot(mp.root) && AcceptedMounts(mp)
    requires forall i :: 0 <= i < |mp.mounts| ==> "/" <= mp.mounts[i].path
    ensures (forall exits :: MountViaBackend(h, exits, mp) == MountDirectly(h, exits, mp)) <==>
            DevicesReady(h.world, mp)
  {
    if DevicesReady(h.world, mp) {
      forall exits ensures MountViaBackend(h, exits, mp) == MountDirectly(h, exits, mp) {
        MountingPathsAgree(h, exits, mp);
      }
    } else {
      AllSucceedRuns(h, MountSteps(mp));
      BlockedRunRefuses(h, mp);
      assert MountViaBackend(h, AllSucceed(), mp) != MountDirectly(h, AllSucceed(), mp);
    }
  }

  lemma BlockedRunRefuses(h: Host, mp: MountPlan)
    requires ValidTargetRoot(mp.root) && AcceptedMounts(mp) && !DevicesReady(h.world, mp)
    requires forall i :: 0 <= i < |mp.mounts| ==> "/" <= mp.mounts[i].path
    ensures MountViaBackend(h, AllSucceed(), mp).1 == Refused
  {
    if MountsReady(h.world, mp.mounts) {
      assert mp.mounts[0..] == mp.mounts;
      MountCallsNeverRefuse(h, AllSucceed(), MountPlan(mp.root, mp.mounts, []), 0);
      AllSucceedRuns(h, MountCommands(mp.root, mp.mounts));
      MountingKeepsNodes(h.world, mp.root, mp.mounts);
      BlockedSwapsRefuse(MountAll(h, AllSucceed(), mp.root, mp.mounts).0, AllSucceed(), mp.swap);
    } else {
      BlockedMountsRefuse(h, AllSucceed(), mp.root, mp.mounts);
    }
  }

  /** From disk plan to mounted target, for every accepted plan on its own partitions, every
      world and every way the machine answers: the backend provisions exactly as the direct
      path does, and after a provisioning that went through the two ways of mounting agree,
      whatever the machine answers, if and only if no two mounts share a device. */
  lemma {:induction false} InstallPathsAgree(h: Host, exits: Exits, plan: DiskPlan, root: string)
    requires Accepted(plan) && OnOwnPartitions(plan) && RolesKnown(plan.filesystems) && ValidTargetRoot(root)
    requires AcceptedMounts(PlanOfDisk(plan.filesystems, root))
    ensures var mp := PlanOfDisk(plan.filesystems, root);
            var (h1, v1) := ApplyDirectly(h, exits, plan, None);
            && ApplyViaBackend(h, exits, plan) == (h1, v1)
            && (v1 == Done ==>
                  ((forall later :: MountViaBackend(h1, later, mp) == MountDirectly(h1, later, mp)) <==>
                     DistinctMountDevices(mp.mounts)))
  {
    var mp := PlanOfDisk(plan.filesystems, root);
    ProvisioningPathsAgree(h, exits, plan);
    var (h1, v1) := ApplyDirectly(h, exits, plan, None);
    if v1 == Done {
      DoneMeansExecuted(h, exits, Steps(plan));
      DerivedDevicesReady(h.world, plan, root);
      DerivedPathsAreAbsolute(plan.filesystems, root);
      MountingPathsAgreeIff(h1, mp);
    }
  }

  lemma DerivedPathsAreAbsolute(fs: seq<Filesystem>, root: string)
    requires RolesKnown(fs)
    ensures forall i :: 0 <= i < |PlanOfDisk(fs, root).mounts| ==> "/" <= PlanOfDisk(fs, root).mounts[i].path
  {
    var ms := PlanOfDisk(fs, root).mounts;
    MountOrderSorts(UnsortedMounts(fs));
    MountsAreAbsolute(fs);
    forall i | 0 <= i < |ms| ensures "/" <= ms[i].path {
      assert ms[i] in multiset(ms);
      assert ms[i] in UnsortedMounts(fs);
    }
  }

  lemma {:induction false} FormattingKeepsNodes(w: World, fs: seq<Filesystem>)
    ensures ExecAll(w, FormatSteps(fs)).present == w.present && ExecAll(w, FormatSteps(fs)).mounts == w.mounts
    decreases fs
  {
    if fs != [] {
      FormatStep(fs);
      FormattingKeepsNodes(Exec(w, FormatCommand(fs[0])), fs[1..]);
    }
  }

  /** After provisioning, the nodes of the plan are there and unmounted. */
  lemma NodesReady(w: World, plan: DiskPlan, device: string)
    requires Accepted(plan) && device in NodesOf(plan.disk, plan.partitions) && !DiskBusy(w.mounts, plan.disk)
    ensures device in ExecAll(w, Steps(plan)).present && !IsMounted(ExecAll(w, Steps(plan)), device)
  {
    ExecAppend(w, PartitionSteps(plan.disk, plan.wipe, plan.partitions), FormatSteps(plan.filesystems));
    PlannedNodesAppear(w, plan);
    FormattingKeepsNodes(Partitioned(w, plan), plan.filesystems);
    NodeTouches(plan.disk, plan.partitions, device);
  }

  /** Every device of the derived mount plan is one of the plan's partitions. */
  lemma DerivedDevices(plan: DiskPlan, root: string)
    requires OnOwnPartitions(plan) && RolesKnown(plan.filesystems)
    ensures var mp := PlanOfDisk(plan.filesystems, root);
            && (forall i :: 0 <= i < |mp.mounts| ==> mp.mounts[i].device in NodesOf(plan.disk, plan.partitions))
            && (forall i :: 0 <= i < |mp.swap| ==> mp.swap[i] in NodesOf(plan.disk, plan.partitions))
  {
    var fs := plan.filesystems;
    var mp := PlanOfDisk(fs, root);
    MountOrderSorts(UnsortedMounts(fs));
    MountsComeFromFilesystems(fs);
    SwapsComeFromFilesystems(fs);
    forall i | 0 <= i < |mp.mounts| ensures mp.mounts[i].device in NodesOf(plan.disk, plan.partitions) {
      assert mp.mounts[i] in multiset(mp.mounts);
      assert mp.mounts[i] in UnsortedMounts(fs);
    }
    forall i | 0 <= i < |mp.swap| ensures mp.swap[i] in NodesOf(plan.disk, plan.partitions) {
      assert mp.swap[i] in mp.swap;
    }
  }

  /** After provisioning, everything the derived mount plan needs is there and unmounted. */
  lemma DerivedDevicesReady(w: World, plan: DiskPlan, root: string)
    requires Accepted(plan) && OnOwnPartitions(plan) && RolesKnown(plan.filesystems) && !DiskBusy(w.mounts, plan.disk)
    ensures var mp := PlanOfDisk(plan.filesystems, root);
            DevicesReady(ExecAll(w, Steps(plan)), mp) <==> DistinctMountDevices(mp.mounts)
  {
    var mp := PlanOfDisk(plan.filesystems, root);
    var w1 := ExecAll(w, Steps(plan));
    DerivedDevices(plan, root);
    forall i | 0 <= i < |mp.mounts| ensures mp.mounts[i].device in w1.present && !IsMounted(w1, mp.mounts[i].device) {
      NodesReady(w, plan, mp.mounts[i].device);
    }
    forall i | 0 <= i < |mp.swap| ensures mp.swap[i] in w1.present {
      NodesReady(w, plan, mp.swap[i]);
    }
  }
}
