/** What the commands do to an abstract disk, and when they are legal. */
module DiskWorld {
  import opened Splitting
  import opened Characters
  import opened Texts
  import opened Fstab
  import opened DiskPlans
  import opened MountPlans

  datatype Mounted = Mounted(source: string, path: string)

  /** `table` gives each partition node its disk; a node is `announced` once the table was
      re-read and `present` once devices settled. `dirs` are the directories visible. */
  datatype World = World(
    table: map<string, string>, announced: set<string>, present: set<string>,
    formatted: map<string, string>, mounts: seq<Mounted>, dirs: set<string>, swaps: set<string>)

  function Node(disk: string, number: nat): string {
    disk + (if disk != "" && IsDigit(Last(disk)) then "p" else "") + Digits(number)
  }

  predicate OnDisk(w: World, device: string, disk: string) {
    device == disk || (device in w.table && w.table[device] == disk)
  }

  predicate IsMounted(w: World, device: string) {
    exists i :: 0 <= i < |w.mounts| && w.mounts[i].source == device
  }

  predicate InUse(w: World, disk: string) {
    || (exists i :: 0 <= i < |w.mounts| && OnDisk(w, w.mounts[i].source, disk))
    || (exists s :: s in w.swaps && OnDisk(w, s, disk))
  }

  /** `q` lies strictly inside directory `p`. */
  predicate Inside(p: string, q: string) {
    TrimSlashes(p) + "/" <= TrimSlashes(q)
  }

  /** Mounting at `path` would land on or hide an existing mount. */
  predicate WouldHide(w: World, path: string) {
    exists i :: 0 <= i < |w.mounts| &&
      (TrimSlashes(w.mounts[i].path) == TrimSlashes(path) || Inside(path, w.mounts[i].path))
  }

  predicate Legal(w: World, c: Command) {
    match c
    case WipeSignatures(d) => d in w.present && !InUse(w, d)
    case ZapTable(d) => d in w.present && !InUse(w, d)
    case CreatePartitions(d, ps) =>
      && d in w.present && !InUse(w, d)
      && (forall i, j :: 0 <= i < j < |ps| ==> ps[i].number != ps[j].number)
      && (forall i :: 0 <= i < |ps| - 1 ==> ps[i].size != "rest")
      && (forall i :: 0 <= i < |ps| ==> Node(d, ps[i].number) !in w.table)
    case ReReadTable(d) => d in w.present && !InUse(w, d)
    case SettleDevices => true
    case MakeFilesystem(dev, _, _) => Formattable(w, dev)
    case MakeSwap(dev, _) => Formattable(w, dev)
    case MakeDirectory(_) => true
    case MountDevice(dev, path) =>
      && dev in w.formatted && w.formatted[dev] != "swap" && dev !in w.swaps
      && !IsMounted(w, dev) && path in w.dirs && !WouldHide(w, path)
    case SwapOn(dev) => dev in w.formatted && w.formatted[dev] == "swap" && dev !in w.swaps && !IsMounted(w, dev)
  }

  predicate Formattable(w: World, dev: string) {
    dev in w.table && dev in w.present && !IsMounted(w, dev) && dev !in w.swaps
  }

  function NodesOf(disk: string, ps: seq<Partition>): set<string> {
    set i | 0 <= i < |ps| :: Node(disk, ps[i].number)
  }

  function Exec(w: World, c: Command): World {
    match c
    case WipeSignatures(_) => w
    case ZapTable(d) =>
      var gone := set t | t in w.table && w.table[t] == d;
      w.(table := w.table - gone, announced := w.announced - gone, present := w.present - gone,
         formatted := w.formatted - gone)
    case CreatePartitions(d, ps) => w.(table := w.table + map t | t in NodesOf(d, ps) :: d)
    case ReReadTable(d) => w.(announced := w.announced + set t | t in w.table && w.table[t] == d)
    case SettleDevices => w.(present := w.present + w.announced)
    case MakeFilesystem(dev, kind, _) => w.(formatted := w.formatted[dev := kind])
    case MakeSwap(dev, _) => w.(formatted := w.formatted[dev := "swap"])
    case MakeDirectory(path) => w.(dirs := w.dirs + {path})
    case MountDevice(dev, path) =>
      w.(mounts := w.mounts + [Mounted(dev, path)], dirs := set q | q in w.dirs && !Inside(path, q))
    case SwapOn(dev) => w.(swaps := w.swaps + {dev})
  }

  function ExecAll(w: World, cs: seq<Command>): World
    decreases cs
  {
    if cs == [] then w else ExecAll(Exec(w, cs[0]), cs[1..])
  }

  predicate AllLegal(w: World, cs: seq<Command>)
    decreases cs
  {
    cs == [] || (Legal(w, cs[0]) && AllLegal(Exec(w, cs[0]), cs[1..]))
  }

  lemma {:induction false} ExecAppend(w: World, a: seq<Command>, b: seq<Command>)
    ensures ExecAll(w, a + b) == ExecAll(ExecAll(w, a), b)
    ensures AllLegal(w, a + b) <==> AllLegal(w, a) && AllLegal(ExecAll(w, a), b)
    decreases a
  {
    if a == [] {
      assert a + b == b;
    } else {
      assert (a + b)[1..] == a[1..] + b;
      ExecAppend(Exec(w, a[0]), a[1..], b);
    }
  }

  lemma ExecOne(w: World, c: Command)
    ensures ExecAll(w, [c]) == Exec(w, c)
    ensures AllLegal(w, [c]) <==> Legal(w, c)
  {
    assert [c][1..] == [];
  }

  // --- Which plans fit which worlds ---

  /** The layout can be carried out: distinct partition numbers, only the last partition
      takes the rest, and every filesystem sits on its own partition of this disk. */
  predicate Layable(plan: DiskPlan) {
    && (forall i, j :: 0 <= i < j < |plan.partitions| ==> plan.partitions[i].number != plan.partitions[j].number)
    && (forall i :: 0 <= i < |plan.partitions| - 1 ==> plan.partitions[i].size != "rest")
    && (forall i :: 0 <= i < |plan.filesystems| ==> plan.filesystems[i].device in NodesOf(plan.disk, plan.partitions))
    && (forall i, j :: 0 <= i < j < |plan.filesystems| ==> plan.filesystems[i].device != plan.filesystems[j].device)
  }

  /** Partition nodes are named after their disk, and an active swap on a node that the plan
      names is on a node that exists. */
  ghost predicate TableConsistent(w: World, plan: DiskPlan) {
    && (forall t :: t in w.table ==> Touches(t, w.table[t]) && t != w.table[t])
    && (forall s :: s in w.swaps && s in NodesOf(plan.disk, plan.partitions) ==> s in w.table)
  }

  /** No active swap is on the disk: what no check of the code looks at. */
  ghost predicate NoSwapOn(w: World, disk: string) {
    forall s :: s in w.swaps ==> !OnDisk(w, s, disk)
  }

  /** A plan that does not wipe finds none of its partitions there already. */
  ghost predicate NothingInTheWay(w: World, plan: DiskPlan) {
    forall t :: t in w.table && t in NodesOf(plan.disk, plan.partitions) ==> plan.wipe && w.table[t] == plan.disk
  }

  /** The disk is there and nothing on it is mounted: what the code's own checks see. */
  predicate PassesChecks(w: World, plan: DiskPlan) {
    plan.disk in w.present && forall i :: 0 <= i < |w.mounts| ==> !Touches(w.mounts[i].source, plan.disk)
  }

  ghost predicate DiskReady(w: World, plan: DiskPlan) {
    PassesChecks(w, plan) && TableConsistent(w, plan) && NoSwapOn(w, plan.disk) && NothingInTheWay(w, plan)
  }

  lemma NoSwapOnNodes(w: World, plan: DiskPlan)
    requires DiskReady(w, plan)
    ensures forall s :: s in w.swaps ==> s !in NodesOf(plan.disk, plan.partitions)
  {
  }

  /** After the formatting of `fs`: exactly what the mount pipeline relies on. */
  ghost predicate Provisioned(w0: World, w: World, plan: DiskPlan, fs: seq<Filesystem>) {
    && w.mounts == w0.mounts && w.swaps == w0.swaps && w.dirs == w0.dirs
    && (forall n :: n in NodesOf(plan.disk, plan.partitions) ==> n in w.table && n in w.present)
    && (forall i :: 0 <= i < |fs| ==> fs[i].device in w.formatted && w.formatted[fs[i].device] == fs[i].kind)
  }

  lemma NodeTouches(disk: string, ps: seq<Partition>, n: string)
    requires n in NodesOf(disk, ps)
    ensures Touches(n, disk)
  {
    var i :| 0 <= i < |ps| && n == Node(disk, ps[i].number);
    var sep := if disk != "" && IsDigit(Last(disk)) then "p" else "";
    assert n == disk + (sep + Digits(ps[i].number));
  }

  lemma NotInUse(w: World, disk: string)
    requires forall t :: t in w.table ==> Touches(t, w.table[t])
    requires forall i :: 0 <= i < |w.mounts| ==> !Touches(w.mounts[i].source, disk)
    requires NoSwapOn(w, disk)
    ensures !InUse(w, disk)
  {
  }

  /** wipe, zap, create, re-read, settle: each legal, and every planned node is there. */
  lemma PartitioningIsLegal(w: World, plan: DiskPlan)
    requires Layable(plan) && DiskReady(w, plan)
    ensures var cs := PartitionSteps(plan.disk, plan.wipe, plan.partitions);
            AllLegal(w, cs) && Provisioned(w, ExecAll(w, cs), plan, [])
  {
    var d, ps := plan.disk, plan.partitions;
    NotInUse(w, d);
    NoSwapOnNodes(w, plan);
    var zap := if plan.wipe then [WipeSignatures(d), ZapTable(d)] else [];
    var wz := if plan.wipe then Exec(w, ZapTable(d)) else w;
    assert AllLegal(w, zap) && ExecAll(w, zap) == wz by {
      if plan.wipe {
        assert zap == [WipeSignatures(d)] + [ZapTable(d)];
        ExecAppend(w, [WipeSignatures(d)], [ZapTable(d)]);
        ExecOne(w, WipeSignatures(d));
        ExecOne(w, ZapTable(d));
      }
    }
    NotInUse(wz, d);
    CreatedNodesAppear(wz, d, ps);
    ExecAppend(w, zap, [CreatePartitions(d, ps), ReReadTable(d), SettleDevices]);
  }

  lemma CreatedNodesAppear(w: World, d: string, ps: seq<Partition>)
    requires Legal(w, CreatePartitions(d, ps))
    requires forall t :: t in w.table ==> Touches(t, w.table[t])
    requires forall i :: 0 <= i < |w.mounts| ==> !Touches(w.mounts[i].source, d)
    requires NoSwapOn(w, d) && forall s :: s in w.swaps ==> s !in NodesOf(d, ps)
    ensures var cs := [CreatePartitions(d, ps), ReReadTable(d), SettleDevices];
            var w' := ExecAll(w, cs);
            && AllLegal(w, cs)
            && w'.mounts == w.mounts && w'.swaps == w.swaps && w'.dirs == w.dirs
            && (forall n :: n in NodesOf(d, ps) ==> n in w'.table && n in w'.present)
  {
    var c0, c1, c2 := CreatePartitions(d, ps), ReReadTable(d), SettleDevices;
    var w1 := Exec(w, c0);
    forall t | t in w1.table ensures Touches(t, w1.table[t]) {
      if t in NodesOf(d, ps) {
        NodeTouches(d, ps, t);
      }
    }
    NotInUse(w1, d);
    assert [c0, c1, c2] == [c0] + ([c1] + [c2]);
    ExecAppend(w, [c0], [c1] + [c2]);
    ExecAppend(w1, [c1], [c2]);
    ExecOne(w, c0);
    ExecOne(w1, c1);
    ExecOne(Exec(w1, c1), c2);
  }

  lemma OneFormatIsLegal(w0: World, w: World, plan: DiskPlan, k: nat)
    requires Layable(plan) && DiskReady(w0, plan) && k < |plan.filesystems|
    requires Provisioned(w0, w, plan, plan.filesystems[..k])
    ensures Legal(w, FormatCommand(plan.filesystems[k]))
    ensures Provisioned(w0, Exec(w, FormatCommand(plan.filesystems[k])), plan, plan.filesystems[..k + 1])
  {
    var f := plan.filesystems[k];
    NodeTouches(plan.disk, plan.partitions, f.device);
    NoSwapOnNodes(w0, plan);
    assert Formattable(w, f.device);
  }

  lemma FormatFirst(fs: seq<Filesystem>, k: nat)
    requires k < |fs|
    ensures FormatSteps(fs[k..]) == [FormatCommand(fs[k])] + FormatSteps(fs[k + 1..])
  {
  }

  lemma {:induction false} FormattingIsLegal(w0: World, w: World, plan: DiskPlan, k: nat)
    requires Layable(plan) && DiskReady(w0, plan)
    requires k <= |plan.filesystems|
    requires Provisioned(w0, w, plan, plan.filesystems[..k])
    ensures AllLegal(w, FormatSteps(plan.filesystems[k..]))
    ensures Provisioned(w0, ExecAll(w, FormatSteps(plan.filesystems[k..])), plan, plan.filesystems)
    decreases |plan.filesystems| - k
  {
    var fs := plan.filesystems;
    if k == |fs| {
      assert fs[k..] == [] && fs[..k] == fs;
    } else {
      var c := FormatCommand(fs[k]);
      OneFormatIsLegal(w0, w, plan, k);
      FormattingIsLegal(w0, Exec(w, c), plan, k + 1);
      FormatFirst(fs, k);
      assert ([c] + FormatSteps(fs[k + 1..]))[1..] == FormatSteps(fs[k + 1..]);
    }
  }

  /** Provisioning a layable plan on a ready disk never takes an illegal step, formats
      every filesystem as planned and touches no mount and no swap. */
  lemma ProvisioningIsLegal(w: World, plan: DiskPlan)
    requires Layable(plan) && DiskReady(w, plan)
    ensures AllLegal(w, Steps(plan))
    ensures Provisioned(w, ExecAll(w, Steps(plan)), plan, plan.filesystems)
  {
    PartitioningIsLegal(w, plan);
    var cs := PartitionSteps(plan.disk, plan.wipe, plan.partitions);
    assert plan.filesystems[..0] == [] && plan.filesystems[0..] == plan.filesystems;
    FormattingIsLegal(w, ExecAll(w, cs), plan, 0);
    ExecAppend(w, cs, FormatSteps(plan.filesystems));
  }

  /** A first step on the disk is refused by the kernel while a swap on it is active. */
  lemma LegalStartsIdle(w: World, plan: DiskPlan)
    requires plan.partitions != [] && AllLegal(w, Steps(plan))
    ensures NoSwapOn(w, plan.disk)
  {
    var cs := Steps(plan);
    assert cs[0] == if plan.wipe then WipeSignatures(plan.disk) else CreatePartitions(plan.disk, plan.partitions);
    assert !InUse(w, plan.disk);
  }

  /** Creating a partition that is already there is refused. */
  lemma LegalCreatesAnew(w: World, plan: DiskPlan)
    requires AllLegal(w, Steps(plan))
    ensures NothingInTheWay(w, plan)
  {
    var d, ps := plan.disk, plan.partitions;
    var create := [CreatePartitions(d, ps), ReReadTable(d), SettleDevices];
    var zap := if plan.wipe then [WipeSignatures(d), ZapTable(d)] else [];
    var wz := if plan.wipe then Exec(w, ZapTable(d)) else w;
    assert ExecAll(w, zap) == wz by {
      if plan.wipe {
        assert zap == [WipeSignatures(d)] + [ZapTable(d)];
        ExecAppend(w, [WipeSignatures(d)], [ZapTable(d)]);
        ExecOne(w, WipeSignatures(d));
        ExecOne(w, ZapTable(d));
      }
    }
    assert Steps(plan) == zap + (create + FormatSteps(plan.filesystems));
    ExecAppend(w, zap, create + FormatSteps(plan.filesystems));
    assert (create + FormatSteps(plan.filesystems))[0] == create[0];
    assert Legal(wz, create[0]);
    forall t | t in w.table && t in NodesOf(d, ps) ensures plan.wipe && w.table[t] == d {
      var i :| 0 <= i < |ps| && t == Node(d, ps[i].number);
      assert Node(d, ps[i].number) !in wz.table;
    }
  }

  /** The exact condition, for a layable plan on a disk that passes every check the code
      makes: provisioning takes no illegal step if and only if no active swap is on the disk
      (and, without a wipe, no planned partition is there already). */
  lemma ProvisioningIsLegalIff(w: World, plan: DiskPlan)
    requires Layable(plan) && plan.partitions != [] && PassesChecks(w, plan) && TableConsistent(w, plan)
    ensures AllLegal(w, Steps(plan)) <==> NoSwapOn(w, plan.disk) && NothingInTheWay(w, plan)
  {
    if AllLegal(w, Steps(plan)) {
      LegalStartsIdle(w, plan);
      LegalCreatesAnew(w, plan);
    }
    if NoSwapOn(w, plan.disk) && NothingInTheWay(w, plan) {
      ProvisioningIsLegal(w, plan);
    }
  }

  // --- Mounting ---

  /** The root, or one directory below it: what the role of an accepted label gives. */
  predicate SimplePath(p: string) {
    p == "/" || (|p| >= 2 && p[0] == '/' && '/' !in p[1..])
  }

  /** Nothing is mounted on or inside the target root. */
  predicate TargetFree(w: World, root: string) {
    forall i :: 0 <= i < |w.mounts| ==>
      TrimSlashes(w.mounts[i].path) != TrimSlashes(root) && !Inside(root, w.mounts[i].path)
  }

  lemma TrimSimple(base: string, path: string)
    requires SimplePath(path) && path != "/"
    ensures TrimSlashes(base + path) == base + path
  {
    assert Last(base + path) == Last(path) == Last(path[1..]);
  }

  lemma SlashInside(base: string, a: string, b: string)
    requires |a| >= 1 && base + a + "/" <= base + b
    ensures '/' in b[1..]
  {
    assert (base + b)[|base| + |a|] == (base + a + "/")[|base| + |a|];
    assert b[1..][|a| - 1] == '/';
  }

  /** Of two mount points of a target, only the root contains the other. */
  lemma TargetNesting(root: string, a: string, b: string)
    requires SimplePath(a) && SimplePath(b)
    ensures Inside(TargetAbs(root, a), TargetAbs(root, b)) <==> a == "/" && b != "/"
    ensures TrimSlashes(TargetAbs(root, a)) == TrimSlashes(TargetAbs(root, b)) <==> a == b
    ensures TrimSlashes(root) <= TrimSlashes(TargetAbs(root, a))
  {
    var base := TrimSlashes(root);
    if a != "/" { TrimSimple(base, a); }
    if b != "/" { TrimSimple(base, b); }
    if a == "/" && b != "/" {
      assert b == "/" + b[1..];
      assert base + "/" <= base + b;
      assert |base + b| > |base|;
    }
    if a != "/" && b != "/" {
      if base + a + "/" <= base + b {
        SlashInside(base, a, b);
      }
      if base + a == base + b {
        assert (base + a)[|base|..] == a && (base + b)[|base|..] == b;
      }
    }
    if a != "/" && b == "/" {
      assert |base + a| > |base|;
    }
  }

  function MountedAt(root: string, ms: seq<TargetMount>): seq<Mounted> {
    seq(|ms|, i requires 0 <= i < |ms| => Mounted(ms[i].device, TargetAbs(root, ms[i].path)))
  }

  /** The mounts can be made one by one in this order. */
  ghost predicate Mountable(w: World, root: string, ms: seq<TargetMount>) {
    && TargetFree(w, root)
    && (forall i :: 0 <= i < |ms| ==> SimplePath(ms[i].path))
    && (forall i :: 0 <= i < |ms| ==> ms[i].device in w.formatted && w.formatted[ms[i].device] != "swap")
    && (forall i :: 0 <= i < |ms| ==> !IsMounted(w, ms[i].device) && ms[i].device !in w.swaps)
    && (forall i, j :: 0 <= i < j < |ms| ==> ms[i].device != ms[j].device && ms[i].path != ms[j].path)
    && (forall i, j :: 0 <= i < j < |ms| ==> !(ms[j].path == "/" && ms[i].path != "/"))
  }

  /** None of the mounts before the `k`th uses its device or is hidden by it. */
  lemma EarlierMountsStay(w0: World, root: string, ms: seq<TargetMount>, k: nat)
    requires Mountable(w0, root, ms) && k < |ms|
    ensures var mounts, dest := w0.mounts + MountedAt(root, ms[..k]), TargetAbs(root, ms[k].path);
            forall i :: 0 <= i < |mounts| ==>
              && mounts[i].source != ms[k].device
              && TrimSlashes(mounts[i].path) != TrimSlashes(dest) && !Inside(dest, mounts[i].path)
  {
    var m, dest := ms[k], TargetAbs(root, ms[k].path);
    var mounts := w0.mounts + MountedAt(root, ms[..k]);
    forall i | 0 <= i < |mounts|
      ensures mounts[i].source != m.device
      ensures TrimSlashes(mounts[i].path) != TrimSlashes(dest) && !Inside(dest, mounts[i].path)
    {
      TargetNesting(root, m.path, m.path);
      if i < |w0.mounts| {
        assert mounts[i] == w0.mounts[i];
      } else {
        var j := i - |w0.mounts|;
        assert mounts[i] == Mounted(ms[j].device, TargetAbs(root, ms[j].path));
        TargetNesting(root, m.path, ms[j].path);
      }
    }
  }

  lemma OneMountIsLegal(w0: World, w: World, root: string, ms: seq<TargetMount>, k: nat)
    requires Mountable(w0, root, ms) && k < |ms|
    requires w == w0.(mounts := w0.mounts + MountedAt(root, ms[..k]), dirs := w.dirs)
    ensures AllLegal(w, OneMount(root, ms[k]))
    ensures var w' := ExecAll(w, OneMount(root, ms[k]));
            w' == w0.(mounts := w0.mounts + MountedAt(root, ms[..k + 1]), dirs := w'.dirs)
  {
    var m, dest := ms[k], TargetAbs(root, ms[k].path);
    var w1 := Exec(w, MakeDirectory(dest));
    EarlierMountsStay(w0, root, ms, k);
    assert Legal(w1, MountDevice(m.device, dest));
    assert OneMount(root, m) == [MakeDirectory(dest)] + [MountDevice(m.device, dest)];
    ExecAppend(w, [MakeDirectory(dest)], [MountDevice(m.device, dest)]);
    ExecOne(w, MakeDirectory(dest));
    ExecOne(w1, MountDevice(m.device, dest));
    assert MountedAt(root, ms[..k + 1]) == MountedAt(root, ms[..k]) + [Mounted(m.device, dest)];
  }

  lemma {:induction false} MountingIsLegal(w: World, root: string, ms: seq<TargetMount>, k: nat)
    requires Mountable(w, root, ms) && k <= |ms|
    ensures AllLegal(w, MountCommands(root, ms[..k]))
    ensures var w' := ExecAll(w, MountCommands(root, ms[..k]));
            w' == w.(mounts := w.mounts + MountedAt(root, ms[..k]), dirs := w'.dirs)
  {
    if k == 0 {
      assert w.mounts + MountedAt(root, ms[..0]) == w.mounts;
    } else {
      MountingIsLegal(w, root, ms, k - 1);
      var before := ExecAll(w, MountCommands(root, ms[..k - 1]));
      OneMountIsLegal(w, before, root, ms, k - 1);
      assert Front(ms[..k]) == ms[..k - 1] && Last(ms[..k]) == ms[k - 1];
      ExecAppend(w, MountCommands(root, ms[..k - 1]), OneMount(root, ms[k - 1]));
    }
  }

  function Elements<T(==)>(s: seq<T>): set<T> {
    set x | x in s
  }

  /** The devices can be swapped on one by one: formatted as swap, idle, distinct. */
  predicate SwapsReady(w: World, ds: seq<string>) {
    && (forall i :: 0 <= i < |ds| ==>
          ds[i] in w.formatted && w.formatted[ds[i]] == "swap" && ds[i] !in w.swaps && !IsMounted(w, ds[i]))
    && (forall i, j :: 0 <= i < j < |ds| ==> ds[i] != ds[j])
  }

  lemma {:induction false} SwappingIsLegal(w: World, devices: seq<string>, k: nat)
    requires k <= |devices| && SwapsReady(w, devices)
    ensures AllLegal(w, SwapCommands(devices[..k]))
    ensures ExecAll(w, SwapCommands(devices[..k])) == w.(swaps := w.swaps + Elements(devices[..k]))
  {
    if k == 0 {
      assert w.swaps + Elements(devices[..0]) == w.swaps;
    } else {
      SwappingIsLegal(w, devices, k - 1);
      var before := ExecAll(w, SwapCommands(devices[..k - 1]));
      assert SwapCommands(devices[..k]) == SwapCommands(devices[..k - 1]) + [SwapOn(devices[k - 1])];
      ExecAppend(w, SwapCommands(devices[..k - 1]), [SwapOn(devices[k - 1])]);
      ExecOne(before, SwapOn(devices[k - 1]));
      assert devices[..k] == devices[..k - 1] + [devices[k - 1]];
    }
  }

  // --- From a disk plan to its mounts ---

  predicate DistinctMounts(ms: seq<TargetMount>) {
    forall i, j :: 0 <= i < j < |ms| ==> ms[i].device != ms[j].device && ms[i].path != ms[j].path
  }

  /** No two filesystems of the plan claim the same mount point. */
  predicate DistinctRoles(fs: seq<Filesystem>) {
    forall i, j :: 0 <= i < j < |fs| && fs[i].kind != "swap" && fs[j].kind != "swap" ==>
      RolePath(fs[i].name) != RolePath(fs[j].name)
  }

  predicate DistinctDevices(fs: seq<Filesystem>) {
    forall i, j :: 0 <= i < j < |fs| ==> fs[i].device != fs[j].device
  }

  lemma {:induction false} UnsortedAreDistinct(fs: seq<Filesystem>)
    requires RolesKnown(fs) && DistinctRoles(fs) && DistinctDevices(fs)
    ensures DistinctMounts(UnsortedMounts(fs))
  {
    if fs != [] {
      UnsortedAreDistinct(Front(fs));
      MountsComeFromFilesystems(Front(fs));
      var ms := UnsortedMounts(Front(fs));
      forall i | 0 <= i < |ms| && Last(fs).kind != "swap"
        ensures ms[i].device != Last(fs).device && ms[i].path != RolePath(Last(fs).name).value
      {
        assert ms[i] in ms;
        var k :| 0 <= k < |Front(fs)| && Front(fs)[k].kind != "swap"
                 && ms[i] == TargetMount(Front(fs)[k].device, RolePath(Front(fs)[k].name).value, Front(fs)[k].kind);
        assert Front(fs)[k] == fs[k];
      }
    }
  }

  lemma {:induction false} InsertedStaysDistinct(ms: seq<TargetMount>, m: TargetMount)
    requires DistinctMounts(ms)
    requires forall i :: 0 <= i < |ms| ==> ms[i].device != m.device && ms[i].path != m.path
    ensures DistinctMounts(Inserted(ms, m))
  {
    if ms != [] && OrderLe(ms[0], m) {
      InsertedStaysDistinct(ms[1..], m);
      var rest := Inserted(ms[1..], m);
      InsertedKeeps(ms[1..], m);
      forall j | 0 <= j < |rest| ensures rest[j].device != ms[0].device && rest[j].path != ms[0].path {
        assert rest[j] in multiset(rest);
        if rest[j] != m {
          assert rest[j] in ms[1..];
          var k :| 0 <= k < |ms[1..]| && ms[1..][k] == rest[j];
          assert ms[k + 1] == rest[j];
        }
      }
    }
  }

  lemma {:induction false} SortedStayDistinct(ms: seq<TargetMount>)
    requires DistinctMounts(ms)
    ensures DistinctMounts(InMountOrder(ms))
  {
    if ms != [] {
      SortedStayDistinct(Front(ms));
      MountOrderSorts(Front(ms));
      var sorted := InMountOrder(Front(ms));
      forall i | 0 <= i < |sorted| ensures sorted[i].device != Last(ms).device && sorted[i].path != Last(ms).path {
        assert sorted[i] in multiset(sorted);
        assert sorted[i] in Front(ms);
        var k :| 0 <= k < |Front(ms)| && Front(ms)[k] == sorted[i];
        assert ms[k] == sorted[i];
      }
      InsertedStaysDistinct(sorted, Last(ms));
    }
  }

  lemma {:induction false} SwapsAreDistinct(fs: seq<Filesystem>)
    requires DistinctDevices(fs)
    ensures forall i, j :: 0 <= i < j < |SwapDevices(fs)| ==> SwapDevices(fs)[i] != SwapDevices(fs)[j]
  {
    if fs != [] {
      SwapsAreDistinct(Front(fs));
      SwapsComeFromFilesystems(Front(fs));
      var ds := SwapDevices(Front(fs));
      forall i | 0 <= i < |ds| ensures ds[i] != Last(fs).device {
        assert ds[i] in ds;
        var k :| 0 <= k < |Front(fs)| && Front(fs)[k].kind == "swap" && Front(fs)[k].device == ds[i];
        assert Front(fs)[k] == fs[k];
      }
    }
  }

  lemma RolePathIsSimple(name: string)
    requires name == "" || ValidLabel(name)
    requires RolePath(name).Some?
    ensures SimplePath(RolePath(name).value)
  {
    var key := Lower(name);
    forall i | 0 <= i < |key| ensures key[i] != '/' {
      assert LabelChar(name[i]);
    }
    assert ("/" + key)[1..] == key;
  }

  /** A device of the plan is not in use while nothing of the disk is. */
  lemma PlanDeviceIsFree(w: World, plan: DiskPlan, f: Filesystem)
    requires Layable(plan) && DiskReady(w, plan) && f in plan.filesystems
    ensures !IsMounted(w, f.device) && f.device !in w.swaps
  {
    NodeTouches(plan.disk, plan.partitions, f.device);
    NoSwapOnNodes(w, plan);
  }

  lemma RootMountsFirst(ms: seq<TargetMount>, i: nat, j: nat)
    requires Sorted(ms) && i < j < |ms| && ms[j].path == "/" && "/" <= ms[i].path
    ensures ms[i].path == "/"
  {
    assert OrderLe(ms[i], ms[j]);
    assert Slashes(ms[i].path) >= 1;
  }

  /** What the formatted disk offers, the derived mount plan can mount. */
  lemma DerivedPlanIsMountable(w0: World, w: World, plan: DiskPlan, root: string)
    requires Accepted(plan) && Layable(plan) && RolesKnown(plan.filesystems) && DistinctRoles(plan.filesystems)
    requires DiskReady(w0, plan) && TargetFree(w0, root)
    requires Provisioned(w0, w, plan, plan.filesystems)
    ensures Mountable(w, root, PlanOfDisk(plan.filesystems, root).mounts)
  {
    var fs := plan.filesystems;
    var ms := InMountOrder(UnsortedMounts(fs));
    UnsortedAreDistinct(fs);
    SortedStayDistinct(UnsortedMounts(fs));
    MountOrderSorts(UnsortedMounts(fs));
    MountsComeFromFilesystems(fs);
    forall i | 0 <= i < |ms|
      ensures SimplePath(ms[i].path) && "/" <= ms[i].path
      ensures ms[i].device in w.formatted && w.formatted[ms[i].device] != "swap"
      ensures !IsMounted(w, ms[i].device) && ms[i].device !in w.swaps
    {
      assert ms[i] in multiset(ms);
      assert ms[i] in UnsortedMounts(fs);
      var k :| 0 <= k < |fs| && fs[k].kind != "swap" &&
          ms[i] == TargetMount(fs[k].device, RolePath(fs[k].name).value, fs[k].kind);
      assert AcceptedFilesystem(fs[k]);
      RolePathIsSimple(fs[k].name);
      PlanDeviceIsFree(w0, plan, fs[k]);
      assert !IsMounted(w, fs[k].device);
    }
    forall i, j | 0 <= i < j < |ms| ensures !(ms[j].path == "/" && ms[i].path != "/") {
      if ms[j].path == "/" {
        RootMountsFirst(ms, i, j);
      }
    }
  }

  lemma DerivedSwapsAreReady(w0: World, w: World, plan: DiskPlan)
    requires Layable(plan) && DiskReady(w0, plan)
    requires Provisioned(w0, w, plan, plan.filesystems)
    ensures SwapsReady(w, SwapDevices(plan.filesystems))
  {
    var fs := plan.filesystems;
    SwapsAreDistinct(fs);
    SwapsComeFromFilesystems(fs);
    var ds := SwapDevices(fs);
    forall i | 0 <= i < |ds|
      ensures ds[i] in w.formatted && w.formatted[ds[i]] == "swap" && ds[i] !in w.swaps && !IsMounted(w, ds[i])
    {
      assert ds[i] in ds;
      var k :| 0 <= k < |fs| && fs[k].kind == "swap" && fs[k].device == ds[i];
      PlanDeviceIsFree(w0, plan, fs[k]);
    }
  }

  /** A mount leaves the swap devices as they are. */
  lemma MountsAvoidSwaps(w: World, root: string, ms: seq<TargetMount>, device: string)
    requires Mountable(w, root, ms)
    requires device in w.formatted && w.formatted[device] == "swap" && !IsMounted(w, device)
    ensures forall i :: 0 <= i < |w.mounts + MountedAt(root, ms)| ==>
            (w.mounts + MountedAt(root, ms))[i].source != device
  {
  }

  lemma MountPipelineIsLegal(w: World, mp: MountPlan)
    requires Mountable(w, mp.root, mp.mounts)
    requires SwapsReady(w, mp.swap)
    ensures AllLegal(w, MountSteps(mp))
    ensures ExecAll(w, MountSteps(mp)).mounts == w.mounts + MountedAt(mp.root, mp.mounts)
    ensures ExecAll(w, MountSteps(mp)).swaps == w.swaps + Elements(mp.swap)
  {
    assert mp.mounts[..|mp.mounts|] == mp.mounts && mp.swap[..|mp.swap|] == mp.swap;
    MountingIsLegal(w, mp.root, mp.mounts, |mp.mounts|);
    var w2 := ExecAll(w, MountCommands(mp.root, mp.mounts));
    forall i | 0 <= i < |mp.swap| ensures !IsMounted(w2, mp.swap[i]) {
      MountsAvoidSwaps(w, mp.root, mp.mounts, mp.swap[i]);
    }
    SwappingIsLegal(w2, mp.swap, |mp.swap|);
    ExecAppend(w, MountCommands(mp.root, mp.mounts), SwapCommands(mp.swap));
  }

  /** The whole pipeline: provisioning an accepted, layable plan on a ready disk and then
      mounting what was derived from it never takes an illegal step, and ends with
      exactly the planned mounts, in order, and exactly the planned swaps added. */
  lemma InstallPipelineIsLegal(w: World, plan: DiskPlan, root: string)
    requires Accepted(plan) && Layable(plan) && RolesKnown(plan.filesystems) && DistinctRoles(plan.filesystems)
    requires DiskReady(w, plan) && TargetFree(w, root)
    ensures var mp := PlanOfDisk(plan.filesystems, root);
            var w' := ExecAll(w, Steps(plan) + MountSteps(mp));
            && AllLegal(w, Steps(plan) + MountSteps(mp))
            && w'.mounts == w.mounts + MountedAt(root, mp.mounts)
            && w'.swaps == w.swaps + Elements(mp.swap)
  {
    var mp := PlanOfDisk(plan.filesystems, root);
    var w1 := ExecAll(w, Steps(plan));
    ProvisioningIsLegal(w, plan);
    DerivedPlanIsMountable(w, w1, plan, root);
    DerivedSwapsAreReady(w, w1, plan);
    MountPipelineIsLegal(w1, mp);
    ExecAppend(w, Steps(plan), MountSteps(mp));
  }

  // --- The canned layouts ---

  /** Where a slot's filesystem came from. */
  predicate FromSlot(diskName: string, slots: seq<Slot>, f: Filesystem, i: nat) {
    && i < |slots| && slots[i].kind != ""
    && f == Filesystem(PartitionDevice(diskName, i + 1), slots[i].kind, slots[i].name)
  }

  lemma {:induction false} FilesystemsFromSlots(diskName: string, slots: seq<Slot>)
    ensures forall f :: f in SlotFilesystems(diskName, slots) ==> exists i: nat :: FromSlot(diskName, slots, f, i)
  {
    if slots != [] {
      FilesystemsFromSlots(diskName, Front(slots));
      forall f | f in SlotFilesystems(diskName, slots) ensures exists i: nat :: FromSlot(diskName, slots, f, i) {
        if f in SlotFilesystems(diskName, Front(slots)) {
          var i: nat :| FromSlot(diskName, Front(slots), f, i);
          assert FromSlot(diskName, slots, f, i);
        } else {
          assert FromSlot(diskName, slots, f, |slots| - 1);
        }
      }
    }
  }

  /** Slots that can be laid out: only the last takes the rest, and no two mounted
      filesystems share a role. */
  predicate GoodSlots(slots: seq<Slot>) {
    FixedSizes(slots) && GoodRoles(slots)
  }

  /** Only the last slot takes the rest of the disk. */
  predicate FixedSizes(slots: seq<Slot>) {
    forall i :: 0 <= i < |slots| - 1 ==> slots[i].size != "rest"
  }

  predicate GoodRoles(slots: seq<Slot>) {
    && (forall i, j :: 0 <= i < j < |slots| && Mounts(slots[i]) && Mounts(slots[j]) ==>
          RolePath(slots[i].name) != RolePath(slots[j].name))
    && (forall i :: 0 <= i < |slots| && Mounts(slots[i]) ==> RolePath(slots[i].name).Some?)
  }

  predicate Mounts(s: Slot) {
    s.kind != "" && s.kind != "swap"
  }

  /** A filesystem of an earlier slot sits on another partition and plays another role. */
  lemma EarlierSlotDiffers(diskName: string, slots: seq<Slot>, f: Filesystem)
    requires GoodSlots(slots) && slots != [] && f in SlotFilesystems(diskName, Front(slots))
    ensures f.device != PartitionDevice(diskName, |slots|)
    ensures f.kind != "swap" ==> RolePath(f.name).Some?
    ensures f.kind != "swap" && Mounts(Last(slots)) ==> RolePath(f.name) != RolePath(Last(slots).name)
  {
    FilesystemsFromSlots(diskName, Front(slots));
    var i: nat :| FromSlot(diskName, Front(slots), f, i);
    assert slots[i] == Front(slots)[i];
    if PartitionDevice(diskName, i + 1) == PartitionDevice(diskName, |slots|) {
      PartitionDeviceInjective(diskName, i + 1, |slots|);
    }
  }

  lemma DistinctSnoc(fs: seq<Filesystem>, f: Filesystem)
    requires DistinctDevices(fs) && DistinctRoles(fs) && RolesKnown(fs)
    requires forall k :: 0 <= k < |fs| ==> fs[k].device != f.device
    requires f.kind != "swap" ==> RolePath(f.name).Some?
    requires forall k :: 0 <= k < |fs| && fs[k].kind != "swap" && f.kind != "swap" ==>
             RolePath(fs[k].name) != RolePath(f.name)
    ensures DistinctDevices(fs + [f]) && DistinctRoles(fs + [f]) && RolesKnown(fs + [f])
  {
  }

  lemma {:induction false} SlotFilesystemsAreDistinct(diskName: string, slots: seq<Slot>)
    requires GoodSlots(slots)
    ensures var fs := SlotFilesystems(diskName, slots);
            DistinctDevices(fs) && DistinctRoles(fs) && RolesKnown(fs)
  {
    if slots != [] {
      var fs, s := SlotFilesystems(diskName, Front(slots)), Last(slots);
      SlotFilesystemsAreDistinct(diskName, Front(slots));
      if s.kind == "" {
        assert fs + [] == fs;
      } else {
        forall k | 0 <= k < |fs|
          ensures fs[k].device != PartitionDevice(diskName, |slots|)
          ensures fs[k].kind != "swap" && s.kind != "swap" ==> RolePath(fs[k].name) != RolePath(s.name)
        {
          EarlierSlotDiffers(diskName, slots, fs[k]);
        }
        assert s.kind != "swap" ==> Mounts(slots[|slots| - 1]);
        DistinctSnoc(fs, Filesystem(PartitionDevice(diskName, |slots|), s.kind, s.name));
      }
    }
  }

  lemma NodeIsPartitionDevice(diskName: string, number: nat)
    ensures Node("/dev/" + diskName, number) == PartitionDevice(diskName, number)
  {
    var disk := "/dev/" + diskName;
    if diskName == "" {
      assert Last(disk) == '/';
    } else {
      assert Last(disk) == Last(diskName);
    }
  }

  lemma GoodSlotsAreLayable(diskName: string, slots: seq<Slot>)
    requires GoodSlots(slots)
    ensures Layable(LayoutPlan(diskName, slots))
    ensures var fs := LayoutPlan(diskName, slots).filesystems; RolesKnown(fs) && DistinctRoles(fs)
  {
    var plan := LayoutPlan(diskName, slots);
    SlotFilesystemsAreDistinct(diskName, slots);
    FilesystemsFromSlots(diskName, slots);
    forall k | 0 <= k < |plan.filesystems| ensures plan.filesystems[k].device in NodesOf(plan.disk, plan.partitions) {
      assert plan.filesystems[k] in plan.filesystems;
      var i: nat :| FromSlot(diskName, slots, plan.filesystems[k], i);
      NodeIsPartitionDevice(diskName, i + 1);
      assert plan.partitions[i].number == i + 1;
    }
  }

  lemma LayoutRoles()
    ensures RolePath("ESP") == Some("/efi") && RolePath("root") == Some("/") && RolePath("home") == Some("/home")
  {
    assert Lower("ESP") == "esp" && Lower("root") == "root" && Lower("home") == "home";
  }

  lemma RestNotLastIsIllegal(w: World, plan: DiskPlan, i: nat, more: seq<Command>)
    requires i < |plan.partitions| - 1 && plan.partitions[i].size == "rest"
    ensures !AllLegal(w, Steps(plan) + more)
  {
    var zap := if plan.wipe then [WipeSignatures(plan.disk), ZapTable(plan.disk)] else [];
    var create := [CreatePartitions(plan.disk, plan.partitions), ReReadTable(plan.disk), SettleDevices];
    assert Steps(plan) + more == zap + (create + FormatSteps(plan.filesystems) + more);
    ExecAppend(w, zap, create + FormatSteps(plan.filesystems) + more);
    assert (create + FormatSteps(plan.filesystems) + more)[0] == create[0];
  }

  /** The outcome a layout promises on a world. */
  ghost predicate InstallsCleanly(w: World, plan: DiskPlan, root: string)
    requires RolesKnown(plan.filesystems)
  {
    var mp := PlanOfDisk(plan.filesystems, root);
    var w' := ExecAll(w, Steps(plan) + MountSteps(mp));
    && AllLegal(w, Steps(plan) + MountSteps(mp))
    && w'.mounts == w.mounts + MountedAt(root, mp.mounts)
    && w'.swaps == w.swaps + Elements(mp.swap)
  }

  lemma LayoutInstallsCleanly(w: World, diskName: string, slots: seq<Slot>, root: string)
    requires GoodSlots(slots) && Accepted(LayoutPlan(diskName, slots))
    requires DiskReady(w, LayoutPlan(diskName, slots)) && TargetFree(w, root)
    ensures RolesKnown(LayoutPlan(diskName, slots).filesystems)
    ensures InstallsCleanly(w, LayoutPlan(diskName, slots), root)
  {
    GoodSlotsAreLayable(diskName, slots);
    InstallPipelineIsLegal(w, LayoutPlan(diskName, slots), root);
  }

  lemma SystemSlotsRoles(swapSize: string, rootFs: string, rootSize: string, homeFs: Option<string>)
    requires RootChoiceOk(rootFs, rootSize, homeFs)
    ensures var ss := SystemSlots(swapSize, rootFs, rootSize, homeFs);
            && GoodRoles(ss)
            && forall i :: 0 <= i < |ss| && Mounts(ss[i]) ==> RolePath(ss[i].name) in {Some("/"), Some("/home")}
  {
    LayoutRoles();
  }

  lemma SystemSlotsSizes(swapSize: string, rootFs: string, rootSize: string, homeFs: Option<string>)
    requires RootChoiceOk(rootFs, rootSize, homeFs)
    ensures var ss := SystemSlots(swapSize, rootFs, rootSize, homeFs);
            |ss| >= 1 && (FixedSizes(ss) <==> swapSize != "rest")
  {
    var ss := SystemSlots(swapSize, rootFs, rootSize, homeFs);
    assert swapSize == "rest" ==> ss[0].size == "rest";
  }

  lemma SlotInFront(head: Slot, ss: seq<Slot>)
    requires |ss| >= 1
    ensures FixedSizes([head] + ss) <==> head.size != "rest" && FixedSizes(ss)
    ensures GoodRoles(ss) && !Mounts(head) ==> GoodRoles([head] + ss)
    ensures GoodRoles(ss) && RolePath(head.name).Some?
            && (forall i :: 0 <= i < |ss| && Mounts(ss[i]) ==> RolePath(ss[i].name) != RolePath(head.name)) ==>
              GoodRoles([head] + ss)
  {
    var slots := [head] + ss;
    assert slots[0] == head;
    assert forall i :: 0 <= i < |ss| ==> slots[i + 1] == ss[i];
    assert forall i :: 1 <= i < |slots| ==> slots[i] == ss[i - 1];
  }

  /** Every accepted layout with roles to mount installs cleanly on every ready disk exactly
      when only its last partition takes the rest. */
  lemma LayoutInstallsIff(w: World, diskName: string, slots: seq<Slot>, root: string)
    requires GoodRoles(slots) && Accepted(LayoutPlan(diskName, slots)) && DiskReady(w, LayoutPlan(diskName, slots))
    requires TargetFree(w, root)
    ensures RolesKnown(LayoutPlan(diskName, slots).filesystems)
    ensures InstallsCleanly(w, LayoutPlan(diskName, slots), root) <==> FixedSizes(slots)
  {
    var plan := LayoutPlan(diskName, slots);
    LayoutKnowsRoles(diskName, slots);
    if FixedSizes(slots) {
      LayoutInstallsCleanly(w, diskName, slots, root);
    } else {
      var i :| 0 <= i < |slots| - 1 && slots[i].size == "rest";
      RestNotLastIsIllegal(w, plan, i, MountSteps(PlanOfDisk(plan.filesystems, root)));
    }
  }

  lemma UefiSlotsAre(espSize: string, swapSize: string, rootFs: string, rootSize: string, homeFs: Option<string>)
    requires RootChoiceOk(rootFs, rootSize, homeFs)
    ensures var slots := UefiSlots(espSize, swapSize, rootFs, rootSize, homeFs);
            GoodRoles(slots) && (FixedSizes(slots) <==> espSize != "rest" && swapSize != "rest")
  {
    SystemSlotsRoles(swapSize, rootFs, rootSize, homeFs);
    SystemSlotsSizes(swapSize, rootFs, rootSize, homeFs);
    LayoutRoles();
    EspRoleDiffers();
    SlotInFront(Slot(espSize, "EF00", "ESP", "vfat"), SystemSlots(swapSize, rootFs, rootSize, homeFs));
  }

  lemma EspRoleDiffers()
    ensures "/efi" != "/" && "/efi" != "/home"
  {
    assert "/efi"[1] == 'e' && "/home"[1] == 'h';
  }

  lemma BiosSlotsAre(swapSize: string, rootFs: string, rootSize: string, homeFs: Option<string>)
    requires RootChoiceOk(rootFs, rootSize, homeFs)
    ensures var slots := BiosSlots(swapSize, rootFs, rootSize, homeFs);
            GoodRoles(slots) && (FixedSizes(slots) <==> swapSize != "rest")
  {
    SystemSlotsRoles(swapSize, rootFs, rootSize, homeFs);
    SystemSlotsSizes(swapSize, rootFs, rootSize, homeFs);
    SlotInFront(Slot("2M", "EF02", "BIOS", ""), SystemSlots(swapSize, rootFs, rootSize, homeFs));
  }

  /** Every accepted UEFI plan installs cleanly on every ready disk exactly when its ESP
      and swap sizes are fixed sizes. */
  lemma UefiInstallsCleanlyIffFixed(w: World, diskName: string, espSize: string, swapSize: string, rootFs: string,
                                    rootSize: string, homeFs: Option<string>, root: string)
    requires var plan := LayoutPlan(diskName, UefiSlots(espSize, swapSize, rootFs, rootSize, homeFs));
             RootChoiceOk(rootFs, rootSize, homeFs) && Accepted(plan) && DiskReady(w, plan)
    requires TargetFree(w, root)
    ensures var plan := LayoutPlan(diskName, UefiSlots(espSize, swapSize, rootFs, rootSize, homeFs));
            && RolesKnown(plan.filesystems)
            && (InstallsCleanly(w, plan, root) <==> espSize != "rest" && swapSize != "rest")
  {
    UefiSlotsAre(espSize, swapSize, rootFs, rootSize, homeFs);
    LayoutInstallsIff(w, diskName, UefiSlots(espSize, swapSize, rootFs, rootSize, homeFs), root);
  }

  lemma {:induction false} SlotHasFilesystem(diskName: string, slots: seq<Slot>, i: nat)
    requires i < |slots| && slots[i].kind != ""
    ensures Filesystem(PartitionDevice(diskName, i + 1), slots[i].kind, slots[i].name)
         in SlotFilesystems(diskName, slots)
  {
    if i < |slots| - 1 {
      SlotHasFilesystem(diskName, Front(slots), i);
    }
  }

  lemma RootSlotIs(espSize: string, swapSize: string, rootFs: string, rootSize: string, homeFs: Option<string>)
    ensures var slots, at := UefiSlots(espSize, swapSize, rootFs, rootSize, homeFs), if swapSize == "" then 1 else 2;
            at < |slots| && slots[at].kind == rootFs && slots[at].name == "root"
            && slots[0].kind == "vfat" && slots[0].name == "ESP"
  {
  }

  predicate Identified(fs: seq<Filesystem>, uuids: map<string, string>) {
    forall i :: 0 <= i < |fs| ==> fs[i].device in uuids && WellFormedUuid(uuids[fs[i].device])
  }

  predicate HasLine(text: string, uuid: string, mountpoint: string, fstype: string, options: string, passno: int) {
    exists e :: e in Parsed(text) && e.spec == "UUID=" + uuid && e.mountpoint == mountpoint && e.fstype == fstype
                && e.options == options && e.dump == 0 && e.passno == passno
  }

  /** What the fstab of a layout says about one of its slots. */
  lemma SlotIsTold(diskName: string, slots: seq<Slot>, root: string, uuids: map<string, string>, i: nat)
    requires GoodRoles(slots) && Accepted(LayoutPlan(diskName, slots)) && i < |slots| && Mounts(slots[i])
    requires Identified(SlotFilesystems(diskName, slots), uuids)
    ensures RolesKnown(SlotFilesystems(diskName, slots)) && PartitionDevice(diskName, i + 1) in uuids
    ensures var text := GenerateTargetFstab(PlanOfDisk(SlotFilesystems(diskName, slots), root), uuids);
            text.Ok? && ToldOf(Parsed(text.value),
                               Filesystem(PartitionDevice(diskName, i + 1), slots[i].kind, slots[i].name),
                               uuids[PartitionDevice(diskName, i + 1)])
  {
    LayoutKnowsRoles(diskName, slots);
    SlotHasFilesystem(diskName, slots, i);
    InstallFstabIsExact(LayoutPlan(diskName, slots), root, uuids);
  }

  lemma ToldMeans(text: string, f: Filesystem, uuid: string, path: string)
    requires ToldOf(Parsed(text), f, uuid) && f.kind != "swap" && RolePath(f.name) == Some(path)
    ensures f.kind == "vfat" ==> HasLine(text, uuid, path, "vfat", "umask=0077", 2)
    ensures f.kind != "vfat" && path == "/" ==> HasLine(text, uuid, "/", f.kind, "noatime", 1)
  {
    var i :| 0 <= i < |Parsed(text)| && SaysOf(Parsed(text)[i], uuid, path, f.kind);
    assert Parsed(text)[i] in Parsed(text);
  }

  /** The fstab of an installed UEFI system: its first partition at /efi, kept from other users'
      eyes and checked second, and its root partition at /, checked first, without access times. */
  lemma UefiFstab(diskName: string, espSize: string, swapSize: string, rootFs: string, rootSize: string,
                  homeFs: Option<string>, root: string, uuids: map<string, string>)
    requires var slots := UefiSlots(espSize, swapSize, rootFs, rootSize, homeFs);
             && RootChoiceOk(rootFs, rootSize, homeFs) && Accepted(LayoutPlan(diskName, slots))
             && Identified(SlotFilesystems(diskName, slots), uuids)
    ensures var fs := SlotFilesystems(diskName, UefiSlots(espSize, swapSize, rootFs, rootSize, homeFs));
            var esp, system := PartitionDevice(diskName, 1), PartitionDevice(diskName, if swapSize == "" then 2 else 3);
            && RolesKnown(fs) && esp in uuids && system in uuids
            && var text := GenerateTargetFstab(PlanOfDisk(fs, root), uuids);
               text.Ok? && HasLine(text.value, uuids[esp], "/efi", "vfat", "umask=0077", 2)
               && HasLine(text.value, uuids[system], "/", rootFs, "noatime", 1)
  {
    var slots := UefiSlots(espSize, swapSize, rootFs, rootSize, homeFs);
    var at := if swapSize == "" then 1 else 2;
    UefiSlotsAre(espSize, swapSize, rootFs, rootSize, homeFs);
    RootSlotIs(espSize, swapSize, rootFs, rootSize, homeFs);
    RootKindsAreLinux(rootFs);
    LayoutRoles();
    SlotIsTold(diskName, slots, root, uuids, 0);
    SlotIsTold(diskName, slots, root, uuids, at);
    var text := GenerateTargetFstab(PlanOfDisk(SlotFilesystems(diskName, slots), root), uuids).value;
    ToldMeans(text, Filesystem(PartitionDevice(diskName, 1), "vfat", "ESP"), uuids[PartitionDevice(diskName, 1)],
              "/efi");
    ToldMeans(text, Filesystem(PartitionDevice(diskName, at + 1), rootFs, "root"),
              uuids[PartitionDevice(diskName, at + 1)], "/");
  }

  lemma RootKindsAreLinux(rootFs: string)
    requires rootFs in ROOT_FS_KINDS
    ensures rootFs != "swap" && rootFs != "vfat" && rootFs != ""
  {
  }

  lemma SdaNodesAreValid(number: nat)
    requires 1 <= number < 10
    ensures ValidDevice("/dev/sda") && ValidDevice(PartitionDevice("sda", number))
  {
    assert PartitionDevice("sda", number) == "/dev/sda" + [DigitChar(number)];
  }

  /** The named case: a UEFI layout whose ESP takes the rest, without swap or home. Every
      validator accepts it, and no world can carry it out. */
  lemma RestEspCannotBeLaidOut(w: World)
    ensures var plan := LayoutPlan("sda", UefiSlots("rest", "", "ext4", "", None));
            RootChoiceOk("ext4", "", None) && Accepted(plan) && !AllLegal(w, Steps(plan))
  {
    var slots := UefiSlots("rest", "", "ext4", "", None);
    var plan := LayoutPlan("sda", slots);
    assert slots == [Slot("rest", "EF00", "ESP", "vfat"), Slot("rest", "8300", "root", "ext4")];
    SdaNodesAreValid(1);
    SdaNodesAreValid(2);
    SlotPairAccepted("sda", slots[0], slots[1]);
    RestNotLastIsIllegal(w, plan, 0, []);
    assert Steps(plan) + [] == Steps(plan);
  }

  lemma SlotPairAccepted(diskName: string, a: Slot, b: Slot)
    requires ValidDevice("/dev/" + diskName) && a.kind != "" && b.kind != ""
    requires AcceptedPartition(Partition(1, a.size, a.guid, a.name))
    requires AcceptedPartition(Partition(2, b.size, b.guid, b.name))
    requires AcceptedFilesystem(Filesystem(PartitionDevice(diskName, 1), a.kind, a.name))
    requires AcceptedFilesystem(Filesystem(PartitionDevice(diskName, 2), b.kind, b.name))
    ensures Accepted(LayoutPlan(diskName, [a, b]))
  {
    assert Front([a, b]) == [a] && Front([a]) == [];
    assert SlotFilesystems(diskName, [a]) == [Filesystem(PartitionDevice(diskName, 1), a.kind, a.name)];
  }

  lemma LayoutKnowsRoles(diskName: string, slots: seq<Slot>)
    requires forall i :: 0 <= i < |slots| && Mounts(slots[i]) ==> RolePath(slots[i].name).Some?
    ensures RolesKnown(SlotFilesystems(diskName, slots))
  {
    FilesystemsFromSlots(diskName, slots);
    var fs := SlotFilesystems(diskName, slots);
    forall k | 0 <= k < |fs| && fs[k].kind != "swap" ensures RolePath(fs[k].name).Some? {
      assert fs[k] in fs;
      var i: nat :| FromSlot(diskName, slots, fs[k], i);
    }
  }

  /** The same for BIOS plans, whose boot partition carries no filesystem. */
  lemma BiosInstallsCleanlyIffFixed(w: World, diskName: string, swapSize: string, rootFs: string,
                                    rootSize: string, homeFs: Option<string>, root: string)
    requires var plan := LayoutPlan(diskName, BiosSlots(swapSize, rootFs, rootSize, homeFs));
             RootChoiceOk(rootFs, rootSize, homeFs) && Accepted(plan) && DiskReady(w, plan)
    requires TargetFree(w, root)
    ensures var plan := LayoutPlan(diskName, BiosSlots(swapSize, rootFs, rootSize, homeFs));
            && RolesKnown(plan.filesystems)
            && (InstallsCleanly(w, plan, root) <==> swapSize != "rest")
  {
    BiosSlotsAre(swapSize, rootFs, rootSize, homeFs);
    LayoutInstallsIff(w, diskName, BiosSlots(swapSize, rootFs, rootSize, homeFs), root);
  }
}
