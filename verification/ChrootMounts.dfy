/** The pseudo-filesystems of the chroot: the mount sequence, its lazy teardown, and what
    both do to the kernel's mount table. */
module ChrootMounts {
  import opened Splitting
  import opened MountPlans
  import Engine = InstallEngine

  /** One line of the mount table, oldest first. */
  datatype Mount = Mount(source: string, at: string)

  type Table = seq<Mount>

  datatype Command =
    | MakeDirectory(path: string)
    | MountProc(at: string)
    | Bind(source: string, at: string, recursive: bool)
    | MakeSlave(at: string, recursive: bool)
    | LazyUnmount(at: string, recursive: bool)
    | CopyResolver(root: string)

  function Under(root: string, sub: string): string {
    TrimSlashes(root) + "/" + sub
  }

  // --- The sequences ---

  function PseudoMountSteps(root: string): seq<Command> {
    var proc, sys, dev, run := Under(root, "proc"), Under(root, "sys"), Under(root, "dev"), Under(root, "run");
    [MakeDirectory(proc), MountProc(proc),
     MakeDirectory(sys), Bind("/sys", sys, true), MakeSlave(sys, true),
     MakeDirectory(dev), Bind("/dev", dev, true), MakeSlave(dev, true),
     MakeDirectory(run), Bind("/run", run, false), MakeSlave(run, false)]
  }

  function PseudoUnmountSteps(root: string): seq<Command> {
    [LazyUnmount(Under(root, "run"), false), LazyUnmount(Under(root, "dev"), true),
     LazyUnmount(Under(root, "sys"), true), LazyUnmount(Under(root, "proc"), false)]
  }

  function PrepareSteps(root: string): seq<Command> {
    PseudoMountSteps(root) + [CopyResolver(root)]
  }

  /** Every mount has its directory made just before it; every bind, and only a bind, is made a
      slave just after it, recursively exactly if it is recursive, so that nothing done inside
      leaks out; the resolver is copied last. */
  lemma PreparationIsSealed(root: string, i: nat)
    requires i < |PrepareSteps(root)|
    ensures var cs := PrepareSteps(root);
            && (cs[i].MountProc? || cs[i].Bind? ==> i > 0 && cs[i - 1] == MakeDirectory(cs[i].at))
            && (cs[i].Bind? ==> i + 1 < |cs| && cs[i + 1] == MakeSlave(cs[i].at, cs[i].recursive))
            && (cs[i].MakeSlave? ==> i > 0 && cs[i - 1].Bind?)
            && (cs[i] == CopyResolver(root) <==> i == |cs| - 1)
  {
  }

  /** Where among the steps the four mounts are. */
  const MOUNT_STEPS: seq<nat> := [1, 3, 6, 9]

  /** The teardown is the mounts the other way round, recursive exactly where the mount was. */
  lemma TeardownMirrorsMounts(root: string)
    ensures var cs, unmounts := PrepareSteps(root), PseudoUnmountSteps(root);
            && |cs| == 12 && |unmounts| == 4
            && (forall i :: 0 <= i < |cs| ==> ((cs[i].MountProc? || cs[i].Bind?) <==> i in MOUNT_STEPS))
            && forall k :: 0 <= k < 4 ==>
                 var mount := cs[MOUNT_STEPS[3 - k]];
                 (mount.MountProc? || mount.Bind?) &&
                 unmounts[k] == LazyUnmount(mount.at, mount.Bind? && mount.recursive)
  {
  }

  // --- The mount table ---

  predicate MountedAt(t: Table, p: string) {
    exists i :: 0 <= i < |t| && t[i].at == p
  }

  predicate Below(m: Mount, p: string) {
    p + "/" <= m.at
  }

  /** A recursive bind clones every mount below its source to the same place below `at`. */
  function Carried(t: Table, source: string, at: string): Table {
    if t == [] then []
    else
      Carried(Front(t), source, at) +
      if Below(Last(t), source) then [Mount(Last(t).source, at + Last(t).at[|source|..])] else []
  }

  /** Detaching takes the newest mount at `p`, and what was mounted below it since. */
  function Detached(t: Table, p: string): Table {
    if t == [] then []
    else if Last(t).at == p then Front(t)
    else if !MountedAt(t, p) then t
    else Detached(Front(t), p) + if Below(Last(t), p) then [] else [Last(t)]
  }

  /** A command that succeeds; unmounting what is not mounted fails and changes nothing. */
  function Effect(t: Table, c: Command): Table {
    match c
    case MountProc(at) => t + [Mount("proc", at)]
    case Bind(source, at, recursive) =>
      t + [Mount(source, at)] + if recursive then Carried(t, source, at) else []
    case LazyUnmount(at, _) => Detached(t, at)
    case _ => t
  }

  function EffectOfAll(t: Table, cs: seq<Command>): Table {
    if cs == [] then t else Effect(EffectOfAll(t, Front(cs)), Last(cs))
  }

  lemma NextEffect(t: Table, cs: seq<Command>, i: nat)
    requires i < |cs|
    ensures cs[..i + 1] == cs[..i] + [cs[i]]
    ensures EffectOfAll(t, cs[..i + 1]) == Effect(EffectOfAll(t, cs[..i]), cs[i])
  {
    assert Front(cs[..i + 1]) == cs[..i] && Last(cs[..i + 1]) == cs[i];
  }

  // --- Detaching undoes one mount ---

  lemma {:induction false} CarriedStaysBelow(t: Table, source: string, at: string)
    ensures forall i :: 0 <= i < |Carried(t, source, at)| ==> Below(Carried(t, source, at)[i], at)
  {
    if t != [] {
      CarriedStaysBelow(Front(t), source, at);
    }
  }

  /** A mount at `p` and anything carried below it is gone after detaching `p`. */
  lemma {:induction false} DetachUndoes(t: Table, top: Mount, carried: Table)
    requires forall i :: 0 <= i < |carried| ==> Below(carried[i], top.at)
    ensures Detached(t + [top] + carried, top.at) == t
  {
    var all := t + [top] + carried;
    if carried == [] {
      assert Front(all) == t;
    } else {
      assert Front(all) == t + [top] + Front(carried);
      assert all[|t|] == top;
      DetachUndoes(t, top, Front(carried));
      assert Last(all) == Last(carried) && Below(Last(carried), top.at);
      assert |Last(all).at| > |top.at|;
    }
  }

  /** `t'` is `t` with a mount at `at` and whatever that carried along below it. */
  predicate MountedOver(t: Table, t': Table, at: string) {
    && |t| < |t'| && t'[..|t|] == t && t'[|t|].at == at
    && forall i :: |t| < i < |t'| ==> Below(t'[i], at)
  }

  lemma MountingPushes(t: Table, c: Command)
    requires c.MountProc? || c.Bind?
    ensures MountedOver(t, Effect(t, c), c.at)
  {
    var top := Mount(if c.MountProc? then "proc" else c.source, c.at);
    var carried := if c.Bind? && c.recursive then Carried(t, c.source, c.at) else [];
    if c.Bind? {
      CarriedStaysBelow(t, c.source, c.at);
    }
    var after := t + [top] + carried;
    assert Effect(t, c) == after;
    forall i | |t| < i < |after| ensures Below(after[i], c.at) {
      assert after[i] == carried[i - |t| - 1];
    }
  }

  lemma DetachAfterMount(t: Table, t': Table, at: string)
    requires MountedOver(t, t', at)
    ensures Detached(t', at) == t
  {
    var carried := t'[|t| + 1..];
    forall i | 0 <= i < |carried| ensures Below(carried[i], at) {
      assert carried[i] == t'[i + |t| + 1];
    }
    DetachUndoes(t, t'[|t|], carried);
    assert t' == t + [t'[|t|]] + carried;
  }

  /** The two paths part at some component, so no path is below both. */
  predicate Apart(p: string, q: string) {
    exists i :: 0 <= i < |p| && i < |q| && p[i] != q[i]
  }

  /** Detaching elsewhere leaves a mount, and what it carried, in place. */
  lemma {:induction false} DetachElsewhere(t: Table, t': Table, at: string, p: string)
    requires MountedOver(t, t', at) && Apart(at, p)
    ensures MountedOver(Detached(t, p), Detached(t', p), at)
    decreases |t'|
  {
    var last := Last(t');
    var i :| 0 <= i < |at| && i < |p| && at[i] != p[i];
    assert last.at == at || Below(last, at);
    assert last.at[i] == at[i];
    assert last.at != p && !Below(last, p);
    DetachNothing(t, p);
    DetachNothing(t', p);
    if !MountedAt(t', p) {
      assert forall j :: 0 <= j < |t| ==> t[j] == t'[j];
    } else if |t'| == |t| + 1 {
      assert Front(t') == t;
    } else {
      assert MountedOver(t, Front(t'), at);
      DetachElsewhere(t, Front(t'), at, p);
    }
  }

  /** Detaching changes the table exactly when something is mounted there, and shrinks it. */
  lemma {:induction false} DetachNothing(t: Table, p: string)
    ensures !MountedAt(t, p) ==> Detached(t, p) == t
    ensures MountedAt(t, p) ==> |Detached(t, p)| < |t|
  {
    if t != [] && Last(t).at != p && MountedAt(t, p) {
      var i :| 0 <= i < |t| && t[i].at == p;
      assert Front(t)[i].at == p;
      DetachNothing(Front(t), p);
    } else if t != [] && Last(t).at == p {
      assert t[|t| - 1].at == p;
    }
  }

  // --- The four mount points ---

  const POINTS: seq<string> := ["proc", "sys", "dev", "run"]

  lemma PointsApart(root: string, a: string, b: string)
    requires a in POINTS && b in POINTS && a != b
    ensures Apart(Under(root, a), Under(root, b))
  {
    var n := |TrimSlashes(root)| + 1;
    assert Under(root, a)[n] == a[0] && Under(root, b)[n] == b[0];
  }

  function Point(root: string, i: nat): string
    requires i < 4
  {
    Under(root, POINTS[i])
  }

  function Mounting(root: string, point: string): Command
    requires point in POINTS
  {
    if point == "proc" then MountProc(Under(root, point))
    else Bind("/" + point, Under(root, point), point != "run")
  }

  /** The table after the first `n` of the four mounts. */
  function Stacked(t: Table, root: string, n: nat): Table
    requires n <= 4
  {
    if n == 0 then t else Effect(Stacked(t, root, n - 1), Mounting(root, POINTS[n - 1]))
  }

  /** How many of the four mounts are among the first `k` steps. */
  function MountsIn(k: nat): nat {
    if k < 2 then 0 else if k < 4 then 1 else if k < 7 then 2 else if k < 10 then 3 else 4
  }

  lemma StepStacks(t: Table, root: string, i: nat)
    requires i < |PrepareSteps(root)|
    ensures MountsIn(i + 1) == MountsIn(i) ==> Effect(t, PrepareSteps(root)[i]) == t
    ensures MountsIn(i + 1) > MountsIn(i) ==>
              MountsIn(i + 1) == MountsIn(i) + 1 && PrepareSteps(root)[i] == Mounting(root, POINTS[MountsIn(i)])
  {
    assert "/" + "sys" == "/sys" && "/" + "dev" == "/dev" && "/" + "run" == "/run";
  }

  lemma {:induction false} PrefixStacks(t: Table, root: string, k: nat)
    requires k <= |PrepareSteps(root)|
    ensures EffectOfAll(t, PrepareSteps(root)[..k]) == Stacked(t, root, MountsIn(k))
  {
    if k > 0 {
      PrefixStacks(t, root, k - 1);
      NextEffect(t, PrepareSteps(root), k - 1);
      StepStacks(Stacked(t, root, MountsIn(k - 1)), root, k - 1);
    }
  }

  /** Detaching points n-1, …, 0 in turn. */
  function Unstacked(t: Table, root: string, n: nat): Table
    requires n <= 4
    decreases n
  {
    if n == 0 then t else Unstacked(Detached(t, Point(root, n - 1)), root, n - 1)
  }

  lemma TeardownUnstacks(t: Table, root: string)
    ensures EffectOfAll(t, PseudoUnmountSteps(root)) == Unstacked(t, root, 4)
  {
    var cs := PseudoUnmountSteps(root);
    var t1 := Detached(t, Under(root, "run"));
    var t2 := Detached(t1, Under(root, "dev"));
    var t3 := Detached(t2, Under(root, "sys"));
    assert Front(cs[..4]) == cs[..3] && Front(cs[..3]) == cs[..2] && Front(cs[..2]) == cs[..1] && cs[..4] == cs;
    assert EffectOfAll(t, cs[..1]) == t1 by {
      assert Front(cs[..1]) == [];
    }
    assert EffectOfAll(t, cs[..2]) == t2;
    assert EffectOfAll(t, cs[..3]) == t3;
  }

  /** `s` is `t` with mounts at the first `n` points stacked on it. */
  ghost predicate Layered(t: Table, s: Table, root: string, n: nat)
    requires n <= 4
    decreases n
  {
    if n == 0 then s == t
    else
      var at := Point(root, n - 1);
      exists mid: Table :: MountedOver(mid, s, at) && Layered(t, mid, root, n - 1)
  }

  lemma {:induction false} StackedIsLayered(t: Table, root: string, n: nat)
    requires n <= 4
    ensures Layered(t, Stacked(t, root, n), root, n)
  {
    if n > 0 {
      StackedIsLayered(t, root, n - 1);
      MountingPushes(Stacked(t, root, n - 1), Mounting(root, POINTS[n - 1]));
      assert MountedOver(Stacked(t, root, n - 1), Stacked(t, root, n), Point(root, n - 1));
    }
  }

  lemma {:induction false} UnstackLayered(t: Table, s: Table, root: string, n: nat)
    requires n <= 4 && Layered(t, s, root, n)
    ensures Unstacked(s, root, n) == t
  {
    if n > 0 {
      var mid: Table :| Layered(t, mid, root, n - 1) && MountedOver(mid, s, Point(root, n - 1));
      DetachAfterMount(mid, s, Point(root, n - 1));
      UnstackLayered(t, mid, root, n - 1);
    }
  }

  lemma {:induction false} DetachUnderLayers(t: Table, s: Table, root: string, n: nat, m: nat)
    requires n <= m < 4 && Layered(t, s, root, n)
    ensures Layered(Detached(t, Point(root, m)), Detached(s, Point(root, m)), root, n)
  {
    if n > 0 {
      var mid: Table :| Layered(t, mid, root, n - 1) && MountedOver(mid, s, Point(root, n - 1));
      DetachUnderLayers(t, mid, root, n - 1, m);
      PointsApart(root, POINTS[n - 1], POINTS[m]);
      DetachElsewhere(mid, s, Point(root, n - 1), Point(root, m));
    }
  }

  /** Detaching points m-1, …, n in turn. */
  function DetachedDown(t: Table, root: string, m: nat, n: nat): Table
    requires n <= m <= 4
    decreases m
  {
    if m == n then t else DetachedDown(Detached(t, Point(root, m - 1)), root, m - 1, n)
  }

  lemma {:induction false} UnstackOver(t: Table, s: Table, root: string, m: nat, n: nat)
    requires n <= m <= 4 && Layered(t, s, root, n)
    ensures Unstacked(s, root, m) == DetachedDown(t, root, m, n)
    decreases m
  {
    if m == n {
      UnstackLayered(t, s, root, n);
    } else {
      DetachUnderLayers(t, s, root, n, m - 1);
      UnstackOver(Detached(t, Point(root, m - 1)), Detached(s, Point(root, m - 1)), root, m - 1, n);
    }
  }

  lemma {:induction false} DetachedDownSame(t: Table, root: string, m: nat, n: nat)
    requires n <= m <= 4
    ensures |DetachedDown(t, root, m, n)| <= |t|
    ensures DetachedDown(t, root, m, n) == t <==> forall i :: n <= i < m ==> !MountedAt(t, Point(root, i))
    decreases m
  {
    if m > n {
      var p := Point(root, m - 1);
      DetachNothing(t, p);
      DetachedDownSame(Detached(t, p), root, m - 1, n);
    }
  }

  lemma {:induction false} CarriedAre(t: Table, source: string, at: string, m: Mount)
    ensures m in Carried(t, source, at) <==>
              exists k :: k in t && Below(k, source) && m == Mount(k.source, at + k.at[|source|..])
  {
    if t != [] {
      CarriedAre(Front(t), source, at, m);
      assert forall k :: k in t <==> k in Front(t) || k == Last(t);
    }
  }

  /** A mount that a recursive bind of `source` shows below `at`. */
  predicate ShownBelow(t: Table, source: string, at: string, m: Mount) {
    exists k :: k in t && Below(k, source) && m == Mount(k.source, at + k.at[|source|..])
  }

  lemma {:induction false} TrimKeepsUpTo(s: string, n: nat)
    requires 0 < n <= |s| && s[n - 1] != '/'
    ensures |TrimSlashes(s)| >= n
  {
    if Last(s) == '/' {
      TrimKeepsUpTo(Front(s), n);
    }
  }

  /** A mount somewhere in the target. */
  predicate InTarget(root: string, m: Mount) {
    |m.at| >= 2 && |root| >= 2 && m.at[1] == root[1]
  }

  lemma TargetStarts(root: string)
    requires ValidTargetRoot(root)
    ensures |root| >= 3 && (root[1] == 'm' || root[1] == 'r') && root[2] != '/'
  {
    var p := if "/mnt/" <= root then "/mnt/" else if "/media/" <= root then "/media/" else "/run/media/";
    assert p <= root && root[1] == p[1] && root[2] == p[2];
  }

  lemma PointInTarget(root: string, sub: string, more: string, source: string)
    requires ValidTargetRoot(root)
    ensures InTarget(root, Mount(source, Under(root, sub) + more))
  {
    TargetStarts(root);
    TrimKeepsUpTo(root, 3);
    assert (Under(root, sub) + more)[1] == TrimSlashes(root)[1] == root[1];
  }

  /** The target's own mounts are not below the host's /sys or /dev. */
  lemma TargetIsElsewhere(root: string, m: Mount, source: string)
    requires ValidTargetRoot(root) && InTarget(root, m) && source in {"/sys", "/dev"}
    ensures !Below(m, source)
  {
    TargetStarts(root);
    assert |source + "/"| == 5 && (source + "/")[1] == source[1];
  }

  /** Mounts added inside the target show nothing more. */
  lemma SameShown(t: Table, added: Table, root: string, source: string, at: string, m: Mount)
    requires ValidTargetRoot(root) && source in {"/sys", "/dev"}
    requires forall k :: k in added ==> InTarget(root, k)
    ensures ShownBelow(t + added, source, at, m) <==> ShownBelow(t, source, at, m)
  {
    forall k | k in added ensures !Below(k, source) {
      TargetIsElsewhere(root, k, source);
    }
    assert forall k :: k in t + added <==> k in t || k in added;
  }

  lemma BindShows(t: Table, root: string, sub: string, m: Mount)
    requires ValidTargetRoot(root)
    ensures var source, at := "/" + sub, Under(root, sub);
            && (m in Effect(t, Bind(source, at, true)) <==>
                m in t || m == Mount(source, at) || ShownBelow(t, source, at, m))
            && (m in Carried(t, source, at) ==> InTarget(root, m))
  {
    CarriedAre(t, "/" + sub, Under(root, sub), m);
    if m in Carried(t, "/" + sub, Under(root, sub)) {
      var k :| k in t && Below(k, "/" + sub) && m == Mount(k.source, Under(root, sub) + k.at[|"/" + sub|..]);
      PointInTarget(root, sub, k.at[|"/" + sub|..], k.source);
    }
  }

  lemma PlainInTarget(root: string, sub: string, source: string)
    requires ValidTargetRoot(root)
    ensures InTarget(root, Mount(source, Under(root, sub)))
  {
    PointInTarget(root, sub, "", source);
    assert Under(root, sub) + "" == Under(root, sub);
  }

  lemma FourEffects(t: Table, root: string)
    ensures var t1 := t + [Mount("proc", Under(root, "proc"))];
            var t2 := Effect(t1, Bind("/" + "sys", Under(root, "sys"), true));
            var t3 := Effect(t2, Bind("/" + "dev", Under(root, "dev"), true));
            EffectOfAll(t, PrepareSteps(root)) == t3 + [Mount("/run", Under(root, "run"))]
  {
    PrefixStacks(t, root, 12);
    assert PrepareSteps(root)[..12] == PrepareSteps(root);
    assert POINTS[0] == "proc" && POINTS[1] == "sys" && POINTS[2] == "dev" && POINTS[3] == "run";
    assert Mounting(root, "run") == Bind("/run", Under(root, "run"), false) by {
      assert "/" + "run" == "/run";
    }
    var t3 := Stacked(t, root, 3);
    assert Stacked(t, root, 4) == Effect(t3, Mounting(root, "run"));
    assert t3 + [Mount("/run", Under(root, "run"))] + [] == t3 + [Mount("/run", Under(root, "run"))];
    assert Stacked(t, root, 1) == Effect(t, Mounting(root, "proc"));
    assert Stacked(t, root, 2) == Effect(Stacked(t, root, 1), Mounting(root, "sys"));
    assert t3 == Effect(Stacked(t, root, 2), Mounting(root, "dev"));
  }

  /** What a complete preparation mounts, besides what was mounted: proc, the host's /sys and
      /dev with everything mounted below them at the same place, the host's /run alone, and
      nothing else. */
  lemma PreparedTable(t: Table, root: string, m: Mount)
    requires ValidTargetRoot(root)
    ensures m in EffectOfAll(t, PrepareSteps(root)) <==>
              || m in t
              || m == Mount("proc", Under(root, "proc"))
              || m == Mount("/sys", Under(root, "sys")) || ShownBelow(t, "/sys", Under(root, "sys"), m)
              || m == Mount("/dev", Under(root, "dev")) || ShownBelow(t, "/dev", Under(root, "dev"), m)
              || m == Mount("/run", Under(root, "run"))
  {
    assert "/" + "sys" == "/sys" && "/" + "dev" == "/dev";
    var proc, sys, dev := Under(root, "proc"), Under(root, "sys"), Under(root, "dev");
    var t1 := t + [Mount("proc", proc)];
    var t2 := Effect(t1, Bind("/" + "sys", sys, true));
    FourEffects(t, root);
    PlainInTarget(root, "proc", "proc");
    SameShown(t, [Mount("proc", proc)], root, "/sys", sys, m);
    BindShows(t1, root, "sys", m);
    BindShows(t2, root, "dev", m);
    var added := [Mount("proc", proc)] + [Mount("/sys", sys)] + Carried(t1, "/sys", sys);
    forall k | k in added ensures InTarget(root, k) {
      PlainInTarget(root, "sys", "/sys");
      BindShows(t1, root, "sys", k);
    }
    assert t2 == t + added;
    SameShown(t, added, root, "/dev", dev, m);
  }

  // --- Main results ---

  /** The teardown after any prefix of the preparation undoes that prefix entirely, the
      carried submounts included. What it does beyond that is detach the points the prefix
      never mounted from the table there was before. */
  lemma TeardownUndoesPrefix(t: Table, root: string, k: nat)
    requires k <= |PrepareSteps(root)|
    ensures EffectOfAll(EffectOfAll(t, PrepareSteps(root)[..k]), PseudoUnmountSteps(root))
              == DetachedDown(t, root, 4, MountsIn(k))
  {
    var s := Stacked(t, root, MountsIn(k));
    PrefixStacks(t, root, k);
    TeardownUnstacks(s, root);
    StackedIsLayered(t, root, MountsIn(k));
    UnstackOver(t, s, root, 4, MountsIn(k));
  }

  /** So the original table is restored if and only if no point left unmounted by the
      prefix was a mount point before; always after a complete preparation. */
  lemma TeardownRestoresIff(t: Table, root: string, k: nat)
    requires k <= |PrepareSteps(root)|
    ensures EffectOfAll(EffectOfAll(t, PrepareSteps(root)[..k]), PseudoUnmountSteps(root)) == t <==>
              forall i :: MountsIn(k) <= i < 4 ==> !MountedAt(t, Point(root, i))
  {
    TeardownUndoesPrefix(t, root, k);
    DetachedDownSame(t, root, 4, MountsIn(k));
  }

  /** What the chroot step's own check sees: is `<root>/proc` a mount point? */
  function ProcProbe(t: Table, root: string): Engine.Probe {
    if MountedAt(t, Under(root, "proc")) then Engine.Satisfied else Engine.Unsatisfied
  }

  // --- The engine and the table together ---

  /** One go at the preparation: the step of it that fails (none if past the end), and the
      engine's other answers for that turn. */
  datatype Attempt = Attempt(failAt: nat, answers: Engine.Turn)

  predicate Succeeds(root: string, a: Attempt) {
    a.failAt >= |PrepareSteps(root)|
  }

  function TableAfter(t: Table, root: string, a: Attempt): Table {
    EffectOfAll(t, if Succeeds(root, a) then PrepareSteps(root) else PrepareSteps(root)[..a.failAt])
  }

  function TurnOf(t: Table, root: string, a: Attempt): Engine.Turn {
    a.answers.(probe := ProcProbe(t, root), run := if Succeeds(root, a) then Engine.Works else Engine.Fails)
  }

  predicate TriesAgain(t: Table, root: string, a: Attempt) {
    ProcProbe(t, root) == Engine.Unsatisfied && !Succeeds(root, a) && a.answers.action == Engine.Retry
  }

  function Answers(attempts: seq<Attempt>): seq<Engine.Turn> {
    seq(|attempts|, i requires 0 <= i < |attempts| => attempts[i].answers)
  }

  /** What the engine is told: while it is at the chroot step, the step's check sees the
      table as the attempts so far have left it; afterwards, any answers. */
  function TurnsOf(t: Table, root: string, attempts: seq<Attempt>): seq<Engine.Turn>
    decreases attempts
  {
    if attempts == [] then []
    else
      [TurnOf(t, root, attempts[0])]
      + if TriesAgain(t, root, attempts[0]) then TurnsOf(TableAfter(t, root, attempts[0]), root, attempts[1..])
        else Answers(attempts[1..])
  }

  /** The table after everything in the engine's log: each run of the chroot step `at` is
      the next attempt, and a teardown is the whole unmount sequence. */
  function Replay(t: Table, root: string, at: nat, attempts: seq<Attempt>, log: seq<Engine.Entry>): Table
    decreases log
  {
    if log == [] then t
    else if log[0].Ran? && log[0].index == at && attempts != [] then
      Replay(TableAfter(t, root, attempts[0]), root, at, attempts[1..], log[1..])
    else if log[0].TornDown? then Replay(EffectOfAll(t, PseudoUnmountSteps(root)), root, at, attempts, log[1..])
    else Replay(t, root, at, attempts, log[1..])
  }

  /** Every failed attempt of the run failed before anything was mounted. */
  predicate Clean(root: string, hasHook: bool, attempts: seq<Attempt>)
    decreases attempts
  {
    attempts == [] || Succeeds(root, attempts[0]) ||
    (&& MountsIn(attempts[0].failAt) == 0
     && (hasHook && attempts[0].answers.action == Engine.Retry ==> Clean(root, hasHook, attempts[1..])))
  }

  /** One step of the install opens the chroot. */
  predicate OpensAt(steps: seq<Engine.Step>, at: nat) {
    && at < |steps| && steps[at].opensChroot && steps[at].check == Engine.AsksWorld
    && forall i :: 0 <= i < |steps| && i != at ==> !steps[i].opensChroot
  }

  /** Entries that neither run the chroot step nor tear down. */
  predicate Quiet(at: nat, log: seq<Engine.Entry>) {
    forall i :: 0 <= i < |log| ==> QuietEntry(at, log[i])
  }

  predicate QuietEntry(at: nat, e: Engine.Entry) {
    !e.TornDown? && (e.Ran? ==> e.index != at)
  }

  lemma {:induction false} ReplayQuiet(t: Table, root: string, at: nat, attempts: seq<Attempt>, a: seq<Engine.Entry>,
                                       b: seq<Engine.Entry>)
    requires Quiet(at, a)
    ensures Replay(t, root, at, attempts, a + b) == Replay(t, root, at, attempts, b)
    decreases a
  {
    if a == [] {
      assert a + b == b;
    } else {
      assert (a + b)[1..] == a[1..] + b;
      assert QuietEntry(at, a[0]);
      ReplayQuiet(t, root, at, attempts, a[1..], b);
    }
  }

  lemma ReplayAttempt(t: Table, root: string, at: nat, attempts: seq<Attempt>, answer: Engine.Probe, ok: bool,
                      rest: seq<Engine.Entry>)
    requires attempts != []
    ensures Replay(t, root, at, attempts, [Engine.Probed(at, answer), Engine.Ran(at, ok)] + rest)
              == Replay(TableAfter(t, root, attempts[0]), root, at, attempts[1..], rest)
  {
    var log := [Engine.Probed(at, answer), Engine.Ran(at, ok)] + rest;
    assert log[1..] == [Engine.Ran(at, ok)] + rest;
    assert log[1..][1..] == rest;
  }

  /** What a run past the chroot step adds to the log: quiet entries, then the teardown if
      the chroot was opened and the run could end. */
  predicate Later(at: nat, l: Engine.Loop, r: Engine.Result) {
    var torn := l.chrootOpen && r.outcome != Engine.Killed;
    && l.log <= r.loop.log
    && var tail := r.loop.log[|l.log|..];
       if torn then tail != [] && Last(tail) == Engine.TornDown && Quiet(at, Front(tail)) else Quiet(at, tail)
  }

  lemma TurnOpensNothing(steps: seq<Engine.Step>, at: nat, hasHook: bool, l: Engine.Loop, t: Engine.Turn)
    requires OpensAt(steps, at) && at < l.index < |steps|
    ensures var next := Engine.TakeTurn(steps, hasHook, l, t).loop;
            next.index > at && next.chrootOpen == l.chrootOpen
  {
    assert !steps[l.index].opensChroot;
  }

  lemma LaterTurn(steps: seq<Engine.Step>, at: nat, hasHook: bool, l: Engine.Loop, t: Engine.Turn)
    requires OpensAt(steps, at) && at < l.index < |steps|
    ensures var next := Engine.TakeTurn(steps, hasHook, l, t).loop;
            && next.index > at && next.chrootOpen == l.chrootOpen
            && l.log <= next.log && Quiet(at, next.log[|l.log|..])
  {
    Engine.TurnAdds(steps, hasHook, l, t);
    var next := Engine.TakeTurn(steps, hasHook, l, t).loop;
    forall j | |l.log| <= j < |next.log| ensures QuietEntry(at, next.log[j]) {
      assert Engine.OnlyRuns(next.log[j], l.index);
    }
    TurnOpensNothing(steps, at, hasHook, l, t);
  }

  lemma LaterSteps(at: nat, l: Engine.Loop, next: Engine.Loop, r: Engine.Result)
    requires next.chrootOpen == l.chrootOpen && l.log <= next.log && Quiet(at, next.log[|l.log|..]) &&
             Later(at, next, r)
    ensures Later(at, l, r)
  {
    var added, tail := next.log[|l.log|..], r.loop.log[|next.log|..];
    assert r.loop.log[|l.log|..] == added + tail;
    if tail != [] {
      assert Front(added + tail) == added + Front(tail);
    }
  }

  lemma CloseIsLater(at: nat, l: Engine.Loop, outcome: Engine.Outcome)
    ensures Later(at, l, Engine.Close(outcome, l))
  {
    assert (l.log + [Engine.TornDown])[|l.log|..] == [Engine.TornDown];
    assert l.log[|l.log|..] == [];
  }

  lemma {:induction false} LaterRun(steps: seq<Engine.Step>, at: nat, hasHook: bool, l: Engine.Loop,
                                    env: seq<Engine.Turn>)
    requires OpensAt(steps, at) && l.index > at
    ensures Later(at, l, Engine.Continue(steps, hasHook, l, env))
    decreases env
  {
    if l.index >= |steps| {
      CloseIsLater(at, l, Engine.Completed);
    } else if env == [] {
      CloseIsLater(at, l, Engine.Killed);
    } else {
      LaterTurn(steps, at, hasHook, l, env[0]);
      match Engine.TakeTurn(steps, hasHook, l, env[0]) {
        case Go(next) =>
          LaterRun(steps, at, hasHook, next, env[1..]);
          LaterSteps(at, l, next, Engine.Continue(steps, hasHook, next, env[1..]));
        case Stop(last) =>
          CloseIsLater(at, last, Engine.Raised);
          LaterSteps(at, l, last, Engine.Close(Engine.Raised, last));
      }
    }
  }

  /** The table after an attempt, then quiet entries, then what a later run adds. */
  lemma AttemptThenLater(t: Table, root: string, at: nat, attempts: seq<Attempt>, l: Engine.Loop,
                         answer: Engine.Probe, ok: bool, quiet: seq<Engine.Entry>, mid: Engine.Loop, r: Engine.Result)
    requires attempts != [] && Quiet(at, quiet) && Later(at, mid, r)
    requires mid.log == l.log + ([Engine.Probed(at, answer), Engine.Ran(at, ok)] + quiet)
    ensures l.log <= r.loop.log
    ensures var after := TableAfter(t, root, attempts[0]);
            Replay(t, root, at, attempts, r.loop.log[|l.log|..]) ==
              if mid.chrootOpen && r.outcome != Engine.Killed then EffectOfAll(after, PseudoUnmountSteps(root))
              else after
  {
    var tail := r.loop.log[|mid.log|..];
    var start := [Engine.Probed(at, answer), Engine.Ran(at, ok)];
    assert r.loop.log[|l.log|..] == start + (quiet + tail);
    ReplayAttempt(t, root, at, attempts, answer, ok, quiet + tail);
    var after, left := TableAfter(t, root, attempts[0]), attempts[1..];
    if mid.chrootOpen && r.outcome != Engine.Killed {
      assert quiet + tail == (quiet + Front(tail)) + [Engine.TornDown];
      ReplayQuiet(after, root, at, left, quiet + Front(tail), [Engine.TornDown]);
      assert [Engine.TornDown][1..] == [];
    } else {
      ReplayQuiet(after, root, at, left, quiet + tail, []);
      assert (quiet + tail) + [] == quiet + tail;
    }
  }

  /** The chroot step is passed without running and nothing happens to the table. */
  lemma PassedThenLater(t: Table, root: string, at: nat, attempts: seq<Attempt>, l: Engine.Loop,
                        quiet: seq<Engine.Entry>, mid: Engine.Loop, r: Engine.Result)
    requires Quiet(at, quiet) && mid.log == l.log + quiet && !mid.chrootOpen && Later(at, mid, r)
    ensures l.log <= r.loop.log && Replay(t, root, at, attempts, r.loop.log[|l.log|..]) == t
  {
    var tail := r.loop.log[|mid.log|..];
    assert r.loop.log[|l.log|..] == quiet + tail;
    ReplayQuiet(t, root, at, attempts, quiet + tail, []);
    assert (quiet + tail) + [] == quiet + tail;
  }

  lemma {:induction false} StackedGrows(t: Table, root: string, n: nat)
    requires n <= 4
    ensures |Stacked(t, root, n)| >= |t| + n
  {
    if n > 0 {
      StackedGrows(t, root, n - 1);
      MountingPushes(Stacked(t, root, n - 1), Mounting(root, POINTS[n - 1]));
    }
  }

  /** A failed attempt leaves the table alone exactly if it had not mounted anything, and
      otherwise leaves proc mounted. */
  lemma FailedAttempt(t: Table, root: string, a: Attempt)
    requires !Succeeds(root, a)
    ensures TableAfter(t, root, a) == t <==> MountsIn(a.failAt) == 0
    ensures MountsIn(a.failAt) > 0 ==> MountedAt(TableAfter(t, root, a), Under(root, "proc"))
  {
    PrefixStacks(t, root, a.failAt);
    StackedGrows(t, root, MountsIn(a.failAt));
    if MountsIn(a.failAt) > 0 {
      StackedKeepsProc(t, root, MountsIn(a.failAt));
    }
  }

  /** A complete preparation and the teardown cancel out, whatever was mounted before. */
  lemma CompleteAttempt(t: Table, root: string, a: Attempt)
    requires Succeeds(root, a)
    ensures EffectOfAll(TableAfter(t, root, a), PseudoUnmountSteps(root)) == t
  {
    TeardownUndoesPrefix(t, root, 12);
    assert PrepareSteps(root)[..12] == PrepareSteps(root);
  }

  /** What the engine logs when an attempt ends the chroot step: the probe, the run and, if
      it goes on, the mark and the pass. */
  function EndEntries(at: nat, step: Engine.Step, ok: bool, goesOn: bool): seq<Engine.Entry> {
    if goesOn then
      [Engine.MarkSaved(step.key), Engine.Passed(at, if ok then Engine.Succeeded else Engine.Skipped)]
    else []
  }

  lemma EndedTurn(steps: seq<Engine.Step>, at: nat, hasHook: bool, l: Engine.Loop, turn: Engine.Turn)
    requires OpensAt(steps, at) && l.index == at && !l.chrootOpen && turn.probe == Engine.Unsatisfied
    requires !Engine.MarksItself(turn) && (Engine.Succeeds(turn) || !(hasHook && turn.action == Engine.Retry))
    ensures var next := Engine.TakeTurn(steps, hasHook, l, turn);
            && next.loop.chrootOpen == Engine.Succeeds(turn)
            && (next.Go? ==> next.loop.index == at + 1)
            && next.loop.log == l.log + ([Engine.Probed(at, Engine.Unsatisfied), Engine.Ran(at, Engine.Succeeds(turn))]
                                         + EndEntries(at, steps[at], Engine.Succeeds(turn), next.Go?))
  {
    var start := [Engine.Probed(at, Engine.Unsatisfied), Engine.Ran(at, Engine.Succeeds(turn))];
    assert l.log + [start[0]] + [start[1]] == l.log + start;
    var end := EndEntries(at, steps[at], Engine.Succeeds(turn), true);
    Assoc(l.log, start, end);
    assert start + [] == start;
  }

  lemma EndedRun(steps: seq<Engine.Step>, at: nat, hasHook: bool, l: Engine.Loop, env: seq<Engine.Turn>)
    requires OpensAt(steps, at) && l.index == at && !l.chrootOpen && env != [] && env[0].probe == Engine.Unsatisfied
    requires !Engine.MarksItself(env[0]) && (Engine.Succeeds(env[0]) || !(hasHook && env[0].action == Engine.Retry))
    ensures Later(at, Engine.TakeTurn(steps, hasHook, l, env[0]).loop, Engine.Continue(steps, hasHook, l, env))
  {
    EndedTurn(steps, at, hasHook, l, env[0]);
    var next := Engine.TakeTurn(steps, hasHook, l, env[0]);
    if next.Go? {
      LaterRun(steps, at, hasHook, next.loop, env[1..]);
    } else {
      CloseIsLater(at, next.loop, Engine.Raised);
    }
  }

  /** The table at the end, when an attempt ends the chroot step one way or the other. */
  lemma EndedTable(t: Table, root: string, steps: seq<Engine.Step>, at: nat, hasHook: bool, l: Engine.Loop,
                   attempts: seq<Attempt>, env: seq<Engine.Turn>)
    requires OpensAt(steps, at) && l.index == at && !l.chrootOpen && attempts != [] && env != []
    requires env[0].probe == Engine.Unsatisfied && !Engine.MarksItself(env[0])
    requires Engine.Succeeds(env[0]) || !(hasHook && env[0].action == Engine.Retry)
    requires Engine.Continue(steps, hasHook, l, env).outcome != Engine.Killed
    ensures var r := Engine.Continue(steps, hasHook, l, env);
            var after := TableAfter(t, root, attempts[0]);
            && l.log <= r.loop.log
            && Replay(t, root, at, attempts, r.loop.log[|l.log|..])
                 == if Engine.Succeeds(env[0]) then EffectOfAll(after, PseudoUnmountSteps(root)) else after
  {
    var next := Engine.TakeTurn(steps, hasHook, l, env[0]);
    EndedTurn(steps, at, hasHook, l, env[0]);
    EndedRun(steps, at, hasHook, l, env);
    AttemptThenLater(t, root, at, attempts, l, Engine.Unsatisfied, Engine.Succeeds(env[0]),
                     EndEntries(at, steps[at], Engine.Succeeds(env[0]), next.Go?), next.loop,
                     Engine.Continue(steps, hasHook, l, env));
  }

  /** The chroot step when proc is mounted already. */
  lemma PassedTable(t: Table, root: string, steps: seq<Engine.Step>, at: nat, hasHook: bool, l: Engine.Loop,
                    attempts: seq<Attempt>, env: seq<Engine.Turn>)
    requires OpensAt(steps, at) && l.index == at && !l.chrootOpen && env != [] && env[0].probe == Engine.Satisfied
    ensures var r := Engine.Continue(steps, hasHook, l, env);
            l.log <= r.loop.log && Replay(t, root, at, attempts, r.loop.log[|l.log|..]) == t
  {
    var next := Engine.TakeTurn(steps, hasHook, l, env[0]);
    var quiet := [Engine.Probed(at, Engine.Satisfied), Engine.Passed(at, Engine.WasSatisfied)];
    assert next.loop.log == l.log + quiet;
    LaterRun(steps, at, hasHook, next.loop, env[1..]);
    PassedThenLater(t, root, at, attempts, l, quiet, next.loop, Engine.Continue(steps, hasHook, l, env));
  }

  /** The table after a retried attempt is the table after the rest of the run. */
  lemma RetriedTable(t: Table, root: string, at: nat, attempts: seq<Attempt>, l: Engine.Loop, ran: Engine.Loop,
                     r: Engine.Result)
    requires attempts != [] && ran.log <= r.loop.log
    requires ran.log == l.log + [Engine.Probed(at, Engine.Unsatisfied), Engine.Ran(at, false)]
    ensures l.log <= r.loop.log
    ensures Replay(t, root, at, attempts, r.loop.log[|l.log|..])
              == Replay(TableAfter(t, root, attempts[0]), root, at, attempts[1..], r.loop.log[|ran.log|..])
  {
    var start := [Engine.Probed(at, Engine.Unsatisfied), Engine.Ran(at, false)];
    assert r.loop.log[|l.log|..] == start + r.loop.log[|ran.log|..];
    ReplayAttempt(t, root, at, attempts, Engine.Unsatisfied, false, r.loop.log[|ran.log|..]);
  }

  lemma {:induction false} ChrootStepRun(t: Table, root: string, steps: seq<Engine.Step>, at: nat, hasHook: bool,
                                         l: Engine.Loop, attempts: seq<Attempt>)
    requires OpensAt(steps, at) && l.index == at && !l.chrootOpen
    requires Engine.Continue(steps, hasHook, l, TurnsOf(t, root, attempts)).outcome != Engine.Killed
    ensures var r := Engine.Continue(steps, hasHook, l, TurnsOf(t, root, attempts));
            && l.log <= r.loop.log
            && (Replay(t, root, at, attempts, r.loop.log[|l.log|..]) == t <==>
                  MountedAt(t, Under(root, "proc")) || Clean(root, hasHook, attempts))
    decreases attempts
  {
    var env := TurnsOf(t, root, attempts);
    if attempts != [] {
      var a := attempts[0];
      if MountedAt(t, Under(root, "proc")) {
        PassedTable(t, root, steps, at, hasHook, l, attempts, env);
      } else if Succeeds(root, a) || !(hasHook && a.answers.action == Engine.Retry) {
        EndedTable(t, root, steps, at, hasHook, l, attempts, env);
        if Succeeds(root, a) {
          CompleteAttempt(t, root, a);
        } else {
          FailedAttempt(t, root, a);
        }
      } else {
        RetriedAttempt(t, root, steps, at, l, attempts);
        var ran := Engine.TakeTurn(steps, hasHook, l, env[0]).loop;
        ChrootStepRun(TableAfter(t, root, a), root, steps, at, hasHook, ran, attempts[1..]);
        FailedAttempt(t, root, a);
        RetriedTable(t, root, at, attempts, l, ran, Engine.Continue(steps, hasHook, l, env));
      }
    }
  }

  /** A failed attempt that is retried: the same step again, on the table it left. */
  lemma RetriedAttempt(t: Table, root: string, steps: seq<Engine.Step>, at: nat, l: Engine.Loop, attempts: seq<Attempt>)
    requires OpensAt(steps, at) && l.index == at && !l.chrootOpen && attempts != []
    requires !MountedAt(t, Under(root, "proc")) && TriesAgain(t, root, attempts[0])
    ensures var env := TurnsOf(t, root, attempts);
            && env != [] && env[1..] == TurnsOf(TableAfter(t, root, attempts[0]), root, attempts[1..])
            && Engine.TakeTurn(steps, true, l, env[0]).Go?
            && var ran := Engine.TakeTurn(steps, true, l, env[0]).loop;
               ran.index == at && !ran.chrootOpen
               && ran.log == l.log + [Engine.Probed(at, Engine.Unsatisfied), Engine.Ran(at, false)]
  {
    var turns := TurnsOf(TableAfter(t, root, attempts[0]), root, attempts[1..]);
    assert ([TurnOf(t, root, attempts[0])] + turns)[1..] == turns;
    var l1 := l.log + [Engine.Probed(at, Engine.Unsatisfied)];
    assert l1 + [Engine.Ran(at, false)] == l.log + [Engine.Probed(at, Engine.Unsatisfied), Engine.Ran(at, false)];
  }

  /** The exact condition, for every failing preparation step, every answer, every retry and
      every course of the other steps, which are taken to mount nothing themselves: once a run
      that has reached the chroot step is over, the mount table is what it was on reaching it
      (the engine's own teardown included, where it happens) if and only if proc was mounted
      already (then the step is passed untouched) or no attempt of the run failed after its
      first mount. A later attempt does not help: proc being mounted makes the step look done,
      so it is passed and never torn down. */
  lemma InstallLeavesNoMountsIff(t: Table, root: string, steps: seq<Engine.Step>, at: nat, hasHook: bool,
                                 l: Engine.Loop, attempts: seq<Attempt>)
    requires OpensAt(steps, at) && l.index == at && !l.chrootOpen
    requires Engine.Continue(steps, hasHook, l, TurnsOf(t, root, attempts)).outcome != Engine.Killed
    ensures var log := Engine.Continue(steps, hasHook, l, TurnsOf(t, root, attempts)).loop.log;
            && l.log <= log
            && (Replay(t, root, at, attempts, log[|l.log|..]) == t <==>
                  MountedAt(t, Under(root, "proc")) || Clean(root, hasHook, attempts))
  {
    ChrootStepRun(t, root, steps, at, hasHook, l, attempts);
  }

  /** The named case: nothing is mounted, the command after the first mount fails, and the user
      aborts. The run is over and proc is still mounted. */
  lemma PartialPreparationStaysMounted(root: string, step: Engine.Step, l: Engine.Loop, answers: Engine.Turn)
    requires step.opensChroot && step.check == Engine.AsksWorld
    requires l.index == 0 && !l.chrootOpen && answers.action == Engine.Abort
    ensures var attempts := [Attempt(2, answers)];
            var r := Engine.Continue([step], true, l, TurnsOf([], root, attempts));
            && r.outcome == Engine.Raised && l.log <= r.loop.log
            && MountedAt(Replay([], root, 0, attempts, r.loop.log[|l.log|..]), Under(root, "proc"))
  {
    var a := Attempt(2, answers);
    var env := TurnsOf([], root, [a]);
    assert OpensAt([step], 0);
    EndedTable([], root, [step], 0, true, l, [a], env);
    FailedAttempt([], root, a);
  }

  /** One failing step, every way to go on: the table is restored exactly if it failed
      before the first mount. */
  lemma OneFailureIff(root: string, hasHook: bool, first: Attempt, more: seq<Attempt>)
    requires !Succeeds(root, first) && (more != [] ==> Succeeds(root, more[0]))
    ensures Clean(root, hasHook, [first] + more) <==> MountsIn(first.failAt) == 0
  {
    assert ([first] + more)[1..] == more;
  }

  lemma {:induction false} StackedKeepsProc(t: Table, root: string, n: nat)
    requires 1 <= n <= 4
    ensures MountedAt(Stacked(t, root, n), Under(root, "proc"))
  {
    var was := Stacked(t, root, n - 1);
    MountingPushes(was, Mounting(root, POINTS[n - 1]));
    if n == 1 {
      assert Stacked(t, root, 1)[|was|].at == Under(root, "proc");
    } else {
      StackedKeepsProc(t, root, n - 1);
      var i :| 0 <= i < |was| && was[i].at == Under(root, "proc");
      assert Stacked(t, root, n)[i] == was[i];
    }
  }

  // --- The executor ---

  /** The kernel's table and what each command run so far returned. A command fails when
      `outcomes` says so, and unmounting fails on what is not mounted. */
  class Kernel {
    var table: Table
    var ran: seq<Command>

    constructor (table: Table)
      ensures this.table == table && ran == []
    {
      this.table := table;
      ran := [];
    }

    method Execute(c: Command, succeeds: bool) returns (ok: bool)
      modifies this
      ensures ran == old(ran) + [c]
      ensures ok <==> succeeds && (c.LazyUnmount? ==> MountedAt(old(table), c.at))
      ensures table == if succeeds then Effect(old(table), c) else old(table)
    {
      ok := succeeds;
      ran := ran + [c];
      if succeeds {
        if c.LazyUnmount? {
          ok := MountedAt(table, c.at);
        }
        table := Effect(table, c);
      }
    }

    /** In order up to the first failure; `failAt` is the step that fails. */
    method RunSteps(steps: seq<Command>, failAt: nat) returns (ok: bool)
      requires forall i :: 0 <= i < |steps| ==> !steps[i].LazyUnmount?
      modifies this
      ensures ok <==> failAt >= |steps|
      ensures ok ==> ran == old(ran) + steps && table == EffectOfAll(old(table), steps)
      ensures !ok ==> ran == old(ran) + steps[..failAt + 1] && table == EffectOfAll(old(table), steps[..failAt])
    {
      for i := 0 to |steps|
        invariant i <= failAt
        invariant ran == old(ran) + steps[..i] && table == EffectOfAll(old(table), steps[..i])
      {
        NextEffect(old(table), steps, i);
        ok := Execute(steps[i], i != failAt);
        if !ok {
          return false;
        }
      }
      assert steps[..|steps|] == steps;
      return true;
    }

    method Prepare(root: string, failAt: nat) returns (ok: bool)
      modifies this
      ensures !ValidTargetRoot(root) ==> !ok && table == old(table) && ran == old(ran)
      ensures ValidTargetRoot(root) ==>
                && (ok <==> failAt >= |PrepareSteps(root)|)
                && ran == old(ran) + (if ok then PrepareSteps(root) else PrepareSteps(root)[..failAt + 1])
                && table == EffectOfAll(old(table), if ok then PrepareSteps(root) else PrepareSteps(root)[..failAt])
    {
      if !ValidTargetRoot(root) {
        return false;
      }
      ok := RunSteps(PrepareSteps(root), failAt);
    }

    /** Attempts every unmount, whatever the earlier ones returned. */
    method AttemptAll(steps: seq<Command>)
      modifies this
      ensures ran == old(ran) + steps && table == EffectOfAll(old(table), steps)
    {
      for i := 0 to |steps|
        invariant ran == old(ran) + steps[..i] && table == EffectOfAll(old(table), steps[..i])
      {
        NextEffect(old(table), steps, i);
        var _ := Execute(steps[i], true);
      }
      assert steps[..|steps|] == steps;
    }

    /** Refuses a bad root; otherwise runs the whole teardown. */
    method Teardown(root: string) returns (accepted: bool)
      modifies this
      ensures accepted <==> ValidTargetRoot(root)
      ensures ran == old(ran) + (if accepted then PseudoUnmountSteps(root) else [])
      ensures table == if accepted then EffectOfAll(old(table), PseudoUnmountSteps(root)) else old(table)
    {
      accepted := ValidTargetRoot(root);
      if accepted {
        AttemptAll(PseudoUnmountSteps(root));
      }
    }
  }
}
