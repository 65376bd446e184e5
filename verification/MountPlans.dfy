/** From a provisioned disk to a mounted install target and its fstab. */
module MountPlans {
  import opened Splitting
  import opened Characters
  import opened Fstab
  import opened DiskPlans

  datatype TargetMount = TargetMount(device: string, path: string, fstype: string)

  datatype MountPlan = MountPlan(root: string, mounts: seq<TargetMount>, swap: seq<string>)

  const TARGET_PREFIXES: seq<string> := ["/mnt/", "/media/", "/run/media/"]

  /** A real absolute path without a `..` component. */
  predicate ValidTargetPath(path: string) {
    ValidMountTarget(path) && ".." !in Split(path, '/')
  }

  predicate UnderAllowedPrefix(path: string) {
    TARGET_PREFIXES[0] <= path || TARGET_PREFIXES[1] <= path || TARGET_PREFIXES[2] <= path
  }

  /** Where an install target may be assembled. */
  predicate ValidTargetRoot(root: string) {
    ValidTargetPath(root) && UnderAllowedPrefix(root)
  }

  // --- Strictly below a prefix ---

  /** The names a path goes through: empty components and `.` go nowhere. */
  function Names(components: seq<string>): seq<string> {
    if components == [] then []
    else (if components[0] == "" || components[0] == "." then [] else [components[0]]) + Names(components[1..])
  }

  function Resolved(path: string): seq<string> {
    Names(Split(path, '/'))
  }

  /** The directory the path names lies below the directory the prefix names. */
  predicate StrictlyBelow(path: string, prefix: string) {
    Resolved(prefix) < Resolved(path)
  }

  predicate BelowSomePrefix(root: string) {
    exists i :: 0 <= i < |TARGET_PREFIXES| && StrictlyBelow(root, TARGET_PREFIXES[i])
  }

  /** What an accepted root adds to the prefix it starts with. */
  function AfterPrefix(root: string): string
    requires UnderAllowedPrefix(root)
  {
    if TARGET_PREFIXES[0] <= root then root[|TARGET_PREFIXES[0]|..]
    else if TARGET_PREFIXES[1] <= root then root[|TARGET_PREFIXES[1]|..]
    else root[|TARGET_PREFIXES[2]|..]
  }

  /** Some component is a name. */
  predicate NamesSomething(rest: string) {
    exists i :: 0 <= i < |Split(rest, '/')| && Split(rest, '/')[i] != "" && Split(rest, '/')[i] != "."
  }

  lemma {:induction false} NamesAppend(a: seq<string>, b: seq<string>)
    ensures Names(a + b) == Names(a) + Names(b)
  {
    if a == [] {
      assert a + b == b;
    } else {
      assert (a + b)[1..] == a[1..] + b;
      NamesAppend(a[1..], b);
    }
  }

  lemma {:induction false} NamesNothingIff(components: seq<string>)
    ensures Names(components) == [] <==>
              forall i :: 0 <= i < |components| ==> components[i] == "" || components[i] == "."
  {
    if components != [] {
      NamesNothingIff(components[1..]);
      assert forall i :: 1 <= i < |components| ==> components[1..][i - 1] == components[i];
    }
  }

  /** A path that continues a prefix goes through the prefix's names, then its own. */
  lemma ResolvedBelow(prefix: string, rest: string)
    requires prefix != "" && Last(prefix) == '/'
    ensures Resolved(prefix + rest) == Resolved(prefix) + Resolved(rest)
  {
    var pieces := Split(prefix, '/');
    EndsOpen(prefix);
    SplitAppend(prefix, rest, '/');
    assert "" + rest == rest;
    assert pieces == Front(pieces) + [""];
    NamesAppend(Front(pieces), Split(rest, '/'));
    NamesAppend(Front(pieces), [""]);
    NamesNothingIff([""]);
  }

  /** A path that ends in a slash has an empty last component. */
  lemma EndsOpen(prefix: string)
    requires prefix != "" && Last(prefix) == '/'
    ensures Last(Split(prefix, '/')) == ""
  {
    var base := Front(prefix);
    assert prefix == base + "/";
    SplitAppend(base, "/", '/');
    LastPieceIsFree(base, '/');
    SplitPrepend(Last(Split(base, '/')), "/", '/');
    assert Split("/", '/') == ["", ""] by {
      assert "/"[1..] == "";
    }
  }

  lemma LastPieceIsFree(s: string, sep: char)
    ensures sep !in Last(Split(s, sep))
  {
    JoinOfSplit(s, sep);
  }

  lemma SlashResolves()
    ensures Resolved("/") == []
  {
    assert Split("/", '/') == ["", ""] by {
      assert "/"[1..] == "";
    }
    NamesNothingIff(["", ""]);
  }

  lemma NameThenSlash(name: string)
    requires name != "" && name != "." && '/' !in name
    ensures Resolved(name + "/") == [name]
  {
    SplitOfJoin([name, ""], '/');
    assert Join([name, ""], '/') == name + "/";
    assert [name, ""] == [name] + [""];
    NamesAppend([name], [""]);
    NamesNothingIff([""]);
    assert [name][1..] == [];
  }

  lemma OneName(name: string)
    requires name != "" && name != "." && '/' !in name
    ensures Resolved("/" + (name + "/")) == [name]
  {
    NameThenSlash(name);
    SlashResolves();
    ResolvedBelow("/", name + "/");
  }

  lemma TwoNames(a: string, b: string)
    requires a != "" && a != "." && '/' !in a && b != "" && b != "." && '/' !in b
    ensures Resolved(("/" + (a + "/")) + (b + "/")) == [a, b]
  {
    OneName(a);
    NameThenSlash(b);
    ResolvedBelow("/" + (a + "/"), b + "/");
  }

  /** The first name of a path, by its length and first letter. */
  predicate StartsWithName(path: string, length: nat, letter: char) {
    Resolved(path) != [] && |Resolved(path)[0]| == length && length > 0 && Resolved(path)[0][0] == letter
  }

  lemma MntName()
    ensures StartsWithName(TARGET_PREFIXES[0], 3, 'm')
  {
    OneName("mnt");
    assert "/" + ("mnt" + "/") == TARGET_PREFIXES[0];
  }

  lemma MediaName()
    ensures StartsWithName(TARGET_PREFIXES[1], 5, 'm')
  {
    OneName("media");
    assert "/" + ("media" + "/") == TARGET_PREFIXES[1];
  }

  lemma RunMediaName()
    ensures StartsWithName(TARGET_PREFIXES[2], 3, 'r')
  {
    TwoNames("run", "media");
    assert ("/" + ("run" + "/")) + ("media" + "/") == TARGET_PREFIXES[2];
  }

  function NameLength(i: nat): nat {
    if i == 1 then 5 else 3
  }

  function NameLetter(i: nat): char {
    if i == 2 then 'r' else 'm'
  }

  /** The three prefixes start with three different names. */
  lemma PrefixName(i: nat)
    requires i < 3
    ensures StartsWithName(TARGET_PREFIXES[i], NameLength(i), NameLetter(i))
  {
    if i == 0 {
      MntName();
    } else if i == 1 {
      MediaName();
    } else {
      RunMediaName();
    }
  }

  lemma BelowOwnPrefix(prefix: string, rest: string)
    requires prefix != "" && Last(prefix) == '/'
    ensures Resolved(prefix) <= Resolved(prefix + rest)
    ensures StrictlyBelow(prefix + rest, prefix) <==> NamesSomething(rest)
  {
    ResolvedBelow(prefix, rest);
    NamesNothingIff(Split(rest, '/'));
  }

  lemma NotBelowOther(root: string, own: string, n: nat, c: char, other: string, m: nat, d: char)
    requires StartsWithName(own, n, c) && StartsWithName(other, m, d) && (n != m || c != d)
    requires Resolved(own) <= Resolved(root)
    ensures !StrictlyBelow(root, other)
  {
    assert Resolved(root)[0] == Resolved(own)[0];
  }

  lemma AfterPrefixIs(root: string, i: nat)
    requires i < 3 && TARGET_PREFIXES[i] <= root
    requires forall j :: 0 <= j < i ==> !(TARGET_PREFIXES[j] <= root)
    ensures root == TARGET_PREFIXES[i] + AfterPrefix(root) && Last(TARGET_PREFIXES[i]) == '/'
  {
  }

  /** For every accepted root: it lies strictly below one of the prefixes, as is meant, if and
      only if some component after the prefix is a name. */
  lemma StrictlyBelowIff(root: string)
    requires ValidTargetRoot(root)
    ensures BelowSomePrefix(root) <==> NamesSomething(AfterPrefix(root))
  {
    var i := if TARGET_PREFIXES[0] <= root then 0 else if TARGET_PREFIXES[1] <= root then 1 else 2;
    AfterPrefixIs(root, i);
    BelowOwnPrefix(TARGET_PREFIXES[i], AfterPrefix(root));
    forall j | 0 <= j < 3 && j != i ensures !StrictlyBelow(root, TARGET_PREFIXES[j]) {
      PrefixName(i);
      PrefixName(j);
      NotBelowOther(root, TARGET_PREFIXES[i], NameLength(i), NameLetter(i), TARGET_PREFIXES[j], NameLength(j),
                    NameLetter(j));
    }
  }

  predicate OnlySlashesAndDots(rest: string) {
    forall i :: 0 <= i < |Split(rest, '/')| ==> Split(rest, '/')[i] == "" || Split(rest, '/')[i] == "."
  }

  lemma MntPieces(rest: string)
    ensures Split("/mnt/" + rest, '/') == ["", "mnt"] + Split(rest, '/')
  {
    SplitOfJoin(["", "mnt", ""], '/');
    assert Join(["", "mnt", ""], '/') == "/mnt/";
    SplitAppend("/mnt/", rest, '/');
    assert Front(["", "mnt", ""]) == ["", "mnt"];
    assert "" + rest == rest;
  }

  /** The failing family: `/mnt/`, `/mnt//`, `/mnt/.` and every other mix of slashes and dots
      after the prefix is accepted and names the prefix itself. */
  lemma BarePrefixIsAccepted(rest: string)
    requires ValidMountTarget("/mnt/" + rest) && OnlySlashesAndDots(rest)
    ensures ValidTargetRoot("/mnt/" + rest) && !BelowSomePrefix("/mnt/" + rest)
  {
    var root := "/mnt/" + rest;
    MntPieces(rest);
    assert ".." != "" && ".." != "." && ".." != "mnt";
    AfterPrefixIs(root, 0);
    StrictlyBelowIff(root);
  }

  function TrimSlashes(s: string): (r: string)
    ensures r <= s
    ensures r == "" || Last(r) != '/'
  {
    if s != "" && Last(s) == '/' then TrimSlashes(Front(s)) else s
  }

  function TargetAbs(root: string, path: string): string {
    if path == "/" then root else TrimSlashes(root) + path
  }

  // --- Roles and order ---

  function RolePath(name: string): Option<string> {
    var key := Lower(name);
    if key == "root" then Some("/")
    else if key == "esp" then Some("/efi")
    else if key == "boot" then Some("/boot")
    else if key == "home" then Some("/home")
    else if key == "var" then Some("/var")
    else if name == "" then None
    else Some("/" + key)
  }

  function Slashes(s: string): nat {
    if s == "" then 0 else (if s[0] == '/' then 1 else 0) + Slashes(s[1..])
  }

  /** Root first, then by depth, then by path. */
  function Depth(m: TargetMount): nat {
    if m.path == "/" then 0 else Slashes(m.path)
  }

  /** Code-point order of strings. */
  predicate TextLe(a: string, b: string) {
    a == "" || (b != "" && (a[0] < b[0] || (a[0] == b[0] && TextLe(a[1..], b[1..]))))
  }

  predicate OrderLe(a: TargetMount, b: TargetMount) {
    Depth(a) < Depth(b) || (Depth(a) == Depth(b) && TextLe(a.path, b.path))
  }

  predicate Sorted(ms: seq<TargetMount>) {
    forall i, j :: 0 <= i < j < |ms| ==> OrderLe(ms[i], ms[j])
  }

  lemma {:induction false} TextLeTotal(a: string, b: string)
    ensures TextLe(a, b) || TextLe(b, a)
  {
    if a != "" && b != "" && a[0] == b[0] {
      TextLeTotal(a[1..], b[1..]);
    }
  }

  lemma {:induction false} TextLeTransitive(a: string, b: string, c: string)
    requires TextLe(a, b) && TextLe(b, c)
    ensures TextLe(a, c)
  {
    if a != "" && a[0] == b[0] && b[0] == c[0] {
      TextLeTransitive(a[1..], b[1..], c[1..]);
    }
  }

  lemma OrderLeTransitive(a: TargetMount, b: TargetMount, c: TargetMount)
    requires OrderLe(a, b) && OrderLe(b, c)
    ensures OrderLe(a, c)
  {
    if Depth(a) == Depth(b) == Depth(c) {
      TextLeTransitive(a.path, b.path, c.path);
    }
  }

  /** Stable insertion: after every element that may come first. */
  function Inserted(ms: seq<TargetMount>, m: TargetMount): seq<TargetMount> {
    if ms == [] || !OrderLe(ms[0], m) then [m] + ms else [ms[0]] + Inserted(ms[1..], m)
  }

  /** The mounts in mount order; equal keys keep their order. */
  function InMountOrder(ms: seq<TargetMount>): seq<TargetMount> {
    if ms == [] then [] else Inserted(InMountOrder(Front(ms)), Last(ms))
  }

  lemma {:induction false} InsertedKeeps(ms: seq<TargetMount>, m: TargetMount)
    ensures multiset(Inserted(ms, m)) == multiset(ms) + multiset{m}
    ensures Sorted(ms) ==> Sorted(Inserted(ms, m))
  {
    if ms == [] || !OrderLe(ms[0], m) {
      if ms != [] && Sorted(ms) {
        TextLeTotal(ms[0].path, m.path);
        forall j | 0 <= j < |ms| ensures OrderLe(m, ms[j]) {
          if j > 0 {
            OrderLeTransitive(m, ms[0], ms[j]);
          }
        }
      }
    } else {
      assert ms == [ms[0]] + ms[1..];
      InsertedKeeps(ms[1..], m);
      var rest := Inserted(ms[1..], m);
      forall j | 0 <= j < |rest| && Sorted(ms) ensures OrderLe(ms[0], rest[j]) {
        assert rest[j] in multiset(rest);
        if rest[j] != m {
          assert rest[j] in ms[1..];
        }
      }
    }
  }

  lemma {:induction false} MountOrderSorts(ms: seq<TargetMount>)
    ensures multiset(InMountOrder(ms)) == multiset(ms)
    ensures Sorted(InMountOrder(ms))
  {
    if ms != [] {
      MountOrderSorts(Front(ms));
      InsertedKeeps(InMountOrder(Front(ms)), Last(ms));
      assert ms == Front(ms) + [Last(ms)];
    }
  }

  // --- Deriving the mount plan ---

  predicate RolesKnown(fs: seq<Filesystem>) {
    forall i :: 0 <= i < |fs| && fs[i].kind != "swap" ==> RolePath(fs[i].name).Some?
  }

  function UnsortedMounts(fs: seq<Filesystem>): seq<TargetMount>
    requires RolesKnown(fs)
  {
    if fs == [] then []
    else
      var f := Last(fs);
      UnsortedMounts(Front(fs))
      + if f.kind == "swap" then [] else [TargetMount(f.device, RolePath(f.name).value, f.kind)]
  }

  function SwapDevices(fs: seq<Filesystem>): seq<string> {
    if fs == [] then []
    else SwapDevices(Front(fs)) + if Last(fs).kind == "swap" then [Last(fs).device] else []
  }

  method DeriveMountPlan(plan: DiskPlan, root: string) returns (r: Result<MountPlan>)
    ensures r == if ValidTargetRoot(root) && RolesKnown(plan.filesystems)
                 then Ok(PlanOfDisk(plan.filesystems, root))
                 else Err
  {
    if !ValidTargetRoot(root) {
      return Err;
    }
    var fs := plan.filesystems;
    var mounts, swap := [], [];
    for i := 0 to |fs|
      invariant RolesKnown(fs[..i])
      invariant mounts == UnsortedMounts(fs[..i]) && swap == SwapDevices(fs[..i])
    {
      assert Front(fs[..i + 1]) == fs[..i] && Last(fs[..i + 1]) == fs[i];
      if fs[i].kind == "swap" {
        swap := swap + [fs[i].device];
      } else {
        var path := RolePath(fs[i].name);
        if path.None? {
          return Err;
        }
        mounts := mounts + [TargetMount(fs[i].device, path.value, fs[i].kind)];
      }
    }
    assert fs[..|fs|] == fs;
    return Ok(MountPlan(root, InMountOrder(mounts), swap));
  }

  /** `p` is a proper ancestor directory of `q`. */
  predicate Ancestor(p: string, q: string) {
    (p == "/" && q != "/") || (p != "/" && p + "/" <= q)
  }

  lemma {:induction false} SlashesAppend(a: string, b: string)
    ensures Slashes(a + b) == Slashes(a) + Slashes(b)
  {
    if a == "" {
      assert a + b == b;
    } else {
      assert (a + b)[1..] == a[1..] + b;
      SlashesAppend(a[1..], b);
    }
  }

  lemma AncestorIsShallower(p: TargetMount, q: TargetMount)
    requires "/" <= p.path && "/" <= q.path && Ancestor(p.path, q.path)
    ensures Depth(p) < Depth(q)
  {
    assert Slashes(q.path) >= 1;
    if p.path != "/" {
      var rest := q.path[|p.path| + 1..];
      assert q.path == p.path + "/" + rest;
      SlashesAppend(p.path + "/", rest);
      SlashesAppend(p.path, "/");
      assert Slashes("/") == 1 + Slashes("");
      assert |q.path| > 1;
    }
  }

  lemma {:induction false} MountsAreAbsolute(fs: seq<Filesystem>)
    requires RolesKnown(fs)
    ensures forall i :: 0 <= i < |UnsortedMounts(fs)| ==> "/" <= UnsortedMounts(fs)[i].path
  {
    if fs != [] {
      MountsAreAbsolute(Front(fs));
    }
  }

  /** For any disk plan, whatever its labels: a filesystem is mounted before every
      filesystem that lies below it, and no mount is lost or invented. */
  lemma {:induction false} AncestorsMountFirst(fs: seq<Filesystem>, i: nat, j: nat)
    requires RolesKnown(fs)
    requires i < |InMountOrder(UnsortedMounts(fs))| && j < |InMountOrder(UnsortedMounts(fs))|
    requires Ancestor(InMountOrder(UnsortedMounts(fs))[i].path, InMountOrder(UnsortedMounts(fs))[j].path)
    ensures i < j
    ensures multiset(InMountOrder(UnsortedMounts(fs))) == multiset(UnsortedMounts(fs))
  {
    var ms := InMountOrder(UnsortedMounts(fs));
    MountOrderSorts(UnsortedMounts(fs));
    MountsAreAbsolute(fs);
    assert ms[i] in multiset(ms) && ms[j] in multiset(ms);
    AncestorIsShallower(ms[i], ms[j]);
    assert j < i ==> OrderLe(ms[j], ms[i]);
  }

  // --- The mkdir, mount, swapon pipeline ---

  predicate MountAccepted(root: string, m: TargetMount) {
    ValidDevice(m.device) && ValidTargetPath(TargetAbs(root, m.path))
  }

  predicate AcceptedMounts(plan: MountPlan) {
    && (forall i :: 0 <= i < |plan.mounts| ==> MountAccepted(plan.root, plan.mounts[i]))
    && (forall i :: 0 <= i < |plan.swap| ==> ValidDevice(plan.swap[i]))
  }

  function OneMount(root: string, m: TargetMount): seq<Command> {
    [MakeDirectory(TargetAbs(root, m.path)), MountDevice(m.device, TargetAbs(root, m.path))]
  }

  function MountCommands(root: string, ms: seq<TargetMount>): seq<Command> {
    if ms == [] then [] else MountCommands(root, Front(ms)) + OneMount(root, Last(ms))
  }

  function SwapCommands(devices: seq<string>): seq<Command> {
    seq(|devices|, i requires 0 <= i < |devices| => SwapOn(devices[i]))
  }

  function MountSteps(plan: MountPlan): seq<Command> {
    MountCommands(plan.root, plan.mounts) + SwapCommands(plan.swap)
  }

  method BuildMountSteps(plan: MountPlan) returns (r: Result<seq<Command>>)
    ensures r == if AcceptedMounts(plan) then Ok(MountSteps(plan)) else Err
  {
    var steps := [];
    for i := 0 to |plan.mounts|
      invariant forall k :: 0 <= k < i ==> MountAccepted(plan.root, plan.mounts[k])
      invariant steps == MountCommands(plan.root, plan.mounts[..i])
    {
      var m := plan.mounts[i];
      if !MountAccepted(plan.root, m) {
        return Err;
      }
      assert Front(plan.mounts[..i + 1]) == plan.mounts[..i] && Last(plan.mounts[..i + 1]) == m;
      steps := steps + [MakeDirectory(TargetAbs(plan.root, m.path)),
                        MountDevice(m.device, TargetAbs(plan.root, m.path))];
    }
    assert plan.mounts[..|plan.mounts|] == plan.mounts;
    r := AppendSwapSteps(steps, plan.swap);
  }

  method AppendSwapSteps(steps: seq<Command>, devices: seq<string>) returns (r: Result<seq<Command>>)
    ensures r == if forall i :: 0 <= i < |devices| ==> ValidDevice(devices[i])
                 then Ok(steps + SwapCommands(devices)) else Err
  {
    var all := steps;
    for i := 0 to |devices|
      invariant forall k :: 0 <= k < i ==> ValidDevice(devices[k])
      invariant all == steps + SwapCommands(devices[..i])
    {
      if !ValidDevice(devices[i]) {
        return Err;
      }
      assert SwapCommands(devices[..i + 1]) == SwapCommands(devices[..i]) + [SwapOn(devices[i])];
      all := all + [SwapOn(devices[i])];
    }
    assert devices[..|devices|] == devices;
    return Ok(all);
  }

  /** Every place the target mounts at is itself inside an allowed prefix. */
  lemma TargetsStayConfined(root: string, path: string)
    requires ValidTargetRoot(root)
    requires "/" <= path && ValidTargetPath(TargetAbs(root, path))
    ensures ValidTargetRoot(TargetAbs(root, path))
  {
    if path != "/" {
      var base := TrimSlashes(root);
      var prefix := if TARGET_PREFIXES[0] <= root then TARGET_PREFIXES[0]
                    else if TARGET_PREFIXES[1] <= root then TARGET_PREFIXES[1] else TARGET_PREFIXES[2];
      TrimKeepsPrefix(root, prefix);
      assert prefix <= base + path;
    }
  }

  lemma SlashGoesNowhere(s: string)
    ensures Resolved(s + "/") == Resolved(s)
  {
    var pieces := Split(s, '/');
    SplitAppend(s, "/", '/');
    LastPieceIsFree(s, '/');
    SplitPrepend(Last(pieces), "/", '/');
    assert Split("/", '/') == ["", ""] by {
      assert "/"[1..] == "";
    }
    assert ["", ""][1..] == [""] && Last(pieces) + "" == Last(pieces);
    assert Split(Last(pieces) + "/", '/') == [Last(pieces)] + [""];
    assert pieces == Front(pieces) + [Last(pieces)];
    assert Split(s + "/", '/') == pieces + [""];
    NamesAppend(pieces, [""]);
    NamesNothingIff([""]);
  }

  lemma {:induction false} TrimmedResolves(s: string)
    ensures Resolved(TrimSlashes(s)) == Resolved(s)
  {
    if TrimSlashes(s) != s {
      assert s == Front(s) + "/";
      TrimmedResolves(Front(s));
      SlashGoesNowhere(Front(s));
    }
  }

  lemma {:induction false} NamesAreComponents(components: seq<string>, name: string)
    requires name in Names(components)
    ensures name in components
  {
    if name !in Names(components[1..]) {
      assert name == components[0];
    } else {
      NamesAreComponents(components[1..], name);
    }
  }

  /** Followed name by name, a mount goes through the root's own names first and never back up:
      it lies at the root or below it. */
  lemma TargetsStayBelowRoot(root: string, path: string)
    requires "/" <= path && ValidTargetPath(TargetAbs(root, path))
    ensures Resolved(root) <= Resolved(TargetAbs(root, path))
    ensures ".." !in Resolved(TargetAbs(root, path))
    ensures path != "/" ==> Resolved(TargetAbs(root, path)) == Resolved(root) + Resolved(path[1..])
  {
    if ".." in Resolved(TargetAbs(root, path)) {
      NamesAreComponents(Split(TargetAbs(root, path), '/'), "..");
      assert false;
    }
    if path != "/" {
      var base := TrimSlashes(root);
      assert base + path == (base + "/") + path[1..];
      ResolvedBelow(base + "/", path[1..]);
      SlashGoesNowhere(base);
      TrimmedResolves(root);
    }
  }

  /** Trimming trailing slashes keeps a directory prefix, up to its own last slash. */
  lemma {:induction false} TrimKeepsPrefix(root: string, prefix: string)
    requires |prefix| >= 2 && Last(prefix) == '/' && prefix[|prefix| - 2] != '/'
    requires prefix <= root
    ensures Front(prefix) <= TrimSlashes(root)
    ensures forall path: string :: "/" <= path ==> prefix <= TrimSlashes(root) + path
  {
    if Last(root) == '/' {
      if |root| > |prefix| {
        assert prefix <= Front(root);
        TrimKeepsPrefix(Front(root), prefix);
      } else {
        assert root == prefix;
        assert TrimSlashes(Front(root)) == Front(prefix);
        forall path: string | "/" <= path ensures prefix <= Front(prefix) + path {
          assert (Front(prefix) + path)[..|prefix|] == Front(prefix) + path[..1];
        }
      }
    } else {
      assert root != prefix;
      forall path: string | "/" <= path ensures prefix <= root + path {
      }
    }
  }

  // --- The target's fstab ---

  function MountEntries(ms: seq<TargetMount>, uuids: map<string, string>): seq<Entry>
    requires forall i :: 0 <= i < |ms| ==> ms[i].device in uuids
  {
    seq(|ms|, i requires 0 <= i < |ms| => GenEntry(uuids[ms[i].device], ms[i].path, ms[i].fstype))
  }

  function SwapEntries(devices: seq<string>, uuids: map<string, string>): seq<Entry>
    requires forall i :: 0 <= i < |devices| ==> devices[i] in uuids
  {
    seq(|devices|, i requires 0 <= i < |devices| => GenEntry(uuids[devices[i]], "none", "swap"))
  }

  predicate AllIdentified(plan: MountPlan, uuids: map<string, string>) {
    && (forall i :: 0 <= i < |plan.mounts| ==> plan.mounts[i].device in uuids && uuids[plan.mounts[i].device] != "")
    && (forall i :: 0 <= i < |plan.swap| ==> plan.swap[i] in uuids && uuids[plan.swap[i]] != "")
  }

  function PlanEntries(plan: MountPlan, uuids: map<string, string>): seq<Entry>
    requires AllIdentified(plan, uuids)
  {
    MountEntries(plan.mounts, uuids) + SwapEntries(plan.swap, uuids)
  }

  /** Refused when a device has no UUID: a generated fstab never names a volatile node. */
  function GenerateTargetFstab(plan: MountPlan, uuids: map<string, string>): Result<string> {
    if AllIdentified(plan, uuids) then Ok(RenderFstab(PlanEntries(plan, uuids))) else Err
  }

  /** A UUID that survives the fstab's field syntax. */
  predicate WellFormedUuid(s: string) {
    1 <= |s| <= 250 && All(s, SpecChar)
  }

  lemma UuidSpecIsValid(uuid: string)
    requires WellFormedUuid(uuid)
    ensures ValidSpec("UUID=" + uuid)
  {
    assert SPEC_PREFIXES[0] == "UUID=" && "UUID=" in SPEC_PREFIXES;
    assert "UUID=" <= "UUID=" + uuid;
  }

  lemma DefaultOptionsAreValid()
    ensures ValidOptions("sw") && ValidOptions("umask=0077") && ValidOptions("noatime") && ValidOptions("defaults")
  {
  }

  lemma GeneratedEntryIsValid(uuid: string, mountpoint: string, fstype: string)
    requires WellFormedUuid(uuid) && ValidMountpoint(mountpoint) && ValidFstype(fstype)
    ensures ValidEntry(GenEntry(uuid, mountpoint, fstype))
  {
    UuidSpecIsValid(uuid);
    DefaultOptionsAreValid();
  }

  /** What the fstab must say about one file system: its UUID, its mount point and type, no
      dump; and the options and the pass number its type and mount point call for. */
  predicate SaysOf(e: Entry, uuid: string, mountpoint: string, fstype: string) {
    && e.spec == "UUID=" + uuid && e.mountpoint == mountpoint && e.fstype == fstype && e.dump == 0
    && (fstype == "swap" ==> e.options == "sw" && e.passno == 0)
    && (fstype == "vfat" ==> e.options == "umask=0077" && e.passno == 2)
    && (fstype != "swap" && fstype != "vfat" && mountpoint == "/" ==> e.options == "noatime" && e.passno == 1)
    && (fstype != "swap" && fstype != "vfat" && mountpoint != "/" ==> e.options == "defaults" && e.passno == 2)
  }

  /** One entry per mount, in order, then one per swap, and no others; the file system checker
      starts with the root and only with the root. */
  predicate TellsPlan(entries: seq<Entry>, plan: MountPlan, uuids: map<string, string>)
    requires AllIdentified(plan, uuids)
  {
    && |entries| == |plan.mounts| + |plan.swap|
    && (forall i :: 0 <= i < |plan.mounts| ==>
          SaysOf(entries[i], uuids[plan.mounts[i].device], plan.mounts[i].path, plan.mounts[i].fstype))
    && (forall j :: 0 <= j < |plan.swap| ==>
          SaysOf(entries[|plan.mounts| + j], uuids[plan.swap[j]], "none", "swap"))
    && (forall i :: 0 <= i < |entries| ==>
          (entries[i].passno == 1 <==> entries[i].mountpoint == "/" && entries[i].fstype !in {"vfat", "swap"}))
  }

  lemma GeneratedEntrySays(uuid: string, mountpoint: string, fstype: string)
    ensures SaysOf(Marked(GenEntry(uuid, mountpoint, fstype)), uuid, mountpoint, fstype)
  {
  }

  lemma PlanEntriesTellPlan(plan: MountPlan, uuids: map<string, string>)
    requires AllIdentified(plan, uuids)
    ensures TellsPlan(MarkAll(PlanEntries(plan, uuids)), plan, uuids)
  {
    var es := MarkAll(PlanEntries(plan, uuids));
    forall i | 0 <= i < |plan.mounts|
      ensures SaysOf(es[i], uuids[plan.mounts[i].device], plan.mounts[i].path, plan.mounts[i].fstype)
    {
      GeneratedEntrySays(uuids[plan.mounts[i].device], plan.mounts[i].path, plan.mounts[i].fstype);
    }
    forall j | 0 <= j < |plan.swap| ensures SaysOf(es[|plan.mounts| + j], uuids[plan.swap[j]], "none", "swap") {
      GeneratedEntrySays(uuids[plan.swap[j]], "none", "swap");
    }
    forall i | 0 <= i < |es|
      ensures es[i].passno == 1 <==> es[i].mountpoint == "/" && es[i].fstype !in {"vfat", "swap"}
    {
      assert i >= |plan.mounts| ==> SaysOf(es[|plan.mounts| + (i - |plan.mounts|)],
                                           uuids[plan.swap[i - |plan.mounts|]], "none", "swap");
    }
  }

  /** For a plan with mountable paths and known kinds, and well-formed UUIDs: the
      generated text passes the writers' gate, and parses to exactly one entry per mount
      and per swap, in order, each saying what it must. */
  lemma GeneratedFstabIsExact(plan: MountPlan, uuids: map<string, string>)
    requires plan.mounts != [] || plan.swap != []
    requires AllIdentified(plan, uuids)
    requires forall i :: 0 <= i < |plan.mounts| ==>
      && WellFormedUuid(uuids[plan.mounts[i].device])
      && ValidMountpoint(plan.mounts[i].path) && ValidFstype(plan.mounts[i].fstype)
    requires forall i :: 0 <= i < |plan.swap| ==> WellFormedUuid(uuids[plan.swap[i]])
    ensures GenerateTargetFstab(plan, uuids).Ok?
    ensures var text := GenerateTargetFstab(plan, uuids).value;
            ValidGenerated(text) && TellsPlan(Parsed(text), plan, uuids)
  {
    var es := PlanEntries(plan, uuids);
    forall i | 0 <= i < |es| ensures ValidEntry(es[i]) {
      if i < |plan.mounts| {
        var m := plan.mounts[i];
        GeneratedEntryIsValid(uuids[m.device], m.path, m.fstype);
      } else {
        GeneratedEntryIsValid(uuids[plan.swap[i - |plan.mounts|]], "none", "swap");
      }
    }
    FstabRoundTrip(es);
    PlanEntriesTellPlan(plan, uuids);
  }

  lemma {:induction false} FilesystemsBecomeMounts(fs: seq<Filesystem>, i: nat)
    requires RolesKnown(fs) && i < |fs|
    ensures if fs[i].kind == "swap" then fs[i].device in SwapDevices(fs)
            else TargetMount(fs[i].device, RolePath(fs[i].name).value, fs[i].kind) in UnsortedMounts(fs)
  {
    if i < |fs| - 1 {
      FilesystemsBecomeMounts(Front(fs), i);
    }
  }

  lemma {:induction false} MountsComeFromFilesystems(fs: seq<Filesystem>)
    requires RolesKnown(fs)
    ensures forall m :: m in UnsortedMounts(fs) ==>
              exists i :: 0 <= i < |fs| && fs[i].kind != "swap" &&
                  m == TargetMount(fs[i].device, RolePath(fs[i].name).value, fs[i].kind)
  {
    if fs != [] {
      MountsComeFromFilesystems(Front(fs));
      forall m | m in UnsortedMounts(fs)
        ensures exists i :: 0 <= i < |fs| && fs[i].kind != "swap" &&
                              m == TargetMount(fs[i].device, RolePath(fs[i].name).value, fs[i].kind)
      {
        if m in UnsortedMounts(Front(fs)) {
          var i :| 0 <= i < |Front(fs)| && Front(fs)[i].kind != "swap"
                   && m == TargetMount(Front(fs)[i].device, RolePath(Front(fs)[i].name).value, Front(fs)[i].kind);
          assert fs[i] == Front(fs)[i];
        } else {
          assert fs[|fs| - 1] == Last(fs);
        }
      }
    }
  }

  /** Where a file system goes: the root at /, the ESP at /efi, any other under its own name. */
  lemma RolePathIs(name: string)
    ensures RolePath(name) == if Lower(name) == "root" then Some("/") else if Lower(name) == "esp" then Some("/efi")
                              else if name == "" then None else Some("/" + Lower(name))
  {
    assert "/" + "boot" == "/boot" && "/" + "home" == "/home" && "/" + "var" == "/var";
    assert Lower("") == "";
  }

  lemma RolePathIsMountable(name: string)
    requires ValidLabel(name)
    ensures RolePath(name).Some? && ValidMountpoint(RolePath(name).value) && "/" <= RolePath(name).value
  {
    var key := Lower(name);
    forall i | 0 <= i < |key| ensures PathChar(key[i]) {
      assert LabelChar(name[i]);
    }
    forall i | 0 <= i < |"/" + key| ensures PathChar(("/" + key)[i]) {
    }
    assert ValidMountpoint("/" + key);
  }

  lemma KnownKindsAreFstypes(kind: string)
    requires kind in MKFS_KINDS
    ensures ValidFstype(kind)
  {
  }

  /** Every mount of an accepted, labelled plan has a path and a kind fit for fstab. */
  lemma AcceptedPlanMounts(plan: DiskPlan)
    requires Accepted(plan) && RolesKnown(plan.filesystems)
    ensures forall m :: m in InMountOrder(UnsortedMounts(plan.filesystems)) ==>
              ValidMountpoint(m.path) && "/" <= m.path && ValidFstype(m.fstype) && ValidDevice(m.device)
  {
    var fs := plan.filesystems;
    MountsComeFromFilesystems(fs);
    MountOrderSorts(UnsortedMounts(fs));
    forall m | m in InMountOrder(UnsortedMounts(fs))
      ensures ValidMountpoint(m.path) && "/" <= m.path && ValidFstype(m.fstype) && ValidDevice(m.device)
    {
      assert m in multiset(InMountOrder(UnsortedMounts(fs)));
      assert m in UnsortedMounts(fs);
      var i :| 0 <= i < |fs| && fs[i].kind != "swap" &&
          m == TargetMount(fs[i].device, RolePath(fs[i].name).value, fs[i].kind);
      assert AcceptedFilesystem(fs[i]);
      if fs[i].name != "" {
        RolePathIsMountable(fs[i].name);
      }
      KnownKindsAreFstypes(fs[i].kind);
    }
  }

  function PlanOfDisk(fs: seq<Filesystem>, root: string): MountPlan
    requires RolesKnown(fs)
  {
    MountPlan(root, InMountOrder(UnsortedMounts(fs)), SwapDevices(fs))
  }

  lemma PlanDevicesHaveUuids(fs: seq<Filesystem>, root: string, uuids: map<string, string>)
    requires RolesKnown(fs)
    requires forall i :: 0 <= i < |fs| ==> fs[i].device in uuids && WellFormedUuid(uuids[fs[i].device])
    ensures forall m :: m in PlanOfDisk(fs, root).mounts ==> m.device in uuids && WellFormedUuid(uuids[m.device])
    ensures forall d :: d in PlanOfDisk(fs, root).swap ==> d in uuids && WellFormedUuid(uuids[d])
    ensures |PlanOfDisk(fs, root).mounts| + |PlanOfDisk(fs, root).swap| == |fs|
  {
    MountsComeFromFilesystems(fs);
    MountOrderSorts(UnsortedMounts(fs));
    SwapsComeFromFilesystems(fs);
    FilesystemsAreCounted(fs);
    var ms := InMountOrder(UnsortedMounts(fs));
    assert |ms| == |multiset(ms)| == |UnsortedMounts(fs)|;
    forall m | m in ms ensures m.device in uuids && WellFormedUuid(uuids[m.device]) {
      assert m in multiset(ms);
      assert m in UnsortedMounts(fs);
    }
  }

  /** Some entry says what it must about this file system. */
  predicate ToldOf(entries: seq<Entry>, f: Filesystem, uuid: string) {
    exists i :: 0 <= i < |entries| &&
      if f.kind == "swap" then SaysOf(entries[i], uuid, "none", "swap")
      else RolePath(f.name).Some? && SaysOf(entries[i], uuid, RolePath(f.name).value, f.kind)
  }

  /** The fstab generated from an accepted plan and well-formed UUIDs passes the writers'
      gate and has exactly one entry per mount, in mount order, then one per swap. */
  lemma InstallFstabIsExact(plan: DiskPlan, root: string, uuids: map<string, string>)
    requires Accepted(plan) && RolesKnown(plan.filesystems) && plan.filesystems != []
    requires forall i :: 0 <= i < |plan.filesystems| ==>
      plan.filesystems[i].device in uuids && WellFormedUuid(uuids[plan.filesystems[i].device])
    ensures var mp := PlanOfDisk(plan.filesystems, root);
            && AllIdentified(mp, uuids) && GenerateTargetFstab(mp, uuids).Ok?
            && ValidGenerated(GenerateTargetFstab(mp, uuids).value)
            && TellsPlan(Parsed(GenerateTargetFstab(mp, uuids).value), mp, uuids)
            && |Parsed(GenerateTargetFstab(mp, uuids).value)| == |plan.filesystems|
            && forall f :: f in plan.filesystems ==>
                ToldOf(Parsed(GenerateTargetFstab(mp, uuids).value), f, uuids[f.device])
  {
    var mp := PlanOfDisk(plan.filesystems, root);
    AcceptedPlanMounts(plan);
    PlanDevicesHaveUuids(plan.filesystems, root, uuids);
    forall i | 0 <= i < |mp.mounts|
      ensures mp.mounts[i].device in uuids && WellFormedUuid(uuids[mp.mounts[i].device])
      ensures ValidMountpoint(mp.mounts[i].path) && ValidFstype(mp.mounts[i].fstype)
    {
      assert mp.mounts[i] in mp.mounts;
    }
    GeneratedFstabIsExact(mp, uuids);
    var entries := Parsed(GenerateTargetFstab(mp, uuids).value);
    forall f | f in plan.filesystems ensures ToldOf(entries, f, uuids[f.device]) {
      PlanTellsFilesystem(plan.filesystems, root, uuids, entries, f);
    }
  }

  lemma PlanTellsFilesystem(fs: seq<Filesystem>, root: string, uuids: map<string, string>, entries: seq<Entry>,
                            f: Filesystem)
    requires RolesKnown(fs) && f in fs
    requires AllIdentified(PlanOfDisk(fs, root), uuids) && TellsPlan(entries, PlanOfDisk(fs, root), uuids)
    ensures f.device in uuids && ToldOf(entries, f, uuids[f.device])
  {
    var mp := PlanOfDisk(fs, root);
    var i :| 0 <= i < |fs| && fs[i] == f;
    FilesystemsBecomeMounts(fs, i);
    if f.kind == "swap" {
      var j :| 0 <= j < |mp.swap| && mp.swap[j] == f.device;
      assert SaysOf(entries[|mp.mounts| + j], uuids[f.device], "none", "swap");
    } else {
      var m := TargetMount(f.device, RolePath(f.name).value, f.kind);
      MountOrderSorts(UnsortedMounts(fs));
      assert m in multiset(mp.mounts);
      var j :| 0 <= j < |mp.mounts| && mp.mounts[j] == m;
      assert SaysOf(entries[j], uuids[f.device], m.path, f.kind);
    }
  }

  lemma {:induction false} SwapsComeFromFilesystems(fs: seq<Filesystem>)
    ensures forall d :: d in SwapDevices(fs) ==> exists i :: 0 <= i < |fs| && fs[i].kind == "swap" && fs[i].device == d
  {
    if fs != [] {
      SwapsComeFromFilesystems(Front(fs));
      forall d | d in SwapDevices(fs) ensures exists i :: 0 <= i < |fs| && fs[i].kind == "swap" && fs[i].device == d {
        if d in SwapDevices(Front(fs)) {
          var i :| 0 <= i < |Front(fs)| && Front(fs)[i].kind == "swap" && Front(fs)[i].device == d;
          assert fs[i] == Front(fs)[i];
        } else {
          assert fs[|fs| - 1] == Last(fs);
        }
      }
    }
  }

  lemma {:induction false} FilesystemsAreCounted(fs: seq<Filesystem>)
    requires RolesKnown(fs)
    ensures |UnsortedMounts(fs)| + |SwapDevices(fs)| == |fs|
  {
    if fs != [] {
      FilesystemsAreCounted(Front(fs));
    }
  }
}
