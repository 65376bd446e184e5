/** The argument lists the disk commands become, and how they read back: no two commands of
    a plan are spelled alike. */
module CommandLines {
  import opened Splitting
  import opened Texts
  import opened DiskPlans

  type Argv = seq<string>

  // --- Spelling ---

  /** `-n N:0:+SIZE -t N:GUID [-c N:LABEL]`; "rest" is sgdisk's 0 end. */
  function PartitionArgs(p: Partition): Argv {
    var end := if p.size == "rest" then "0" else "+" + p.size;
    ["-n", Join([Digits(p.number), "0", end], ':'), "-t", Join([Digits(p.number), p.guid], ':')]
    + if p.name != "" then ["-c", Join([Digits(p.number), p.name], ':')] else []
  }

  function PartitionsArgs(ps: seq<Partition>): Argv {
    if ps == [] then [] else PartitionsArgs(Front(ps)) + PartitionArgs(Last(ps))
  }

  function MkfsFlags(kind: string): Argv {
    if kind == "vfat" then ["-F", "32"]
    else if kind == "ntfs" then ["-Q", "-F"]
    else if kind == "exfat" then []
    else if kind == "ext4" || kind == "ext3" then ["-F"]
    else ["-f"]
  }

  function MkfsLabelFlag(kind: string): string {
    if kind == "vfat" then "-n" else if kind == "f2fs" then "-l" else "-L"
  }

  function Labelled(flag: string, name: string): Argv {
    if name != "" then [flag, name] else []
  }

  function ArgvOf(c: Command): Argv {
    match c
    case WipeSignatures(disk) => ["wipefs", "-a", disk]
    case ZapTable(disk) => ["sgdisk", "--zap-all", disk]
    case CreatePartitions(disk, ps) => ["sgdisk"] + PartitionsArgs(ps) + [disk]
    case ReReadTable(disk) => ["partprobe", disk]
    case SettleDevices => ["udevadm", "settle"]
    case MakeFilesystem(device, kind, name) =>
      ["mkfs." + kind] + MkfsFlags(kind) + Labelled(MkfsLabelFlag(kind), name) + [device]
    case MakeSwap(device, name) => ["mkswap"] + Labelled("-L", name) + [device]
    case MakeDirectory(path) => ["mkdir", "-p", path]
    case MountDevice(device, path) => ["mount", device, path]
    case SwapOn(device) => ["swapon", device]
  }

  predicate AllAccepted(ps: seq<Partition>) {
    forall i :: 0 <= i < |ps| ==> AcceptedPartition(ps[i])
  }

  lemma PartitionsArgsStep(ps: seq<Partition>, i: nat)
    requires i < |ps|
    ensures ["sgdisk"] + PartitionsArgs(ps[..i]) + PartitionArgs(ps[i]) == ["sgdisk"] + PartitionsArgs(ps[..i + 1])
    ensures AllAccepted(ps[..i + 1]) <==> AllAccepted(ps[..i]) && AcceptedPartition(ps[i])
  {
    assert Front(ps[..i + 1]) == ps[..i] && Last(ps[..i + 1]) == ps[i];
    Assoc(["sgdisk"], PartitionsArgs(ps[..i]), PartitionArgs(ps[i]));
    var longer := ps[..i + 1];
    assert longer[i] == ps[i];
    assert forall k :: 0 <= k < i ==> ps[..i][k] == longer[k];
  }

  /** One sgdisk call for all partitions; refuses what a validator refuses. */
  method SgdiskPartitionArgv(device: string, ps: seq<Partition>) returns (r: Result<Argv>)
    ensures r == if ValidDevice(device) && ps != [] && AllAccepted(ps)
                 then Ok(ArgvOf(CreatePartitions(device, ps))) else Err
  {
    if !ValidDevice(device) || ps == [] {
      return Err;
    }
    var argv := ["sgdisk"];
    for i := 0 to |ps|
      invariant AllAccepted(ps[..i])
      invariant argv == ["sgdisk"] + PartitionsArgs(ps[..i])
    {
      var p := ps[i];
      if !ValidSize(p.size) || !ValidGuid(p.guid) || (p.name != "" && !ValidLabel(p.name)) {
        return Err;
      }
      PartitionsArgsStep(ps, i);
      argv := argv + PartitionArgs(p);
    }
    assert ps[..|ps|] == ps;
    return Ok(argv + [device]);
  }

  // --- Reading back ---

  datatype Reading = Reading(partition: Partition, length: nat) | Unreadable

  /** The partition the arguments start with, and how many of them it takes. */
  function ReadPartition(args: Argv): (r: Reading)
    ensures r.Reading? ==> 0 < r.length <= |args|
  {
    if |args| < 5 || args[0] != "-n" || args[2] != "-t" then Unreadable
    else
      var n, t := Split(args[1], ':'), Split(args[3], ':');
      if |n| != 3 || |t| != 2 || t[0] != n[0] || !AllDigits(n[0]) || n[1] != "0" || !("0" == n[2] || "+" <= n[2])
      then Unreadable
      else
        var size := if n[2] == "0" then "rest" else n[2][1..];
        if args[4] != "-c" || |args| < 7 then Reading(Partition(Number(n[0]), size, t[1], ""), 4)
        else
          var c := Split(args[5], ':');
          if |c| != 2 || c[0] != n[0] then Unreadable else Reading(Partition(Number(n[0]), size, t[1], c[1]), 6)
  }

  /** All partitions up to the final argument, the disk. */
  function ReadPartitions(args: Argv): seq<Partition>
    decreases |args|
  {
    var r := ReadPartition(args);
    if r == Unreadable then [] else [r.partition] + ReadPartitions(args[r.length..])
  }

  predicate IsColonFree(s: string) {
    ':' !in s
  }

  lemma TwoFields(a: string, b: string)
    requires IsColonFree(a) && IsColonFree(b)
    ensures Split(Join([a, b], ':'), ':') == [a, b]
  {
    SplitOfJoin([a, b], ':');
  }

  lemma ThreeFields(a: string, b: string, c: string)
    requires IsColonFree(a) && IsColonFree(b) && IsColonFree(c)
    ensures Split(Join([a, b, c], ':'), ':') == [a, b, c]
  {
    SplitOfJoin([a, b, c], ':');
  }

  /** The three colon-separated texts a partition is spelled with. */
  lemma FieldsReadBack(p: Partition, end: string)
    requires AcceptedPartition(p) && end == if p.size == "rest" then "0" else "+" + p.size
    ensures var d := Digits(p.number);
            && AllDigits(d) && Number(d) == p.number
            && Split(Join([d, "0", end], ':'), ':') == [d, "0", end]
            && Split(Join([d, p.guid], ':'), ':') == [d, p.guid]
            && Split(Join([d, p.name], ':'), ':') == [d, p.name]
    ensures if p.size == "rest" then end == "0" else "+" <= end && end != "0" && end[1..] == p.size
  {
    NumberOfDigits(p.number);
    ThreeFields(Digits(p.number), "0", end);
    TwoFields(Digits(p.number), p.guid);
    TwoFields(Digits(p.number), p.name);
  }

  /** A partition's own arguments, followed by the disk or another partition's. */
  lemma PartitionReadsBack(p: Partition, rest: Argv)
    requires AcceptedPartition(p)
    requires rest != [] && rest[0] != "-c"
    ensures ReadPartition(PartitionArgs(p) + rest) == Reading(p, |PartitionArgs(p)|)
  {
    var d := Digits(p.number);
    var end := if p.size == "rest" then "0" else "+" + p.size;
    FieldsReadBack(p, end);
    var args := PartitionArgs(p) + rest;
    assert args[0] == "-n" && args[1] == Join([d, "0", end], ':');
    assert args[2] == "-t" && args[3] == Join([d, p.guid], ':');
    if p.name == "" {
      assert args[4] == rest[0];
    } else {
      assert args[4] == "-c" && args[5] == Join([d, p.name], ':');
    }
  }

  lemma {:induction false} PartitionsArgsCons(p: Partition, ps: seq<Partition>)
    ensures PartitionsArgs([p] + ps) == PartitionArgs(p) + PartitionsArgs(ps)
  {
    if ps == [] {
      assert [p] + [] == [p];
      assert Front([p]) == [];
    } else {
      PartitionsArgsCons(p, Front(ps));
      assert Front([p] + ps) == [p] + Front(ps) && Last([p] + ps) == Last(ps);
      Assoc(PartitionArgs(p), PartitionsArgs(Front(ps)), PartitionArgs(Last(ps)));
    }
  }

  /** The partitions of an sgdisk call read back exactly, in order. */
  lemma {:induction false} PartitionsReadBack(ps: seq<Partition>, disk: string)
    requires AllAccepted(ps) && disk != "-c"
    ensures ReadPartitions(PartitionsArgs(ps) + [disk]) == ps
  {
    if ps == [] {
      assert PartitionsArgs(ps) + [disk] == [disk];
    } else {
      var p, more := ps[0], ps[1..];
      var rest := PartitionsArgs(more) + [disk];
      assert ps == [p] + more;
      PartitionsArgsCons(p, more);
      Assoc(PartitionArgs(p), PartitionsArgs(more), [disk]);
      RestStarts(more, disk);
      PartitionReadsBack(p, rest);
      assert (PartitionArgs(p) + rest)[|PartitionArgs(p)|..] == rest;
      PartitionsReadBack(more, disk);
    }
  }

  lemma RestStarts(ps: seq<Partition>, disk: string)
    requires disk != "-c"
    ensures PartitionsArgs(ps) + [disk] != [] && (PartitionsArgs(ps) + [disk])[0] != "-c"
  {
    if ps != [] {
      assert ps == [ps[0]] + ps[1..];
      PartitionsArgsCons(ps[0], ps[1..]);
    }
  }

  // --- Whole commands ---

  /** What the builders let through. */
  predicate Spellable(c: Command) {
    match c
    case CreatePartitions(disk, ps) => ValidDevice(disk) && ps != [] && AllAccepted(ps)
    case MakeFilesystem(device, kind, name) => ValidDevice(device) && kind in MKFS_KINDS
    case _ => true
  }

  /** `mkswap` and the mkfs programs: with or without a label before the device. */
  function LabelIn(argv: Argv, flags: nat): string {
    if |argv| == flags + 4 then argv[flags + 2] else ""
  }

  function ReadCommand(argv: Argv): Command
    requires |argv| >= 2
  {
    var tool, last := argv[0], Last(argv);
    if tool == "wipefs" then WipeSignatures(last)
    else if tool == "sgdisk" then
      if argv[1] == "--zap-all" then ZapTable(last) else CreatePartitions(last, ReadPartitions(argv[1..]))
    else if tool == "partprobe" then ReReadTable(last)
    else if tool == "udevadm" then SettleDevices
    else if tool == "mkswap" then MakeSwap(last, LabelIn(argv, 0))
    else if tool == "mkdir" then MakeDirectory(last)
    else if tool == "mount" then MountDevice(argv[1], last)
    else if tool == "swapon" then SwapOn(last)
    else
      var kind := if |tool| >= 5 then tool[5..] else "";
      MakeFilesystem(last, kind, LabelIn(argv, |MkfsFlags(kind)|))
  }

  predicate OtherTool(tool: string) {
    && tool != "wipefs" && tool != "sgdisk" && tool != "partprobe" && tool != "udevadm"
    && tool != "mkswap" && tool != "mkdir" && tool != "mount" && tool != "swapon"
  }

  lemma MkfsIsOther(kind: string)
    ensures OtherTool("mkfs." + kind) && ("mkfs." + kind)[5..] == kind
  {
    var tool := "mkfs." + kind;
    assert tool[2] == 'f' && tool[4] == '.';
  }

  lemma MkfsReadsBack(device: string, kind: string, name: string)
    ensures |ArgvOf(MakeFilesystem(device, kind, name))| >= 2
    ensures ReadCommand(ArgvOf(MakeFilesystem(device, kind, name))) == MakeFilesystem(device, kind, name)
  {
    MkfsIsOther(kind);
  }

  lemma SwapReadsBack(device: string, name: string)
    ensures |ArgvOf(MakeSwap(device, name))| >= 2
    ensures ReadCommand(ArgvOf(MakeSwap(device, name))) == MakeSwap(device, name)
  {
    assert ["mkswap"] + [] == ["mkswap"];
  }

  lemma CreateArgs(disk: string, ps: seq<Partition>)
    requires ps != []
    ensures var args := PartitionsArgs(ps) + [disk];
            |args| >= 2 && args[0] == "-n" && Last(args) == disk
  {
    assert ps == [ps[0]] + ps[1..];
    PartitionsArgsCons(ps[0], ps[1..]);
  }

  lemma CreateReadsBack(disk: string, ps: seq<Partition>)
    requires ValidDevice(disk) && ps != [] && AllAccepted(ps)
    ensures |ArgvOf(CreatePartitions(disk, ps))| >= 2
    ensures ReadCommand(ArgvOf(CreatePartitions(disk, ps))) == CreatePartitions(disk, ps)
  {
    var args := PartitionsArgs(ps) + [disk];
    CreateArgs(disk, ps);
    PartitionsReadBack(ps, disk);
    Assoc(["sgdisk"], PartitionsArgs(ps), [disk]);
  }

  /** Every command the builders let through can be read off its argument list: two
      different commands are never spelled alike. */
  lemma ArgvReadsBack(c: Command)
    requires Spellable(c)
    ensures |ArgvOf(c)| >= 2 && ReadCommand(ArgvOf(c)) == c
  {
    match c {
      case CreatePartitions(disk, ps) => CreateReadsBack(disk, ps);
      case MakeFilesystem(device, kind, name) => MkfsReadsBack(device, kind, name);
      case MakeSwap(device, name) => SwapReadsBack(device, name);
      case _ =>
    }
  }

  // --- The very words ---

  function FsWords(words: Argv, labelFlag: string, name: string, device: string): Argv {
    words + (if name != "" then [labelFlag, name] else []) + [device]
  }

  /** Which program makes each kind of file system, with which flags, and how it takes a label. */
  lemma MkfsWords(device: string, name: string)
    ensures ArgvOf(MakeFilesystem(device, "ext4", name)) == FsWords(["mkfs.ext4", "-F"], "-L", name, device)
    ensures ArgvOf(MakeFilesystem(device, "ext3", name)) == FsWords(["mkfs.ext3", "-F"], "-L", name, device)
    ensures ArgvOf(MakeFilesystem(device, "xfs", name)) == FsWords(["mkfs.xfs", "-f"], "-L", name, device)
  {
    assert "mkfs." + "ext4" == "mkfs.ext4";
    KindWords(device, "ext4", name, "mkfs.ext4", ["-F"], "-L");
    assert "mkfs." + "ext3" == "mkfs.ext3";
    KindWords(device, "ext3", name, "mkfs.ext3", ["-F"], "-L");
    assert "mkfs." + "xfs" == "mkfs.xfs";
    KindWords(device, "xfs", name, "mkfs.xfs", ["-f"], "-L");
  }

  lemma MoreMkfsWords(device: string, name: string)
    ensures ArgvOf(MakeFilesystem(device, "btrfs", name)) == FsWords(["mkfs.btrfs", "-f"], "-L", name, device)
    ensures ArgvOf(MakeFilesystem(device, "f2fs", name)) == FsWords(["mkfs.f2fs", "-f"], "-l", name, device)
    ensures ArgvOf(MakeFilesystem(device, "exfat", name)) == FsWords(["mkfs.exfat"], "-L", name, device)
  {
    assert "mkfs." + "btrfs" == "mkfs.btrfs";
    KindWords(device, "btrfs", name, "mkfs.btrfs", ["-f"], "-L");
    assert "mkfs." + "f2fs" == "mkfs.f2fs";
    KindWords(device, "f2fs", name, "mkfs.f2fs", ["-f"], "-l");
    assert "mkfs." + "exfat" == "mkfs.exfat";
    KindWords(device, "exfat", name, "mkfs.exfat", [], "-L");
  }

  lemma ForeignMkfsWords(device: string, name: string)
    ensures ArgvOf(MakeFilesystem(device, "vfat", name)) == FsWords(["mkfs.vfat", "-F", "32"], "-n", name, device)
    ensures ArgvOf(MakeFilesystem(device, "ntfs", name)) == FsWords(["mkfs.ntfs", "-Q", "-F"], "-L", name, device)
  {
    assert "mkfs." + "vfat" == "mkfs.vfat";
    KindWords(device, "vfat", name, "mkfs.vfat", ["-F", "32"], "-n");
    assert "mkfs." + "ntfs" == "mkfs.ntfs";
    KindWords(device, "ntfs", name, "mkfs.ntfs", ["-Q", "-F"], "-L");
  }

  lemma KindWords(device: string, kind: string, name: string, program: string, flags: Argv, labelFlag: string)
    requires program == "mkfs." + kind && MkfsFlags(kind) == flags && MkfsLabelFlag(kind) == labelFlag
    ensures ArgvOf(MakeFilesystem(device, kind, name)) == FsWords([program] + flags, labelFlag, name, device)
  {
  }

  /** The other commands, word by word. */
  lemma OtherWords(device: string, path: string, name: string)
    ensures ArgvOf(WipeSignatures(device)) == ["wipefs", "-a", device]
    ensures ArgvOf(ZapTable(device)) == ["sgdisk", "--zap-all", device]
    ensures ArgvOf(ReReadTable(device)) == ["partprobe", device] && ArgvOf(SettleDevices) == ["udevadm", "settle"]
    ensures ArgvOf(MakeSwap(device, name)) == ["mkswap"] + (if name != "" then ["-L", name] else []) + [device]
    ensures ArgvOf(MakeDirectory(path)) == ["mkdir", "-p", path]
    ensures ArgvOf(MountDevice(device, path)) == ["mount", device, path] && ArgvOf(SwapOn(device)) == ["swapon", device]
  {
  }

  function Spelled(cs: seq<Command>): seq<Argv> {
    seq(|cs|, i requires 0 <= i < |cs| => ArgvOf(cs[i]))
  }

  /** What was spelled out and run determines the commands that were planned. */
  lemma SpellingIsInjective(a: seq<Command>, b: seq<Command>)
    requires forall c :: c in a || c in b ==> Spellable(c)
    ensures Spelled(a) == Spelled(b) <==> a == b
  {
    if Spelled(a) == Spelled(b) {
      assert |a| == |Spelled(a)| == |b|;
      forall i | 0 <= i < |a| ensures a[i] == b[i] {
        assert Spelled(a)[i] == Spelled(b)[i];
        ArgvReadsBack(a[i]);
        ArgvReadsBack(b[i]);
      }
    }
  }

  /** Every command of an accepted plan is one the builders let through. */
  lemma AcceptedStepsAreSpellable(plan: DiskPlan)
    requires Accepted(plan)
    ensures forall c :: c in Steps(plan) ==> Spellable(c)
  {
    assert AllAccepted(plan.partitions);
    forall c | c in FormatSteps(plan.filesystems) ensures Spellable(c) {
      var i :| 0 <= i < |plan.filesystems| && FormatSteps(plan.filesystems)[i] == c;
      assert AcceptedFilesystem(plan.filesystems[i]);
    }
  }
}
