/** Provisioning plans, their commands and the canned layouts. */
module DiskPlans {
  import opened Splitting
  import opened Characters
  import opened Texts
  import opened Fstab

  datatype Partition = Partition(number: nat, size: string, guid: string, name: string)

  /** `name` is the filesystem's own label; "" means none. */
  datatype Filesystem = Filesystem(device: string, kind: string, name: string)

  datatype DiskPlan = DiskPlan(
    disk: string, wipe: bool, partitions: seq<Partition>, filesystems: seq<Filesystem>)

  datatype Command =
    | WipeSignatures(disk: string)
    | ZapTable(disk: string)
    | CreatePartitions(disk: string, partitions: seq<Partition>)
    | ReReadTable(disk: string)
    | SettleDevices
    | MakeFilesystem(device: string, kind: string, name: string)
    | MakeSwap(device: string, name: string)
    | MakeDirectory(path: string)
    | MountDevice(device: string, path: string)
    | SwapOn(device: string)

  datatype Result<T> = Ok(value: T) | Err

  const MKFS_KINDS: set<string> := {"ext4", "ext3", "xfs", "btrfs", "f2fs", "vfat", "ntfs", "exfat"}
  const ROOT_FS_KINDS: set<string> := {"ext4", "ext3", "xfs", "btrfs", "f2fs"}

  // --- What the builders accept ---

  predicate ValidDevice(s: string) {
    && |s| <= 255 && |s| >= 6 && s[..5] == "/dev/" && IsAlnum(s[5])
    && All(s, c => IsAlnum(c) || c in {'/', '_', '-'})
  }

  predicate ValidSize(s: string) {
    s == "rest" || (s != "" && AllDigits(s)) || (|s| >= 2 && AllDigits(Front(s)) && Last(s) in {'K', 'M', 'G', 'T'})
  }

  predicate ValidGuid(s: string) {
    |s| == 4 && All(s, c => IsDigit(c) || 'A' <= c <= 'F' || 'a' <= c <= 'f')
  }

  predicate LabelChar(c: char) {
    IsAlnum(c) || c == '_' || c == '-'
  }

  predicate ValidLabel(s: string) {
    1 <= |s| <= 36 && All(s, LabelChar)
  }

  predicate AcceptedPartition(p: Partition) {
    ValidSize(p.size) && ValidGuid(p.guid) && (p.name == "" || ValidLabel(p.name))
  }

  predicate AcceptedFilesystem(f: Filesystem) {
    ValidDevice(f.device) && (f.kind == "swap" || f.kind in MKFS_KINDS) && (f.name == "" || ValidLabel(f.name))
  }

  /** No builder raises for this plan. */
  predicate Accepted(plan: DiskPlan) {
    && ValidDevice(plan.disk) && plan.partitions != []
    && (forall i :: 0 <= i < |plan.partitions| ==> AcceptedPartition(plan.partitions[i]))
    && (forall i :: 0 <= i < |plan.filesystems| ==> AcceptedFilesystem(plan.filesystems[i]))
  }

  /** What an accepted device is called: /dev/, then a letter or digit, then letters, digits,
      slashes, dashes and underscores, 255 characters in all. */
  lemma DeviceNamesAre(rest: string)
    ensures ValidDevice("/dev/" + rest) <==>
              && 1 <= |rest| <= 250 && IsAlnum(rest[0])
              && forall i :: 0 <= i < |rest| ==> IsAlnum(rest[i]) || rest[i] == '/' || rest[i] == '_' || rest[i] == '-'
  {
    var s := "/dev/" + rest;
    assert forall i :: 0 <= i < |rest| ==> s[i + 5] == rest[i];
    if |s| >= 6 {
      assert s[5] == rest[0];
    }
  }

  // --- The pipeline ---

  function FormatCommand(f: Filesystem): Command {
    if f.kind == "swap" then MakeSwap(f.device, f.name) else MakeFilesystem(f.device, f.kind, f.name)
  }

  function FormatSteps(fs: seq<Filesystem>): seq<Command> {
    seq(|fs|, i requires 0 <= i < |fs| => FormatCommand(fs[i]))
  }

  function PartitionSteps(disk: string, wipe: bool, partitions: seq<Partition>): seq<Command> {
    (if wipe then [WipeSignatures(disk), ZapTable(disk)] else [])
    + [CreatePartitions(disk, partitions), ReReadTable(disk), SettleDevices]
  }

  function Steps(plan: DiskPlan): seq<Command> {
    PartitionSteps(plan.disk, plan.wipe, plan.partitions) + FormatSteps(plan.filesystems)
  }

  /** Builds the pipeline, or reports that some builder refuses its input. */
  method PlanSteps(plan: DiskPlan) returns (r: Result<seq<Command>>)
    ensures r == if Accepted(plan) then Ok(Steps(plan)) else Err
  {
    var steps := [];
    if !ValidDevice(plan.disk) || plan.partitions == [] {
      return Err;
    }
    if plan.wipe {
      steps := steps + [WipeSignatures(plan.disk), ZapTable(plan.disk)];
    }
    for i := 0 to |plan.partitions|
      invariant forall k :: 0 <= k < i ==> AcceptedPartition(plan.partitions[k])
    {
      if !AcceptedPartition(plan.partitions[i]) {
        return Err;
      }
    }
    steps := steps + [CreatePartitions(plan.disk, plan.partitions), ReReadTable(plan.disk), SettleDevices];
    for i := 0 to |plan.filesystems|
      invariant forall k :: 0 <= k < i ==> AcceptedFilesystem(plan.filesystems[k])
      invariant steps == PartitionSteps(plan.disk, plan.wipe, plan.partitions) + FormatSteps(plan.filesystems[..i])
    {
      if !AcceptedFilesystem(plan.filesystems[i]) {
        return Err;
      }
      steps := steps + [FormatCommand(plan.filesystems[i])];
      assert FormatSteps(plan.filesystems[..i + 1])
          == FormatSteps(plan.filesystems[..i]) + [FormatCommand(plan.filesystems[i])];
    }
    assert plan.filesystems[..|plan.filesystems|] == plan.filesystems;
    return Ok(steps);
  }

  // --- Canned layouts ---

  /** The node of partition `number` (sda2, nvme0n1p2). */
  function PartitionDevice(diskName: string, number: nat): string {
    "/dev/" + diskName + (if diskName != "" && IsDigit(Last(diskName)) then "p" else "") + Digits(number)
  }

  /** One partition of a layout and what is made on it ("" for nothing). */
  datatype Slot = Slot(size: string, guid: string, name: string, kind: string)

  function SlotPartitions(slots: seq<Slot>): seq<Partition> {
    seq(|slots|, i requires 0 <= i < |slots| => Partition(i + 1, slots[i].size, slots[i].guid, slots[i].name))
  }

  function SlotFilesystems(diskName: string, slots: seq<Slot>): seq<Filesystem> {
    if slots == [] then []
    else
      var s := Last(slots);
      SlotFilesystems(diskName, Front(slots))
      + if s.kind == "" then [] else [Filesystem(PartitionDevice(diskName, |slots|), s.kind, s.name)]
  }

  /** A layout is its slots numbered from 1, each filesystem on its own slot's node. */
  function LayoutPlan(diskName: string, slots: seq<Slot>): DiskPlan {
    DiskPlan("/dev/" + diskName, true, SlotPartitions(slots), SlotFilesystems(diskName, slots))
  }

  function SystemSlots(swapSize: string, rootFs: string, rootSize: string, homeFs: Option<string>): seq<Slot> {
    (if swapSize == "" then [] else [Slot(swapSize, "8200", "swap", "swap")])
    + (if homeFs.None? then [Slot("rest", "8300", "root", rootFs)]
       else [Slot(rootSize, "8300", "root", rootFs), Slot("rest", "8302", "home", homeFs.value)])
  }

  function UefiSlots(espSize: string, swapSize: string, rootFs: string, rootSize: string,
                     homeFs: Option<string>): seq<Slot> {
    [Slot(espSize, "EF00", "ESP", "vfat")] + SystemSlots(swapSize, rootFs, rootSize, homeFs)
  }

  function BiosSlots(swapSize: string, rootFs: string, rootSize: string, homeFs: Option<string>): seq<Slot> {
    [Slot("2M", "EF02", "BIOS", "")] + SystemSlots(swapSize, rootFs, rootSize, homeFs)
  }

  /** Root and /home must be bootable kinds, and only one of them can take the rest. */
  predicate RootChoiceOk(rootFs: string, rootSize: string, homeFs: Option<string>) {
    rootFs in ROOT_FS_KINDS && (homeFs.Some? ==> homeFs.value in ROOT_FS_KINDS && rootSize != "rest")
  }

  /** The lists and the running partition number a layout is assembled with. */
  class LayoutBuilder {
    const diskName: string
    var partitions: seq<Partition>
    var filesystems: seq<Filesystem>
    var number: nat
    ghost var slots: seq<Slot>

    ghost predicate Valid()
      reads this
    {
      && number == |slots| + 1
      && partitions == SlotPartitions(slots)
      && filesystems == SlotFilesystems(diskName, slots)
    }

    constructor (diskName: string)
      ensures Valid() && slots == [] && this.diskName == diskName
    {
      this.diskName := diskName;
      partitions, filesystems, number, slots := [], [], 1, [];
    }

    method Append(size: string, guid: string, name: string, kind: string)
      requires Valid()
      modifies this
      ensures Valid() && slots == old(slots) + [Slot(size, guid, name, kind)]
    {
      partitions := partitions + [Partition(number, size, guid, name)];
      if kind != "" {
        filesystems := filesystems + [Filesystem(PartitionDevice(diskName, number), kind, name)];
      }
      number := number + 1;
      slots := slots + [Slot(size, guid, name, kind)];
    }

    method AppendSystem(swapSize: string, rootFs: string, rootSize: string, homeFs: Option<string>)
      requires Valid()
      modifies this
      ensures Valid() && slots == old(slots) + SystemSlots(swapSize, rootFs, rootSize, homeFs)
    {
      if swapSize != "" {
        Append(swapSize, "8200", "swap", "swap");
      }
      Append(if homeFs.Some? then rootSize else "rest", "8300", "root", rootFs);
      if homeFs.Some? {
        Append("rest", "8302", "home", homeFs.value);
      }
    }
  }

  method UefiPlan(diskName: string, espSize: string, swapSize: string, rootFs: string, rootSize: string,
                  homeFs: Option<string>) returns (r: Result<DiskPlan>)
    ensures var plan := LayoutPlan(diskName, UefiSlots(espSize, swapSize, rootFs, rootSize, homeFs));
            r == if RootChoiceOk(rootFs, rootSize, homeFs) && Accepted(plan) then Ok(plan) else Err
  {
    if !RootChoiceOk(rootFs, rootSize, homeFs) {
      return Err;
    }
    var b := new LayoutBuilder(diskName);
    b.Append(espSize, "EF00", "ESP", "vfat");
    b.AppendSystem(swapSize, rootFs, rootSize, homeFs);
    var plan := DiskPlan("/dev/" + diskName, true, b.partitions, b.filesystems);
    assert b.slots == UefiSlots(espSize, swapSize, rootFs, rootSize, homeFs);
    var steps := PlanSteps(plan);
    return if steps.Ok? then Ok(plan) else Err;
  }

  method BiosPlan(diskName: string, swapSize: string, rootFs: string, rootSize: string,
                  homeFs: Option<string>) returns (r: Result<DiskPlan>)
    ensures var plan := LayoutPlan(diskName, BiosSlots(swapSize, rootFs, rootSize, homeFs));
            r == if RootChoiceOk(rootFs, rootSize, homeFs) && Accepted(plan) then Ok(plan) else Err
  {
    if !RootChoiceOk(rootFs, rootSize, homeFs) {
      return Err;
    }
    var b := new LayoutBuilder(diskName);
    b.Append("2M", "EF02", "BIOS", "");
    b.AppendSystem(swapSize, rootFs, rootSize, homeFs);
    var plan := DiskPlan("/dev/" + diskName, true, b.partitions, b.filesystems);
    assert b.slots == BiosSlots(swapSize, rootFs, rootSize, homeFs);
    var steps := PlanSteps(plan);
    return if steps.Ok? then Ok(plan) else Err;
  }

  // --- What a layout looks like ---

  /** The GPT type code of what a partition is for. */
  function TypeCode(role: string): string {
    if role == "ESP" then "EF00"
    else if role == "BIOS" then "EF02"
    else if role == "swap" then "8200"
    else if role == "home" then "8302"
    else "8300"
  }

  /** Every partition has the type of its role; the ESP is FAT, the BIOS boot partition holds
      nothing, swap is swap, and only root and home hold the chosen file systems. */
  predicate Typed(s: Slot, rootFs: string, homeFs: Option<string>) {
    && s.guid == TypeCode(s.name)
    && (s.name == "ESP" ==> s.kind == "vfat")
    && (s.name == "BIOS" ==> s.kind == "" && s.size == "2M")
    && (s.name == "swap" ==> s.kind == "swap")
    && (s.name == "root" ==> s.kind == rootFs)
    && (s.name == "home" ==> homeFs == Some(s.kind))
  }

  function Roles(slots: seq<Slot>): seq<string> {
    seq(|slots|, i requires 0 <= i < |slots| => slots[i].name)
  }

  function Sizes(slots: seq<Slot>): seq<string> {
    seq(|slots|, i requires 0 <= i < |slots| => slots[i].size)
  }

  /** Which partitions a layout has, in order, and how large: swap if a size was given, then
      root, taking the rest unless there is a home, which then takes it. */
  lemma SystemSlotsAre(swapSize: string, rootFs: string, rootSize: string, homeFs: Option<string>)
    ensures var slots := SystemSlots(swapSize, rootFs, rootSize, homeFs);
            && Roles(slots) == (if swapSize == "" then [] else ["swap"]) +
                (if homeFs.None? then ["root"] else ["root", "home"])
            && Sizes(slots) == (if swapSize == "" then [] else [swapSize])
                               + (if homeFs.None? then ["rest"] else [rootSize, "rest"])
            && forall i :: 0 <= i < |slots| ==> Typed(slots[i], rootFs, homeFs)
  {
  }

  lemma LayoutsAre(espSize: string, swapSize: string, rootFs: string, rootSize: string, homeFs: Option<string>)
    ensures var uefi, bios, system := UefiSlots(espSize, swapSize, rootFs, rootSize, homeFs),
                                      BiosSlots(swapSize, rootFs, rootSize, homeFs),
                                      SystemSlots(swapSize, rootFs, rootSize, homeFs);
            && Roles(uefi) == ["ESP"] + Roles(system) && Sizes(uefi) == [espSize] + Sizes(system)
            && Roles(bios) == ["BIOS"] + Roles(system) && Sizes(bios) == ["2M"] + Sizes(system)
            && (forall i :: 0 <= i < |uefi| ==> Typed(uefi[i], rootFs, homeFs))
            && (forall i :: 0 <= i < |bios| ==> Typed(bios[i], rootFs, homeFs))
  {
    var system := SystemSlots(swapSize, rootFs, rootSize, homeFs);
    SystemSlotsAre(swapSize, rootFs, rootSize, homeFs);
    var esp, boot := Slot(espSize, "EF00", "ESP", "vfat"), Slot("2M", "EF02", "BIOS", "");
    InFront(esp, system);
    InFront(boot, system);
    assert Typed(esp, rootFs, homeFs) && Typed(boot, rootFs, homeFs);
  }

  lemma InFront(first: Slot, slots: seq<Slot>)
    ensures Roles([first] + slots) == [first.name] + Roles(slots)
    ensures Sizes([first] + slots) == [first.size] + Sizes(slots)
    ensures ([first] + slots)[0] == first && forall i :: 1 <= i <= |slots| ==> ([first] + slots)[i] == slots[i - 1]
  {
  }

  /** The commands of a plan, by place: signatures and table wiped if asked for, one creation
      with the very partitions, the table read again, devices awaited; then each file system
      in order, swap with mkswap, with its own device, kind and label. */
  lemma StepsAre(plan: DiskPlan)
    ensures var steps, first := Steps(plan), if plan.wipe then 2 else 0;
            && |steps| == first + 3 + |plan.filesystems|
            && (plan.wipe ==> steps[0] == WipeSignatures(plan.disk) && steps[1] == ZapTable(plan.disk))
            && steps[first] == CreatePartitions(plan.disk, plan.partitions)
            && steps[first + 1] == ReReadTable(plan.disk) && steps[first + 2] == SettleDevices
            && forall i :: 0 <= i < |plan.filesystems| ==>
                 var f := plan.filesystems[i];
                 steps[first + 3 + i] == if f.kind == "swap" then MakeSwap(f.device, f.name)
                                         else MakeFilesystem(f.device, f.kind, f.name)
  {
  }

  // --- Names of partition nodes ---

  /** Different partitions of a disk have different nodes. */
  lemma PartitionDeviceInjective(diskName: string, a: nat, b: nat)
    requires PartitionDevice(diskName, a) == PartitionDevice(diskName, b)
    ensures a == b
  {
    var stem := "/dev/" + diskName + (if diskName != "" && IsDigit(Last(diskName)) then "p" else "");
    assert PartitionDevice(diskName, a)[|stem|..] == Digits(a);
    assert PartitionDevice(diskName, b)[|stem|..] == Digits(b);
    DigitsInjective(a, b);
  }

  /** A source is on the disk when its name begins with the disk's. */
  predicate Touches(source: string, disk: string) {
    source == disk || disk <= source
  }

  lemma PartitionTouchesDisk(diskName: string, number: nat)
    ensures Touches(PartitionDevice(diskName, number), "/dev/" + diskName)
    ensures PartitionDevice(diskName, number) != "/dev/" + diskName
  {
    var disk := "/dev/" + diskName;
    var sep := if diskName != "" && IsDigit(Last(diskName)) then "p" else "";
    assert PartitionDevice(diskName, number) == disk + (sep + Digits(number));
    assert |PartitionDevice(diskName, number)| > |disk|;
  }
}
