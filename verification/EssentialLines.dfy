/** The fstab's essential lines. */
module EssentialLines {
  import opened Splitting
  import opened Characters
  import opened Texts
  import opened Fstab
  import opened FstabService

  // What the fstab service does to the lines that name an essential mount. The guard looks at
  // parsed entries, which have at least four fields; the edits match every line with two.

  // --- Lines ---

  /** A data line for an essential mount point or, as far as it names a type, for a swap. */
  predicate EssentialLine(line: string) {
    var f := Fields(line);
    |f| >= 2 && (f[1] in PROTECTED_MOUNTS || (|f| >= 3 && f[2] == "swap"))
  }

  predicate EssentialFor(line: string, mountpoint: string) {
    EssentialLine(line) && MountpointOf(line) == Some(mountpoint)
  }

  /** Too short to be parsed as an entry. */
  predicate Short(line: string) {
    |Fields(line)| < 4
  }

  /** The essential lines, in order. */
  function EssentialLines(lines: seq<string>): seq<string> {
    if lines == [] then []
    else (if EssentialLine(lines[0]) then [lines[0]] else []) + EssentialLines(lines[1..])
  }

  function EssentialLinesOf(files: Files): seq<string> {
    if files.fstab.Some? then EssentialLines(LinesOf(files.fstab.value)) else []
  }

  predicate SameOrFewer(now: seq<string>, before: seq<string>) {
    now == before || |now| < |before|
  }

  lemma {:induction false} EssentialLinesAppend(a: seq<string>, b: seq<string>)
    ensures EssentialLines(a + b) == EssentialLines(a) + EssentialLines(b)
  {
    if a == [] {
      assert a + b == b;
    } else {
      assert (a + b)[1..] == a[1..] + b;
      EssentialLinesAppend(a[1..], b);
      Assoc(if EssentialLine(a[0]) then [a[0]] else [], EssentialLines(a[1..]), EssentialLines(b));
    }
  }

  lemma EssentialSingle(line: string)
    ensures EssentialLines([line]) == if EssentialLine(line) then [line] else []
  {
    assert [line][1..] == [];
  }

  lemma EssentialAround(lines: seq<string>, i: nat)
    requires i < |lines|
    ensures EssentialLines(lines)
         == EssentialLines(lines[..i]) + (if EssentialLine(lines[i]) then [lines[i]] else [])
            + EssentialLines(lines[i + 1..])
  {
    Around(lines, i);
    EssentialLinesAppend(lines[..i] + [lines[i]], lines[i + 1..]);
    EssentialLinesAppend(lines[..i], [lines[i]]);
    EssentialSingle(lines[i]);
  }

  lemma {:induction false} EssentialLinesAre(lines: seq<string>, line: string)
    ensures line in EssentialLines(lines) <==> line in lines && EssentialLine(line)
  {
    if lines != [] {
      EssentialLinesAre(lines[1..], line);
    }
  }

  // --- The guard ---

  /** Some line of the mount point is essential and long enough to be seen. */
  predicate ShowsGuard(lines: seq<string>, mountpoint: string) {
    exists l :: l in lines && EssentialFor(l, mountpoint) && !Short(l)
  }

  /** The guard fires exactly when it can see an essential line of the mount point. */
  lemma {:induction false} GuardedIff(lines: seq<string>, mountpoint: string)
    ensures GuardedIn(ParseLines(lines), mountpoint) <==> ShowsGuard(lines, mountpoint)
  {
    if lines != [] {
      var first, rest := lines[0], lines[1..];
      GuardedIff(rest, mountpoint);
      if ParseLine(first).Some? {
        assert ParseLines(lines)[1..] == ParseLines(rest);
      }
      assert first in lines && forall l :: l in lines <==> l == first || l in rest;
      assert ParseLine(first).Some? ==>
          (Offends(ParseLine(first).value, mountpoint) <==> EssentialFor(first, mountpoint) && !Short(first));
    }
  }

  // --- The edits ---

  predicate OverlooksOnRemoval(lines: seq<string>, mountpoint: string) {
    exists l :: l in lines && EssentialFor(l, mountpoint) && Short(l)
  }

  /** A removal the guard lets through keeps the essential lines, in order, if and only if the
      mount point has no essential line of fewer than four fields. */
  lemma {:induction false} RemovalKeepsLinesIff(lines: seq<string>, mountpoint: string)
    requires !GuardedIn(ParseLines(lines), mountpoint)
    ensures EssentialLines(Others(lines, mountpoint)) == EssentialLines(lines) <==>
            !OverlooksOnRemoval(lines, mountpoint)
    ensures SameOrFewer(EssentialLines(Others(lines, mountpoint)), EssentialLines(lines))
  {
    GuardedIff(lines, mountpoint);
    RemovalDrops(lines, mountpoint);
  }

  lemma {:induction false} RemovalDrops(lines: seq<string>, mountpoint: string)
    ensures EssentialLines(Others(lines, mountpoint)) == EssentialLines(lines) <==>
              forall l :: l in lines ==> !EssentialFor(l, mountpoint)
    ensures SameOrFewer(EssentialLines(Others(lines, mountpoint)), EssentialLines(lines))
  {
    if lines != [] {
      var first, rest := lines[0], lines[1..];
      RemovalDrops(rest, mountpoint);
      assert forall l :: l in lines <==> l == first || l in rest;
      if MountpointOf(first) == Some(mountpoint) {
        assert Others(lines, mountpoint) == Others(rest, mountpoint);
        assert EssentialLine(first) ==> first in lines && EssentialFor(first, mountpoint);
        assert [] + EssentialLines(rest) == EssentialLines(rest);
      } else {
        assert Others(lines, mountpoint) == [first] + Others(rest, mountpoint);
        assert ([first] + Others(rest, mountpoint))[1..] == Others(rest, mountpoint);
        KeepsHead(first, Others(rest, mountpoint), rest);
      }
    }
  }

  lemma KeepsHead(first: string, a: seq<string>, b: seq<string>)
    ensures EssentialLines([first] + a) == EssentialLines([first] + b) <==> EssentialLines(a) == EssentialLines(b)
    ensures |EssentialLines([first] + a)| - |EssentialLines([first] + b)| == |EssentialLines(a)| - |EssentialLines(b)|
  {
    var head := if EssentialLine(first) then [first] else [];
    assert ([first] + a)[1..] == a && ([first] + b)[1..] == b;
    assert (head + EssentialLines(a))[|head|..] == EssentialLines(a);
    assert (head + EssentialLines(b))[|head|..] == EssentialLines(b);
  }

  predicate OverlooksOnWrite(lines: seq<string>, mountpoint: string) {
    var i := FirstFor(lines, mountpoint);
    i < |lines| && EssentialLine(lines[i]) && Short(lines[i])
  }

  /** The line written for an acceptable entry is not essential. */
  lemma RenderedIsNotEssential(e: Entry)
    requires ValidEntry(e) && !IsProtected(e)
    ensures !EssentialLine(RenderEntry(e))
  {
    FieldsOfRendered(e);
  }

  /** A write the guard lets through keeps the essential lines, in order, if and only if the
      line it overwrites is not an essential one of fewer than four fields. */
  lemma WriteKeepsLinesIff(lines: seq<string>, e: Entry)
    requires ValidEntry(e) && !IsProtected(e) && !GuardedIn(ParseLines(lines), e.mountpoint)
    ensures EssentialLines(UpsertLines(lines, e)) == EssentialLines(lines) <==> !OverlooksOnWrite(lines, e.mountpoint)
    ensures SameOrFewer(EssentialLines(UpsertLines(lines, e)), EssentialLines(lines))
  {
    GuardedIff(lines, e.mountpoint);
    RenderedIsNotEssential(e);
    var i, edited := FirstFor(lines, e.mountpoint), UpsertLines(lines, e);
    if i < |lines| {
      assert edited[..i] == lines[..i] && edited[i + 1..] == lines[i + 1..];
      EssentialAround(lines, i);
      EssentialAround(edited, i);
      assert EssentialLine(lines[i]) ==> EssentialFor(lines[i], e.mountpoint) && lines[i] in lines;
    } else {
      EssentialLinesAppend(lines, [RenderEntry(e)]);
      EssentialSingle(RenderEntry(e));
      assert EssentialLines(lines) + [] == EssentialLines(lines);
    }
  }

  // --- One call ---

  function Target(r: Request): string {
    match r
    case WriteEntry(e, _) => e.mountpoint
    case RemoveEntry(mountpoint, _) => mountpoint
  }

  predicate Overlooks(lines: seq<string>, r: Request) {
    if r.WriteEntry? then OverlooksOnWrite(lines, Target(r)) else OverlooksOnRemoval(lines, Target(r))
  }

  /** The call loses an essential line: nothing refuses it or stops it, and either it is blind,
      or the line it hits is too short for the guard to see. */
  predicate Loses(files: Files, r: Request) {
    && EssentialLinesOf(files) != []
    && Acceptable(r) && r.weather.copyable && r.weather.writable
    && (r.weather.readable ==> !Guarded(files.fstab.value, Target(r)) && Overlooks(LinesOf(files.fstab.value), r))
  }

  function Edited(text: string, r: Request): string {
    if r.WriteEntry? then Upserted(text, r.entry) else Removed(text, r.mountpoint)
  }

  lemma LinesOfRemoved(text: string, mountpoint: string)
    ensures EssentialLines(LinesOf(Removed(text, mountpoint))) == EssentialLines(Others(LinesOf(text), mountpoint))
  {
    LinesAreFree(text);
    OthersAreFree(LinesOf(text), mountpoint);
    LinesOfRejoined(Others(LinesOf(text), mountpoint));
    EssentialSingle("");
  }

  lemma EditKeepsLinesIff(text: string, r: Request)
    requires Acceptable(r) && !Guarded(text, Target(r))
    ensures EssentialLines(LinesOf(Edited(text, r))) == EssentialLines(LinesOf(text)) <==> !Overlooks(LinesOf(text), r)
    ensures SameOrFewer(EssentialLines(LinesOf(Edited(text, r))), EssentialLines(LinesOf(text)))
  {
    match r {
      case WriteEntry(e, _) =>
        LinesOfUpserted(text, e);
        WriteKeepsLinesIff(LinesOf(text), e);
      case RemoveEntry(mountpoint, _) =>
        LinesOfRemoved(text, mountpoint);
        RemovalKeepsLinesIff(LinesOf(text), mountpoint);
    }
  }

  lemma NoLinesInEmptyText()
    ensures LinesOf("") == [] && Parsed("") == []
  {
    assert Split("", '\n') == [[]];
  }

  lemma DoneKeepsLinesIff(files: Files, r: Request)
    requires Handle(files, r).1 == Done
    ensures EssentialLinesOf(Handle(files, r).0) == EssentialLinesOf(files) <==> !Loses(files, r)
    ensures SameOrFewer(EssentialLinesOf(Handle(files, r).0), EssentialLinesOf(files))
  {
    var text := ReadText(files, r.weather);
    NoLinesInEmptyText();
    EditKeepsLinesIff(text, r);
    if Overlooks(LinesOf(text), r) {
      var _ := OverlookedLine(LinesOf(text), r);
    }
  }

  lemma NotDoneLosesNothing(files: Files, r: Request)
    requires Handle(files, r).1 != Done
    ensures Handle(files, r).0.fstab == files.fstab && !Loses(files, r)
  {
    NoLinesInEmptyText();
  }

  /** For every content of the file, every request and every weather: the essential lines stay
      exactly as they were if and only if the call does not lose one; there are never more. */
  lemma {:induction false} CallKeepsLinesIff(files: Files, r: Request)
    ensures EssentialLinesOf(Handle(files, r).0) == EssentialLinesOf(files) <==> !Loses(files, r)
    ensures SameOrFewer(EssentialLinesOf(Handle(files, r).0), EssentialLinesOf(files))
  {
    if Handle(files, r).1 == Done {
      DoneKeepsLinesIff(files, r);
    } else {
      NotDoneLosesNothing(files, r);
    }
  }

  lemma OverlookedLine(lines: seq<string>, r: Request) returns (line: string)
    requires Overlooks(lines, r)
    ensures line in lines && EssentialFor(line, Target(r)) && Short(line)
    ensures EssentialLines(lines) != []
  {
    if r.WriteEntry? {
      line := lines[FirstFor(lines, Target(r))];
    } else {
      line :| line in lines && EssentialFor(line, Target(r)) && Short(line);
    }
    EssentialLinesAre(lines, line);
  }

  // --- Any sequence of calls ---

  predicate NeverLoses(files: Files, rs: seq<Request>)
    decreases rs
  {
    rs == [] || (!Loses(files, rs[0]) && NeverLoses(Handle(files, rs[0]).0, rs[1..]))
  }

  /** Over any sequence of calls the essential lines end as they began if and only if no call
      of it loses one: none ever comes back. */
  lemma {:induction false} CallsKeepLinesIff(files: Files, rs: seq<Request>)
    ensures EssentialLinesOf(HandleAll(files, rs)) == EssentialLinesOf(files) <==> NeverLoses(files, rs)
    ensures SameOrFewer(EssentialLinesOf(HandleAll(files, rs)), EssentialLinesOf(files))
    decreases rs
  {
    if rs != [] {
      CallKeepsLinesIff(files, rs[0]);
      CallsKeepLinesIff(Handle(files, rs[0]).0, rs[1..]);
    }
  }

  // --- Which files are safe ---

  /** Every essential line is visible to the guard, or shares its mount point with one that is,
      or names something that is not a mount point for the service. */
  predicate AllSeen(lines: seq<string>) {
    forall l :: l in lines && EssentialLine(l) && Short(l) ==>
      ShowsGuard(lines, MountpointOf(l).value) || !ValidMountpoint(MountpointOf(l).value)
  }

  predicate AllReadable(rs: seq<Request>) {
    forall i :: 0 <= i < |rs| ==> rs[i].weather.readable
  }

  /** What the guard sees depends on the essential lines only. */
  lemma SeenAmongEssential(lines: seq<string>, mountpoint: string)
    ensures ShowsGuard(EssentialLines(lines), mountpoint) <==> ShowsGuard(lines, mountpoint)
  {
    forall l ensures l in EssentialLines(lines) <==> l in lines && EssentialLine(l) {
      EssentialLinesAre(lines, l);
    }
  }

  lemma UnseenIsLost(files: Files, r: Request)
    requires Loses(files, r) && r.weather.readable
    ensures !AllSeen(EssentialLinesOf(files))
  {
    var lines := LinesOf(files.fstab.value);
    var line := OverlookedLine(lines, r);
    EssentialLinesAre(lines, line);
    SeenAmongEssential(lines, Target(r));
    GuardedIff(lines, Target(r));
  }

  lemma {:induction false} SeenIsKept(files: Files, rs: seq<Request>)
    requires AllReadable(rs) && AllSeen(EssentialLinesOf(files))
    ensures NeverLoses(files, rs)
    decreases rs
  {
    if rs != [] {
      if Loses(files, rs[0]) {
        UnseenIsLost(files, rs[0]);
      }
      CallKeepsLinesIff(files, rs[0]);
      SeenIsKept(Handle(files, rs[0]).0, rs[1..]);
    }
  }

  /** The removal that loses a line the guard does not see. */
  lemma UnseenCanBeLost(files: Files, line: string)
    requires line in EssentialLinesOf(files) && Short(line)
    requires EssentialLine(line) && ValidMountpoint(MountpointOf(line).value)
    requires !ShowsGuard(EssentialLinesOf(files), MountpointOf(line).value)
    ensures Loses(files, RemoveEntry(MountpointOf(line).value, Weather(true, true, true)))
  {
    var lines, mountpoint := LinesOf(files.fstab.value), MountpointOf(line).value;
    EssentialLinesAre(lines, line);
    SeenAmongEssential(lines, mountpoint);
    GuardedIff(lines, mountpoint);
  }

  /** While the file can be read, no sequence of calls whatever changes its essential lines if
      and only if each of them is seen by the guard, shares its mount point with one that is, or
      has none the service would accept. */
  lemma ReadableFileIsSafeIff(files: Files)
    ensures (forall rs :: AllReadable(rs) ==> EssentialLinesOf(HandleAll(files, rs)) == EssentialLinesOf(files)) <==>
              AllSeen(EssentialLinesOf(files))
  {
    var essential := EssentialLinesOf(files);
    if AllSeen(essential) {
      forall rs | AllReadable(rs) ensures EssentialLinesOf(HandleAll(files, rs)) == essential {
        SeenIsKept(files, rs);
        CallsKeepLinesIff(files, rs);
      }
    } else {
      var l :| l in essential && EssentialLine(l) && Short(l)
               && !ShowsGuard(essential, MountpointOf(l).value) && ValidMountpoint(MountpointOf(l).value);
      var r := RemoveEntry(MountpointOf(l).value, Weather(true, true, true));
      UnseenCanBeLost(files, l);
      assert !NeverLoses(files, [r]);
      CallsKeepLinesIff(files, [r]);
      assert AllReadable([r]);
    }
  }

  // --- The named case ---

  function ThreeFields(spec: string, mountpoint: string, fstype: string): string {
    spec + " " + (mountpoint + " " + fstype)
  }

  lemma ThreeFieldLine(spec: string, mountpoint: string, fstype: string)
    requires IsWord(spec) && IsWord(mountpoint) && IsWord(fstype) && spec[0] != '#' && mountpoint in PROTECTED_MOUNTS
    ensures var line := ThreeFields(spec, mountpoint, fstype);
            EssentialFor(line, mountpoint) && Short(line)
  {
    TwoWords(mountpoint, fstype);
    NextWord(spec, ' ', mountpoint + " " + fstype, [mountpoint, fstype]);
    assert Words(ThreeFields(spec, mountpoint, fstype)) == [spec, mountpoint, fstype];
  }

  lemma ThreeFieldsAreOneLine(spec: string, mountpoint: string, fstype: string)
    requires IsWord(spec) && IsWord(mountpoint) && IsWord(fstype)
    ensures '\n' !in ThreeFields(spec, mountpoint, fstype)
  {
    WordIsFree(spec);
    WordIsFree(mountpoint);
    WordIsFree(fstype);
  }

  lemma WordIsFree(w: string)
    requires IsWord(w)
    ensures '\n' !in w
  {
    assert IsSpace('\n');
  }

  lemma OneLineFile(line: string)
    requires '\n' !in line
    ensures LinesOf(line + "\n") == [line]
  {
    assert Join([line], '\n') == line;
    LinesOfTerminated([line]);
  }

  /** A readable file whose only line is a short one for an essential mount point: removing
      that mount point is done, and the file is empty. */
  lemma ShortLineIsRemoved(line: string, mountpoint: string)
    requires '\n' !in line && EssentialFor(line, mountpoint) && Short(line) && ValidMountpoint(mountpoint)
    ensures var files := Files(Some(line + "\n"), None);
            && EssentialLinesOf(files) == [line]
            && Handle(files, RemoveEntry(mountpoint, Weather(true, true, true))) == (Files(Some(""), files.fstab), Done)
  {
    OneLineFile(line);
    EssentialSingle(line);
    OthersSingle(line, mountpoint);
    ParseLinesSingle(line);
  }

  lemma RootLine(spec: string, mountpoint: string, fstype: string) returns (line: string)
    requires spec == "/dev/sda2" && mountpoint == "/" && fstype == "ext4"
    ensures line == ThreeFields(spec, mountpoint, fstype) == "/dev/sda2 / ext4"
  {
    line := ThreeFields(spec, mountpoint, fstype);
  }

  /** In particular the root line of a readable fstab, when it has three fields. */
  lemma ShortRootLineIsRemoved() returns (files: Files)
    ensures files == Files(Some("/dev/sda2 / ext4" + "\n"), None)
    ensures EssentialLinesOf(files) == ["/dev/sda2 / ext4"]
    ensures Handle(files, RemoveEntry("/", Weather(true, true, true))) == (Files(Some(""), files.fstab), Done)
  {
    var spec, mountpoint, fstype := "/dev/sda2", "/", "ext4";
    ThreeFieldLine(spec, mountpoint, fstype);
    ThreeFieldsAreOneLine(spec, mountpoint, fstype);
    var line := RootLine(spec, mountpoint, fstype);
    ShortLineIsRemoved(line, mountpoint);
    files := Files(Some(line + "\n"), None);
  }
}
