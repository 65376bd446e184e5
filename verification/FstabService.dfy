/** The privileged editor of the live /etc/fstab: guard, back up, replace. */
module FstabService {
  import opened Splitting
  import opened Fstab

  /** The two files the service owns; None is a file that does not exist. */
  datatype Files = Files(fstab: Option<string>, backup: Option<string>)

  /** What the file system answers during one call: whether reading fstab, copying it to
      the backup and replacing it succeed. */
  datatype Weather = Weather(readable: bool, copyable: bool, writable: bool)

  datatype Request =
    | WriteEntry(entry: Entry, weather: Weather)
    | RemoveEntry(mountpoint: string, weather: Weather)

  datatype Reply = Done | Refused | Failed

  /** A read that fails counts as an empty file. */
  function ReadText(files: Files, weather: Weather): string {
    if files.fstab.Some? && weather.readable then files.fstab.value else ""
  }

  /** A protected mount point may not be edited. */
  predicate GuardedIn(entries: seq<Entry>, mountpoint: string) {
    entries != [] && (Offends(entries[0], mountpoint) || GuardedIn(entries[1..], mountpoint))
  }

  predicate Offends(e: Entry, mountpoint: string) {
    e.mountpoint == mountpoint && IsProtected(e)
  }

  predicate Guarded(text: string, mountpoint: string) {
    GuardedIn(Parsed(text), mountpoint)
  }

  /** Back up an existing file, then replace it in one step. */
  function Replace(files: Files, text: string, weather: Weather): (Files, Reply) {
    if files.fstab.Some? && !weather.copyable then (files, Failed)
    else
      var backed := if files.fstab.Some? then files.(backup := files.fstab) else files;
      if weather.writable then (backed.(fstab := Some(text)), Done) else (backed, Failed)
  }

  function Handle(files: Files, r: Request): (Files, Reply) {
    match r
    case WriteEntry(e, weather) =>
      var text := ReadText(files, weather);
      if !ValidEntry(e) || IsProtected(e) || Guarded(text, e.mountpoint) then (files, Refused)
      else Replace(files, Upserted(text, e), weather)
    case RemoveEntry(mountpoint, weather) =>
      var text := ReadText(files, weather);
      if !ValidMountpoint(mountpoint) || Guarded(text, mountpoint) then (files, Refused)
      else Replace(files, Removed(text, mountpoint), weather)
  }

  function HandleAll(files: Files, rs: seq<Request>): Files
    decreases rs
  {
    if rs == [] then files else HandleAll(Handle(files, rs[0]).0, rs[1..])
  }

  // --- The service object ---

  class DiskService {
    var files: Files

    constructor (files: Files)
      ensures this.files == files
    {
      this.files := files;
    }

    method GuardNotProtected(mountpoint: string, text: string) returns (refused: bool)
      ensures refused <==> Guarded(text, mountpoint)
    {
      var entries := ParseFstab(text);
      for i := 0 to |entries|
        invariant GuardedIn(entries, mountpoint) == GuardedIn(entries[i..], mountpoint)
      {
        assert entries[i..][1..] == entries[i + 1..];
        if Offends(entries[i], mountpoint) {
          return true;
        }
      }
      return false;
    }

    method BackUpAndReplace(text: string, weather: Weather) returns (reply: Reply)
      modifies this
      ensures (files, reply) == Replace(old(files), text, weather)
    {
      if files.fstab.Some? {
        if !weather.copyable {
          return Failed;
        }
        files := files.(backup := files.fstab);
      }
      if !weather.writable {
        return Failed;
      }
      files := files.(fstab := Some(text));
      return Done;
    }

    method WriteFstab(e: Entry, weather: Weather) returns (reply: Reply)
      modifies this
      ensures (files, reply) == Handle(old(files), WriteEntry(e, weather))
    {
      if !ValidEntry(e) || IsProtected(e) {
        return Refused;
      }
      var text := ReadText(files, weather);
      var refused := GuardNotProtected(e.mountpoint, text);
      if refused {
        return Refused;
      }
      var edited := UpsertEntry(text, e);
      reply := BackUpAndReplace(edited, weather);
    }

    method RemoveFstab(mountpoint: string, weather: Weather) returns (reply: Reply)
      modifies this
      ensures (files, reply) == Handle(old(files), RemoveEntry(mountpoint, weather))
    {
      if !ValidMountpoint(mountpoint) {
        return Refused;
      }
      var text := ReadText(files, weather);
      var refused := GuardNotProtected(mountpoint, text);
      if refused {
        return Refused;
      }
      reply := BackUpAndReplace(Removed(text, mountpoint), weather);
    }
  }

  // --- What a call does ---

  /** What each answer means, from the file and the weather alone. A refused or failed call
      leaves fstab as it is. A call is refused exactly if its own argument is not acceptable or
      the file, as far as it can be read, protects the mount point, and fails exactly if it is
      not refused but an existing file cannot be copied or the file cannot be replaced. A write
      that is done leaves the new entry in the file, a removal none of that mount point, both
      every other entry that was read, in order; and what was there before is in the backup. */
  lemma CallOutcome(files: Files, r: Request)
    ensures var (after, reply) := Handle(files, r);
            var text := if files.fstab.Some? && r.weather.readable then files.fstab.value else "";
            var mountpoint := if r.WriteEntry? then r.entry.mountpoint else r.mountpoint;
            var acceptable := if r.WriteEntry? then ValidEntry(r.entry) && !IsProtected(r.entry)
                              else ValidMountpoint(mountpoint);
            && (reply == Refused <==> !acceptable || GuardedIn(Parsed(text), mountpoint))
            && (reply == Failed ==> (files.fstab.Some? && !r.weather.copyable) || !r.weather.writable)
            && (reply == Done ==> r.weather.writable && (files.fstab.Some? ==> r.weather.copyable))
            && (reply != Done ==> after.fstab == files.fstab)
            && (reply == Done ==> after.fstab.Some? && Elsewhere(Parsed(after.fstab.value), mountpoint)
                                                      == Elsewhere(Parsed(text), mountpoint))
            && (reply == Done && r.WriteEntry? ==> Marked(r.entry) in Parsed(after.fstab.value))
            && (reply == Done && r.RemoveEntry? ==>
                  Parsed(after.fstab.value) == Elsewhere(Parsed(after.fstab.value), mountpoint))
            && after.backup == (if reply != Refused && files.fstab.Some? && r.weather.copyable then files.fstab
                                else files.backup)
  {
    var text := ReadText(files, r.weather);
    match r {
      case WriteEntry(e, _) =>
        if ValidEntry(e) {
          UpsertedParses(text, e);
        }
      case RemoveEntry(mountpoint, _) =>
        RemovedParses(text, mountpoint);
        ElsewhereTwice(Parsed(text), mountpoint);
    }
  }

  lemma {:induction false} ElsewhereTwice(entries: seq<Entry>, mountpoint: string)
    ensures Elsewhere(Elsewhere(entries, mountpoint), mountpoint) == Elsewhere(entries, mountpoint)
  {
    if entries != [] {
      ElsewhereTwice(entries[1..], mountpoint);
      var rest := Elsewhere(entries[1..], mountpoint);
      assert ([entries[0]] + rest)[1..] == rest;
      assert [] + rest == rest;
    }
  }

  // --- The protected entries ---

  function ProtectedOnly(entries: seq<Entry>): seq<Entry> {
    if entries == [] then []
    else (if IsProtected(entries[0]) then [entries[0]] else []) + ProtectedOnly(entries[1..])
  }

  /** The essential entries the file parses to, in order. */
  function Essential(files: Files): seq<Entry> {
    if files.fstab.Some? then ProtectedOnly(Parsed(files.fstab.value)) else []
  }

  lemma {:induction false} ProtectedOnlyAppend(a: seq<Entry>, b: seq<Entry>)
    ensures ProtectedOnly(a + b) == ProtectedOnly(a) + ProtectedOnly(b)
  {
    if a == [] {
      assert a + b == b;
    } else {
      assert (a + b)[1..] == a[1..] + b;
      ProtectedOnlyAppend(a[1..], b);
      Assoc(if IsProtected(a[0]) then [a[0]] else [], ProtectedOnly(a[1..]), ProtectedOnly(b));
    }
  }

  lemma {:induction false} ProtectedElsewhere(entries: seq<Entry>, mountpoint: string)
    requires !GuardedIn(entries, mountpoint)
    ensures ProtectedOnly(Elsewhere(entries, mountpoint)) == ProtectedOnly(entries)
  {
    if entries != [] {
      ProtectedElsewhere(entries[1..], mountpoint);
      var rest := Elsewhere(entries[1..], mountpoint);
      assert ([entries[0]] + rest)[1..] == rest;
      assert [] + rest == rest;
    }
  }

  /** The guard sees every line of the file that defines an entry. */
  lemma {:induction false} GuardSeesLine(lines: seq<string>, i: nat, mountpoint: string)
    requires i < |lines| && ParseLine(lines[i]).Some?
    requires Offends(ParseLine(lines[i]).value, mountpoint)
    ensures GuardedIn(ParseLines(lines), mountpoint)
  {
    if i > 0 {
      GuardSeesLine(lines[1..], i - 1, mountpoint);
      if ParseLine(lines[0]).Some? {
        assert ParseLines(lines)[1..] == ParseLines(lines[1..]);
      }
    }
  }

  /** The essential entries of a file whose line `i` defines none. */
  lemma ProtectedAround(lines: seq<string>, i: nat)
    requires i < |lines|
    requires ProtectedOnly(ParseLines([lines[i]])) == []
    ensures ProtectedOnly(ParseLines(lines))
         == ProtectedOnly(ParseLines(lines[..i])) + ProtectedOnly(ParseLines(lines[i + 1..]))
  {
    var a, m, b := lines[..i], [lines[i]], lines[i + 1..];
    Around(lines, i);
    ParseLinesAppend(a + m, b);
    ParseLinesAppend(a, m);
    ProtectedOnlyAppend(ParseLines(a + m), ParseLines(b));
    ProtectedOnlyAppend(ParseLines(a), ParseLines(m));
  }

  lemma UpsertKeepsEssential(text: string, e: Entry)
    requires ValidEntry(e) && !IsProtected(e) && !Guarded(text, e.mountpoint)
    ensures ProtectedOnly(Parsed(Upserted(text, e))) == ProtectedOnly(Parsed(text))
  {
    LinesOfUpserted(text, e);
    RenderRoundTrip(e);
    var lines, i := LinesOf(text), FirstFor(LinesOf(text), e.mountpoint);
    var edited := UpsertLines(lines, e);
    ProtectedAround(edited, i);
    assert edited[..i] == lines[..i];
    if i < |lines| {
      if ParseLine(lines[i]).Some? && IsProtected(ParseLine(lines[i]).value) {
        GuardSeesLine(lines, i, e.mountpoint);
      }
      ProtectedAround(lines, i);
      assert edited[i + 1..] == lines[i + 1..];
    } else {
      assert lines[..i] == lines;
      assert edited[i + 1..] == [];
    }
  }

  lemma RemoveKeepsEssential(text: string, mountpoint: string)
    requires !Guarded(text, mountpoint)
    ensures ProtectedOnly(Parsed(Removed(text, mountpoint))) == ProtectedOnly(Parsed(text))
  {
    RemovedParses(text, mountpoint);
    ProtectedElsewhere(Parsed(text), mountpoint);
  }

  // --- Main results ---

  /** The request passes its own checks, whatever the file says. */
  predicate Acceptable(r: Request) {
    match r
    case WriteEntry(e, _) => ValidEntry(e) && !IsProtected(e)
    case RemoveEntry(mountpoint, _) => ValidMountpoint(mountpoint)
  }

  /** An acceptable request at a moment when the existing file cannot be read, but can be
      copied and replaced. */
  predicate Blind(r: Request) {
    Acceptable(r) && !r.weather.readable && r.weather.copyable && r.weather.writable
  }

  lemma NothingInEmptyText()
    ensures Parsed("") == [] && ProtectedOnly(Parsed("")) == []
  {
    assert Split("", '\n') == [[]];
  }

  lemma DoneKeepsEssentialOfText(files: Files, r: Request)
    requires Handle(files, r).1 == Done
    ensures Essential(Handle(files, r).0) == ProtectedOnly(Parsed(ReadText(files, r.weather)))
  {
    var text := ReadText(files, r.weather);
    match r {
      case WriteEntry(e, _) => UpsertKeepsEssential(text, e);
      case RemoveEntry(mountpoint, _) => RemoveKeepsEssential(text, mountpoint);
    }
  }

  /** What one call leaves of the essential entries: all of them, exactly and in order, or,
      after a blind call, none. */
  lemma EssentialAfterCall(files: Files, r: Request)
    ensures Essential(Handle(files, r).0) == if Blind(r) then [] else Essential(files)
  {
    NothingInEmptyText();
    if Handle(files, r).1 == Done {
      DoneKeepsEssentialOfText(files, r);
    }
  }

  /** One call keeps the essential entries the file parses to if and only if it is not blind or there are none;
      a call that is done left the old file in the backup. */
  lemma {:induction false} OneCallKeepsEssential(files: Files, r: Request)
    ensures Essential(Handle(files, r).0) == Essential(files) <==> !Blind(r) || Essential(files) == []
    ensures Handle(files, r).1 == Done && files.fstab.Some? ==> Handle(files, r).0.backup == files.fstab
  {
    EssentialAfterCall(files, r);
  }

  predicate NoneBlind(rs: seq<Request>) {
    forall i :: 0 <= i < |rs| ==> !Blind(rs[i])
  }

  lemma NoneBlindCons(rs: seq<Request>)
    requires rs != []
    ensures NoneBlind(rs) <==> !Blind(rs[0]) && NoneBlind(rs[1..])
  {
    assert forall i :: 1 <= i < |rs| ==> rs[i] == rs[1..][i - 1];
    assert forall i :: 0 <= i < |rs[1..]| ==> rs[1..][i] == rs[i + 1];
  }

  /** The same over any sequence of calls, accepted or refused: once a blind call has
      lost the essential entries, no later call can bring them back. */
  lemma {:induction false} CallsKeepEssentialIff(files: Files, rs: seq<Request>)
    ensures Essential(HandleAll(files, rs)) == Essential(files) <==>
              Essential(files) == [] || NoneBlind(rs)
    ensures Essential(HandleAll(files, rs)) == Essential(files) || Essential(HandleAll(files, rs)) == []
    decreases rs
  {
    if rs != [] {
      EssentialAfterCall(files, rs[0]);
      CallsKeepEssentialIff(Handle(files, rs[0]).0, rs[1..]);
      NoneBlindCons(rs);
    }
  }

  /** In particular the essential entries never change while an existing fstab can be read. */
  lemma {:induction false} EssentialNeverChanges(files: Files, rs: seq<Request>)
    requires forall i :: 0 <= i < |rs| ==> rs[i].weather.readable
    ensures Essential(HandleAll(files, rs)) == Essential(files)
  {
    CallsKeepEssentialIff(files, rs);
  }

  /** Reading must work: when an existing fstab cannot be read at the moment of a write
      but can be copied and replaced, its essential entry is gone from the new file
      (and still in the backup). */
  lemma UnreadableFstabLosesEssential(root: Entry, data: Entry)
    requires ValidEntry(root) && IsProtected(root)
    requires ValidEntry(data) && !IsProtected(data)
    ensures var files := Files(Some(RenderFstab([root])), None);
            var (files', reply) := Handle(files, WriteEntry(data, Weather(false, true, true)));
            && reply == Done && files'.backup == files.fstab
            && Essential(files) == [Marked(root)] && Essential(files') == []
  {
    FstabRoundTrip([root]);
    assert Parsed(RenderFstab([root])) == [Marked(root)];
    assert [Marked(root)][1..] == [] && IsProtected(Marked(root));
    assert Split("", '\n') == [[]];
    UpsertKeepsEssential("", data);
  }

  const SAMPLE_ROOT := Entry("/dev/sda2", "/", "ext4", "noatime", 0, 1, false)
  const SAMPLE_DATA := Entry("/dev/sdb1", "/data", "ext4", "noatime", 0, 2, false)

  lemma SamplesAreValid() returns (root: Entry, data: Entry)
    ensures root == SAMPLE_ROOT && data == SAMPLE_DATA
    ensures ValidEntry(root) && IsProtected(root)
    ensures ValidEntry(data) && !IsProtected(data)
  {
    root, data := SAMPLE_ROOT, SAMPLE_DATA;
  }

  /** The concrete case: the file has one line, for the root; it cannot be read but can be
      copied and replaced; writing /data is done, and the root line is gone. */
  lemma UnreadableFstabLosesRoot() returns (files: Files, r: Request)
    ensures files == Files(Some(RenderFstab([SAMPLE_ROOT])), None)
    ensures r == WriteEntry(SAMPLE_DATA, Weather(false, true, true))
    ensures Essential(files) == [Marked(SAMPLE_ROOT)]
    ensures Handle(files, r).1 == Done && Essential(Handle(files, r).0) == []
  {
    var root, data := SamplesAreValid();
    files := Files(Some(RenderFstab([root])), None);
    r := WriteEntry(data, Weather(false, true, true));
    UnreadableFstabLosesEssential(root, data);
  }
}
