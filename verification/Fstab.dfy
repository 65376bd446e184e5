/** Parsing, validating, rendering and editing /etc/fstab text. */
module Fstab {
  import opened Splitting
  import opened Characters
  import opened Texts

  datatype Option<T> = None | Some(value: T)

  datatype Entry = Entry(
    spec: string, mountpoint: string, fstype: string, options: string,
    dump: int, passno: int, protected: bool)

  const PROTECTED_MOUNTS: set<string> := {"/", "/boot", "/efi", "/boot/efi"}
  const SPEC_PREFIXES: seq<string> := ["UUID=", "LABEL=", "PARTUUID=", "PARTLABEL=", "ID="]

  /** The essential mounts, and any swap. */
  predicate IsProtected(e: Entry) {
    e.mountpoint in PROTECTED_MOUNTS || e.fstype == "swap"
  }

  predicate All(s: string, allowed: char -> bool) {
    forall i :: 0 <= i < |s| ==> allowed(s[i])
  }

  predicate PathChar(c: char) {
    IsAlnum(c) || c in {'/', '.', '_', '@', '+', '-'}
  }

  predicate SpecChar(c: char) {
    PathChar(c) || c in {'=', ':'}
  }

  predicate ValidSpec(s: string) {
    && 1 <= |s| <= 255
    && (IsAlnum(s[0]) || s[0] == '/')
    && All(s, SpecChar)
    && ("/" <= s || exists p :: p in SPEC_PREFIXES && p <= s)
  }

  predicate ValidMountpoint(s: string) {
    s == "none" || s == "swap" || (1 <= |s| <= 255 && s[0] == '/' && All(s, PathChar))
  }

  /** A mount point one can really mount: an absolute path. */
  predicate ValidMountTarget(s: string) {
    "/" <= s && ValidMountpoint(s)
  }

  predicate ValidFstype(s: string) {
    1 <= |s| <= 64 && All(s, c => IsAlnum(c) || c in {'.', '_', '-'})
  }

  predicate ValidOptions(s: string) {
    && 1 <= |s| <= 512 && IsAlnum(s[0])
    && All(s, c => SpecChar(c) || c == ',')
    && forall i :: 0 <= i < |s| - 1 ==> !(s[i] == ',' && s[i + 1] == ',')
  }

  predicate ValidEntry(e: Entry) {
    && ValidSpec(e.spec) && ValidMountpoint(e.mountpoint)
    && ValidFstype(e.fstype) && ValidOptions(e.options)
    && (e.dump == 0 || e.dump == 1) && 0 <= e.passno <= 2
  }

  // --- Lines ---

  /** The fields of a data line; a blank or comment line has none. */
  function Fields(line: string): seq<string> {
    var words := Words(line);
    if words == [] || words[0][0] == '#' then [] else words
  }

  function MountpointOf(line: string): Option<string> {
    if |Fields(line)| >= 2 then Some(Fields(line)[1]) else None
  }

  function ParseLine(line: string): Option<Entry> {
    var f := Fields(line);
    if |f| < 4 then None
    else
      var dump := if |f| > 4 then NumberOr(f[4], 0) else 0;
      var passno := if |f| > 5 then NumberOr(f[5], 0) else 0;
      Some(Marked(Entry(f[0], f[1], f[2], f[3], dump, passno, false)))
  }

  /** The entry with its protected flag recomputed, as the parser sets it. */
  function Marked(e: Entry): Entry {
    e.(protected := IsProtected(e))
  }

  function ParseLines(lines: seq<string>): seq<Entry> {
    if lines == [] then []
    else
      var rest := ParseLines(lines[1..]);
      if ParseLine(lines[0]).Some? then [ParseLine(lines[0]).value] + rest else rest
  }

  function Parsed(text: string): seq<Entry> {
    ParseLines(LinesOf(text))
  }

  /** What one line contributes. */
  function EntryOn(line: string): seq<Entry> {
    if ParseLine(line).Some? then [ParseLine(line).value] else []
  }

  lemma ParseLinesSnoc(lines: seq<string>, i: nat)
    requires i < |lines|
    ensures ParseLines(lines[..i + 1]) == ParseLines(lines[..i]) + EntryOn(lines[i])
  {
    assert lines[..i + 1] == lines[..i] + [lines[i]];
    ParseLinesAppend(lines[..i], [lines[i]]);
    ParseLinesSingle(lines[i]);
  }

  method ParseFstab(text: string) returns (entries: seq<Entry>)
    ensures entries == Parsed(text)
  {
    var lines := LinesOf(text);
    entries := [];
    for i := 0 to |lines|
      invariant entries == ParseLines(lines[..i])
    {
      ParseLinesSnoc(lines, i);
      var e := ParseLine(lines[i]);
      if e.Some? {
        entries := entries + [e.value];
      } else {
        assert entries + [] == entries;
      }
    }
    assert lines[..|lines|] == lines;
  }

  function RenderEntry(e: Entry): string {
    Join([e.spec, e.mountpoint, e.fstype, e.options, Signed(e.dump) + " " + Signed(e.passno)], '\t')
  }

  function Rejoin(lines: seq<string>): string {
    var text := Join(lines, '\n');
    if text == "" then "" else text + "\n"
  }

  // --- Printing and reading back ---

  lemma ValidFieldsAreWords(e: Entry)
    requires ValidEntry(e)
    ensures IsWord(e.spec) && IsWord(e.mountpoint) && IsWord(e.fstype) && IsWord(e.options)
    ensures IsWord(Signed(e.dump)) && IsWord(Signed(e.passno))
    ensures e.spec[0] != '#'
  {
    forall i | 0 <= i < |e.spec| ensures !IsSpace(e.spec[i]) { assert SpecChar(e.spec[i]); }
    DigitsAreWords(e.dump);
    DigitsAreWords(e.passno);
  }

  /** Reading fields off the front, one separator at a time. */
  lemma NextWord(w: string, c: char, rest: string, ws: seq<string>)
    requires IsWord(w) && IsSpace(c) && Words(rest) == ws
    ensures Words(w + [c] + rest) == [w] + ws
  {
    WordThen(w, c, rest);
  }

  lemma TwoWords(e: string, f: string)
    requires IsWord(e) && IsWord(f)
    ensures Words(e + " " + f) == [e, f]
  {
    OneWord(f);
    NextWord(e, ' ', f, [f]);
  }

  lemma FourWordsThen(a: string, b: string, c: string, d: string, rest: string, ws: seq<string>)
    requires IsWord(a) && IsWord(b) && IsWord(c) && IsWord(d) && Words(rest) == ws
    ensures Words(a + ['\t'] + (b + ['\t'] + (c + ['\t'] + (d + ['\t'] + rest)))) == [a] + ([b] + ([c] + ([d] + ws)))
  {
    var t3 := d + ['\t'] + rest;
    var t2 := c + ['\t'] + t3;
    var t1 := b + ['\t'] + t2;
    NextWord(d, '\t', rest, ws);
    NextWord(c, '\t', t3, [d] + ws);
    NextWord(b, '\t', t2, [c] + ([d] + ws));
    NextWord(a, '\t', t1, [b] + ([c] + ([d] + ws)));
  }

  lemma SixInRow(a: string, b: string, c: string, d: string, e: string, f: string)
    ensures [a] + ([b] + ([c] + ([d] + [e, f]))) == [a, b, c, d, e, f]
  {
  }

  lemma SixWords(a: string, b: string, c: string, d: string, e: string, f: string)
    requires IsWord(a) && IsWord(b) && IsWord(c) && IsWord(d) && IsWord(e) && IsWord(f)
    ensures Words(Join([a, b, c, d, e + " " + f], '\t')) == [a, b, c, d, e, f]
  {
    TwoWords(e, f);
    FourWordsThen(a, b, c, d, e + " " + f, [e, f]);
    JoinOfFive(a, b, c, d, e + " " + f, '\t');
    SixInRow(a, b, c, d, e, f);
  }

  lemma FieldsOfRendered(e: Entry)
    requires ValidEntry(e)
    ensures Fields(RenderEntry(e))
         == [e.spec, e.mountpoint, e.fstype, e.options, Signed(e.dump), Signed(e.passno)]
  {
    ValidFieldsAreWords(e);
    SixWords(e.spec, e.mountpoint, e.fstype, e.options, Signed(e.dump), Signed(e.passno));
  }

  lemma JoinOfFive(a: string, b: string, c: string, d: string, e: string, sep: char)
    ensures Join([a, b, c, d, e], sep)
         == a + [sep] + (b + [sep] + (c + [sep] + (d + [sep] + e)))
  {
    assert [d, e][1..] == [e] && Join([d, e], sep) == d + [sep] + e;
    assert [c, d, e][1..] == [d, e] && Join([c, d, e], sep) == c + [sep] + Join([d, e], sep);
    assert [b, c, d, e][1..] == [c, d, e] && Join([b, c, d, e], sep) == b + [sep] + Join([c, d, e], sep);
    assert [a, b, c, d, e][1..] == [b, c, d, e];
  }

  lemma RenderedIsOneLine(e: Entry)
    requires ValidEntry(e)
    ensures '\n' !in RenderEntry(e) && RenderEntry(e) != ""
  {
    ValidFieldsAreWords(e);
    var last := Signed(e.dump) + " " + Signed(e.passno);
    var ws := [e.spec, e.mountpoint, e.fstype, e.options, last];
    forall i | 0 <= i < |ws| ensures '\n' !in ws[i] {
      if i == 4 {
        assert '\n' !in Signed(e.dump) && '\n' !in Signed(e.passno);
      }
    }
    JoinStaysFree(ws, '\t', '\n');
    FieldsOfRendered(e);
  }

  /** A rendered valid entry parses back to itself, protected flag recomputed. */
  lemma RenderRoundTrip(e: Entry)
    requires ValidEntry(e)
    ensures ParseLine(RenderEntry(e)) == Some(Marked(e))
    ensures MountpointOf(RenderEntry(e)) == Some(e.mountpoint)
  {
    FieldsOfRendered(e);
    NumberOfDigits(e.dump);
    NumberOfDigits(e.passno);
  }

  /** What any line of words is read as: fewer than four are no entry, a number that is not
      there or not written in digits is 0, and the protected entries are the four essential
      mount points and every swap. */
  lemma WordsRead(ws: seq<string>, sep: char)
    requires ws != [] && AllWords(ws) && IsSpace(sep) && ws[0][0] != '#'
    ensures var r := ParseLine(Join(ws, sep));
            && (r.Some? <==> |ws| >= 4)
            && (r.Some? ==>
                  && [r.value.spec, r.value.mountpoint, r.value.fstype, r.value.options] == ws[..4]
                  && r.value.dump == NumberAt(ws, 4) && r.value.passno == NumberAt(ws, 5)
                  && (r.value.protected <==> Essential(ws[1]) || ws[2] == "swap"))
  {
    WordsOfJoin(ws, sep);
    if |ws| >= 4 {
      EssentialAre(ws[1]);
    }
  }

  lemma EssentialAre(mountpoint: string)
    ensures mountpoint in PROTECTED_MOUNTS <==> Essential(mountpoint)
  {
  }

  predicate Essential(mountpoint: string) {
    mountpoint == "/" || mountpoint == "/boot" || mountpoint == "/efi" || mountpoint == "/boot/efi"
  }

  function NumberAt(ws: seq<string>, i: nat): nat {
    if i >= |ws| || !AllDigits(ws[i]) then 0 else Number(ws[i])
  }

  // --- Splicing one entry into the file ---

  /** Index of the first line for `mountpoint`, or the number of lines. */
  function FirstFor(lines: seq<string>, mountpoint: string): (i: nat)
    ensures i <= |lines|
    ensures forall k :: 0 <= k < i ==> MountpointOf(lines[k]) != Some(mountpoint)
    ensures i < |lines| ==> MountpointOf(lines[i]) == Some(mountpoint)
  {
    if lines == [] || MountpointOf(lines[0]) == Some(mountpoint) then 0
    else 1 + FirstFor(lines[1..], mountpoint)
  }

  /** The first line for the mount point is overwritten in place; without one, the new line
      goes to the end. */
  function WithLine(lines: seq<string>, mountpoint: string, newLine: string): seq<string> {
    var i := FirstFor(lines, mountpoint);
    if i < |lines| then lines[i := newLine] else lines + [newLine]
  }

  function UpsertLines(lines: seq<string>, e: Entry): seq<string> {
    WithLine(lines, e.mountpoint, RenderEntry(e))
  }

  function Upserted(text: string, e: Entry): string {
    Rejoin(UpsertLines(LinesOf(text), e))
  }

  method UpsertEntry(text: string, e: Entry) returns (edited: string)
    ensures edited == Upserted(text, e)
  {
    var lines := ReplaceOrAppend(LinesOf(text), e.mountpoint, RenderEntry(e));
    edited := Rejoin(lines);
  }

  method ReplaceOrAppend(lines: seq<string>, mountpoint: string, newLine: string) returns (edited: seq<string>)
    ensures edited == WithLine(lines, mountpoint, newLine)
  {
    edited := lines;
    var replaced := false;
    for i := 0 to |edited|
      invariant edited == lines && !replaced
      invariant i <= FirstFor(lines, mountpoint)
    {
      if MountpointOf(edited[i]) == Some(mountpoint) {
        edited := edited[i := newLine];
        replaced := true;
        break;
      }
    }
    if !replaced {
      edited := edited + [newLine];
    }
  }

  /** The lines that are not data lines for `mountpoint`, in order. */
  function Others(lines: seq<string>, mountpoint: string): seq<string> {
    if lines == [] then []
    else (if MountpointOf(lines[0]) == Some(mountpoint) then [] else [lines[0]]) + Others(lines[1..], mountpoint)
  }

  function Removed(text: string, mountpoint: string): string {
    Rejoin(Others(LinesOf(text), mountpoint))
  }

  // --- Laws of the edits ---

  lemma JoinLong(lines: seq<string>)
    requires |lines| > 1
    ensures Join(lines, '\n') != ""
  {
    assert Join(lines, '\n')[|lines[0]|] == '\n';
  }

  /** Rejoined lines are the same lines, unless all that is left is one blank line. */
  lemma LinesOfRejoined(lines: seq<string>)
    requires AllFree(lines, '\n')
    ensures LinesOf(Rejoin(lines)) == if lines == [""] then [] else lines
  {
    if |lines| > 1 {
      JoinLong(lines);
    }
    if Join(lines, '\n') != "" {
      LinesOfTerminated(lines);
    } else {
      assert Split("", '\n') == [[]];
    }
  }

  lemma LinesOfUpserted(text: string, e: Entry)
    requires ValidEntry(e)
    ensures LinesOf(Upserted(text, e)) == UpsertLines(LinesOf(text), e)
  {
    LinesAreFree(text);
    RenderedIsOneLine(e);
    LinesOfRejoined(UpsertLines(LinesOf(text), e));
  }

  lemma {:induction false} OthersAppend(a: seq<string>, b: seq<string>, mountpoint: string)
    ensures Others(a + b, mountpoint) == Others(a, mountpoint) + Others(b, mountpoint)
  {
    if a == [] {
      assert a + b == b;
    } else {
      assert (a + b)[1..] == a[1..] + b;
      OthersAppend(a[1..], b, mountpoint);
      Assoc(if MountpointOf(a[0]) == Some(mountpoint) then [] else [a[0]], Others(a[1..], mountpoint),
            Others(b, mountpoint));
    }
  }

  lemma OthersSingle(line: string, mountpoint: string)
    ensures Others([line], mountpoint) == if MountpointOf(line) == Some(mountpoint) then [] else [line]
  {
    assert [line][1..] == [];
  }

  lemma OthersAround(lines: seq<string>, i: nat, mountpoint: string)
    requires i < |lines| && MountpointOf(lines[i]) == Some(mountpoint)
    ensures Others(lines, mountpoint) == Others(lines[..i], mountpoint) + Others(lines[i + 1..], mountpoint)
  {
    Around(lines, i);
    OthersAppend(lines[..i] + [lines[i]], lines[i + 1..], mountpoint);
    OthersAppend(lines[..i], [lines[i]], mountpoint);
    OthersSingle(lines[i], mountpoint);
    Assoc(Others(lines[..i], mountpoint), [], []);
  }

  /** An upsert keeps every line of the other mount points, in order. */
  lemma UpsertKeepsOthers(lines: seq<string>, e: Entry)
    requires ValidEntry(e)
    ensures Others(UpsertLines(lines, e), e.mountpoint) == Others(lines, e.mountpoint)
  {
    RenderRoundTrip(e);
    var i, edited := FirstFor(lines, e.mountpoint), UpsertLines(lines, e);
    if i < |lines| {
      assert edited[..i] == lines[..i] && edited[i + 1..] == lines[i + 1..];
      OthersAround(lines, i, e.mountpoint);
      OthersAround(edited, i, e.mountpoint);
    } else {
      OthersAppend(lines, [RenderEntry(e)], e.mountpoint);
      OthersSingle(RenderEntry(e), e.mountpoint);
    }
  }

  lemma FirstForUnique(lines: seq<string>, mountpoint: string, i: nat)
    requires i < |lines| && MountpointOf(lines[i]) == Some(mountpoint)
    requires forall k :: 0 <= k < i ==> MountpointOf(lines[k]) != Some(mountpoint)
    ensures FirstFor(lines, mountpoint) == i
  {
  }

  /** Writing the same entry twice is writing it once. */
  lemma UpsertIdempotent(text: string, e: Entry)
    requires ValidEntry(e)
    ensures Upserted(Upserted(text, e), e) == Upserted(text, e)
  {
    LinesOfUpserted(text, e);
    RenderRoundTrip(e);
    var lines, i := LinesOf(text), FirstFor(LinesOf(text), e.mountpoint);
    var edited := UpsertLines(lines, e);
    FirstForUnique(edited, e.mountpoint, i);
    assert edited[i := RenderEntry(e)] == edited;
  }

  /** Removing a mount point after writing it is just removing it. */
  lemma RemoveAfterUpsert(text: string, e: Entry)
    requires ValidEntry(e)
    ensures Removed(Upserted(text, e), e.mountpoint) == Removed(text, e.mountpoint)
  {
    LinesOfUpserted(text, e);
    UpsertKeepsOthers(LinesOf(text), e);
  }

  /** The parsed entries of other mount points are exactly what their lines parse to. */
  function Elsewhere(entries: seq<Entry>, mountpoint: string): seq<Entry> {
    if entries == [] then []
    else (if entries[0].mountpoint == mountpoint then [] else [entries[0]]) + Elsewhere(entries[1..], mountpoint)
  }

  lemma {:induction false} ElsewhereIsOthers(lines: seq<string>, mountpoint: string)
    ensures Elsewhere(ParseLines(lines), mountpoint) == ParseLines(Others(lines, mountpoint))
  {
    if lines != [] {
      ElsewhereIsOthers(lines[1..], mountpoint);
      var rest := Others(lines[1..], mountpoint);
      var e := ParseLine(lines[0]);
      assert ([lines[0]] + rest)[1..] == rest;
      assert [] + rest == rest;
      if e.Some? {
        assert MountpointOf(lines[0]) == Some(e.value.mountpoint);
        assert ([e.value] + ParseLines(lines[1..]))[1..] == ParseLines(lines[1..]);
      }
    }
  }

  lemma {:induction false} ParseLinesAppend(a: seq<string>, b: seq<string>)
    ensures ParseLines(a + b) == ParseLines(a) + ParseLines(b)
  {
    if a == [] {
      assert a + b == b;
    } else {
      assert (a + b)[1..] == a[1..] + b;
      ParseLinesAppend(a[1..], b);
    }
  }

  lemma ParseLinesSingle(line: string)
    ensures ParseLines([line]) == if ParseLine(line).Some? then [ParseLine(line).value] else []
  {
    assert [line][1..] == [];
  }

  lemma {:induction false} LineIsParsed(lines: seq<string>, i: nat)
    requires i < |lines| && ParseLine(lines[i]).Some?
    ensures ParseLine(lines[i]).value in ParseLines(lines)
  {
    if i > 0 {
      LineIsParsed(lines[1..], i - 1);
      assert ParseLine(lines[i]).value in ParseLines(lines[1..]);
    }
  }

  /** After an upsert the file parses to the new entry, and to every other mount
      point's entries unchanged and in order. */
  lemma UpsertedParses(text: string, e: Entry)
    requires ValidEntry(e)
    ensures Marked(e) in Parsed(Upserted(text, e))
    ensures Elsewhere(Parsed(Upserted(text, e)), e.mountpoint) == Elsewhere(Parsed(text), e.mountpoint)
  {
    var lines := LinesOf(text);
    var edited, i := UpsertLines(lines, e), FirstFor(lines, e.mountpoint);
    LinesOfUpserted(text, e);
    RenderRoundTrip(e);
    LineIsParsed(edited, i);
    UpsertKeepsOthers(lines, e);
    ElsewhereIsOthers(edited, e.mountpoint);
    ElsewhereIsOthers(lines, e.mountpoint);
  }

  /** After a removal no entry of the mount point is left and nothing else is touched. */
  lemma RemovedParses(text: string, mountpoint: string)
    ensures Parsed(Removed(text, mountpoint)) == Elsewhere(Parsed(text), mountpoint)
  {
    var lines := LinesOf(text);
    LinesAreFree(text);
    OthersAreFree(lines, mountpoint);
    LinesOfRejoined(Others(lines, mountpoint));
    ElsewhereIsOthers(lines, mountpoint);
    ParseLinesSingle("");
  }

  lemma {:induction false} OthersAreFree(lines: seq<string>, mountpoint: string)
    requires AllFree(lines, '\n')
    ensures AllFree(Others(lines, mountpoint), '\n')
  {
    if lines != [] {
      OthersAreFree(lines[1..], mountpoint);
    }
  }

  // --- A fresh fstab for an install target ---

  const HEADER_TITLE := "# /etc/fstab: generated by GeST"
  const HEADER_COLUMNS := "# <fs>\t<mountpoint>\t<type>\t<opts>\t<dump/pass>"
  const FSTAB_HEADER: seq<string> := [HEADER_TITLE, "#", HEADER_COLUMNS]

  function EntryDefaults(mountpoint: string, fstype: string): (string, int) {
    if fstype == "swap" then ("sw", 0)
    else if fstype == "vfat" then ("umask=0077", 2)
    else if mountpoint == "/" then ("noatime", 1)
    else ("defaults", 2)
  }

  function GenEntry(uuid: string, mountpoint: string, fstype: string): Entry {
    var (options, passno) := EntryDefaults(mountpoint, fstype);
    Entry("UUID=" + uuid, mountpoint, fstype, options, 0, passno, false)
  }

  function RenderAll(entries: seq<Entry>): seq<string> {
    seq(|entries|, i requires 0 <= i < |entries| => RenderEntry(entries[i]))
  }

  function RenderFstab(entries: seq<Entry>): string {
    Join(FSTAB_HEADER + RenderAll(entries), '\n') + "\n"
  }

  /** The gate both privileged writers run: at least one entry, all valid. */
  predicate ValidGenerated(text: string) {
    Parsed(text) != [] && forall i :: 0 <= i < |Parsed(text)| ==> ValidEntry(Parsed(text)[i])
  }

  predicate AllValid(entries: seq<Entry>) {
    forall i :: 0 <= i < |entries| ==> ValidEntry(entries[i])
  }

  function MarkAll(entries: seq<Entry>): seq<Entry> {
    seq(|entries|, i requires 0 <= i < |entries| => Marked(entries[i]))
  }

  lemma RenderedLinesAreFree(entries: seq<Entry>)
    requires AllValid(entries)
    ensures AllFree(RenderAll(entries), '\n')
  {
    forall i | 0 <= i < |entries| ensures '\n' !in RenderAll(entries)[i] {
      RenderedIsOneLine(entries[i]);
    }
  }

  lemma ParseLinesCons(line: string, rest: seq<string>)
    ensures ParseLines([line] + rest) == EntryOn(line) + ParseLines(rest)
  {
    assert ([line] + rest)[1..] == rest;
    Assoc(ParseLines(rest), [], []);
  }

  lemma RenderedAt(entries: seq<Entry>, i: nat)
    requires i < |entries|
    ensures RenderAll(entries)[i] == RenderEntry(entries[i])
  {
  }

  lemma RenderedConses(entries: seq<Entry>)
    requires entries != []
    ensures RenderAll(entries) == [RenderEntry(entries[0])] + RenderAll(entries[1..])
  {
    var all, tail := RenderAll(entries), RenderAll(entries[1..]);
    forall i | 0 <= i < |tail| ensures tail[i] == all[i + 1] {
      RenderedAt(entries[1..], i);
      RenderedAt(entries, i + 1);
    }
    RenderedAt(entries, 0);
    Cons(all, RenderEntry(entries[0]), tail);
  }

  lemma MarkedConses(entries: seq<Entry>)
    requires entries != []
    ensures MarkAll(entries) == [Marked(entries[0])] + MarkAll(entries[1..])
  {
    Cons(MarkAll(entries), Marked(entries[0]), MarkAll(entries[1..]));
  }

  lemma Cons<T>(s: seq<T>, head: T, tail: seq<T>)
    requires |s| == |tail| + 1 && s[0] == head && forall i :: 0 <= i < |tail| ==> tail[i] == s[i + 1]
    ensures s == [head] + tail
  {
  }

  lemma RenderedContributes(e: Entry)
    requires ValidEntry(e)
    ensures EntryOn(RenderEntry(e)) == [Marked(e)]
  {
    RenderRoundTrip(e);
  }

  lemma {:induction false} ParseRenderedLines(entries: seq<Entry>)
    requires AllValid(entries)
    ensures ParseLines(RenderAll(entries)) == MarkAll(entries)
  {
    if entries != [] {
      RenderedConses(entries);
      MarkedConses(entries);
      RenderedContributes(entries[0]);
      ParseLinesCons(RenderEntry(entries[0]), RenderAll(entries[1..]));
      ParseRenderedLines(entries[1..]);
    }
  }

  predicate IsComment(line: string) {
    line != "" && line[0] == '#' && '\n' !in line
  }

  predicate AllComments(lines: seq<string>) {
    forall i :: 0 <= i < |lines| ==> IsComment(lines[i])
  }

  lemma CommentHasNoFields(line: string)
    requires IsComment(line)
    ensures ParseLine(line) == None
  {
    var n := WordLength(line);
    assert n >= 1;
    assert Words(line)[0] == line[..n];
    assert Words(line)[0][0] == '#';
  }

  lemma {:induction false} CommentsParseToNothing(lines: seq<string>)
    requires AllComments(lines)
    ensures ParseLines(lines) == []
  {
    if lines != [] {
      CommentHasNoFields(lines[0]);
      CommentsParseToNothing(lines[1..]);
    }
  }

  lemma ParseBelowComments(header: seq<string>, rest: seq<string>)
    requires AllComments(header)
    ensures ParseLines(header + rest) == ParseLines(rest)
  {
    CommentsParseToNothing(header);
    ParseLinesAppend(header, rest);
    Assoc(ParseLines(rest), [], []);
  }

  lemma ParsedOfLines(lines: seq<string>)
    requires lines != [] && AllFree(lines, '\n')
    ensures Parsed(Join(lines, '\n') + "\n") == ParseLines(lines)
  {
    LinesOfTerminated(lines);
  }

  lemma ParseUnderHeader(header: seq<string>, entries: seq<Entry>)
    requires header != [] && AllComments(header)
    requires AllValid(entries)
    ensures Parsed(Join(header + RenderAll(entries), '\n') + "\n") == MarkAll(entries)
  {
    RenderedLinesAreFree(entries);
    AllFreeAppend(header, RenderAll(entries));
    ParsedOfLines(header + RenderAll(entries));
    ParseBelowComments(header, RenderAll(entries));
    ParseRenderedLines(entries);
  }

  lemma AllFreeAppend(a: seq<string>, b: seq<string>)
    requires AllComments(a)
    requires AllFree(b, '\n')
    ensures AllFree(a + b, '\n')
  {
  }

  lemma HeaderIsComments()
    ensures AllComments(FSTAB_HEADER)
  {
    assert IsComment(HEADER_TITLE);
    assert IsComment("#");
    assert IsComment(HEADER_COLUMNS);
  }

  lemma MarkingKeepsValidity(e: Entry)
    ensures ValidEntry(Marked(e)) <==> ValidEntry(e)
  {
  }

  /** Parsing a rendered fstab gives back exactly the valid entries rendered. */
  lemma FstabRoundTrip(entries: seq<Entry>)
    requires AllValid(entries)
    ensures Parsed(RenderFstab(entries)) == MarkAll(entries)
    ensures ValidGenerated(RenderFstab(entries)) <==> entries != []
  {
    HeaderIsComments();
    ParseUnderHeader(FSTAB_HEADER, entries);
    forall i | 0 <= i < |entries| ensures ValidEntry(MarkAll(entries)[i]) {
      MarkingKeepsValidity(entries[i]);
    }
  }
}
