/** Merging arguments into GRUB_CMDLINE_LINUX. The hibernate-resume argument and the GPU
    arguments share the line: existing arguments stay in order and only missing ones are
    added. The editor of the other keys leaves the line alone, and these leave theirs. */
module KernelCmdline {
  import opened Splitting
  import opened Characters
  import opened Texts
  import opened GrubDefault

  const CMDLINE_KEY := "GRUB_CMDLINE_LINUX"

  // --- The arguments on a line ---

  predicate IsCmdline(line: string) {
    CMDLINE_KEY + "=" <= Assignment(line)
  }

  /** A value as written: quoted from end to end, or bare. */
  function Unquoted(rest: string): string {
    var t := TrimEnd(rest);
    if |t| >= 2 && t[0] == '"' && Last(t) == '"' then t[1..|t| - 1] else rest
  }

  function ArgsOf(line: string): seq<string>
    requires IsCmdline(line)
  {
    Words(Unquoted(Assignment(line)[|CMDLINE_KEY| + 1..]))
  }

  function CmdlineLine(args: seq<string>): string {
    Assign(CMDLINE_KEY, Join(args, ' '))
  }

  lemma KeyIsKey()
    ensures IsKey(CMDLINE_KEY)
  {
  }

  /** The first kernel command line, or |lines|. */
  function FirstCmdline(lines: seq<string>): (i: nat)
    ensures i <= |lines|
    ensures i < |lines| ==> IsCmdline(lines[i])
    ensures forall j :: 0 <= j < i ==> !IsCmdline(lines[j])
  {
    if lines == [] || IsCmdline(lines[0]) then 0 else 1 + FirstCmdline(lines[1..])
  }

  /** The arguments a file body carries. */
  function ArgsIn(lines: seq<string>): seq<string> {
    var i := FirstCmdline(lines);
    if i < |lines| then ArgsOf(lines[i]) else []
  }

  // --- Merging ---

  function Missing(want: seq<string>, cur: seq<string>): seq<string> {
    if want == [] then []
    else Missing(Front(want), cur) + if Last(want) in cur then [] else [Last(want)]
  }

  function Merge(cur: seq<string>, want: seq<string>): seq<string> {
    cur + Missing(want, cur)
  }

  function MergedLines(lines: seq<string>, want: seq<string>, title: string): seq<string> {
    var i := FirstCmdline(lines);
    if i < |lines| then lines[i := CmdlineLine(Merge(ArgsOf(lines[i]), want))]
    else
      lines + (if lines != [] && Strip(Last(lines)) != "" then [""] else []) + [title] + [CmdlineLine(want)]
  }

  function MergedText(existing: string, args: string, title: string): string {
    if args == "" then existing
    else Join(MergedLines(Split(existing, '\n'), Words(args), title), '\n')
  }

  const RESUME_TITLE := "# " + ("Hi" + ("bernate resume " + "\U{2014} managed by GeST"))
  const GPU_TITLE := "# " + ("GP" + ("U cmdline " + "\U{2014} managed by GeST"))

  function ResumeArgs(uuid: string): string {
    if uuid == "" then "" else "resume=UUID=" + uuid
  }

  const NVIDIA_ARGS := "rd.driver.blacklist=" + "nouveau " + "modprobe.blacklist=" + "nouveau " +
                       "nvidia_drm.modeset=1 " + "nvidia_drm.fbdev=1"

  function GpuArgs(nvidiaProprietary: bool): string {
    if nvidiaProprietary then NVIDIA_ARGS else ""
  }

  /** The editor both steps share: the first command line is rewritten in place, or one is
      appended under a title. */
  method MergeArgs(existing: string, args: string, title: string) returns (text: string)
    ensures text == MergedText(existing, args, title)
  {
    if args == "" {
      return existing;
    }
    var lines := MergeLines(Split(existing, '\n'), Words(args), title);
    return Join(lines, '\n');
  }

  method MergeLines(lines: seq<string>, want: seq<string>, title: string) returns (merged: seq<string>)
    ensures merged == MergedLines(lines, want, title)
  {
    for i := 0 to |lines|
      invariant FirstCmdline(lines) >= i
    {
      if IsCmdline(lines[i]) {
        var cur := ArgsOf(lines[i]);
        return lines[i := CmdlineLine(cur + Missing(want, cur))];
      }
    }
    merged := lines;
    if merged != [] && Strip(Last(merged)) != "" {
      merged := merged + [""];
    }
    merged := merged + [title];
    merged := merged + [CmdlineLine(want)];
  }

  method ApplyResumeCmdline(existing: string, uuid: string) returns (text: string)
    ensures text == MergedText(existing, ResumeArgs(uuid), RESUME_TITLE)
  {
    text := MergeArgs(existing, ResumeArgs(uuid), RESUME_TITLE);
  }

  method ApplyGpuCmdline(existing: string, nvidiaProprietary: bool) returns (text: string)
    ensures text == MergedText(existing, GpuArgs(nvidiaProprietary), GPU_TITLE)
  {
    text := MergeArgs(existing, GpuArgs(nvidiaProprietary), GPU_TITLE);
  }

  /** A line that had to be appended stands apart too. */
  lemma AppendedStandsApart(lines: seq<string>, want: seq<string>, title: string)
    requires forall i :: 0 <= i < |lines| ==> !IsCmdline(lines[i])
    ensures StandsApart(lines, title, [CmdlineLine(want)], MergedLines(lines, want, title))
  {
    var gap := if lines != [] && Strip(Last(lines)) != "" then [""] else [];
    assert FirstCmdline(lines) == |lines|;
    assert MergedLines(lines, want, title) == lines + gap + [title] + [CmdlineLine(want)];
    assert lines + [] == lines;
  }

  // --- Merging token lists ---

  lemma {:induction false} MissingAre(want: seq<string>, cur: seq<string>)
    ensures forall a :: a in Missing(want, cur) <==> a in want && a !in cur
  {
    if want != [] {
      MissingAre(Front(want), cur);
      assert want == Front(want) + [Last(want)];
    }
  }

  lemma {:induction false} NothingMissing(want: seq<string>, cur: seq<string>)
    requires forall a :: a in want ==> a in cur
    ensures Missing(want, cur) == []
  {
    if want != [] {
      assert Last(want) in want;
      assert forall a :: a in Front(want) ==> a in want;
      NothingMissing(Front(want), cur);
    }
  }

  lemma MergeHas(cur: seq<string>, want: seq<string>)
    ensures forall a :: a in Merge(cur, want) <==> a in cur || a in want
    ensures cur <= Merge(cur, want)
  {
    MissingAre(want, cur);
  }

  lemma MergeAgain(cur: seq<string>, want: seq<string>)
    requires forall a :: a in want ==> a in cur
    ensures Merge(cur, want) == cur
  {
    NothingMissing(want, cur);
  }

  // --- A written line reads back ---

  lemma {:induction false} MergeOfWords(cur: seq<string>, want: seq<string>)
    requires AllWords(cur) && AllWords(want)
    ensures AllWords(Merge(cur, want))
  {
    MergeHas(cur, want);
    var m := Merge(cur, want);
    forall i | 0 <= i < |m| ensures IsWord(m[i]) {
      assert m[i] in m;
    }
  }

  lemma WrittenLineReads(key: string, args: seq<string>)
    requires IsKey(key) && AllWords(args)
    ensures var a := Assignment(Assign(key, Join(args, ' ')));
            key + "=" <= a && Words(Unquoted(a[|key| + 1..])) == args
  {
    var quoted := "\"" + Join(args, ' ') + "\"";
    KeyOfAssign(key, Join(args, ' '));
    assert Assign(key, Join(args, ' ')) == (key + "=") + quoted;
    assert ((key + "=") + quoted)[|key| + 1..] == quoted;
    WordsOfJoin(args, ' ');
  }

  lemma CmdlineReads(args: seq<string>)
    requires AllWords(args)
    ensures IsCmdline(CmdlineLine(args)) && ArgsOf(CmdlineLine(args)) == args
  {
    KeyIsKey();
    WrittenLineReads(CMDLINE_KEY, args);
  }

  // --- Merging into a file body ---

  lemma {:induction false} FirstCmdlineIs(lines: seq<string>, i: nat)
    requires i < |lines| && IsCmdline(lines[i])
    requires forall j :: 0 <= j < i ==> !IsCmdline(lines[j])
    ensures FirstCmdline(lines) == i
  {
  }

  /** Afterwards the first command line is a written one, and carries the merged arguments. */
  predicate Carries(lines: seq<string>, args: seq<string>) {
    var i := FirstCmdline(lines);
    i < |lines| && lines[i] == CmdlineLine(args) && AllWords(args)
  }

  lemma CarriesArgs(lines: seq<string>, args: seq<string>)
    requires Carries(lines, args)
    ensures ArgsIn(lines) == args
  {
    CmdlineReads(args);
  }

  /** What the first command line says after merging. */
  function MergedArgs(lines: seq<string>, want: seq<string>): seq<string> {
    if FirstCmdline(lines) < |lines| then Merge(ArgsIn(lines), want) else want
  }

  lemma RewrittenCarries(lines: seq<string>, i: nat, args: seq<string>)
    requires i == FirstCmdline(lines) < |lines| && AllWords(args)
    ensures Carries(lines[i := CmdlineLine(args)], args)
  {
    var line := CmdlineLine(args);
    CmdlineReads(args);
    RewrittenFirst(lines, i, line);
  }

  lemma RewrittenFirst(lines: seq<string>, i: nat, line: string)
    requires i == FirstCmdline(lines) < |lines| && IsCmdline(line)
    ensures FirstCmdline(lines[i := line]) == i
  {
    FirstCmdlineIs(lines[i := line], i);
  }

  lemma AppendedCarries(before: seq<string>, args: seq<string>)
    requires AllWords(args) && forall j :: 0 <= j < |before| ==> !IsCmdline(before[j])
    ensures Carries(before + [CmdlineLine(args)], args)
  {
    CmdlineReads(args);
    FirstCmdlineIs(before + [CmdlineLine(args)], |before|);
  }

  lemma MergeCarries(lines: seq<string>, want: seq<string>, title: string)
    requires AllWords(want) && !IsCmdline(title)
    ensures Carries(MergedLines(lines, want, title), MergedArgs(lines, want))
  {
    var i := FirstCmdline(lines);
    if i < |lines| {
      MergeOfWords(ArgsOf(lines[i]), want);
      RewrittenCarries(lines, i, Merge(ArgsOf(lines[i]), want));
    } else {
      assert !IsCmdline("");
      AppendedCarries(lines + (if lines != [] && Strip(Last(lines)) != "" then [""] else []) + [title], want);
    }
  }

  /** Arguments that are all there already change nothing. */
  lemma MergeOfPresent(lines: seq<string>, args: seq<string>, want: seq<string>, title: string)
    requires Carries(lines, args) && forall a :: a in want ==> a in args
    ensures MergedLines(lines, want, title) == lines
  {
    CarriesArgs(lines, args);
    MergeAgain(args, want);
  }

  lemma {:induction false} CmdlineIsOneLine(args: seq<string>)
    requires AllWords(args)
    ensures '\n' !in CmdlineLine(args)
  {
    forall i | 0 <= i < |args| ensures '\n' !in args[i] {
      assert IsWord(args[i]);
    }
    JoinStaysFree(args, ' ', '\n');
    KeyIsKey();
    AssignIsOneLine(Setting(CMDLINE_KEY, Join(args, ' ')));
  }

  /** Splitting the edited body gives exactly the edited lines. */
  lemma MergedTextLines(existing: string, args: string, title: string)
    requires args != "" && '\n' !in title
    ensures Split(MergedText(existing, args, title), '\n') == MergedLines(Split(existing, '\n'), Words(args), title)
  {
    var lines := Split(existing, '\n');
    var i := FirstCmdline(lines);
    JoinOfSplit(existing, '\n');
    if i < |lines| {
      MergeOfWords(ArgsOf(lines[i]), Words(args));
      CmdlineIsOneLine(Merge(ArgsOf(lines[i]), Words(args)));
    } else {
      CmdlineIsOneLine(Words(args));
    }
    SplitOfJoin(MergedLines(lines, Words(args), title), '\n');
  }

  // --- Main results ---

  predicate IsTitle(title: string) {
    !IsCmdline(title) && '\n' !in title
  }

  /** The arguments a body carries. */
  function Args(text: string): seq<string> {
    ArgsIn(Split(text, '\n'))
  }

  /** Existing arguments stay first, in order; the wanted ones follow unless already there. */
  lemma {:induction false} MergeAddsExactly(existing: string, args: string, title: string)
    requires IsTitle(title)
    ensures Args(existing) <= Args(MergedText(existing, args, title))
    ensures forall a :: a in Args(MergedText(existing, args, title)) <==> a in Args(existing) || a in Words(args)
  {
    if args != "" {
      var lines := Split(existing, '\n');
      MergedTextLines(existing, args, title);
      MergeCarries(lines, Words(args), title);
      MergeHas(ArgsIn(lines), Words(args));
      CarriesArgs(MergedLines(lines, Words(args), title), MergedArgs(lines, Words(args)));
    }
  }

  /** Once a body carries the arguments on a written line, merging them again is the
      identity on the text. */
  lemma MergeIntoCarrier(text: string, args: seq<string>, more: string, title: string)
    requires Carries(Split(text, '\n'), args) && forall a :: a in Words(more) ==> a in args
    ensures MergedText(text, more, title) == text
  {
    if more != "" {
      MergeOfPresent(Split(text, '\n'), args, Words(more), title);
      JoinOfSplit(text, '\n');
    }
  }

  lemma MergedCarries(existing: string, args: string, title: string)
    requires IsTitle(title) && args != ""
    ensures Carries(Split(MergedText(existing, args, title), '\n'), Args(MergedText(existing, args, title)))
  {
    var lines := Split(existing, '\n');
    MergedTextLines(existing, args, title);
    MergeCarries(lines, Words(args), title);
    CarriesArgs(MergedLines(lines, Words(args), title), MergedArgs(lines, Words(args)));
  }

  /** Merging is idempotent, also with another merge in between. */
  lemma {:induction false} MergeIsIdempotent(existing: string, a: string, b: string, titleA: string, titleB: string)
    requires IsTitle(titleA) && IsTitle(titleB)
    ensures var once := MergedText(existing, a, titleA); MergedText(once, a, titleA) == once
    ensures var both := MergedText(MergedText(existing, a, titleA), b, titleB);
            MergedText(both, a, titleA) == both && MergedText(both, b, titleB) == both
  {
    var once := MergedText(existing, a, titleA);
    var both := MergedText(once, b, titleB);
    MergeAddsExactly(existing, a, titleA);
    MergeAddsExactly(once, b, titleB);
    if a != "" {
      MergedCarries(existing, a, titleA);
      MergeIntoCarrier(once, Args(once), a, titleA);
    }
    if b != "" {
      MergedCarries(once, b, titleB);
      MergeIntoCarrier(both, Args(both), a, titleA);
      MergeIntoCarrier(both, Args(both), b, titleB);
    }
  }

  /** Either order of two merges leaves the same set of arguments. */
  lemma {:induction false} MergeOrderKeepsSet(existing: string, a: string, b: string, titleA: string, titleB: string)
    requires IsTitle(titleA) && IsTitle(titleB)
    ensures forall x :: x in Args(MergedText(MergedText(existing, a, titleA), b, titleB)) <==>
                        x in Args(MergedText(MergedText(existing, b, titleB), a, titleA))
  {
    MergeAddsExactly(existing, a, titleA);
    MergeAddsExactly(MergedText(existing, a, titleA), b, titleB);
    MergeAddsExactly(existing, b, titleB);
    MergeAddsExactly(MergedText(existing, b, titleB), a, titleA);
  }

  /** Every other line stays verbatim and in place. */
  lemma MergeKeepsOtherLines(existing: string, args: string, title: string, i: nat)
    requires IsTitle(title) && i < |Split(existing, '\n')| && i != FirstCmdline(Split(existing, '\n'))
    ensures i < |Split(MergedText(existing, args, title), '\n')|
    ensures Split(MergedText(existing, args, title), '\n')[i] == Split(existing, '\n')[i]
  {
    if args != "" {
      MergedTextLines(existing, args, title);
    }
  }

  lemma ResumeTitleIsOneLine()
    ensures '\n' !in RESUME_TITLE
  {
    FreeConcat("# Hi", "bernate resume ", "\U{2014} managed by GeST");
    assert RESUME_TITLE == "# Hi" + "bernate resume " + "\U{2014} managed by GeST";
  }

  lemma ResumeTitleIsTitle()
    ensures IsTitle(RESUME_TITLE)
  {
    ResumeTitleIsOneLine();
    TitleIsTitle("Hi", "bernate resume " + "\U{2014} managed by GeST");
  }

  lemma GpuTitleIsOneLine()
    ensures '\n' !in GPU_TITLE
  {
    FreeConcat("# GP", "U cmdline ", "\U{2014} managed by GeST");
    assert GPU_TITLE == "# GP" + "U cmdline " + "\U{2014} managed by GeST";
  }

  lemma GpuTitleIsTitle()
    ensures IsTitle(GPU_TITLE)
  {
    GpuTitleIsOneLine();
    TitleIsTitle("GP", "U cmdline " + "\U{2014} managed by GeST");
  }

  lemma TitleIsTitle(start: string, more: string)
    requires |start| == 2 && !IsSpace(start[0]) && start[1] != 'R'
    ensures !IsCmdline("# " + (start + more))
  {
    var line := "# " + (start + more);
    assert TrimStart(line) == line;
    assert line[1..] == " " + (start + more);
    assert (" " + (start + more))[1..] == start + more;
    assert TrimStart(start + more) == start + more;
    assert Assignment(line) == start + more;
    assert CMDLINE_KEY[1] == 'R';
    assert (CMDLINE_KEY + "=")[1] == 'R' && (start + more)[1] == start[1];
  }

  /** The wanted arguments that are not there yet, in the order they are wanted. */
  function NotIn(want: seq<string>, cur: seq<string>): seq<string> {
    if want == [] then []
    else (if want[0] in cur then [] else [want[0]]) + NotIn(want[1..], cur)
  }

  lemma {:induction false} NotInSnoc(want: seq<string>, a: string, cur: seq<string>)
    ensures NotIn(want + [a], cur) == NotIn(want, cur) + if a in cur then [] else [a]
  {
    if want == [] {
      assert want + [a] == [a] && [a][1..] == [];
    } else {
      assert (want + [a])[1..] == want[1..] + [a];
      NotInSnoc(want[1..], a, cur);
    }
  }

  lemma {:induction false} MissingIsNotIn(want: seq<string>, cur: seq<string>)
    ensures Missing(want, cur) == NotIn(want, cur)
  {
    if want != [] {
      MissingIsNotIn(Front(want), cur);
      NotInSnoc(Front(want), Last(want), cur);
      assert want == Front(want) + [Last(want)];
    }
  }

  /** The arguments after a merge, to the word and in order: the old ones, then the wanted ones
      that were not there. */
  lemma MergedArgsAre(existing: string, args: string, title: string)
    requires IsTitle(title)
    ensures Args(MergedText(existing, args, title)) == Args(existing) + NotIn(Words(args), Args(existing))
  {
    var lines, want := Split(existing, '\n'), Words(args);
    if args == "" {
      assert Args(existing) + [] == Args(existing);
    } else {
      MergedTextLines(existing, args, title);
      MergeCarries(lines, want, title);
      CarriesArgs(MergedLines(lines, want, title), MergedArgs(lines, want));
      MissingIsNotIn(want, ArgsIn(lines));
      if FirstCmdline(lines) == |lines| {
        NothingIsThere(want);
      }
    }
  }

  lemma {:induction false} NothingIsThere(want: seq<string>)
    ensures NotIn(want, []) == want && [] + want == want
  {
    if want != [] {
      NothingIsThere(want[1..]);
      assert [want[0]] + want[1..] == want;
    }
  }

  lemma WordConcat(a: string, b: string)
    requires IsWord(a) && IsWord(b)
    ensures IsWord(a + b)
  {
  }

  lemma PiecesJoin(a: string, n: string, b: string, c: string, d: string)
    ensures a + (n + " ") + b + (n + " ") + (c + " ") + d == Join([a + n, b + n, c, d], ' ')
  {
    assert [c, d][1..] == [d] && Join([c, d], ' ') == c + " " + d;
    assert [b + n, c, d][1..] == [c, d];
    assert [a + n, b + n, c, d][1..] == [b + n, c, d];
  }

  lemma NvidiaPieces() returns (a: string, n: string, b: string, c: string, d: string)
    ensures a == "rd.driver.blacklist=" && n == "nouveau" && b == "modprobe.blacklist="
    ensures c == "nvidia_drm.modeset=1" && d == "nvidia_drm.fbdev=1"
    ensures IsWord(a) && IsWord(n) && IsWord(b) && IsWord(c) && IsWord(d)
    ensures NVIDIA_ARGS == a + (n + " ") + b + (n + " ") + (c + " ") + d
  {
    a, n, b := "rd.driver.blacklist=", "nouveau", "modprobe.blacklist=";
    c, d := "nvidia_drm.modeset=1", "nvidia_drm.fbdev=1";
    assert n + " " == "nouveau " && c + " " == "nvidia_drm.modeset=1 ";
  }

  /** The arguments of the two steps. */
  function Wanted(uuid: string, nvidia: bool): seq<string> {
    (if uuid == "" then [] else ["resume=UUID=" + uuid])
    + if !nvidia then [] else ["rd.driver.blacklist=" + "nouveau", "modprobe.blacklist=" + "nouveau",
                               "nvidia_drm.modeset=1", "nvidia_drm.fbdev=1"]
  }

  lemma NvidiaWords()
    ensures Words(GpuArgs(true)) == Wanted("", true)
  {
    var a, n, b, c, d := NvidiaPieces();
    PiecesJoin(a, n, b, c, d);
    WordConcat(a, n);
    WordConcat(b, n);
    WordsOfJoin([a + n, b + n, c, d], ' ');
    assert [] + Wanted("", true) == Wanted("", true);
  }

  lemma ResumeWords(uuid: string)
    requires IsWord(uuid)
    ensures Words(ResumeArgs(uuid)) == Wanted(uuid, false)
  {
    assert IsWord("resume=UUID=");
    WordConcat("resume=UUID=", uuid);
    OneWord("resume=UUID=" + uuid);
  }

  /** What the kernel is told after the installer's two steps: what it was told before, the swap
      to resume from if there is one, and for the proprietary driver exactly these four. */
  lemma InstallerArgs(existing: string, uuid: string, nvidia: bool)
    requires uuid == "" || IsWord(uuid)
    ensures var both := MergedText(MergedText(existing, ResumeArgs(uuid), RESUME_TITLE), GpuArgs(nvidia), GPU_TITLE);
            forall a :: a in Args(both) <==> a in Args(existing) || a in Wanted(uuid, nvidia)
  {
    ResumeTitleIsTitle();
    GpuTitleIsTitle();
    var resumed := MergedText(existing, ResumeArgs(uuid), RESUME_TITLE);
    MergeAddsExactly(existing, ResumeArgs(uuid), RESUME_TITLE);
    MergeAddsExactly(resumed, GpuArgs(nvidia), GPU_TITLE);
    if uuid != "" {
      ResumeWords(uuid);
    }
    if nvidia {
      NvidiaWords();
    }
    WantedParts(uuid, nvidia);
  }

  lemma WantedParts(uuid: string, nvidia: bool)
    ensures forall a :: a in Wanted(uuid, nvidia) <==> a in Wanted(uuid, false) || a in Wanted("", nvidia)
    ensures Words(ResumeArgs("")) == [] == Wanted("", false) && Words(GpuArgs(false)) == []
  {
  }

  /** The installer's two steps, on any body: repeating either, in any order, changes
      nothing; without swap (or without the proprietary driver) the step changes nothing;
      and the arguments are the old ones, then what was missing. */
  lemma {:induction false} ResumeAndGpuCompose(existing: string, uuid: string, nvidia: bool)
    ensures var resumed := MergedText(existing, ResumeArgs(uuid), RESUME_TITLE);
            var both := MergedText(resumed, GpuArgs(nvidia), GPU_TITLE);
            && MergedText(both, ResumeArgs(uuid), RESUME_TITLE) == both
            && MergedText(both, GpuArgs(nvidia), GPU_TITLE) == both
            && Args(existing) <= Args(both)
            && (uuid == "" && !nvidia ==> both == existing)
  {
    ResumeTitleIsTitle();
    GpuTitleIsTitle();
    var resumed := MergedText(existing, ResumeArgs(uuid), RESUME_TITLE);
    MergeIsIdempotent(existing, ResumeArgs(uuid), GpuArgs(nvidia), RESUME_TITLE, GPU_TITLE);
    MergeAddsExactly(existing, ResumeArgs(uuid), RESUME_TITLE);
    MergeAddsExactly(resumed, GpuArgs(nvidia), GPU_TITLE);
  }

  // --- Together with the key editor ---

  lemma CmdlineIffKey(line: string)
    ensures IsCmdline(line) <==> KeyOf(line) == Some(CMDLINE_KEY)
  {
    var a := Assignment(line);
    KeyIsKey();
    if IsCmdline(line) {
      var rest := a[|CMDLINE_KEY|..];
      assert a == CMDLINE_KEY + rest;
      assert rest[0] == (CMDLINE_KEY + "=")[|CMDLINE_KEY|];
      KeyLengthOf(CMDLINE_KEY, rest);
    }
    if KeyOf(line) == Some(CMDLINE_KEY) {
      assert a[..|CMDLINE_KEY| + 1] == CMDLINE_KEY + "=";
    }
  }

  lemma {:induction false} ArgsFromFirst(lines: seq<string>)
    ensures FirstWith(lines, CMDLINE_KEY) ==
              if FirstCmdline(lines) < |lines| then Some(lines[FirstCmdline(lines)]) else None
  {
    if lines != [] {
      CmdlineIffKey(lines[0]);
      ArgsFromFirst(lines[1..]);
    }
  }

  lemma FirstWithPieces(text: string, key: string)
    ensures FirstWith(Split(text, '\n'), key) == FirstWith(LinesOf(text), key)
  {
    var pieces := Split(text, '\n');
    if Last(pieces) == "" {
      FirstWithSnoc(Front(pieces), "", key);
      assert pieces == Front(pieces) + [""];
    }
  }

  /** Setting other keys leaves the kernel arguments exactly as they were. */
  lemma {:induction false} SettingKeepsArgs(existing: string, p: seq<Setting>)
    requires ValidSettings(p) && ValueFor(p, CMDLINE_KEY).None?
    ensures Args(Applied(existing, p)) == Args(existing)
  {
    ApplySetsExactly(existing, p, CMDLINE_KEY);
    FirstWithPieces(existing, CMDLINE_KEY);
    FirstWithPieces(Applied(existing, p), CMDLINE_KEY);
    ArgsFromFirst(Split(existing, '\n'));
    ArgsFromFirst(Split(Applied(existing, p), '\n'));
  }

  lemma ReplacedLine(lines: seq<string>, i: nat, line: string, key: string)
    requires i < |lines| && KeyOf(lines[i]) != Some(key) && KeyOf(line) != Some(key)
    ensures FirstWith(lines[i := line], key) == FirstWith(lines, key)
  {
    var a, b := lines[..i], lines[i + 1..];
    assert lines == a + [lines[i]] + b && lines[i := line] == a + [line] + b;
    FirstWithAppend(a + [lines[i]], b, key);
    FirstWithAppend(a + [line], b, key);
    FirstWithSnoc(a, lines[i], key);
    FirstWithSnoc(a, line, key);
  }

  /** Merging arguments leaves the line of every other key exactly as it was. */
  lemma {:induction false} MergeKeepsOtherKeys(existing: string, args: string, title: string, key: string)
    requires IsTitle(title) && KeyOf(title) == None && key != CMDLINE_KEY
    ensures FirstWith(LinesOf(MergedText(existing, args, title)), key) == FirstWith(LinesOf(existing), key)
  {
    if args != "" {
      var lines := Split(existing, '\n');
      var i := FirstCmdline(lines);
      var want := Words(args);
      MergedTextLines(existing, args, title);
      FirstWithPieces(existing, key);
      FirstWithPieces(MergedText(existing, args, title), key);
      if i < |lines| {
        var line := CmdlineLine(Merge(ArgsOf(lines[i]), want));
        CmdlineIffKey(lines[i]);
        KeyIsKey();
        KeyOfAssign(CMDLINE_KEY, Join(Merge(ArgsOf(lines[i]), want), ' '));
        ReplacedLine(lines, i, line, key);
      } else {
        AppendedKeyless(lines, title, want, key);
      }
    }
  }

  lemma AppendedKeyless(lines: seq<string>, title: string, want: seq<string>, key: string)
    requires KeyOf(title) == None && key != CMDLINE_KEY && FirstCmdline(lines) == |lines|
    ensures FirstWith(MergedLines(lines, want, title), key) == FirstWith(lines, key)
  {
    var gapped := lines + if lines != [] && Strip(Last(lines)) != "" then [""] else [];
    KeyIsKey();
    KeyOfAssign(CMDLINE_KEY, Join(want, ' '));
    assert lines + [] == lines;
    FirstWithSnoc(lines, "", key);
    FirstWithSnoc(gapped, title, key);
    FirstWithSnoc(gapped + [title], CmdlineLine(want), key);
  }

  lemma KeylessTitles()
    ensures KeyOf(RESUME_TITLE) == None && KeyOf(GPU_TITLE) == None
  {
    KeylessComment("Hi", "bernate resume " + "\U{2014} managed by GeST");
    KeylessUpperTitle();
  }

  /** `GPU cmdline`: upper-case letters that no `=` follows. */
  lemma KeylessUpperTitle()
    ensures KeyOf(GPU_TITLE) == None
  {
    var more := "cmdline " + "\U{2014} managed by GeST";
    var body := "GPU" + (" " + more);
    assert GPU_TITLE == "# " + body;
    assert GPU_TITLE[1..] == " " + body;
    assert (" " + body)[1..] == body;
    assert TrimStart(body) == body;
    assert Assignment(GPU_TITLE) == body;
    KeyLengthOf("GPU", " " + more);
  }

  lemma SeamlessKeys()
    ensures IsKey("GRUB_TIMEOUT") && IsKey("GRUB_CMDLINE_LINUX_DEFAULT") && IsKey("GRUB_TERMINAL_OUTPUT")
    ensures IsKey("GRUB_GFXMODE") && IsKey("GRUB_THEME")
    ensures "GRUB_TIMEOUT"[5] == 'T' && "GRUB_GFXMODE"[5] == 'G'
  {
  }

  lemma LaterPieces()
    ensures '\n' !in "vt.global_cursor_default=0 " && '\n' !in "systemd.show_status=false"
  {
  }

  lemma FirstPieces()
    ensures '\n' !in "quiet splash loglevel=3 " && '\n' !in "rd.udev.log_level=3 "
  {
  }

  lemma CmdlineValue()
    ensures '\n' !in SEAMLESS_CMDLINE
  {
    FirstPieces();
    LaterPieces();
    FreeConcat("quiet splash loglevel=3 ", "rd.udev.log_level=3 ",
               "vt.global_cursor_default=0 " + "systemd.show_status=false");
    FourPieces("quiet splash loglevel=3 ", "rd.udev.log_level=3 ", "vt.global_cursor_default=0 ",
               "systemd.show_status=false");
  }

  lemma FourPieces(a: string, b: string, c: string, d: string)
    ensures a + b + c + d == a + b + (c + d)
  {
  }

  lemma ThemeValue()
    ensures '\n' !in "/boot/grub/themes/" + "hede/theme.txt"
  {
  }

  lemma SeamlessValues()
    ensures forall i :: 0 <= i < |SEAMLESS_SETTINGS| ==> '\n' !in SEAMLESS_SETTINGS[i].value
  {
    CmdlineValue();
    ThemeValue();
    FiveValues(SEAMLESS_SETTINGS);
  }

  lemma FiveValues(p: seq<Setting>)
    requires |p| == 5 && '\n' !in p[0].value && '\n' !in p[1].value && '\n' !in p[2].value
    requires '\n' !in p[3].value && '\n' !in p[4].value
    ensures forall i :: 0 <= i < |p| ==> '\n' !in p[i].value
  {
  }

  lemma FiveDistinct(p: seq<Setting>, key: string)
    requires |p| == 5
    requires |p[0].key| == 12 && |p[1].key| == 26 && |p[2].key| == 20 && |p[3].key| == 12 && |p[4].key| == 10
    requires p[0].key[5] != p[3].key[5] && |key| == 18
    ensures forall i, j :: 0 <= i < j < |p| ==> p[i].key != p[j].key
    ensures ValueFor(p, key).None?
  {
  }

  lemma SeamlessIsValid()
    ensures ValidSettings(SEAMLESS_SETTINGS) && ValueFor(SEAMLESS_SETTINGS, CMDLINE_KEY).None?
  {
    SeamlessKeys();
    SeamlessValues();
    FiveDistinct(SEAMLESS_SETTINGS, CMDLINE_KEY);
  }

  function Quoted(key: string, value: string): string {
    key + "=\"" + value + "\""
  }

  /** What a seamless boot sets, key by key. */
  lemma SeamlessSets(existing: string)
    ensures var lines := LinesOf(Applied(existing, SEAMLESS_SETTINGS));
            && FirstWith(lines, "GRUB_TIMEOUT") == Some(Quoted("GRUB_TIMEOUT", "5"))
            && FirstWith(lines, "GRUB_CMDLINE_LINUX_DEFAULT") == Some(Quoted("GRUB_CMDLINE_LINUX_DEFAULT",
                 "quiet splash loglevel=3 " + "rd.udev.log_level=3 "
                 + "vt.global_cursor_default=0 " + "systemd.show_status=false"))
            && FirstWith(lines, "GRUB_TERMINAL_OUTPUT") == Some(Quoted("GRUB_TERMINAL_OUTPUT", "gfxterm"))
            && FirstWith(lines, "GRUB_GFXMODE") == Some(Quoted("GRUB_GFXMODE", "auto"))
            && FirstWith(lines, "GRUB_THEME") == Some(Quoted("GRUB_THEME", "/boot/grub/themes/" + "hede/theme.txt"))
  {
    SeamlessIsValid();
    var p := SEAMLESS_SETTINGS;
    SettingStands(existing, p, 0);
    SettingStands(existing, p, 1);
    SettingStands(existing, p, 2);
    SettingStands(existing, p, 3);
    SettingStands(existing, p, 4);
  }

  lemma SettingStands(existing: string, p: seq<Setting>, i: nat)
    requires ValidSettings(p) && i < |p|
    ensures FirstWith(LinesOf(Applied(existing, p)), p[i].key) == Some(Quoted(p[i].key, p[i].value))
  {
    ApplySetsExactly(existing, p, p[i].key);
    IndexOfKey(p, i);
    AssignIsQuoted(p[i].key, p[i].value);
  }

  lemma AssignIsQuoted(key: string, value: string)
    ensures Assign(key, value) == Quoted(key, value)
  {
    assert "=" + "\"" == "=\"";
    Assoc(key, "=", "\"");
    Assoc(key + "=", "\"", value);
    Assoc(key + "=", "\"" + value, "\"");
  }

  lemma {:induction false} IndexOfKey(p: seq<Setting>, i: nat)
    requires ValidSettings(p) && i < |p|
    ensures ValueFor(p, p[i].key) == Some(p[i].value)
  {
    var j := IndexOf(p, p[i].key);
    assert j <= i;
  }

  /** A seamless body stays seamless under both merges, and applying the seamless settings
      afterwards changes no key and no kernel argument. */
  lemma {:induction false} SeamlessAndMergesCompose(existing: string, args: string, title: string, key: string)
    requires IsTitle(title) && KeyOf(title) == None
    ensures var seamless := Applied(existing, SEAMLESS_SETTINGS);
            var merged := MergedText(seamless, args, title);
            && Args(Applied(merged, SEAMLESS_SETTINGS)) == Args(merged)
            && (key != CMDLINE_KEY ==>
                  FirstWith(LinesOf(merged), key) == FirstWith(LinesOf(seamless), key)
                  && FirstWith(LinesOf(Applied(merged, SEAMLESS_SETTINGS)), key) == FirstWith(LinesOf(seamless), key))
  {
    var seamless := Applied(existing, SEAMLESS_SETTINGS);
    var merged := MergedText(seamless, args, title);
    SeamlessIsValid();
    SettingKeepsArgs(merged, SEAMLESS_SETTINGS);
    ApplySetsExactly(existing, SEAMLESS_SETTINGS, key);
    ApplySetsExactly(merged, SEAMLESS_SETTINGS, key);
    if key != CMDLINE_KEY {
      MergeKeepsOtherKeys(seamless, args, title, key);
    }
  }
}
