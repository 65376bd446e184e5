/** Setting keys in /etc/default/grub: the first line of a key, commented out or not, is
    rewritten in place, keys without a line are appended under a title, and every other line
    is left as it is. */
module GrubDefault {
  import opened Splitting
  import opened Characters
  import opened Texts

  datatype Option<T> = None | Some(value: T)

  datatype Setting = Setting(key: string, value: string)

  // --- The key of a line ---

  predicate IsKeyChar(c: char) {
    IsUpper(c) || IsDigit(c) || c == '_'
  }

  predicate IsKey(s: string) {
    s != "" && forall i :: 0 <= i < |s| ==> IsKeyChar(s[i])
  }

  function KeyLength(s: string): (n: nat)
    ensures n <= |s|
    ensures forall i :: 0 <= i < n ==> IsKeyChar(s[i])
    ensures n < |s| ==> !IsKeyChar(s[n])
  {
    if s == "" || !IsKeyChar(s[0]) then 0 else 1 + KeyLength(s[1..])
  }

  /** The assignment on a line, commented out or not. */
  function Assignment(line: string): string {
    var t := TrimStart(line);
    if t != "" && t[0] == '#' then TrimStart(t[1..]) else t
  }

  function KeyOf(line: string): Option<string> {
    var a := Assignment(line);
    var n := KeyLength(a);
    if 0 < n < |a| && a[n] == '=' then Some(a[..n]) else None
  }

  function Assign(key: string, value: string): string {
    key + "=" + ("\"" + value + "\"")
  }

  function SettingLine(s: Setting): string {
    Assign(s.key, s.value)
  }

  lemma {:induction false} KeyLengthOf(key: string, rest: string)
    requires forall i :: 0 <= i < |key| ==> IsKeyChar(key[i])
    requires rest == "" || !IsKeyChar(rest[0])
    ensures KeyLength(key + rest) == |key|
  {
    if key == "" {
      assert key + rest == rest;
    } else {
      assert (key + rest)[1..] == key[1..] + rest;
      KeyLengthOf(key[1..], rest);
    }
  }

  lemma KeyOfAssign(key: string, value: string)
    requires IsKey(key)
    ensures Assignment(Assign(key, value)) == Assign(key, value)
    ensures KeyOf(Assign(key, value)) == Some(key)
  {
    var rest := "=" + ("\"" + value + "\"");
    assert Assign(key, value) == key + rest;
    assert IsKeyChar(key[0]);
    KeyLengthOf(key, rest);
    assert (key + rest)[..|key|] == key;
  }

  // --- Setting keys ---

  function IndexOf(p: seq<Setting>, key: string): (i: nat)
    ensures i <= |p|
    ensures i < |p| ==> p[i].key == key
    ensures forall j :: 0 <= j < i ==> p[j].key != key
  {
    if p == [] || p[0].key == key then 0 else 1 + IndexOf(p[1..], key)
  }

  function Without(p: seq<Setting>, i: nat): seq<Setting>
    requires i < |p|
  {
    p[..i] + p[i + 1..]
  }

  /** The setting a line answers to, or |p|. */
  function Answers(line: string, p: seq<Setting>): (i: nat)
    ensures i <= |p|
    ensures i < |p| ==> KeyOf(line) == Some(p[i].key)
  {
    match KeyOf(line)
    case None => |p|
    case Some(key) => IndexOf(p, key)
  }

  datatype Pass = Pass(out: seq<string>, pending: seq<Setting>)

  function Step(r: Pass, line: string): Pass {
    var i := Answers(line, r.pending);
    if i < |r.pending| then Pass(r.out + [SettingLine(r.pending[i])], Without(r.pending, i))
    else Pass(r.out + [line], r.pending)
  }

  /** One pass over the lines, top to bottom: each pending setting is used up by the first
      line that answers to it. */
  function Rewritten(lines: seq<string>, p: seq<Setting>): (r: Pass)
    ensures |r.out| == |lines|
  {
    if lines == [] then Pass([], p) else Step(Rewritten(Front(lines), p), Last(lines))
  }

  const BLOCK_TITLE := "# " + ("Se" + ("amless boot (HeDE) " + "\U{2014} managed by GeST"))

  function SettingLines(p: seq<Setting>): seq<string> {
    seq(|p|, i requires 0 <= i < |p| => SettingLine(p[i]))
  }

  function Block(out: seq<string>, pending: seq<Setting>): seq<string> {
    (if out != [] && Strip(Last(out)) != "" then [""] else []) + [BLOCK_TITLE] + SettingLines(pending)
  }

  function Completed(r: Pass): seq<string> {
    if r.pending == [] then r.out else r.out + Block(r.out, r.pending)
  }

  function TrimNewlines(s: string): string {
    if s != "" && Last(s) == '\n' then TrimNewlines(Front(s)) else s
  }

  function Finished(lines: seq<string>): string {
    TrimNewlines(Join(lines, '\n')) + "\n"
  }

  function Applied(existing: string, settings: seq<Setting>): string {
    Finished(Completed(Rewritten(LinesOf(existing), settings)))
  }

  method ApplyGrubDefault(existing: string, settings: seq<Setting>) returns (text: string)
    ensures text == Applied(existing, settings)
  {
    var lines := LinesOf(existing);
    var out, pending := RewriteLines(lines, settings);
    if pending != [] {
      out := AppendBlock(out, pending);
    }
    text := TrimNewlines(Join(out, '\n')) + "\n";
  }

  method RewriteLines(lines: seq<string>, settings: seq<Setting>) returns (out: seq<string>, pending: seq<Setting>)
    ensures Pass(out, pending) == Rewritten(lines, settings)
  {
    pending := settings;
    out := [];
    for n := 0 to |lines|
      invariant Pass(out, pending) == Rewritten(lines[..n], settings)
    {
      assert Front(lines[..n + 1]) == lines[..n] && Last(lines[..n + 1]) == lines[n];
      var i := Answers(lines[n], pending);
      if i < |pending| {
        out := out + [SettingLine(pending[i])];
        pending := Without(pending, i);
      } else {
        out := out + [lines[n]];
      }
    }
    assert lines[..|lines|] == lines;
  }

  method AppendBlock(rewritten: seq<string>, pending: seq<Setting>) returns (out: seq<string>)
    ensures out == rewritten + Block(rewritten, pending)
  {
    out := rewritten;
    if out != [] && Strip(Last(out)) != "" {
      out := out + [""];
    }
    out := out + [BLOCK_TITLE];
    ghost var before := out;
    for k := 0 to |pending|
      invariant out == before + SettingLines(pending[..k])
    {
      assert SettingLines(pending[..k + 1]) == SettingLines(pending[..k]) + [SettingLine(pending[k])];
      out := out + [SettingLine(pending[k])];
    }
    assert pending[..|pending|] == pending;
  }

  // --- What one pass does, line by line ---

  predicate ValidSettings(p: seq<Setting>) {
    && (forall i :: 0 <= i < |p| ==> IsKey(p[i].key) && '\n' !in p[i].value)
    && (forall i, j :: 0 <= i < j < |p| ==> p[i].key != p[j].key)
  }

  lemma WithoutStaysValid(p: seq<Setting>, i: nat)
    requires ValidSettings(p) && i < |p|
    ensures ValidSettings(Without(p, i))
  {
    var q := Without(p, i);
    assert forall j :: 0 <= j < |q| ==> q[j] == p[if j < i then j else j + 1];
  }

  function ValueFor(p: seq<Setting>, key: string): Option<string> {
    var i := IndexOf(p, key);
    if i < |p| then Some(p[i].value) else None
  }

  lemma ValueForWithout(p: seq<Setting>, i: nat, key: string)
    requires ValidSettings(p) && i < |p|
    ensures ValueFor(Without(p, i), key) == if key == p[i].key then None else ValueFor(p, key)
  {
    var q := Without(p, i);
    assert forall j :: 0 <= j < |q| ==> q[j] == p[if j < i then j else j + 1];
    var n, m := IndexOf(p, key), IndexOf(q, key);
    if key != p[i].key && n < |p| {
      assert q[if n < i then n else n - 1] == p[n];
    }
  }

  /** The first line that assigns `key`, commented out or not. */
  function FirstWith(lines: seq<string>, key: string): Option<string> {
    if lines == [] then None
    else if KeyOf(lines[0]) == Some(key) then Some(lines[0])
    else FirstWith(lines[1..], key)
  }

  lemma {:induction false} FirstWithAppend(a: seq<string>, b: seq<string>, key: string)
    ensures FirstWith(a + b, key) == if FirstWith(a, key).Some? then FirstWith(a, key) else FirstWith(b, key)
  {
    if a == [] {
      assert a + b == b;
    } else {
      assert (a + b)[1..] == a[1..] + b;
      FirstWithAppend(a[1..], b, key);
    }
  }

  lemma FirstWithSnoc(lines: seq<string>, line: string, key: string)
    ensures FirstWith(lines + [line], key) ==
              if FirstWith(lines, key).Some? then FirstWith(lines, key)
              else if KeyOf(line) == Some(key) then Some(line) else None
  {
    FirstWithAppend(lines, [line], key);
    assert [line][1..] == [];
  }

  /** What a pass has done about `key`: its first line was rewritten if there is a value for
      it, and the value is still pending exactly if there was no line. */
  predicate KeyDone(lines: seq<string>, p: seq<Setting>, r: Pass, key: string) {
    && FirstWith(r.out, key) == (if FirstWith(lines, key).None? then None
                                 else match ValueFor(p, key)
                                   case None => FirstWith(lines, key)
                                   case Some(value) => Some(Assign(key, value)))
    && ValueFor(r.pending, key) == (if FirstWith(lines, key).Some? then None else ValueFor(p, key))
  }

  lemma StepByKey(lines: seq<string>, p: seq<Setting>, r: Pass, line: string, key: string)
    requires ValidSettings(r.pending) && KeyDone(lines, p, r, key)
    ensures ValidSettings(Step(r, line).pending) && KeyDone(lines + [line], p, Step(r, line), key)
  {
    var i := Answers(line, r.pending);
    FirstWithSnoc(lines, line, key);
    if i < |r.pending| {
      var s := r.pending[i];
      WithoutStaysValid(r.pending, i);
      ValueForWithout(r.pending, i, key);
      KeyOfAssign(s.key, s.value);
      FirstWithSnoc(r.out, SettingLine(s), key);
    } else {
      FirstWithSnoc(r.out, line, key);
    }
  }

  lemma {:induction false} PassByKey(lines: seq<string>, p: seq<Setting>, key: string)
    requires ValidSettings(p)
    ensures ValidSettings(Rewritten(lines, p).pending) && KeyDone(lines, p, Rewritten(lines, p), key)
  {
    if lines != [] {
      PassByKey(Front(lines), p, key);
      StepByKey(Front(lines), p, Rewritten(Front(lines), p), Last(lines), key);
      assert lines == Front(lines) + [Last(lines)];
    }
  }

  lemma {:induction false} FirstWithNone(lines: seq<string>, key: string)
    ensures FirstWith(lines, key).None? <==> forall j :: 0 <= j < |lines| ==> KeyOf(lines[j]) != Some(key)
  {
    if lines != [] {
      FirstWithNone(lines[1..], key);
      assert forall j :: 1 <= j < |lines| ==> lines[1..][j - 1] == lines[j];
    }
  }

  /** What comes out for line `i`. */
  function LineAfter(lines: seq<string>, p: seq<Setting>, i: nat): string
    requires i < |lines|
  {
    match KeyOf(lines[i])
    case None => lines[i]
    case Some(key) =>
      if ValueFor(p, key).Some? && FirstWith(lines[..i], key).None? then Assign(key, ValueFor(p, key).value)
      else lines[i]
  }

  lemma LastLineAfter(lines: seq<string>, p: seq<Setting>, line: string)
    requires ValidSettings(p)
    ensures var r := Rewritten(lines, p);
            Step(r, line).out == r.out + [LineAfter(lines + [line], p, |lines|)]
  {
    assert (lines + [line])[..|lines|] == lines;
    if KeyOf(line).Some? {
      PassByKey(lines, p, KeyOf(line).value);
    }
  }

  lemma LineAfterStays(lines: seq<string>, line: string, p: seq<Setting>, i: nat)
    requires i < |lines|
    ensures LineAfter(lines + [line], p, i) == LineAfter(lines, p, i)
  {
    assert (lines + [line])[..i] == lines[..i];
  }

  /** Line by line: the first line of a key that is being set becomes its assignment; every
      other line comes out as it went in. */
  lemma {:induction false} PassByLine(lines: seq<string>, p: seq<Setting>, i: nat)
    requires ValidSettings(p) && i < |lines|
    ensures Rewritten(lines, p).out[i] == LineAfter(lines, p, i)
  {
    var before, line := Front(lines), Last(lines);
    LastLineAfter(before, p, line);
    assert lines == before + [line];
    assert Rewritten(lines, p) == Step(Rewritten(before, p), line);
    if i < |before| {
      PassByLine(before, p, i);
      LineAfterStays(before, line, p, i);
    }
  }

  // --- Idempotence ---

  /** A pass over `b` continuing from `r`. */
  function Continued(r: Pass, b: seq<string>): Pass {
    Pass(r.out + Rewritten(b, r.pending).out, Rewritten(b, r.pending).pending)
  }

  lemma ContinueNothing(r: Pass)
    ensures Continued(r, []) == r
  {
    assert r.out + [] == r.out;
  }

  lemma ContinueStep(r: Pass, b: seq<string>, line: string)
    ensures Continued(r, b + [line]) == Step(Continued(r, b), line)
  {
    var s := Rewritten(b, r.pending);
    assert Front(b + [line]) == b && Last(b + [line]) == line;
    assert Rewritten(b + [line], r.pending) == Step(s, line);
    assert forall x: string :: (r.out + s.out) + [x] == r.out + (s.out + [x]);
  }

  lemma {:induction false} PassAppend(a: seq<string>, b: seq<string>, p: seq<Setting>)
    ensures Rewritten(a + b, p) == Continued(Rewritten(a, p), b)
    decreases b
  {
    if b == [] {
      assert a + b == a;
      ContinueNothing(Rewritten(a, p));
    } else {
      var before, line := Front(b), Last(b);
      assert b == before + [line] && a + b == (a + before) + [line];
      PassAppend(a, before, p);
      ContinueStep(Rewritten(a, p), before, line);
    }
  }

  /** A second pass over the output of a first finds the same lines and writes the same. */
  lemma {:induction false} PassAgain(lines: seq<string>, p: seq<Setting>)
    requires ValidSettings(p)
    ensures Rewritten(Rewritten(lines, p).out, p) == Rewritten(lines, p)
  {
    if lines != [] {
      var r := Rewritten(Front(lines), p);
      var i := Answers(Last(lines), r.pending);
      var out := Rewritten(lines, p).out;
      PassAgain(Front(lines), p);
      PassByKey(Front(lines), p, "");
      assert Front(out) == r.out;
      if i < |r.pending| {
        KeyOfAssign(r.pending[i].key, r.pending[i].value);
        assert Answers(Last(out), r.pending) == i;
      }
    }
  }

  lemma StepOverSetting(out: seq<string>, p: seq<Setting>, k: nat)
    requires ValidSettings(p) && k < |p|
    ensures Step(Pass(out, p[k..]), SettingLine(p[k])) == Pass(out + [SettingLine(p[k])], p[k + 1..])
  {
    KeyOfAssign(p[k].key, p[k].value);
    assert p[k..][0] == p[k];
    assert Answers(SettingLine(p[k]), p[k..]) == 0;
    assert Without(p[k..], 0) == p[k + 1..];
  }

  lemma SettingLinesSnoc(p: seq<Setting>, k: nat)
    requires k < |p|
    ensures SettingLines(p[..k + 1]) == SettingLines(p[..k]) + [SettingLine(p[k])]
  {
  }

  lemma PassOverOneMore(lines: seq<string>, p: seq<Setting>, k: nat)
    requires ValidSettings(p) && k < |p|
    requires Rewritten(lines, p) == Pass(lines, p[k..])
    ensures Rewritten(lines + [SettingLine(p[k])], p) == Pass(lines + [SettingLine(p[k])], p[k + 1..])
  {
    StepOverSetting(lines, p, k);
  }

  lemma {:induction false} PassOverSettings(p: seq<Setting>, k: nat)
    requires ValidSettings(p) && k <= |p|
    ensures Rewritten(SettingLines(p[..k]), p) == Pass(SettingLines(p[..k]), p[k..])
  {
    if k > 0 {
      PassOverSettings(p, k - 1);
      PassOverOneMore(SettingLines(p[..k - 1]), p, k - 1);
      SettingLinesSnoc(p, k - 1);
    }
  }

  lemma PassOverKeyless(line: string, p: seq<Setting>)
    requires KeyOf(line) == None
    ensures Rewritten([line], p) == Pass([line], p)
  {
    assert Front([line]) == [];
  }

  lemma TitleIsKeyless()
    ensures KeyOf(BLOCK_TITLE) == None
  {
    KeylessComment("Se", "amless boot (HeDE) " + "\U{2014} managed by GeST");
  }

  lemma TitleIsOneLine()
    ensures '\n' !in BLOCK_TITLE
  {
    FreeConcat("# Se", "amless boot (HeDE) ", "\U{2014} managed by GeST");
    assert BLOCK_TITLE == "# Se" + "amless boot (HeDE) " + "\U{2014} managed by GeST";
  }

  lemma FreeConcat(a: string, b: string, c: string)
    requires '\n' !in a && '\n' !in b && '\n' !in c
    ensures '\n' !in a + b + c
  {
  }

  lemma KeylessComment(start: string, more: string)
    requires |start| == 2 && IsUpper(start[0]) && IsLower(start[1])
    ensures KeyOf("# " + (start + more)) == None
  {
    var line := "# " + (start + more);
    assert TrimStart(line) == line;
    assert line[1..] == " " + (start + more);
    assert (" " + (start + more))[1..] == start + more;
    assert TrimStart(start + more) == start + more;
    assert Assignment(line) == start + more;
    assert (start + more)[1..][0] == start[1];
  }

  lemma PassOverKeylessThen(line: string, rest: seq<string>, p: seq<Setting>)
    requires KeyOf(line) == None && Rewritten(rest, p) == Pass(rest, [])
    ensures Rewritten([line] + rest, p) == Pass([line] + rest, [])
  {
    PassOverKeyless(line, p);
    PassAppend([line], rest, p);
  }

  lemma PassOverTitle(title: string, p: seq<Setting>)
    requires ValidSettings(p) && KeyOf(title) == None
    ensures Rewritten([title] + SettingLines(p), p) == Pass([title] + SettingLines(p), [])
  {
    PassOverSettings(p, |p|);
    assert p[..|p|] == p && p[|p|..] == [];
    PassOverKeylessThen(title, SettingLines(p), p);
  }

  lemma PassOverGap(block: seq<string>, p: seq<Setting>)
    requires Rewritten(block, p) == Pass(block, [])
    ensures Rewritten([""] + block, p) == Pass([""] + block, [])
  {
    PassOverKeylessThen("", block, p);
  }

  lemma Regroup(a: seq<string>, b: seq<string>, c: seq<string>)
    ensures a + b + c == a + (b + c)
    ensures [] + b + c == b + c
  {
  }

  lemma PassOverBlock(out: seq<string>, p: seq<Setting>)
    requires ValidSettings(p)
    ensures Rewritten(Block(out, p), p) == Pass(Block(out, p), [])
  {
    TitleIsKeyless();
    PassOverTitle(BLOCK_TITLE, p);
    PassOverGap([BLOCK_TITLE] + SettingLines(p), p);
    Regroup([""], [BLOCK_TITLE], SettingLines(p));
  }

  /** Something appended under a title stands apart: the title opens the text or follows a
      blank line, of which at most one is new. */
  ghost predicate StandsApart(before: seq<string>, title: string, rest: seq<string>, after: seq<string>) {
    if before == [] || Strip(Last(before)) == "" then after == before + [title] + rest
    else after == before + [""] + [title] + rest
  }

  lemma BlockStandsApart(r: Pass)
    requires r.pending != []
    ensures StandsApart(r.out, BLOCK_TITLE, SettingLines(r.pending), Completed(r))
  {
    var gap := if r.out != [] && Strip(Last(r.out)) != "" then [""] else [];
    assert Completed(r) == r.out + gap + [BLOCK_TITLE] + SettingLines(r.pending);
    assert r.out + [] == r.out;
  }

  /** An assignment is the key, an equals sign and the value between double quotes. */
  lemma AssignText(key: string, value: string)
    ensures Assign(key, value) == key + "=\"" + value + "\""
  {
    assert "=" + "\"" == "=\"";
  }

  /** The completed lines need nothing more. */
  lemma CompletedIsSettled(lines: seq<string>, p: seq<Setting>)
    requires ValidSettings(p)
    ensures var done := Completed(Rewritten(lines, p)); Rewritten(done, p) == Pass(done, [])
  {
    var r := Rewritten(lines, p);
    PassAgain(lines, p);
    if r.pending != [] {
      PassByKey(lines, p, "");
      PassOverBlock(r.out, r.pending);
      PassAppend(r.out, Block(r.out, r.pending), p);
    }
  }

  // --- Trailing newlines ---

  /** The lines that survive stripping trailing newlines (at least one). */
  function TrimLines(lines: seq<string>): seq<string> {
    if lines == [] then [""]
    else if |lines| == 1 || Last(lines) != "" then lines
    else TrimLines(Front(lines))
  }

  lemma {:induction false} JoinEnds(lines: seq<string>)
    requires AllFree(lines, '\n') && lines != [] && Last(lines) != ""
    ensures Join(lines, '\n') != "" && Last(Join(lines, '\n')) != '\n'
  {
    if |lines| == 1 {
      assert Last(lines) == lines[0];
      assert Last(lines[0]) in lines[0];
    } else {
      assert Last(lines[1..]) == Last(lines);
      JoinEnds(lines[1..]);
    }
  }

  lemma {:induction false} FinishedLines(lines: seq<string>)
    requires AllFree(lines, '\n')
    ensures LinesOf(Finished(lines)) == TrimLines(lines)
    ensures Finished(TrimLines(lines)) == Finished(lines)
  {
    if lines == [] || (|lines| == 1 && lines[0] == "") {
      LinesOfTerminated([""]);
      assert Join([""], '\n') == "";
      assert Join(lines, '\n') == "";
    } else if Last(lines) != "" {
      JoinEnds(lines);
      LinesOfTerminated(lines);
    } else {
      assert lines == Front(lines) + [""];
      JoinSnocEmpty(Front(lines), '\n');
      assert Front(Join(Front(lines), '\n') + "\n") == Join(Front(lines), '\n');
      FinishedLines(Front(lines));
    }
  }

  lemma {:induction false} TrimStaysSettled(lines: seq<string>, p: seq<Setting>)
    requires Rewritten(lines, p) == Pass(lines, [])
    ensures Rewritten(TrimLines(lines), p) == Pass(TrimLines(lines), [])
  {
    if lines == [] {
      PassOverKeyless("", []);
    } else if |lines| > 1 && Last(lines) == "" {
      var r := Rewritten(Front(lines), p);
      assert Step(r, "") == Pass(r.out + [""], r.pending);
      assert Front(r.out + [""]) == r.out;
      TrimStaysSettled(Front(lines), p);
    }
  }

  lemma LineAfterIsFree(lines: seq<string>, p: seq<Setting>, i: nat)
    requires ValidSettings(p) && i < |lines| && '\n' !in lines[i]
    ensures '\n' !in LineAfter(lines, p, i)
  {
    if KeyOf(lines[i]).Some? && ValueFor(p, KeyOf(lines[i]).value).Some? {
      AssignIsOneLine(p[IndexOf(p, KeyOf(lines[i]).value)]);
    }
  }

  lemma AssignIsOneLine(s: Setting)
    requires IsKey(s.key) && '\n' !in s.value
    ensures '\n' !in SettingLine(s)
  {
  }

  lemma BlockIsFree(out: seq<string>, p: seq<Setting>)
    requires ValidSettings(p)
    ensures AllFree(Block(out, p), '\n')
  {
    TitleIsOneLine();
    forall i | 0 <= i < |p| ensures '\n' !in SettingLines(p)[i] {
      AssignIsOneLine(p[i]);
    }
  }

  lemma RewrittenStaysFree(lines: seq<string>, p: seq<Setting>)
    requires ValidSettings(p) && AllFree(lines, '\n')
    ensures AllFree(Completed(Rewritten(lines, p)), '\n')
  {
    var r := Rewritten(lines, p);
    forall i | 0 <= i < |r.out| ensures '\n' !in r.out[i] {
      PassByLine(lines, p, i);
      LineAfterIsFree(lines, p, i);
    }
    PassByKey(lines, p, "");
    BlockIsFree(r.out, r.pending);
  }

  // --- Main results: setting keys ---

  lemma EmptyIsKeyless()
    ensures KeyOf("") == None
  {
  }

  lemma DropEmptyLast(lines: seq<string>, key: string)
    requires lines != [] && Last(lines) == ""
    ensures FirstWith(Front(lines), key) == FirstWith(lines, key)
  {
    EmptyIsKeyless();
    FirstWithSnoc(Front(lines), "", key);
    assert lines == Front(lines) + [""];
  }

  lemma {:induction false} TrimKeepsLines(lines: seq<string>, key: string)
    ensures FirstWith(TrimLines(lines), key) == FirstWith(lines, key)
  {
    if lines == [] {
      DropEmptyLast([""], key);
    } else if |lines| > 1 && Last(lines) == "" {
      DropEmptyLast(lines, key);
      TrimKeepsLines(Front(lines), key);
    }
  }

  lemma AppliedLines(existing: string, p: seq<Setting>)
    requires ValidSettings(p)
    ensures LinesOf(Applied(existing, p)) == TrimLines(Completed(Rewritten(LinesOf(existing), p)))
  {
    LinesAreFree(existing);
    RewrittenStaysFree(LinesOf(existing), p);
    FinishedLines(Completed(Rewritten(LinesOf(existing), p)));
  }

  /** Applying the same settings twice is applying them once, for every file body. */
  lemma {:induction false} ApplyTwiceIsOnce(existing: string, p: seq<Setting>)
    requires ValidSettings(p)
    ensures Applied(Applied(existing, p), p) == Applied(existing, p)
  {
    var done := Completed(Rewritten(LinesOf(existing), p));
    AppliedLines(existing, p);
    CompletedIsSettled(LinesOf(existing), p);
    TrimStaysSettled(done, p);
    LinesAreFree(existing);
    RewrittenStaysFree(LinesOf(existing), p);
    FinishedLines(done);
  }

  lemma {:induction false} FirstWithSettings(p: seq<Setting>, key: string)
    requires ValidSettings(p)
    ensures FirstWith(SettingLines(p), key) ==
              match ValueFor(p, key) case None => None case Some(value) => Some(Assign(key, value))
  {
    if p != [] {
      KeyOfAssign(p[0].key, p[0].value);
      assert SettingLines(p)[1..] == SettingLines(p[1..]);
      FirstWithSettings(p[1..], key);
    }
  }

  lemma FirstWithBlock(out: seq<string>, p: seq<Setting>, key: string)
    requires ValidSettings(p)
    ensures FirstWith(Block(out, p), key) ==
              match ValueFor(p, key) case None => None case Some(value) => Some(Assign(key, value))
  {
    var block := [BLOCK_TITLE] + SettingLines(p);
    TitleIsKeyless();
    FirstWithSettings(p, key);
    assert block[1..] == SettingLines(p);
    assert ([""] + block)[1..] == block;
    assert Block(out, p) == block || Block(out, p) == [""] + block;
  }

  /** Afterwards the first line of every key that was set is its assignment, and the first
      line of every other key is what it was. */
  lemma ApplySetsExactly(existing: string, p: seq<Setting>, key: string)
    requires ValidSettings(p)
    ensures FirstWith(LinesOf(Applied(existing, p)), key) ==
              match ValueFor(p, key)
              case None => FirstWith(LinesOf(existing), key)
              case Some(value) => Some(Assign(key, value))
  {
    var lines := LinesOf(existing);
    var r := Rewritten(lines, p);
    AppliedLines(existing, p);
    TrimKeepsLines(Completed(r), key);
    PassByKey(lines, p, key);
    if r.pending != [] {
      FirstWithAppend(r.out, Block(r.out, r.pending), key);
      FirstWithBlock(r.out, r.pending, key);
    }
  }

  /** Lines of other keys, comments and repeated lines stay verbatim and in place, up to
      trailing newlines. */
  lemma ApplyKeepsOtherLines(existing: string, p: seq<Setting>, i: nat)
    requires ValidSettings(p)
    requires i < |LinesOf(existing)| && i < |LinesOf(Applied(existing, p))|
    ensures LinesOf(Applied(existing, p))[i] == LineAfter(LinesOf(existing), p, i)
  {
    var lines := LinesOf(existing);
    AppliedLines(existing, p);
    TrimIsPrefix(Completed(Rewritten(lines, p)));
    PassByLine(lines, p, i);
  }

  lemma {:induction false} TrimIsPrefix(lines: seq<string>)
    ensures lines != [] ==> TrimLines(lines) <= lines
    ensures forall i :: |TrimLines(lines)| <= i < |lines| ==> lines[i] == ""
  {
    if |lines| > 1 && Last(lines) == "" {
      TrimIsPrefix(Front(lines));
    }
  }

  // --- The settings of a seamless boot ---

  const SEAMLESS_CMDLINE := "quiet splash loglevel=3 " + "rd.udev.log_level=3 " +
                            "vt.global_cursor_default=0 " + "systemd.show_status=false"

  const SEAMLESS_SETTINGS: seq<Setting> :=
    [Setting("GRUB_TIMEOUT", "5"),
     Setting("GRUB_CMDLINE_LINUX_DEFAULT", SEAMLESS_CMDLINE),
     Setting("GRUB_TERMINAL_OUTPUT", "gfxterm"),
     Setting("GRUB_GFXMODE", "auto"),
     Setting("GRUB_THEME", "/boot/grub/themes/" + "hede/theme.txt")]
}
