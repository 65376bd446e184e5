/** Compiling a recipe's steps into operations: file operations, commands through Wine or
    Proton, and manual steps. */
module RecipePlan {
  import opened Splitting
  import opened Characters
  import opened Texts
  import opened LutrisImport

  datatype Context = Context(prefix: string, gamedir: string, cache: string, arch: string,
                             runner: string, runnerVersion: string)

  datatype RecipeFile = RecipeFile(id: string, url: string, filename: string)

  datatype Op =
    | Command(argv: seq<string>, env: map<string, string>, native: bool)
    | Extract(src: string, dst: string)
    | Move(src: string, dst: string)
    | Copy(src: string, dst: string)
    | MakeExecutable(path: string)
    | Write(path: string, format: string, params: Params)
    | Manual(original: string, params: Params)

  type Variables = map<string, string>

  function VariablesOf(c: Context): Variables {
    map["GAMEDIR" := c.gamedir, "WINEPREFIX" := c.prefix, "PREFIX" := c.prefix, "CACHE" := c.cache]
  }

  // --- Substitution ---

  predicate IsNameChar(c: char) {
    IsAlnum(c) || c == '_'
  }

  function NameLength(s: string): (n: nat)
    ensures n <= |s|
    ensures forall i :: 0 <= i < n ==> IsNameChar(s[i])
    ensures n < |s| ==> !IsNameChar(s[n])
  {
    if s == "" || !IsNameChar(s[0]) then 0 else 1 + NameLength(s[1..])
  }

  /** Length of the `$name` or `${name}` reference at the start of `s`, or 0. */
  function ReferenceLength(s: string): (n: nat)
    ensures n <= |s|
  {
    if s == "" || s[0] != '$' then 0
    else if |s| > 1 && s[1] == '{' then
      var n := NameLength(s[2..]);
      if n > 0 && n + 2 < |s| && s[n + 2] == '}' then n + 3 else 0
    else
      var n := NameLength(s[1..]);
      if n > 0 then n + 1 else 0
  }

  function Referenced(reference: string): string
    requires |reference| >= 2
  {
    if reference[1] == '{' && |reference| >= 3 then reference[2..|reference| - 1] else reference[1..]
  }

  function Lookup(vars: Variables, name: string, default: string): string {
    if name in vars then vars[name] else default
  }

  function Subst(s: string, vars: Variables): string
    decreases |s|
  {
    var n := ReferenceLength(s);
    if s == "" then ""
    else if n >= 2 then Lookup(vars, Referenced(s[..n]), s[..n]) + Subst(s[n..], vars)
    else [s[0]] + Subst(s[1..], vars)
  }

  /** Text without a `$` is copied, wherever it stands. */
  lemma {:induction false} SubstCopies(plain: string, rest: string, vars: Variables)
    requires '$' !in plain
    ensures Subst(plain + rest, vars) == plain + Subst(rest, vars)
  {
    if plain == "" {
      assert plain + rest == rest;
    } else {
      assert (plain + rest)[1..] == plain[1..] + rest;
      assert (plain + rest)[0] == plain[0] != '$';
      SubstCopies(plain[1..], rest, vars);
      assert Subst(plain + rest, vars) == [plain[0]] + Subst(plain[1..] + rest, vars);
      Assoc([plain[0]], plain[1..], Subst(rest, vars));
      assert [plain[0]] + plain[1..] == plain;
    }
  }

  lemma {:induction false} NameLengthOf(name: string, rest: string)
    requires forall i :: 0 <= i < |name| ==> IsNameChar(name[i])
    requires rest == "" || !IsNameChar(rest[0])
    ensures NameLength(name + rest) == |name|
  {
    if name == "" {
      assert name + rest == rest;
    } else {
      assert (name + rest)[1..] == name[1..] + rest;
      NameLengthOf(name[1..], rest);
    }
  }

  predicate IsName(s: string) {
    s != "" && forall i :: 0 <= i < |s| ==> IsNameChar(s[i])
  }

  lemma BareReference(name: string, rest: string)
    requires IsName(name) && (rest == "" || !IsNameChar(rest[0]))
    ensures ReferenceLength("$" + name + rest) == |name| + 1
  {
    var s := "$" + name + rest;
    assert s[1..] == name + rest;
    NameLengthOf(name, rest);
    assert IsNameChar(name[0]) && s[1] == name[0];
  }

  lemma BracedReference(name: string, rest: string)
    requires IsName(name)
    ensures ReferenceLength("${" + name + "}" + rest) == |name| + 3
  {
    var s := "${" + name + "}" + rest;
    assert s[2..] == name + ("}" + rest);
    NameLengthOf(name, "}" + rest);
    assert s[|name| + 2] == '}';
  }

  /** A reference becomes the variable's value; an unknown one stays as written. What the
      value itself contains is not looked at again. */
  lemma {:induction false} SubstReplaces(name: string, rest: string, vars: Variables)
    requires IsName(name)
    ensures rest == "" || !IsNameChar(rest[0]) ==>
              Subst("$" + name + rest, vars) == Lookup(vars, name, "$" + name) + Subst(rest, vars)
    ensures Subst("${" + name + "}" + rest, vars) == Lookup(vars, name, "${" + name + "}") + Subst(rest, vars)
  {
    if rest == "" || !IsNameChar(rest[0]) {
      BareReference(name, rest);
      assert IsNameChar(("$" + name)[1]);
      assert ("$" + name)[1..] == name;
    }
    BracedReference(name, rest);
    assert ("${" + name + "}")[2..|name| + 2] == name;
  }

  // --- Parameters ---

  function Or(a: string, b: string): string {
    if a != "" then a else b
  }

  function Field(params: Params, key: string, vars: Variables): string {
    Subst(Str(Get(params, key, Text(""))), vars)
  }

  function SubstAll(items: seq<string>, vars: Variables): seq<string> {
    seq(|items|, i requires 0 <= i < |items| => Subst(items[i], vars))
  }

  function Verbs(params: Params): seq<string> {
    match VerbsValue(params)
    case Null => []
    case Items(items) => items
    case other => Words(Str(other))
  }

  /** Nothing (also an empty text or list, 0 or False) gives no arguments. */
  function ArgsList(params: Params, vars: Variables): seq<string> {
    match Get(params, "args", Null)
    case Null => []
    case Items(items) => SubstAll(items, vars)
    case Text(_) => Words(Field(params, "args", vars))
    case Other(_, truthy) => if truthy then Words(Field(params, "args", vars)) else []
  }

  function BaseName(url: string): string {
    Last(Split(url, '/'))
  }

  /** Where each downloaded file is; a later file of the same id wins. */
  function FileVars(files: seq<RecipeFile>, cache: string): Variables {
    if files == [] then map[]
    else
      var f := Last(files);
      var name := Or(Or(f.filename, BaseName(f.url)), f.id);
      FileVars(Front(files), cache)[f.id := if cache != "" then cache + "/" + name else name]
  }

  // --- Commands ---

  function RegAdd(params: Params, vars: Variables): seq<string> {
    var name := Field(params, "key", vars);
    ["reg", "add", Or(Field(params, "path", vars), Field(params, "key_path", vars))]
    + (if name != "" then ["/v", name] else ["/ve"])
    + ["/t", Or(Field(params, "type", vars), "REG_SZ")]
    + ["/d", Field(params, "value", vars), "/f"]
  }

  function RegDelete(params: Params, vars: Variables): seq<string> {
    var name := Or(Field(params, "value_name", vars), Field(params, "value", vars));
    ["reg", "delete", Or(Field(params, "key", vars), Field(params, "path", vars))]
    + (if name != "" then ["/v", name] else [])
    + ["/f"]
  }

  function WineEnv(c: Context): map<string, string> {
    map["WINEPREFIX" := c.prefix, "WINEARCH" := c.arch]
  }

  function ProtonEnv(c: Context): map<string, string> {
    map["WINEPREFIX" := c.prefix, "GAMEID" := "umu-0", "STORE" := "none"]
    + if c.runnerVersion != "" then map["PROTONPATH" := c.runnerVersion] else map[]
  }

  function RunnerEnv(c: Context): map<string, string> {
    if c.runner == "proton" then ProtonEnv(c) else WineEnv(c)
  }

  const RUNNER_ACTIONS: set<string> :=
    {"create_prefix", "wineexec", "winetricks", "regedit_file", "regedit", "regdelete", "winekill"}

  function WineArgv(action: string, params: Params, vars: Variables): seq<string> {
    if action == "create_prefix" then ["wineboot", "-i"]
    else if action == "winetricks" then ["winetricks", "-q"] + Verbs(params)
    else if action == "wineexec" then
      ["wine", Or(Field(params, "executable", vars), Field(params, "exe", vars))] + ArgsList(params, vars)
    else if action == "regedit_file" then
      ["wine", "regedit", Or(Field(params, "file", vars), Field(params, "path", vars))]
    else if action == "regedit" then ["wine"] + RegAdd(params, vars)
    else if action == "regdelete" then ["wine"] + RegDelete(params, vars)
    else ["wineserver", "-k"]
  }

  function ProtonArgv(action: string, params: Params, vars: Variables): seq<string> {
    if action == "create_prefix" then ["umu-run", "createprefix"]
    else if action == "winetricks" then ["umu-run", "winetricks", "-q"] + Verbs(params)
    else if action == "wineexec" then
      ["umu-run", Or(Field(params, "executable", vars), Field(params, "exe", vars))] + ArgsList(params, vars)
    else if action == "regedit_file" then
      ["umu-run", "regedit", Or(Field(params, "file", vars), Field(params, "path", vars))]
    else if action == "regedit" then ["umu-run"] + RegAdd(params, vars)
    else if action == "regdelete" then ["umu-run"] + RegDelete(params, vars)
    else ["umu-run", "wineserver", "-k"]
  }

  predicate EndsWith(s: string, suffix: string) {
    |s| >= |suffix| && s[|s| - |suffix|..] == suffix
  }

  predicate IsWindowsProgram(target: string) {
    EndsWith(Lower(target), ".exe") || EndsWith(Lower(target), ".bat") || EndsWith(Lower(target), ".cmd")
  }

  function ExecuteTarget(params: Params, vars: Variables, files: Variables): string {
    Or(Or(Or(Lookup(files, Str(Get(params, "file", Text(""))), ""), Field(params, "file", vars)),
          Field(params, "command", vars)),
       Field(params, "exe", vars))
  }

  function PlanExecute(params: Params, c: Context, vars: Variables, files: Variables): Op {
    var target, args := ExecuteTarget(params, vars, files), ArgsList(params, vars);
    if IsWindowsProgram(target) then
      Command([if c.runner == "proton" then "umu-run" else "wine", target] + args, RunnerEnv(c), false)
    else Command([target] + args, map[], true)
  }

  // --- One step ---

  /** A parameter that may name a downloaded file. */
  function FileOr(params: Params, key: string, vars: Variables, files: Variables): string {
    Lookup(files, Str(Get(params, key, Text(""))), Field(params, key, vars))
  }

  function PathOf(params: Params, vars: Variables): string {
    Or(Field(params, "file", vars), Field(params, "path", vars))
  }

  function PlanAction(action: string, params: Params, c: Context, vars: Variables, files: Variables): Op {
    if action == "extract" then
      Extract(FileOr(params, "file", vars, files), Or(Field(params, "dst", vars), c.gamedir))
    else if action == "move" then Move(FileOr(params, "src", vars, files), Field(params, "dst", vars))
    else if action == "copy" then Copy(FileOr(params, "src", vars, files), Field(params, "dst", vars))
    else if action == "chmodx" then MakeExecutable(PathOf(params, vars))
    else if action == "write_file" then Write(PathOf(params, vars), "file", params)
    else if action == "write_config" then Write(PathOf(params, vars), "config", params)
    else if action == "write_json" then Write(PathOf(params, vars), "json", params)
    else if action == "eject_disc" then Command(["eject"], map[], true)
    else if action == "execute" then PlanExecute(params, c, vars, files)
    else if action in RUNNER_ACTIONS then
      Command(if c.runner == "proton" then ProtonArgv(action, params, vars) else WineArgv(action, params, vars),
              RunnerEnv(c), false)
    else Manual(Str(Get(params, "original", Text(action))), params)
  }

  function PlanStep(step: Step, c: Context, files: Variables): Op {
    match step
    case Step(action, params) => PlanAction(action, params, c, VariablesOf(c), files)
    case Todo(original, params) => Manual(original, params)
  }

  function Planned(steps: seq<Step>, files: seq<RecipeFile>, c: Context): (ops: seq<Op>)
    ensures |ops| == |steps|
  {
    seq(|steps|, i requires 0 <= i < |steps| => PlanStep(steps[i], c, FileVars(files, c.cache)))
  }

  // --- Main results ---

  /** The step vocabulary of a recipe, except `manual` (recipe.py, lines 28 to 43). */
  const VOCABULARY: set<string> :=
    {"extract", "move", "copy", "chmodx", "execute", "write_file", "write_config", "write_json", "create_prefix",
     "wineexec", "winetricks", "regedit", "regedit_file", "regdelete", "winekill", "eject_disc"}

  predicate Known(action: string) {
    action in VOCABULARY
  }

  /** The planner handles the whole vocabulary and nothing else: a step is left to a human
      exactly when it is marked so or its action is none of the recipe's words. */
  lemma ManualIffUnknown(step: Step, c: Context, files: Variables)
    ensures PlanStep(step, c, files).Manual? <==> step.Todo? || !Known(step.action)
  {
  }

  lemma NativeActionsAreKnown(d: Directive)
    requires IsNative(d)
    ensures Known(NativeAction(d))
  {
  }

  /** An imported script compiles to one operation per kept directive, in order, and the
      manual operations are exactly the directives the importer flagged. */
  lemma ImportedPlanIsManualWhereFlagged(ds: seq<Directive>, files: seq<RecipeFile>, c: Context, i: nat)
    requires i < |Kept(ds)|
    ensures var ops := Planned(WithAll(NOTHING, ds).steps, files, c);
            |ops| == |Kept(ds)| && (ops[i].Manual? <==> IsManual(Kept(ds)[i]))
  {
    ImportConserves(ds);
    var step, d := WithAll(NOTHING, ds).steps[i], Kept(ds)[i];
    assert Represents(step, d);
    ManualIffUnknown(step, c, FileVars(files, c.cache));
    if step.Step? {
      NativeActionsAreKnown(d);
    }
  }

  /** Every command that is not a native one runs through the chosen runner, inside the
      context's own prefix; a Windows program is never run natively. */
  predicate Confined(op: Op, c: Context) {
    op.Command? && !op.native ==>
      && op.argv != []
      && "WINEPREFIX" in op.env && op.env["WINEPREFIX"] == c.prefix
      && (op.argv[0] == "umu-run" <==> c.runner == "proton")
      && (c.runner != "proton" ==> op.argv[0] in {"wine", "wineboot", "winetricks", "wineserver"})
  }

  lemma ArgvHeads(action: string, params: Params, vars: Variables)
    ensures ProtonArgv(action, params, vars) != [] && ProtonArgv(action, params, vars)[0] == "umu-run"
    ensures WineArgv(action, params, vars) != []
    ensures WineArgv(action, params, vars)[0] in {"wine", "wineboot", "winetricks", "wineserver"}
  {
  }

  lemma {:induction false} CommandsAreConfined(step: Step, c: Context, files: Variables)
    ensures Confined(PlanStep(step, c, files), c)
    ensures step.Step? && step.action == "execute" &&
            IsWindowsProgram(ExecuteTarget(step.params, VariablesOf(c), files)) ==>
              PlanStep(step, c, files).Command? && !PlanStep(step, c, files).native
  {
    if step.Step? {
      ActionsAreConfined(step.action, step.params, c, VariablesOf(c), files);
    }
  }

  lemma RunnerCommandsAreConfined(action: string, params: Params, c: Context, vars: Variables)
    ensures Confined(Command(if c.runner == "proton" then ProtonArgv(action, params, vars)
                             else WineArgv(action, params, vars),
                             RunnerEnv(c), false), c)
  {
    ArgvHeads(action, params, vars);
    HeadsDiffer();
  }

  lemma ExecutedIsConfined(params: Params, c: Context, vars: Variables, files: Variables)
    ensures Confined(PlanExecute(params, c, vars, files), c)
  {
    HeadsDiffer();
  }

  lemma HeadsDiffer()
    ensures "umu-run" !in {"wine", "wineboot", "winetricks", "wineserver"}
  {
    assert "umu-run"[0] == 'u' && "wine"[0] == 'w' && "wineboot"[0] == 'w';
    assert "winetricks"[0] == 'w' && "wineserver"[0] == 'w';
  }

  lemma RunnerActionIs(action: string, params: Params, c: Context, vars: Variables, files: Variables)
    requires action in RUNNER_ACTIONS
    ensures PlanAction(action, params, c, vars, files) ==
              Command(if c.runner == "proton" then ProtonArgv(action, params, vars) else WineArgv(action, params, vars),
                      RunnerEnv(c), false)
  {
  }

  lemma OtherActionIs(action: string, params: Params, c: Context, vars: Variables, files: Variables)
    requires action !in RUNNER_ACTIONS
    ensures var op := PlanAction(action, params, c, vars, files);
            op == PlanExecute(params, c, vars, files) || !op.Command? || op.native
  {
  }

  lemma ActionsAreConfined(action: string, params: Params, c: Context, vars: Variables, files: Variables)
    ensures Confined(PlanAction(action, params, c, vars, files), c)
  {
    if action in RUNNER_ACTIONS {
      RunnerCommandsAreConfined(action, params, c, vars);
      RunnerActionIs(action, params, c, vars, files);
    } else {
      ExecutedIsConfined(params, c, vars, files);
      OtherActionIs(action, params, c, vars, files);
    }
  }

  /** Choosing the other runner changes only the commands that go through it. */
  lemma RunnerChangesOnlyItsCommands(step: Step, c: Context, runner: string, files: Variables)
    ensures var a, b := PlanStep(step, c, files), PlanStep(step, c.(runner := runner), files);
            a == b || (a.Command? && b.Command? && !a.native && !b.native)
  {
    assert VariablesOf(c) == VariablesOf(c.(runner := runner));
  }

  // --- What plain steps become ---

  predicate Plain(s: string) {
    '$' !in s
  }

  /** The parameter is this text, which refers to no variable. */
  predicate Says(params: Params, key: string, text: string) {
    key in params && params[key] == Text(text) && Plain(text)
  }

  lemma PlainIsCopied(s: string, vars: Variables)
    requires Plain(s)
    ensures Subst(s, vars) == s
  {
    SubstCopies(s, "", vars);
    assert s + "" == s && Subst("", vars) == "";
  }

  lemma FieldIs(params: Params, key: string, text: string, vars: Variables)
    requires Says(params, key, text)
    ensures Field(params, key, vars) == text && Str(Get(params, key, Text(""))) == text
  {
    PlainIsCopied(text, vars);
  }

  lemma NoFieldIs(params: Params, key: string, vars: Variables)
    requires key !in params
    ensures Field(params, key, vars) == "" && Str(Get(params, key, Text(""))) == ""
  {
    PlainIsCopied("", vars);
  }

  lemma ListIsCopied(items: seq<string>, vars: Variables)
    requires forall i :: 0 <= i < |items| ==> Plain(items[i])
    ensures SubstAll(items, vars) == items
  {
    forall i | 0 <= i < |items| ensures Subst(items[i], vars) == items[i] {
      PlainIsCopied(items[i], vars);
    }
  }

  /** Moving and copying go from the source to the destination, extracting into the given
      directory or else the game's; a source that is a file's id is where that file was
      downloaded to. */
  lemma TransfersPlanned(params: Params, src: string, dst: string, c: Context, files: Variables)
    requires Says(params, "dst", dst)
    ensures var from := if src in files then files[src] else src;
            && (Says(params, "src", src) ==>
                  && PlanStep(Step("move", params), c, files) == Move(from, dst)
                  && PlanStep(Step("copy", params), c, files) == Copy(from, dst))
            && (Says(params, "file", src) ==>
                  PlanStep(Step("extract", params), c, files) == Extract(from, if dst == "" then c.gamedir else dst))
  {
    var vars := VariablesOf(c);
    FieldIs(params, "dst", dst, vars);
    if Says(params, "src", src) {
      FieldIs(params, "src", src, vars);
    }
    if Says(params, "file", src) {
      FieldIs(params, "file", src, vars);
    }
  }

  /** Marking and writing act on the named file, under either of its two names, the first one
      first; what is written is the step's own parameters, in the step's own format. */
  lemma WritesPlanned(params: Params, path: string, c: Context, files: Variables)
    requires path != "" && (Says(params, "file", path) || ("file" !in params && Says(params, "path", path)))
    ensures PlanStep(Step("chmodx", params), c, files) == MakeExecutable(path)
    ensures PlanStep(Step("write_file", params), c, files) == Write(path, "file", params)
    ensures PlanStep(Step("write_config", params), c, files) == Write(path, "config", params)
    ensures PlanStep(Step("write_json", params), c, files) == Write(path, "json", params)
  {
    var vars := VariablesOf(c);
    if Says(params, "file", path) {
      FieldIs(params, "file", path, vars);
    } else {
      NoFieldIs(params, "file", vars);
      FieldIs(params, "path", path, vars);
    }
  }

  /** The environment a runner gets. */
  function EnvFor(c: Context): map<string, string> {
    if c.runner != "proton" then map["WINEPREFIX" := c.prefix, "WINEARCH" := c.arch]
    else if c.runnerVersion == "" then map["WINEPREFIX" := c.prefix, "GAMEID" := "umu-0", "STORE" := "none"]
    else map["WINEPREFIX" := c.prefix, "GAMEID" := "umu-0", "STORE" := "none", "PROTONPATH" := c.runnerVersion]
  }

  lemma RunnerEnvIs(c: Context)
    ensures RunnerEnv(c) == EnvFor(c)
  {
  }

  /** A command through the runner: Proton's launcher takes the words as they are, Wine has
      some of them as programs of its own and takes the rest. */
  function Through(c: Context, words: seq<string>, ownProgram: bool): Op {
    Command(if c.runner == "proton" then ["umu-run"] + words else if ownProgram then words else ["wine"] + words,
            EnvFor(c), false)
  }

  lemma ThroughRunner(action: string, params: Params, c: Context, files: Variables, words: seq<string>, own: bool)
    requires action in RUNNER_ACTIONS
    requires ProtonArgv(action, params, VariablesOf(c)) == ["umu-run"] + words
    requires WineArgv(action, params, VariablesOf(c)) == if own then words else ["wine"] + words
    ensures PlanStep(Step(action, params), c, files) == Through(c, words, own)
  {
    RunnerActionIs(action, params, c, VariablesOf(c), files);
    RunnerEnvIs(c);
  }

  /** The commands without parameters. */
  lemma FixedPlanned(params: Params, c: Context, files: Variables)
    ensures PlanStep(Step("eject_disc", params), c, files) == Command(["eject"], map[], true)
    ensures PlanStep(Step("winekill", params), c, files) == Through(c, ["wineserver", "-k"], true)
    ensures PlanStep(Step("create_prefix", params), c, files) ==
              Through(c, if c.runner == "proton" then ["createprefix"] else ["wineboot", "-i"], true)
  {
    assert ["umu-run", "wineserver", "-k"] == ["umu-run"] + ["wineserver", "-k"];
    ThroughRunner("winekill", params, c, files, ["wineserver", "-k"], true);
    RunnerActionIs("create_prefix", params, c, VariablesOf(c), files);
    RunnerEnvIs(c);
  }

  lemma ArgsAre(params: Params, args: seq<string>, vars: Variables)
    requires "args" in params && params["args"] == Items(args)
    requires forall i :: 0 <= i < |args| ==> Plain(args[i])
    ensures ArgsList(params, vars) == args
  {
    ListIsCopied(args, vars);
  }

  /** A program is run with the arguments the step lists, through the runner... */
  lemma ProgramPlanned(params: Params, exe: string, args: seq<string>, c: Context, files: Variables)
    requires "args" in params && params["args"] == Items(args) && forall i :: 0 <= i < |args| ==> Plain(args[i])
    requires Says(params, "executable", exe) && exe != ""
    ensures PlanStep(Step("wineexec", params), c, files) == Through(c, [exe] + args, false)
  {
    var vars := VariablesOf(c);
    ArgsAre(params, args, vars);
    FieldIs(params, "executable", exe, vars);
    assert ["umu-run", exe] + args == ["umu-run"] + ([exe] + args);
    assert ["wine", exe] + args == ["wine"] + ([exe] + args);
    ThroughRunner("wineexec", params, c, files, [exe] + args, false);
  }

  lemma ExecutedIs(params: Params, exe: string, args: seq<string>, c: Context, vars: Variables, files: Variables)
    requires ExecuteTarget(params, vars, files) == exe && ArgsList(params, vars) == args
    ensures PlanExecute(params, c, vars, files) ==
              if IsWindowsProgram(exe) then Through(c, [exe] + args, false) else Command([exe] + args, map[], true)
  {
    RunnerEnvIs(c);
    assert ["umu-run", exe] + args == ["umu-run"] + ([exe] + args);
    assert ["wine", exe] + args == ["wine"] + ([exe] + args);
  }

  /** ... or, by `execute`, through the runner only if it is a Windows program; a program named
      by a file's id is the downloaded file. */
  lemma ExecutePlanned(params: Params, exe: string, args: seq<string>, c: Context, files: Variables)
    requires "args" in params && params["args"] == Items(args) && forall i :: 0 <= i < |args| ==> Plain(args[i])
    requires exe != "" && "" !in files
    requires if "file" in params then params["file"].Text? && params["file"].text in files &&
             files[params["file"].text] == exe
             else Says(params, "command", exe)
    ensures PlanStep(Step("execute", params), c, files) ==
              if IsWindowsProgram(exe) then Through(c, [exe] + args, false) else Command([exe] + args, map[], true)
  {
    var vars := VariablesOf(c);
    ArgsAre(params, args, vars);
    if "file" !in params {
      NoFieldIs(params, "file", vars);
      FieldIs(params, "command", exe, vars);
    }
    assert ExecuteTarget(params, vars, files) == exe;
    ExecutedIs(params, exe, args, c, vars, files);
    ExecuteIsPlanned(params, c, files);
  }

  lemma ExecuteIsPlanned(params: Params, c: Context, files: Variables)
    ensures PlanStep(Step("execute", params), c, files) == PlanExecute(params, c, VariablesOf(c), files)
  {
  }

  /** winetricks installs the listed verbs; the registry commands name the key, then the value
      or its default, then type and data, unattended; and a file of edits is handed over. */
  lemma RegistryPlanned(params: Params, key: string, name: string, kind: string, data: string, c: Context,
                        files: Variables)
    requires Says(params, "path", key) && Says(params, "key", name) && Says(params, "type", kind) &&
             Says(params, "value", data)
    requires key != "" && "value_name" !in params && "file" !in params
    ensures PlanStep(Step("regedit", params), c, files) ==
              Through(c, ["reg", "add", key] + (if name == "" then ["/ve"] else ["/v", name])
                         + ["/t", if kind == "" then "REG_SZ" else kind, "/d", data, "/f"], false)
    ensures PlanStep(Step("regdelete", params), c, files) ==
              Through(c, ["reg", "delete", if name == "" then key else name]
                         + (if data == "" then [] else ["/v", data]) + ["/f"], false)
    ensures PlanStep(Step("regedit_file", params), c, files) == Through(c, ["regedit", key], false)
  {
    var vars := VariablesOf(c);
    FieldIs(params, "path", key, vars);
    FieldIs(params, "key", name, vars);
    FieldIs(params, "type", kind, vars);
    FieldIs(params, "value", data, vars);
    NoFieldIs(params, "value_name", vars);
    NoFieldIs(params, "file", vars);
    var add := ["reg", "add", key] + (if name == "" then ["/ve"] else ["/v", name])
               + ["/t", if kind == "" then "REG_SZ" else kind, "/d", data, "/f"];
    assert RegAdd(params, vars) == add;
    ThroughRunner("regedit", params, c, files, add, false);
    var delete := ["reg", "delete", if name == "" then key else name]
                  + (if data == "" then [] else ["/v", data]) + ["/f"];
    assert RegDelete(params, vars) == delete;
    ThroughRunner("regdelete", params, c, files, delete, false);
    ThroughRunner("regedit_file", params, c, files, ["regedit", key], false);
  }

  lemma VerbsPlanned(params: Params, verbs: seq<string>, c: Context, files: Variables)
    requires "app" in params && params["app"] == Items(verbs)
    ensures PlanStep(Step("winetricks", params), c, files) == Through(c, ["winetricks", "-q"] + verbs, true)
  {
    assert ["umu-run", "winetricks", "-q"] + verbs == ["umu-run"] + (["winetricks", "-q"] + verbs);
    ThroughRunner("winetricks", params, c, files, ["winetricks", "-q"] + verbs, true);
  }

  lemma SingleWordIff(s: string)
    ensures Words(s) == [s] <==> IsWord(s)
  {
    if IsWord(s) {
      OneWord(s);
    }
    assert Words(s) == [s] ==> IsWord(Words(s)[0]);
  }

  /** The verbs the importer records for the barrel are the verbs the compiled command
      installs if and only if they were not written as one string of several (or no) words:
      the importer keeps such a string whole, the planner splits it. */
  lemma RecordedVerbsAreInstalledIff(params: Params)
    ensures AsList(VerbsValue(params)) == Verbs(params) <==>
              VerbsValue(params).Null? || VerbsValue(params).Items? || IsWord(Str(VerbsValue(params)))
  {
    var v := VerbsValue(params);
    if v.Text? || v.Other? {
      SingleWordIff(Str(v));
    }
  }
}
