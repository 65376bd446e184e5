/** Importing a Lutris installer script: every directive becomes a recipe step, a visible
    manual step, or a recorded loss. */
module LutrisImport {
  import opened Splitting
  import opened Texts
  import opened Characters

  datatype Option<T> = None | Some(value: T)

  /** A loosely typed YAML value; `shown` is how it prints, `truthy` what `if` makes of it. */
  datatype Value = Null | Text(text: string) | Items(items: seq<string>) | Other(shown: string, truthy: bool)

  type Params = map<string, Value>

  datatype Raw = Mapping(params: Params) | Plain(value: Value)

  /** `shown` is how a malformed directive prints. */
  datatype Directive = Malformed(shown: string) | Single(name: string, raw: Raw)

  /** A recipe step; Todo is the `manual` action with the directive it stands for. */
  datatype Step = Step(action: string, params: Params) | Todo(original: string, params: Params)

  datatype Warning =
    | MalformedDirective(shown: string)
    | InteractiveDirective(name: string)
    | UnknownDirective(name: string)
    | StoreTask(task: string)
    | UnknownTask(task: string)

  /** What a conversion has produced so far. */
  datatype Conversion = Conversion(steps: seq<Step>, verbs: seq<string>, warnings: seq<Warning>, rejected: seq<string>)

  const NOTHING := Conversion([], [], [], [])

  // --- Vocabulary ---

  const NATIVE_DIRECTIVES: map<string, string> :=
    map["extract" := "extract", "move" := "move", "copy" := "copy", "merge" := "copy", "chmodx" := "chmodx",
        "execute" := "execute", "write_file" := "write_file", "write_config" := "write_config",
        "write_json" := "write_json"]

  const NATIVE_TASKS: map<string, string> :=
    map["create_prefix" := "create_prefix", "wineexec" := "wineexec", "winetricks" := "winetricks",
        "set_regedit" := "regedit", "set_regedit_file" := "regedit_file", "delete_registry_key" := "regdelete",
        "winekill" := "winekill", "eject_disc" := "eject_disc"]

  predicate IsInteractive(name: string) {
    name == "input_menu" || name == "insert-disc"
  }

  // --- Coercions ---

  function Str(v: Value): string {
    match v
    case Null => "None"
    case Text(s) => s
    case Items(items) => "[" + Join(items, ',') + "]"
    case Other(shown, _) => shown
  }

  function Get(params: Params, key: string, default: Value): Value {
    if key in params then params[key] else default
  }

  function AsList(v: Value): seq<string> {
    match v
    case Null => []
    case Text(s) => [s]
    case Items(items) => items
    case Other(shown, _) => [shown]
  }

  /** Which parameter names the verbs of a winetricks task. */
  function VerbsValue(rest: Params): Value {
    Get(rest, "app", Get(rest, "apps", Get(rest, "value", Null)))
  }

  function ParamsOf(raw: Raw): Params {
    if raw.Mapping? then raw.params else map["value" := raw.value]
  }

  function TaskName(params: Params): string {
    Strip(Str(Get(params, "name", Text(""))))
  }

  function TaskParams(params: Params): Params {
    params - {"name"}
  }

  /** New verbs go to the end; known ones stay where they are. */
  function AddVerbs(verbs: seq<string>, more: seq<string>): seq<string>
    decreases more
  {
    if more == [] then verbs
    else AddVerbs(if more[0] in verbs then verbs else verbs + [more[0]], more[1..])
  }

  // --- One directive ---

  function AddStep(c: Conversion, step: Step): Conversion {
    c.(steps := c.steps + [step])
  }

  function AddTodo(c: Conversion, todo: Step, warning: Warning): Conversion {
    c.(steps := c.steps + [todo], warnings := c.warnings + [warning])
  }

  function WithTask(c: Conversion, params: Params): Conversion {
    var task, rest := TaskName(params), TaskParams(params);
    if task in NATIVE_TASKS then
      var next := AddStep(c, Step(NATIVE_TASKS[task], rest));
      if task == "winetricks" then next.(verbs := AddVerbs(c.verbs, AsList(VerbsValue(rest)))) else next
    else if task == "dosexec" then c.(rejected := c.rejected + [task])
    else if task == "gogdl_setup" then AddTodo(c, Todo("task:" + task, rest), StoreTask(task))
    else AddTodo(c, Todo("task:" + task, rest), UnknownTask(task))
  }

  function WithDirective(c: Conversion, d: Directive): Conversion {
    match d
    case Malformed(shown) => c.(warnings := c.warnings + [MalformedDirective(shown)])
    case Single(name, raw) =>
      var params := ParamsOf(raw);
      if name in NATIVE_DIRECTIVES then AddStep(c, Step(NATIVE_DIRECTIVES[name], params))
      else if name == "task" then WithTask(c, params)
      else if IsInteractive(name) then AddTodo(c, Todo(name, params), InteractiveDirective(name))
      else AddTodo(c, Todo(name, params), UnknownDirective(name))
  }

  function WithAll(c: Conversion, ds: seq<Directive>): Conversion {
    if ds == [] then c else WithDirective(WithAll(c, Front(ds)), Last(ds))
  }

  /** The lists the conversion appends to. */
  class Importer {
    var steps: seq<Step>
    var verbs: seq<string>
    var warnings: seq<Warning>
    var rejected: seq<string>

    function State(): Conversion
      reads this
    {
      Conversion(steps, verbs, warnings, rejected)
    }

    constructor ()
      ensures State() == NOTHING
    {
      steps, verbs, warnings, rejected := [], [], [], [];
    }

    method AddBarrelVerbs(more: seq<string>)
      modifies this`verbs
      ensures verbs == AddVerbs(old(verbs), more)
    {
      for i := 0 to |more|
        invariant AddVerbs(verbs, more[i..]) == AddVerbs(old(verbs), more)
      {
        assert more[i..][0] == more[i] && more[i..][1..] == more[i + 1..];
        if more[i] !in verbs {
          verbs := verbs + [more[i]];
        }
      }
      assert more[|more|..] == [];
    }

    method ConvertTask(params: Params)
      modifies this
      ensures State() == WithTask(old(State()), params)
    {
      var task, rest := TaskName(params), TaskParams(params);
      if task in NATIVE_TASKS {
        steps := steps + [Step(NATIVE_TASKS[task], rest)];
        if task == "winetricks" {
          AddBarrelVerbs(AsList(VerbsValue(rest)));
        }
      } else if task == "dosexec" {
        rejected := rejected + [task];
      } else {
        warnings := warnings + [if task == "gogdl_setup" then StoreTask(task) else UnknownTask(task)];
        steps := steps + [Todo("task:" + task, rest)];
      }
    }

    method ConvertDirective(d: Directive)
      modifies this
      ensures State() == WithDirective(old(State()), d)
    {
      if d.Malformed? {
        warnings := warnings + [MalformedDirective(d.shown)];
        return;
      }
      var params := ParamsOf(d.raw);
      if d.name in NATIVE_DIRECTIVES {
        steps := steps + [Step(NATIVE_DIRECTIVES[d.name], params)];
      } else if d.name == "task" {
        ConvertTask(params);
      } else {
        warnings := warnings
          + [if IsInteractive(d.name) then InteractiveDirective(d.name) else UnknownDirective(d.name)];
        steps := steps + [Todo(d.name, params)];
      }
    }

    method ConvertAll(ds: seq<Directive>)
      modifies this
      ensures State() == WithAll(old(State()), ds)
    {
      for i := 0 to |ds|
        invariant State() == WithAll(old(State()), ds[..i])
      {
        assert Front(ds[..i + 1]) == ds[..i] && Last(ds[..i + 1]) == ds[i];
        ConvertDirective(ds[i]);
      }
      assert ds[..|ds|] == ds;
    }
  }

  // --- Runner gate ---

  /** Only Wine scripts (or ones that do not say) are converted. */
  predicate Convertible(runner: Value) {
    var r := Lower(Strip(Str(runner)));
    r == "" || r == "wine"
  }

  method Convert(runner: Value, installer: seq<Directive>) returns (r: Option<Conversion>)
    ensures r == if Convertible(runner) then Some(WithAll(NOTHING, installer)) else None
  {
    if !Convertible(runner) {
      return None;
    }
    var importer := new Importer();
    importer.ConvertAll(installer);
    return Some(importer.State());
  }

  /** Case and padding aside, the runner must be "wine" or left empty. */
  lemma ConvertibleIff(a: string, name: string, b: string)
    requires AllSpaces(a) && AllSpaces(b)
    requires name == "" || (!IsSpace(name[0]) && !IsSpace(Last(name)))
    ensures Convertible(Text(a + (name + b))) <==> name == "" || Lower(name) == "wine"
  {
    StripOfPadded(a, name, b);
  }

  // --- Conservation ---

  predicate IsTask(d: Directive) {
    d.Single? && d.name == "task"
  }

  predicate IsRejected(d: Directive) {
    IsTask(d) && TaskName(ParamsOf(d.raw)) == "dosexec"
  }

  /** The installer directives and the Wine tasks a recipe has a step for. */
  const DIRECTIVES: set<string> :=
    {"extract", "move", "copy", "merge", "chmodx", "execute", "write_file", "write_config", "write_json"}
  const TASKS: set<string> :=
    {"create_prefix", "wineexec", "winetricks", "set_regedit", "set_regedit_file", "delete_registry_key",
     "winekill", "eject_disc"}

  /** A directive's action bears its name, except that merging is copying; a task's too, except
      the three that edit the registry. */
  function ActionFor(name: string): string {
    if name == "merge" then "copy"
    else if name == "set_regedit" then "regedit"
    else if name == "set_regedit_file" then "regedit_file"
    else if name == "delete_registry_key" then "regdelete"
    else name
  }

  predicate IsNative(d: Directive) {
    d.Single? && (d.name in DIRECTIVES || (IsTask(d) && TaskName(ParamsOf(d.raw)) in TASKS))
  }

  function NativeAction(d: Directive): string
    requires IsNative(d)
  {
    ActionFor(if d.name in DIRECTIVES then d.name else TaskName(ParamsOf(d.raw)))
  }

  /** The tables say so. */
  lemma DirectiveTableIs(name: string)
    ensures name in NATIVE_DIRECTIVES <==> name in DIRECTIVES
    ensures name in DIRECTIVES ==> NATIVE_DIRECTIVES[name] == ActionFor(name)
  {
  }

  lemma TaskTableIs(name: string)
    ensures name in NATIVE_TASKS <==> name in TASKS
    ensures name in TASKS ==> NATIVE_TASKS[name] == ActionFor(name)
  {
  }

  predicate IsManual(d: Directive) {
    d.Single? && !IsNative(d) && !IsRejected(d)
  }

  /** The directives that become steps. */
  function Kept(ds: seq<Directive>): seq<Directive> {
    if ds == [] then []
    else Kept(Front(ds)) + if LeavesNoStep(Last(ds)) then [] else [Last(ds)]
  }

  function MalformedCount(ds: seq<Directive>): nat {
    if ds == [] then 0 else MalformedCount(Front(ds)) + if Last(ds).Malformed? then 1 else 0
  }

  /** The warning a directive deserves: one if it is malformed or left to a human, naming it
      and the reason. */
  function WarningsOf(d: Directive): seq<Warning> {
    if d.Malformed? then [MalformedDirective(d.shown)]
    else if !IsManual(d) then []
    else if !IsTask(d) then
      [if d.name == "input_menu" || d.name == "insert-disc" then InteractiveDirective(d.name)
       else UnknownDirective(d.name)]
    else
      var task := TaskName(ParamsOf(d.raw));
      [if task == "gogdl_setup" then StoreTask(task) else UnknownTask(task)]
  }

  function Warnings(ds: seq<Directive>): seq<Warning> {
    if ds == [] then [] else Warnings(Front(ds)) + WarningsOf(Last(ds))
  }

  /** The tasks of the rejected directives. */
  function Rejections(ds: seq<Directive>): seq<string> {
    if ds == [] then []
    else Rejections(Front(ds)) + if IsRejected(Last(ds)) then [TaskName(ParamsOf(Last(ds).raw))] else []
  }

  /** The step a directive became: its own parameters, never a native action for a
      directive that has none, never a manual step for one that has. */
  predicate Represents(step: Step, d: Directive) {
    && d.Single?
    && (step.Todo? <==> IsManual(d))
    && step.params == (if IsTask(d) then TaskParams(ParamsOf(d.raw)) else ParamsOf(d.raw))
    && (step.Todo? ==> step.original == (if IsTask(d) then "task:" + TaskName(ParamsOf(d.raw)) else d.name))
    && (step.Step? ==> IsNative(d) && step.action == NativeAction(d))
  }

  predicate Conserved(ds: seq<Directive>, c: Conversion) {
    && |c.steps| == |Kept(ds)|
    && (forall i :: 0 <= i < |c.steps| ==> Represents(c.steps[i], Kept(ds)[i]))
    && |ds| == |c.steps| + MalformedCount(ds) + |c.rejected|
    && c.rejected == Rejections(ds)
    && c.warnings == Warnings(ds)
  }

  predicate LeavesNoStep(d: Directive) {
    d.Malformed? || IsRejected(d)
  }

  /** What one directive adds, whatever came before. */
  predicate Adds(before: Conversion, after: Conversion, d: Directive) {
    && (if LeavesNoStep(d) then after.steps == before.steps
        else |after.steps| == |before.steps| + 1 && Front(after.steps) == before.steps
             && Represents(Last(after.steps), d))
    && after.warnings == before.warnings + WarningsOf(d)
    && after.rejected == before.rejected + (if IsRejected(d) then [TaskName(ParamsOf(d.raw))] else [])
  }

  lemma TaskIsNoDirective()
    ensures "task" !in DIRECTIVES && "dosexec" !in TASKS
  {
  }

  lemma TaskAdds(c: Conversion, d: Directive)
    requires IsTask(d)
    ensures Adds(c, WithTask(c, ParamsOf(d.raw)), d)
  {
    TaskIsNoDirective();
    TaskTableIs(TaskName(ParamsOf(d.raw)));
    assert c.rejected + [] == c.rejected && c.warnings + [] == c.warnings;
  }

  lemma DirectiveAdds(c: Conversion, d: Directive)
    ensures Adds(c, WithDirective(c, d), d)
  {
    TaskIsNoDirective();
    assert c.rejected + [] == c.rejected && c.warnings + [] == c.warnings;
    if d.Single? {
      DirectiveTableIs(d.name);
    }
    if IsTask(d) {
      TaskAdds(c, d);
    }
  }

  lemma AddingConserves(ds: seq<Directive>, d: Directive, c: Conversion, after: Conversion)
    requires Conserved(ds, c) && Adds(c, after, d)
    ensures Conserved(ds + [d], after)
  {
    assert Front(ds + [d]) == ds && Last(ds + [d]) == d;
    if LeavesNoStep(d) {
      assert Kept(ds + [d]) == Kept(ds);
    } else {
      assert after.steps == c.steps + [Last(after.steps)];
    }
  }

  /** Nothing is lost or invented: the steps are the directives that are neither malformed
      nor rejected, in order, each represented by its own step; the rejected ones are noted, in
      order; and the warnings are, in order, the very warning of each malformed directive and of
      each one left to a human. */
  lemma {:induction false} ImportConserves(ds: seq<Directive>)
    ensures Conserved(ds, WithAll(NOTHING, ds))
  {
    if ds != [] {
      ImportConserves(Front(ds));
      DirectiveAdds(WithAll(NOTHING, Front(ds)), Last(ds));
      AddingConserves(Front(ds), Last(ds), WithAll(NOTHING, Front(ds)), WithAll(NOTHING, ds));
      assert ds == Front(ds) + [Last(ds)];
    }
  }

  // --- Verbs ---

  predicate NoDuplicates(s: seq<string>) {
    forall i, j :: 0 <= i < j < |s| ==> s[i] != s[j]
  }

  lemma AddVerbAdds(verbs: seq<string>, verb: string)
    requires NoDuplicates(verbs)
    ensures var next := if verb in verbs then verbs else verbs + [verb];
            NoDuplicates(next) && verbs <= next && forall v :: v in next <==> v in verbs || v == verb
  {
  }

  lemma {:induction false} AddVerbsAdds(verbs: seq<string>, more: seq<string>)
    requires NoDuplicates(verbs)
    ensures NoDuplicates(AddVerbs(verbs, more))
    ensures verbs <= AddVerbs(verbs, more)
    ensures forall v :: v in AddVerbs(verbs, more) <==> v in verbs || v in more
    decreases more
  {
    if more != [] {
      var next := if more[0] in verbs then verbs else verbs + [more[0]];
      AddVerbAdds(verbs, more[0]);
      AddVerbsAdds(next, more[1..]);
      assert forall v :: v in more <==> v == more[0] || v in more[1..];
    }
  }

  /** The verbs a directive names. */
  function VerbsNamed(d: Directive): seq<string> {
    if IsTask(d) && TaskName(ParamsOf(d.raw)) == "winetricks"
    then AsList(VerbsValue(TaskParams(ParamsOf(d.raw)))) else []
  }

  lemma DirectiveAddsVerbs(c: Conversion, d: Directive)
    ensures WithDirective(c, d).verbs == AddVerbs(c.verbs, VerbsNamed(d))
  {
  }

  predicate NamedIn(ds: seq<Directive>, v: string) {
    exists i :: 0 <= i < |ds| && v in VerbsNamed(ds[i])
  }

  lemma NamedInSnoc(ds: seq<Directive>, d: Directive, v: string)
    ensures NamedIn(ds + [d], v) <==> NamedIn(ds, v) || v in VerbsNamed(d)
  {
    var all := ds + [d];
    if NamedIn(ds, v) {
      var i :| 0 <= i < |ds| && v in VerbsNamed(ds[i]);
      assert all[i] == ds[i];
    }
    assert all[|ds|] == d;
  }

  /** The barrel's verbs are exactly the ones the winetricks tasks name, each once. */
  lemma {:induction false} ImportCollectsVerbs(ds: seq<Directive>)
    ensures NoDuplicates(WithAll(NOTHING, ds).verbs)
    ensures forall v :: v in WithAll(NOTHING, ds).verbs <==> NamedIn(ds, v)
  {
    if ds != [] {
      var before := WithAll(NOTHING, Front(ds));
      ImportCollectsVerbs(Front(ds));
      AddVerbsAdds(before.verbs, VerbsNamed(Last(ds)));
      DirectiveAddsVerbs(before, Last(ds));
      assert ds == Front(ds) + [Last(ds)];
      forall v ensures v in WithAll(NOTHING, ds).verbs <==> NamedIn(ds, v) {
        NamedInSnoc(Front(ds), Last(ds), v);
      }
    }
  }
}
