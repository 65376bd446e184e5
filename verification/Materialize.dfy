/** From a recipe to a barrel with uniquely named programs, and back: slugs, the search for a
    free id, what the barrel store accepts, and the export of a barrel as a recipe. */
module Materialize {
  import opened Splitting
  import opened Characters
  import opened Texts

  // --- Slugs ---

  predicate IsSlugChar(c: char) {
    IsLower(c) || IsDigit(c)
  }

  function SkipOther(s: string): (r: string)
    ensures |r| <= |s|
    ensures r != "" ==> IsSlugChar(r[0])
  {
    if s == "" || IsSlugChar(s[0]) then s else SkipOther(s[1..])
  }

  /** Every run of other characters becomes one dash. */
  function Dashed(s: string): string
    decreases |s|
  {
    if s == "" then ""
    else if IsSlugChar(s[0]) then [s[0]] + Dashed(s[1..])
    else "-" + Dashed(SkipOther(s[1..]))
  }

  function StripStart(s: string): string {
    if s != "" && s[0] == '-' then StripStart(s[1..]) else s
  }

  function StripEnd(s: string): string {
    if s != "" && Last(s) == '-' then StripEnd(Front(s)) else s
  }

  function Slug(name: string): string {
    var s := StripEnd(StripStart(Dashed(Lower(name))));
    if s != "" then s else "barrel"
  }

  /** Lower-case letters, digits and single dashes between them. */
  predicate SingleDashes(s: string) {
    && (forall i :: 0 <= i < |s| ==> IsSlugChar(s[i]) || s[i] == '-')
    && (forall i :: 0 <= i < |s| - 1 ==> s[i] != '-' || s[i + 1] != '-')
  }

  predicate IsSlug(s: string) {
    s != "" && SingleDashes(s) && s[0] != '-' && Last(s) != '-'
  }

  lemma {:induction false} DashedIsSingle(s: string)
    ensures SingleDashes(Dashed(s))
    ensures s != "" && IsSlugChar(s[0]) ==> Dashed(s) != "" && Dashed(s)[0] == s[0]
    decreases |s|
  {
    if s != "" {
      var rest := if IsSlugChar(s[0]) then s[1..] else SkipOther(s[1..]);
      DashedIsSingle(rest);
      var head := if IsSlugChar(s[0]) then [s[0]] else "-";
      assert Dashed(s) == head + Dashed(rest);
      assert rest == "" ==> Dashed(rest) == "";
      forall i | 0 <= i < |Dashed(s)| - 1 ensures Dashed(s)[i] != '-' || Dashed(s)[i + 1] != '-' {
        if i > 0 {
          assert Dashed(rest)[i - 1] == Dashed(s)[i] && Dashed(rest)[i] == Dashed(s)[i + 1];
        }
      }
    }
  }

  lemma {:induction false} StripStartKeeps(s: string)
    requires SingleDashes(s)
    ensures SingleDashes(StripStart(s)) && (StripStart(s) != "" ==> StripStart(s)[0] != '-')
  {
    if s != "" && s[0] == '-' {
      var t := s[1..];
      assert forall i :: 0 <= i < |t| ==> t[i] == s[i + 1];
      StripStartKeeps(t);
    }
  }

  lemma {:induction false} StripEndKeeps(s: string)
    requires SingleDashes(s) && (s != "" ==> s[0] != '-')
    ensures SingleDashes(StripEnd(s))
    ensures StripEnd(s) != "" ==> StripEnd(s)[0] != '-' && Last(StripEnd(s)) != '-'
  {
    if s != "" && Last(s) == '-' {
      StripEndKeeps(Front(s));
    }
  }

  lemma SlugIsSlug(name: string)
    ensures IsSlug(Slug(name))
  {
    DashedIsSingle(Lower(name));
    StripStartKeeps(Dashed(Lower(name)));
    StripEndKeeps(StripStart(Dashed(Lower(name))));
  }

  lemma {:induction false} DashedOfSingle(s: string)
    requires SingleDashes(s) && (s != "" ==> Last(s) != '-')
    ensures Dashed(s) == s
  {
    if s != "" {
      var t := s[1..];
      assert forall i :: 0 <= i < |t| ==> t[i] == s[i + 1];
      assert t != "" ==> Last(t) == Last(s);
      DashedOfSingle(t);
      if s[0] == '-' {
        assert t != "" && IsSlugChar(t[0]);
        assert SkipOther(t) == t;
      }
      assert s == [s[0]] + t;
    }
  }

  /** A slug is its own slug. */
  lemma SlugOfSlug(s: string)
    requires IsSlug(s)
    ensures Slug(s) == s
  {
    assert Lower(s) == s;
    DashedOfSingle(s);
  }

  // --- Recipes and barrels ---

  datatype RecipeProgram = RecipeProgram(name: string, exe: string, args: seq<string>, category: string)

  datatype RecipeBarrel = RecipeBarrel(runner: string, arch: string, verbs: seq<string>, dxvk: bool, vkd3d: bool,
                                       env: map<string, string>)

  /** A recipe without its install steps and files, which a barrel does not keep. */
  datatype Recipe = Recipe(appName: string, appId: string, category: string, barrel: RecipeBarrel,
                           programs: seq<RecipeProgram>)

  datatype Program = Program(id: string, name: string, exe: string, args: seq<string>, category: string)

  datatype Barrel = Barrel(id: string, name: string, runner: string, arch: string, verbs: seq<string>, dxvk: bool,
                           vkd3d: bool, env: map<string, string>, programs: seq<Program>)

  function Or(a: string, b: string): string {
    if a != "" then a else b
  }

  // --- Naming ---

  /** The ids tried for a base: itself, then base-2, base-3, … */
  function Candidate(base: string, k: nat): string {
    if k == 0 then base else base + "-" + Digits(k + 1)
  }

  lemma CandidatesDiffer(base: string, i: nat, j: nat)
    requires i != j
    ensures Candidate(base, i) != Candidate(base, j)
  {
    if i > 0 && j > 0 && Candidate(base, i) == Candidate(base, j) {
      SamePrefix(base + "-", Digits(i + 1), Digits(j + 1));
      DigitsInjective(i + 1, j + 1);
    } else if i == 0 || j == 0 {
      assert |Candidate(base, if i == 0 then j else i)| > |base|;
    }
  }

  lemma SamePrefix(a: string, b: string, c: string)
    requires a + b == a + c
    ensures b == c
  {
    assert (a + b)[|a|..] == b && (a + c)[|a|..] == c;
  }

  predicate AllTaken(base: string, seen: set<string>, k: nat) {
    forall j :: 0 <= j < k ==> Candidate(base, j) in seen
  }

  function Tried(base: string, k: nat): (ids: set<string>)
    ensures forall x :: x in ids <==> exists j :: 0 <= j < k && x == Candidate(base, j)
  {
    set j | 0 <= j < k :: Candidate(base, j)
  }

  lemma {:induction false} TriedCount(base: string, k: nat)
    ensures |Tried(base, k)| == k
  {
    if k > 0 {
      TriedCount(base, k - 1);
      LastIsNew(base, k - 1);
      TriedSnoc(base, k - 1);
    }
  }

  lemma LastIsNew(base: string, k: nat)
    ensures Candidate(base, k) !in Tried(base, k)
  {
    if Candidate(base, k) in Tried(base, k) {
      var j :| 0 <= j < k && Candidate(base, k) == Candidate(base, j);
      CandidatesDiffer(base, j, k);
    }
  }

  lemma TriedSnoc(base: string, k: nat)
    ensures Tried(base, k + 1) == Tried(base, k) + {Candidate(base, k)}
  {
  }

  lemma SubsetCount(a: set<string>, b: set<string>)
    requires a <= b
    ensures |a| <= |b|
    decreases a
  {
    if a != {} {
      var x :| x in a;
      SubsetCount(a - {x}, b - {x});
    }
  }

  /** No more candidates can be taken than there are ids in use. */
  lemma Pigeonhole(base: string, seen: set<string>, k: nat)
    requires AllTaken(base, seen, k)
    ensures k <= |seen|
  {
    TriedCount(base, k);
    assert Tried(base, k) <= seen;
    SubsetCount(Tried(base, k), seen);
  }

  /** The first candidate that is not taken. */
  function FirstFree(base: string, seen: set<string>, k: nat): (r: nat)
    requires AllTaken(base, seen, k)
    ensures k <= r <= |seen| && AllTaken(base, seen, r) && Candidate(base, r) !in seen
    decreases |seen| + 1 - k
  {
    Pigeonhole(base, seen, k);
    if Candidate(base, k) in seen then FirstFree(base, seen, k + 1) else k
  }

  function BaseOf(p: RecipeProgram): string {
    Slug(Or(Or(p.name, p.exe), "app"))
  }

  function IdFor(base: string, seen: set<string>): string {
    Candidate(base, FirstFree(base, seen, 0))
  }

  function Ids(programs: seq<Program>): set<string> {
    set i | 0 <= i < |programs| :: programs[i].id
  }

  function Named(p: RecipeProgram, seen: set<string>): Program {
    var id := IdFor(BaseOf(p), seen);
    Program(id, Or(p.name, id), p.exe, p.args, p.category)
  }

  function Programs(ps: seq<RecipeProgram>): (programs: seq<Program>)
    ensures |programs| == |ps|
  {
    if ps == [] then []
    else Programs(Front(ps)) + [Named(Last(ps), Ids(Programs(Front(ps))))]
  }

  function BarrelOf(r: Recipe, barrelId: string): Barrel {
    var id := Slug(IdSource(r, barrelId));
    Barrel(id, Or(r.appName, id), r.barrel.runner, r.barrel.arch, r.barrel.verbs, r.barrel.dxvk, r.barrel.vkd3d,
           r.barrel.env, Programs(r.programs))
  }

  lemma IdsSnoc(programs: seq<Program>, p: Program)
    ensures Ids(programs + [p]) == Ids(programs) + {p.id}
  {
    var all := programs + [p];
    assert all[|programs|] == p;
    assert forall i :: 0 <= i < |programs| ==> all[i] == programs[i];
  }

  method BarrelFromRecipe(r: Recipe, barrelId: string) returns (b: Barrel)
    ensures b == BarrelOf(r, barrelId)
  {
    var bid := Slug(Or(Or(Or(barrelId, r.appId), r.appName), "barrel"));
    var programs: seq<Program> := [];
    var seen: set<string> := {};
    for i := 0 to |r.programs|
      invariant programs == Programs(r.programs[..i]) && seen == Ids(programs)
    {
      var p := r.programs[i];
      assert Front(r.programs[..i + 1]) == r.programs[..i] && Last(r.programs[..i + 1]) == p;
      var pid := FreeId(BaseOf(p), seen);
      IdsSnoc(programs, Program(pid, Or(p.name, pid), p.exe, p.args, p.category));
      seen := seen + {pid};
      programs := programs + [Program(pid, Or(p.name, pid), p.exe, p.args, p.category)];
    }
    assert r.programs[..|r.programs|] == r.programs;
    b := Barrel(bid, Or(r.appName, bid), r.barrel.runner, r.barrel.arch, r.barrel.verbs, r.barrel.dxvk,
                r.barrel.vkd3d, r.barrel.env, programs);
  }

  /** The naming loop: it ends because the ids it tries are all different. */
  method FreeId(base: string, seen: set<string>) returns (pid: string)
    ensures pid == IdFor(base, seen) && pid !in seen
  {
    pid := base;
    var n := 2;
    while pid in seen
      invariant n >= 2 && pid == Candidate(base, n - 2) && AllTaken(base, seen, n - 2)
      invariant FirstFree(base, seen, n - 2) == FirstFree(base, seen, 0)
      decreases |seen| + 2 - n
    {
      Pigeonhole(base, seen, n - 1);
      pid, n := base + "-" + Digits(n), n + 1;
    }
  }

  function RecipeOf(b: Barrel): Recipe {
    Recipe(Or(b.name, b.id), b.id,
           if exists i :: 0 <= i < |b.programs| && b.programs[i].category == "Game" then "Game" else "Application",
           RecipeBarrel(b.runner, b.arch, b.verbs, b.dxvk, b.vkd3d, b.env), Exported(b.programs))
  }

  function Exported(programs: seq<Program>): seq<RecipeProgram> {
    seq(|programs|, i requires 0 <= i < |programs| =>
      RecipeProgram(programs[i].name, programs[i].exe, programs[i].args, programs[i].category))
  }

  // --- Main results ---

  predicate DistinctIds(programs: seq<Program>) {
    forall i, j :: 0 <= i < j < |programs| ==> programs[i].id != programs[j].id
  }

  lemma CandidateIsSlug(base: string, k: nat)
    requires IsSlug(base)
    ensures IsSlug(Candidate(base, k))
  {
    if k > 0 {
      var d := Digits(k + 1);
      var s := base + "-" + d;
      assert forall i :: 0 <= i < |d| ==> IsDigit(d[i]);
      assert IsDigit(Last(d));
      forall i | 0 <= i < |s| - 1 ensures s[i] != '-' || s[i + 1] != '-' {
        if i == |base| {
          assert s[i + 1] == d[0];
        } else if i == |base| - 1 {
          assert s[i] == Last(base);
        } else if i > |base| {
          assert s[i] == d[i - |base| - 1];
        }
      }
    }
  }

  /** Whatever the programs are called, all ids of a barrel are pairwise distinct, and made
      of lower-case letters, digits and single dashes between them. */
  lemma {:induction false} IdsAreDistinctSlugs(ps: seq<RecipeProgram>)
    ensures DistinctIds(Programs(ps))
    ensures forall i :: 0 <= i < |ps| ==> IsSlug(Programs(ps)[i].id)
  {
    if ps != [] {
      var before := Programs(Front(ps));
      var p := Named(Last(ps), Ids(before));
      IdsAreDistinctSlugs(Front(ps));
      SlugIsSlug(Or(Or(Last(ps).name, Last(ps).exe), "app"));
      CandidateIsSlug(BaseOf(Last(ps)), FirstFree(BaseOf(Last(ps)), Ids(before), 0));
      assert p.id !in Ids(before);
    }
  }

  /** What a program is called by: its name, else its executable, else "app". */
  function CalledBy(p: RecipeProgram): string {
    if p.name != "" then p.name else if p.exe != "" then p.exe else "app"
  }

  lemma {:induction false} IdOfProgram(ps: seq<RecipeProgram>, i: nat)
    requires i < |ps|
    ensures Programs(ps)[..i] == Programs(ps[..i])
    ensures Programs(ps)[i].id == IdFor(Slug(CalledBy(ps[i])), Ids(Programs(ps[..i])))
  {
    if i < |ps| - 1 {
      IdOfProgram(Front(ps), i);
      assert Front(ps)[..i] == ps[..i];
    } else {
      assert ps[..i] == Front(ps);
    }
  }

  /** A name as it is, or with a number from 2 up. */
  function Numbered(base: string, n: nat): string {
    if n <= 1 then base else base + "-" + Digits(n)
  }

  predicate TakenBefore(programs: seq<Program>, i: nat, id: string)
    requires i <= |programs|
  {
    exists m :: 0 <= m < i && programs[m].id == id
  }

  /** Program `i` got number `n`, and every smaller number was taken before. */
  predicate GotNumber(programs: seq<Program>, i: nat, base: string, n: nat)
    requires i < |programs|
  {
    && n >= 1 && programs[i].id == Numbered(base, n)
    && forall j :: 1 <= j < n ==> TakenBefore(programs, i, Numbered(base, j))
  }

  lemma {:induction false} SeenBefore(ps: seq<RecipeProgram>, i: nat, id: string)
    requires i < |ps| && id in Ids(Programs(ps[..i]))
    ensures TakenBefore(Programs(ps), i, id)
  {
    IdOfProgram(ps, i);
    var before := Programs(ps[..i]);
    var m :| 0 <= m < |before| && before[m].id == id;
    assert Programs(ps)[..i][m] == before[m];
  }

  /** Every program's id is the slug of what it is called by, or that slug with the smallest
      number from 2 up that no earlier program of the barrel has taken. */
  lemma {:induction false} IdsAreFirstFree(ps: seq<RecipeProgram>, i: nat)
    requires i < |ps|
    ensures exists n: nat :: GotNumber(Programs(ps), i, Slug(CalledBy(ps[i])), n)
  {
    IdOfProgram(ps, i);
    var base, seen := Slug(CalledBy(ps[i])), Ids(Programs(ps[..i]));
    var k := FirstFree(base, seen, 0);
    forall j | 1 <= j < k + 1 ensures TakenBefore(Programs(ps), i, Numbered(base, j)) {
      assert Candidate(base, j - 1) in seen;
      SeenBefore(ps, i, Numbered(base, j));
    }
    assert GotNumber(Programs(ps), i, base, k + 1);
  }

  predicate Keeps(p: Program, from: RecipeProgram) {
    p.name == Or(from.name, p.id) && p.exe == from.exe && p.args == from.args && p.category == from.category
  }

  lemma {:induction false} ProgramsKeep(ps: seq<RecipeProgram>, i: nat)
    requires i < |ps|
    ensures Keeps(Programs(ps)[i], ps[i])
  {
    if i < |ps| - 1 {
      ProgramsKeep(Front(ps), i);
    }
  }

  /** Exporting a materialized barrel gives back the configuration and every program in
      order; only a program without a name comes back under its id. */
  lemma {:induction false} ExportKeepsPrograms(ps: seq<RecipeProgram>)
    ensures |Exported(Programs(ps))| == |ps|
    ensures forall i :: 0 <= i < |ps| ==>
              Exported(Programs(ps))[i] == ps[i].(name := Or(ps[i].name, Programs(ps)[i].id))
  {
    forall i | 0 <= i < |ps| ensures Exported(Programs(ps))[i] == ps[i].(name := Or(ps[i].name, Programs(ps)[i].id)) {
      ProgramsKeep(ps, i);
    }
  }

  /** What a materialized barrel is configured as, and what exporting it gives back. */
  lemma ExportKeepsConfig(r: Recipe, barrelId: string)
    ensures var b := BarrelOf(r, barrelId);
            && b.runner == r.barrel.runner && b.arch == r.barrel.arch && b.verbs == r.barrel.verbs
            && b.dxvk == r.barrel.dxvk && b.vkd3d == r.barrel.vkd3d && b.env == r.barrel.env
            && RecipeOf(b).barrel == r.barrel && RecipeOf(b).appId == b.id
            && b.id == Slug(if barrelId != "" then barrelId else if r.appId != "" then r.appId
                            else if r.appName != "" then r.appName else "barrel")
            && b.name == (if r.appName != "" then r.appName else b.id) == RecipeOf(b).appName
            && RecipeOf(b).category ==
                 if exists i :: 0 <= i < |r.programs| && r.programs[i].category == "Game" then "Game" else "Application"
    ensures r.appName != "" ==> RecipeOf(BarrelOf(r, barrelId)).appName == r.appName
    ensures (forall i :: 0 <= i < |r.programs| ==> r.programs[i].name != "") ==>
              RecipeOf(BarrelOf(r, barrelId)).programs == r.programs
  {
    ExportKeepsPrograms(r.programs);
    SlugIsSlug(IdSource(r, barrelId));
    var programs := BarrelOf(r, barrelId).programs;
    forall i | 0 <= i < |r.programs| ensures programs[i].category == r.programs[i].category {
      ProgramsKeep(r.programs, i);
    }
  }

  // --- Which barrels can be stored ---

  /** What the barrel store demands of an id: one path component, at most 128 long. */
  predicate IsSafeId(id: string) {
    && id != "" && IsSlugChar(id[0]) && |id| <= 128
    && forall i :: 0 <= i < |id| ==> IsSlugChar(id[i]) || id[i] == '_' || id[i] == '-'
  }

  /** The name a barrel's id is made from. */
  function IdSource(r: Recipe, barrelId: string): string {
    Or(Or(Or(barrelId, r.appId), r.appName), "barrel")
  }

  lemma {:induction false} DashedIsNoLonger(s: string)
    ensures |Dashed(s)| <= |s|
    decreases |s|
  {
    if s != "" {
      DashedIsNoLonger(if IsSlugChar(s[0]) then s[1..] else SkipOther(s[1..]));
    }
  }

  lemma {:induction false} StripIsNoLonger(s: string)
    ensures |StripStart(s)| <= |s| && |StripEnd(s)| <= |s|
  {
    if s != "" {
      StripIsNoLonger(s[1..]);
      StripIsNoLonger(Front(s));
    }
  }

  /** A slug is never longer than its name, except for the stand-in of an empty one. */
  lemma SlugIsNoLonger(name: string)
    ensures |Slug(name)| <= if |name| > 6 then |name| else 6
  {
    DashedIsNoLonger(Lower(name));
    StripIsNoLonger(Dashed(Lower(name)));
    StripIsNoLonger(StripStart(Dashed(Lower(name))));
  }

  /** The exact condition for storing a materialized barrel: its id has the right characters
      always, so it is safe if and only if the slug of its name is at most 128 long, as it is
      for every name of at most 128 characters. */
  lemma BarrelIsStorableIff(r: Recipe, barrelId: string)
    ensures IsSafeId(BarrelOf(r, barrelId).id) <==> |Slug(IdSource(r, barrelId))| <= 128
    ensures |IdSource(r, barrelId)| <= 128 ==> IsSafeId(BarrelOf(r, barrelId).id)
  {
    SlugIsSlug(IdSource(r, barrelId));
    SlugIsNoLonger(IdSource(r, barrelId));
  }

  /** A name that is a slug already and longer than that: its barrel is refused. */
  lemma LongNameIsRefused(r: Recipe, name: string)
    requires IsSlug(name) && |name| > 128
    ensures !IsSafeId(BarrelOf(r, name).id)
  {
    SlugOfSlug(name);
  }

  lemma IdOfFreeSlug(id: string, seen: set<string>)
    requires IsSlug(id) && id !in seen
    ensures IdFor(Slug(id), seen) == id
  {
    SlugOfSlug(id);
  }

  lemma ExportedSnoc(programs: seq<Program>, p: Program)
    ensures Exported(programs + [p]) == Exported(programs) + [RecipeProgram(p.name, p.exe, p.args, p.category)]
  {
  }

  /** Naming the exported programs again gives every program the id it already had. */
  lemma {:induction false} RenamingIsStable(ps: seq<RecipeProgram>)
    ensures Programs(Exported(Programs(ps))) == Programs(ps)
  {
    if ps != [] {
      var before, last := Programs(Front(ps)), Last(ps);
      var p := Named(last, Ids(before));
      var q := RecipeProgram(p.name, p.exe, p.args, p.category);
      RenamingIsStable(Front(ps));
      IdsAreDistinctSlugs(ps);
      ExportedSnoc(before, p);
      assert Programs(ps)[|before|] == p;
      assert IsSlug(p.id) && p.id !in Ids(before);
      if last.name == "" {
        IdOfFreeSlug(p.id, Ids(before));
      }
      assert Named(q, Ids(before)) == p;
      assert Front(Exported(before) + [q]) == Exported(before);
    }
  }

  /** Materialize, export, materialize: the second barrel is the first, ids included. */
  lemma RematerializingIsStable(r: Recipe, barrelId: string)
    ensures BarrelOf(RecipeOf(BarrelOf(r, barrelId)), "") == BarrelOf(r, barrelId)
  {
    RenamingIsStable(r.programs);
    SlugIsSlug(Or(Or(Or(barrelId, r.appId), r.appName), "barrel"));
    SlugOfSlug(BarrelOf(r, barrelId).id);
  }
}
