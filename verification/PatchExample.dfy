/** Two concrete runs of one patch of two files, which overwrites the first and meets a
    conflict at the second. In one it fails to put the first back; in the other it puts
    back something else than it overwrote. */
module PatchExample {
  import opened Options
  import opened Workspace
  import opened BoundaryWalk
  import opened PatchCommit
  import opened PatchInstall
  import opened PatchProofs

  const ROOT: Path := ["r"]
  const PATCHES: Path := ["r", ".orcana", "patches"]
  const RECORDS: Path := ["r", ".orcana", "transactions"]
  const TEMP: Path := ["r", ".orcana", "patches", "t"]

  function NoSecret(p: Path): bool { false }
  function NotLocked(p: Path): bool { false }
  function Itself(p: Path): RealPath { RealAt(p) }
  function Plain(s: string): string { s }

  function GuardRoot(w: World, m: Option<Memory>, t: Path): (Verdict, Option<Memory>) {
    CheckForbidden(w, ROOT, m, t, NoSecret)
  }

  function Calm(tree: map<Path, Node>): World { World(tree, NotLocked, Itself) }
  function Quiet(): Interference { Interference(map[], NotLocked, Itself) }

  /** Another process writes the first file, too late to be noticed. */
  function Late(): Interference { Interference(map[["r", "a"] := Some(File("other"))], NotLocked, Itself) }

  function StepWith(beforeRename: Interference): Step {
    Step(Quiet(), Quiet(), Quiet(), false, Quiet(), Quiet(), beforeRename, false)
  }

  function Steps(rival: bool): nat -> Step {
    (k: nat) => StepWith(if rival && k == 0 then Late() else Quiet())
  }

  function TwoFiles(): Job {
    var first := Entry(["a"], Some("old"), "new", Some("old"), None);
    var second := Entry(["b"], Some("x"), "y", Some("x"), None);
    Job(ROOT, "t", "f", "snapshots", [first, second], Plain, GuardRoot)
  }

  /** The second file no longer has the approved content. */
  function Before(): World {
    Calm(map[ROOT := Dir, PATCHES := Dir, RECORDS := Dir, ["r", "a"] := File("old"), ["r", "b"] := File("changed")])
  }

  function ScriptWith(rival: bool, restoreFault: Option<nat>): Script {
    Script(false, None, Quiet(), Approves, Steps(rival), restoreFault)
  }

  ghost predicate HasFile(tree: map<Path, Node>, p: Path, content: string) { p in tree && tree[p] == File(content) }

  /** The tree while the patch runs, the first file holding `content`. */
  ghost predicate Running(tree: map<Path, Node>, content: string) {
    && ROOT in tree && tree[ROOT] == Dir && HasFile(tree, TwoFiles().RecordPath(), "snapshots")
    && HasFile(tree, ["r", "a"], content) && HasFile(tree, ["r", "b"], "changed") && TEMP + ["b"] in tree
  }

  lemma Undisturbed(tree: map<Path, Node>)
    ensures Disturb(Calm(tree), Quiet()) == Calm(tree)
  {
    assert Disturb(Calm(tree), Quiet()).tree == tree;
  }

  lemma Paths()
    ensures TwoFiles().TempDir() == TEMP && TwoFiles().RecordDir() == RECORDS
    ensures TwoFiles().TempPath(0) == TEMP + ["a"] && TwoFiles().TempPath(1) == TEMP + ["b"]
    ensures TwoFiles().Target(0) == ["r", "a"] && TwoFiles().Target(1) == ["r", "b"]
    ensures TwoFiles().RecordPath() == ["r", ".orcana", "transactions", "f.json"]
    ensures Parent(TEMP + ["a"]) == Parent(TEMP + ["b"]) == TEMP && Parent(TEMP) == PATCHES
    ensures Parent(TwoFiles().RecordPath()) == RECORDS
    ensures Parent(["r", "a"]) == Parent(["r", "b"]) == ROOT
    ensures (TEMP + ["a"])[4] != (TEMP + ["b"])[4] && TEMP[2] != RECORDS[2]
  {
    assert "f" + ".json" == "f.json";
    assert "patches"[0] != "transactions"[0];
  }

  lemma Proposing() returns (tree: map<Path, Node>)
    ensures Propose(TwoFiles(), Before(), false) == (Calm(tree), true)
    ensures tree == Before().tree[TwoFiles().RecordPath() := File("snapshots")]
  {
    Paths();
    tree := Before().tree[TwoFiles().RecordPath() := File("snapshots")];
    assert Mkdir(Before(), RECORDS) == Some(Before());
  }

  lemma Staging(before: map<Path, Node>) returns (tree: map<Path, Node>)
    requires before == Before().tree[TwoFiles().RecordPath() := File("snapshots")]
    ensures StageFrom(TwoFiles(), RemoveTree(Calm(before), TEMP), 0, None) == (Calm(tree), true)
    ensures Running(tree, "old") && HasFile(tree, TEMP + ["a"], "new")
  {
    Paths();
    var w := RemoveTree(Calm(before), TEMP);
    assert !(TEMP <= TwoFiles().RecordPath()) by { assert TwoFiles().RecordPath()[2] == RECORDS[2]; }
    assert w.tree == before;
    assert Mkdir(w, TEMP) == Some(w.(tree := w.tree[TEMP := Dir]));
    var w1 := StageOne(TwoFiles(), w, 0).value;
    var w2 := StageOne(TwoFiles(), w1, 1).value;
    tree := w2.tree;
    assert StageFrom(TwoFiles(), w2, 2, None) == (w2, true);
    assert StageFrom(TwoFiles(), w1, 1, None) == (w2, true);
  }

  ghost predicate KnowsRoot(memory: Option<Memory>) {
    memory.Some? && memory.value.rootReal == ROOT && ROOT in memory.value.safe
  }

  /** In a calm tree a file directly below the root passes the check. */
  lemma Passes(tree: map<Path, Node>, memory: Option<Memory>, name: string)
    requires ROOT in tree && tree[ROOT] == Dir && ["r", name] in tree && tree[["r", name]].File?
    requires (name == "a" || name == "b") && KnowsRoot(memory)
    ensures var (v, m) := GuardRoot(Calm(tree), memory, ["r", name]); v.Allowed? && KnowsRoot(m)
  {
    var w := Calm(tree);
    assert Parent(["r", name]) == ROOT;
    assert CachedWalk(w, ROOT, ROOT, memory.value.safe, ROOT, 1).0.Allowed?;
    assert DenialAt(w, ROOT, ROOT, ["r", name]).None? by { assert ROOT <= ["r", name]; }
    assert ["r", name][1..] == [name];
    assert Lower(Joined([name])) == name;
  }

  lemma BothChecksPass(tree: map<Path, Node>, memory: Option<Memory>, k: nat, last: Interference)
    requires k < 2 && ROOT in tree && tree[ROOT] == Dir && KnowsRoot(memory)
    requires TwoFiles().Target(k) in tree && tree[TwoFiles().Target(k)].File?
    ensures AtFirstCheck(Calm(tree), StepWith(last)) == Calm(tree)
    ensures AfterMkdir(Calm(tree), TwoFiles().Target(k), StepWith(last)) == Some(Calm(tree))
    ensures var c := ChecksAt(TwoFiles().Staged(), Calm(tree), memory, k, StepWith(last));
            c.first.Allowed? && c.second.Allowed? && KnowsRoot(c.memory)
  {
    Paths();
    Undisturbed(tree);
    var name := if k == 0 then "a" else "b";
    assert TwoFiles().Staged().Target(k) == ["r", name];
    Passes(tree, memory, name);
    Passes(tree, GuardRoot(Calm(tree), memory, ["r", name]).1, name);
    assert Mkdir(Calm(tree), ROOT) == Some(Calm(tree));
  }

  /** What one installation of the patch leads to, checks included. */
  function Install(tree: map<Path, Node>, memory: Option<Memory>, k: nat, last: Interference): StepRun
    requires k < 2
  {
    var step := StepWith(last);
    InstallOne(TwoFiles().Staged(), Calm(tree), k, step, ChecksAt(TwoFiles().Staged(), Calm(tree), memory, k, step))
  }

  lemma FirstRenames(tree: map<Path, Node>, content: string) returns (tree1: map<Path, Node>)
    requires Running(tree, content) && TEMP + ["a"] in tree
    ensures Rename(Calm(tree), TEMP + ["a"], ["r", "a"]) == Some(Calm(tree1))
    ensures TEMP + ["a"] in tree && tree[TEMP + ["a"]] == File("new") ==> Running(tree1, "new")
  {
    Paths();
    assert TwoFiles().RecordPath()[2] == "transactions" && (TEMP + ["a"])[2] == "patches";
    tree1 := Rename(Calm(tree), TEMP + ["a"], ["r", "a"]).value.tree;
  }

  /** What the rename meets: the second file and the rest are as they were. */
  lemma BeforeRename(tree: map<Path, Node>, last: Interference) returns (found: map<Path, Node>)
    requires Running(tree, "old") && TEMP + ["a"] in tree && (last == Quiet() || last == Late())
    ensures Disturb(Calm(tree), last) == Calm(found) && Running(found, if last == Quiet() then "old" else "other")
    ensures TEMP + ["a"] in found && found[TEMP + ["a"]] == tree[TEMP + ["a"]]
  {
    Paths();
    Undisturbed(tree);
    found := if last == Quiet() then tree else tree[["r", "a"] := File("other")];
    assert Late().edits != Quiet().edits by { assert ["r", "a"] in Late().edits; }
    assert Disturb(Calm(tree), last).tree == found;
  }

  lemma FirstInstalls(tree: map<Path, Node>, memory: Option<Memory>, last: Interference)
    returns (tree1: map<Path, Node>)
    requires Running(tree, "old") && HasFile(tree, TEMP + ["a"], "new")
    requires KnowsRoot(memory) && (last == Quiet() || last == Late())
    ensures var one := Install(tree, memory, 0, last); one.Installed? && one.world == Calm(tree1)
    ensures Running(tree1, "new")
  {
    Paths();
    Undisturbed(tree);
    BothChecksPass(tree, memory, 0, last);
    assert TwoFiles().Staged().TempPath(0) == TEMP + ["a"];
    var found := BeforeRename(tree, last);
    tree1 := FirstRenames(found, if last == Quiet() then "old" else "other");
  }

  lemma SecondConflicts(tree: map<Path, Node>, memory: Option<Memory>)
    requires Running(tree, "new") && KnowsRoot(memory)
    ensures var one := Install(tree, memory, 1, Quiet());
            one.Stopped? && one.failure == FreshnessConflict(1) && one.world == Calm(tree)
  {
    Paths();
    Undisturbed(tree);
    BothChecksPass(tree, memory, 1, Quiet());
    assert TwoFiles().Staged().TempPath(1) == TEMP + ["b"];
  }

  lemma CommitConflicts(tree: map<Path, Node>, rival: bool) returns (tree1: map<Path, Node>)
    requires Running(tree, "old") && HasFile(tree, TEMP + ["a"], "new")
    ensures var run := Commit(TwoFiles().Staged(), Calm(tree), Steps(rival));
            run.failure == Some(FreshnessConflict(1)) && run.world == Calm(tree1) && |run.installed| == 1
    ensures Running(tree1, "new")
  {
    var s, memory := TwoFiles().Staged(), FreshMemory(Calm(tree), ROOT);
    var last := if rival then Late() else Quiet();
    Paths();
    BothChecksPass(tree, memory, 0, last);
    var m1 := ChecksAt(s, Calm(tree), memory, 0, StepWith(last)).memory;
    tree1 := FirstInstalls(tree, memory, last);
    SecondConflicts(tree1, m1);
    InstallerIs(s, Steps(rival), Calm(tree), memory, 0);
    InstallerIs(s, Steps(rival), Calm(tree1), m1, 1);
    var rest := CommitFrom(InstallerOf(s, Steps(rival)), 2, Calm(tree1), m1, 1);
    assert rest.failure == Some(FreshnessConflict(1)) && rest.world == Calm(tree1) && rest.installed == [];
  }

  lemma RunIsWellFormed(rival: bool, fault: Option<nat>)
    ensures WellFormed(TwoFiles()) && HandsOff(TwoFiles(), ScriptWith(rival, fault))
    ensures GuardsBoundary(TwoFiles(), NoSecret) && LeavesInstalled(TwoFiles(), Steps(rival), 0)
  {
    Paths();
    var j := TwoFiles();
    assert ROOT + [".orcana"] == ["r", ".orcana"];
    assert !(j.Target(0) <= j.Target(1)) && !(j.Target(1) <= j.Target(0));
    assert TEMP[1] == ".orcana" && j.Target(0)[1] == "a" && j.Target(1)[1] == "b";
    assert ".orcana"[0] == '.' && "a"[0] != '.' && "b"[0] != '.';
    StepsAreMeek(rival);
  }

  lemma StepsAreMeek(rival: bool)
    ensures Spares(TwoFiles(), Quiet()) && StepsSpare(TwoFiles(), Steps(rival))
    ensures LeavesInstalled(TwoFiles(), Steps(rival), 0)
  {
    Paths();
    var j := TwoFiles();
    forall k: nat, f | k < 2 && f in Steps(rival)(k).Others()
      ensures Spares(j, f) && (k == 1 ==> j.Target(0) !in f.edits)
    {
      var last := if rival && k == 0 then Late() else Quiet();
      assert Steps(rival)(k) == StepWith(last);
      assert f in [Quiet(), Quiet(), Quiet(), Quiet(), Quiet(), last];
      assert f == Quiet() || (f == Late() && k == 0);
    }
  }

  /** The patch up to its conflict. */
  lemma RunConflicts(rival: bool, fault: Option<nat>) returns (tree: map<Path, Node>)
    ensures var w3 := BeforeLoop(TwoFiles(), Before(), ScriptWith(rival, fault));
            var run := Commit(TwoFiles().Staged(), w3, Steps(rival));
            run.failure == Some(FreshnessConflict(1)) && run.world == Calm(tree) && |run.installed| == 1
    ensures Running(tree, "new") && TreeToRestore(TwoFiles(), Before(), ScriptWith(rival, fault)) == Calm(tree)
    ensures var o := ApplyAndCommitOutcome(TwoFiles(), Before(), ScriptWith(rival, fault));
            && o.ending == Failed(FreshnessConflict(1), RestoreSnapshots(TwoFiles(), Calm(tree), 1, fault).1)
            && |o.installed| == 1
  {
    Paths();
    var proposed := Proposing();
    var staged := Staging(proposed);
    Undisturbed(staged);
    tree := CommitConflicts(staged, rival);
  }

  /** The file was overwritten and not put back, and the history did not move: evidence
      bound to the state before still matches. */
  lemma OverwrittenWithoutTrace()
    ensures var o := ApplyAndCommitOutcome(TwoFiles(), Before(), ScriptWith(false, Some(0)));
            && o.ending == Failed(FreshnessConflict(1), false) && o.events == []
            && At(o.world, ["r", "a"]) == Some(File("new"))
  {
    Paths();
    RunIsWellFormed(false, Some(0));
    var tree := RunConflicts(false, Some(0));
    var j := SwallowedRestoreLeavesNewContent(TwoFiles(), Before(), ScriptWith(false, Some(0)));
    var o := ApplyAndCommitOutcome(TwoFiles(), Before(), ScriptWith(false, Some(0)));
    assert j == 0 && TargetHalfRestored(TwoFiles(), Before(), ScriptWith(false, Some(0)), o, j, 0);
  }

  /** In the tree the conflict left the first file can be put back. */
  lemma Restores(tree: map<Path, Node>)
    requires Running(tree, "new")
    ensures RestoresAll(TwoFiles(), Calm(tree), 1, None) && RestoreSnapshots(TwoFiles(), Calm(tree), 1, None).1
  {
    Paths();
    RunIsWellFormed(true, None);
    assert Mkdir(Calm(tree), ROOT) == Some(Calm(tree));
    RestoresExactlyWhen(TwoFiles(), Calm(tree), 1, None);
  }

  /** Another process wrote "other" after the base hash was checked. The patch overwrote
      that unseen, and its restore puts "old" there. */
  lemma LateEditIsLost()
    ensures var o := ApplyAndCommitOutcome(TwoFiles(), Before(), ScriptWith(true, None));
            && o.ending == Failed(FreshnessConflict(1), true) && |o.installed| == 1
            && At(o.installed[0].found, ["r", "a"]) == Some(File("other"))
            && At(o.world, ["r", "a"]) == Some(File("old"))
  {
    OldIsBack();
    ConflictComesFromCommit(TwoFiles(), Before(), ScriptWith(true, None));
    FoundOther(BeforeLoop(TwoFiles(), Before(), ScriptWith(true, None)));
  }

  lemma OldIsBack()
    ensures var o := ApplyAndCommitOutcome(TwoFiles(), Before(), ScriptWith(true, None));
            && o.ending == Failed(FreshnessConflict(1), true) && |o.installed| == 1
            && At(o.world, ["r", "a"]) == Some(File("old"))
  {
    Paths();
    RunIsWellFormed(true, None);
    var tree := RunConflicts(true, None);
    Restores(tree);
    PutsBackFirst(ScriptWith(true, None), tree);
  }

  lemma PutsBackFirst(script: Script, tree: map<Path, Node>)
    requires TreeToRestore(TwoFiles(), Before(), script) == Calm(tree) && WellFormed(TwoFiles())
    requires var o := ApplyAndCommitOutcome(TwoFiles(), Before(), script);
             o.ending.Failed? && o.ending.failure == FreshnessConflict(1)
    requires RestoresAll(TwoFiles(), Calm(tree), 1, script.restoreFault)
    ensures At(ApplyAndCommitOutcome(TwoFiles(), Before(), script).world, ["r", "a"]) == Some(File("old"))
  {
    Paths();
    RestoreUndoesAllEdits(TwoFiles(), Before(), script, 0);
  }

  lemma FoundOther(w: World)
    requires |Commit(TwoFiles().Staged(), w, Steps(true)).installed| == 1
    ensures At(Commit(TwoFiles().Staged(), w, Steps(true)).installed[0].found, ["r", "a"]) == Some(File("other"))
  {
    var at := Commit(TwoFiles().Staged(), w, Steps(true)).installed[0];
    var rootReal := InstalledIsGuarded(TwoFiles().Staged(), w, Steps(true), 0, NoSecret);
    assert Steps(true)(0) == StepWith(Late()) && at.found == Disturb(at.hashed, Late());
    DisturbAt(at.hashed, Late(), ["r", "a"]);
  }
}
