/**
 * The seed's repositories (features/steps/seed.ts): `makeRepoScript`, which can be cut at any moment and
 * run again on the same volume, and `ensureLargeSeed`, which many workers run at once.
 */
module Seed {
  import opened Wrappers

  // ---- makeRepoScript ------------------------------------------------------------------------------

  datatype Project = App | Billing

  /** A folder: cut short while it was made or removed, or a repository with what was pushed to it. It
      is whole when its server info was written too. */
  datatype Folder = Partial | Repo(project: Project, info: bool, pushes: seq<string>)

  /** The work tree, each `<name>.new`, and each served path. A path that is not in its map is absent. */
  datatype Disk = Disk(work: Option<Folder>, clones: map<string, Folder>, served: map<string, Folder>)

  /** A stretch of the script: the commands that make the work tree, or one `serve`. */
  datatype Stretch = Build(project: Project) | Serve(name: string, project: Project)

  const SCRIPT := [Build(App), Serve("app.git", App), Serve("push.git", App), Serve("gpg.git", App),
                   Serve("other.git", App), Build(Billing), Serve("billing.git", Billing)]

  /** Where the script is: what its stretch does next. A removal and a clone take time, and can be cut
      between their two steps; a rename is one step. */
  datatype Phase = Begin | Removed | Made | Cleared | Cloned | Informed

  datatype Seat = Seat(disk: Disk, stage: nat, phase: Phase)

  /** The pod starts its init container anew, the script takes its next step, or a scenario pushes. */
  datatype Action = Restart | Next | Push(name: string, commit: string)

  /** A `mv` onto a folder puts it inside. */
  function Rename(disk: Disk, name: string): Disk {
    if name !in disk.clones then disk
    else disk.(clones := disk.clones - {name},
               served := disk.served[name := if name in disk.served then Partial else disk.clones[name]])
  }

  /** The script stops where a folder that it makes is there already. */
  function BuildNext(s: Seat, project: Project): Seat {
    match s.phase
    case Begin => s.(disk := s.disk.(work := if s.disk.work.None? then None else Some(Partial)), phase := Removed)
    case Removed => s.(disk := s.disk.(work := None), phase := Cleared)
    case Cleared => if s.disk.work.Some? then s else s.(disk := s.disk.(work := Some(Partial)), phase := Made)
    case _ => Seat(s.disk.(work := Some(Repo(project, false, []))), s.stage + 1, Begin)
  }

  function ServeNext(s: Seat, name: string): Seat {
    match s.phase
    case Begin =>
      if name in s.disk.served then Seat(s.disk, s.stage + 1, Begin)
      else s.(disk := if name in s.disk.clones then s.disk.(clones := s.disk.clones[name := Partial]) else s.disk,
              phase := Removed)
    case Removed => s.(disk := s.disk.(clones := s.disk.clones - {name}), phase := Cleared)
    case Cleared =>
      if name in s.disk.clones then s else s.(disk := s.disk.(clones := s.disk.clones[name := Partial]), phase := Made)
    case Made =>
      s.(disk := s.disk.(clones := s.disk.clones[name :=
           if s.disk.work.Some? && s.disk.work.value.Repo? then Repo(s.disk.work.value.project, false, [])
           else Partial]),
         phase := Cloned)
    case Cloned =>
      s.(disk := s.disk.(clones := s.disk.clones[name :=
           if name in s.disk.clones && s.disk.clones[name].Repo? then s.disk.clones[name].(info := true) else Partial]),
         phase := Informed)
    case Informed => Seat(Rename(s.disk, name), s.stage + 1, Begin)
  }

  function Step(script: seq<Stretch>, s: Seat, a: Action): Seat {
    match a
    case Restart => Seat(s.disk, 0, Begin)
    case Push(name, commit) =>
      if name in s.disk.served && s.disk.served[name].Repo?
      then s.(disk := s.disk.(served := s.disk.served[name :=
             s.disk.served[name].(pushes := s.disk.served[name].pushes + [commit])]))
      else s
    case Next =>
      if s.stage >= |script| then s
      else match script[s.stage]
           case Build(project) => BuildNext(s, project)
           case Serve(name, _) => ServeNext(s, name)
  }

  /** The volume starts empty. */
  const EMPTY := Seat(Disk(None, map[], map[]), 0, Begin)

  function Run(script: seq<Stretch>, actions: seq<Action>): Seat {
    if actions == [] then EMPTY
    else Step(script, Run(script, actions[..|actions| - 1]), actions[|actions| - 1])
  }

  // ---- what every cut leaves -----------------------------------------------------------------------

  /** The project whose work tree a stretch finds: that of the last `Build` before it. */
  function Found(script: seq<Stretch>, i: nat): Option<Project>
    requires i <= |script|
  {
    if i == 0 then None
    else if script[i - 1].Build? then Some(script[i - 1].project)
    else Found(script, i - 1)
  }

  /** Each `serve` finds the work tree of its own project, and serves a name of its own. */
  ghost predicate InOrder(script: seq<Stretch>) {
    && (forall i :: 0 <= i < |script| && script[i].Serve? ==> Found(script, i) == Some(script[i].project))
    && forall i, j :: 0 <= i < j < |script| && script[i].Serve? && script[j].Serve? ==> script[i].name != script[j].name
  }

  predicate Whole(f: Folder, project: Project) { f.Repo? && f.project == project && f.info }

  /** Each served path is absent or a whole repository of its own project. */
  ghost predicate ServesWhole(script: seq<Stretch>, disk: Disk) {
    forall i :: 0 <= i < |script| && script[i].Serve? && script[i].name in disk.served ==>
      Whole(disk.served[script[i].name], script[i].project)
  }

  /** Between its stretches the work tree is the one that the next `serve` needs. */
  ghost predicate WorkReady(script: seq<Stretch>, s: Seat) {
    s.stage < |script| && script[s.stage].Serve? && Found(script, s.stage).Some? ==>
      s.disk.work == Some(Repo(Found(script, s.stage).value, false, []))
  }

  /** What a `serve` has done so far. */
  ghost predicate CloneReady(script: seq<Stretch>, s: Seat) {
    s.stage < |script| && script[s.stage].Serve? ==>
      var name, project := script[s.stage].name, script[s.stage].project;
      && (s.phase != Begin ==> name !in s.disk.served)
      && (s.phase == Cloned ==> name in s.disk.clones && s.disk.clones[name] == Repo(project, false, []))
      && (s.phase == Informed ==> name in s.disk.clones && s.disk.clones[name] == Repo(project, true, []))
  }

  /** Every stretch behind the script served its repository. */
  ghost predicate ServedSoFar(script: seq<Stretch>, s: Seat) {
    forall i :: 0 <= i < |script| && i < s.stage && script[i].Serve? ==> script[i].name in s.disk.served
  }

  ghost predicate Inv(script: seq<Stretch>, s: Seat) {
    && s.stage <= |script| && ServesWhole(script, s.disk)
    && WorkReady(script, s) && CloneReady(script, s) && ServedSoFar(script, s)
  }

  lemma BuildKeeps(script: seq<Stretch>, s: Seat)
    requires InOrder(script) && Inv(script, s) && s.stage < |script| && script[s.stage].Build?
    ensures Inv(script, Step(script, s, Next))
  {
  }

  lemma ServeKeeps(script: seq<Stretch>, s: Seat)
    requires InOrder(script) && Inv(script, s) && s.stage < |script| && script[s.stage].Serve?
    ensures Inv(script, Step(script, s, Next))
  {
    assert Found(script, s.stage) == Some(script[s.stage].project);
    assert s.stage + 1 < |script| && script[s.stage + 1].Serve? ==>
        Found(script, s.stage + 1) == Found(script, s.stage);
  }

  lemma PushKeeps(script: seq<Stretch>, s: Seat, name: string, commit: string)
    requires Inv(script, s)
    ensures Inv(script, Step(script, s, Push(name, commit)))
  {
  }

  lemma {:induction false} AlwaysInv(script: seq<Stretch>, actions: seq<Action>)
    requires InOrder(script)
    ensures Inv(script, Run(script, actions))
    decreases |actions|
  {
    if actions != [] {
      var n := |actions| - 1;
      AlwaysInv(script, actions[..n]);
      var s := Run(script, actions[..n]);
      match actions[n] {
        case Restart =>
        case Push(name, commit) => PushKeeps(script, s, name, commit);
        case Next =>
          if s.stage < |script| {
            if script[s.stage].Build? { BuildKeeps(script, s); } else { ServeKeeps(script, s); }
          }
      }
    }
  }

  lemma ScriptIsInOrder()
    ensures InOrder(SCRIPT)
  {
    assert Found(SCRIPT, 1) == Some(App);
    assert Found(SCRIPT, 2) == Found(SCRIPT, 3) == Found(SCRIPT, 4) == Some(App);
    assert Found(SCRIPT, 6) == Some(Billing);
    Names();
  }

  lemma Names()
    ensures "app.git" != "push.git" && "app.git" != "gpg.git" && "app.git" != "other.git" && "app.git" != "billing.git"
    ensures "push.git" != "gpg.git" && "push.git" != "other.git" && "push.git" != "billing.git"
    ensures "gpg.git" != "other.git" && "gpg.git" != "billing.git" && "other.git" != "billing.git"
  {
    assert "app.git"[0] == 'a' && "push.git"[0] == 'p' && "gpg.git"[0] == 'g';
    assert "other.git"[0] == 'o' && "billing.git"[0] == 'b';
  }

  /** The projects that the seed serves. */
  const PROJECTS := map["app.git" := App, "push.git" := App, "gpg.git" := App, "other.git" := App,
                        "billing.git" := Billing]

  predicate Serves(script: seq<Stretch>, name: string, project: Project) { Serve(name, project) in script }

  /** However often the script ran and wherever it was cut, a served path is absent or a whole
      repository of its own project. */
  lemma AbsentOrWhole(script: seq<Stretch>, actions: seq<Action>, name: string, project: Project)
    requires InOrder(script) && Serves(script, name, project)
    ensures var served := Run(script, actions).disk.served;
            name in served ==> Whole(served[name], project)
  {
    AlwaysInv(script, actions);
    var i :| 0 <= i < |script| && script[i] == Serve(name, project);
    assert script[i].Serve?;
  }

  /** A served repository is kept: it is the same one later, with what was pushed to it. */
  ghost predicate Kept(before: Folder, after: Folder) {
    && before.Repo? && after.Repo? && before.project == after.project
    && before.info == after.info && before.pushes <= after.pushes
  }

  lemma StepReplacesNothing(script: seq<Stretch>, s: Seat, a: Action, name: string)
    requires Inv(script, s) && name in s.disk.served && s.disk.served[name].Repo?
    ensures name in Step(script, s, a).disk.served && Kept(s.disk.served[name], Step(script, s, a).disk.served[name])
  {
  }

  /** A repository that is served once is never replaced, and keeps every push. */
  lemma {:induction false} NeverReplaced(script: seq<Stretch>, earlier: seq<Action>, later: seq<Action>,
                                         name: string, project: Project)
    requires InOrder(script) && Serves(script, name, project) && name in Run(script, earlier).disk.served
    ensures name in Run(script, earlier + later).disk.served
    ensures Kept(Run(script, earlier).disk.served[name], Run(script, earlier + later).disk.served[name])
    decreases |later|
  {
    AbsentOrWhole(script, earlier, name, project);
    var all := earlier + later;
    if later == [] {
      assert all == earlier;
    } else {
      var n := |later| - 1;
      assert all[..|all| - 1] == earlier + later[..n] && all[|all| - 1] == later[n];
      NeverReplaced(script, earlier, later[..n], name, project);
      AlwaysInv(script, earlier + later[..n]);
      StepReplacesNothing(script, Run(script, earlier + later[..n]), later[n], name);
    }
  }

  /** After one whole run every path is served, and it is ever after. */
  lemma AWholeRunServesAll(script: seq<Stretch>, actions: seq<Action>, later: seq<Action>,
                           name: string, project: Project)
    requires InOrder(script) && Serves(script, name, project) && Run(script, actions).stage == |script|
    ensures var served := Run(script, actions + later).disk.served;
            name in served && Whole(served[name], project)
  {
    AlwaysInv(script, actions);
    var i :| 0 <= i < |script| && script[i] == Serve(name, project);
    assert script[i].Serve? && script[i].name in Run(script, actions).disk.served;
    NeverReplaced(script, actions, later, name, project);
    AbsentOrWhole(script, actions + later, name, project);
  }

  function PhaseLeft(p: Phase): nat {
    match p
    case Begin => 6
    case Removed => 5
    case Cleared => 4
    case Made => 3
    case Cloned => 2
    case Informed => 1
  }

  function Left(script: seq<Stretch>, s: Seat): int {
    if s.stage >= |script| then 0 else 6 * (|script| - 1 - s.stage) + PhaseLeft(s.phase)
  }

  function Nexts(n: nat): (r: seq<Action>)
    ensures |r| == n && forall i :: 0 <= i < n ==> r[i] == Next
  {
    seq(n, _ => Next)
  }

  /** What is made next was removed. */
  predicate IsClear(script: seq<Stretch>, s: Seat) {
    s.stage < |script| && s.phase == Cleared ==>
      match script[s.stage]
      case Build(_) => s.disk.work.None?
      case Serve(name, _) => name !in s.disk.clones
  }

  lemma NextShortens(script: seq<Stretch>, s: Seat)
    requires s.stage < |script| && IsClear(script, s)
    ensures var t := Step(script, s, Next);
            IsClear(script, t) && t.stage <= |script| && (t.stage < |script| ==> Left(script, t) < Left(script, s))
  {
  }

  /** The script from a state on, not cut. */
  function Onward(script: seq<Stretch>, s: Seat, n: nat): Seat {
    if n == 0 then s else Step(script, Onward(script, s, n - 1), Next)
  }

  lemma {:induction false} OnwardEnds(script: seq<Stretch>, s: Seat, n: nat)
    requires s.stage <= |script| && IsClear(script, s)
    ensures Onward(script, s, n).stage <= |script| && IsClear(script, Onward(script, s, n))
    ensures Onward(script, s, n).stage < |script| ==> Left(script, Onward(script, s, n)) <= Left(script, s) - n
  {
    if n > 0 {
      OnwardEnds(script, s, n - 1);
      var t := Onward(script, s, n - 1);
      if t.stage < |script| { NextShortens(script, t); }
    }
  }

  lemma {:induction false} RunOnward(script: seq<Stretch>, actions: seq<Action>, n: nat)
    ensures Run(script, actions + Nexts(n)) == Onward(script, Run(script, actions), n)
    decreases n
  {
    var all := actions + Nexts(n);
    if n == 0 {
      assert all == actions;
    } else {
      assert all[..|all| - 1] == actions + Nexts(n - 1) && all[|all| - 1] == Next;
      RunOnward(script, actions, n - 1);
    }
  }

  lemma RestartRuns(script: seq<Stretch>, actions: seq<Action>)
    ensures Run(script, actions + [Restart]) == Seat(Run(script, actions).disk, 0, Begin)
  {
    var started := actions + [Restart];
    assert started[..|started| - 1] == actions && started[|started| - 1] == Restart;
  }

  lemma OnwardFromTheStart(script: seq<Stretch>, disk: Disk)
    ensures Onward(script, Seat(disk, 0, Begin), 6 * |script|).stage == |script|
  {
    var s := Seat(disk, 0, Begin);
    OnwardEnds(script, s, 6 * |script|);
    assert Left(script, s) <= 6 * |script|;
  }

  /** Whatever the cuts left, a run that is not cut comes to its end. */
  lemma AnUncutRunEnds(script: seq<Stretch>, actions: seq<Action>)
    ensures Run(script, actions + [Restart] + Nexts(6 * |script|)).stage == |script|
  {
    RestartRuns(script, actions);
    RunOnward(script, actions + [Restart], 6 * |script|);
    OnwardFromTheStart(script, Run(script, actions).disk);
  }

  /** The seed's own script: after any runs, cut anywhere, one run that is not cut serves every path,
      whole. */
  lemma TheSeedIsServed(actions: seq<Action>, later: seq<Action>, name: string)
    requires name in PROJECTS
    ensures var served := Run(SCRIPT, actions + [Restart] + Nexts(6 * |SCRIPT|) + later).disk.served;
            name in served && Whole(served[name], PROJECTS[name])
  {
    ScriptIsInOrder();
    Names();
    AnUncutRunEnds(SCRIPT, actions);
    assert Serves(SCRIPT, name, PROJECTS[name]);
    AWholeRunServesAll(SCRIPT, actions + [Restart] + Nexts(6 * |SCRIPT|), later, name, PROJECTS[name]);
  }

  /** A push to a served repository is in it, ever after. */
  lemma APushIsKept(script: seq<Stretch>, actions: seq<Action>, name: string, project: Project, commit: string,
                    later: seq<Action>)
    requires InOrder(script) && Serves(script, name, project) && name in Run(script, actions).disk.served
    ensures var served := Run(script, actions + [Push(name, commit)] + later).disk.served;
            && name in served && served[name].Repo?
            && Run(script, actions).disk.served[name].Repo?
            && Run(script, actions).disk.served[name].pushes + [commit] <= served[name].pushes
  {
    AbsentOrWhole(script, actions, name, project);
    var pushed := actions + [Push(name, commit)];
    assert pushed[..|pushed| - 1] == actions && pushed[|pushed| - 1] == Push(name, commit);
    NeverReplaced(script, pushed, later, name, project);
  }
}
