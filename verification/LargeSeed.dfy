/**
 * `large.git`, which parallel workers can each start to build (features/steps/seed.ts,
 * ensureLargeSeed). A worker can be cut at any moment, and the shell stops at a command that fails. But
 * of `awk | git fast-import` it sees the last one only: when the generator dies alone between two
 * records, the import ends well with what it got, and the shell goes on.
 */
module LargeSeed {
  import opened Wrappers

  /** A repository: by which worker, and which of its commands came to their end. It is imported when the
      generator came to its end. */
  datatype Tree = Tree(builder: nat, imported: bool, packed: bool, informed: bool)

  predicate Complete(t: Tree) { t.imported && t.packed && t.informed }

  /** What a worker does next. `Done` is its end, and `Cut` one that was cut. */
  datatype At = Testing | Making | Importing | Packing | Informing | Moving | Removing | Done | Cut

  /** The served path, each worker's temporary path (`$$` is its own), where each worker is, how often a
      rename put a repository on the served path, and whose generator died alone. */
  datatype World = World(large: Option<Tree>, temps: map<nat, Tree>, workers: seq<At>, installs: nat,
                         starved: set<nat>)

  /** A worker takes its next step, is killed, or loses its generator while it imports. */
  datatype Action = Go(worker: nat) | Kill(worker: nat) | Starve(worker: nat)

  function Start(n: nat): World { World(None, map[], seq(n, _ => Testing), 0, {}) }

  function Step(w: World, a: Action): World {
    if a.worker >= |w.workers| || w.workers[a.worker] in {Done, Cut} then w
    else match a
         case Kill(i) => w.(workers := w.workers[i := Cut])
         case Starve(i) =>
           if w.workers[i].Importing? then w.(workers := w.workers[i := Packing], starved := w.starved + {i}) else w
         case Go(i) => Proceed(w, i)
  }

  function Proceed(w: World, i: nat): World
    requires i < |w.workers|
  {
    var to := (at: At) => w.workers[i := at];
    var temp := if i in w.temps then Some(w.temps[i]) else None;
    match w.workers[i]
    case Testing => w.(workers := to(if w.large.Some? then Done else Making))
    case Making => w.(temps := w.temps[i := Tree(i, false, false, false)], workers := to(Importing))
    case Importing =>
      if temp.None? then w.(workers := to(Cut))
      else w.(temps := w.temps[i := temp.value.(imported := true)], workers := to(Packing))
    case Packing =>
      if temp.None? then w.(workers := to(Cut))
      else w.(temps := w.temps[i := temp.value.(packed := true)], workers := to(Informing))
    case Informing =>
      if temp.None? then w.(workers := to(Cut))
      else w.(temps := w.temps[i := temp.value.(informed := true)], workers := to(Moving))
    case Moving =>
      // `mv -T` does not replace a folder that holds anything.
      if temp.None? || w.large.Some? then w.(workers := to(Removing))
      else World(temp, w.temps - {i}, to(Done), w.installs + 1, w.starved)
    case Removing => w.(temps := w.temps - {i}, workers := to(Done))
    case _ => w
  }

  function Run(n: nat, actions: seq<Action>): World {
    if actions == [] then Start(n) else Step(Run(n, actions[..|actions| - 1]), actions[|actions| - 1])
  }

  /** How far a worker's temporary repository is. */
  ghost predicate OwnTemp(w: World, i: nat)
    requires i < |w.workers|
  {
    var fed := i !in w.starved;
    match w.workers[i]
    case Importing => fed && i in w.temps && w.temps[i] == Tree(i, false, false, false)
    case Packing => i in w.temps && w.temps[i] == Tree(i, fed, false, false)
    case Informing => i in w.temps && w.temps[i] == Tree(i, fed, true, false)
    case Moving => i in w.temps && w.temps[i] == Tree(i, fed, true, true)
    case Removing => w.large.Some?
    case Done => w.large.Some? && i !in w.temps
    case Testing => fed && i !in w.temps
    case Making => fed && i !in w.temps
    case Cut => true
  }

  /** The served repository: its builder came to its end, and it lacks no command but a generator that
      died. */
  ghost predicate Served(w: World, t: Tree) {
    && t.builder < |w.workers| && w.workers[t.builder] == Done
    && t == Tree(t.builder, t.builder !in w.starved, true, true)
  }

  ghost predicate Inv(w: World) {
    && (w.large.Some? ==> Served(w, w.large.value))
    && w.installs == (if w.large.Some? then 1 else 0)
    && forall i: nat :: i < |w.workers| ==> OwnTemp(w, i)
  }

  lemma OthersKeep(w: World, a: Action, i: nat)
    requires Inv(w) && i < |w.workers| && i != a.worker
    ensures |Step(w, a).workers| == |w.workers| && OwnTemp(Step(w, a), i)
  {
    assert OwnTemp(w, i);
    if a.worker < |w.workers| { assert OwnTemp(w, a.worker); }
  }

  lemma StepKeeps(w: World, a: Action)
    requires Inv(w)
    ensures Inv(Step(w, a))
    ensures w.large.Some? ==> Step(w, a).large == w.large
  {
    if a.worker < |w.workers| { assert OwnTemp(w, a.worker); }
    forall i: nat | i < |w.workers|
      ensures |Step(w, a).workers| == |w.workers| && OwnTemp(Step(w, a), i)
    {
      if i != a.worker { OthersKeep(w, a, i); }
    }
  }

  lemma {:induction false} AlwaysInv(n: nat, actions: seq<Action>)
    ensures Inv(Run(n, actions)) && |Run(n, actions).workers| == n
    decreases |actions|
  {
    if actions != [] {
      AlwaysInv(n, actions[..|actions| - 1]);
      StepKeeps(Run(n, actions[..|actions| - 1]), actions[|actions| - 1]);
    }
  }

  lemma {:induction false} StarvedOnlyBy(n: nat, actions: seq<Action>)
    ensures forall i :: i in Run(n, actions).starved ==> Starve(i) in actions
    decreases |actions|
  {
    if actions != [] {
      StarvedOnlyBy(n, actions[..|actions| - 1]);
      assert actions == actions[..|actions| - 1] + [actions[|actions| - 1]];
    }
  }

  /**
   * In every interleaving of any number of workers, cut anywhere: `large.git` is absent, or it is complete
   * exactly when the generator of the worker that built it did not die alone; it was installed at most
   * once; and a worker that came to its end leaves it served and no copy.
   */
  lemma AbsentOrComplete(n: nat, actions: seq<Action>)
    ensures var w := Run(n, actions);
            && (w.large.None? || (Complete(w.large.value) <==> w.large.value.builder !in w.starved))
            && (w.large.None? || Complete(w.large.value) || Starve(w.large.value.builder) in actions)
            && w.installs <= 1 && |w.workers| == n
            && forall i: nat :: i < n && w.workers[i] == Done ==> w.large.Some? && i !in w.temps
  {
    AlwaysInv(n, actions);
    StarvedOnlyBy(n, actions);
    var w := Run(n, actions);
    forall i: nat | i < n && w.workers[i] == Done
      ensures w.large.Some? && i !in w.temps
    {
      assert OwnTemp(w, i);
    }
  }

  lemma RunMore(n: nat, actions: seq<Action>, a: Action)
    ensures Run(n, actions + [a]) == Step(Run(n, actions), a)
  {
    assert (actions + [a])[..|actions|] == actions;
  }

  lemma StarvedStep(w: World, i: nat)
    requires Inv(w) && i < |w.workers| && w.large.None?
    ensures w.workers[i] == Importing ==>
              var t := Step(w, Starve(i)); |t.workers| == |w.workers| && t.workers[i] == Packing && i in t.starved
    ensures w.workers[i] in {Packing, Informing} ==>
              var t := Step(w, Go(i));
              && |t.workers| == |w.workers| && t.starved == w.starved
              && t.workers[i] == if w.workers[i] == Packing then Informing else Moving
    ensures w.workers[i] == Moving ==>
              Step(w, Go(i)).large == Some(Tree(i, i !in w.starved, true, true))
    ensures w.workers[i] in {Importing, Packing, Informing} ==>
              Step(w, Starve(i)).large.None? && Step(w, Go(i)).large.None?
  {
    assert OwnTemp(w, i);
  }

  /** In every run in which nothing is installed yet, a generator that dies alone leaves a part of the
      repository, and its worker goes on to install it. */
  lemma ADyingGeneratorIsInstalled(n: nat, actions: seq<Action>, i: nat)
    requires i < |Run(n, actions).workers| && Run(n, actions).workers[i] == Importing && Run(n, actions).large.None?
    ensures var w := Run(n, actions + [Starve(i)] + [Go(i)] + [Go(i)] + [Go(i)]);
            w.large.Some? && !Complete(w.large.value)
  {
    var a := actions + [Starve(i)];
    AlwaysInv(n, actions);
    RunMore(n, actions, Starve(i));
    StarvedStep(Run(n, actions), i);
    AlwaysInv(n, a);
    RunMore(n, a, Go(i));
    StarvedStep(Run(n, a), i);
    AlwaysInv(n, a + [Go(i)]);
    RunMore(n, a + [Go(i)], Go(i));
    StarvedStep(Run(n, a + [Go(i)]), i);
    AlwaysInv(n, a + [Go(i)] + [Go(i)]);
    RunMore(n, a + [Go(i)] + [Go(i)], Go(i));
    StarvedStep(Run(n, a + [Go(i)] + [Go(i)]), i);
  }

  /** Once served, it is never replaced. */
  lemma {:induction false} NeverReplaced(n: nat, earlier: seq<Action>, later: seq<Action>)
    requires Run(n, earlier).large.Some?
    ensures Run(n, earlier + later).large == Run(n, earlier).large
    decreases |later|
  {
    var all := earlier + later;
    if later == [] {
      assert all == earlier;
    } else {
      var k := |later| - 1;
      assert all[..|all| - 1] == earlier + later[..k] && all[|all| - 1] == later[k];
      NeverReplaced(n, earlier, later[..k]);
      AlwaysInv(n, earlier + later[..k]);
      StepKeeps(Run(n, earlier + later[..k]), later[k]);
    }
  }

  // ---- every worker comes to an end ----------------------------------------------------------------

  function StepsLeft(at: At): nat {
    match at
    case Testing => 7
    case Making => 6
    case Importing => 5
    case Packing => 4
    case Informing => 3
    case Moving => 2
    case Removing => 1
    case _ => 0
  }

  /** How many steps the schedule gives a worker. */
  function Turns(actions: seq<Action>, i: nat): nat {
    if actions == [] then 0
    else Turns(actions[..|actions| - 1], i) + (if actions[|actions| - 1] == Go(i) then 1 else 0)
  }

  lemma StepShortens(w: World, a: Action, i: nat)
    requires Inv(w) && i < |w.workers| && w.workers[i] != Cut && a != Kill(i)
    ensures var t := Step(w, a);
            && |t.workers| == |w.workers| && t.workers[i] != Cut
            && StepsLeft(t.workers[i]) <= StepsLeft(w.workers[i])
            && (a == Go(i) && w.workers[i] != Done ==> StepsLeft(t.workers[i]) < StepsLeft(w.workers[i]))
            && (w.workers[i] == Done ==> t.workers[i] == Done)
  {
    assert OwnTemp(w, i);
  }

  /** A worker that is not killed and has had seven steps of its own, in any interleaving with the others'
      steps and deaths, is at its end, and the repository is served. */
  lemma {:induction false} AWorkerEnds(n: nat, actions: seq<Action>, i: nat)
    requires i < n && Kill(i) !in actions
    ensures var w := Run(n, actions);
            && |w.workers| == n && w.workers[i] != Cut
            && (w.workers[i] == Done || StepsLeft(w.workers[i]) + Turns(actions, i) <= 7)
            && (Turns(actions, i) >= 7 ==> w.workers[i] == Done && w.large.Some?)
    decreases |actions|
  {
    AlwaysInv(n, actions);
    if actions != [] {
      var k := |actions| - 1;
      assert actions == actions[..k] + [actions[k]];
      AWorkerEnds(n, actions[..k], i);
      AlwaysInv(n, actions[..k]);
      StepShortens(Run(n, actions[..k]), actions[k], i);
    }
    assert OwnTemp(Run(n, actions), i);
  }

  /** A worker that starts when the repository is served builds nothing. */
  lemma AServedRepositoryIsNotBuilt(n: nat, actions: seq<Action>, i: nat)
    requires i < |Run(n, actions).workers| && Run(n, actions).workers[i] == Testing && Run(n, actions).large.Some?
    ensures var w, t := Run(n, actions), Run(n, actions + [Go(i)]);
            t == w.(workers := w.workers[i := Done])
  {
    RunMore(n, actions, Go(i));
  }

  lemma CutStands(w: World, a: Action, i: nat)
    requires i < |w.workers|
    ensures |Step(w, a).workers| == |w.workers|
    ensures w.workers[i] == Cut ==> Step(w, a).workers[i] == Cut
    ensures w.workers[i] != Done && a == Kill(i) ==> Step(w, a).workers[i] == Cut
  {
  }

  /** A worker that is killed before its end does nothing more. */
  lemma {:induction false} AKilledWorkerStops(n: nat, earlier: seq<Action>, later: seq<Action>, i: nat)
    requires i < |Run(n, earlier).workers| && Run(n, earlier).workers[i] != Done
    ensures var w := Run(n, earlier + [Kill(i)] + later); i < |w.workers| && w.workers[i] == Cut
    decreases |later|
  {
    var killed := earlier + [Kill(i)];
    if later == [] {
      assert killed + later == killed;
      RunMore(n, earlier, Kill(i));
      CutStands(Run(n, earlier), Kill(i), i);
    } else {
      var k := |later| - 1;
      var before := killed + later[..k];
      AKilledWorkerStops(n, earlier, later[..k], i);
      assert killed + later == before + [later[k]];
      RunMore(n, before, later[k]);
      CutStands(Run(n, before), later[k], i);
    }
  }
}
