/**
 * Stale takeover of the scorecard's lock (features/lib/model-scorecard.ts, withLock): what it keeps when
 * a create and its write, and a comparison and its unlink, each act as one step.
 */
module Takeover {
  import opened Scorecard

  /** Between a create and its write, and between a comparison and its unlink. */
  predicate MidPair(pc: Pc) { pc.Created? || pc.Condemned? || pc.Releasing? }

  /** Each pair acts as one step: no call steps while another live one is in the middle of a pair. */
  ghost predicate Paired(s: Sys, a: Action) {
    a.Act? || a.Fail? ==> forall j :: 0 <= j < |s.procs| && j != a.i && Live(s, j) ==> !MidPair(s.procs[j].pc)
  }

  ghost predicate PairedRun(cfg: Config, s: Sys, acts: seq<Action>) {
    acts == [] || (PairedRun(cfg, s, acts[..|acts| - 1]) && Paired(Run(cfg, s, acts[..|acts| - 1]), acts[|acts| - 1]))
  }

  /** The stamp of a call's lock, the time the call was made, is not older than the bound. */
  predicate Fresh(cfg: Config, s: Sys, i: nat) {
    i < |s.procs| && s.now - s.procs[i].at <= cfg.staleMs
  }

  /** The lock's maker is dead, or its stamp is older than the bound. */
  predicate Expired(cfg: Config, s: Sys, f: LockFile) {
    !Live(s, f.creator) || !Fresh(cfg, s, f.creator)
  }

  predicate LockInv(s: Sys) {
    s.lock.Some? ==>
      var f := s.lock.value;
      && f.creator < |s.procs| && s.procs[f.creator].pc != Idle
      && (f.text == Blank ==> s.procs[f.creator].pc.Created?)
      && (f.text != Blank ==> f.text == Mine(s.procs[f.creator]))
  }

  predicate CallInv(cfg: Config, s: Sys, i: nat)
    requires i < |s.procs|
  {
    var p := s.procs[i];
    && p.pid > 0
    && (Holding(p.pc) && Live(s, i) && Fresh(cfg, s, i) ==>
          s.lock.Some? && s.lock.value.creator == i && (!p.pc.Created? ==> s.lock.value.text == Mine(p)))
    && (p.pc.Seen? && p.pc.held.Owned? ==> p.pc.held.pid > 0)
    && (p.pc.Statted? && p.pc.held.Owned? ==> p.pc.held.pid > 0)
    && (p.pc.Doubted? && p.pc.held.Owned? ==>
          p.pc.held.pid !in s.alive || s.now - p.pc.held.at > cfg.staleMs)
    && (p.pc.Condemned? && Live(s, i) ==>
          s.lock.Some? && s.lock.value.text == p.pc.held && Expired(cfg, s, s.lock.value))
    && (p.pc.Releasing? && Live(s, i) ==> s.lock.Some? && s.lock.value.creator == i)
  }

  ghost predicate Guarded(cfg: Config, s: Sys) {
    && UniqueNonces(s) && LockInv(s)
    && forall i :: 0 <= i < |s.procs| ==> CallInv(cfg, s, i)
  }

  /** A step of call `i` that leaves the lock as it is, or that changes what no other live holder with
      a fresh stamp made, leaves every other call as it was. */
  lemma OthersKeep(cfg: Config, s: Sys, t: Sys, i: nat)
    requires Guarded(cfg, s) && i < |s.procs| && Paired(s, Act(i))
    requires |t.procs| == |s.procs| && t.now == s.now && t.alive == s.alive
    requires forall j :: 0 <= j < |s.procs| && j != i ==> t.procs[j] == s.procs[j]
    requires t.lock == s.lock || s.lock.None? || s.lock.value.creator == i || Expired(cfg, s, s.lock.value)
    ensures forall j :: 0 <= j < |t.procs| && j != i ==> CallInv(cfg, t, j)
  {
    forall j | 0 <= j < |t.procs| && j != i
      ensures CallInv(cfg, t, j)
    {
      assert CallInv(cfg, s, j);
      if Live(s, j) { assert !MidPair(s.procs[j].pc); }
    }
  }

  /** The second read found the condemned text: then the lock that is there is expired. */
  lemma ComparisonCondemns(cfg: Config, s: Sys, i: nat)
    requires Guarded(cfg, s) && Live(s, i) && Paired(s, Act(i))
    requires s.procs[i].pc.Doubted? && s.lock.Some? && s.lock.value.text == s.procs[i].pc.held
    ensures Expired(cfg, s, s.lock.value)
  {
    var f := s.lock.value;
    assert CallInv(cfg, s, i) && CallInv(cfg, s, f.creator);
    if f.text == Blank && Live(s, f.creator) {
      assert MidPair(s.procs[f.creator].pc);
    }
  }

  lemma AcquireKeepsLock(cfg: Config, s: Sys, i: nat)
    requires LockInv(s) && i < |s.procs| && !(s.procs[i].pc.Idle? && s.lock.Some? && s.lock.value.creator == i)
    ensures LockInv(Acquire(cfg, s, i))
  {
  }

  lemma AcquireKeepsItself(cfg: Config, s: Sys, i: nat)
    requires Guarded(cfg, s) && Live(s, i) && Paired(s, Act(i))
    ensures CallInv(cfg, Acquire(cfg, s, i), i)
  {
    assert CallInv(cfg, s, i);
    if s.lock.Some? { assert CallInv(cfg, s, s.lock.value.creator); }
    if s.procs[i].pc.Doubted? && s.lock.Some? && s.lock.value.text == s.procs[i].pc.held {
      ComparisonCondemns(cfg, s, i);
    }
  }

  lemma GuardedAcquire(cfg: Config, s: Sys, i: nat)
    requires Guarded(cfg, s) && Live(s, i) && Paired(s, Act(i))
    ensures Guarded(cfg, Acquire(cfg, s, i))
  {
    assert CallInv(cfg, s, i);
    AcquireKeepsLock(cfg, s, i);
    AcquireKeepsItself(cfg, s, i);
    OthersKeep(cfg, s, Acquire(cfg, s, i), i);
  }

  /** A lock that holds a call's text was made by that call: nonces are unique. */
  lemma TextNamesItsMaker(cfg: Config, s: Sys, i: nat)
    requires Guarded(cfg, s) && i < |s.procs| && s.lock.Some? && s.lock.value.text == Mine(s.procs[i])
    ensures s.lock.value.creator == i
  {
  }

  lemma GuardedWork(cfg: Config, s: Sys, i: nat)
    requires Guarded(cfg, s) && Live(s, i) && Paired(s, Act(i))
    ensures Guarded(cfg, Work(s, i))
  {
    var t := Work(s, i);
    assert CallInv(cfg, s, i);
    OthersKeep(cfg, s, t, i);
    if s.lock.Some? && s.lock.value.text == Mine(s.procs[i]) {
      TextNamesItsMaker(cfg, s, i);
    }
    assert CallInv(cfg, t, i);
    assert LockInv(t);
  }

  lemma GuardedStep(cfg: Config, s: Sys, a: Action)
    requires Guarded(cfg, s) && Paired(s, a)
    ensures Guarded(cfg, Next(cfg, s, a))
  {
    if a.Act? && Live(s, a.i) {
      GuardedAcquire(cfg, s, a.i);
      GuardedWork(cfg, s, a.i);
    } else {
      var t := Next(cfg, s, a);
      forall j | 0 <= j < |t.procs|
        ensures CallInv(cfg, t, j)
      {
        assert CallInv(cfg, s, j);
      }
    }
  }

  lemma {:induction false} PairedRunsGuard(cfg: Config, s: Sys, acts: seq<Action>)
    requires Initial(s) && PairedRun(cfg, s, acts)
    ensures Guarded(cfg, Run(cfg, s, acts))
  {
    if acts != [] {
      PairedRunsGuard(cfg, s, acts[..|acts| - 1]);
      GuardedStep(cfg, Run(cfg, s, acts[..|acts| - 1]), acts[|acts| - 1]);
    }
  }

  lemma FreshHoldersAreOne(cfg: Config, s: Sys, i: nat, j: nat)
    requires Guarded(cfg, s)
    requires Live(s, i) && Holding(s.procs[i].pc) && Fresh(cfg, s, i)
    requires Live(s, j) && Holding(s.procs[j].pc) && Fresh(cfg, s, j)
    ensures i == j && s.lock.Some? && s.lock.value.creator == i
  {
    assert CallInv(cfg, s, i) && CallInv(cfg, s, j);
  }

  /**
   * Takeover is safe where each pair acts as one step: at every moment at most one live process that
   * is inside the lock, or holds it, has a stamp that is not stale, and the lock file is its own.
   */
  lemma OneFreshHolder(cfg: Config, s: Sys, acts: seq<Action>, i: nat, j: nat)
    requires Initial(s) && PairedRun(cfg, s, acts)
    requires var t := Run(cfg, s, acts);
             && Live(t, i) && Holding(t.procs[i].pc) && Fresh(cfg, t, i)
             && Live(t, j) && Holding(t.procs[j].pc) && Fresh(cfg, t, j)
    ensures i == j && Run(cfg, s, acts).lock.Some? && Run(cfg, s, acts).lock.value.creator == i
  {
    PairedRunsGuard(cfg, s, acts);
    FreshHoldersAreOne(cfg, Run(cfg, s, acts), i, j);
  }

  /** The lock that a step of the call `i` removes is the one it may remove: the very text that it judged
      stale is still there, and its owner is dead or its stamp is old; or the call releases, and the lock
      is the one it made. */
  predicate MayRemove(cfg: Config, s: Sys, i: nat) {
    && i < |s.procs| && s.lock.Some?
    && (|| (s.procs[i].pc == Condemned(s.lock.value.text) && Expired(cfg, s, s.lock.value))
        || (s.procs[i].pc.Releasing? && s.lock.value.creator == i && s.lock.value.text == Mine(s.procs[i])))
  }

  /** Neither a takeover nor a release ever removes a lock that another process took in the meantime. */
  lemma RemovalIsSafe(cfg: Config, s: Sys, acts: seq<Action>, a: Action)
    requires Initial(s) && PairedRun(cfg, s, acts + [a])
    requires Run(cfg, s, acts).lock.Some? && Run(cfg, s, acts + [a]).lock.None?
    ensures a.Act? && MayRemove(cfg, Run(cfg, s, acts), a.i)
  {
    assert (acts + [a])[..|acts|] == acts;
    PairedRunsGuard(cfg, s, acts);
    assert CallInv(cfg, Run(cfg, s, acts), a.i);
  }

  /** Every live process that is inside the lock came there, and leaves, within the bound of its call. */
  ghost predicate Prompt(cfg: Config, s: Sys, acts: seq<Action>) {
    && (forall i :: InsideLive(Run(cfg, s, acts), i) ==> Fresh(cfg, Run(cfg, s, acts), i))
    && (acts == [] || Prompt(cfg, s, acts[..|acts| - 1]))
  }

  lemma {:induction false} PromptRunsAreAlone(cfg: Config, s: Sys, acts: seq<Action>)
    requires Initial(s) && PairedRun(cfg, s, acts) && Prompt(cfg, s, acts)
    ensures AloneThroughout(cfg, s, acts)
  {
    if acts != [] {
      PromptRunsAreAlone(cfg, s, acts[..|acts| - 1]);
    }
    PairedRunsGuard(cfg, s, acts);
    var t := Run(cfg, s, acts);
    forall i, j | InsideLive(t, i) && InsideLive(t, j)
      ensures i == j
    {
      OneFreshHolder(cfg, s, acts, i, j);
    }
  }

  /** With takeover: processes die at any point and their locks are taken, and still no update is lost,
      where each pair acts as one step and each live call is done within the bound. */
  lemma NoLostUpdateAcrossTakeover(cfg: Config, s: Sys, acts: seq<Action>)
    requires Initial(s) && PairedRun(cfg, s, acts) && Prompt(cfg, s, acts)
    ensures View(Run(cfg, s, acts).card) == Applied(Run(cfg, s, acts).procs, View(s.card), Run(cfg, s, acts).log)
    ensures LogInv(Run(cfg, s, acts))
    ensures !s.card.Unreadable? ==> !Run(cfg, s, acts).card.Unreadable?
  {
    PromptRunsAreAlone(cfg, s, acts);
    NoLostUpdate(cfg, s, acts);
  }
}
