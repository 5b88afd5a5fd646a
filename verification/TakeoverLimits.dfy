/**
 * Where takeover of the scorecard's lock does not exclude (features/lib/model-scorecard.ts, withLock):
 * once a holder's stamp is stale, and without the pairs.
 */
module TakeoverLimits {
  import opened Wrappers
  import opened Scorecard
  import opened Takeover

  lemma {:induction false} RunConcat(cfg: Config, s: Sys, a: seq<Action>, b: seq<Action>)
    ensures Run(cfg, s, a + b) == Run(cfg, Run(cfg, s, a), b)
    ensures PairedRun(cfg, s, a) && PairedRun(cfg, Run(cfg, s, a), b) ==> PairedRun(cfg, s, a + b)
  {
    if b == [] {
      assert a + b == a;
    } else {
      assert (a + b)[..|a + b| - 1] == a + b[..|b| - 1];
      RunConcat(cfg, s, a, b[..|b| - 1]);
    }
  }

  /** A run in which no time passes. */
  predicate Instant(acts: seq<Action>) {
    forall k :: 0 <= k < |acts| ==> !acts[k].Pass?
  }

  /** `acts` leads from `s` to `t` at once, and in whole pairs if no other call is in the middle of one. */
  ghost predicate Leads(cfg: Config, s: Sys, acts: seq<Action>, j: nat, t: Sys) {
    && Run(cfg, s, acts) == t && Instant(acts)
    && (OthersBetweenPairs(s, j) ==> PairedRun(cfg, s, acts))
  }

  /** No call but `j` is live and in the middle of a pair. */
  ghost predicate OthersBetweenPairs(s: Sys, j: nat) {
    forall k :: 0 <= k < |s.procs| && k != j && Live(s, k) ==> !MidPair(s.procs[k].pc)
  }

  /** The two systems differ in call `j` and the files only. */
  ghost predicate SameOthers(s: Sys, t: Sys, j: nat) {
    && |t.procs| == |s.procs| && t.alive == s.alive
    && forall k :: 0 <= k < |s.procs| && k != j ==> t.procs[k] == s.procs[k]
  }

  lemma LeadsOn(cfg: Config, s: Sys, a: seq<Action>, t: Sys, b: seq<Action>, u: Sys, j: nat)
    returns (acts: seq<Action>)
    requires Leads(cfg, s, a, j, t) && Leads(cfg, t, b, j, u) && SameOthers(s, t, j)
    ensures Leads(cfg, s, acts, j, u)
  {
    acts := a + b;
    RunConcat(cfg, s, a, b);
    if OthersBetweenPairs(s, j) {
      assert OthersBetweenPairs(t, j);
    }
  }

  lemma LeadsOneMore(cfg: Config, s: Sys, a: seq<Action>, t: Sys, u: Sys, j: nat) returns (acts: seq<Action>)
    requires Leads(cfg, s, a, j, t) && SameOthers(s, t, j) && u == Next(cfg, t, Act(j))
    ensures Leads(cfg, s, acts, j, u)
  {
    acts := a + [Act(j)];
    assert acts[..|acts| - 1] == a;
    if OthersBetweenPairs(s, j) {
      assert OthersBetweenPairs(t, j);
      assert Paired(t, Act(j));
    }
  }

  lemma ThreeCalls(cfg: Config, s: Sys, t: Sys, u: Sys, v: Sys, j: nat) returns (acts: seq<Action>)
    requires t == Next(cfg, s, Act(j)) && u == Next(cfg, t, Act(j)) && v == Next(cfg, u, Act(j))
    requires SameOthers(s, t, j) && SameOthers(s, u, j)
    ensures Leads(cfg, s, acts, j, v)
  {
    assert Leads(cfg, s, [], j, s);
    acts := LeadsOneMore(cfg, s, [], s, t, j);
    acts := LeadsOneMore(cfg, s, acts, t, u, j);
    acts := LeadsOneMore(cfg, s, acts, u, v, j);
  }

  lemma ThreeCallsSee(cfg: Config, s: Sys, j: nat) returns (acts: seq<Action>)
    requires Live(s, j) && s.procs[j].pc == Idle && s.lock.Some?
    ensures Leads(cfg, s, acts, j, Put(s, j, s.procs[j].(pc := Seen(s.lock.value.text), at := s.now)))
  {
    var p := s.procs[j].(at := s.now);
    acts := ThreeCalls(cfg, s, Put(s, j, p.(pc := Trying)), Put(s, j, p.(pc := Contended)),
                       Put(s, j, p.(pc := Seen(s.lock.value.text))), j);
  }

  lemma ThreeCallsJudge(cfg: Config, s: Sys, j: nat) returns (acts: seq<Action>)
    requires Live(s, j) && s.lock.Some? && s.procs[j].pc == Seen(s.lock.value.text)
    requires StaleOwner(s.lock.value.text, s.lock.value.mtime, s.now, cfg.staleMs, s.alive)
    ensures Leads(cfg, s, acts, j, Put(s, j, s.procs[j].(pc := Condemned(s.lock.value.text))))
  {
    var p := s.procs[j];
    var f := s.lock.value;
    acts := ThreeCalls(cfg, s, Put(s, j, p.(pc := Statted(f.text, f.mtime))), Put(s, j, p.(pc := Doubted(f.text))),
                       Put(s, j, p.(pc := Condemned(f.text))), j);
  }

  /** A call that condemned the lock: it removes it, makes its own, and is inside. */
  lemma ThreeCallsEnter(cfg: Config, s: Sys, j: nat) returns (acts: seq<Action>)
    requires Live(s, j) && s.procs[j].pc.Condemned?
    ensures Leads(cfg, s, acts, j,
                  Put(s, j, s.procs[j].(pc := Reading)).(lock := Some(LockFile(Mine(s.procs[j]), s.now, j))))
  {
    var p := s.procs[j];
    acts := ThreeCalls(cfg, s, Put(s, j, p.(pc := Trying)).(lock := None),
                       Put(s, j, p.(pc := Created)).(lock := Some(LockFile(Blank, s.now, j))),
                       Put(s, j, p.(pc := Reading)).(lock := Some(LockFile(Mine(p), s.now, j))), j);
  }

  /** A call that was not made yet, over a lock that it finds stale: it condemns the lock. */
  lemma NewCallerCondemns(cfg: Config, s: Sys, j: nat) returns (acts: seq<Action>)
    requires Live(s, j) && s.procs[j].pc == Idle && s.lock.Some?
    requires StaleOwner(s.lock.value.text, s.lock.value.mtime, s.now, cfg.staleMs, s.alive)
    ensures Leads(cfg, s, acts, j, Put(s, j, s.procs[j].(pc := Condemned(s.lock.value.text), at := s.now)))
  {
    var seen := Put(s, j, s.procs[j].(pc := Seen(s.lock.value.text), at := s.now));
    var end := Put(s, j, s.procs[j].(pc := Condemned(s.lock.value.text), at := s.now));
    var a := ThreeCallsSee(cfg, s, j);
    var b := ThreeCallsJudge(cfg, seen, j);
    assert Put(seen, j, seen.procs[j].(pc := Condemned(s.lock.value.text))) == end;
    acts := LeadsOn(cfg, s, a, seen, b, end, j);
  }

  /** And then it is inside. */
  lemma NewCallerEnters(cfg: Config, s: Sys, j: nat) returns (acts: seq<Action>)
    requires Live(s, j) && s.procs[j].pc == Idle && s.lock.Some?
    requires StaleOwner(s.lock.value.text, s.lock.value.mtime, s.now, cfg.staleMs, s.alive)
    ensures var p := s.procs[j].(pc := Reading, at := s.now);
            Leads(cfg, s, acts, j, Put(s, j, p).(lock := Some(LockFile(Mine(p), s.now, j))))
  {
    var p := s.procs[j].(pc := Reading, at := s.now);
    var end := Put(s, j, p).(lock := Some(LockFile(Mine(p), s.now, j)));
    var mid := Put(s, j, s.procs[j].(pc := Condemned(s.lock.value.text), at := s.now));
    var a := NewCallerCondemns(cfg, s, j);
    var b := ThreeCallsEnter(cfg, mid, j);
    assert Put(mid, j, p) == Put(s, j, p);
    acts := LeadsOn(cfg, s, a, mid, b, end, j);
  }

  /** While no time passes, a call that was fresh, or not made yet, is fresh, and the clock stands. */
  lemma {:induction false} InstantRuns(cfg: Config, s: Sys, acts: seq<Action>, i: nat)
    requires Guarded(cfg, s) && PairedRun(cfg, s, acts) && Instant(acts)
    requires i < |s.procs| && (Fresh(cfg, s, i) || s.procs[i].pc == Idle)
    ensures var t := Run(cfg, s, acts);
            Guarded(cfg, t) && t.now == s.now && |t.procs| == |s.procs|
            && (Fresh(cfg, t, i) || t.procs[i].pc == Idle)
  {
    if acts != [] {
      var before := acts[..|acts| - 1];
      var last := acts[|acts| - 1];
      assert Instant(before) && !last.Pass?;
      InstantRuns(cfg, s, before, i);
      GuardedStep(cfg, Run(cfg, s, before), last);
      InstantStep(cfg, Run(cfg, s, before), last, i);
    }
  }

  lemma InstantStep(cfg: Config, s: Sys, a: Action, i: nat)
    requires i < |s.procs| && (Fresh(cfg, s, i) || s.procs[i].pc == Idle) && !a.Pass?
    ensures var t := Next(cfg, s, a);
            t.now == s.now && |t.procs| == |s.procs| && (Fresh(cfg, t, i) || t.procs[i].pc == Idle)
  {
  }

  /** `acts` brings call `j` inside beside call `i`. */
  ghost predicate BringsInside(cfg: Config, s: Sys, i: nat, j: nat, acts: seq<Action>) {
    && PairedRun(cfg, s, acts) && Instant(acts)
    && InsideLive(Run(cfg, s, acts), i) && InsideLive(Run(cfg, s, acts), j)
  }

  lemma AFreshStampExcludes(cfg: Config, s: Sys, i: nat, j: nat, acts: seq<Action>)
    requires Guarded(cfg, s) && InsideLive(s, i) && Fresh(cfg, s, i) && Live(s, j) && s.procs[j].pc == Idle
    ensures !BringsInside(cfg, s, i, j, acts)
  {
    if BringsInside(cfg, s, i, j, acts) {
      InstantRuns(cfg, s, acts, i);
      InstantRuns(cfg, s, acts, j);
      FreshHoldersAreOne(cfg, Run(cfg, s, acts), i, j);
    }
  }

  lemma AStaleStampAdmits(cfg: Config, s: Sys, i: nat, j: nat) returns (acts: seq<Action>)
    requires InsideLive(s, i) && !Fresh(cfg, s, i) && s.procs[i].pid > 0
    requires s.lock.Some? && s.lock.value.text == Mine(s.procs[i])
    requires Live(s, j) && s.procs[j].pc == Idle && OthersBetweenPairs(s, j)
    ensures BringsInside(cfg, s, i, j, acts)
  {
    acts := NewCallerEnters(cfg, s, j);
  }

  /**
   * Exactly how long the lock excludes. The stamp is the time of the call, and a call can wait longer
   * for the lock than the bound lets it hold it. In every state the protocol reaches, between two
   * pairs, a process inside with its own lock can be joined at once by a new caller exactly when its
   * stamp is older than the bound, however short a time it has been inside.
   */
  lemma ExcludesExactlyWhileTheStampIsFresh(cfg: Config, s: Sys, i: nat, j: nat)
    requires Guarded(cfg, s) && InsideLive(s, i) && s.lock.Some? && s.lock.value.text == Mine(s.procs[i])
    requires Live(s, j) && s.procs[j].pc == Idle && OthersBetweenPairs(s, j)
    ensures (exists acts :: BringsInside(cfg, s, i, j, acts)) <==> !Fresh(cfg, s, i)
  {
    if Fresh(cfg, s, i) {
      forall acts
        ensures !BringsInside(cfg, s, i, j, acts)
      {
        AFreshStampExcludes(cfg, s, i, j, acts);
      }
    } else {
      assert CallInv(cfg, s, i);
      var acts := AStaleStampAdmits(cfg, s, i, j);
    }
  }

  lemma MergeOfAnotherCell(card: Card, u: Update, v: Update)
    requires !SameCell(u, v)
    ensures Holds(Merge(card, v), u) <==> Holds(card, u)
  {
  }

  lemma OneCallReads(cfg: Config, s: Sys, i: nat) returns (acts: seq<Action>)
    requires Live(s, i) && s.procs[i].pc == Reading && !s.card.Unreadable?
    ensures Leads(cfg, s, acts, i, Put(s, i, s.procs[i].(pc := Merging(Merge(View(s.card), s.procs[i].update)))))
  {
    assert Leads(cfg, s, [], i, s);
    var p := s.procs[i];
    acts := LeadsOneMore(cfg, s, [], s, Put(s, i, p.(pc := Merging(Merge(View(s.card), p.update)))), i);
  }

  lemma ThreeCallsRename(cfg: Config, s: Sys, i: nat) returns (acts: seq<Action>)
    requires Live(s, i) && s.procs[i].pc.Merging?
    ensures Leads(cfg, s, acts, i, Put(s, i, s.procs[i].(pc := Leaving(true), temp := NoCard))
                                   .(card := Whole(s.procs[i].pc.card), log := s.log + [i]))
  {
    var p := s.procs[i];
    acts := ThreeCalls(cfg, s, Put(s, i, p.(pc := TempTorn(p.pc.card), temp := Unreadable(""))),
                       Put(s, i, p.(pc := TempWhole(p.pc.card), temp := Whole(p.pc.card))),
                       Put(s, i, p.(pc := Leaving(true), temp := NoCard))
                       .(card := Whole(p.pc.card), log := s.log + [i]), i);
  }

  /** No live call is in the middle of a pair. */
  ghost predicate BetweenPairs(s: Sys) {
    forall k :: 0 <= k < |s.procs| && Live(s, k) ==> !MidPair(s.procs[k].pc)
  }

  /** Two live calls that are inside together can lose an update: both rename, and the card holds the
      second one's merge of what it read before the first one's rename. */
  lemma TwoInsideLoseAnUpdate(cfg: Config, s: Sys, i: nat, j: nat) returns (acts: seq<Action>)
    requires i != j && Live(s, i) && Live(s, j) && s.procs[i].pc == Reading && s.procs[j].pc == Reading
    requires !s.card.Unreadable? && !SameCell(s.procs[i].update, s.procs[j].update)
    requires !Holds(View(s.card), s.procs[i].update)
    ensures var t := Run(cfg, s, acts);
            && |t.procs| == |s.procs| && Renamed(t.procs[i].pc) && Renamed(t.procs[j].pc)
            && !Holds(View(t.card), s.procs[i].update) && Holds(View(t.card), s.procs[j].update)
    ensures Instant(acts) && (BetweenPairs(s) ==> PairedRun(cfg, s, acts))
  {
    var a := OneCallReads(cfg, s, i);
    var sa := Run(cfg, s, a);
    var b := OneCallReads(cfg, sa, j);
    var sb := Run(cfg, sa, b);
    var c := ThreeCallsRename(cfg, sb, i);
    var sc := Run(cfg, sb, c);
    var d := ThreeCallsRename(cfg, sc, j);
    acts := a + (b + (c + d));
    RunConcat(cfg, s, a, b + (c + d));
    RunConcat(cfg, sa, b, c + d);
    RunConcat(cfg, sb, c, d);
    MergeOfAnotherCell(View(s.card), s.procs[i].update, s.procs[j].update);
    if BetweenPairs(s) {
      assert BetweenPairs(sa);
      assert BetweenPairs(sb);
      assert BetweenPairs(sc);
    }
  }

  // ---- a late waiter, from a start -----------------------------------------------------------------

  /** A call that is made, waits longer than the bound, and takes the free lock: it is inside, and its
      lock is stale the moment it is made. */
  lemma ALateLockIsStaleAtOnce(cfg: Config, s: Sys, i: nat, ms: nat) returns (acts: seq<Action>)
    requires Initial(s) && Live(s, i) && ms > cfg.staleMs
    ensures PairedRun(cfg, s, acts)
    ensures var t := Run(cfg, s, acts);
            var p := s.procs[i].(pc := Reading, at := s.now);
            && t == Put(s, i, p).(now := s.now + ms, lock := Some(LockFile(Mine(p), s.now + ms, i)))
            && !Fresh(cfg, t, i) && StaleOwner(Mine(p), s.now + ms, t.now, cfg.staleMs, t.alive)
  {
    acts := [Act(i), Pass(ms), Act(i), Act(i)];
    var p := s.procs[i].(at := s.now);
    var one := Put(s, i, p.(pc := Trying));
    var two := one.(now := s.now + ms);
    var three := Put(two, i, p.(pc := Created)).(lock := Some(LockFile(Blank, two.now, i)));
    var four := Put(three, i, p.(pc := Reading)).(lock := Some(LockFile(Mine(p), two.now, i)));
    FourActions(cfg, s, acts, one, two, three, four);
    assert four.procs == s.procs[i := p.(pc := Reading)];
    forall k | 0 <= k < |s.procs| && k != i
      ensures one.procs[k].pc == Idle && two.procs[k].pc == Idle && three.procs[k].pc == Idle
    {
      assert s.procs[k].pc == Idle;
    }
  }

  lemma FourActions(cfg: Config, s: Sys, acts: seq<Action>, one: Sys, two: Sys, three: Sys, four: Sys)
    requires |acts| == 4
    requires one == Next(cfg, s, acts[0]) && two == Next(cfg, one, acts[1])
    requires three == Next(cfg, two, acts[2]) && four == Next(cfg, three, acts[3])
    ensures Run(cfg, s, acts) == four
    ensures PairedRun(cfg, s, acts) <==>
              Paired(s, acts[0]) && Paired(one, acts[1]) && Paired(two, acts[2]) && Paired(three, acts[3])
  {
    assert acts[..3][..2] == acts[..2] && acts[..2][..1] == acts[..1] && acts[..1][..0] == [];
    assert Run(cfg, s, acts[..1]) == one && Run(cfg, s, acts[..2]) == two && Run(cfg, s, acts[..3]) == three;
    assert PairedRun(cfg, s, acts[..1]) <==> Paired(s, acts[0]);
    assert PairedRun(cfg, s, acts[..2]) <==> Paired(s, acts[0]) && Paired(one, acts[1]);
    assert PairedRun(cfg, s, acts[..3]) <==> Paired(s, acts[0]) && Paired(one, acts[1]) && Paired(two, acts[2]);
  }

  lemma {:induction false} TheClockStands(cfg: Config, s: Sys, acts: seq<Action>)
    requires Instant(acts)
    ensures Run(cfg, s, acts).now == s.now
  {
    if acts != [] { TheClockStands(cfg, s, acts[..|acts| - 1]); }
  }

  /**
   * The bounds that `mergeCell` runs with lose an update. From every start, with each pair one step: a
   * call waits past the bound and takes the free lock, a new caller finds the lock stale and is inside
   * too, both rename, and the first one's cell is gone.
   */
  lemma TheDefaultsLoseAnUpdate(s: Sys, i: nat, j: nat) returns (acts: seq<Action>)
    requires Initial(s) && i != j && Live(s, i) && Live(s, j) && !s.card.Unreadable?
    requires !SameCell(s.procs[i].update, s.procs[j].update) && !Holds(View(s.card), s.procs[i].update)
    ensures PairedRun(DEFAULTS, s, acts)
    ensures Run(DEFAULTS, s, acts).now == s.now + 30_001 < s.now + 60_000 == s.now + DEFAULTS.waitMs
    ensures var t := Run(DEFAULTS, s, acts);
            && |t.procs| == |s.procs| && Renamed(t.procs[i].pc) && Renamed(t.procs[j].pc)
            && !Holds(View(t.card), s.procs[i].update) && Holds(View(t.card), s.procs[j].update)
  {
    var a := ALateLockIsStaleAtOnce(DEFAULTS, s, i, 30_001);
    var sa := Run(DEFAULTS, s, a);
    var b := NewCallerEnters(DEFAULTS, sa, j);
    var sb := Run(DEFAULTS, sa, b);
    assert OthersBetweenPairs(sa, j) && BetweenPairs(sb);
    var c := TwoInsideLoseAnUpdate(DEFAULTS, sb, i, j);
    acts := a + (b + c);
    RunConcat(DEFAULTS, s, a, b + c);
    RunConcat(DEFAULTS, sa, b, c);
    TheClockStands(DEFAULTS, sa, b);
    TheClockStands(DEFAULTS, sb, c);
  }

  /**
   * Without the pairs, a lock another process took in the meantime is not left alone: two calls that
   * both compared a dead owner's text go on to unlink, and the second one removes the lock that the
   * first one made after its own unlink, though its owner is alive, inside and fresh.
   */
  lemma WithoutPairsAFreshLockIsRemoved(cfg: Config, s: Sys, i: nat, k: nat) returns (acts: seq<Action>)
    requires i != k && Live(s, i) && Live(s, k) && s.procs[i].pc == Idle && s.procs[k].pc == Idle
    requires s.lock.Some? && s.lock.value.text.Owned?
    requires s.lock.value.text.pid > 0 && s.lock.value.text.pid !in s.alive
    ensures var held := Run(cfg, s, acts);
            var gone := Run(cfg, s, acts + [Act(i)]);
            && held.lock.Some? && held.lock.value.creator == k && !Expired(cfg, held, held.lock.value)
            && gone.lock.None? && InsideLive(gone, k) && Fresh(cfg, gone, k)
  {
    var a := NewCallerCondemns(cfg, s, i);
    var sa := Put(s, i, s.procs[i].(pc := Condemned(s.lock.value.text), at := s.now));
    var b := NewCallerEnters(cfg, sa, k);
    acts := a + b;
    RunConcat(cfg, s, a, b);
    var held := Run(cfg, s, acts);
    assert (acts + [Act(i)])[..|acts|] == acts;
    var p := sa.procs[k].(pc := Reading, at := sa.now);
    assert held == Put(sa, k, p).(lock := Some(LockFile(Mine(p), sa.now, k)));
    assert held.procs[i] == sa.procs[i] && held.procs[k] == p;
    assert Run(cfg, s, acts + [Act(i)]) == Put(held, i, held.procs[i].(pc := Trying)).(lock := None);
  }
}
