/**
 * One call of the scorecard's lock on its own (features/lib/model-scorecard.ts, withLock, mergeCell): an
 * ordinary merge from its start to its end, and what a call does over a lock that it finds.
 */
module OneMerge {
  import opened Wrappers
  import opened Scorecard
  import opened Takeover
  import opened TakeoverLimits

  lemma OneCall(cfg: Config, s: Sys, j: nat) returns (acts: seq<Action>)
    ensures Leads(cfg, s, acts, j, Next(cfg, s, Act(j)))
  {
    assert Leads(cfg, s, [], j, s);
    acts := LeadsOneMore(cfg, s, [], s, Next(cfg, s, Act(j)), j);
  }

  // ---- an ordinary merge ---------------------------------------------------------------------------

  /** The call `i` is inside the free lock that it made. */
  function Entered(s: Sys, i: nat): Sys
    requires i < |s.procs|
  {
    var p := s.procs[i].(pc := Reading, at := s.now);
    Put(s, i, p).(lock := Some(LockFile(Mine(p), s.now, i)))
  }

  lemma EntersAFreeLock(cfg: Config, s: Sys, i: nat) returns (acts: seq<Action>)
    requires Live(s, i) && s.procs[i].pc == Idle && s.lock.None?
    ensures Leads(cfg, s, acts, i, Entered(s, i))
  {
    var p := s.procs[i].(at := s.now);
    acts := ThreeCalls(cfg, s, Put(s, i, p.(pc := Trying)),
                       Put(s, i, p.(pc := Created)).(lock := Some(LockFile(Blank, s.now, i))), Entered(s, i), i);
  }

  /** It has the card that it will write; an unreadable card is moved aside. */
  function HasRead(s: Sys, i: nat): Sys
    requires i < |s.procs|
  {
    var p := s.procs[i];
    var t := Put(s, i, p.(pc := Merging(Merge(View(s.card), p.update))));
    if s.card.Unreadable? then t.(card := NoCard, aside := s.aside + [s.card]) else t
  }

  lemma ReadsTheCard(cfg: Config, s: Sys, i: nat) returns (acts: seq<Action>)
    requires Live(s, i) && s.procs[i].pc == Reading
    ensures Leads(cfg, s, acts, i, HasRead(s, i))
  {
    acts := OneCall(cfg, s, i);
    if s.card.Unreadable? {
      var t := Put(s, i, s.procs[i].(pc := Moving));
      assert Next(cfg, s, Act(i)) == t;
      assert Next(cfg, t, Act(i)) == HasRead(s, i);
      acts := LeadsOneMore(cfg, s, acts, t, HasRead(s, i), i);
    }
  }

  /** It leaves: the lock is its own, and it is removed. */
  lemma Releases(cfg: Config, s: Sys, i: nat) returns (acts: seq<Action>)
    requires Live(s, i) && s.procs[i].pc.Leaving? && s.lock.Some? && s.lock.value.text == Mine(s.procs[i])
    ensures Leads(cfg, s, acts, i, Put(s, i, s.procs[i].(pc := Finished(s.procs[i].pc.ok))).(lock := None))
  {
    var p := s.procs[i];
    var t := Put(s, i, p.(pc := Releasing(p.pc.ok)));
    acts := OneCall(cfg, s, i);
    acts := LeadsOneMore(cfg, s, acts, t, Put(s, i, p.(pc := Finished(p.pc.ok))).(lock := None), i);
  }

  /** What a merge leaves: the card with its cell, an unreadable card aside, and no lock. */
  function Merged(s: Sys, i: nat): Sys
    requires i < |s.procs|
  {
    var p := s.procs[i];
    Put(s, i, p.(pc := Finished(true), temp := NoCard))
    .(card := Whole(Merge(View(s.card), p.update)), aside := if s.card.Unreadable? then s.aside + [s.card] else s.aside,
      log := s.log + [i], lock := None)
  }

  lemma SameButOne(s: Sys, t: Sys, i: nat)
    requires i < |s.procs| && i < |t.procs| && t.procs == s.procs[i := t.procs[i]] && t.alive == s.alive
    ensures SameOthers(s, t, i)
  {
  }

  /** A call inside its own lock merges and releases. */
  lemma Finishes(cfg: Config, s: Sys, i: nat) returns (acts: seq<Action>)
    requires Live(s, i) && s.procs[i].pc == Reading && s.lock.Some? && s.lock.value.text == Mine(s.procs[i])
    ensures Leads(cfg, s, acts, i, Merged(s, i))
    ensures Holds(View(Merged(s, i).card), s.procs[i].update)
  {
    var b := ReadsTheCard(cfg, s, i);
    var sb := HasRead(s, i);
    var c := ThreeCallsRename(cfg, sb, i);
    var sc := Run(cfg, sb, c);
    var d := Releases(cfg, sc, i);
    SameButOne(s, sb, i);
    SameButOne(s, sc, i);
    acts := LeadsOn(cfg, s, b, sb, c, sc, i);
    assert Run(cfg, sc, d) == Merged(s, i) by {
      assert Run(cfg, sc, d).procs == Merged(s, i).procs;
    }
    acts := LeadsOn(cfg, s, acts, sc, d, Merged(s, i), i);
  }

  /**
   * An ordinary merge. From every start a call on its own makes the lock, merges its cell into the card,
   * and releases the lock: it ends `Finished(true)`, and nothing but its own state and the card changed.
   */
  lemma AnOrdinaryMerge(cfg: Config, s: Sys, i: nat) returns (acts: seq<Action>)
    requires Initial(s) && Live(s, i)
    ensures PairedRun(cfg, s, acts)
    ensures Run(cfg, s, acts) == Merged(Put(s, i, s.procs[i].(at := s.now)), i)
    ensures Run(cfg, s, acts).lock.None? && Holds(View(Run(cfg, s, acts).card), s.procs[i].update)
  {
    var a := EntersAFreeLock(cfg, s, i);
    var sa := Entered(s, i);
    var b := Finishes(cfg, sa, i);
    SameButOne(s, sa, i);
    acts := LeadsOn(cfg, s, a, sa, b, Merged(sa, i), i);
    assert OthersBetweenPairs(s, i);
    var end := Merged(Put(s, i, s.procs[i].(at := s.now)), i);
    assert Merged(sa, i) == end by { assert Merged(sa, i).procs == end.procs; }
  }

  lemma RunMore(cfg: Config, s: Sys, acts: seq<Action>, a: Action)
    ensures Run(cfg, s, acts + [a]) == Next(cfg, Run(cfg, s, acts), a)
    ensures PairedRun(cfg, s, acts + [a]) <==> PairedRun(cfg, s, acts) && Paired(Run(cfg, s, acts), a)
  {
    assert (acts + [a])[..|acts|] == acts;
  }

  /** A merge that fails inside releases the lock too, and leaves the card as it was. */
  lemma AFailedMergeReleases(cfg: Config, s: Sys, i: nat) returns (acts: seq<Action>)
    requires Initial(s) && Live(s, i)
    ensures var t := Run(cfg, s, acts);
            && |t.procs| == |s.procs| && t.procs[i].pc == Finished(false)
            && t.lock.None? && t.card == s.card && t.log == []
  {
    var a := EntersAFreeLock(cfg, s, i);
    var sa := Entered(s, i);
    RunMore(cfg, s, a, Fail(i));
    var sb := Next(cfg, sa, Fail(i));
    var b := Releases(cfg, sb, i);
    acts := a + [Fail(i)] + b;
    RunConcat(cfg, s, a + [Fail(i)], b);
  }

  /** A process that dies inside leaves its lock, and the next call takes it over at once and merges. */
  lemma ADeadOwnersLockIsTaken(cfg: Config, s: Sys, i: nat, j: nat) returns (acts: seq<Action>)
    requires Initial(s) && Live(s, i) && Live(s, j) && s.procs[i].pid != s.procs[j].pid
    ensures var t := Run(cfg, s, acts);
            && |t.procs| == |s.procs| && t.procs[j].pc == Finished(true) && t.now == s.now
            && t.lock.None? && t.log == [j] && Holds(View(t.card), s.procs[j].update)
  {
    var pid := s.procs[i].pid;
    var a := EntersAFreeLock(cfg, s, i);
    var sa := Entered(s, i);
    RunMore(cfg, s, a, Die(pid));
    var sb := Next(cfg, sa, Die(pid));
    var b := NewCallerEnters(cfg, sb, j);
    var sc := Run(cfg, sb, b);
    var c := Finishes(cfg, sc, j);
    acts := a + [Die(pid)] + b + c;
    RunConcat(cfg, s, a + [Die(pid)], b);
    RunConcat(cfg, s, a + [Die(pid)] + b, c);
  }

  // ---- a call over a lock --------------------------------------------------------------------------

  /** An owner that is alive, with a stamp that is not old. */
  predicate HasLiveOwner(f: LockFile, now: int, staleMs: nat, alive: set<int>) {
    f.text.Owned? && f.text.pid > 0 && f.text.pid in alive && now - f.text.at <= staleMs
  }

  /** No owner is written, and the file is not old: its maker may be about to write. */
  predicate IsYoung(f: LockFile, now: int, staleMs: nat) {
    (f.text == Blank || f.text.pid <= 0) && now - f.mtime <= staleMs
  }

  /** A call that finds a lock waits exactly when its owner is alive with a stamp that is not old, or no
      owner is written yet and the file is not old; otherwise it goes on to take it. */
  lemma JudgesExactly(cfg: Config, s: Sys, j: nat) returns (acts: seq<Action>)
    requires Live(s, j) && s.procs[j].pc == Trying && s.lock.Some?
    ensures var f := s.lock.value;
            Leads(cfg, s, acts, j, Put(s, j, s.procs[j].(pc :=
              if HasLiveOwner(f, s.now, cfg.staleMs, s.alive) || IsYoung(f, s.now, cfg.staleMs) then Patient
              else Doubted(f.text))))
  {
    var p, f := s.procs[j], s.lock.value;
    var statted := Put(s, j, p.(pc := Statted(f.text, f.mtime)));
    acts := ThreeCalls(cfg, s, Put(s, j, p.(pc := Contended)), Put(s, j, p.(pc := Seen(f.text))), statted, j);
    var judged := Put(s, j, p.(pc := if HasLiveOwner(f, s.now, cfg.staleMs, s.alive) || IsYoung(f, s.now, cfg.staleMs)
                                      then Patient else Doubted(f.text)));
    acts := LeadsOneMore(cfg, s, acts, statted, judged, j);
  }

  /** A call that waits gives up exactly when its time is over, and otherwise tries again. */
  lemma GivesUpExactly(cfg: Config, s: Sys, j: nat) returns (acts: seq<Action>)
    requires Live(s, j) && s.procs[j].pc == Patient
    ensures Leads(cfg, s, acts, j,
                  Put(s, j, s.procs[j].(pc := if s.now - s.procs[j].at > cfg.waitMs then TimedOut else Trying)))
  {
    acts := OneCall(cfg, s, j);
  }

  /** A lock that is gone, or that another call took, between the two reads is left alone, and the call
      tries again at once. */
  lemma AChangedLockIsLeft(cfg: Config, s: Sys, j: nat) returns (acts: seq<Action>)
    requires Live(s, j) && s.procs[j].pc.Doubted?
    requires s.lock.None? || s.lock.value.text != s.procs[j].pc.held
    ensures Leads(cfg, s, acts, j, Put(s, j, s.procs[j].(pc := Trying)))
  {
    acts := OneCall(cfg, s, j);
  }

  /** A call that finds the lock gone before its first read waits, as for a lock that is held. */
  lemma AGoneLockIsWaitedFor(cfg: Config, s: Sys, j: nat) returns (acts: seq<Action>)
    requires Live(s, j) && s.procs[j].pc == Contended && s.lock.None?
    ensures Leads(cfg, s, acts, j, Put(s, j, s.procs[j].(pc := Patient)))
  {
    acts := OneCall(cfg, s, j);
  }

  /** If the call gave up, its time is over. */
  predicate IsLate(cfg: Config, s: Sys, i: nat) {
    i < |s.procs| && s.procs[i].pc == TimedOut ==> s.now - s.procs[i].at > cfg.waitMs
  }

  lemma LateStep(cfg: Config, s: Sys, a: Action, i: nat)
    requires IsLate(cfg, s, i)
    ensures IsLate(cfg, Next(cfg, s, a), i)
  {
  }

  /** In every run, whatever the interleaving, a call gives up only when its time is over. */
  lemma {:induction false} GivesUpOnlyLate(cfg: Config, s: Sys, acts: seq<Action>, i: nat)
    requires Initial(s)
    ensures IsLate(cfg, Run(cfg, s, acts), i)
  {
    if acts != [] {
      GivesUpOnlyLate(cfg, s, acts[..|acts| - 1], i);
      LateStep(cfg, Run(cfg, s, acts[..|acts| - 1]), acts[|acts| - 1], i);
    }
  }
}
