/**
 * The lock on `features/model-instance/` (features/lib/model-lock.ts, takeProfileLock): the workers
 * of one suite share it, and another live suite is refused.
 *
 * Each worker runs the body of the function one file-system call at a time. A schedule names, in
 * order, the worker that makes its next call; the theorems hold for every schedule. `alive` is the
 * function's parameter: the pids of live suite owners, which stay alive for the whole run.
 */
module ProfileLock {

  datatype Lock = Lock(profile: string, suite: string, pid: int)

  /** A file as a reader sees it: nothing, a whole lock, or text that does not parse as one (half a
      write is such a text). */
  datatype File = Absent | Held(lock: Lock) | NotALock

  /** Where a worker is. The two temporary files are its own: their names are random. */
  datatype Pc =
    | Begin       // about to open the temporary file
    | TmpTorn     // the temporary file holds half of the body
    | TmpWhole    // about to link it to the lock's path
    | Linked      // the link was made: about to remove the temporary file
    | Exists      // the path was taken: about to remove the temporary file
    | Reading     // about to read the lock and judge its owner
    | TakingOver  // the owner is gone: about to open the second temporary file
    | MineTorn
    | MineWhole   // about to rename it over the lock
    | ReadBack    // about to read who has the lock now
    | Returned
    | Refused     // threw: another live suite holds the lock
    | GaveUp      // threw: ten attempts

  datatype Worker = Worker(want: Lock, pc: Pc, attempt: nat, tmp: File)

  /** `writes` counts how often the lock's path was linked or renamed over. */
  datatype System = System(file: File, workers: seq<Worker>, writes: nat)

  const ATTEMPTS := 10

  predicate Final(pc: Pc) { pc in {Returned, Refused, GaveUp} }

  /** Read the lock and judge it: share it, throw, or take it over. */
  function Judge(alive: set<int>, file: File, want: Lock): Pc {
    if file.Held? && file.lock.suite == want.suite then Returned
    else if file.Held? && file.lock.pid in alive then Refused
    else TakingOver
  }

  /** One worker's next call. */
  function Call(alive: set<int>, file: File, w: Worker): (File, Worker, nat) {
    match w.pc
    case Begin => (file, w.(pc := TmpTorn, tmp := NotALock), 0)
    case TmpTorn => (file, w.(pc := TmpWhole, tmp := Held(w.want)), 0)
    case TmpWhole => if file.Absent? then (w.tmp, w.(pc := Linked), 1) else (file, w.(pc := Exists), 0)
    case Linked => (file, w.(pc := Returned, tmp := Absent), 0)
    case Exists => (file, w.(pc := Reading, tmp := Absent), 0)
    case Reading => (file, w.(pc := Judge(alive, file, w.want)), 0)
    case TakingOver => (file, w.(pc := MineTorn, tmp := NotALock), 0)
    case MineTorn => (file, w.(pc := MineWhole, tmp := Held(w.want)), 0)
    case MineWhole => (w.tmp, w.(pc := ReadBack, tmp := Absent), 1)
    case ReadBack =>
      if file.Held? && file.lock.suite == w.want.suite then (file, w.(pc := Returned), 0)
      else if w.attempt + 1 < ATTEMPTS then (file, w.(pc := Begin, attempt := w.attempt + 1), 0)
      else (file, w.(pc := GaveUp), 0)
    case _ => (file, w, 0)
  }

  function Step(alive: set<int>, s: System, i: nat): System {
    if i >= |s.workers| then s
    else
      var (file, w, written) := Call(alive, s.file, s.workers[i]);
      System(file, s.workers[i := w], s.writes + written)
  }

  function Run(alive: set<int>, s: System, schedule: seq<nat>): System {
    if schedule == [] then s
    else Step(alive, Run(alive, s, schedule[..|schedule| - 1]), schedule[|schedule| - 1])
  }

  /** Workers that have not begun, each of a live suite, over any file. */
  ghost predicate Initial(alive: set<int>, s: System) {
    && s.writes == 0
    && forall i :: 0 <= i < |s.workers| ==>
         s.workers[i].pc == Begin && s.workers[i].attempt == 0 && s.workers[i].tmp == Absent
         && s.workers[i].want.pid in alive
  }

  /** Every worker that returned belongs to the suite that the lock names. */
  ghost predicate Exclusive(s: System) {
    forall i :: 0 <= i < |s.workers| && s.workers[i].pc == Returned ==>
      s.file.Held? && s.file.lock.suite == s.workers[i].want.suite
  }

  // ---- from an absent lock, or a live one --------------------------------------------------------

  predicate AbsentOrLive(alive: set<int>, file: File) {
    file.Absent? || (file.Held? && file.lock.pid in alive)
  }

  /** What holds of a worker at every moment, once the file is absent or live. */
  predicate Orderly(alive: set<int>, file: File, w: Worker) {
    && w.want.pid in alive
    && w.attempt == 0
    && w.pc !in {TakingOver, MineTorn, MineWhole, ReadBack, GaveUp}
    && (w.pc in {Linked, Returned} ==> file.Held? && file.lock.suite == w.want.suite)
    && (w.pc in {Exists, Reading} ==> file.Held?)
    && (w.pc == Refused ==> file.Held? && file.lock.suite != w.want.suite)
    && (w.pc == TmpWhole ==> w.tmp == Held(w.want))
  }

  ghost predicate Safe(alive: set<int>, start: File, s: System) {
    && AbsentOrLive(alive, s.file)
    && (forall i :: 0 <= i < |s.workers| ==> Orderly(alive, s.file, s.workers[i]))
    && (if s.file == start then s.writes == 0 else start.Absent? && s.writes == 1)
  }

  lemma StepSafe(alive: set<int>, start: File, s: System, i: nat)
    requires Safe(alive, start, s)
    ensures Safe(alive, start, Step(alive, s, i))
  {
  }

  /**
   * From an absent lock, or one with a live owner, in every interleaving of the workers of any
   * number of suites: the lock is written at most once (never, when there was one), it is never
   * seen half-written, every worker that returned is of the suite it names, every worker that was
   * refused is not, and no worker takes over or tries again.
   */
  lemma {:induction false} SafeFromAbsentOrLive(alive: set<int>, s: System, schedule: seq<nat>)
    requires Initial(alive, s) && AbsentOrLive(alive, s.file)
    ensures Safe(alive, s.file, Run(alive, s, schedule)) && Exclusive(Run(alive, s, schedule))
  {
    if schedule != [] {
      SafeFromAbsentOrLive(alive, s, schedule[..|schedule| - 1]);
      StepSafe(alive, s.file, Run(alive, s, schedule[..|schedule| - 1]), schedule[|schedule| - 1]);
    }
  }

  // ---- from any lock, with the workers of one suite ----------------------------------------------

  /** What holds of a worker of the one suite that contends for a lock whose owner is gone. */
  predicate Sharing(alive: set<int>, file: File, suite: string, w: Worker) {
    && w.want.suite == suite && w.want.pid in alive
    && w.attempt == 0
    && w.pc !in {Linked, Refused, GaveUp}
    && (w.pc in {TmpWhole, MineWhole} ==> w.tmp == Held(w.want))
    && (w.pc in {ReadBack, Returned} ==> file.Held? && file.lock.suite == suite)
  }

  ghost predicate Shared(alive: set<int>, start: File, suite: string, s: System) {
    && (s.file == start || (s.file.Held? && s.file.lock.suite == suite))
    && forall i :: 0 <= i < |s.workers| ==> Sharing(alive, s.file, suite, s.workers[i])
  }

  predicate Gone(alive: set<int>, file: File) {
    file.NotALock? || (file.Held? && file.lock.pid !in alive)
  }

  lemma StepShared(alive: set<int>, start: File, suite: string, s: System, i: nat)
    requires Gone(alive, start) && Shared(alive, start, suite, s)
    ensures Shared(alive, start, suite, Step(alive, s, i))
  {
  }

  /** From a lock whose owner is gone, or a text that is no lock, the workers of one suite all share
      what one of them took: none is refused and none tries again. */
  lemma {:induction false} OneSuiteSharesAGoneLock(alive: set<int>, s: System, suite: string, schedule: seq<nat>)
    requires Initial(alive, s) && Gone(alive, s.file)
    requires forall i :: 0 <= i < |s.workers| ==> s.workers[i].want.suite == suite
    ensures Shared(alive, s.file, suite, Run(alive, s, schedule)) && Exclusive(Run(alive, s, schedule))
  {
    if schedule != [] {
      OneSuiteSharesAGoneLock(alive, s, suite, schedule[..|schedule| - 1]);
      StepShared(alive, s.file, suite, Run(alive, s, schedule[..|schedule| - 1]), schedule[|schedule| - 1]);
    }
  }

  // ---- every worker comes to an end --------------------------------------------------------------

  /** How many calls a worker may still make in its first attempt. */
  function Left(pc: Pc): nat {
    match pc
    case Begin => 9 case TmpTorn => 8 case TmpWhole => 7 case Exists => 6 case Reading => 5
    case TakingOver => 4 case MineTorn => 3 case MineWhole => 2 case ReadBack => 1 case Linked => 1
    case _ => 0
  }

  lemma CallShortens(alive: set<int>, file: File, suite: string, w: Worker)
    requires Orderly(alive, file, w) || Sharing(alive, file, suite, w)
    ensures var (_, after, _) := Call(alive, file, w);
            if Final(w.pc) then Call(alive, file, w) == (file, w, 0) else Left(after.pc) < Left(w.pc)
  {
  }

  /** A worker's call brings it nearer to its end, whatever the others do: after nine calls of its
      own, in any interleaving, it has returned or was refused. */
  lemma EveryCallIsProgress(alive: set<int>, s: System, schedule: seq<nat>, i: nat)
    requires Initial(alive, s) && i < |s.workers|
    requires AbsentOrLive(alive, s.file)
             || (Gone(alive, s.file) && forall j, k :: 0 <= j < k < |s.workers| ==>
                                          s.workers[j].want.suite == s.workers[k].want.suite)
    ensures var before := Run(alive, s, schedule);
            var after := Run(alive, s, schedule + [i]);
            && |before.workers| == |after.workers| == |s.workers|
            && (if Final(before.workers[i].pc) then after == before
                else Left(after.workers[i].pc) < Left(before.workers[i].pc))
            && (forall j :: 0 <= j < |s.workers| && j != i ==> after.workers[j] == before.workers[j])
  {
    assert (schedule + [i])[..|schedule|] == schedule;
    SameWorkers(alive, s, schedule);
    var t, suite := Run(alive, s, schedule), s.workers[i].want.suite;
    if AbsentOrLive(alive, s.file) {
      SafeFromAbsentOrLive(alive, s, schedule);
      assert Orderly(alive, t.file, t.workers[i]);
    } else {
      assert forall j :: 0 <= j < |s.workers| ==> s.workers[j].want.suite == suite;
      OneSuiteSharesAGoneLock(alive, s, suite, schedule);
      assert Sharing(alive, t.file, suite, t.workers[i]);
    }
    CallShortens(alive, t.file, suite, t.workers[i]);
    if Final(t.workers[i].pc) { assert t.workers[i := t.workers[i]] == t.workers; }
  }

  lemma {:induction false} SameWorkers(alive: set<int>, s: System, schedule: seq<nat>)
    ensures var t := Run(alive, s, schedule);
            |t.workers| == |s.workers| && forall i :: 0 <= i < |s.workers| ==> t.workers[i].want == s.workers[i].want
  {
    if schedule != [] {
      SameWorkers(alive, s, schedule[..|schedule| - 1]);
    }
  }

  /** How often the schedule gives a worker its turn. */
  function Turns(schedule: seq<nat>, i: nat): nat {
    if schedule == [] then 0
    else Turns(schedule[..|schedule| - 1], i) + (if schedule[|schedule| - 1] == i then 1 else 0)
  }

  /** A worker that had nine turns, in any interleaving, is at its end: it returned when the lock
      names its suite, and was refused when it does not. */
  lemma {:induction false} NineTurnsEnd(alive: set<int>, s: System, schedule: seq<nat>, i: nat)
    requires Initial(alive, s) && i < |s.workers|
    requires AbsentOrLive(alive, s.file)
             || (Gone(alive, s.file) && forall j, k :: 0 <= j < k < |s.workers| ==>
                                          s.workers[j].want.suite == s.workers[k].want.suite)
    ensures var t := Run(alive, s, schedule);
            && |t.workers| == |s.workers|
            && (Final(t.workers[i].pc) || Left(t.workers[i].pc) + Turns(schedule, i) <= 9)
            && (Turns(schedule, i) >= 9 ==>
                  t.file.Held? && t.workers[i].pc ==
                                  if t.file.lock.suite == s.workers[i].want.suite then Returned else Refused)
    ensures Gone(alive, s.file) && Turns(schedule, i) >= 9 ==> Run(alive, s, schedule).workers[i].pc == Returned
  {
    if schedule != [] {
      var last := |schedule| - 1;
      NineTurnsEnd(alive, s, schedule[..last], i);
      if schedule[last] == i {
        EveryCallIsProgress(alive, s, schedule[..last], i);
        assert schedule[..last] + [i] == schedule;
      }
    }
    SameWorkers(alive, s, schedule);
    if AbsentOrLive(alive, s.file) {
      SafeFromAbsentOrLive(alive, s, schedule);
    } else {
      assert forall j :: 0 <= j < |s.workers| ==> s.workers[j].want.suite == s.workers[i].want.suite;
      OneSuiteSharesAGoneLock(alive, s, s.workers[i].want.suite, schedule);
    }
  }

  // ---- two suites on a gone lock -----------------------------------------------------------------

  /** The starts from which the lock excludes: absent, live, or contended by one suite. */
  ghost predicate SafeStart(alive: set<int>, s: System) {
    || AbsentOrLive(alive, s.file)
    || forall i, j :: 0 <= i < j < |s.workers| ==> s.workers[i].want.suite == s.workers[j].want.suite
  }

  /** The schedule that breaks exclusion: both judge the lock before either renames. */
  function BothJudgeFirst(i: nat, j: nat): seq<nat> {
    [i, i, i, i, i] + [j, j, j, j, j] + [i, i, i, i] + [j, j, j, j]
  }

  lemma {:induction false} RunConcat(alive: set<int>, s: System, a: seq<nat>, b: seq<nat>)
    ensures Run(alive, s, a + b) == Run(alive, Run(alive, s, a), b)
  {
    if b == [] {
      assert a + b == a;
    } else {
      assert (a + b)[..|a + b| - 1] == a + b[..|b| - 1];
      RunConcat(alive, s, a, b[..|b| - 1]);
    }
  }

  lemma FourOf(alive: set<int>, s: System, i: nat)
    ensures Run(alive, s, [i, i, i, i]) ==
            Step(alive, Step(alive, Step(alive, Step(alive, s, i), i), i), i)
    ensures Run(alive, s, [i, i, i, i, i]) == Step(alive, Run(alive, s, [i, i, i, i]), i)
  {
    assert [i, i, i, i, i][..4] == [i, i, i, i] && [i, i, i, i][..3] == [i, i, i];
    assert [i, i, i][..2] == [i, i] && [i, i][..1] == [i] && [i][..0] == [];
    assert Run(alive, s, [i]) == Step(alive, Run(alive, s, []), i);
    assert Run(alive, s, [i, i]) == Step(alive, Run(alive, s, [i]), i);
    assert Run(alive, s, [i, i, i]) == Step(alive, Run(alive, s, [i, i]), i);
  }

  /** A worker's first five calls over a file that is there: it fails to link and judges the lock. */
  lemma FiveCalls(alive: set<int>, s: System, i: nat)
    requires i < |s.workers| && s.workers[i].pc == Begin && !s.file.Absent?
    ensures Run(alive, s, [i, i, i, i, i]) ==
            s.(workers := s.workers[i := s.workers[i].(pc := Judge(alive, s.file, s.workers[i].want), tmp := Absent)])
  {
    FourOf(alive, s, i);
    var w := s.workers[i];
    var t := Run(alive, s, [i, i, i, i]);
    assert t.workers == s.workers[i := w.(pc := Reading, tmp := Absent)];
    assert Step(alive, t, i).workers == s.workers[i := w.(pc := Judge(alive, s.file, w.want), tmp := Absent)];
  }

  /** A worker's takeover: it renames its own lock over the path, reads it back and returns. */
  lemma FourCalls(alive: set<int>, s: System, i: nat)
    requires i < |s.workers| && s.workers[i].pc == TakingOver
    ensures Run(alive, s, [i, i, i, i]) ==
            System(Held(s.workers[i].want), s.workers[i := s.workers[i].(pc := Returned, tmp := Absent)], s.writes + 1)
  {
    FourOf(alive, s, i);
    assert Run(alive, s, [i, i, i, i]).workers == s.workers[i := s.workers[i].(pc := Returned, tmp := Absent)];
  }

  lemma FourIdleCalls(alive: set<int>, s: System, i: nat)
    requires i < |s.workers| && s.workers[i].pc == Returned
    ensures Run(alive, s, [i, i, i, i]) == s
  {
    FourOf(alive, s, i);
    assert s.workers[i := s.workers[i]] == s.workers;
  }

  /** Two suites that both judge a gone lock before either renames both return, and the lock names
      one of them. */
  lemma TwoSuitesBothReturn(alive: set<int>, s: System, i: nat, j: nat)
    requires Initial(alive, s) && Gone(alive, s.file)
    requires i < |s.workers| && j < |s.workers| && i != j
    requires s.workers[i].want.suite != s.workers[j].want.suite
    requires s.file.Held? ==> s.file.lock.suite != s.workers[j].want.suite
    ensures !Exclusive(Run(alive, s, BothJudgeFirst(i, j)))
  {
    var a := Run(alive, s, [i, i, i, i, i]);
    FiveCalls(alive, s, i);
    FiveCalls(alive, a, j);
    var b := Run(alive, a, [j, j, j, j, j]);
    if a.workers[i].pc == Returned {
      FourIdleCalls(alive, b, i);
    } else {
      FourCalls(alive, b, i);
    }
    var c := Run(alive, b, [i, i, i, i]);
    assert c.workers[i].pc == Returned && c.workers[j].pc == TakingOver;
    FourCalls(alive, c, j);
    var d := Run(alive, c, [j, j, j, j]);
    assert d.workers[i].pc == Returned && d.file == Held(s.workers[j].want);
    RunConcat(alive, s, [i, i, i, i, i], [j, j, j, j, j]);
    RunConcat(alive, s, [i, i, i, i, i] + [j, j, j, j, j], [i, i, i, i]);
    RunConcat(alive, s, [i, i, i, i, i] + [j, j, j, j, j] + [i, i, i, i], [j, j, j, j]);
  }

  /**
   * Exactly when the lock excludes. The read-back is meant to tell the loser of two takeovers, but
   * it only does so between one suite's rename and its own read: over a gone lock, two suites can
   * both return. So the lock excludes in every interleaving exactly from an absent or live lock, or
   * with one suite.
   */
  lemma ExcludesExactlyFromASafeStart(alive: set<int>, s: System)
    requires Initial(alive, s)
    ensures (forall schedule :: Exclusive(Run(alive, s, schedule))) <==> SafeStart(alive, s)
  {
    if SafeStart(alive, s) {
      forall schedule
        ensures Exclusive(Run(alive, s, schedule))
      {
        if AbsentOrLive(alive, s.file) {
          SafeFromAbsentOrLive(alive, s, schedule);
        } else {
          var suite := if s.workers == [] then "" else s.workers[0].want.suite;
          OneSuiteSharesAGoneLock(alive, s, suite, schedule);
        }
      }
    } else {
      var i, j :| 0 <= i < j < |s.workers| && s.workers[i].want.suite != s.workers[j].want.suite;
      if s.file.Held? && s.file.lock.suite == s.workers[j].want.suite {
        TwoSuitesBothReturn(alive, s, j, i);
      } else {
        TwoSuitesBothReturn(alive, s, i, j);
      }
    }
  }

  // ---- from every start ----------------------------------------------------------------------------

  /** Over a file that is there, nobody links: what a worker renames is its own lock, whole. */
  lemma {:induction false} NobodyLinks(alive: set<int>, s: System, schedule: seq<nat>)
    requires Initial(alive, s) && !s.file.Absent?
    ensures var t := Run(alive, s, schedule);
            && !t.file.Absent?
            && forall i :: 0 <= i < |t.workers| ==>
                 && t.workers[i].pc != Linked
                 && (t.workers[i].pc == MineWhole ==> t.workers[i].tmp == Held(t.workers[i].want))
  {
    if schedule != [] { NobodyLinks(alive, s, schedule[..|schedule| - 1]); }
  }

  lemma CallReturns(alive: set<int>, file: File, w: Worker)
    requires w.pc != Returned && Call(alive, file, w).1.pc == Returned && w.pc != Linked
    ensures var (after, _, _) := Call(alive, file, w); after.Held? && after.lock.suite == w.want.suite
  {
  }

  /** From every start and in every interleaving, a worker returns only at a moment at which the lock
      names its suite. */
  lemma ReturnsUnderItsOwnSuite(alive: set<int>, s: System, schedule: seq<nat>, i: nat)
    requires Initial(alive, s) && i < |Run(alive, s, schedule).workers|
    requires Run(alive, s, schedule).workers[i].pc != Returned
    requires Run(alive, s, schedule + [i]).workers[i].pc == Returned
    ensures var t := Run(alive, s, schedule + [i]);
            t.file.Held? && t.file.lock.suite == t.workers[i].want.suite
  {
    assert (schedule + [i])[..|schedule|] == schedule;
    var t := Run(alive, s, schedule);
    if t.workers[i].pc == Linked {
      if !s.file.Absent? { NobodyLinks(alive, s, schedule); }
      SafeFromAbsentOrLive(alive, s, schedule);
      assert Orderly(alive, t.file, t.workers[i]);
    } else {
      CallReturns(alive, t.file, t.workers[i]);
    }
  }

  /** From every start a worker leaves none of its temporary files behind, and makes ten attempts at most. */
  lemma {:induction false} TempsAreRemoved(alive: set<int>, s: System, schedule: seq<nat>)
    requires Initial(alive, s)
    ensures forall i :: 0 <= i < |Run(alive, s, schedule).workers| ==>
              var w := Run(alive, s, schedule).workers[i];
              && w.attempt < 10
              && (w.pc in {Begin, Reading, TakingOver, ReadBack, Returned, Refused, GaveUp} ==> w.tmp == Absent)
  {
    if schedule != [] { TempsAreRemoved(alive, s, schedule[..|schedule| - 1]); }
  }

  /** How many calls a worker may still make in all its attempts. */
  function LeftInAll(w: Worker): int {
    if Final(w.pc) then 0 else 9 * (ATTEMPTS - 1 - w.attempt) + Left(w.pc)
  }

  lemma CallShortensAll(alive: set<int>, file: File, w: Worker)
    requires w.attempt < ATTEMPTS
    ensures var (_, after, _) := Call(alive, file, w);
            if Final(w.pc) then Call(alive, file, w) == (file, w, 0) else 0 <= LeftInAll(after) < LeftInAll(w)
  {
  }

  /** From every start, and whatever the other suites do, a worker that had ninety turns is at its end. */
  lemma {:induction false} NinetyTurnsEnd(alive: set<int>, s: System, schedule: seq<nat>, i: nat)
    requires Initial(alive, s) && i < |s.workers|
    ensures var t := Run(alive, s, schedule);
            && |t.workers| == |s.workers|
            && (Final(t.workers[i].pc) || LeftInAll(t.workers[i]) + Turns(schedule, i) <= 90)
            && (Turns(schedule, i) >= 90 ==> Final(t.workers[i].pc))
  {
    SameWorkers(alive, s, schedule);
    TempsAreRemoved(alive, s, schedule);
    var t := Run(alive, s, schedule);
    assert t.workers[i].attempt < 10;
    if schedule != [] {
      var before := schedule[..|schedule| - 1];
      NinetyTurnsEnd(alive, s, before, i);
      TempsAreRemoved(alive, s, before);
      var u := Run(alive, s, before);
      CallShortensAll(alive, u.file, u.workers[i]);
    }
    assert !Final(t.workers[i].pc) ==> LeftInAll(t.workers[i]) > 0;
  }

  // ---- the read-back, when it does tell the loser --------------------------------------------------

  lemma SixOf(alive: set<int>, s: System, i: nat)
    ensures Run(alive, s, [i, i, i, i, i, i]) == Run(alive, Step(alive, s, i), [i, i, i, i, i])
    ensures Run(alive, s, [i, i, i]) == Step(alive, Step(alive, Step(alive, s, i), i), i)
    ensures Run(alive, s, [i]) == Step(alive, s, i)
  {
    RunConcat(alive, s, [i], [i, i, i, i, i]);
    assert [i] + [i, i, i, i, i] == [i, i, i, i, i, i];
    assert [i, i, i][..2] == [i, i] && [i, i][..1] == [i] && [i][..0] == [];
    assert Run(alive, s, [i]) == Step(alive, Run(alive, s, []), i);
    assert Run(alive, s, [i, i]) == Step(alive, Run(alive, s, [i]), i);
  }

  /** A worker that reads another suite's lock back does not return: it tries again, and is refused when
      that suite is alive. At its tenth attempt it gives up. */
  lemma TheLoserTriesAgain(alive: set<int>, s: System, i: nat)
    requires i < |s.workers| && s.workers[i].pc == ReadBack && s.workers[i].attempt < 10
    requires s.file.Held? && s.file.lock.suite != s.workers[i].want.suite && s.file.lock.pid in alive
    ensures var t := Run(alive, s, [i]);
            && t.file == s.file && |t.workers| == |s.workers|
            && t.workers[i].pc == if s.workers[i].attempt == 9 then GaveUp else Begin
    ensures s.workers[i].attempt < 9 ==>
              var t := Run(alive, s, [i, i, i, i, i, i]);
              t.file == s.file && |t.workers| == |s.workers| && t.workers[i].pc == Refused
  {
    SixOf(alive, s, i);
    if s.workers[i].attempt < 9 { FiveCalls(alive, Step(alive, s, i), i); }
  }

  /** Both suites judge a gone lock, one renames, the other renames, and the first reads back. */
  function OneReadsBackLast(i: nat, j: nat): seq<nat> {
    [i, i, i, i, i] + [j, j, j, j, j] + [i, i, i] + [j, j, j]
  }

  lemma ThreeCallsOver(alive: set<int>, s: System, i: nat)
    requires i < |s.workers| && s.workers[i].pc == TakingOver
    ensures Run(alive, s, [i, i, i]) ==
            System(Held(s.workers[i].want), s.workers[i := s.workers[i].(pc := ReadBack, tmp := Absent)], s.writes + 1)
  {
    SixOf(alive, s, i);
    assert Run(alive, s, [i, i, i]).workers == s.workers[i := s.workers[i].(pc := ReadBack, tmp := Absent)];
  }

  /** In this interleaving the read-back tells the loser: it is refused, and the other suite returns. */
  lemma TheLoserIsTold(alive: set<int>, s: System, i: nat, j: nat)
    requires Initial(alive, s) && Gone(alive, s.file) && i < |s.workers| && j < |s.workers| && i != j
    requires s.workers[i].want.suite != s.workers[j].want.suite
    requires s.file.Held? ==> s.file.lock.suite !in {s.workers[i].want.suite, s.workers[j].want.suite}
    ensures var t := Run(alive, s, OneReadsBackLast(i, j) + [i, i, i, i, i, i] + [j]);
            && |t.workers| == |s.workers| && t.file == Held(s.workers[j].want)
            && t.workers[i].pc == Refused && t.workers[j].pc == Returned
  {
    var a := Run(alive, s, [i, i, i, i, i]);
    FiveCalls(alive, s, i);
    var b := Run(alive, a, [j, j, j, j, j]);
    FiveCalls(alive, a, j);
    assert b.workers[i].pc == TakingOver && b.workers[j].pc == TakingOver;
    var c := Run(alive, b, [i, i, i]);
    ThreeCallsOver(alive, b, i);
    var d := Run(alive, c, [j, j, j]);
    ThreeCallsOver(alive, c, j);
    assert d.workers[i].pc == ReadBack && d.workers[i].attempt == 0 && d.file == Held(s.workers[j].want);
    RunConcat(alive, s, [i, i, i, i, i], [j, j, j, j, j]);
    RunConcat(alive, s, [i, i, i, i, i] + [j, j, j, j, j], [i, i, i]);
    RunConcat(alive, s, [i, i, i, i, i] + [j, j, j, j, j] + [i, i, i], [j, j, j]);
    LoserThenWinner(alive, d, i, j);
    RunConcat(alive, s, OneReadsBackLast(i, j), [i, i, i, i, i, i]);
    RunConcat(alive, s, OneReadsBackLast(i, j) + [i, i, i, i, i, i], [j]);
  }

  lemma LoserThenWinner(alive: set<int>, s: System, i: nat, j: nat)
    requires i < |s.workers| && j < |s.workers| && i != j && s.workers[i].pc == ReadBack && s.workers[j].pc == ReadBack
    requires s.workers[i].attempt == 0 && s.file == Held(s.workers[j].want) && s.workers[j].want.pid in alive
    requires s.workers[i].want.suite != s.workers[j].want.suite
    ensures var t := Run(alive, Run(alive, s, [i, i, i, i, i, i]), [j]);
            && |t.workers| == |s.workers| && t.file == s.file
            && t.workers[i].pc == Refused && t.workers[j].pc == Returned
  {
    SixOf(alive, s, i);
    var told := Step(alive, s, i);
    FiveCalls(alive, told, i);
    var t := Run(alive, s, [i, i, i, i, i, i]);
    assert t.workers[j] == s.workers[j] && t.workers[i].pc == Refused && t.file == s.file;
    SixOf(alive, t, j);
  }
}
