/**
 * The scorecard: many processes merge cells into one file, under a lock file
 * (features/lib/model-scorecard.ts, staleOwner, withLock, readCard, mergeCell).
 *
 * A call of `mergeCell` is a small machine that makes one file-system call at a time. A run is a list
 * of actions: a call makes its next file-system call, its work inside the lock fails, time passes,
 * or a process dies. The theorems hold for every run, of any number of calls, that meets a named
 * hypothesis. `log` is a history variable: the calls that renamed their card into place, in order.
 */
module Scorecard {
  import opened Wrappers

  datatype Cell = Cell(passed: int, trials: int, at: string)

  type Card = map<string, map<string, Cell>>

  datatype Update = Update(model: string, cell: string, value: Cell)

  /** `card[model] ??= {}` and then `card[model][cell] = value`. */
  function Merge(card: Card, u: Update): Card {
    card[u.model := (if u.model in card then card[u.model] else map[])[u.cell := u.value]]
  }

  /** A file as a reader finds it: none, a whole card, or a text that does not parse (half a write is
      such a text). */
  datatype CardFile = NoCard | Whole(card: Card) | Unreadable(text: string)

  /** What `readCard` answers. */
  function View(f: CardFile): Card {
    if f.Whole? then f.card else map[]
  }

  /** The lock file's text: none written yet (or none that names an owner), or `<pid> <ms> <nonce>`. */
  datatype LockText = Blank | Owned(pid: int, at: int, nonce: nat)

  /** `creator` is which call made the file: the identity of the file behind the name. */
  datatype LockFile = LockFile(text: LockText, mtime: int, creator: nat)

  predicate StaleOwner(text: LockText, mtime: int, now: int, staleMs: nat, alive: set<int>) {
    match text
    case Blank => now - mtime > staleMs
    case Owned(pid, at, _) => if pid <= 0 then now - mtime > staleMs else pid !in alive || now - at > staleMs
  }

  datatype Pc =
    | Idle                                    // not called yet
    | Trying                                  // about to create the lock, exclusively
    | Created                                 // the lock is there, its text is not
    | Contended                               // the lock was there: about to read it
    | Seen(held: LockText)                    // about to stat it
    | Statted(held: LockText, mtime: int)     // about to judge its owner
    | Doubted(held: LockText)                 // stale: about to read it again
    | Condemned(held: LockText)               // the same text: about to unlink it
    | Patient                                 // not stale: wait, or give up at the deadline
    | Reading                                 // inside: about to read the card
    | Moving                                  // inside: the card does not parse, about to move it aside
    | Merging(card: Card)                     // inside: about to open the temporary file
    | TempTorn(card: Card)                    // inside: the temporary file is half written
    | TempWhole(card: Card)                   // inside: about to rename it over the card
    | Leaving(ok: bool)                       // about to read the lock before its release
    | Releasing(ok: bool)                     // the lock holds this call's text: about to unlink it
    | Finished(ok: bool)
    | TimedOut

  /** A call: its process, its random nonce, when it was made, its cell, and its own temporary file. */
  datatype Proc = Proc(pid: int, nonce: nat, at: int, update: Update, pc: Pc, temp: CardFile)

  datatype Sys = Sys(now: int, alive: set<int>, lock: Option<LockFile>, card: CardFile, aside: seq<CardFile>,
                     procs: seq<Proc>, log: seq<nat>)

  datatype Action = Act(i: nat) | Fail(i: nat) | Pass(ms: nat) | Die(pid: int)

  /** `staleMs` and `waitMs` of withLock, the same for every call. */
  datatype Config = Config(staleMs: nat, waitMs: nat)

  /** The defaults `mergeCell` runs with. */
  const DEFAULTS := Config(30_000, 60_000)

  function Mine(p: Proc): LockText { Owned(p.pid, p.at, p.nonce) }

  predicate Inside(pc: Pc) {
    pc.Reading? || pc.Moving? || pc.Merging? || pc.TempTorn? || pc.TempWhole?
  }

  predicate Holding(pc: Pc) {
    pc.Created? || Inside(pc) || pc.Leaving? || pc.Releasing?
  }

  // ---- the steps ---------------------------------------------------------------------------------

  function Put(s: Sys, i: nat, p: Proc): Sys
    requires i < |s.procs|
  {
    s.(procs := s.procs[i := p])
  }

  /** The calls of withLock's loop, up to the lock or the deadline. */
  function Acquire(cfg: Config, s: Sys, i: nat): Sys
    requires i < |s.procs|
  {
    var p := s.procs[i];
    match p.pc
    case Idle => Put(s, i, p.(pc := Trying, at := s.now))
    case Trying =>
      if s.lock.None? then Put(s, i, p.(pc := Created)).(lock := Some(LockFile(Blank, s.now, i)))
      else Put(s, i, p.(pc := Contended))
    case Created =>
      // The text goes to the file this call made, whether or not the name still leads to it.
      var t := Put(s, i, p.(pc := Reading));
      if s.lock.Some? && s.lock.value.creator == i then t.(lock := Some(LockFile(Mine(p), s.now, i))) else t
    case Contended =>
      if s.lock.Some? then Put(s, i, p.(pc := Seen(s.lock.value.text))) else Put(s, i, p.(pc := Patient))
    case Seen(held) =>
      Put(s, i, p.(pc := Statted(held, if s.lock.Some? then s.lock.value.mtime else s.now)))
    case Statted(held, mtime) =>
      if StaleOwner(held, mtime, s.now, cfg.staleMs, s.alive) then Put(s, i, p.(pc := Doubted(held)))
      else Put(s, i, p.(pc := Patient))
    case Doubted(held) =>
      if s.lock.Some? && s.lock.value.text == held then Put(s, i, p.(pc := Condemned(held)))
      else Put(s, i, p.(pc := Trying))
    case Condemned(_) => Put(s, i, p.(pc := Trying)).(lock := None)
    case Patient => Put(s, i, p.(pc := if s.now > p.at + cfg.waitMs then TimedOut else Trying))
    case _ => s
  }

  /** The calls of mergeCell inside the lock, and the release. */
  function Work(s: Sys, i: nat): Sys
    requires i < |s.procs|
  {
    var p := s.procs[i];
    match p.pc
    case Reading =>
      if s.card.Unreadable? then Put(s, i, p.(pc := Moving))
      else Put(s, i, p.(pc := Merging(Merge(View(s.card), p.update))))
    case Moving =>
      if s.card.NoCard? then Put(s, i, p.(pc := Leaving(false)))
      else Put(s, i, p.(pc := Merging(Merge(map[], p.update)))).(card := NoCard, aside := s.aside + [s.card])
    case Merging(card) => Put(s, i, p.(pc := TempTorn(card), temp := Unreadable("")))
    case TempTorn(card) => Put(s, i, p.(pc := TempWhole(card), temp := Whole(card)))
    case TempWhole(_) => Put(s, i, p.(pc := Leaving(true), temp := NoCard)).(card := p.temp, log := s.log + [i])
    case Leaving(ok) =>
      Put(s, i, p.(pc := if s.lock.Some? && s.lock.value.text == Mine(p) then Releasing(ok) else Finished(ok)))
    case Releasing(ok) => Put(s, i, p.(pc := Finished(ok))).(lock := None)
    case _ => s
  }

  predicate Live(s: Sys, i: nat) {
    i < |s.procs| && s.procs[i].pid in s.alive
  }

  function Next(cfg: Config, s: Sys, a: Action): Sys {
    match a
    case Act(i) =>
      if !Live(s, i) then s
      else if Inside(s.procs[i].pc) || s.procs[i].pc.Leaving? || s.procs[i].pc.Releasing? then Work(s, i)
      else Acquire(cfg, s, i)
    case Fail(i) =>
      if Live(s, i) && Inside(s.procs[i].pc) then Put(s, i, s.procs[i].(pc := Leaving(false))) else s
    case Pass(ms) => s.(now := s.now + ms)
    case Die(pid) => s.(alive := s.alive - {pid})
  }

  function Run(cfg: Config, s: Sys, acts: seq<Action>): Sys {
    if acts == [] then s else Next(cfg, Run(cfg, s, acts[..|acts| - 1]), acts[|acts| - 1])
  }

  /** Any number of calls, not made yet, with unique nonces; no lock; any card. */
  ghost predicate Initial(s: Sys) {
    && s.lock.None? && s.aside == [] && s.log == []
    && (forall i :: 0 <= i < |s.procs| ==> s.procs[i].pid > 0 && s.procs[i].pc == Idle && s.procs[i].temp == NoCard)
    && UniqueNonces(s)
  }

  ghost predicate UniqueNonces(s: Sys) {
    forall i, j :: 0 <= i < j < |s.procs| ==> s.procs[i].nonce != s.procs[j].nonce
  }

  predicate InsideLive(s: Sys, i: nat) {
    Live(s, i) && Inside(s.procs[i].pc)
  }

  /** At most one live process is inside the lock. */
  ghost predicate Alone(s: Sys) {
    forall i, j :: InsideLive(s, i) && InsideLive(s, j) ==> i == j
  }

  // ---- the card, while one process is inside at a time ---------------------------------------------

  /** The base card with the merges of `log`, in order. */
  function Applied(procs: seq<Proc>, base: Card, log: seq<nat>): Card {
    if log == [] then base
    else
      var before := Applied(procs, base, log[..|log| - 1]);
      var i := log[|log| - 1];
      if i < |procs| then Merge(before, procs[i].update) else before
  }

  /** What a live call inside the lock has read is what the card still holds. */
  predicate UpToDate(s: Sys, i: nat)
    requires i < |s.procs|
  {
    var p := s.procs[i];
    match p.pc
    case Moving => s.card.Unreadable?
    case Merging(c) => !s.card.Unreadable? && c == Merge(View(s.card), p.update)
    case TempTorn(c) => !s.card.Unreadable? && c == Merge(View(s.card), p.update)
    case TempWhole(c) => !s.card.Unreadable? && c == Merge(View(s.card), p.update) && p.temp == Whole(c)
    case _ => true
  }

  predicate Renamed(pc: Pc) {
    (pc.Leaving? || pc.Releasing? || pc.Finished?) && pc.ok
  }

  /** The card is the base card with the merges of the log, and is unreadable only if it was so before
      any merge; then the unreadable text is moved aside, and never lost. */
  ghost predicate ValueInv(base: CardFile, s: Sys) {
    && View(s.card) == Applied(s.procs, View(base), s.log)
    && (s.card.Unreadable? ==> s.card == base && s.log == [])
    && (if base.Unreadable? && s.card != base then s.aside == [base] else s.aside == [])
  }

  ghost predicate ReadInv(s: Sys) {
    forall i :: 0 <= i < |s.procs| && Live(s, i) ==> UpToDate(s, i)
  }

  /** The log holds the calls that renamed their card, each once. */
  ghost predicate LogInv(s: Sys) {
    && (forall i :: 0 <= i < |s.procs| ==> (i in s.log <==> Renamed(s.procs[i].pc)))
    && (forall k :: 0 <= k < |s.log| ==> s.log[k] < |s.procs|)
    && (forall k, l :: 0 <= k < l < |s.log| ==> s.log[k] != s.log[l])
  }

  ghost predicate CardInv(base: CardFile, s: Sys) {
    ValueInv(base, s) && ReadInv(s) && LogInv(s)
  }

  lemma {:induction false} AppliedFrame(a: seq<Proc>, b: seq<Proc>, base: Card, log: seq<nat>)
    requires |a| == |b| && forall i :: 0 <= i < |a| ==> a[i].update == b[i].update
    ensures Applied(a, base, log) == Applied(b, base, log)
  {
    if log != [] { AppliedFrame(a, b, base, log[..|log| - 1]); }
  }

  lemma StepUpdates(cfg: Config, s: Sys, a: Action)
    ensures var t := Next(cfg, s, a);
            |t.procs| == |s.procs|
            && forall i :: 0 <= i < |s.procs| ==>
                 && t.procs[i].update == s.procs[i].update && t.procs[i].nonce == s.procs[i].nonce
                 && t.procs[i].pid == s.procs[i].pid
                 && (s.procs[i].pc != Idle ==> t.procs[i].at == s.procs[i].at)
  {
  }

  /** Acquiring moves neither the card nor the log, and takes no call inside with a card it read. */
  lemma AcquireFrame(cfg: Config, s: Sys, i: nat)
    requires i < |s.procs| && !Inside(s.procs[i].pc) && !s.procs[i].pc.Leaving? && !s.procs[i].pc.Releasing?
    ensures var t := Acquire(cfg, s, i);
            && t == s.(lock := t.lock, procs := t.procs)
            && t.procs == s.procs[i := t.procs[i]]
            && (t.procs[i].pc.Finished? <==> s.procs[i].pc.Finished?)
            && (s.procs[i].pc.Finished? ==> t == s)
            && (Holding(t.procs[i].pc) ==> t.procs[i].pc.Created? || t.procs[i].pc.Reading?)
  {
  }

  lemma LogStep(cfg: Config, s: Sys, a: Action)
    requires LogInv(s)
    ensures LogInv(Next(cfg, s, a))
  {
    if a.Act? && Live(s, a.i) {
      if Inside(s.procs[a.i].pc) || s.procs[a.i].pc.Leaving? || s.procs[a.i].pc.Releasing? {
        LogWork(s, a.i);
      } else {
        AcquireFrame(cfg, s, a.i);
      }
    }
  }

  lemma LogWork(s: Sys, i: nat)
    requires LogInv(s) && i < |s.procs|
    ensures LogInv(Work(s, i))
  {
    var t := Work(s, i);
    if s.procs[i].pc.TempWhole? {
      assert i !in s.log;
      assert t.log == s.log + [i] && t.procs == s.procs[i := t.procs[i]];
    } else {
      assert t.log == s.log && t.procs == s.procs[i := t.procs[i]];
      assert Renamed(t.procs[i].pc) == Renamed(s.procs[i].pc);
    }
  }

  lemma ReadStep(cfg: Config, s: Sys, a: Action)
    requires ReadInv(s) && Alone(s)
    ensures ReadInv(Next(cfg, s, a))
  {
    if a.Act? && Live(s, a.i) {
      if InsideLive(s, a.i) || s.procs[a.i].pc.Leaving? || s.procs[a.i].pc.Releasing? {
        ReadWork(s, a.i);
      } else {
        AcquireFrame(cfg, s, a.i);
        ReadAcquire(cfg, s, a.i);
      }
    } else {
      var t := Next(cfg, s, a);
      forall i | 0 <= i < |t.procs| && Live(t, i)
        ensures UpToDate(t, i)
      {
        assert Live(s, i) && UpToDate(s, i);
      }
    }
  }

  lemma ReadAcquire(cfg: Config, s: Sys, i: nat)
    requires ReadInv(s) && i < |s.procs|
    requires !Inside(s.procs[i].pc) && !s.procs[i].pc.Leaving? && !s.procs[i].pc.Releasing?
    ensures ReadInv(Acquire(cfg, s, i))
  {
    AcquireFrame(cfg, s, i);
    var t := Acquire(cfg, s, i);
    forall j | 0 <= j < |t.procs| && Live(t, j)
      ensures UpToDate(t, j)
    {
      assert Live(s, j) && UpToDate(s, j);
      assert j == i ==> !Inside(t.procs[i].pc) || t.procs[i].pc.Reading?;
    }
  }

  lemma ReadWork(s: Sys, i: nat)
    requires ReadInv(s) && Alone(s) && Live(s, i)
    ensures ReadInv(Work(s, i))
  {
    var t := Work(s, i);
    forall j | 0 <= j < |t.procs| && Live(t, j)
      ensures UpToDate(t, j)
    {
      assert Live(s, j) && UpToDate(s, j);
      if j != i && InsideLive(s, j) && InsideLive(s, i) {
        assert false;
      }
    }
  }

  lemma ValueStep(cfg: Config, base: CardFile, s: Sys, a: Action)
    requires CardInv(base, s)
    ensures ValueInv(base, Next(cfg, s, a))
  {
    StepUpdates(cfg, s, a);
    AppliedFrame(s.procs, Next(cfg, s, a).procs, View(base), s.log);
    if a.Act? && Live(s, a.i) {
      if Inside(s.procs[a.i].pc) || s.procs[a.i].pc.Leaving? || s.procs[a.i].pc.Releasing? {
        ValueWork(base, s, a.i);
      } else {
        AcquireFrame(cfg, s, a.i);
      }
    }
  }

  lemma ValueWork(base: CardFile, s: Sys, i: nat)
    requires ValueInv(base, s) && i < |s.procs| && UpToDate(s, i)
    requires AppliedSame(s, Work(s, i), View(base), s.log)
    ensures ValueInv(base, Work(s, i))
  {
    var t := Work(s, i);
    if s.procs[i].pc.TempWhole? {
      assert t.log[..|t.log| - 1] == s.log && t.log[|t.log| - 1] == i;
      assert t.procs[i].update == s.procs[i].update;
      assert t.card == Whole(Merge(View(s.card), s.procs[i].update));
      assert t.aside == s.aside;
    } else if s.procs[i].pc.Moving? {
      assert t.log == s.log;
    } else {
      assert t.card == s.card && t.log == s.log && t.aside == s.aside;
    }
  }

  predicate AppliedSame(s: Sys, t: Sys, base: Card, log: seq<nat>) {
    Applied(s.procs, base, log) == Applied(t.procs, base, log)
  }

  lemma CardStep(cfg: Config, base: CardFile, s: Sys, a: Action)
    requires CardInv(base, s) && Alone(s)
    ensures CardInv(base, Next(cfg, s, a))
  {
    LogStep(cfg, s, a);
    ReadStep(cfg, s, a);
    ValueStep(cfg, base, s, a);
  }

  /** A run in which at most one live process is inside the lock at every moment. */
  ghost predicate AloneThroughout(cfg: Config, s: Sys, acts: seq<Action>) {
    Alone(Run(cfg, s, acts)) && (acts == [] || AloneThroughout(cfg, s, acts[..|acts| - 1]))
  }

  lemma {:induction false} CardAlways(cfg: Config, s: Sys, acts: seq<Action>)
    requires Initial(s) && (acts == [] || AloneThroughout(cfg, s, acts[..|acts| - 1]))
    ensures CardInv(s.card, Run(cfg, s, acts))
  {
    if acts != [] {
      var before := acts[..|acts| - 1];
      CardAlways(cfg, s, before);
      CardStep(cfg, s.card, Run(cfg, s, before), acts[|acts| - 1]);
    }
  }

  // ---- what a run of merges leaves -----------------------------------------------------------------

  predicate SameCell(u: Update, v: Update) { u.model == v.model && u.cell == v.cell }

  /** The last call of the log that merged the cell of `u`. */
  function LastOf(procs: seq<Proc>, log: seq<nat>, u: Update): Option<nat> {
    if log == [] then None
    else
      var i := log[|log| - 1];
      if i < |procs| && SameCell(procs[i].update, u) then Some(i) else LastOf(procs, log[..|log| - 1], u)
  }

  predicate Holds(card: Card, u: Update) {
    u.model in card && u.cell in card[u.model] && card[u.model][u.cell] == u.value
  }

  lemma {:induction false} LastMergeStands(procs: seq<Proc>, base: Card, log: seq<nat>, i: nat)
    requires i < |procs| && i in log
    ensures var last := LastOf(procs, log, procs[i].update);
            last.Some? && last.value in log && last.value < |procs|
            && SameCell(procs[last.value].update, procs[i].update)
            && Holds(Applied(procs, base, log), procs[last.value].update)
  {
    var n := |log| - 1;
    var j := log[n];
    if j < |procs| && SameCell(procs[j].update, procs[i].update) {
    } else {
      assert log == log[..n] + [j];
      assert i in log[..n];
      LastMergeStands(procs, base, log[..n], i);
    }
  }

  /** A cell that the card holds, or does not hold. */
  function CellAt(card: Card, model: string, cell: string): Option<Cell> {
    if model in card && cell in card[model] then Some(card[model][cell]) else None
  }

  /** A cell that no merge of the log is of stays as the first card has it. */
  lemma {:induction false} OtherCellsStay(procs: seq<Proc>, base: Card, log: seq<nat>, model: string, cell: string)
    requires forall k :: 0 <= k < |log| && log[k] < |procs| ==>
               !(procs[log[k]].update.model == model && procs[log[k]].update.cell == cell)
    ensures CellAt(Applied(procs, base, log), model, cell) == CellAt(base, model, cell)
  {
    if log != [] {
      OtherCellsStay(procs, base, log[..|log| - 1], model, cell);
    }
  }

  /**
   * No lost update. In every run in which at most one live process is inside the lock at a time, the
   * card at every moment is the first card with the merges of the log applied, in the order of their
   * renames; the log holds exactly the calls that renamed, each once; and the cell of each of them
   * holds the value of the last of them that merged it. An unreadable card is moved aside, and a
   * reader never finds another one.
   */
  lemma NoLostUpdate(cfg: Config, s: Sys, acts: seq<Action>)
    requires Initial(s) && (acts == [] || AloneThroughout(cfg, s, acts[..|acts| - 1]))
    ensures var t := Run(cfg, s, acts);
            && View(t.card) == Applied(t.procs, View(s.card), t.log)
            && LogInv(t)
            && (t.card.Unreadable? ==> t.card == s.card && t.log == [])
            && (s.card.Unreadable? ==> t.card == s.card || t.aside == [s.card])
            && forall i :: 0 <= i < |t.procs| && Renamed(t.procs[i].pc) ==>
                 var last := LastOf(t.procs, t.log, t.procs[i].update);
                 last.Some? && last.value < |t.procs| && Renamed(t.procs[last.value].pc)
                 && Holds(View(t.card), t.procs[last.value].update)
                 && SameCell(t.procs[last.value].update, t.procs[i].update)
  {
    CardAlways(cfg, s, acts);
    var t := Run(cfg, s, acts);
    forall i | 0 <= i < |t.procs| && Renamed(t.procs[i].pc)
      ensures var last := LastOf(t.procs, t.log, t.procs[i].update);
              last.Some? && last.value < |t.procs| && Renamed(t.procs[last.value].pc)
              && Holds(View(t.card), t.procs[last.value].update)
              && SameCell(t.procs[last.value].update, t.procs[i].update)
    {
      LastMergeStands(t.procs, View(s.card), t.log, i);
    }
  }

  // ---- runs in which no staleness check succeeds ---------------------------------------------------

  /** No staleness check has succeeded at any moment of the run. */
  ghost predicate Quiet(cfg: Config, s: Sys, acts: seq<Action>) {
    && (forall i :: 0 <= i < |s.procs| ==> !DoubtedNow(Run(cfg, s, acts), i))
    && (acts == [] || Quiet(cfg, s, acts[..|acts| - 1]))
  }

  predicate DoubtedNow(s: Sys, i: nat) {
    i < |s.procs| && s.procs[i].pc.Doubted?
  }

  /** Each call that holds the lock, dead or alive, made the lock file that is there. */
  ghost predicate Owning(s: Sys) {
    forall i :: 0 <= i < |s.procs| ==>
      && (Holding(s.procs[i].pc) ==>
            s.lock.Some? && s.lock.value.creator == i
            && (!s.procs[i].pc.Created? ==> s.lock.value.text == Mine(s.procs[i])))
      && !s.procs[i].pc.Condemned?
  }

  lemma OwningStep(cfg: Config, s: Sys, a: Action)
    requires Owning(s) && forall i :: 0 <= i < |s.procs| ==> !DoubtedNow(s, i)
    ensures Owning(Next(cfg, s, a))
  {
    if a.Act? && Live(s, a.i) {
      assert !DoubtedNow(s, a.i);
      OwningAcquire(cfg, s, a.i);
      OwningWork(s, a.i);
    }
  }

  lemma OwningAcquire(cfg: Config, s: Sys, i: nat)
    requires Owning(s) && i < |s.procs| && !s.procs[i].pc.Doubted?
    ensures Owning(Acquire(cfg, s, i))
  {
  }

  lemma OwningWork(s: Sys, i: nat)
    requires Owning(s) && i < |s.procs|
    ensures Owning(Work(s, i))
  {
  }

  lemma {:induction false} QuietRunsOwn(cfg: Config, s: Sys, acts: seq<Action>)
    requires Initial(s) && Quiet(cfg, s, acts)
    ensures Owning(Run(cfg, s, acts)) && |Run(cfg, s, acts).procs| == |s.procs|
    ensures AloneThroughout(cfg, s, acts)
  {
    if acts != [] {
      var before := acts[..|acts| - 1];
      QuietRunsOwn(cfg, s, before);
      OwningStep(cfg, Run(cfg, s, before), acts[|acts| - 1]);
      StepUpdates(cfg, Run(cfg, s, before), acts[|acts| - 1]);
    }
  }

  /** The call that made the lock that is there holds it. */
  predicate IsHeld(s: Sys) {
    s.lock.Some? ==> s.lock.value.creator < |s.procs| && Holding(s.procs[s.lock.value.creator].pc)
  }

  /** The lock is there only while the call that made it holds it: where no staleness check succeeds, every
      call that comes to its end has released it. */
  lemma {:induction false} QuietLockIsHeld(cfg: Config, s: Sys, acts: seq<Action>)
    requires Initial(s) && Quiet(cfg, s, acts)
    ensures IsHeld(Run(cfg, s, acts))
  {
    QuietRunsOwn(cfg, s, acts);
    if acts != [] {
      var before := acts[..|acts| - 1];
      QuietLockIsHeld(cfg, s, before);
      QuietRunsOwn(cfg, s, before);
      HeldStep(cfg, Run(cfg, s, before), acts[|acts| - 1]);
    }
  }

  lemma HeldStep(cfg: Config, s: Sys, a: Action)
    requires Owning(s) && IsHeld(s)
    ensures IsHeld(Next(cfg, s, a))
  {
  }

  /** With every file-system call a step of its own: where no staleness check succeeds, no update is
      lost, whatever fails or dies. */
  lemma NoLostUpdateWithoutTakeover(cfg: Config, s: Sys, acts: seq<Action>)
    requires Initial(s) && Quiet(cfg, s, acts)
    ensures View(Run(cfg, s, acts).card) == Applied(Run(cfg, s, acts).procs, View(s.card), Run(cfg, s, acts).log)
    ensures LogInv(Run(cfg, s, acts))
    ensures !s.card.Unreadable? ==> !Run(cfg, s, acts).card.Unreadable?
  {
    QuietRunsOwn(cfg, s, acts);
    NoLostUpdate(cfg, s, acts);
  }
}
