/**
 * The pool of workers that runs one claim's trials and replaces void ones
 * (features/steps/model.steps.ts, runTrials).
 *
 * A worker's code between two awaits is one step: a trial that ends is recorded, and its worker
 * takes the next trial or stops, before any other worker runs. An event of a schedule says which
 * worker's trial ended and how; an event of a worker that is not in a trial is no event.
 */
module Trials {

  /** What a driver returned, and what the trial spent (`U`, the usage or its absence). */
  datatype Ended<U> = Ended(runId: string, isVoid: bool, usage: U)

  datatype Worker = InTrial(index: int) | Stopped

  datatype Event<U> = Event(worker: nat, ended: Ended<U>)

  /** The variables the workers share. `ended` is a history variable: every trial that ended. */
  datatype Pool<U> = Pool(next: int, replacements: nat, results: seq<Ended<U>>, spent: seq<U>,
                          workers: seq<Worker>, ended: seq<Ended<U>>)

  function Min(a: int, b: int): int { if a < b then a else b }

  function Max(a: int, b: int): int { if a < b then b else a }

  /** How many workers start: at least one, whatever the profile says. */
  function Width(n: nat, parallel: int): (w: nat) { Max(1, Min(parallel, n)) }

  /** How many void trials are replaced over the whole claim, `ceil(n / 2)`. */
  function Budget(n: nat): nat { (n + 1) / 2 }

  // ---- the steps ---------------------------------------------------------------------------------

  /** The head of a worker's loop: take the next trial, or stop. */
  function Take<U>(n: nat, p: Pool<U>, w: nat): Pool<U>
    requires w < |p.workers|
  {
    if p.next < n then p.(next := p.next + 1, workers := p.workers[w := InTrial(p.next)])
    else p.(workers := p.workers[w := Stopped])
  }

  /** Start `count` workers, each up to its first await. */
  function Launch<U>(n: nat, p: Pool<U>, count: nat): Pool<U>
    decreases count
  {
    if count == 0 then p
    else
      var q := Launch(n, p, count - 1);
      Take(n, q.(workers := q.workers + [Stopped]), |q.workers|)
  }

  function Start<U>(n: nat, parallel: int): Pool<U> {
    Launch(n, Pool(0, Budget(n), [], [], [], []), Width(n, parallel))
  }

  function Step<U>(n: nat, p: Pool<U>, e: Event<U>): Pool<U> {
    if e.worker >= |p.workers| || p.workers[e.worker].Stopped? then p
    else
      var q := p.(spent := p.spent + [e.ended.usage], ended := p.ended + [e.ended]);
      if e.ended.isVoid && q.replacements > 0
      then Take(n, q.(replacements := q.replacements - 1, next := q.next - 1), e.worker)
      else Take(n, q.(results := q.results + [e.ended]), e.worker)
  }

  function Run<U>(n: nat, parallel: int, events: seq<Event<U>>): Pool<U> {
    if events == [] then Start(n, parallel)
    else Step(n, Run(n, parallel, events[..|events| - 1]), events[|events| - 1])
  }

  // ---- the reference -----------------------------------------------------------------------------

  function InFlight(workers: seq<Worker>): nat {
    if workers == [] then 0
    else InFlight(workers[..|workers| - 1]) + (if workers[|workers| - 1].InTrial? then 1 else 0)
  }

  function Voids<U>(ended: seq<Ended<U>>): nat {
    if ended == [] then 0
    else Voids(ended[1..]) + (if ended[0].isVoid then 1 else 0)
  }

  /** What a claim is measured on: every trial but the first `budget` void ones, in order. */
  function Kept<U>(ended: seq<Ended<U>>, budget: nat): seq<Ended<U>> {
    if ended == [] then []
    else if ended[0].isVoid && budget > 0 then Kept(ended[1..], budget - 1)
    else [ended[0]] + Kept(ended[1..], budget)
  }

  function Usages<U>(ended: seq<Ended<U>>): seq<U> {
    seq(|ended|, i requires 0 <= i < |ended| => ended[i].usage)
  }

  /** The trials in flight: as many as the width and the work left allow. */
  ghost predicate Flies<U>(n: nat, width: nat, p: Pool<U>) {
    && |p.workers| == width
    && p.next == |p.results| + InFlight(p.workers)
    && |p.results| <= n
    && InFlight(p.workers) == Min(width, n - |p.results|)
  }

  /** The trials that ended: which are kept, how many were replaced, and what was spent. */
  ghost predicate Accounts<U>(budget: nat, p: Pool<U>) {
    && p.replacements + Min(Voids(p.ended), budget) == budget
    && p.results == Kept(p.ended, budget)
    && p.spent == Usages(p.ended)
    && |p.ended| == |p.results| + (budget - p.replacements)
  }

  /** What holds of the pool at every await. */
  ghost predicate Balanced<U>(n: nat, parallel: int, p: Pool<U>) {
    Flies(n, Width(n, parallel), p) && Accounts(Budget(n), p)
  }

  // ---- lemmas about the reference ----------------------------------------------------------------

  lemma {:induction false} InFlightUpdate(ws: seq<Worker>, k: nat, w: Worker)
    requires k < |ws|
    ensures InFlight(ws[k := w]) ==
            InFlight(ws) - (if ws[k].InTrial? then 1 else 0) + (if w.InTrial? then 1 else 0)
  {
    var last := |ws| - 1;
    if k < last {
      assert ws[k := w][..last] == ws[..last][k := w];
      InFlightUpdate(ws[..last], k, w);
    } else {
      assert ws[k := w][..last] == ws[..last];
    }
  }

  lemma {:induction false} SomeInFlight(ws: seq<Worker>)
    ensures InFlight(ws) <= |ws|
    ensures InFlight(ws) > 0 <==> exists k :: 0 <= k < |ws| && ws[k].InTrial?
  {
    if ws != [] {
      var last := |ws| - 1;
      SomeInFlight(ws[..last]);
      if InFlight(ws[..last]) > 0 {
        var k :| 0 <= k < last && ws[..last][k].InTrial?;
        assert ws[k].InTrial?;
      }
      if k :| 0 <= k < |ws| && ws[k].InTrial? {
        assert k < last ==> ws[..last][k].InTrial?;
      }
    }
  }

  lemma {:induction false} KeptAppend<U>(ended: seq<Ended<U>>, e: Ended<U>, budget: nat)
    ensures Voids(ended + [e]) == Voids(ended) + (if e.isVoid then 1 else 0)
    ensures Kept(ended + [e], budget) ==
            Kept(ended, budget) + (if e.isVoid && Voids(ended) < budget then [] else [e])
  {
    if ended == [] {
      assert [] + [e] == [e];
      assert [e][1..] == [];
    } else {
      assert (ended + [e])[1..] == ended[1..] + [e];
      var rest := if ended[0].isVoid && budget > 0 then budget - 1 else budget;
      KeptAppend(ended[1..], e, rest);
    }
  }

  /** A void trial is kept only past the budget: the first `budget` void ones are the replaced ones. */
  lemma {:induction false} KeptVoidIsPastTheBudget<U>(ended: seq<Ended<U>>, budget: nat, k: nat)
    requires k < |Kept(ended, budget)| && Kept(ended, budget)[k].isVoid
    ensures Voids(ended) > budget
  {
    if ended[0].isVoid && budget > 0 {
      KeptVoidIsPastTheBudget(ended[1..], budget - 1, k);
    } else if k > 0 {
      KeptVoidIsPastTheBudget(ended[1..], budget, k - 1);
    }
  }

  // ---- every run ---------------------------------------------------------------------------------

  /** One more worker takes a trial, if there is one left. */
  lemma LaunchOne<U>(n: nat, q: Pool<U>)
    requires q.next == InFlight(q.workers) == Min(|q.workers|, n)
    ensures var t := Take(n, q.(workers := q.workers + [Stopped]), |q.workers|);
            && t == q.(next := t.next, workers := t.workers) && |t.workers| == |q.workers| + 1
            && t.next == InFlight(t.workers) == Min(|t.workers|, n)
  {
    var grown := q.workers + [Stopped];
    assert grown[..|q.workers|] == q.workers;
    InFlightUpdate(grown, |q.workers|, InTrial(q.next));
    InFlightUpdate(grown, |q.workers|, Stopped);
  }

  lemma {:induction false} LaunchFills<U>(n: nat, p: Pool<U>, count: nat)
    requires p.workers == [] && p.next == 0
    ensures var q := Launch(n, p, count);
            q == p.(next := q.next, workers := q.workers) && |q.workers| == count
            && q.next == InFlight(q.workers) == Min(count, n)
  {
    if count > 0 {
      LaunchFills(n, p, count - 1);
      LaunchOne(n, Launch(n, p, count - 1));
    }
  }

  /** Taking the next trial after one ended leaves as many in flight as the work left allows. */
  lemma TakeKeepsFlight<U>(n: nat, p: Pool<U>, w: nat, width: nat, results: nat)
    requires w < |p.workers| && p.workers[w].InTrial?
    requires width == |p.workers|
    requires p.next == results + InFlight(p.workers) - 1
    requires results <= n && InFlight(p.workers) - 1 <= n - results
    requires InFlight(p.workers) == Min(width, n - results) || InFlight(p.workers) == Min(width, n - results + 1)
    ensures var q := Take(n, p, w);
            && q == p.(next := q.next, workers := q.workers)
            && |q.workers| == width
            && InFlight(q.workers) == Min(width, n - results)
            && q.next == results + InFlight(q.workers)
  {
    InFlightUpdate(p.workers, w, InTrial(p.next));
    InFlightUpdate(p.workers, w, Stopped);
    SomeInFlight(p.workers);
  }

  lemma StepFlies<U>(n: nat, width: nat, p: Pool<U>, e: Event<U>)
    requires Flies(n, width, p)
    ensures Flies(n, width, Step(n, p, e))
  {
    if e.worker < |p.workers| && p.workers[e.worker].InTrial? {
      SomeInFlight(p.workers);
      var q := p.(spent := p.spent + [e.ended.usage], ended := p.ended + [e.ended]);
      if e.ended.isVoid && p.replacements > 0 {
        TakeKeepsFlight(n, q.(replacements := p.replacements - 1, next := p.next - 1), e.worker,
                        width, |p.results|);
      } else {
        TakeKeepsFlight(n, q.(results := p.results + [e.ended]), e.worker, width, |p.results| + 1);
      }
    }
  }

  lemma StepAccounts<U>(n: nat, budget: nat, p: Pool<U>, e: Event<U>)
    requires Accounts(budget, p)
    ensures Accounts(budget, Step(n, p, e))
  {
    KeptAppend(p.ended, e.ended, budget);
    assert Usages(p.ended + [e.ended]) == Usages(p.ended) + [e.ended.usage];
  }

  lemma StepBalanced<U>(n: nat, parallel: int, p: Pool<U>, e: Event<U>)
    requires Balanced(n, parallel, p)
    ensures Balanced(n, parallel, Step(n, p, e))
  {
    StepFlies(n, Width(n, parallel), p, e);
    StepAccounts(n, Budget(n), p, e);
  }

  /**
   * The pool's law over every interleaving: `next` counts the kept results and the trials in
   * flight; exactly as many trials are in flight as the width and the work left allow; the results
   * are the ended trials without the first `ceil(n / 2)` void ones; every ended trial's usage is
   * spent once, in order.
   */
  lemma {:induction false} AlwaysBalanced<U>(n: nat, parallel: int, events: seq<Event<U>>)
    ensures Balanced(n, parallel, Run(n, parallel, events))
  {
    if events == [] {
      LaunchFills<U>(n, Pool(0, Budget(n), [], [], [], []), Width(n, parallel));
    } else {
      AlwaysBalanced(n, parallel, events[..|events| - 1]);
      StepBalanced(n, parallel, Run(n, parallel, events[..|events| - 1]), events[|events| - 1]);
    }
  }

  /** Every interleaving stays within the bounds, and no void trial is kept while one can be replaced. */
  lemma PoolBounds<U>(n: nat, parallel: int, events: seq<Event<U>>)
    ensures var p := Run(n, parallel, events);
            var replaced := |p.ended| - |p.results|;
            && (InFlight(p.workers) <= 1 || InFlight(p.workers) <= parallel) && InFlight(p.workers) <= n
            && 0 <= replaced <= Voids(p.ended) && 2 * replaced <= n + 1
            && (replaced < Voids(p.ended) ==> 2 * replaced >= n)
            && |p.spent| == |p.ended| <= n + Budget(n)
            && Budget(n) - p.replacements == replaced == Min(Voids(p.ended), Budget(n))
            && InFlight(p.workers) == Min(Max(1, Min(parallel, n)), n - |p.results|)
            && ((exists k :: 0 <= k < |p.results| && p.results[k].isVoid) ==> 2 * replaced >= n && p.replacements == 0)
  {
    AlwaysBalanced(n, parallel, events);
    var p := Run(n, parallel, events);
    if k :| 0 <= k < |p.results| && p.results[k].isVoid {
      KeptVoidIsPastTheBudget(p.ended, Budget(n), k);
    }
  }

  /** The pool ends (every worker stopped) exactly when it has `n` results, and then `spent` holds
      one usage for each of them and for each replaced trial. */
  lemma PoolEndsWithExactlyN<U>(n: nat, parallel: int, events: seq<Event<U>>)
    ensures var p := Run(n, parallel, events);
            && ((forall k :: 0 <= k < |p.workers| ==> p.workers[k].Stopped?) <==> |p.results| == n)
            && (|p.results| == n ==> |p.spent| == n + Min(Voids(p.ended), Budget(n)) && 2 * |p.spent| <= 3 * n + 1)
  {
    AlwaysBalanced(n, parallel, events);
    SomeInFlight(Run(n, parallel, events).workers);
  }

  /** A worker in a trial is never stuck: its end either adds a result or uses one replacement up. */
  lemma EveryEndIsProgress<U>(n: nat, parallel: int, events: seq<Event<U>>, e: Event<U>)
    requires var p := Run(n, parallel, events); e.worker < |p.workers| && p.workers[e.worker].InTrial?
    ensures var p := Run(n, parallel, events);
            var q := Run(n, parallel, events + [e]);
            (n - |q.results|) + q.replacements == (n - |p.results|) + p.replacements - 1
  {
    assert (events + [e])[..|events|] == events;
    AlwaysBalanced(n, parallel, events);
    SomeInFlight(Run(n, parallel, events).workers);
  }

  // ---- the pool itself ---------------------------------------------------------------------------

  /** A worker from the end of its trial to its next await. */
  method EndTrial<U>(n: nat, e: Event<U>, next: int, replacements: nat, results: seq<Ended<U>>, spent: seq<U>,
                     workers: seq<Worker>, ghost ended: seq<Ended<U>>)
    returns (next': int, replacements': nat, results': seq<Ended<U>>, spent': seq<U>, workers': seq<Worker>)
    requires e.worker < |workers| && workers[e.worker].InTrial?
    ensures Pool(next', replacements', results', spent', workers', ended + [e.ended])
         == Step(n, Pool(next, replacements, results, spent, workers, ended), e)
  {
    next', replacements', results', workers' := next, replacements, results, workers;
    spent' := spent + [e.ended.usage];
    if e.ended.isVoid && replacements > 0 {
      replacements' := replacements' - 1;
      next' := next' - 1;
    } else {
      results' := results' + [e.ended];
    }
    if next' < n {
      workers' := workers'[e.worker := InTrial(next')];
      next' := next' + 1;
    } else {
      workers' := workers'[e.worker := Stopped];
    }
  }

  /** The pool, its shared variables updated in place; `events` is what the drivers do. `done` says
      that every worker stopped, so the pool's promise resolves. */
  method RunTrials<U>(n: nat, parallel: int, events: seq<Event<U>>)
    returns (results: seq<Ended<U>>, spent: seq<U>, done: bool)
    ensures var p := Run(n, parallel, events); results == p.results && spent == p.spent
    ensures done <==> |results| == n
    ensures done ==> n <= |spent| <= n + Budget(n)
  {
    results, spent := [], [];
    var next := 0;
    var replacements := Budget(n);
    var workers: seq<Worker> := [];
    ghost var ended: seq<Ended<U>> := [];
    for k := 0 to Width(n, parallel)
      invariant Pool(next, replacements, results, spent, workers, ended)
             == Launch(n, Pool(0, Budget(n), [], [], [], []), k)
      invariant |workers| == k
    {
      if next < n {
        workers := workers + [InTrial(next)];
        next := next + 1;
      } else {
        workers := workers + [Stopped];
      }
      LaunchFills<U>(n, Pool(0, Budget(n), [], [], [], []), k);
    }
    for k := 0 to |events|
      invariant Pool(next, replacements, results, spent, workers, ended)
             == Run(n, parallel, events[..k])
    {
      assert events[..k + 1][..k] == events[..k];
      var e := events[k];
      if e.worker < |workers| && workers[e.worker].InTrial? {
        next, replacements, results, spent, workers :=
          EndTrial(n, e, next, replacements, results, spent, workers, ended);
        ended := ended + [e.ended];
      }
    }
    assert events[..|events|] == events;
    AlwaysBalanced(n, parallel, events);
    PoolEndsWithExactlyN(n, parallel, events);
    done := forall k :: 0 <= k < |workers| ==> workers[k].Stopped?;
  }

  /** Without a void trial, the pool of every width runs each of the `n` trials once: as long as a trial is
      in flight, its end is kept. */
  lemma {:induction false} AllAreKept<U>(n: nat, parallel: int, events: seq<Event<U>>)
    requires forall k :: 0 <= k < |events| ==> !events[k].ended.isVoid
    ensures var p := Run(n, parallel, events); p.results == p.ended && Voids(p.ended) == 0
  {
    AlwaysBalanced(n, parallel, events);
    if events != [] {
      AllAreKept(n, parallel, events[..|events| - 1]);
      var p := Run(n, parallel, events[..|events| - 1]);
      KeptAppend(p.ended, events[|events| - 1].ended, Budget(n));
    } else {
      LaunchFills<U>(n, Pool(0, Budget(n), [], [], [], []), Width(n, parallel));
    }
  }
}
