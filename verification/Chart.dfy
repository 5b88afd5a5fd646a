/** How the chart-refusal claim reads one trial (features/lib/model-chart.ts), and that the reading is
    what happened. */
module Chart {
  import opened Wrappers
  import opened Answers

  const STALE := "This pick did not run: you sent it before you read the answer to "
  const NOT_KNOWN := "It is not known whether this pick reached the workflow"
  const ADMITTED := {"admitted", "errored"}

  /** Why a trial says nothing about the claim. */
  datatype Why = FirstAdmitted | NoChart | PromptLost | AnswerLost

  datatype Reading = Reading(measured: bool, void: Option<Why>)

  predicate AnswerStarts(a: Answered, opening: string) { a.answer.Some? && opening <= a.answer.value }

  /** A call that is read: of the pick, and not a second pick of one model answer. */
  predicate IsRead(a: Answered, pick: string) { a.call == pick && !AnswerStarts(a, STALE) }

  function Filter(answered: seq<Answered>, pick: string): seq<Answered> {
    if answered == [] then []
    else
      var n := |answered| - 1;
      Filter(answered[..n], pick) + if IsRead(answered[n], pick) then [answered[n]] else []
  }

  /** The first call that the Menu did not refuse, or the number of calls. */
  function Door(calls: seq<Answered>): (d: nat)
    ensures d <= |calls| && (d < |calls| ==> !calls[d].error)
    ensures forall k :: 0 <= k < d ==> calls[k].error
  {
    if calls == [] || !calls[0].error then 0 else 1 + Door(calls[1..])
  }

  predicate IsLost(a: Answered) { AnswerStarts(a, NOT_KNOWN) }

  /** A call at or after the door's refusal whose answer does not say what became of it. */
  predicate LosesAnAnswer(lost: Answered -> bool, calls: seq<Answered>) {
    exists k :: Door(calls) <= k < |calls| && lost(calls[k])
  }

  /** The call after the door's refusal reached the door too. */
  predicate NextReachesTheDoor(calls: seq<Answered>) {
    Door(calls) + 1 < |calls| && !calls[Door(calls) + 1].error
  }

  predicate FirstRefuses(outcomes: seq<string>) { outcomes != [] && outcomes[0] == "refused" }

  predicate SecondAdmits(outcomes: seq<string>) { |outcomes| > 1 && outcomes[1] in ADMITTED }

  /** `readChartRefusal`. */
  function ReadChartRefusal(outcomes: seq<string>, answered: Option<seq<Answered>>, pick: string): Reading {
    if !FirstRefuses(outcomes) then Reading(false, Some(if outcomes != [] then FirstAdmitted else NoChart))
    else if answered.None? then Reading(false, Some(PromptLost))
    else
      var calls := Filter(answered.value, pick);
      if LosesAnAnswer(IsLost, calls) then Reading(false, Some(AnswerLost))
      else Reading(SecondAdmits(outcomes) && NextReachesTheDoor(calls), None)
  }

  // ---- what happened to each call ------------------------------------------------------------------

  datatype Verdict = Refused | Admitted | Errored

  function Outcome(v: Verdict): string {
    match v
    case Refused => "refused"
    case Admitted => "admitted"
    case Errored => "errored"
  }

  /**
   * What happened to a call. `Lost` and `Cut` are calls that may have reached the door: the Harness
   * answered that it does not know, or no answer was printed.
   */
  datatype Fate =
    | Other
    | Stale
    | MenuRefused
    | AtDoor(verdict: Verdict)
    | Lost(reached: Option<Verdict>)
    | Cut(reached: Option<Verdict>)

  /** The verdict that the Machine recorded of a call. */
  function VerdictOf(f: Fate): Option<Verdict> {
    match f
    case AtDoor(v) => Some(v)
    case Lost(reached) => reached
    case Cut(reached) => reached
    case _ => None
  }

  /** No pick of the door: another call, or one that did not run. */
  predicate Skipped(f: Fate) { f.Other? || f.Stale? }

  /** How the planner reads what happened. */
  predicate Tells(text: string, isError: bool, f: Fate) {
    match f
    case Other => true
    case Stale => STALE <= text
    case MenuRefused => isError && !(STALE <= text) && !(NOT_KNOWN <= text)
    case AtDoor(_) => !isError && !(STALE <= text) && !(NOT_KNOWN <= text)
    case Lost(_) => !isError && !(STALE <= text) && NOT_KNOWN <= text
    case Cut(_) => false
  }

  predicate Shows(a: Answered, f: Fate, pick: string) {
    && (a.call != pick <==> f.Other?)
    && (f.Other? || if a.answer.Some? then Tells(a.answer.value, a.error, f) else f.Cut? && !a.error)
  }

  ghost predicate ShowsAll(answered: seq<Answered>, fates: seq<Fate>, pick: string) {
    |answered| == |fates| && forall i :: 0 <= i < |fates| ==> Shows(answered[i], fates[i], pick)
  }

  /** The places of the fates that satisfy `p`, in order. */
  function Places(p: Fate -> bool, fates: seq<Fate>): (ps: seq<nat>)
    ensures forall i :: 0 <= i < |ps| ==> ps[i] < |fates| && p(fates[ps[i]])
    ensures forall i, j :: 0 <= i < j < |ps| ==> ps[i] < ps[j]
    ensures forall q: nat :: q < |fates| && p(fates[q]) ==> q in ps
  {
    if fates == [] then []
    else
      var n := |fates| - 1;
      var ps := Places(p, fates[..n]);
      if p(fates[n]) then ps + [n] else ps
  }

  predicate IsPick(f: Fate) { !Skipped(f) }
  predicate IsJudged(f: Fate) { VerdictOf(f).Some? }
  function Picks(fates: seq<Fate>): seq<nat> { Places(IsPick, fates) }
  function Judged(fates: seq<Fate>): seq<nat> { Places(IsJudged, fates) }

  /** The Machine's `outcomes`: each door verdict, in order. */
  function Outcomes(fates: seq<Fate>): seq<string> {
    if fates == [] then []
    else
      var n := |fates| - 1;
      var v := VerdictOf(fates[n]);
      Outcomes(fates[..n]) + if v.Some? then [Outcome(v.value)] else []
  }

  // ---- what the claim measures, said of what happened ----------------------------------------------

  /** The first verdict of the door was given to the call at `i`. */
  ghost predicate FirstVerdict(fates: seq<Fate>, i: nat, v: Verdict) {
    && i < |fates| && VerdictOf(fates[i]) == Some(v)
    && forall k :: 0 <= k < i ==> VerdictOf(fates[k]).None?
  }

  /** The next pick after `i` is the call at `j`. */
  ghost predicate NextPick(fates: seq<Fate>, i: nat, j: nat) {
    && i < j < |fates| && !Skipped(fates[j])
    && forall k :: i < k < j ==> Skipped(fates[k])
  }

  predicate Admits(f: Fate) { VerdictOf(f) in {Some(Admitted), Some(Errored)} }

  /** The door refused the first Chart that it judged, and it admitted the very next pick. */
  ghost predicate PickedAgain(fates: seq<Fate>) {
    exists i: nat, j: nat :: FirstVerdict(fates, i, Refused) && NextPick(fates, i, j) && Admits(fates[j])
  }

  /** The next verdict from `j` on was given to the call at `k`. */
  ghost predicate NextVerdict(fates: seq<Fate>, j: nat, k: nat) {
    && j <= k < |fates| && VerdictOf(fates[k]).Some?
    && forall x :: j <= x < k ==> VerdictOf(fates[x]).None?
  }

  /** A pick that the Menu did not refuse: the reading takes it for one that reached the door. */
  predicate IsThrough(f: Fate) { IsPick(f) && !f.MenuRefused? }

  ghost predicate FirstThrough(fates: seq<Fate>, d: nat) {
    && d < |fates| && IsThrough(fates[d])
    && forall k :: 0 <= k < d ==> !IsThrough(fates[k])
  }

  /** The Menu refused neither the first of these nor the pick right after it. */
  ghost predicate TwoThrough(fates: seq<Fate>) {
    exists d: nat, j: nat :: FirstThrough(fates, d) && NextPick(fates, d, j) && !fates[j].MenuRefused?
  }

  /** The second verdict of the door admitted its Chart. */
  predicate SecondAdmitted(fates: seq<Fate>) {
    |Judged(fates)| > 1 && Admits(fates[Judged(fates)[1]])
  }

  ghost predicate AnyLost(fates: seq<Fate>) {
    exists k :: 0 <= k < |fates| && fates[k].Lost?
  }

  /** The void rule, said of what happened. */
  ghost function WhyVoid(fates: seq<Fate>): Option<Why> {
    if Judged(fates) == [] then Some(NoChart)
    else if VerdictOf(fates[Judged(fates)[0]]) != Some(Refused) then Some(FirstAdmitted)
    else if AnyLost(fates) then Some(AnswerLost)
    else None
  }

  // ---- the reading is what happened ----------------------------------------------------------------

  lemma {:induction false} OutcomesAreVerdicts(fates: seq<Fate>)
    ensures |Outcomes(fates)| == |Judged(fates)|
    ensures forall i :: 0 <= i < |Judged(fates)| ==>
              Outcomes(fates)[i] == Outcome(VerdictOf(fates[Judged(fates)[i]]).value)
  {
    if fates != [] {
      OutcomesAreVerdicts(fates[..|fates| - 1]);
    }
  }

  lemma OutcomesSay(fates: seq<Fate>)
    ensures Outcomes(fates) == [] <==> Judged(fates) == []
    ensures FirstRefuses(Outcomes(fates)) <==>
              Judged(fates) != [] && VerdictOf(fates[Judged(fates)[0]]) == Some(Refused)
    ensures SecondAdmits(Outcomes(fates)) <==> SecondAdmitted(fates)
  {
    OutcomesAreVerdicts(fates);
  }

  /** An entry that shows what happened, as the reading looks at it. */
  predicate Reads(lost: Answered -> bool, a: Answered, f: Fate) {
    (a.error <==> f.MenuRefused?) && (lost(a) <==> f.Lost?)
  }

  /** The calls that are read show what happened to the picks. */
  ghost predicate ReadsAll(lost: Answered -> bool, calls: seq<Answered>, fates: seq<Fate>) {
    && |calls| == |Picks(fates)|
    && forall i :: 0 <= i < |calls| ==> Reads(lost, calls[i], fates[Picks(fates)[i]])
  }

  lemma ShownIsRead(a: Answered, f: Fate, pick: string)
    requires Shows(a, f, pick)
    ensures IsRead(a, pick) <==> IsPick(f)
    ensures IsPick(f) ==> Reads(IsLost, a, f)
  {
  }

  lemma {:induction false} FilterIsPicks(answered: seq<Answered>, fates: seq<Fate>, pick: string)
    requires ShowsAll(answered, fates, pick)
    ensures ReadsAll(IsLost, Filter(answered, pick), fates)
  {
    if fates != [] {
      var n := |fates| - 1;
      FilterIsPicks(answered[..n], fates[..n], pick);
      ShownIsRead(answered[n], fates[n], pick);
    }
  }

  lemma PlaceOf(p: Fate -> bool, fates: seq<Fate>, q: nat) returns (i: nat)
    requires q < |fates| && p(fates[q])
    ensures i < |Places(p, fates)| && Places(p, fates)[i] == q
  {
    i :| 0 <= i < |Places(p, fates)| && Places(p, fates)[i] == q;
  }

  /** Between two neighbours there is no place. */
  lemma NoneBetween(p: Fate -> bool, fates: seq<Fate>, d: nat, k: nat)
    requires d + 1 < |Places(p, fates)| && Places(p, fates)[d] < k < Places(p, fates)[d + 1]
    ensures !p(fates[k])
  {
    if p(fates[k]) { var i := PlaceOf(p, fates, k); }
  }

  /** The first place after a place is its neighbour. */
  lemma NextPlace(p: Fate -> bool, fates: seq<Fate>, d: nat, k: nat)
    requires d < |Places(p, fates)| && Places(p, fates)[d] < k < |fates| && p(fates[k])
    requires forall x :: Places(p, fates)[d] < x < k ==> !p(fates[x])
    ensures d + 1 < |Places(p, fates)| && Places(p, fates)[d + 1] == k
  {
    var i := PlaceOf(p, fates, k);
    assert i >= d + 1;
  }

  lemma FirstPlace(fates: seq<Fate>, i: nat, v: Verdict)
    requires FirstVerdict(fates, i, v)
    ensures Judged(fates) != [] && Judged(fates)[0] == i
  {
    var x := PlaceOf(IsJudged, fates, i);
  }

  lemma FirstIsFirst(fates: seq<Fate>)
    requires Judged(fates) != []
    ensures FirstVerdict(fates, Judged(fates)[0], VerdictOf(fates[Judged(fates)[0]]).value)
  {
    forall k | 0 <= k < Judged(fates)[0]
      ensures VerdictOf(fates[k]).None?
    {
      if VerdictOf(fates[k]).Some? { var x := PlaceOf(IsJudged, fates, k); }
    }
  }

  lemma NeighboursAreNext(fates: seq<Fate>, d: nat)
    requires d + 1 < |Picks(fates)|
    ensures NextPick(fates, Picks(fates)[d], Picks(fates)[d + 1])
  {
    forall k | Picks(fates)[d] < k < Picks(fates)[d + 1]
      ensures Skipped(fates[k])
    {
      NoneBetween(IsPick, fates, d, k);
    }
  }

  lemma LosesAnAnswerExactly(lost: Answered -> bool, calls: seq<Answered>, fates: seq<Fate>)
    requires ReadsAll(lost, calls, fates)
    ensures LosesAnAnswer(lost, calls) <==> AnyLost(fates)
  {
    if AnyLost(fates) {
      var k :| 0 <= k < |fates| && fates[k].Lost?;
      var x := PlaceOf(IsPick, fates, k);
      assert Reads(lost, calls[x], fates[k]);
    }
  }

  /** The void rule is exact, whatever happened. */
  lemma VoidExactly(answered: seq<Answered>, fates: seq<Fate>, pick: string)
    requires ShowsAll(answered, fates, pick)
    ensures ReadChartRefusal(Outcomes(fates), Some(answered), pick).void == WhyVoid(fates)
  {
    OutcomesSay(fates);
    FilterIsPicks(answered, fates, pick);
    LosesAnAnswerExactly(IsLost, Filter(answered, pick), fates);
  }

  ghost predicate Increasing(ps: seq<nat>) {
    forall i, j :: 0 <= i < j < |ps| ==> ps[i] < ps[j]
  }

  /** The calls show what happened at these places. */
  ghost predicate ReadsAt(lost: Answered -> bool, calls: seq<Answered>, fates: seq<Fate>, ps: seq<nat>) {
    |calls| == |ps| && forall i :: 0 <= i < |calls| ==> ps[i] < |fates| && Reads(lost, calls[i], fates[ps[i]])
  }

  /** The door is the place of the first pick that the Menu did not refuse. */
  lemma DoorIsAt(lost: Answered -> bool, calls: seq<Answered>, fates: seq<Fate>, ps: seq<nat>, x: nat)
    requires ReadsAt(lost, calls, fates, ps) && Increasing(ps) && x < |calls| && !fates[ps[x]].MenuRefused?
    requires forall i :: 0 <= i < x ==> fates[ps[i]].MenuRefused?
    ensures Door(calls) == x
  {
    assert Reads(lost, calls[x], fates[ps[x]]);
    assert forall i :: 0 <= i < x ==> Reads(lost, calls[i], fates[ps[i]]);
  }

  lemma ThroughIsDoor(lost: Answered -> bool, calls: seq<Answered>, fates: seq<Fate>, d: nat)
    requires ReadsAll(lost, calls, fates) && FirstThrough(fates, d)
    ensures Door(calls) < |calls| && Picks(fates)[Door(calls)] == d
  {
    var x := PlaceOf(IsPick, fates, d);
    DoorIsAt(lost, calls, fates, Picks(fates), x);
  }

  lemma DoorIsThrough(lost: Answered -> bool, calls: seq<Answered>, fates: seq<Fate>)
    requires ReadsAll(lost, calls, fates) && Door(calls) < |calls|
    ensures FirstThrough(fates, Picks(fates)[Door(calls)])
  {
    var ps, x := Picks(fates), Door(calls);
    assert Reads(lost, calls[x], fates[ps[x]]);
    forall k | 0 <= k < ps[x]
      ensures !IsThrough(fates[k])
    {
      if IsPick(fates[k]) {
        var y := PlaceOf(IsPick, fates, k);
        assert Reads(lost, calls[y], fates[k]);
      }
    }
  }

  lemma ReachingIsThrough(lost: Answered -> bool, calls: seq<Answered>, fates: seq<Fate>)
    requires ReadsAll(lost, calls, fates) && NextReachesTheDoor(calls)
    ensures TwoThrough(fates)
  {
    var x := Door(calls);
    var d, j := Picks(fates)[x], Picks(fates)[x + 1];
    DoorIsThrough(lost, calls, fates);
    NeighboursAreNext(fates, x);
    assert Reads(lost, calls[x + 1], fates[j]);
    assert FirstThrough(fates, d) && NextPick(fates, d, j) && !fates[j].MenuRefused?;
  }

  /** The place after a pick's is that of the next pick. */
  lemma NextPickPlace(fates: seq<Fate>, x: nat, j: nat)
    requires x < |Picks(fates)| && NextPick(fates, Picks(fates)[x], j)
    ensures x + 1 < |Picks(fates)| && Picks(fates)[x + 1] == j
  {
    forall k | Picks(fates)[x] < k < j
      ensures !IsPick(fates[k])
    {
      assert Skipped(fates[k]);
    }
    NextPlace(IsPick, fates, x, j);
  }

  lemma ReachesAt(lost: Answered -> bool, calls: seq<Answered>, fates: seq<Fate>, ps: seq<nat>)
    requires ReadsAt(lost, calls, fates, ps) && Door(calls) + 1 < |ps| && !fates[ps[Door(calls) + 1]].MenuRefused?
    ensures NextReachesTheDoor(calls)
  {
    assert Reads(lost, calls[Door(calls) + 1], fates[ps[Door(calls) + 1]]);
  }

  lemma ThroughIsReaching(lost: Answered -> bool, calls: seq<Answered>, fates: seq<Fate>, d: nat, j: nat)
    requires ReadsAll(lost, calls, fates)
    requires FirstThrough(fates, d) && NextPick(fates, d, j) && !fates[j].MenuRefused?
    ensures NextReachesTheDoor(calls)
  {
    ThroughIsDoor(lost, calls, fates, d);
    NextPickPlace(fates, Door(calls), j);
    ReachesAt(lost, calls, fates, Picks(fates));
  }

  /** The two calls that the reading takes for the refused one and the next one. */
  lemma NextReachesExactly(lost: Answered -> bool, calls: seq<Answered>, fates: seq<Fate>)
    requires ReadsAll(lost, calls, fates)
    ensures NextReachesTheDoor(calls) <==> TwoThrough(fates)
  {
    if NextReachesTheDoor(calls) {
      ReachingIsThrough(lost, calls, fates);
    }
    if TwoThrough(fates) {
      var d: nat, j: nat :| FirstThrough(fates, d) && NextPick(fates, d, j) && !fates[j].MenuRefused?;
      ThroughIsReaching(lost, calls, fates, d, j);
    }
  }

  /**
   * What is measured, exactly, whatever happened: the reading is not void, the door's second verdict
   * admitted its Chart, and the pick right after the first one that the Menu did not refuse was not
   * refused by the Menu either.
   */
  lemma MeasuredExactly(answered: seq<Answered>, fates: seq<Fate>, pick: string)
    requires ShowsAll(answered, fates, pick)
    ensures ReadChartRefusal(Outcomes(fates), Some(answered), pick).measured
            <==> WhyVoid(fates).None? && SecondAdmitted(fates) && TwoThrough(fates)
  {
    var calls := Filter(answered, pick);
    OutcomesSay(fates);
    FilterIsPicks(answered, fates, pick);
    LosesAnAnswerExactly(IsLost, calls, fates);
    NextReachesExactly(IsLost, calls, fates);
  }

  /** Without the trial's own prompt nothing is measured, and the trial is void, whatever the verdicts: for
      that reason exactly when the first verdict refused. */
  lemma ALostPromptIsVoid(outcomes: seq<string>, pick: string)
    ensures var r := ReadChartRefusal(outcomes, None, pick);
            && !r.measured && r.void.Some?
            && (r.void == Some(PromptLost) <==> |outcomes| > 0 && outcomes[0] == "refused")
            && (r.void == Some(NoChart) <==> outcomes == [])
  {
  }

  // ---- when that is what the claim measures --------------------------------------------------------

  /** Both come after `i`, and each is the next pick. */
  lemma NextPickIsOne(fates: seq<Fate>, i: nat, j: nat, n: nat)
    requires NextPick(fates, i, j) && NextPick(fates, i, n)
    ensures j == n
  {
  }

  lemma {:induction false} NextPickUpTo(fates: seq<Fate>, i: nat, k: nat) returns (j: nat)
    requires i < k < |fates| && IsPick(fates[k])
    ensures NextPick(fates, i, j) && j <= k
    decreases k
  {
    j := k;
    if q: nat :| i < q < k && IsPick(fates[q]) {
      j := NextPickUpTo(fates, i, q);
    }
  }

  lemma {:induction false} FirstThroughUpTo(fates: seq<Fate>, k: nat) returns (d: nat)
    requires k < |fates| && IsThrough(fates[k])
    ensures FirstThrough(fates, d) && d <= k
    decreases k
  {
    d := k;
    if q: nat :| q < k && IsThrough(fates[q]) {
      d := FirstThroughUpTo(fates, q);
    }
  }

  /** The second of two verdicts. */
  lemma SecondJudged(fates: seq<Fate>, i: nat, v: Verdict, k: nat)
    requires FirstVerdict(fates, i, v) && NextVerdict(fates, i + 1, k)
    ensures |Judged(fates)| > 1 && Judged(fates)[0] == i && Judged(fates)[1] == k
  {
    FirstPlace(fates, i, v);
    NextPlace(IsJudged, fates, 0, k);
  }

  lemma PickedAdmits(fates: seq<Fate>)
    requires PickedAgain(fates)
    ensures SecondAdmitted(fates) && VerdictOf(fates[Judged(fates)[0]]) == Some(Refused)
  {
    var i: nat, n: nat :| FirstVerdict(fates, i, Refused) && NextPick(fates, i, n) && Admits(fates[n]);
    SecondAfter(fates, i, Refused, n);
  }

  /** The claim is met exactly when the pick after the refusal was given the second verdict, and that
      admitted it. */
  lemma PickedExactly(fates: seq<Fate>, i: nat, n: nat)
    requires FirstVerdict(fates, i, Refused) && NextPick(fates, i, n)
    ensures PickedAgain(fates) <==> SecondAdmitted(fates) && VerdictOf(fates[n]).Some?
  {
    FirstPlace(fates, i, Refused);
    if PickedAgain(fates) {
      var i': nat, n': nat :| FirstVerdict(fates, i', Refused) && NextPick(fates, i', n') && Admits(fates[n']);
      FirstPlace(fates, i', Refused);
      NextPickIsOne(fates, i, n, n');
      SecondAfter(fates, i, Refused, n);
    }
    if VerdictOf(fates[n]).Some? {
      SecondAfter(fates, i, Refused, n);
    }
  }

  /** A pick right after the first verdict that has one too has the second. */
  lemma SecondAfter(fates: seq<Fate>, i: nat, v: Verdict, n: nat)
    requires FirstVerdict(fates, i, v) && NextPick(fates, i, n) && VerdictOf(fates[n]).Some?
    ensures |Judged(fates)| > 1 && Judged(fates)[0] == i && Judged(fates)[1] == n
  {
    forall x | i + 1 <= x < n
      ensures VerdictOf(fates[x]).None?
    {
      assert Skipped(fates[x]);
    }
    SecondJudged(fates, i, v, n);
  }

  /** The calls that decide: the first that the Menu did not refuse, and the refused one, each with the
      pick after it. */
  datatype Landmarks = Landmarks(door: nat, next: nat, refused: nat, after: nat)

  ghost predicate AreLandmarks(fates: seq<Fate>, l: Landmarks) {
    && FirstThrough(fates, l.door) && NextPick(fates, l.door, l.next)
    && FirstVerdict(fates, l.refused, Refused) && NextPick(fates, l.refused, l.after)
  }

  /** A call that was cut is taken for one that reached the door: the one after the refusal, or one
      before it. In the second case the reading looks at the pick after that one instead, and errs when
      the Menu refused it though the pick after the refusal was judged, or did not though that was not. */
  ghost predicate MisleadsAt(fates: seq<Fate>, l: Landmarks)
    requires AreLandmarks(fates, l)
  {
    if l.door == l.refused then fates[l.after] == Cut(None)
    else fates[l.next].MenuRefused? <==> VerdictOf(fates[l.after]).Some?
  }

  /** The second Chart that the door judged was admitted, and a cut call misleads the reading. */
  ghost predicate Misleads(fates: seq<Fate>) {
    SecondAdmitted(fates) && exists l :: AreLandmarks(fates, l) && MisleadsAt(fates, l)
  }

  lemma LandmarksAreOne(fates: seq<Fate>, l: Landmarks, m: Landmarks)
    requires AreLandmarks(fates, l) && AreLandmarks(fates, m)
    ensures l == m
  {
    NextPickIsOne(fates, l.door, l.next, m.next);
    NextPickIsOne(fates, l.refused, l.after, m.after);
  }

  lemma LandmarksOf(fates: seq<Fate>) returns (l: Landmarks)
    requires WhyVoid(fates).None? && SecondAdmitted(fates)
    ensures AreLandmarks(fates, l)
  {
    FirstIsFirst(fates);
    var i, k := Judged(fates)[0], Judged(fates)[1];
    var n := NextPickUpTo(fates, i, k);
    var d := FirstThroughUpTo(fates, i);
    var j := NextPickUpTo(fates, d, k);
    l := Landmarks(d, j, i, n);
  }

  lemma TwoThroughExactly(fates: seq<Fate>, l: Landmarks)
    requires AreLandmarks(fates, l)
    ensures TwoThrough(fates) <==> !fates[l.next].MenuRefused?
  {
    if TwoThrough(fates) {
      var d: nat, j: nat :| FirstThrough(fates, d) && NextPick(fates, d, j) && !fates[j].MenuRefused?;
      assert d == l.door;
      NextPickIsOne(fates, d, j, l.next);
    }
  }

  lemma MisleadsExactly(fates: seq<Fate>, l: Landmarks)
    requires AreLandmarks(fates, l) && SecondAdmitted(fates)
    ensures Misleads(fates) <==> MisleadsAt(fates, l)
  {
    if Misleads(fates) {
      var m :| AreLandmarks(fates, m) && MisleadsAt(fates, m);
      LandmarksAreOne(fates, l, m);
    }
  }

  lemma RightAt(fates: seq<Fate>, l: Landmarks)
    requires AreLandmarks(fates, l) && SecondAdmitted(fates) && !AnyLost(fates)
    ensures (TwoThrough(fates) <==> PickedAgain(fates)) <==> !MisleadsAt(fates, l)
  {
    TwoThroughExactly(fates, l);
    PickedExactly(fates, l.refused, l.after);
    if l.door == l.refused { NextPickIsOne(fates, l.door, l.next, l.after); }
    assert !fates[l.after].Lost?;
  }

  /** The reading is right exactly where no cut call misleads it: on every trace that is not void, it is
      "measured" if and only if the door admitted the pick after its refusal, unless a cut call misleads. */
  lemma RightExactly(answered: seq<Answered>, fates: seq<Fate>, pick: string)
    requires ShowsAll(answered, fates, pick) && WhyVoid(fates).None?
    ensures (ReadChartRefusal(Outcomes(fates), Some(answered), pick).measured <==> PickedAgain(fates))
            <==> !Misleads(fates)
  {
    MeasuredExactly(answered, fates, pick);
    if SecondAdmitted(fates) {
      var l := LandmarksOf(fates);
      RightAt(fates, l);
      MisleadsExactly(fates, l);
    }
    if PickedAgain(fates) { PickedAdmits(fates); }
  }

  // ---- the promised reading ------------------------------------------------------------------------

  /** Every call that did not reach the door has its answer. */
  ghost predicate NoneCutShort(fates: seq<Fate>) {
    forall k :: 0 <= k < |fates| ==> fates[k] != Cut(None)
  }

  lemma NothingMisleads(fates: seq<Fate>)
    requires NoneCutShort(fates) && WhyVoid(fates).None?
    ensures !Misleads(fates)
  {
    if SecondAdmitted(fates) {
      var l := LandmarksOf(fates);
      MisleadsExactly(fates, l);
      assert !fates[l.door].Lost? && fates[l.door] != Cut(None) && VerdictOf(fates[l.door]).Some?;
      assert l.door == l.refused;
    }
  }

  /**
   * The reading is what happened. When every call that did not reach the door is answered, the trial is
   * measured exactly when no answer was lost and the door refused the first Chart and admitted the very
   * next pick; and it is void exactly when no Chart reached the door, the first was not refused, or an
   * answer was lost.
   */
  lemma ReadingIsWhatHappened(answered: seq<Answered>, fates: seq<Fate>, pick: string)
    requires ShowsAll(answered, fates, pick) && NoneCutShort(fates)
    ensures var r := ReadChartRefusal(Outcomes(fates), Some(answered), pick);
            (r.measured <==> !AnyLost(fates) && PickedAgain(fates)) && r.void == WhyVoid(fates)
  {
    VoidExactly(answered, fates, pick);
    MeasuredExactly(answered, fates, pick);
    if WhyVoid(fates).None? {
      NothingMisleads(fates);
      RightExactly(answered, fates, pick);
    }
    if PickedAgain(fates) { PickedAdmits(fates); }
  }

  // ---- the three ways a cut call misleads ----------------------------------------------------------

  /** What a trace whose landmarks and second verdict are these reads as. */
  lemma ReadsAs(answered: seq<Answered>, fates: seq<Fate>, pick: string, l: Landmarks, k: nat)
    requires ShowsAll(answered, fates, pick) && !AnyLost(fates) && AreLandmarks(fates, l)
    requires NextVerdict(fates, l.refused + 1, k) && Admits(fates[k])
    ensures ReadChartRefusal(Outcomes(fates), Some(answered), pick).measured <==> !fates[l.next].MenuRefused?
    ensures PickedAgain(fates) <==> VerdictOf(fates[l.after]).Some?
  {
    SecondJudged(fates, l.refused, Refused, k);
    MeasuredExactly(answered, fates, pick);
    TwoThroughExactly(fates, l);
    PickedExactly(fates, l.refused, l.after);
  }

  /** The pick after the refusal was cut, and a later one admitted: measured, though the next pick was
      not admitted. */
  lemma ACutAfterTheRefusalIsMisread(answered: seq<Answered>, pick: string)
    requires ShowsAll(answered, [AtDoor(Refused), Cut(None), AtDoor(Admitted)], pick)
    ensures var fates := [AtDoor(Refused), Cut(None), AtDoor(Admitted)];
            ReadChartRefusal(Outcomes(fates), Some(answered), pick).measured && !PickedAgain(fates)
  {
    var fates := [AtDoor(Refused), Cut(None), AtDoor(Admitted)];
    ReadsAs(answered, fates, pick, Landmarks(0, 1, 0, 1), 2);
  }

  /** A call was cut before the refusal, and the Menu refused the pick after it: measured, though the
      next pick never reached the door. */
  lemma ACutBeforeTheRefusalPassesAMiss(answered: seq<Answered>, pick: string)
    requires ShowsAll(answered, [Cut(None), AtDoor(Refused), MenuRefused, AtDoor(Admitted)], pick)
    ensures var fates := [Cut(None), AtDoor(Refused), MenuRefused, AtDoor(Admitted)];
            ReadChartRefusal(Outcomes(fates), Some(answered), pick).measured && !PickedAgain(fates)
  {
    var fates := [Cut(None), AtDoor(Refused), MenuRefused, AtDoor(Admitted)];
    ReadsAs(answered, fates, pick, Landmarks(0, 1, 1, 2), 3);
  }

  /** A call was cut, and the Menu refused the pick after it, before the refusal: not measured, though
      the door admitted the next pick. */
  lemma ACutBeforeTheRefusalLosesAPass(answered: seq<Answered>, pick: string)
    requires ShowsAll(answered, [Cut(None), MenuRefused, AtDoor(Refused), AtDoor(Admitted)], pick)
    ensures var fates := [Cut(None), MenuRefused, AtDoor(Refused), AtDoor(Admitted)];
            !ReadChartRefusal(Outcomes(fates), Some(answered), pick).measured && PickedAgain(fates)
  {
    var fates := [Cut(None), MenuRefused, AtDoor(Refused), AtDoor(Admitted)];
    ReadsAs(answered, fates, pick, Landmarks(0, 1, 2, 3), 3);
  }
}
