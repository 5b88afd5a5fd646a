/**
 * The mode a claim workflow's Agent is in when the model is asked again
 * (features/lib/model-said.ts, modeAtAsk): a replay of the model's calls and restated Turn parts,
 * and then a chase of the mode's timers to a mode that has a pick.
 */
module Replay {
  import opened Sayings

  /** One mode: each pick it allows and where that pick goes, where its timers go, and whether a timer
      without a target opens its picks, which are closed from each entry until it fires. */
  datatype Mode = Mode(picks: map<string, string>, after: seq<string>, opens: bool)

  type Modes = map<string, Mode>

  /** The replay's two variables. */
  datatype At = At(mode: string, closed: bool)

  function Enter(modes: Modes, next: string): At {
    At(next, next in modes && modes[next].opens)
  }

  predicate HasTimer(modes: Modes, at: At) {
    at.closed || (at.mode in modes && modes[at.mode].after != [])
  }

  /** The mode's timer fires: it opens closed picks, or moves to its first target. */
  function Tick(modes: Modes, at: At): At {
    if at.closed then at.(closed := false)
    else if at.mode in modes && modes[at.mode].after != [] then Enter(modes, modes[at.mode].after[0])
    else at
  }

  predicate Allowed(modes: Modes, menu: set<string>, at: At, call: string) {
    call in menu && !at.closed && at.mode in modes && call in modes[at.mode].picks
  }

  function Hear(modes: Modes, menu: set<string>, at: At, s: Said): At {
    match s
    case Call(call) =>
      if Allowed(modes, menu, at, call) then Enter(modes, modes[at.mode].picks[call]) else at
    case Prompt(_) => if IsRestatement(s) then Tick(modes, at) else at
  }

  function Replayed(modes: Modes, menu: set<string>, at: At, said: seq<Said>): At
    decreases |said|
  {
    if said == [] then at
    else Replayed(modes, menu, Hear(modes, menu, at, said[0]), said[1..])
  }

  // ---- what the replay means ---------------------------------------------------------------------

  /** What can move the workflow: a pick of the Menu that the mode allows now, or a timer it has. */
  datatype Move = Pick(name: string) | Timer

  predicate Legal(modes: Modes, menu: set<string>, at: At, m: Move) {
    match m
    case Pick(name) => Allowed(modes, menu, at, name)
    case Timer => HasTimer(modes, at)
  }

  function Moved(modes: Modes, menu: set<string>, at: At, m: Move): At
    requires Legal(modes, menu, at, m)
  {
    match m
    case Pick(name) => Enter(modes, modes[at.mode].picks[name])
    case Timer => Tick(modes, at)
  }

  /** `to` is reached from `at` by the legal moves `moves`, in order. */
  predicate Reaches(modes: Modes, menu: set<string>, at: At, moves: seq<Move>, to: At)
    decreases |moves|
  {
    if moves == [] then at == to
    else
      && Legal(modes, menu, at, moves[0])
      && Reaches(modes, menu, Moved(modes, menu, at, moves[0]), moves[1..], to)
  }

  /** Whether an item of the conversation moves the workflow at `at`. */
  predicate Moves(modes: Modes, menu: set<string>, at: At, s: Said) {
    match s
    case Call(call) => Allowed(modes, menu, at, call)
    case Prompt(_) => IsRestatement(s) && HasTimer(modes, at)
  }

  /** The conversation without its refused, closed-time and non-Menu calls, and without its prompts
      that restate nothing. */
  function Effective(modes: Modes, menu: set<string>, at: At, said: seq<Said>): seq<Said>
    decreases |said|
  {
    if said == [] then []
    else
      (if Moves(modes, menu, at, said[0]) then [said[0]] else [])
      + Effective(modes, menu, Hear(modes, menu, at, said[0]), said[1..])
  }

  /** The moves the conversation stands for. */
  function MovesOf(said: seq<Said>): seq<Move> {
    seq(|said|, i requires 0 <= i < |said| => match said[i] case Call(c) => Pick(c) case Prompt(_) => Timer)
  }

  lemma {:induction false} ReplayConcat(modes: Modes, menu: set<string>, at: At, a: seq<Said>, b: seq<Said>)
    ensures Replayed(modes, menu, at, a + b) == Replayed(modes, menu, Replayed(modes, menu, at, a), b)
    decreases |a|
  {
    if a == [] {
      assert a + b == b;
    } else {
      assert (a + b)[1..] == a[1..] + b;
      ReplayConcat(modes, menu, Hear(modes, menu, at, a[0]), a[1..], b);
    }
  }

  /** Erasing what moves nothing leaves the replay as it was, and what is left moves at every item. */
  lemma {:induction false} ErasingRefusedCallsChangesNothing(modes: Modes, menu: set<string>, at: At, said: seq<Said>)
    ensures var kept := Effective(modes, menu, at, said);
            && Replayed(modes, menu, at, kept) == Replayed(modes, menu, at, said)
            && Effective(modes, menu, at, kept) == kept
    decreases |said|
  {
    if said != [] {
      var next := Hear(modes, menu, at, said[0]);
      ErasingRefusedCallsChangesNothing(modes, menu, next, said[1..]);
      var rest := Effective(modes, menu, next, said[1..]);
      if Moves(modes, menu, at, said[0]) {
        assert ([said[0]] + rest)[1..] == rest;
      } else {
        assert next == at;
        assert [] + rest == rest;
      }
    }
  }

  /** The replay's state is always one the workflow reaches by legal picks and timers: those of the
      items that were not erased, in order. */
  lemma {:induction false} ReplayIsReachable(modes: Modes, menu: set<string>, at: At, said: seq<Said>)
    ensures Reaches(modes, menu, at, MovesOf(Effective(modes, menu, at, said)), Replayed(modes, menu, at, said))
    decreases |said|
  {
    if said != [] {
      var next := Hear(modes, menu, at, said[0]);
      ReplayIsReachable(modes, menu, next, said[1..]);
      var rest := Effective(modes, menu, next, said[1..]);
      if Moves(modes, menu, at, said[0]) {
        assert MovesOf([said[0]] + rest)[1..] == MovesOf(rest);
      } else {
        assert next == at;
        assert [] + rest == rest;
      }
    }
  }

  // ---- what moves and what does not ----------------------------------------------------------------

  /** While a mode's picks are closed, nothing moves it but a restated Turn part: calls are refused. */
  lemma {:induction false} NothingMovesAClosedMode(modes: Modes, menu: set<string>, at: At, said: seq<Said>)
    requires at.closed && forall k :: 0 <= k < |said| ==> !IsRestatement(said[k])
    ensures Replayed(modes, menu, at, said) == at
    decreases |said|
  {
    if said != [] { NothingMovesAClosedMode(modes, menu, at, said[1..]); }
  }

  /** A call outside the Menu moves nothing, nor does one that the mode has no pick for, nor a prompt that
      restates nothing. */
  lemma {:induction false} NothingElseMoves(modes: Modes, menu: set<string>, at: At, said: seq<Said>)
    requires forall k :: 0 <= k < |said| ==>
               match said[k]
               case Call(call) => call !in menu || at.mode !in modes || call !in modes[at.mode].picks
               case Prompt(_) => !IsRestatement(said[k])
    ensures Replayed(modes, menu, at, said) == at
    decreases |said|
  {
    if said != [] {
      assert forall k :: 0 <= k < |said| - 1 ==> said[1..][k] == said[k + 1];
      NothingElseMoves(modes, menu, at, said[1..]);
    }
  }

  /** A Menu call that an open mode has a pick for moves to the pick's mode, closed if that one opens. */
  lemma APickMoves(modes: Modes, menu: set<string>, mode: string, call: string)
    requires call in menu && mode in modes && call in modes[mode].picks
    ensures var to := modes[mode].picks[call];
            Replayed(modes, menu, At(mode, false), [Call(call)]) == At(to, to in modes && modes[to].opens)
  {
    assert [Call(call)][1..] == [];
  }

  /** A restated Turn part opens a closed mode, and otherwise moves to the first timer's mode, if any. */
  lemma ARestatementIsATimer(modes: Modes, menu: set<string>, at: At, s: Said)
    requires IsRestatement(s)
    ensures Replayed(modes, menu, at, [s]) ==
            if at.closed then At(at.mode, false)
            else if at.mode !in modes || modes[at.mode].after == [] then at
            else var to := modes[at.mode].after[0]; At(to, to in modes && modes[to].opens)
  {
    assert [s][1..] == [];
  }

  // ---- the chase of the timers -------------------------------------------------------------------

  /** Whether the chase goes on at `at`: a known mode, with nothing allowed. */
  predicate Stuck(modes: Modes, at: At) {
    at.mode in modes && (at.closed || modes[at.mode].picks == map[])
  }

  /** The final loop of `modeAtAsk`, with the modes it has seen. */
  function Chase(modes: Modes, at: At, seen: set<string>): At
    decreases modes.Keys - seen
  {
    if !Stuck(modes, at) || at.mode in seen then at
    else if HasTimer(modes, at) then
      assert at.mode in modes.Keys - seen;
      Chase(modes, Tick(modes, at), seen + {at.mode})
    else at
  }

  /** A path along first timers: each mode known, and the next one its first timer's target. */
  predicate IsTimerPath(modes: Modes, path: seq<string>) {
    && path != []
    && forall i :: 0 <= i < |path| - 1 ==>
         path[i] in modes && modes[path[i]].after != [] && path[i + 1] == modes[path[i]].after[0]
  }

  predicate Distinct(path: seq<string>) {
    forall i, j :: 0 <= i < j < |path| ==> path[i] != path[j]
  }

  predicate HasPick(modes: Modes, mode: string) {
    mode in modes && modes[mode].picks != map[]
  }

  /** A path along first timers whose last mode, and no earlier one, has a pick. */
  predicate LeadsToPick(modes: Modes, path: seq<string>) {
    && IsTimerPath(modes, path) && Distinct(path)
    && HasPick(modes, path[|path| - 1])
    && forall i :: 0 <= i < |path| - 1 ==> !HasPick(modes, path[i])
  }

  /** No mode from place `k` to before the last is one whose picks open, and that has none: such a
      mode is seen when its picks open, so the loop stops at it. The chase is at place `k` as `at`. */
  predicate NoStall(modes: Modes, at: At, path: seq<string>, k: nat) {
    forall i :: k <= i < |path| - 1 ==> !(if i == k then at else Enter(modes, path[i])).closed
  }

  /** Where a chase along `path` ends: at its last mode, or at a mode before it that it stalls in. */
  lemma {:induction false} ChaseAlong(modes: Modes, at: At, path: seq<string>, k: nat, seen: set<string>)
    requires LeadsToPick(modes, path) && k < |path| && at.mode == path[k]
    requires forall m :: m in seen <==> m in path[..k]
    ensures if NoStall(modes, at, path, k) then Chase(modes, at, seen).mode == path[|path| - 1]
            else Chase(modes, at, seen).mode in path[..|path| - 1]
    decreases |path| - k
  {
    assert path[k] !in path[..k];
    if k == |path| - 1 {
      if at.closed {
        assert Chase(modes, Tick(modes, at), seen + {at.mode}) == Tick(modes, at);
      }
    } else if at.closed {
      assert Chase(modes, Tick(modes, at), seen + {at.mode}) == Tick(modes, at);
      assert path[..|path| - 1][k] == path[k];
    } else {
      var next := Tick(modes, at);
      assert next == Enter(modes, path[k + 1]);
      assert path[..k + 1] == path[..k] + [path[k]];
      ChaseAlong(modes, next, path, k + 1, seen + {at.mode});
      assert NoStall(modes, next, path, k + 1) ==> NoStall(modes, at, path, k);
    }
  }

  /**
   * The wake's promise is that the timers are followed to the first mode that has a pick. The loop
   * keeps it exactly when no mode on the way is an opening mode without a pick.
   */
  lemma ChaseReachesThePickExactlyWithoutAStall(modes: Modes, at: At, path: seq<string>)
    requires LeadsToPick(modes, path) && at.mode == path[0]
    ensures Chase(modes, at, {}).mode == path[|path| - 1] <==> NoStall(modes, at, path, 0)
  {
    ChaseAlong(modes, at, path, 0, {});
    var last := |path| - 1;
    if Chase(modes, at, {}).mode in path[..last] {
      var i :| 0 <= i < last && path[..last][i] == Chase(modes, at, {}).mode;
      assert path[i] != path[last];
    }
  }

  /** The promise holds for every table whose opening modes all have a pick, from every entered mode. */
  lemma ChaseReachesThePick(modes: Modes, at: At, path: seq<string>)
    requires forall m :: m in modes && modes[m].opens ==> modes[m].picks != map[]
    requires at.closed ==> at.mode in modes && modes[at.mode].opens
    requires LeadsToPick(modes, path) && at.mode == path[0]
    ensures Chase(modes, at, {}).mode == path[|path| - 1]
  {
    ChaseReachesThePickExactlyWithoutAStall(modes, at, path);
  }

  lemma {:induction false} ClosedModesOpen(modes: Modes, menu: set<string>, at: At, said: seq<Said>)
    requires at.closed ==> at.mode in modes && modes[at.mode].opens
    ensures var to := Replayed(modes, menu, at, said); to.closed ==> to.mode in modes && modes[to.mode].opens
    decreases |said|
  {
    if said != [] {
      ClosedModesOpen(modes, menu, Hear(modes, menu, at, said[0]), said[1..]);
    }
  }

  /** The whole reading: where every opening mode has a pick, the mode at the ask is the first mode
      with a pick on the first-timer path from where the replay ended. */
  lemma TheAskIsAtTheFirstPick(modes: Modes, initial: string, said: seq<Said>, menu: set<string>, path: seq<string>)
    requires forall m :: m in modes && modes[m].opens ==> modes[m].picks != map[]
    requires LeadsToPick(modes, path)
    requires path[0] == Replayed(modes, menu, Enter(modes, initial), said).mode
    ensures Chase(modes, Replayed(modes, menu, Enter(modes, initial), said), {}).mode == path[|path| - 1]
  {
    ClosedModesOpen(modes, menu, Enter(modes, initial), said);
    ChaseReachesThePick(modes, Replayed(modes, menu, Enter(modes, initial), said), path);
  }

  /** A table the loop stalls in: `waiting` opens, has no pick, and its timer leads to `ready`. */
  lemma AnOpeningModeWithoutAPickStalls()
    ensures var modes := map["waiting" := Mode(map[], ["ready"], true),
                             "ready" := Mode(map["go" := "done"], [], false)];
            LeadsToPick(modes, ["waiting", "ready"])
            && Chase(modes, Enter(modes, "waiting"), {}).mode == "waiting"
  {
    var modes := map["waiting" := Mode(map[], ["ready"], true), "ready" := Mode(map["go" := "done"], [], false)];
    assert "go" in modes["ready"].picks;
    var path := ["waiting", "ready"];
    ChaseAlong(modes, Enter(modes, "waiting"), path, 0, {});
    assert path[..1] == ["waiting"];
  }

  /** Why a chase ended where it did. */
  datatype End = Picks | DeadEnd | Unknown | SeenBefore | Stalled

  /**
   * A chase always ends on the first-timer path from where it began, for one of five reasons: the
   * mode has an open pick, has no timer, is not a mode of the table, was seen before, or is one whose
   * picks opened while it has none.
   */
  lemma {:induction false} ChaseEnds(modes: Modes, at: At, seen: set<string>)
    returns (path: seq<string>, end: End)
    ensures IsTimerPath(modes, path) && path[0] == at.mode
    ensures forall i :: 0 <= i < |path| - 1 ==> !HasPick(modes, path[i])
    ensures var last := Chase(modes, at, seen);
            && path[|path| - 1] == last.mode
            && match end
               case Picks => HasPick(modes, last.mode) && !last.closed
               case DeadEnd => last.mode in modes && !HasTimer(modes, last)
               case Unknown => last.mode !in modes
               case SeenBefore => last.mode in seen || last.mode in path[..|path| - 1]
               case Stalled => last.mode in modes && !HasPick(modes, last.mode) && !last.closed
                               && (if |path| == 1 then at.closed else modes[last.mode].opens)
    decreases modes.Keys - seen
  {
    if !Stuck(modes, at) || at.mode in seen || !HasTimer(modes, at) {
      path := [at.mode];
      end := if at.mode !in modes then Unknown
             else if !Stuck(modes, at) then Picks
             else if at.mode in seen then SeenBefore else DeadEnd;
    } else if at.closed {
      assert Chase(modes, Tick(modes, at), seen + {at.mode}) == Tick(modes, at);
      path, end := [at.mode], if HasPick(modes, at.mode) then Picks else Stalled;
    } else {
      var next := Tick(modes, at);
      assert at.mode in modes.Keys - seen;
      var rest;
      rest, end := ChaseEnds(modes, next, seen + {at.mode});
      path := [at.mode] + rest;
      assert forall i :: 1 <= i < |path| ==> path[i] == rest[i - 1];
      assert path[..|path| - 1] == [at.mode] + rest[..|rest| - 1];
    }
  }

  // ---- the reading itself ------------------------------------------------------------------------

  /** The mode at the ask, its variables updated in place. */
  method ModeAtAsk(modes: Modes, initial: string, said: seq<Said>, menu: set<string>) returns (mode: string)
    ensures mode == Chase(modes, Replayed(modes, menu, Enter(modes, initial), said), {}).mode
  {
    mode := initial;
    var closed := mode in modes && modes[mode].opens;
    for k := 0 to |said|
      invariant Replayed(modes, menu, At(mode, closed), said[k..])
             == Replayed(modes, menu, Enter(modes, initial), said)
    {
      assert said[k..][1..] == said[k + 1..];
      match said[k] {
        case Call(call) =>
          if call in menu && !closed && mode in modes && call in modes[mode].picks {
            mode := modes[mode].picks[call];
            closed := mode in modes && modes[mode].opens;
          }
        case Prompt(_) =>
          if IsRestatement(said[k]) {
            if closed {
              closed := false;
            } else if mode in modes && modes[mode].after != [] {
              mode := modes[mode].after[0];
              closed := mode in modes && modes[mode].opens;
            }
          }
      }
    }
    var seen: set<string> := {};
    while mode in modes && (closed || modes[mode].picks == map[]) && mode !in seen
      invariant Chase(modes, At(mode, closed), seen).mode
             == Chase(modes, Replayed(modes, menu, Enter(modes, initial), said), {}).mode
      decreases modes.Keys - seen
    {
      assert mode in modes.Keys - seen;
      seen := seen + {mode};
      if closed {
        closed := false;
      } else if modes[mode].after != [] {
        mode := modes[mode].after[0];
        closed := mode in modes && modes[mode].opens;
      } else {
        break;
      }
    }
  }
}
