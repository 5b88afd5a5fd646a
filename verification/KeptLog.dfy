/**
 * A container's log kept across every follow of it (features/lib/model-evidence.ts, followAcross).
 * The loop between two awaits is one step. A follow is a text that grows until it closes.
 */
module KeptLog {
  import opened Wrappers

  const AGAIN := "--- followed again: the container restarted ---\n"

  datatype Follow = Follow(text: string, open: bool)

  /** Where the loop waits: for the follow to close, for `again`, in the pause; or it returned. */
  datatype At = Following | Asking | Pausing | Ended

  datatype Kept = Kept(before: string, current: Option<Follow>, stopped: bool, at: At)

  function Joined(before: string, text: string): string {
    if text == "" then before else if before == "" then text else before + AGAIN + text
  }

  /** What a reader of `text` sees. */
  function Visible(k: Kept): string {
    if k.current.None? then k.before else Joined(k.before, k.current.value.text)
  }

  /** A step: the follow prints or closes, the loop goes on from where it waits, or `stop` is called. */
  datatype Action = Print(text: string) | Close | Resume | Answer(again: bool) | Wake | Stop

  /** The loop opens its first follow before it first waits. */
  const START := Kept("", Some(Follow("", true)), false, Following)

  function Step(k: Kept, a: Action): Kept {
    match a
    case Print(text) =>
      if k.current.Some? && k.current.value.open
      then k.(current := Some(Follow(k.current.value.text + text, true))) else k
    case Close =>
      if k.current.Some? then k.(current := Some(k.current.value.(open := false))) else k
    case Resume =>
      if k.at.Following? && k.current.Some? && !k.current.value.open
      then Kept(Joined(k.before, k.current.value.text), None, k.stopped, if k.stopped then Ended else Asking) else k
    case Answer(again) =>
      if k.at.Asking? then k.(at := if again then Pausing else Ended) else k
    case Wake =>
      if !k.at.Pausing? then k
      else if k.stopped then k.(at := Ended)
      else k.(current := Some(Follow("", true)), at := Following)
    case Stop => k.(stopped := true)
  }

  function Run(actions: seq<Action>): Kept {
    if actions == [] then START else Step(Run(actions[..|actions| - 1]), actions[|actions| - 1])
  }

  // ---- what the follows printed --------------------------------------------------------------------

  /** The text that each follow printed, in the order they were opened. */
  function Printed(actions: seq<Action>): (texts: seq<string>)
    ensures texts != []
  {
    if actions == [] then [""]
    else
      var n := |actions| - 1;
      var k, texts := Run(actions[..n]), Printed(actions[..n]);
      match actions[n]
      case Print(text) =>
        if k.current.Some? && k.current.value.open then texts[|texts| - 1 := texts[|texts| - 1] + text] else texts
      case Wake => if k.at.Pausing? && !k.stopped then texts + [""] else texts
      case _ => texts
  }

  function NonEmpty(texts: seq<string>): (r: seq<string>)
    ensures forall i :: 0 <= i < |r| ==> r[i] != ""
  {
    if texts == [] then []
    else NonEmpty(texts[..|texts| - 1]) + if texts[|texts| - 1] != "" then [texts[|texts| - 1]] else []
  }

  function JoinBy(pieces: seq<string>, sep: string): string {
    if pieces == [] then "" else if |pieces| == 1 then pieces[0] else pieces[0] + sep + JoinBy(pieces[1..], sep)
  }

  lemma {:induction false} JoinByMore(pieces: seq<string>, sep: string, x: string)
    requires pieces != []
    ensures JoinBy(pieces + [x], sep) == JoinBy(pieces, sep) + sep + x
  {
    var all := pieces + [x];
    if |pieces| == 1 {
      assert all[1..] == [x];
    } else {
      assert all[1..] == pieces[1..] + [x];
      JoinByMore(pieces[1..], sep, x);
      var rest := JoinBy(pieces[1..], sep);
      assert pieces[0] + sep + (rest + sep + x) == (pieces[0] + sep + rest) + sep + x;
    }
  }

  lemma JoinByIsEmpty(pieces: seq<string>, sep: string)
    requires forall i :: 0 <= i < |pieces| ==> pieces[i] != ""
    ensures JoinBy(pieces, sep) == "" <==> pieces == []
  {
  }

  /** The text of some follows: what they printed, those that printed nothing left out. */
  function Whole(texts: seq<string>): string { JoinBy(NonEmpty(texts), AGAIN) }

  lemma WholeMore(texts: seq<string>, text: string)
    ensures Whole(texts + [text]) == Joined(Whole(texts), text)
  {
    var all := texts + [text];
    assert all[..|all| - 1] == texts && all[|all| - 1] == text;
    var pieces := NonEmpty(texts);
    JoinByIsEmpty(pieces, AGAIN);
    if text == "" {
      assert NonEmpty(all) == pieces;
    } else if pieces == [] {
      assert NonEmpty(all) == [text];
    } else {
      assert NonEmpty(all) == pieces + [text];
      JoinByMore(pieces, AGAIN, text);
    }
  }

  // ---- the text over a run -------------------------------------------------------------------------

  /** The follows before the current one are in `before`. */
  ghost predicate Keeps(k: Kept, texts: seq<string>) {
    if k.current.Some?
    then texts != [] && texts[|texts| - 1] == k.current.value.text && k.before == Whole(texts[..|texts| - 1])
    else k.before == Whole(texts)
  }

  ghost predicate Ready(k: Kept) { k.current.Some? <==> k.at.Following? }

  lemma VisibleWhole(k: Kept, texts: seq<string>)
    requires Keeps(k, texts)
    ensures Visible(k) == Whole(texts)
  {
    if k.current.Some? {
      WholeMore(texts[..|texts| - 1], texts[|texts| - 1]);
      assert texts[..|texts| - 1] + [texts[|texts| - 1]] == texts;
    }
  }

  lemma {:induction false} AlwaysKeeps(actions: seq<Action>)
    ensures Keeps(Run(actions), Printed(actions)) && Ready(Run(actions))
  {
    if actions == [] {
      assert [""][..0] == [];
    } else {
      var n := |actions| - 1;
      AlwaysKeeps(actions[..n]);
      var k, texts := Run(actions[..n]), Printed(actions[..n]);
      var texts' := Printed(actions);
      VisibleWhole(k, texts);
      match actions[n] {
        case Print(_) => assert texts'[..|texts'| - 1] == texts[..|texts| - 1] || texts' == texts;
        case Wake => assert texts' == texts || texts'[..|texts'| - 1] == texts;
        case _ => assert texts' == texts;
      }
    }
  }

  /** At every moment the text is what the follows printed, those that printed nothing left out, in
      order, with the line between each two. */
  lemma TextIsWhatWasPrinted(actions: seq<Action>)
    ensures Visible(Run(actions)) == JoinBy(NonEmpty(Printed(actions)), AGAIN)
  {
    AlwaysKeeps(actions);
    VisibleWhole(Run(actions), Printed(actions));
  }

  lemma JoinedGrows(before: string, text: string, more: string)
    ensures Joined(before, text) <= Joined(before, text + more)
  {
    if text == "" {
      assert text + more == more;
    } else if before != "" {
      assert before + AGAIN + (text + more) == (before + AGAIN + text) + more;
    }
  }

  /** No step takes text away. */
  lemma StepGrows(k: Kept, a: Action)
    requires Ready(k)
    ensures Visible(k) <= Visible(Step(k, a))
  {
    if a.Print? && k.current.Some? {
      JoinedGrows(k.before, k.current.value.text, a.text);
    }
  }

  lemma PrefixOfPrefix(a: string, b: string, c: string)
    requires a <= b <= c
    ensures a <= c
  {
  }

  /** Every earlier read is the start of every later one, across closes, new follows and `stop`. */
  lemma {:induction false} EarlierReadsStand(earlier: seq<Action>, later: seq<Action>)
    ensures Visible(Run(earlier)) <= Visible(Run(earlier + later))
    decreases |later|
  {
    var all := earlier + later;
    if later == [] {
      assert all == earlier;
    } else {
      var n := |later| - 1;
      assert all[..|all| - 1] == earlier + later[..n] && all[|all| - 1] == later[n];
      EarlierReadsStand(earlier, later[..n]);
      AlwaysKeeps(earlier + later[..n]);
      var k := Run(earlier + later[..n]);
      StepGrows(k, later[n]);
      PrefixOfPrefix(Visible(Run(earlier)), Visible(k), Visible(Step(k, later[n])));
    }
  }

  /** Once the loop returned, the text stands and is never followed again. */
  lemma {:induction false} EndedStands(earlier: seq<Action>, later: seq<Action>)
    requires Run(earlier).at.Ended?
    ensures Run(earlier + later).at.Ended? && Visible(Run(earlier + later)) == Visible(Run(earlier))
    decreases |later|
  {
    var all := earlier + later;
    if later == [] {
      assert all == earlier;
    } else {
      var n := |later| - 1;
      assert all[..|all| - 1] == earlier + later[..n] && all[|all| - 1] == later[n];
      EndedStands(earlier, later[..n]);
      AlwaysKeeps(earlier + later[..n]);
    }
  }

  lemma {:induction false} StopStands(actions: seq<Action>)
    requires Stop in actions
    ensures Run(actions).stopped
  {
    var n := |actions| - 1;
    assert actions == actions[..n] + [actions[n]];
    if actions[n] != Stop { StopStands(actions[..n]); }
  }

  /** After `stop` no follow is opened: the follows are those of before. */
  lemma {:induction false} StoppedFollowsNoMore(earlier: seq<Action>, later: seq<Action>)
    requires Stop in earlier
    ensures |Printed(earlier + later)| == |Printed(earlier)|
    decreases |later|
  {
    var all := earlier + later;
    if later == [] {
      assert all == earlier;
    } else {
      var n := |later| - 1;
      assert all[..|all| - 1] == earlier + later[..n] && all[|all| - 1] == later[n];
      StoppedFollowsNoMore(earlier, later[..n]);
      StopStands(earlier + later[..n]);
    }
  }

  lemma RunMore(actions: seq<Action>, a: Action)
    ensures Run(actions + [a]) == Step(Run(actions), a)
  {
    assert (actions + [a])[..|actions|] == actions;
  }

  lemma RunTwo(actions: seq<Action>, a: Action, b: Action)
    ensures Run(actions + [a, b]) == Step(Step(Run(actions), a), b)
  {
    RunMore(actions, a);
    RunMore(actions + [a], b);
    assert actions + [a] + [b] == actions + [a, b];
  }

  lemma StepsFollowAgain(k: Kept, text: string)
    requires k.at.Following? && k.current.Some? && !k.stopped
    ensures var asked := Step(Step(k, Close), Resume);
            Step(Step(Step(asked, Answer(true)), Wake), Print(text))
            == Kept(Visible(k), Some(Follow("" + text, true)), false, Following)
  {
  }

  /** A follow that closes is followed again when `again` says so and no one stopped: what the new follow
      prints is in the text, after the line between the two. */
  lemma AClosedFollowIsFollowedAgain(actions: seq<Action>, text: string)
    requires Run(actions).at.Following? && !Run(actions).stopped && text != ""
    ensures var before := Visible(Run(actions));
            Visible(Run(actions + [Close, Resume] + [Answer(true), Wake] + [Print(text)]))
            == if before == "" then text else before + "--- followed again: the container restarted ---\n" + text
  {
    AlwaysKeeps(actions);
    RunTwo(actions, Close, Resume);
    RunTwo(actions + [Close, Resume], Answer(true), Wake);
    RunMore(actions + [Close, Resume] + [Answer(true), Wake], Print(text));
    StepsFollowAgain(Run(actions), text);
    assert "" + text == text;
  }

  /** It is not followed again when `again` says no, or someone stopped: the loop returns. */
  lemma AClosedFollowEnds(actions: seq<Action>)
    requires Run(actions).at.Following?
    ensures !Run(actions).stopped ==>
              Run(actions + [Close, Resume] + [Answer(false)]).at.Ended?
    ensures Run(actions).stopped ==> Run(actions + [Close, Resume]).at.Ended?
    ensures Visible(Run(actions + [Close, Resume])) == Visible(Run(actions))
  {
    AlwaysKeeps(actions);
    RunTwo(actions, Close, Resume);
    RunMore(actions + [Close, Resume], Answer(false));
  }

  // ---- the variables of `followAcross` -------------------------------------------------------------

  /** What `followAcross` closes over. */
  class Keeper {
    var before: string
    var current: Option<Follow>
    var stopped: bool
    var at: At

    function State(): Kept reads this { Kept(before, current, stopped, at) }

    constructor ()
      ensures State() == START
    {
      before, current, stopped, at := "", Some(Follow("", true)), false, Following;
    }

    /** The loop after `await f.closed`. */
    method Closed()
      requires at.Following? && current.Some? && !current.value.open
      modifies this
      ensures State() == Step(old(State()), Resume)
      ensures Visible(State()) == old(Visible(State()))
    {
      var text := Text();
      before := text;
      current := None;
      at := if stopped then Ended else Asking;
    }

    /** The loop after `again` and the pause. */
    method Again(yes: bool)
      requires at.Asking? && current.None?
      modifies this
      ensures State() == Step(Step(old(State()), Answer(yes)), Wake)
      ensures Visible(State()) == old(Visible(State()))
    {
      if !yes || stopped {
        at := Ended;
      } else {
        current, at := Some(Follow("", true)), Following;
      }
    }

    method StopFollowing()
      modifies this`stopped
      ensures State() == Step(old(State()), Stop)
    {
      stopped := true;
    }

    method Text() returns (text: string)
      ensures text == Visible(State())
    {
      match current {
        case None => text := before;
        case Some(f) =>
          if f.text == "" {
            text := before;
          } else if before == "" {
            text := f.text;
          } else {
            text := before + AGAIN + f.text;
          }
      }
    }
  }
}
