/**
 * End to end: a trial's conversation as it happened, printed, kept, read with `answersIn`
 * (features/lib/model-said.ts) and judged with `readChartRefusal` (features/lib/model-chart.ts).
 */
module EndToEnd {
  import opened Wrappers
  import opened Flat
  import opened Text
  import opened Answers
  import opened Matching
  import opened Conversations
  import opened RoundTrip
  import opened ReadBack
  import opened Chart

  /** What the planner read of the call at `c` shows what happened to it. */
  ghost predicate IsShown(bs: seq<Event>, of: seq<Option<nat>>, c: nat, f: Fate, pick: string)
    requires |of| == |bs| && c < |bs| && bs[c].Called?
  {
    && (bs[c].name != pick <==> f.Other?)
    && (f.Cut? <==> !f.Other? && Some(c) !in of)
    && forall r :: 0 <= r < |bs| && of[r] == Some(c) ==> bs[r].Replied? && Tells(bs[r].body, bs[r].isError, f)
  }

  /** One fate for each call, in order. */
  ghost predicate Happened(bs: seq<Event>, of: seq<Option<nat>>, fates: seq<Fate>, pick: string)
    requires |of| == |bs|
  {
    && |fates| == |Calls(bs)|
    && forall i :: 0 <= i < |fates| ==> IsShown(bs, of, Calls(bs)[i], fates[i], pick)
  }

  lemma EntryShows(bs: seq<Event>, of: seq<Option<nat>>, c: nat, f: Fate, pick: string)
    requires |of| == |bs| && c < |bs| && bs[c].Called? && IsShown(bs, of, c, f, pick)
    ensures Shows(Entry(bs, of, c), f, pick)
  {
    var r := AnswerAt(of, c);
    if r.Some? {
      assert of[r.value] == Some(c);
    }
  }

  lemma RenderedShows(bs: seq<Event>, of: seq<Option<nat>>, fates: seq<Fate>, pick: string)
    requires |of| == |bs| && Happened(bs, of, fates, pick)
    ensures ShowsAll(Rendered(bs, of), fates, pick)
  {
    forall i | 0 <= i < |fates|
      ensures Shows(Rendered(bs, of)[i], fates[i], pick)
    {
      EntryShows(bs, of, Calls(bs)[i], fates[i], pick);
    }
  }

  /** What a reading says of what happened: it is void by the void rule; when it is not void it is right
      exactly where no cut call misleads it; and none does when every call short of the door is answered. */
  ghost predicate Judges(r: Reading, fates: seq<Fate>) {
    && r.void == WhyVoid(fates)
    && (r.void.None? ==> ((r.measured <==> PickedAgain(fates)) <==> !Misleads(fates)))
    && (NoneCutShort(fates) ==> (r.measured <==> !AnyLost(fates) && PickedAgain(fates)))
  }

  lemma ShownIsJudged(answered: seq<Answered>, fates: seq<Fate>, pick: string)
    requires ShowsAll(answered, fates, pick)
    ensures Judges(ReadChartRefusal(Outcomes(fates), Some(answered), pick), fates)
  {
    VoidExactly(answered, fates, pick);
    if WhyVoid(fates).None? { RightExactly(answered, fates, pick); }
    if NoneCutShort(fates) { ReadingIsWhatHappened(answered, fates, pick); }
  }

  /**
   * A printed trial is judged by what is heard of it, whatever was printed. For every kept log, when what
   * is heard of each call shows what happened to it, the reading judges what happened.
   */
  lemma HeardTrialIsJudged(log: Log, marker: string, m: seq<Option<nat>>, fates: seq<Fate>, pick: string)
    requires Speaks(log.own, log.items, marker) && Keeps(log, marker)
    requires IsMatching(Blocks(Flatten(HeardOf, log.items)), m)
    requires Happened(Blocks(Flatten(HeardOf, log.items)), m, fates, pick)
    ensures Judges(ReadChartRefusal(Outcomes(fates), AnswersIn(Join(AllLines(log), '\n'), marker), pick), fates)
  {
    var bs := Blocks(Flatten(HeardOf, log.items));
    PrintedIsHeard(log, marker, m);
    RenderedShows(bs, m, fates, pick);
    ShownIsJudged(Rendered(bs, m), fates, pick);
  }

  /**
   * The printed trial is judged as it happened. For every kept log of a trial in which each call of the
   * pick is stale, refused by the Menu, given a verdict by the door, answered that this is not known, or
   * not answered at all, and in which no line of a call or an answer, and no first line of another body,
   * holds a line end: the reading judges what happened.
   */
  lemma PrintedTrialIsJudged(log: Log, marker: string, of: seq<Option<nat>>, fates: seq<Fate>, pick: string)
    requires Speaks(log.own, log.items, marker) && Keeps(log, marker)
    requires Bodied(log.items) && Disciplined(WholeAll(log.items), of)
    requires ToldWhole(log.items, of) && OthersOpen(log.items, of)
    requires Happened(WholeAll(log.items), of, fates, pick)
    ensures Judges(ReadChartRefusal(Outcomes(fates), AnswersIn(Join(AllLines(log), '\n'), marker), pick), fates)
  {
    var bs := WholeAll(log.items);
    PrintedIsReadBack(log, marker, of);
    RenderedShows(bs, of, fates, pick);
    ShownIsJudged(Rendered(bs, of), fates, pick);
  }

  /** A kept log in which no line starts the trial is void, end to end, and never measured. */
  lemma ALogWithoutTheTrialIsVoid(lines: seq<string>, marker: string, outcomes: seq<string>, pick: string)
    requires (forall k :: 0 <= k < |lines| ==> Free(lines[k], '\n')) && NoStartIn(Stripped(lines), marker)
    ensures var r := ReadChartRefusal(outcomes, AnswersIn(Join(lines, '\n'), marker), pick);
            && !r.measured && r.void.Some?
            && (r.void == Some(PromptLost) <==> |outcomes| > 0 && outcomes[0] == "refused")
  {
    NoStartIsNoTrial(lines, marker);
    ALostPromptIsVoid(outcomes, pick);
  }
}
