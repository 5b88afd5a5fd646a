/**
 * Two printed trials that features/lib/model-chart.ts (readChartRefusal) misjudges, each from its lines on:
 * one in which a call was cut, and one in which the Menu's refusal holds a line end and is not read.
 */
module Misjudged {
  import opened Wrappers
  import opened Flat
  import opened Text
  import opened Lines
  import opened Answers
  import opened Matching
  import opened Conversations
  import opened RoundTrip
  import opened ReadBack
  import opened Chart
  import opened EndToEnd

  /** A body of one line, by the Agent of the trial's own prompt. */
  function Says(own: Item, kind: Kind, text: string): Item { Item(own.agent, own.iid, kind, [text]) }

  lemma SaysIsHeard(own: Item, kind: Kind, text: string)
    ensures HeardOf(Says(own, kind, text)) == if OneLine(text) then [Opening(Says(own, kind, text))] else []
  {
    var it := Says(own, kind, text);
    assert it.body[1..] == [];
  }

  lemma FlattenMore<A, B>(f: A -> seq<B>, xs: seq<A>, x: A)
    ensures Flatten(f, xs + [x]) == Flatten(f, xs) + f(x)
  {
    assert (xs + [x])[..|xs|] == xs;
  }

  lemma FlattenSix<A, B>(f: A -> seq<B>, a: A, b: A, c: A, d: A, e: A, g: A)
    ensures Flatten(f, [a, b, c, d, e, g]) == f(a) + f(b) + f(c) + f(d) + f(e) + f(g)
  {
    assert [a, b, c, d, e, g] == [a, b, c, d, e] + [g] && [a, b, c, d, e] == [a, b, c, d] + [e];
    assert [a, b, c, d] == [a, b, c] + [d] && [a, b, c] == [a, b] + [c] && [a, b] == [a] + [b] && [a] == [] + [a];
    FlattenMore(f, [], a);
    FlattenMore(f, [a], b);
    FlattenMore(f, [a, b], c);
    FlattenMore(f, [a, b, c], d);
    FlattenMore(f, [a, b, c, d], e);
    FlattenMore(f, [a, b, c, d, e], g);
  }

  /** A text on one line that says nothing but a verdict. */
  predicate IsVerdictText(text: string) { OneLine(text) && !(STALE <= text) && !(NOT_KNOWN <= text) }

  /** The texts of a trial: three calls of the pick, the answers of the first and the third, and what was
      printed between the second and the third. */
  datatype Script = Script(first: string, refused: string, second: string, between: string, third: string,
                           admitted: string)

  ghost predicate IsScript(own: Item, s: Script, pick: string, marker: string) {
    && Speaks(own, [], marker) && IsCall(pick) && IsSnake(pick)
    && OneLine(s.first) && OneLine(s.second) && OneLine(s.third)
    && IsVerdictText(s.refused) && IsVerdictText(s.admitted) && Free(s.between, '\n')
  }

  /** The first call is refused at the door; the second has an answer, or not; the third is admitted. */
  function TrialOfThree(own: Item, s: Script, pick: string, between: Kind): seq<Item> {
    [Says(own, AsCall(pick), s.first), Says(own, AsReply(pick, false), s.refused),
     Says(own, AsCall(pick), s.second), Says(own, between, s.between),
     Says(own, AsCall(pick), s.third), Says(own, AsReply(pick, false), s.admitted)]
  }

  function PrintedAlone(own: Item, items: seq<Item>): string { Join(Print(own) + Flatten(Print, items), '\n') }

  lemma ThreeSpeak(own: Item, s: Script, pick: string, between: Kind, marker: string)
    requires IsScript(own, s, pick, marker) && WellFormedKind(between)
    requires between.AsPrompt? && OneLine(s.between) ==> !IsFrame(s.between)
    ensures var items := TrialOfThree(own, s, pick, between);
            Speaks(own, items, marker) && AllPrompted(own, items) && Bodied(items)
  {
  }

  /** The events of the calls and answers. */
  function Call(own: Item, pick: string, text: string): Event { Called(own.agent, pick, text) }

  function Answer(own: Item, pick: string, text: string): Event { Replied(own.agent, pick, false, text) }

  /** What is heard between the second call and the third. */
  function Between(own: Item, s: Script, between: Kind): seq<Event> {
    if OneLine(s.between) then [Opening(Says(own, between, s.between))] else []
  }

  lemma ThreeAreHeard(own: Item, s: Script, pick: string, between: Kind, marker: string)
    requires IsScript(own, s, pick, marker)
    ensures Flatten(HeardOf, TrialOfThree(own, s, pick, between)) ==
            [Call(own, pick, s.first), Answer(own, pick, s.refused), Call(own, pick, s.second)]
            + Between(own, s, between) + [Call(own, pick, s.third)] + [Answer(own, pick, s.admitted)]
  {
    SaysIsHeard(own, AsCall(pick), s.first);
    SaysIsHeard(own, AsReply(pick, false), s.refused);
    SaysIsHeard(own, AsCall(pick), s.second);
    SaysIsHeard(own, between, s.between);
    SaysIsHeard(own, AsCall(pick), s.third);
    SaysIsHeard(own, AsReply(pick, false), s.admitted);
    SixHeard(Says(own, AsCall(pick), s.first), Says(own, AsReply(pick, false), s.refused),
             Says(own, AsCall(pick), s.second), Says(own, between, s.between),
             Says(own, AsCall(pick), s.third), Says(own, AsReply(pick, false), s.admitted),
             Call(own, pick, s.first), Answer(own, pick, s.refused), Call(own, pick, s.second),
             Between(own, s, between), Call(own, pick, s.third), Answer(own, pick, s.admitted));
  }

  lemma SixHeard(a: Item, b: Item, c: Item, d: Item, e: Item, g: Item,
                 ha: Event, hb: Event, hc: Event, hd: seq<Event>, he: Event, hg: Event)
    requires HeardOf(a) == [ha] && HeardOf(b) == [hb] && HeardOf(c) == [hc] && HeardOf(d) == hd
    requires HeardOf(e) == [he] && HeardOf(g) == [hg]
    ensures Flatten(HeardOf, [a, b, c, d, e, g]) == [ha, hb, hc] + hd + [he] + [hg]
  {
    FlattenSix(HeardOf, a, b, c, d, e, g);
    assert [ha] + [hb] + [hc] == [ha, hb, hc];
  }

  // ---- the reader, event by event ------------------------------------------------------------------

  lemma ReadFirstCall(out: seq<Answered>, open: Sink, agent: string, name: string, text: string)
    requires Ok(Reader(out, map[], open))
    ensures Read(Reader(out, map[], open), Called(agent, name, text)) ==
            Reader(out + [Answered(name, text, None, false)], map[(agent, name) := [|out|]], InputOf(|out|))
  {
    assert [] + [|out|] == [|out|];
  }

  lemma ReadNextCall(out: seq<Answered>, queue: seq<nat>, open: Sink, agent: string, name: string, text: string)
    requires Ok(Reader(out, map[(agent, name) := queue], open))
    ensures Read(Reader(out, map[(agent, name) := queue], open), Called(agent, name, text)) ==
            Reader(out + [Answered(name, text, None, false)], map[(agent, name) := queue + [|out|]], InputOf(|out|))
  {
  }

  lemma ReadAnswer(out: seq<Answered>, queue: seq<nat>, open: Sink, agent: string, name: string, text: string)
    requires queue != [] && Ok(Reader(out, map[(agent, name) := queue], open)) && queue[0] < |out|
    ensures Read(Reader(out, map[(agent, name) := queue], open), Replied(agent, name, false, text)) ==
            Reader(out[queue[0] := out[queue[0]].(answer := Some(text))], map[(agent, name) := queue[1..]],
                   AnswerOf(queue[0]))
  {
  }

  function FirstEntry(s: Script, pick: string): Answered { Answered(pick, s.first, Some(s.refused), false) }

  /** After the first answer and the second call. */
  function AfterTwo(own: Item, s: Script, pick: string): Reader {
    Reader([FirstEntry(s, pick), Answered(pick, s.second, None, false)], map[(own.agent, pick) := [1]], InputOf(1))
  }

  lemma FedTwo(own: Item, s: Script, pick: string)
    ensures Fed([Call(own, pick, s.first), Answer(own, pick, s.refused), Call(own, pick, s.second)])
            == AfterTwo(own, s, pick)
  {
    var c, a, d := Call(own, pick, s.first), Answer(own, pick, s.refused), Call(own, pick, s.second);
    FedMore([], c);
    FedMore([c], a);
    FedMore([c, a], d);
    assert [] + [c] == [c] && [c] + [a] == [c, a] && [c, a] + [d] == [c, a, d];
    var called := Answered(pick, s.first, None, false);
    ReadFirstCall([], Nowhere, own.agent, pick, s.first);
    assert [] + [called] == [called];
    ReadAnswer([called], [0], InputOf(0), own.agent, pick, s.refused);
    assert [called][0 := FirstEntry(s, pick)] == [FirstEntry(s, pick)] && [0][1..] == [];
    ReadNextCall([FirstEntry(s, pick)], [], AnswerOf(0), own.agent, pick, s.second);
    assert [] + [1] == [1];
  }

  lemma AfterTwoIsOk(own: Item, s: Script, pick: string)
    ensures Ok(AfterTwo(own, s, pick))
  {
    FedTwo(own, s, pick);
  }

  /** The last call and the last answer, when the second call still waits. */
  lemma FedOnOpen(own: Item, s: Script, pick: string)
    ensures var r := AfterTwo(own, s, pick);
            Ok(r) && Ok(Read(r, Call(own, pick, s.third)))
            && Read(Read(r, Call(own, pick, s.third)), Answer(own, pick, s.admitted)).out ==
               [FirstEntry(s, pick), Answered(pick, s.second, Some(s.admitted), false),
                Answered(pick, s.third, None, false)]
  {
    var r := AfterTwo(own, s, pick);
    AfterTwoIsOk(own, s, pick);
    ReadOk(r, Call(own, pick, s.third));
    ReadNextCall(r.out, [1], InputOf(1), own.agent, pick, s.third);
    assert [1] + [2] == [1, 2];
    ReadAnswer(r.out + [Answered(pick, s.third, None, false)], [1, 2], InputOf(2), own.agent, pick, s.admitted);
  }

  /** And when a prompt closed it. */
  lemma FedOnClosed(own: Item, s: Script, pick: string, text: string)
    ensures var r := AfterTwo(own, s, pick);
            var p := Prompted(own.agent, text);
            Ok(r) && Ok(Read(r, p)) && Ok(Read(Read(r, p), Call(own, pick, s.third)))
            && Read(Read(Read(r, p), Call(own, pick, s.third)), Answer(own, pick, s.admitted)).out ==
               [FirstEntry(s, pick), Answered(pick, s.second, None, false),
                Answered(pick, s.third, Some(s.admitted), false)]
  {
    var r, p := AfterTwo(own, s, pick), Prompted(own.agent, text);
    AfterTwoIsOk(own, s, pick);
    ReadOk(r, p);
    ReadOk(Read(r, p), Call(own, pick, s.third));
    ReadFirstCall(r.out, Nowhere, own.agent, pick, s.third);
    ReadAnswer(r.out + [Answered(pick, s.third, None, false)], [2], InputOf(2), own.agent, pick, s.admitted);
  }

  // ---- what happened -------------------------------------------------------------------------------

  /** Three verdicts and the calls and answers that they are of. */
  lemma ThreeHappened(own: Item, s: Script, pick: string, between: Kind, of: seq<Option<nat>>, second: Fate)
    requires IsVerdictText(s.refused) && IsVerdictText(s.admitted) && !between.AsCall?
    requires |of| == 6 && of == [None, Some(0), None, of[3], None, Some(4)]
    requires if of[3].None? then second.Cut?
             else between.AsReply? && of[3] == Some(2) && !second.Other? && Tells(s.between, between.isError, second)
    ensures var items := TrialOfThree(own, s, pick, between);
            Bodied(items) && Happened(WholeAll(items), of, [AtDoor(Refused), second, AtDoor(Admitted)], pick)
  {
    var items := TrialOfThree(own, s, pick, between);
    var bs := WholeAll(items);
    assert bs[1] == Answer(own, pick, s.refused) && bs[5] == Answer(own, pick, s.admitted);
    assert between.AsReply? ==> bs[3] == Replied(own.agent, between.pick, between.isError, s.between);
    ThreeAreShown(bs, of, pick, second);
  }

  lemma ThreeAreShown(bs: seq<Event>, of: seq<Option<nat>>, pick: string, second: Fate)
    requires |bs| == 6 && |of| == 6 && of == [None, Some(0), None, of[3], None, Some(4)]
    requires forall k :: 0 <= k < 6 ==> (bs[k].Called? <==> k % 2 == 0)
    requires bs[0].name == bs[2].name == bs[4].name == pick && bs[1].Replied? && bs[5].Replied?
    requires Tells(bs[1].body, bs[1].isError, AtDoor(Refused)) && Tells(bs[5].body, bs[5].isError, AtDoor(Admitted))
    requires if of[3].None? then second.Cut?
             else of[3] == Some(2) && bs[3].Replied? && !second.Other? && Tells(bs[3].body, bs[3].isError, second)
    ensures Happened(bs, of, [AtDoor(Refused), second, AtDoor(Admitted)], pick)
  {
    CallsOfThree(bs);
    var fates := [AtDoor(Refused), second, AtDoor(Admitted)];
    assert of[1] == Some(0) && of[5] == Some(4);
    assert IsShown(bs, of, 0, fates[0], pick);
    assert IsShown(bs, of, 2, fates[1], pick);
    assert IsShown(bs, of, 4, fates[2], pick);
  }

  lemma CallsOfThree(bs: seq<Event>)
    requires |bs| == 6 && forall k :: 0 <= k < 6 ==> (bs[k].Called? <==> k % 2 == 0)
    ensures Calls(bs) == [0, 2, 4]
  {
    assert bs[..0] == [] && bs[..6] == bs;
    CallsPair(bs, 0);
    CallsPair(bs, 2);
    CallsPair(bs, 4);
    assert [] + [0] == [0] && [0] + [2] == [0, 2] && [0, 2] + [4] == [0, 2, 4];
  }

  lemma CallsPair(bs: seq<Event>, k: nat)
    requires k + 1 < |bs| && bs[k].Called? && !bs[k + 1].Called?
    ensures Calls(bs[..k + 2]) == Calls(bs[..k]) + [k]
  {
    CallsStep(bs, k);
    CallsStep(bs, k + 1);
  }

  lemma CallsStep(bs: seq<Event>, k: nat)
    requires k < |bs|
    ensures Calls(bs[..k + 1]) == if bs[k].Called? then Calls(bs[..k]) + [k] else Calls(bs[..k])
  {
    assert bs[..k + 1] == bs[..k] + [bs[k]];
    CallsMore(bs[..k], bs[k]);
  }

  // ---- and how it is judged ------------------------------------------------------------------------

  lemma ShowsVerdict(pick: string, input: string, text: string, v: Verdict)
    requires IsVerdictText(text)
    ensures Shows(Answered(pick, input, Some(text), false), AtDoor(v), pick)
  {
  }

  /**
   * A trial in which the second call was cut, as a provider error cuts it, and a prompt closed it. Its
   * printed conversation is read back as it happened; and it is judged as measured, though the pick
   * after the refusal never reached the door.
   */
  lemma APrintedCutIsMisjudged(own: Item, s: Script, pick: string, marker: string)
    requires IsScript(own, s, pick, marker) && OneLine(s.between) && !IsFrame(s.between)
    ensures var items := TrialOfThree(own, s, pick, AsPrompt);
            var fates := [AtDoor(Refused), Cut(None), AtDoor(Admitted)];
            && Bodied(items)
            && Happened(WholeAll(items), [None, Some(0), None, None, None, Some(4)], fates, pick)
            && ReadChartRefusal(Outcomes(fates), AnswersIn(PrintedAlone(own, items), marker), pick).measured
            && !PickedAgain(fates)
  {
    ThreeHappened(own, s, pick, AsPrompt, [None, Some(0), None, None, None, Some(4)], Cut(None));
    CutIsHeard(own, s, pick, marker);
    CutIsJudged(s, pick);
  }

  lemma CutIsJudged(s: Script, pick: string)
    requires IsVerdictText(s.refused) && IsVerdictText(s.admitted)
    ensures var fates := [AtDoor(Refused), Cut(None), AtDoor(Admitted)];
            var answered := [FirstEntry(s, pick), Answered(pick, s.second, None, false),
                             Answered(pick, s.third, Some(s.admitted), false)];
            ReadChartRefusal(Outcomes(fates), Some(answered), pick).measured && !PickedAgain(fates)
  {
    ShowsVerdict(pick, s.first, s.refused, Refused);
    ShowsVerdict(pick, s.third, s.admitted, Admitted);
    ACutAfterTheRefusalIsMisread([FirstEntry(s, pick), Answered(pick, s.second, None, false),
                                  Answered(pick, s.third, Some(s.admitted), false)], pick);
  }

  lemma CutIsHeard(own: Item, s: Script, pick: string, marker: string)
    requires IsScript(own, s, pick, marker) && OneLine(s.between) && !IsFrame(s.between)
    ensures AnswersIn(PrintedAlone(own, TrialOfThree(own, s, pick, AsPrompt)), marker) ==
            Some([FirstEntry(s, pick), Answered(pick, s.second, None, false),
                  Answered(pick, s.third, Some(s.admitted), false)])
  {
    ThreeSpeak(own, s, pick, AsPrompt, marker);
    ConversationIsHeard(own, TrialOfThree(own, s, pick, AsPrompt), marker);
    ThreeAreHeard(own, s, pick, AsPrompt, marker);
    var two := [Call(own, pick, s.first), Answer(own, pick, s.refused), Call(own, pick, s.second)];
    var p := Prompted(own.agent, s.between);
    assert Between(own, s, AsPrompt) == [p];
    FedTwo(own, s, pick);
    FedMore(two, p);
    FedMore(two + [p], Call(own, pick, s.third));
    FedMore(two + [p] + [Call(own, pick, s.third)], Answer(own, pick, s.admitted));
    FedOnClosed(own, s, pick, s.between);
  }

  /**
   * A trial in which the Menu refused the second call, with a text that holds a line end. The refusal is
   * printed and not heard, so the answer of the third call is read as that of the second: the trial is
   * judged as measured, though the pick after the refusal never reached the door.
   */
  lemma ALostRefusalIsAFalsePass(own: Item, s: Script, pick: string, marker: string)
    requires IsScript(own, s, pick, marker)
    requires !OneLine(s.between) && !(STALE <= s.between) && !(NOT_KNOWN <= s.between)
    ensures var items := TrialOfThree(own, s, pick, AsReply(pick, true));
            var fates := [AtDoor(Refused), MenuRefused, AtDoor(Admitted)];
            && Bodied(items)
            && Happened(WholeAll(items), [None, Some(0), None, Some(2), None, Some(4)], fates, pick)
            && ReadChartRefusal(Outcomes(fates), AnswersIn(PrintedAlone(own, items), marker), pick).measured
            && !PickedAgain(fates)
  {
    ThreeHappened(own, s, pick, AsReply(pick, true), [None, Some(0), None, Some(2), None, Some(4)], MenuRefused);
    BetweenIsNotHeard(own, s, pick, AsReply(pick, true), marker);
    LostIsJudged(s, pick);
  }

  lemma LostIsJudged(s: Script, pick: string)
    requires IsVerdictText(s.refused) && IsVerdictText(s.admitted)
    ensures var fates := [AtDoor(Refused), MenuRefused, AtDoor(Admitted)];
            var answered := [FirstEntry(s, pick), Answered(pick, s.second, Some(s.admitted), false),
                             Answered(pick, s.third, None, false)];
            ReadChartRefusal(Outcomes(fates), Some(answered), pick).measured && !PickedAgain(fates)
  {
    ShowsVerdict(pick, s.first, s.refused, Refused);
    ShowsVerdict(pick, s.second, s.admitted, Admitted);
    SameOutcomes();
    ReadsAs([FirstEntry(s, pick), Answered(pick, s.second, Some(s.admitted), false),
             Answered(pick, s.third, None, false)],
            [AtDoor(Refused), AtDoor(Admitted), Cut(None)], pick, Landmarks(0, 1, 0, 1), 1);
    PickedExactly([AtDoor(Refused), MenuRefused, AtDoor(Admitted)], 0, 1);
  }

  lemma SameOutcomes()
    ensures Outcomes([AtDoor(Refused), MenuRefused, AtDoor(Admitted)])
            == Outcomes([AtDoor(Refused), AtDoor(Admitted), Cut(None)])
  {
    var a, b := [AtDoor(Refused), MenuRefused, AtDoor(Admitted)], [AtDoor(Refused), AtDoor(Admitted), Cut(None)];
    assert a[..2][..1] == [AtDoor(Refused)] == b[..2][..1] && a[..2][1] == MenuRefused && b[..2][1] == AtDoor(Admitted);
    assert Outcomes(a[..2]) == Outcomes([AtDoor(Refused)]);
    assert Outcomes(b[..2]) == Outcomes([AtDoor(Refused)]) + ["admitted"];
  }

  /** What is printed between the second call and the third is not heard: the answer of the third call is
      read as that of the second. */
  lemma BetweenIsNotHeard(own: Item, s: Script, pick: string, between: Kind, marker: string)
    requires IsScript(own, s, pick, marker) && WellFormedKind(between) && !OneLine(s.between)
    ensures AnswersIn(PrintedAlone(own, TrialOfThree(own, s, pick, between)), marker) ==
            Some([FirstEntry(s, pick), Answered(pick, s.second, Some(s.admitted), false),
                  Answered(pick, s.third, None, false)])
  {
    ThreeSpeak(own, s, pick, between, marker);
    ConversationIsHeard(own, TrialOfThree(own, s, pick, between), marker);
    ThreeAreHeard(own, s, pick, between, marker);
    var two := [Call(own, pick, s.first), Answer(own, pick, s.refused), Call(own, pick, s.second)];
    assert two + Between(own, s, between) == two;
    FedTwo(own, s, pick);
    FedMore(two, Call(own, pick, s.third));
    FedMore(two + [Call(own, pick, s.third)], Answer(own, pick, s.admitted));
    FedOnOpen(own, s, pick);
  }

  /** A prompt whose first line holds a line end closes nothing: the second call, which was cut, is read
      with the answer of the third, and the third with none. */
  lemma ALostPromptLetsAnAnswerCross(own: Item, s: Script, pick: string, marker: string)
    requires IsScript(own, s, pick, marker) && !OneLine(s.between)
    ensures var answered := AnswersIn(PrintedAlone(own, TrialOfThree(own, s, pick, AsPrompt)), marker);
            && answered.Some? && |answered.value| == 3
            && answered.value[1].answer == Some(s.admitted) && answered.value[2].answer == None
  {
    BetweenIsNotHeard(own, s, pick, AsPrompt, marker);
  }
}
