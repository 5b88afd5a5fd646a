/**
 * Printing a trial's conversation and reading it: what is heard, whatever was printed
 * (packages/harness/src/printer.ts, printLines; features/lib/model-said.ts, answersIn).
 */
module RoundTrip {
  import opened Wrappers
  import opened Flat
  import opened Text
  import opened Lines
  import opened Answers
  import opened Called
  import opened Matching
  import opened Conversations
  import opened Runs

  // ---- a prompt's first line -----------------------------------------------------------------------

  /** A prompt's first line without its Instance ID. */
  function PromptLine(agent: string, body: string): string { Box(agent, " " + Box("prompt", " " + body)) }

  /** A prompt's first line, as the readings search for it. */
  predicate IsPromptLine(line: string) {
    var a := Bracketed(line);
    a.Some? && " [prompt] " <= a.value.after
  }

  lemma PromptIsATag()
    ensures Inner("prompt") && OneLine("prompt") && !IsIid("prompt")
  {
    PromptIsNoIid();
  }

  lemma PromptLineBrackets(agent: string, body: string)
    requires Inner(agent)
    ensures var a := Bracketed(PromptLine(agent, body));
            a.Some? && a.value.inner == agent && " [prompt] " <= a.value.after
  {
    var after := " " + Box("prompt", " " + body);
    BracketedBox(agent, after);
    assert after == " [prompt] " + body;
  }

  lemma PromptLineHasNoIid(agent: string, body: string)
    requires Inner(agent) && OneLine(body)
    ensures WithoutIid(PromptLine(agent, body)) == PromptLine(agent, body)
  {
    PromptIsATag();
    BoxIsOneLine("prompt", body);
    BracketedBox("prompt", " " + body);
    ReadAgain(agent, Box("prompt", " " + body));
  }

  lemma PromptLinePrompts(agent: string, body: string)
    requires Inner(agent) && OneLine(body)
    ensures PromptAgent(PromptLine(agent, body)) == Some(agent)
  {
    PromptLineHasNoIid(agent, body);
    PromptLineBrackets(agent, body);
  }

  lemma PromptPrinted(it: Item)
    requires it.body != [] && WellFormed(it) && it.kind.AsPrompt? && Opens(it)
    ensures WithoutIid(Print(it)[0]) == PromptLine(it.agent, it.body[0])
  {
    PromptIsATag();
    BoxIsOneLine("prompt", it.body[0]);
    ReadPrinted(it.agent, it.iid, Box("prompt", " " + it.body[0]));
  }

  // ---- a conversation among the lines of a log -----------------------------------------------------

  predicate Carries(line: string, marker: string) { Includes(line, "[" + marker + "]") }

  /** The bodies: the trial's own prompt is heard and carries its marker, and no other prompt is a Frame. */
  ghost predicate Speaks(own: Item, items: seq<Item>, marker: string) {
    && own.kind.AsPrompt? && own.body != [] && WellFormed(own) && Opens(own)
    && Carries(PromptLine(own.agent, own.body[0]), marker)
    && forall i :: 0 <= i < |items| ==> items[i].body != [] && WellFormed(items[i]) && Unmarked(items[i])
  }

  lemma PromptShown(it: Item)
    requires it.body != [] && WellFormed(it) && it.kind.AsPrompt? && Opens(it)
    ensures Shown(it)[0] == PromptLine(it.agent, it.body[0])
    ensures PromptAgent(Shown(it)[0]) == Some(it.agent)
  {
    PromptPrinted(it);
    PromptLinePrompts(it.agent, it.body[0]);
  }

  lemma PromptedHas(lines: seq<string>, l: string)
    requires l in lines && PromptAgent(l).Some?
    ensures PromptAgent(l).value in PromptedAgents(lines)
  {
  }

  // ---- where the trial starts ----------------------------------------------------------------------

  /** No line before starts the trial. */
  ghost predicate NoStartIn(lines: seq<string>, marker: string) {
    forall k :: 0 <= k < |lines| ==> !(IsPromptLine(lines[k]) && Carries(lines[k], marker))
  }

  lemma NoStart(agents: set<string>, marker: string, line: string)
    requires !(IsPromptLine(line) && Carries(line, marker))
    ensures !StartsTrial(agents, Some(marker), line)
  {
  }

  lemma OwnPromptStarts(agents: set<string>, own: Item, marker: string)
    requires own.kind.AsPrompt? && own.body != [] && WellFormed(own) && Opens(own) && own.agent in agents
    requires Carries(PromptLine(own.agent, own.body[0]), marker)
    ensures StartsTrial(agents, Some(marker), Shown(own)[0])
  {
    PromptShown(own);
    PromptLineBrackets(own.agent, own.body[0]);
  }

  /** A printed prompt is one that can start a trial exactly when its first line is heard. */
  lemma PromptIsHeardExactly(it: Item)
    requires it.body != [] && WellFormed(it) && it.kind.AsPrompt?
    ensures IsPromptLine(Shown(it)[0]) <==> Opens(it)
  {
    if Opens(it) {
      PromptShown(it);
      PromptLineBrackets(it.agent, it.body[0]);
    } else {
      PromptIsATag();
      BoxIsOneLine("prompt", it.body[0]);
      ReadPrinted(it.agent, it.iid, Box("prompt", " " + it.body[0]));
      BrokenIsNoPrompt(it.agent, it.iid, Box("prompt", " " + it.body[0]));
    }
  }

  /** Without a line that starts it there is no trial to read. */
  lemma NoStartIsNoTrial(lines: seq<string>, marker: string)
    requires (forall k :: 0 <= k < |lines| ==> Free(lines[k], '\n')) && NoStartIn(Stripped(lines), marker)
    ensures AnswersIn(Join(lines, '\n'), marker).None?
  {
    var stripped := Stripped(lines);
    var agents := PromptedAgents(stripped);
    forall k | 0 <= k < |stripped|
      ensures !StartsTrial(agents, Some(marker), stripped[k])
    {
      NoStart(agents, marker, stripped[k]);
    }
    NeverFirst(Starter(agents, Some(marker)), stripped);
    TrialOfLines(lines, marker);
  }

  // ---- what is heard after it ----------------------------------------------------------------------

  lemma HeardTail(hear: string -> Heard, lines: seq<string>, more: string -> Heard, body: seq<string>)
    requires |lines| == |body| && body != [] && forall k :: 1 <= k < |lines| ==> hear(lines[k]) == more(body[k])
    ensures Map(hear, lines[1..]) == Map(more, body[1..])
  {
    assert forall k :: 0 <= k < |lines| - 1 ==> lines[1..][k] == lines[k + 1] && body[1..][k] == body[k + 1];
    MapSame(hear, lines[1..], more, body[1..]);
  }

  lemma LaterLinesAreHeard(agents: set<string>, own: Item)
    requires own.body != [] && WellFormed(own) && own.agent in agents
    ensures Map(Hearer(agents), Shown(own)[1..]) == Map(HeardMore, own.body[1..])
  {
    forall k | 1 <= k < |Shown(own)|
      ensures Hearer(agents)(Shown(own)[k]) == HeardMore(own.body[k])
    {
      LaterLineIsHeard(agents, own, k);
    }
    HeardTail(Hearer(agents), Shown(own), HeardMore, own.body);
  }

  lemma LaterLineIsHeard(agents: set<string>, own: Item, k: nat)
    requires own.body != [] && WellFormed(own) && own.agent in agents && 1 <= k < |own.body|
    ensures Hear(agents, Shown(own)[k]) == HeardMore(own.body[k])
  {
    assert Print(own)[k] == PrintLine(own.agent, own.iid, own.body[k]);
    LaterLineRead(agents, own.agent, own.iid, own.body[k]);
  }

  lemma CollectParts(hear: string -> Heard, a: seq<string>, b: seq<string>, post: seq<string>)
    requires NoEnd(Map(hear, a)) && NoEnd(Map(hear, b)) && (post != [] ==> hear(post[0]) == TrialEnd)
    ensures Collect(Map(hear, a + b + post)) == Collect(Map(hear, a)) + Collect(Map(hear, b))
  {
    MapConcat(hear, a + b, post);
    MapConcat(hear, a, b);
    CollectConcat(Map(hear, a), Map(hear, b));
    CollectConcat(Map(hear, a) + Map(hear, b), Map(hear, post));
    assert Collect(Map(hear, post)) == [];
  }

  /** The later lines of the trial's own prompt that are heard, as events. */
  function OwnLater(own: Item): seq<Event>
    requires own.body != []
  {
    Map(MoreOf, Legible(own.body[1..]))
  }

  /** After the trial's own prompt its later lines are heard, then the conversation, and then nothing
      more of the trial, whatever silent lines are among them. */
  lemma HeardAfter(agents: set<string>, own: Item, items: seq<Item>, rest: seq<string>, ours: seq<bool>,
                   post: seq<string>)
    requires own.body != [] && WellFormed(own) && own.agent in agents && Readable(agents, items)
    requires |ours| == |rest| && OthersAreSilent(Hearer(agents), rest, ours)
    requires Chosen(rest, ours) == Shown(own)[1..] + Flatten(Shown, items)
    requires post != [] ==> Hear(agents, post[0]) == TrialEnd
    ensures Events(agents, rest + post) == OwnLater(own) + Flatten(HeardOf, items)
  {
    LaterLinesAreHeard(agents, own);
    CollectMores(own.body[1..]);
    AllIsHeard(agents, items);
    CollectAll(items);
    SilentLinesAreDropped(Hearer(agents), rest, ours, post);
    CollectParts(Hearer(agents), Shown(own)[1..], Flatten(Shown, items), post);
  }

  /** The trial is what follows the first line that starts it. */
  lemma TrialStartsAfter(pre: seq<string>, mid: seq<string>, post: seq<string>, marker: string)
    requires mid != [] && NoStartIn(pre, marker)
    requires StartsTrial(PromptedAgents(pre + mid + post), Some(marker), mid[0])
    ensures TrialIn(pre + mid + post, Some(marker)) == Some(Trial(PromptedAgents(pre + mid + post), mid[1..] + post))
  {
    var lines, rest := pre + mid + post, mid + post;
    var agents := PromptedAgents(lines);
    forall k | 0 <= k < |pre|
      ensures !StartsTrial(agents, Some(marker), pre[k])
    {
      NoStart(agents, marker, pre[k]);
    }
    assert pre + rest == lines && rest[0] == mid[0] && rest[1..] == mid[1..] + post;
    AfterFirstOf(Starter(agents, Some(marker)), pre, rest);
  }

  lemma OwnIsPrompted(lines: seq<string>, own: Item, items: seq<Item>, marker: string)
    requires Speaks(own, items, marker) && Shown(own)[0] in lines
    ensures own.agent in PromptedAgents(lines)
  {
    PromptShown(own);
    PromptedHas(lines, Shown(own)[0]);
  }

  lemma EventsAfter(t: Option<Trial>, agents: set<string>, after: seq<string>, events: seq<Event>)
    requires t == Some(Trial(agents, after)) && Events(agents, after) == events
    ensures t.Some? && Events(t.value.agents, t.value.after) == events
  {
  }

  /** The first line is the trial's own, and so are the chosen ones of the rest. */
  lemma ChosenParts(mid: seq<string>, ours: seq<bool>, a: seq<string>, b: seq<string>)
    requires |ours| == |mid| && mid != [] && ours[0] && a != [] && Chosen(mid, ours) == a + b
    ensures mid[0] == a[0] && Chosen(mid[1..], ours[1..]) == a[1..] + b
  {
    assert (a + b)[0] == a[0] && (a + b)[1..] == a[1..] + b;
    assert Chosen(mid, ours) == [mid[0]] + Chosen(mid[1..], ours[1..]);
  }

  lemma SilentRest(hear: string -> Heard, mid: seq<string>, ours: seq<bool>)
    requires |ours| == |mid| && mid != [] && OthersAreSilent(hear, mid, ours)
    ensures OthersAreSilent(hear, mid[1..], ours[1..])
  {
  }

  /** The reader reads the trial's own conversation, and nothing else of the lines. */
  lemma ReadsFrom(pre: seq<string>, mid: seq<string>, ours: seq<bool>, own: Item, items: seq<Item>, post: seq<string>,
                  marker: string)
    requires Speaks(own, items, marker) && NoStartIn(pre, marker)
    requires |ours| == |mid| && mid != [] && ours[0] && Chosen(mid, ours) == Shown(own) + Flatten(Shown, items)
    requires Readable(PromptedAgents(pre + mid + post), items)
    requires OthersAreSilent(Hearer(PromptedAgents(pre + mid + post)), mid, ours)
    requires post != [] ==> Hear(PromptedAgents(pre + mid + post), post[0]) == TrialEnd
    ensures var t := TrialIn(pre + mid + post, Some(marker));
            t.Some? && Events(t.value.agents, t.value.after) == OwnLater(own) + Flatten(HeardOf, items)
  {
    var lines := pre + mid + post;
    var agents := PromptedAgents(lines);
    ChosenParts(mid, ours, Shown(own), Flatten(Shown, items));
    assert lines[|pre|] == mid[0];
    OwnIsPrompted(lines, own, items, marker);
    SilentRest(Hearer(agents), mid, ours);
    OwnPromptStarts(agents, own, marker);
    TrialStartsAfter(pre, mid, post, marker);
    HeardAfter(agents, own, items, mid[1..], ours[1..], post);
    EventsAfter(TrialIn(lines, Some(marker)), agents, mid[1..] + post, OwnLater(own) + Flatten(HeardOf, items));
  }

  // ---- the log -------------------------------------------------------------------------------------

  /**
   * A kept log: anything before the trial's own prompt, then that prompt and the trial's conversation
   * as printed, each line with or without a time stamp, with lines that say nothing to the reader among
   * them, and then nothing, or another trial's Frame and anything after it. `ours` marks the trial's own
   * of the lines from its prompt on.
   */
  datatype Log = Log(pre: seq<string>, own: Item, items: seq<Item>, mid: seq<string>, ours: seq<bool>,
                     next: Option<Item>, post: seq<string>)

  function AllLines(log: Log): seq<string> { log.pre + log.mid + log.post }

  /** The prompt that another trial starts with, and that is heard. */
  ghost predicate IsNextFrame(it: Item) {
    it.body != [] && WellFormed(it) && it.kind.AsPrompt? && Opens(it) && IsFrame(it.body[0])
  }

  /** The printed lines are those of the trial's own prompt and its conversation, with or without their
      time stamps. */
  ghost predicate IsPrintOf(printed: seq<string>, own: Item, items: seq<Item>) {
    var lines := Print(own) + Flatten(Print, items);
    |printed| == |lines| && forall k :: 0 <= k < |printed| ==> IsStamped(printed[k], lines[k])
  }

  /** The rest of the log is nothing, or begins with another trial's Frame. */
  ghost predicate IsRest(post: seq<string>, next: Option<Item>) {
    post != [] ==> next.Some? && IsNextFrame(next.value) && IsStamped(post[0], Print(next.value)[0])
  }

  /** The Agents whose prompt is heard anywhere in the log. */
  function AgentsOf(log: Log): set<string> { PromptedAgents(Stripped(AllLines(log))) }

  ghost predicate Keeps(log: Log, marker: string) {
    && (forall k :: 0 <= k < |AllLines(log)| ==> Free(AllLines(log)[k], '\n'))
    && NoStartIn(Stripped(log.pre), marker)
    && |log.ours| == |log.mid| && log.mid != [] && log.ours[0]
    && IsPrintOf(Chosen(log.mid, log.ours), log.own, log.items)
    && OthersAreSilent(Hearer(AgentsOf(log)), Stripped(log.mid), log.ours)
    && (forall i :: 0 <= i < |log.items| ==> log.items[i].agent in AgentsOf(log))
    && IsRest(log.post, log.next)
  }

  function Strip(raw: string): string { WithoutIid(Untimed(raw)) }

  lemma StrippedIsMap(raw: seq<string>)
    ensures Stripped(raw) == Map(Strip, raw)
  {
    var lines, mapped := Stripped(raw), Map(Strip, raw);
    forall k | 0 <= k < |raw|
      ensures lines[k] == mapped[k]
    {
      MapAt(Strip, raw, k);
    }
  }

  lemma StrippedConcat(a: seq<string>, b: seq<string>, c: seq<string>)
    ensures Stripped(a + b + c) == Stripped(a) + Stripped(b) + Stripped(c)
  {
    StrippedIsMap(a);
    StrippedIsMap(b);
    StrippedIsMap(c);
    StrippedIsMap(a + b + c);
    MapConcat(Strip, a + b, c);
    MapConcat(Strip, a, b);
  }

  function Bare(lines: seq<string>): seq<string> { Map(WithoutIid, lines) }

  lemma {:induction false} BareFlatten(items: seq<Item>)
    ensures Bare(Flatten(Print, items)) == Flatten(Shown, items)
  {
    if items != [] {
      var n := |items| - 1;
      BareFlatten(items[..n]);
      MapConcat(WithoutIid, Flatten(Print, items[..n]), Print(items[n]));
      BarePrint(items[n]);
    }
  }

  lemma BarePrint(it: Item)
    ensures Bare(Print(it)) == Shown(it)
  {
    forall k | 0 <= k < |it.body|
      ensures Bare(Print(it))[k] == Shown(it)[k]
    {
      MapAt(WithoutIid, Print(it), k);
    }
  }

  lemma StrippedIsBare(printed: seq<string>, lines: seq<string>)
    requires |printed| == |lines| && forall k :: 0 <= k < |printed| ==> Untimed(printed[k]) == lines[k]
    ensures Stripped(printed) == Bare(lines)
  {
    forall k | 0 <= k < |lines|
      ensures Stripped(printed)[k] == Bare(lines)[k]
    {
      MapAt(WithoutIid, lines, k);
    }
  }

  lemma {:induction false} PrintsOpen(items: seq<Item>, k: nat)
    requires k < |Flatten(Print, items)|
    ensures Flatten(Print, items)[k] != "" && Flatten(Print, items)[k][0] == '['
  {
    var n := |items| - 1;
    if k < |Flatten(Print, items[..n])| { PrintsOpen(items[..n], k); }
  }

  lemma StrippedPrint(printed: seq<string>, own: Item, items: seq<Item>)
    requires IsPrintOf(printed, own, items)
    ensures Stripped(printed) == Shown(own) + Flatten(Shown, items)
  {
    var lines := Print(own) + Flatten(Print, items);
    forall k | 0 <= k < |lines|
      ensures Untimed(printed[k]) == lines[k]
    {
      assert IsStamped(printed[k], lines[k]);
      if k >= |Print(own)| { PrintsOpen(items, k - |Print(own)|); }
      UntimedStamped(printed[k], lines[k]);
    }
    StrippedIsBare(printed, lines);
    MapConcat(WithoutIid, Print(own), Flatten(Print, items));
    BarePrint(own);
    BareFlatten(items);
  }

  /** Another trial's Frame ends the reading, by whichever Agent. */
  lemma FrameEnds(lines: seq<string>, it: Item)
    requires IsNextFrame(it) && Shown(it)[0] in lines
    ensures Hear(PromptedAgents(lines), Shown(it)[0]) == TrialEnd
  {
    PromptShown(it);
    PromptedHas(lines, Shown(it)[0]);
    PromptIsATag();
    ParseLabelled(PromptedAgents(lines), it.agent, "prompt", it.body[0]);
  }

  lemma RestEnds(before: seq<string>, post: seq<string>, next: Option<Item>)
    requires IsRest(post, next)
    ensures post != [] ==> Hear(PromptedAgents(before + Stripped(post)), Stripped(post)[0]) == TrialEnd
  {
    if post != [] {
      var lines := before + Stripped(post);
      UntimedStamped(post[0], Print(next.value)[0]);
      assert Stripped(post)[0] == Shown(next.value)[0];
      assert lines[|before|] == Shown(next.value)[0];
      FrameEnds(lines, next.value);
    }
  }

  lemma LogReads(log: Log, marker: string)
    requires Speaks(log.own, log.items, marker) && Keeps(log, marker)
    ensures var t := TrialOf(Join(AllLines(log), '\n'), Some(marker));
            t.Some? && Events(t.value.agents, t.value.after) == OwnLater(log.own) + Flatten(HeardOf, log.items)
  {
    var pre, mid, post := Stripped(log.pre), Stripped(log.mid), Stripped(log.post);
    StrippedConcat(log.pre, log.mid, log.post);
    ChosenStripped(log.mid, log.ours);
    StrippedPrint(Chosen(log.mid, log.ours), log.own, log.items);
    RestEnds(pre + mid, log.post, log.next);
    ReadsFrom(pre, mid, log.ours, log.own, log.items, post, marker);
    SplitJoin(AllLines(log), '\n');
  }

  /**
   * What is read, whatever is printed. For every log that keeps a trial's own prompt and its conversation
   * among lines that say nothing to the reader, `answersIn` gives the calls that are heard, each with the
   * lines of its input that are heard and the answer that the matching of what is heard gives it: a line
   * that holds a line end is dropped, and what follows a first line that is dropped falls to the body
   * before it.
   */
  lemma PrintedIsHeard(log: Log, marker: string, m: seq<Option<nat>>)
    requires Speaks(log.own, log.items, marker) && Keeps(log, marker)
    requires IsMatching(Blocks(Flatten(HeardOf, log.items)), m)
    ensures AnswersIn(Join(AllLines(log), '\n'), marker) == Some(Fed(Flatten(HeardOf, log.items)).out)
    ensures AnswersIn(Join(AllLines(log), '\n'), marker) == Some(Rendered(Blocks(Flatten(HeardOf, log.items)), m))
  {
    LogReads(log, marker);
    var heard := Flatten(HeardOf, log.items);
    OwnLaterIsMore(log.own);
    LeadingLinesAreDropped(OwnLater(log.own), heard);
    EventsGiveTheMatching(OwnLater(log.own) + heard, m);
    EventsGiveTheMatching(heard, m);
  }

  lemma OwnLaterIsMore(own: Item)
    requires own.body != []
    ensures forall i :: 0 <= i < |OwnLater(own)| ==> OwnLater(own)[i].More?
  {
    forall i | 0 <= i < |OwnLater(own)|
      ensures OwnLater(own)[i].More?
    {
      MapAt(MoreOf, Legible(own.body[1..]), i);
    }
  }

  /** And `calledIn` gives the calls and the prompts that are heard, in order. */
  lemma PrintedIsCalled(log: Log, marker: string)
    requires Speaks(log.own, log.items, marker) && Keeps(log, marker)
    ensures CalledIn(Join(AllLines(log), '\n'), Some(marker)) == Some(SaidOfAll(Flatten(HeardOf, log.items)))
  {
    LogReads(log, marker);
    var t := TrialOf(Join(AllLines(log), '\n'), Some(marker)).value;
    SaidFromEvents(t.agents, t.after);
    OwnLaterIsMore(log.own);
    MoreSaysNothing(OwnLater(log.own), Flatten(HeardOf, log.items));
  }

  lemma {:induction false} MoreSaysNothing(more: seq<Event>, events: seq<Event>)
    requires forall i :: 0 <= i < |more| ==> more[i].More?
    ensures SaidOfAll(more + events) == SaidOfAll(events)
  {
    if more == [] {
      assert more + events == events;
    } else {
      assert (more + events)[0] == more[0] && (more + events)[1..] == more[1..] + events;
      MoreSaysNothing(more[1..], events);
      assert [] + SaidOfAll(events) == SaidOfAll(events);
    }
  }
}
