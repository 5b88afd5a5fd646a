/**
 * A conversation as it happened, printed in the Harness's line form (packages/harness/src/printer.ts,
 * printLines) and read back with `answersIn` (features/lib/model-said.ts).
 */
module Conversations {
  import opened Wrappers
  import opened Flat
  import opened Text
  import opened Lines
  import opened Answers
  import opened Matching

  datatype Kind = AsPrompt | AsCall(name: string) | AsReply(pick: string, isError: bool) | AsSpeech(tag: string)

  /** One printed body: who printed it, what it is, and its lines. */
  datatype Item = Item(agent: string, iid: string, kind: Kind, body: seq<string>)

  function Tag(kind: Kind): string {
    match kind
    case AsPrompt => "prompt"
    case AsCall(name) => name
    case AsReply(pick, isError) => pick + (if isError then " error" else " answer")
    case AsSpeech(tag) => tag
  }

  predicate WellFormedKind(kind: Kind) {
    match kind
    case AsPrompt => true
    case AsCall(name) => IsCall(name)
    case AsReply(pick, _) => IsSnake(pick)
    case AsSpeech(tag) => tag in {"text", "thinking", "compacted"}
  }

  /** A word in brackets that is no label the reader takes for one. */
  predicate IsNoLabel(tag: string) {
    tag !in NOT_A_CALL && AnswerLabel(tag).None? && !IsCallLabel(tag)
  }

  /** A later line of a body that is read as it was: it opens with no bracket, or with one that holds no
      label and that a space follows. */
  predicate IsLater(text: string) {
    var b := Bracketed(text);
    b.None? || (IsNoLabel(b.value.inner) && b.value.after != "" && b.value.after[0] == ' ')
  }

  /** A body as it is printed, cut at `\n`. A line of it can hold another line end, and then it is not
      heard; a later line that is heard does not open with a label. */
  ghost predicate WellFormed(it: Item) {
    && Inner(it.agent) && Free(it.agent, '\n') && Inner(it.iid) && IsIid(it.iid)
    && WellFormedKind(it.kind) && it.body != []
    && (forall k :: 0 <= k < |it.body| ==> Free(it.body[k], '\n'))
    && forall k :: 1 <= k < |it.body| && OneLine(it.body[k]) ==> IsLater(it.body[k])
  }

  /** The first line of a body is heard. */
  predicate Opens(it: Item)
    requires it.body != []
  {
    OneLine(it.body[0])
  }

  /** A prompt that is no trial's Frame, as far as it is heard. */
  predicate Unmarked(it: Item)
    requires it.body != []
  {
    it.kind.AsPrompt? && Opens(it) ==> !IsFrame(it.body[0])
  }

  /** The printed lines: the label on the first, the Agent and the Instance ID on each. */
  function Print(it: Item): (lines: seq<string>)
    ensures |lines| == |it.body|
  {
    seq(|it.body|, k requires 0 <= k < |it.body| =>
      PrintLine(it.agent, it.iid, if k == 0 then Box(Tag(it.kind), " " + it.body[0]) else it.body[k]))
  }

  // ---- one body, read ------------------------------------------------------------------------------

  /** The first line of a body, as an event. */
  function Opening(it: Item): (e: Event)
    requires it.body != []
    ensures !e.More?
  {
    match it.kind
    case AsPrompt => Prompted(it.agent, it.body[0])
    case AsCall(name) => Called(it.agent, name, it.body[0])
    case AsReply(pick, isError) => Replied(it.agent, pick, isError, it.body[0])
    case AsSpeech(_) => Spoken
  }

  function EventsOf(it: Item): (es: seq<Event>)
    ensures |es| == |it.body|
  {
    seq(|it.body|, k requires 0 <= k < |it.body| => if k == 0 then Opening(it) else More(it.body[k]))
  }

  /** The whole body, as an event. */
  function Whole(it: Item): Event
    requires it.body != []
  {
    match it.kind
    case AsPrompt => Prompted(it.agent, it.body[0])
    case AsCall(name) => Called(it.agent, name, Join(it.body, '\n'))
    case AsReply(pick, isError) => Replied(it.agent, pick, isError, Join(it.body, '\n'))
    case AsSpeech(_) => Spoken
  }

  /** A character that a label can hold. */
  predicate LabelChar(c: char) { c != ']' && !EndsLine(c) }

  lemma CallLabelChars(s: string, i: nat)
    requires IsCallLabel(s) && i < |s|
    ensures LabelChar(s[i])
  {
    if !IsSnake(s) {
      var k := First(s, '/');
      if i < k {
        assert s[..k][i] == s[i];
      } else if i > k {
        assert s[k + 1..][i - k - 1] == s[i];
      }
    }
  }

  lemma ReplyTagChars(pick: string, suffix: string, i: nat)
    requires IsSnake(pick) && suffix in {" answer", " error"} && i < |pick + suffix|
    ensures LabelChar((pick + suffix)[i])
  {
    assert suffix == " answer" || suffix == " error";
    if i < |pick| {
      assert (pick + suffix)[i] == pick[i];
    } else {
      assert (pick + suffix)[i] == suffix[i - |pick|];
    }
  }

  lemma TagChars(kind: Kind, i: nat)
    requires WellFormedKind(kind) && i < |Tag(kind)|
    ensures LabelChar(Tag(kind)[i])
  {
    match kind {
      case AsPrompt =>
      case AsCall(name) => CallLabelChars(name, i);
      case AsReply(pick, isError) => ReplyTagChars(pick, if isError then " error" else " answer", i);
      case AsSpeech(tag) => assert tag == "text" || tag == "thinking" || tag == "compacted";
    }
  }

  lemma TagsStandInBrackets(kind: Kind)
    requires WellFormedKind(kind)
    ensures Inner(Tag(kind)) && OneLine(Tag(kind))
  {
    forall i | 0 <= i < |Tag(kind)|
      ensures LabelChar(Tag(kind)[i])
    {
      TagChars(kind, i);
    }
  }

  /** The reader takes a printed label for what it is. */
  lemma TagsClassify(agent: string, kind: Kind, body: string)
    requires WellFormedKind(kind)
    ensures Classify(Line(agent, Some(Tag(kind)), body)) == Opening(Item(agent, "", kind, [body]))
  {
    if kind.AsReply? {
      var suffix := if kind.isError then "error" else "answer";
      assert Tag(kind) == kind.pick + [' '] + suffix;
      FirstOf(kind.pick, ' ', suffix);
      assert Tag(kind)[..|kind.pick|] == kind.pick && Tag(kind)[|kind.pick|..] == " " + suffix;
      AnswerIsNoCall(Tag(kind));
    } else if kind.AsCall? {
      if AnswerLabel(kind.name).Some? { AnswerIsNoCall(kind.name); }
    } else {
      SpeechIsNoAnswer(Tag(kind));
    }
  }

  lemma SpeechIsNoAnswer(tag: string)
    requires tag in NOT_A_CALL
    ensures AnswerLabel(tag).None?
  {
    if AnswerLabel(tag).Some? { AnswerIsNoCall(tag); }
  }

  /** A printed line whose text holds a line end says nothing to the reader. */
  lemma BrokenLineIsSilent(agents: set<string>, agent: string, iid: string, text: string)
    requires Inner(agent) && Inner(iid) && IsIid(iid) && !OneLine(text)
    ensures Hear(agents, WithoutIid(PrintLine(agent, iid, text))) == Nothing
  {
    ReadPrinted(agent, iid, text);
    ParseBroken(agents, agent, iid, text);
  }

  lemma FirstLineRead(agents: set<string>, agent: string, iid: string, kind: Kind, body: string)
    requires agent in agents && Inner(agent) && Inner(iid) && IsIid(iid) && WellFormedKind(kind)
    requires kind.AsPrompt? && OneLine(body) ==> !IsFrame(body)
    ensures Hear(agents, WithoutIid(PrintLine(agent, iid, Box(Tag(kind), " " + body))))
            == if OneLine(body) then Heard(Opening(Item(agent, iid, kind, [body]))) else Nothing
  {
    TagsStandInBrackets(kind);
    BoxIsOneLine(Tag(kind), body);
    if OneLine(body) {
      ReadPrinted(agent, iid, Box(Tag(kind), " " + body));
      ParseLabelled(agents, agent, Tag(kind), body);
      TagsClassify(agent, kind, body);
      OnlyPromptsPrompt(kind);
    } else {
      BrokenLineIsSilent(agents, agent, iid, Box(Tag(kind), " " + body));
    }
  }

  lemma HearOf(agents: set<string>, text: string, l: Line)
    requires Parse(agents, text) == Some(l)
    ensures Hear(agents, text) ==
            if l.tag == Some("prompt") && IsFrame(l.body) then TrialEnd else Heard(Classify(l))
  {
  }

  /** A bracket is more of a body exactly when it holds no label. */
  lemma NoLabelIsMore(l: Line, tag: string)
    requires l.tag == Some(tag)
    ensures Classify(l).More? <==> IsNoLabel(tag)
    ensures IsNoLabel(tag) ==> Classify(l) == More("[" + tag + "] " + l.body) && tag != "prompt"
  {
  }

  lemma BracketedLineRead(agents: set<string>, agent: string, body: string)
    requires agent in agents && Inner(agent) && OneLine(body) && Bracketed(body).Some?
    ensures Hear(agents, Box(agent, " " + body)) == Heard(More(body)) <==> IsLater(body)
  {
    var b := Bracketed(body).value;
    ParseBracketed(agents, agent, body);
    var l := Line(agent, Some(b.inner), AfterSpace(b.after));
    HearOf(agents, Box(agent, " " + body), l);
    NoLabelIsMore(l, b.inner);
    BracketParts(body);
    SpacedOnce(b.inner, b.after);
  }

  /** A later line is read as it was exactly when it holds no line end, and opens with no bracket or with
      one that holds no label and that a space follows. */
  lemma LaterLineRead(agents: set<string>, agent: string, iid: string, body: string)
    requires agent in agents && Inner(agent) && Inner(iid) && IsIid(iid)
    ensures Hear(agents, WithoutIid(PrintLine(agent, iid, body))) == Heard(More(body))
            <==> OneLine(body) && IsLater(body)
    ensures !OneLine(body) ==> Hear(agents, WithoutIid(PrintLine(agent, iid, body))) == Nothing
  {
    if OneLine(body) {
      ReadPrinted(agent, iid, body);
      if Bracketed(body).None? {
        ParseUnlabelled(agents, agent, body);
        HearOf(agents, Box(agent, " " + body), Line(agent, None, body));
      } else {
        BracketedLineRead(agents, agent, body);
      }
    } else {
      BrokenLineIsSilent(agents, agent, iid, body);
    }
  }

  /** Writing a bracket out again with a space gives the same text exactly when a space followed it. */
  lemma SpacedOnce(tag: string, after: string)
    ensures "[" + tag + "] " + AfterSpace(after) == Box(tag, after) <==> after != "" && after[0] == ' '
  {
    var again := "[" + tag + "] " + AfterSpace(after);
    if after != "" && after[0] == ' ' {
      assert after == " " + AfterSpace(after);
    } else {
      assert |again| == |Box(tag, after)| + 1;
    }
  }

  /** What is heard of a later line. */
  function HeardMore(text: string): Heard { if OneLine(text) then Heard(More(text)) else Nothing }

  /** What is heard of each line of a body. */
  function Heards(it: Item): (hs: seq<Heard>)
    ensures |hs| == |it.body|
  {
    if it.body == [] then []
    else [if Opens(it) then Heard(Opening(it)) else Nothing] + Map(HeardMore, it.body[1..])
  }

  lemma LaterHeard(it: Item, k: nat)
    requires 1 <= k < |it.body|
    ensures Heards(it)[k] == HeardMore(it.body[k])
  {
    MapAt(HeardMore, it.body[1..], k - 1);
  }

  /** Each printed line of a body is heard as its event, or as nothing when it holds a line end. */
  lemma LinesRead(agents: set<string>, it: Item, k: nat)
    requires WellFormed(it) && Unmarked(it) && it.agent in agents && k < |it.body|
    ensures Hear(agents, WithoutIid(Print(it)[k])) == Heards(it)[k]
  {
    if k == 0 {
      FirstLineRead(agents, it.agent, it.iid, it.kind, it.body[0]);
      assert Print(it)[0] == PrintLine(it.agent, it.iid, Box(Tag(it.kind), " " + it.body[0]));
      assert Opening(it) == Opening(Item(it.agent, it.iid, it.kind, [it.body[0]]));
    } else {
      LaterLineRead(agents, it.agent, it.iid, it.body[k]);
      LaterHeard(it, k);
      assert Print(it)[k] == PrintLine(it.agent, it.iid, it.body[k]);
    }
  }

  lemma BoxIsOneLine(tag: string, body: string)
    requires OneLine(tag)
    ensures OneLine(Box(tag, " " + body)) <==> OneLine(body)
  {
    var box := Box(tag, " " + body);
    assert forall i :: 0 <= i < |body| ==> box[|tag| + 3 + i] == body[i];
  }

  lemma OnlyPromptsPrompt(kind: Kind)
    requires WellFormedKind(kind)
    ensures Tag(kind) == "prompt" <==> kind.AsPrompt?
  {
    if kind.AsReply? {
      assert Tag(kind)[|kind.pick|] == ' ';
    }
  }

  // ---- a whole conversation, read ------------------------------------------------------------------

  function WholeAll(items: seq<Item>): (bs: seq<Event>)
    requires forall i :: 0 <= i < |items| ==> items[i].body != []
    ensures |bs| == |items| && forall i :: 0 <= i < |items| ==> bs[i] == Whole(items[i])
  {
    seq(|items|, i requires 0 <= i < |items| => Whole(items[i]))
  }

  lemma {:induction false} JoinMore(pieces: seq<string>, x: string)
    requires pieces != []
    ensures Join(pieces + [x], '\n') == Join(pieces, '\n') + "\n" + x
  {
    if |pieces| > 1 {
      assert (pieces + [x])[1..] == pieces[1..] + [x];
      JoinMore(pieces[1..], x);
    } else {
      assert (pieces + [x])[1..] == [x];
    }
  }

  /** The first `n` lines of a body are one block, its body so far. */
  lemma {:induction false} BlocksOfABody(before: seq<Event>, it: Item, n: nat)
    requires it.body != [] && 0 < n <= |it.body|
    ensures Blocks(before + EventsOf(it)[..n]) == Blocks(before) + [Whole(it.(body := it.body[..n]))]
  {
    var es := EventsOf(it);
    var all := before + es[..n];
    if n == 1 {
      assert all[..|all| - 1] == before && all[|all| - 1] == Opening(it);
      assert it.body[..1] == [it.body[0]];
    } else {
      BlocksOfABody(before, it, n - 1);
      assert all[..|all| - 1] == before + es[..n - 1] && all[|all| - 1] == More(it.body[n - 1]);
      assert it.body[..n] == it.body[..n - 1] + [it.body[n - 1]];
      JoinMore(it.body[..n - 1], it.body[n - 1]);
    }
  }

  lemma WholeAllMore(items: seq<Item>)
    requires items != [] && forall i :: 0 <= i < |items| ==> items[i].body != []
    ensures WholeAll(items) == WholeAll(items[..|items| - 1]) + [Whole(items[|items| - 1])]
  {
  }

  lemma {:induction false} BlocksOfAll(items: seq<Item>)
    requires forall i :: 0 <= i < |items| ==> items[i].body != []
    ensures Blocks(Flatten(EventsOf, items)) == WholeAll(items)
  {
    if items != [] {
      var n := |items| - 1;
      BlocksOfAll(items[..n]);
      var it := items[n];
      BlocksOfABody(Flatten(EventsOf, items[..n]), it, |it.body|);
      assert EventsOf(it)[..|it.body|] == EventsOf(it);
      assert it.body[..|it.body|] == it.body && it.(body := it.body) == it;
      WholeAllMore(items);
    }
  }

  /** Lines before the first block belong to nothing. */
  lemma {:induction false} LeadingLinesAreDropped(more: seq<Event>, events: seq<Event>)
    requires forall i :: 0 <= i < |more| ==> more[i].More?
    ensures Blocks(more + events) == Blocks(events)
    decreases |more| + |events|
  {
    var all := more + events;
    if events != [] {
      assert all[..|all| - 1] == more + events[..|events| - 1];
      LeadingLinesAreDropped(more, events[..|events| - 1]);
    } else if more != [] {
      assert all == more;
      assert all[..|all| - 1] == more[..|more| - 1] + [];
      LeadingLinesAreDropped(more[..|more| - 1], []);
    }
  }

  /** A printed body without its Instance IDs. */
  function Shown(it: Item): (lines: seq<string>)
    ensures |lines| == |it.body|
  {
    seq(|it.body|, k requires 0 <= k < |it.body| => WithoutIid(Print(it)[k]))
  }

  lemma BodyIsHeard(agents: set<string>, it: Item)
    requires it.body != [] && WellFormed(it) && Unmarked(it) && it.agent in agents
    ensures Map(Hearer(agents), Shown(it)) == Heards(it)
  {
    var hs := Map(Hearer(agents), Shown(it));
    forall k | 0 <= k < |it.body|
      ensures hs[k] == Heards(it)[k]
    {
      MapAt(Hearer(agents), Shown(it), k);
      LinesRead(agents, it, k);
    }
  }

  /** Bodies the reader reads: well formed, no Frame, of the Agents it reads. */
  ghost predicate Readable(agents: set<string>, items: seq<Item>) {
    forall i :: 0 <= i < |items| ==>
      items[i].body != [] && WellFormed(items[i]) && Unmarked(items[i]) && items[i].agent in agents
  }

  lemma AllIsHeard(agents: set<string>, items: seq<Item>)
    requires Readable(agents, items)
    ensures Map(Hearer(agents), Flatten(Shown, items)) == Flatten(Heards, items)
  {
    forall i | 0 <= i < |items|
      ensures Map(Hearer(agents), Shown(items[i])) == Heards(items[i])
    {
      BodyIsHeard(agents, items[i]);
    }
    MapFlatten(Hearer(agents), Shown, Heards, items);
  }

  // ---- the events of what is heard -----------------------------------------------------------------

  function MoreOf(text: string): Event { More(text) }

  /** The lines that hold no line end. */
  function Legible(lines: seq<string>): (r: seq<string>)
    ensures forall i :: 0 <= i < |r| ==> OneLine(r[i])
  {
    if lines == [] then [] else (if OneLine(lines[0]) then [lines[0]] else []) + Legible(lines[1..])
  }

  lemma {:induction false} LegibleAll(lines: seq<string>)
    requires forall k :: 0 <= k < |lines| ==> OneLine(lines[k])
    ensures Legible(lines) == lines
  {
    if lines != [] { LegibleAll(lines[1..]); }
  }

  /** The events of a body: its opening and its later lines, each if it is heard. */
  function HeardOf(it: Item): seq<Event> {
    if it.body == [] then []
    else (if Opens(it) then [Opening(it)] else []) + Map(MoreOf, Legible(it.body[1..]))
  }

  lemma {:induction false} CollectMores(lines: seq<string>)
    ensures Collect(Map(HeardMore, lines)) == Map(MoreOf, Legible(lines)) && NoEnd(Map(HeardMore, lines))
  {
    if lines != [] {
      CollectMores(lines[1..]);
      var hs := Map(HeardMore, lines);
      assert hs[0] == HeardMore(lines[0]) && hs[1..] == Map(HeardMore, lines[1..]);
      if OneLine(lines[0]) {
        var legible := Legible(lines);
        assert legible[0] == lines[0] && legible[1..] == Legible(lines[1..]);
      } else {
        assert [] + Legible(lines[1..]) == Legible(lines[1..]);
      }
    }
  }

  lemma CollectHeards(it: Item)
    ensures Collect(Heards(it)) == HeardOf(it) && NoEnd(Heards(it))
  {
    if it.body != [] {
      var hs, rest := Heards(it), Map(HeardMore, it.body[1..]);
      CollectMores(it.body[1..]);
      assert hs[1..] == rest && hs == [hs[0]] + rest;
    }
  }

  lemma {:induction false} CollectAll(items: seq<Item>)
    ensures Collect(Flatten(Heards, items)) == Flatten(HeardOf, items) && NoEnd(Flatten(Heards, items))
  {
    if items != [] {
      var n := |items| - 1;
      CollectAll(items[..n]);
      CollectHeards(items[n]);
      CollectConcat(Flatten(Heards, items[..n]), Heards(items[n]));
    }
  }

  /** A body without the lines that are not heard. */
  function Struck(it: Item): (r: Item)
    ensures r.body != [] <==> it.body != []
  {
    if it.body == [] then it else it.(body := [it.body[0]] + Legible(it.body[1..]))
  }

  /** A body whose first line is heard is heard as the body without the lines that are not. */
  lemma HeardIsStruck(it: Item)
    requires it.body != [] && Opens(it)
    ensures HeardOf(it) == EventsOf(Struck(it))
  {
    var rest := Legible(it.body[1..]);
    var body := [it.body[0]] + rest;
    var es := EventsOf(Struck(it));
    assert Opening(Struck(it)) == Opening(it);
    forall k | 0 <= k < |es|
      ensures es[k] == HeardOf(it)[k]
    {
      if k > 0 {
        MapAt(MoreOf, rest, k - 1);
        assert body[k] == rest[k - 1];
      }
    }
  }

  function StruckAll(items: seq<Item>): (r: seq<Item>)
    ensures |r| == |items| && forall i :: 0 <= i < |items| ==> r[i] == Struck(items[i])
  {
    seq(|items|, i requires 0 <= i < |items| => Struck(items[i]))
  }

  /** Bodies whose first lines are all heard are the blocks of what is heard, without the lines that are
      not. */
  lemma HeardBlocks(items: seq<Item>)
    requires forall i :: 0 <= i < |items| ==> items[i].body != [] && Opens(items[i])
    ensures Blocks(Flatten(HeardOf, items)) == WholeAll(StruckAll(items))
  {
    var struck := StruckAll(items);
    forall i | 0 <= i < |items|
      ensures HeardOf(items[i]) == EventsOf(struck[i])
    {
      HeardIsStruck(items[i]);
    }
    FlattenSame(HeardOf, items, EventsOf, struck);
    BlocksOfAll(struck);
  }

  // ---- what the Harness promises of a conversation's answers ---------------------------------------

  predicate SameKey(bs: seq<Event>, q: nat, r: nat)
    requires q < |bs| && r < |bs|
  {
    bs[q].Replied? && bs[r].Replied? && bs[q].agent == bs[r].agent && bs[q].pick == bs[r].pick
  }

  /** `of` says which call each answer is to, if it is to one of these: a call of its pick, by its
      Agent, before it, with no prompt between; and answers of one pick print in the order of their
      calls. */
  ghost predicate AnsweredInOrder(bs: seq<Event>, of: seq<Option<nat>>) {
    && |of| == |bs|
    && (forall r :: 0 <= r < |bs| && of[r].Some? ==> Candidate(bs, of[r].value, r))
    && forall q, r :: 0 <= q < r < |bs| && SameKey(bs, q, r) && of[q].Some? && of[r].Some? ==>
         of[q].value < of[r].value
  }

  /** A call that is still open when a later call of its pick, or none, is answered. */
  ghost predicate PassedOver(bs: seq<Event>, of: seq<Option<nat>>, c: nat, r: nat)
    requires |of| == |bs|
  {
    r < |bs| && Candidate(bs, c, r) && Some(c) !in of[..r] && (of[r].None? || c < of[r].value)
  }

  /** What the Harness promises: answers in order, and no open call passed over. */
  ghost predicate Disciplined(bs: seq<Event>, of: seq<Option<nat>>) {
    AnsweredInOrder(bs, of) && forall c: nat, r: nat :: !PassedOver(bs, of, c, r)
  }

  /** Two answers are not to one call. */
  lemma AnsweredOnce(bs: seq<Event>, of: seq<Option<nat>>, q: nat, r: nat)
    requires AnsweredInOrder(bs, of) && q < r < |bs| && of[q].Some? && of[r].Some?
    ensures of[q] != of[r]
  {
    assert Candidate(bs, of[q].value, q) && Candidate(bs, of[r].value, r);
    assert of[q] == of[r] ==> SameKey(bs, q, r);
  }

  /** Where the answers print in order, what they are to is the matching, exactly when no open call is
      passed over. */
  lemma DisciplineIsTheMatching(bs: seq<Event>, of: seq<Option<nat>>)
    requires AnsweredInOrder(bs, of)
    ensures IsMatching(bs, of) <==> Disciplined(bs, of)
  {
    if Disciplined(bs, of) {
      forall r | 0 <= r < |bs|
        ensures Takes(bs, of[..r], r, of[r])
      {
        forall c: nat | Candidate(bs, c, r) && (of[r].None? || c < of[r].value)
          ensures Some(c) in of[..r]
        {
          assert !PassedOver(bs, of, c, r);
        }
        forall q | 0 <= q < r && of[r].Some?
          ensures of[q] != of[r]
        {
          if of[q].Some? { AnsweredOnce(bs, of, q, r); }
        }
      }
    }
    if IsMatching(bs, of) {
      forall c: nat, r: nat
        ensures !PassedOver(bs, of, c, r)
      {
        if r < |bs| { assert Takes(bs, of[..r], r, of[r]); }
      }
    }
  }
}
