/**
 * When a printed conversation is read back as it happened (packages/harness/src/printer.ts, printLines;
 * features/lib/model-said.ts, answersIn), and when it is not: a body's line can hold a line end that is no
 * `\n`, and such a line is printed and not read.
 */
module ReadBack {
  import opened Wrappers
  import opened Flat
  import opened Text
  import opened Lines
  import opened Answers
  import opened Matching
  import opened Conversations
  import opened RoundTrip

  ghost predicate Bodied(items: seq<Item>) {
    forall i :: 0 <= i < |items| ==> items[i].body != []
  }

  // ---- what the calls and their answers depend on --------------------------------------------------

  predicate SameKind(e: Event, f: Event) {
    match e
    case Prompted(_, _) => f.Prompted?
    case Called(agent, name, _) => f.Called? && f.agent == agent && f.name == name
    case Replied(agent, pick, isError, _) => f.Replied? && f.agent == agent && f.pick == pick && f.isError == isError
    case More(_) => f.More?
    case Spoken => f.Spoken?
  }

  /** The bodies are of the same kinds, and the same where they are a call or the answer of one. */
  ghost predicate TellAlike(bs: seq<Event>, cs: seq<Event>, of: seq<Option<nat>>) {
    && |bs| == |cs| == |of|
    && forall i :: 0 <= i < |bs| ==> SameKind(bs[i], cs[i]) && (bs[i].Called? || of[i].Some? ==> bs[i] == cs[i])
  }

  lemma CandidateAlike(bs: seq<Event>, cs: seq<Event>, c: nat, r: nat)
    requires |bs| == |cs| && forall i :: 0 <= i < |bs| ==> SameKind(bs[i], cs[i])
    ensures Candidate(bs, c, r) <==> Candidate(cs, c, r)
  {
    if c < r < |bs| {
      assert SameKind(bs[c], cs[c]) && SameKind(bs[r], cs[r]);
      assert forall k :: c < k < r ==> SameKind(bs[k], cs[k]);
    }
  }

  lemma DisciplinedAlike(bs: seq<Event>, cs: seq<Event>, of: seq<Option<nat>>)
    requires TellAlike(bs, cs, of) && Disciplined(bs, of)
    ensures Disciplined(cs, of)
  {
    forall c: nat, r: nat
      ensures Candidate(bs, c, r) <==> Candidate(cs, c, r)
    {
      CandidateAlike(bs, cs, c, r);
    }
    forall q, r | 0 <= q < r < |cs| && SameKey(cs, q, r) && of[q].Some? && of[r].Some?
      ensures of[q].value < of[r].value
    {
      assert SameKind(bs[q], cs[q]) && SameKind(bs[r], cs[r]) && SameKey(bs, q, r);
    }
    forall c: nat, r: nat
      ensures !PassedOver(cs, of, c, r)
    {
      assert !PassedOver(bs, of, c, r);
    }
  }

  lemma {:induction false} CallsAlike(bs: seq<Event>, cs: seq<Event>)
    requires |bs| == |cs| && forall i :: 0 <= i < |bs| ==> SameKind(bs[i], cs[i])
    ensures Calls(bs) == Calls(cs)
  {
    if bs != [] {
      var n := |bs| - 1;
      CallsAlike(bs[..n], cs[..n]);
      assert SameKind(bs[n], cs[n]);
    }
  }

  lemma RenderedAlike(bs: seq<Event>, cs: seq<Event>, of: seq<Option<nat>>)
    requires TellAlike(bs, cs, of)
    ensures Rendered(bs, of) == Rendered(cs, of)
  {
    CallsAlike(bs, cs);
    forall i | 0 <= i < |Calls(bs)|
      ensures Entry(bs, of, Calls(bs)[i]) == Entry(cs, of, Calls(bs)[i])
    {
      var r := AnswerAt(of, Calls(bs)[i]);
      assert r.Some? ==> bs[r.value] == cs[r.value];
    }
  }

  // ---- bodies that are heard whole -----------------------------------------------------------------

  predicate AllOneLine(lines: seq<string>) {
    forall k :: 0 <= k < |lines| ==> OneLine(lines[k])
  }

  /** A body that is a call, or the answer of one. */
  predicate IsTold(it: Item, of: Option<nat>) { it.kind.AsCall? || of.Some? }

  /** No line of a call or of an answer holds a line end. */
  ghost predicate ToldWhole(items: seq<Item>, of: seq<Option<nat>>)
    requires |of| == |items|
  {
    forall i :: 0 <= i < |items| && IsTold(items[i], of[i]) ==> AllOneLine(items[i].body)
  }

  /** The first lines of the other bodies hold none. */
  ghost predicate OthersOpen(items: seq<Item>, of: seq<Option<nat>>)
    requires |of| == |items| && Bodied(items)
  {
    forall i :: 0 <= i < |items| && !IsTold(items[i], of[i]) ==> Opens(items[i])
  }

  lemma StruckIsWhole(it: Item)
    requires it.body != []
    ensures SameKind(Whole(it), Whole(Struck(it)))
    ensures AllOneLine(it.body) ==> Struck(it) == it
  {
    if AllOneLine(it.body) {
      LegibleAll(it.body[1..]);
      assert [it.body[0]] + it.body[1..] == it.body;
    }
  }

  lemma StruckTellAlike(items: seq<Item>, of: seq<Option<nat>>)
    requires |of| == |items| && Bodied(items) && ToldWhole(items, of)
    ensures TellAlike(WholeAll(items), WholeAll(StruckAll(items)), of)
  {
    forall i | 0 <= i < |items|
      ensures var a, b := WholeAll(items)[i], WholeAll(StruckAll(items))[i];
              SameKind(a, b) && (a.Called? || of[i].Some? ==> a == b)
    {
      StruckIsWhole(items[i]);
      if IsTold(items[i], of[i]) { assert AllOneLine(items[i].body); }
    }
  }

  /**
   * The round trip. For every log that keeps a trial's own prompt and its conversation of calls,
   * answers, errors, text and unmarked prompts, whose answers keep the Harness's promise, among lines
   * that say nothing to the reader: when no line of a call or an answer holds a line end, and no first
   * line of another body does, `answersIn` gives exactly the calls that were made, in order, each with
   * its whole input and with its own answer, whole, and its own error flag.
   */
  lemma PrintedIsReadBack(log: Log, marker: string, of: seq<Option<nat>>)
    requires Speaks(log.own, log.items, marker) && Keeps(log, marker)
    requires Bodied(log.items) && Disciplined(WholeAll(log.items), of)
    requires ToldWhole(log.items, of) && OthersOpen(log.items, of)
    ensures AnswersIn(Join(AllLines(log), '\n'), marker) == Some(Rendered(WholeAll(log.items), of))
  {
    var bs, cs := WholeAll(log.items), WholeAll(StruckAll(log.items));
    forall i | 0 <= i < |log.items|
      ensures Opens(log.items[i])
    {
      if IsTold(log.items[i], of[i]) { assert AllOneLine(log.items[i].body); }
    }
    HeardBlocks(log.items);
    StruckTellAlike(log.items, of);
    DisciplinedAlike(bs, cs, of);
    DisciplineIsTheMatching(cs, of);
    PrintedIsHeard(log, marker, of);
    RenderedAlike(bs, cs, of);
  }

  // ---- what is read holds no line end --------------------------------------------------------------

  /** A text whose line ends are all `\n`. */
  predicate OnlyNewlines(s: string) {
    forall i :: 0 <= i < |s| && EndsLine(s[i]) ==> s[i] == '\n'
  }

  predicate EventIsPlain(e: Event) {
    match e
    case Called(_, _, body) => OnlyNewlines(body)
    case Replied(_, _, _, body) => OnlyNewlines(body)
    case More(text) => OnlyNewlines(text)
    case _ => true
  }

  predicate OutIsPlain(out: seq<Answered>) {
    forall i :: 0 <= i < |out| ==> EntryIsPlain(out[i])
  }

  predicate EntryIsPlain(a: Answered) {
    OnlyNewlines(a.input) && (a.answer.Some? ==> OnlyNewlines(a.answer.value))
  }

  lemma ReadIsPlain(r: Reader, e: Event)
    requires Ok(r) && OutIsPlain(r.out) && EventIsPlain(e)
    ensures OutIsPlain(Read(r, e).out)
  {
    if e.More? && !r.open.Nowhere? {
      var a := r.out[r.open.at];
      assert EntryIsPlain(a);
      assert OnlyNewlines(a.input + "\n" + e.text);
      assert a.answer.Some? ==> OnlyNewlines(a.answer.value + "\n" + e.text);
    }
  }

  lemma {:induction false} FedIsPlain(events: seq<Event>)
    requires forall i :: 0 <= i < |events| ==> EventIsPlain(events[i])
    ensures OutIsPlain(Fed(events).out)
  {
    if events != [] {
      var n := |events| - 1;
      FedIsPlain(events[..n]);
      ReadIsPlain(Fed(events[..n]), events[n]);
    }
  }

  lemma HeardIsPlain(it: Item, e: Event)
    requires e in HeardOf(it)
    ensures EventIsPlain(e)
  {
    var rest := Legible(it.body[1..]);
    if Opens(it) && e == Opening(it) {
    } else {
      var k :| 0 <= k < |rest| && Map(MoreOf, rest)[k] == e;
      MapAt(MoreOf, rest, k);
    }
  }

  lemma {:induction false} AllHeardIsPlain(items: seq<Item>)
    ensures forall e :: e in Flatten(HeardOf, items) ==> EventIsPlain(e)
  {
    if items != [] {
      var n := |items| - 1;
      AllHeardIsPlain(items[..n]);
      forall e | e in HeardOf(items[n])
        ensures EventIsPlain(e)
      {
        HeardIsPlain(items[n], e);
      }
    }
  }

  lemma {:induction false} JoinedIsPlain(lines: seq<string>, k: nat)
    requires k < |lines| && OnlyNewlines(Join(lines, '\n')) && Free(lines[k], '\n')
    ensures OneLine(lines[k])
  {
    if |lines| > 1 {
      var rest := Join(lines[1..], '\n');
      var all := lines[0] + ['\n'] + rest;
      assert forall i :: 0 <= i < |rest| ==> all[|lines[0]| + 1 + i] == rest[i];
      assert forall i :: 0 <= i < |lines[0]| ==> all[i] == lines[0][i];
      if k > 0 { JoinedIsPlain(lines[1..], k - 1); }
    }
  }

  /** A body that was rendered whole, out of what was read, holds no line end. */
  lemma RenderedIsOneLine(it: Item)
    requires WellFormed(it) && OnlyNewlines(Join(it.body, '\n'))
    ensures AllOneLine(it.body)
  {
    forall k | 0 <= k < |it.body|
      ensures OneLine(it.body[k])
    {
      JoinedIsPlain(it.body, k);
    }
  }

  lemma CallIsRendered(bs: seq<Event>, c: nat) returns (i: nat)
    requires c < |bs| && bs[c].Called?
    ensures i < |Calls(bs)| && Calls(bs)[i] == c
  {
    CallIsAmong(bs, c);
    i :| 0 <= i < |Calls(bs)| && Calls(bs)[i] == c;
  }

  lemma {:induction false} CallIsAmong(bs: seq<Event>, c: nat)
    requires c < |bs| && bs[c].Called?
    ensures c in Calls(bs)
  {
    if c < |bs| - 1 { CallIsAmong(bs[..|bs| - 1], c); }
  }

  /** What the reading gives holds the input of a call, and the body of an answer. */
  lemma ToldIsRendered(bs: seq<Event>, of: seq<Option<nat>>, i: nat)
    requires AnsweredInOrder(bs, of) && OutIsPlain(Rendered(bs, of)) && i < |bs|
    ensures bs[i].Called? || of[i].Some? ==> EventIsPlain(bs[i])
  {
    if bs[i].Called? {
      var k := CallIsRendered(bs, i);
      assert EntryIsPlain(Rendered(bs, of)[k]);
    } else if of[i].Some? {
      var c := of[i].value;
      assert Candidate(bs, c, i);
      var k := CallIsRendered(bs, c);
      assert EntryIsPlain(Rendered(bs, of)[k]);
      var r := AnswerAt(of, c);
      assert of[r.value] == of[i];
      if r.value < i { AnsweredOnce(bs, of, r.value, i); } else if i < r.value { AnsweredOnce(bs, of, i, r.value); }
    }
  }

  /** What is read as it happened holds no line end in a call or an answer. */
  lemma ReadBackIsWhole(log: Log, marker: string, of: seq<Option<nat>>)
    requires Speaks(log.own, log.items, marker) && Keeps(log, marker)
    requires Bodied(log.items) && AnsweredInOrder(WholeAll(log.items), of)
    requires AnswersIn(Join(AllLines(log), '\n'), marker) == Some(Rendered(WholeAll(log.items), of))
    ensures ToldWhole(log.items, of)
  {
    var heard, bs := Flatten(HeardOf, log.items), WholeAll(log.items);
    QueuesFindTheMatching(Blocks(heard));
    PrintedIsHeard(log, marker, PairingOf(Blocks(heard)).m);
    AllHeardIsPlain(log.items);
    FedIsPlain(heard);
    forall i | 0 <= i < |log.items| && IsTold(log.items[i], of[i])
      ensures AllOneLine(log.items[i].body)
    {
      assert of[i].Some? ==> Candidate(bs, of[i].value, i);
      ToldIsRendered(bs, of, i);
      assert bs[i] == Whole(log.items[i]);
      RenderedIsOneLine(log.items[i]);
    }
  }

  /** Exactly when a conversation is read back as it happened: when no line of a call or of an answer holds
      a line end, where the first lines of the other bodies hold none. */
  lemma ReadBackExactly(log: Log, marker: string, of: seq<Option<nat>>)
    requires Speaks(log.own, log.items, marker) && Keeps(log, marker)
    requires Bodied(log.items) && Disciplined(WholeAll(log.items), of) && OthersOpen(log.items, of)
    ensures AnswersIn(Join(AllLines(log), '\n'), marker) == Some(Rendered(WholeAll(log.items), of))
            <==> ToldWhole(log.items, of)
  {
    if ToldWhole(log.items, of) { PrintedIsReadBack(log, marker, of); }
    if AnswersIn(Join(AllLines(log), '\n'), marker) == Some(Rendered(WholeAll(log.items), of)) {
      ReadBackIsWhole(log, marker, of);
    }
  }

  // ---- a conversation printed alone ----------------------------------------------------------------

  /** A line that begins no stamp and holds no line end. */
  predicate PlainLine(line: string) { line != "" && line[0] == '[' && Free(line, '\n') }

  lemma PrintedIsPlain(agent: string, iid: string, text: string)
    requires Free(agent, '\n') && Free(iid, '\n') && Free(text, '\n')
    ensures PlainLine(PrintLine(agent, iid, text))
  {
  }

  lemma LabelledIsFree(tag: string, body: string)
    requires OneLine(tag) && Free(body, '\n')
    ensures Free(Box(tag, " " + body), '\n')
  {
  }

  lemma BodyIsPlain(it: Item, k: nat)
    requires WellFormed(it) && k < |it.body|
    ensures PlainLine(Print(it)[k])
  {
    assert Free(it.iid, '\n') by { assert forall i :: 0 <= i < |it.iid| ==> !IsSpace(it.iid[i]); }
    assert Free(it.body[k], '\n');
    TagsStandInBrackets(it.kind);
    LabelledIsFree(Tag(it.kind), it.body[0]);
    PrintedIsPlain(it.agent, it.iid, if k == 0 then Box(Tag(it.kind), " " + it.body[0]) else it.body[k]);
  }

  lemma {:induction false} AllArePlain(items: seq<Item>, k: nat)
    requires forall i :: 0 <= i < |items| ==> WellFormed(items[i])
    requires k < |Flatten(Print, items)|
    ensures PlainLine(Flatten(Print, items)[k])
  {
    var n := |items| - 1;
    var before := Flatten(Print, items[..n]);
    if k < |before| {
      AllArePlain(items[..n], k);
    } else {
      BodyIsPlain(items[n], k - |before|);
    }
  }

  function AllOurs(n: nat): (ours: seq<bool>)
    ensures |ours| == n && forall i :: 0 <= i < n ==> ours[i]
  {
    seq(n, _ => true)
  }

  /** A conversation printed alone. */
  function AloneLog(own: Item, items: seq<Item>, lines: seq<string>): Log {
    Log([], own, items, lines, AllOurs(|lines|), None, [])
  }

  lemma AloneLines(own: Item, items: seq<Item>, lines: seq<string>)
    ensures AllLines(AloneLog(own, items, lines)) == lines
  {
  }

  lemma AllOursIsPrint(own: Item, items: seq<Item>, lines: seq<string>)
    requires lines == Print(own) + Flatten(Print, items)
    ensures IsPrintOf(Chosen(lines, AllOurs(|lines|)), own, items)
  {
    ChosenAll(lines, AllOurs(|lines|));
  }

  lemma AllOursAreHeard(hear: string -> Heard, lines: seq<string>)
    ensures OthersAreSilent(hear, lines, AllOurs(|lines|))
  {
  }

  /** Plain lines, printed alone, are a log. */
  lemma PlainLinesKeep(own: Item, items: seq<Item>, lines: seq<string>, marker: string)
    requires own.body != [] && lines == Print(own) + Flatten(Print, items)
    requires forall k :: 0 <= k < |lines| ==> PlainLine(lines[k])
    requires forall i :: 0 <= i < |items| ==> items[i].agent in PromptedAgents(Stripped(lines))
    ensures Keeps(AloneLog(own, items, lines), marker)
  {
    var log := AloneLog(own, items, lines);
    AloneLines(own, items, lines);
    assert forall k :: 0 <= k < |lines| ==> PlainLine(lines[k]) && Free(lines[k], '\n');
    AllOursIsPrint(own, items, lines);
    AllOursAreHeard(Hearer(AgentsOf(log)), Stripped(lines));
    assert Stripped(log.pre) == [] && AgentsOf(log) == PromptedAgents(Stripped(lines));
  }

  lemma PrintIsPlain(own: Item, items: seq<Item>, k: nat)
    requires WellFormed(own) && forall i :: 0 <= i < |items| ==> WellFormed(items[i])
    requires k < |Print(own) + Flatten(Print, items)|
    ensures PlainLine((Print(own) + Flatten(Print, items))[k])
  {
    if k < |Print(own)| { BodyIsPlain(own, k); } else { AllArePlain(items, k - |Print(own)|); }
  }

  /** An Agent whose prompt is heard in the conversation. */
  ghost predicate HasPrompt(items: seq<Item>, agent: string) {
    exists j :: 0 <= j < |items| && items[j].agent == agent && items[j].kind.AsPrompt?
                && items[j].body != [] && WellFormed(items[j]) && Opens(items[j])
  }

  ghost predicate AllPrompted(own: Item, items: seq<Item>) {
    forall i :: 0 <= i < |items| ==> items[i].agent == own.agent || HasPrompt(items, items[i].agent)
  }

  lemma PromptIsRead(lines: seq<string>, it: Item)
    requires it.body != [] && WellFormed(it) && it.kind.AsPrompt? && Opens(it) && Shown(it)[0] in lines
    ensures it.agent in PromptedAgents(lines)
  {
    PromptShown(it);
    PromptedHas(lines, Shown(it)[0]);
  }

  lemma AllAreRead(own: Item, items: seq<Item>, lines: seq<string>, marker: string)
    requires Speaks(own, items, marker) && AllPrompted(own, items)
    requires lines == Shown(own) + Flatten(Shown, items)
    ensures forall i :: 0 <= i < |items| ==> items[i].agent in PromptedAgents(lines)
  {
    assert lines[0] == Shown(own)[0];
    PromptIsRead(lines, own);
    forall i | 0 <= i < |items| && items[i].agent != own.agent
      ensures items[i].agent in PromptedAgents(lines)
    {
      assert HasPrompt(items, items[i].agent);
      var j :| 0 <= j < |items| && items[j].agent == items[i].agent && items[j].kind.AsPrompt?
               && items[j].body != [] && WellFormed(items[j]) && Opens(items[j]);
      FlattenHas(Shown, items, j, Shown(items[j])[0]);
      PromptIsRead(lines, items[j]);
    }
  }

  lemma ConversationKeeps(own: Item, items: seq<Item>, marker: string)
    requires Speaks(own, items, marker) && AllPrompted(own, items)
    ensures Keeps(AloneLog(own, items, Print(own) + Flatten(Print, items)), marker)
  {
    var lines := Print(own) + Flatten(Print, items);
    forall k | 0 <= k < |lines|
      ensures PlainLine(lines[k])
    {
      PrintIsPlain(own, items, k);
    }
    StrippedPrint(lines, own, items);
    AllAreRead(own, items, Stripped(lines), marker);
    PlainLinesKeep(own, items, lines, marker);
  }

  /**
   * The round trip of a conversation alone. Printing a trial's own prompt and any conversation of
   * calls, answers, errors, text and unmarked prompts after it, and reading it back, gives exactly its
   * calls, each with its whole input and its own answer and error flag.
   */
  lemma ConversationIsReadBack(own: Item, items: seq<Item>, marker: string, of: seq<Option<nat>>)
    requires Speaks(own, items, marker) && AllPrompted(own, items)
    requires Bodied(items) && Disciplined(WholeAll(items), of) && OthersOpen(items, of)
    ensures AnswersIn(Join(Print(own) + Flatten(Print, items), '\n'), marker) == Some(Rendered(WholeAll(items), of))
            <==> ToldWhole(items, of)
  {
    var lines := Print(own) + Flatten(Print, items);
    ConversationKeeps(own, items, marker);
    AloneLines(own, items, lines);
    ReadBackExactly(AloneLog(own, items, lines), marker, of);
  }

  /** And what is read of a conversation alone, whatever was printed. */
  lemma ConversationIsHeard(own: Item, items: seq<Item>, marker: string)
    requires Speaks(own, items, marker) && AllPrompted(own, items)
    ensures AnswersIn(Join(Print(own) + Flatten(Print, items), '\n'), marker) == Some(Fed(Flatten(HeardOf, items)).out)
  {
    var lines := Print(own) + Flatten(Print, items);
    ConversationKeeps(own, items, marker);
    AloneLines(own, items, lines);
    var heard := Flatten(HeardOf, items);
    QueuesFindTheMatching(Blocks(heard));
    PrintedIsHeard(AloneLog(own, items, lines), marker, PairingOf(Blocks(heard)).m);
  }

  // ---- lines that are not read as they were --------------------------------------------------------

  lemma ComesBackSpaced(agents: set<string>, agent: string, iid: string, tag: string, after: string)
    requires agent in agents && Inner(agent) && Inner(iid) && IsIid(iid)
    requires Inner(tag) && IsNoLabel(tag) && OneLine(Box(tag, after)) && (after == "" || after[0] != ' ')
    ensures Hear(agents, WithoutIid(PrintLine(agent, iid, Box(tag, after)))) == Heard(More("[" + tag + "] " + after))
  {
    var body := Box(tag, after);
    BracketedBox(tag, after);
    ReadPrinted(agent, iid, body);
    ParseBracketed(agents, agent, body);
    var l := Line(agent, Some(tag), after);
    HearOf(agents, Box(agent, " " + body), l);
    NoLabelIsMore(l, tag);
  }

  /** A later line that opens with a word in brackets that is no label comes back with a space after it. */
  lemma ASpaceIsAdded(agents: set<string>, agent: string, iid: string)
    requires agent in agents && Inner(agent) && Inner(iid) && IsIid(iid)
    ensures Hear(agents, WithoutIid(PrintLine(agent, iid, "[Note]text"))) == Heard(More("[Note] text"))
  {
    NoteIsNoLabel();
    assert Box("Note", "text") == "[Note]text" && "[" + "Note" + "] " + "text" == "[Note] text";
    ComesBackSpaced(agents, agent, iid, "Note", "text");
  }

  lemma NoteIsNoLabel()
    ensures Inner("Note") && IsNoLabel("Note") && OneLine("[Note]text")
  {
    var s := "Note";
    FirstNone(s, '/');
    FirstNone(s, ' ');
    assert s[4..] == "" && "" != " answer" && "" != " error";
  }

  lemma ComesBackAsACall(agents: set<string>, agent: string, iid: string, name: string, after: string)
    requires agent in agents && Inner(agent) && Inner(iid) && IsIid(iid)
    requires Inner(name) && IsCall(name) && OneLine(Box(name, after)) && (after == "" || after[0] != ' ')
    ensures Hear(agents, WithoutIid(PrintLine(agent, iid, Box(name, after)))) == Heard(Called(agent, name, after))
  {
    var body := Box(name, after);
    BracketedBox(name, after);
    ReadPrinted(agent, iid, body);
    ParseBracketed(agents, agent, body);
    HearOf(agents, Box(agent, " " + body), Line(agent, Some(name), after));
    TagsClassify(agent, AsCall(name), after);
    OnlyPromptsPrompt(AsCall(name));
  }

  /** A later line that opens with a label is what that label says: here, a call that was never made. */
  lemma ALaterLineBecomesACall(agents: set<string>, agent: string, iid: string)
    requires agent in agents && Inner(agent) && Inner(iid) && IsIid(iid)
    ensures Hear(agents, WithoutIid(PrintLine(agent, iid, "[note]text"))) == Heard(Called(agent, "note", "text"))
  {
    NoteIsACall();
    assert Box("note", "text") == "[note]text";
    ComesBackAsACall(agents, agent, iid, "note", "text");
  }

  lemma NoteIsACall()
    ensures Inner("note") && IsCall("note") && OneLine("[note]text")
  {
    assert IsSnake("note");
  }

  /** A refusal of the Menu whose text holds a carriage return is printed, and is not heard. */
  lemma ABrokenRefusalIsNotHeard(agents: set<string>, agent: string, iid: string)
    requires agent in agents && Inner(agent) && Inner(iid) && IsIid(iid)
    ensures var it := Item(agent, iid, AsReply("run_chart", true), ["no such Chart\r"]);
            Hear(agents, WithoutIid(Print(it)[0])) == Nothing
  {
    var kind, text := AsReply("run_chart", true), "no such Chart\r";
    assert text[13] == '\r';
    assert IsSnake("run_chart");
    FirstLineRead(agents, agent, iid, kind, text);
    var it := Item(agent, iid, kind, [text]);
    assert Print(it)[0] == PrintLine(agent, iid, Box(Tag(kind), " " + text));
  }
}
