/**
 * Each call of a kept conversation with the answer the model read (features/lib/model-said.ts,
 * trialOf, answersIn, calledIn): the line reader, and what it computes.
 */
module Answers {
  import opened Wrappers
  import opened Flat
  import opened Text
  import opened Lines

  datatype Answered = Answered(call: string, input: string, answer: Option<string>, error: bool)

  /** What one matched line is to the reader. `More` is a body's later line. */
  datatype Event =
    | Prompted(agent: string, body: string)
    | Called(agent: string, name: string, body: string)
    | Replied(agent: string, pick: string, isError: bool, body: string)
    | More(text: string)
    | Spoken

  function Classify(l: Line): Event {
    match l.tag
    case None => More(l.body)
    case Some(tag) =>
      if tag == "prompt" then Prompted(l.agent, l.body)
      else if AnswerLabel(tag).Some? then
        Replied(l.agent, AnswerLabel(tag).value.0, AnswerLabel(tag).value.1, l.body)
      else if IsCall(tag) then Called(l.agent, tag, l.body)
      else if tag !in NOT_A_CALL then More("[" + tag + "] " + l.body)
      else Spoken
  }

  // ---- the trial's lines -------------------------------------------------------------------------

  /** The Agent whose prompt a line is (`promptedAgents` takes the Instance ID off once more). */
  function PromptAgent(line: string): Option<string> {
    var a := Bracketed(WithoutIid(line));
    if a.Some? && " [prompt] " <= a.value.after then Some(a.value.inner) else None
  }

  function PromptedAgents(lines: seq<string>): set<string> {
    set l | l in lines && PromptAgent(l).Some? :: PromptAgent(l).value
  }

  /** `promptedAgents`: the Agents of the prompts among the lines, each once, in the order of their first
      prompts. */
  method CollectAgents(lines: seq<string>) returns (names: seq<string>)
    ensures forall n :: n in names <==> n in PromptedAgents(lines)
    ensures forall i, j :: 0 <= i < j < |names| ==> names[i] != names[j]
    ensures InOrderOfFirst(PromptAgent, lines, names)
  {
    names := CollectBy(PromptAgent, lines);
  }

  ghost predicate Says(agentOf: string -> Option<string>, lines: seq<string>, name: string) {
    exists l :: l in lines && agentOf(l) == Some(name)
  }

  /** The `k`th line is the first one of this name. */
  ghost predicate FirstSays(agentOf: string -> Option<string>, lines: seq<string>, name: string, k: nat) {
    k < |lines| && agentOf(lines[k]) == Some(name) && !Says(agentOf, lines[..k], name)
  }

  /** The names are in the order of their first lines. */
  ghost predicate InOrderOfFirst(agentOf: string -> Option<string>, lines: seq<string>, names: seq<string>) {
    forall i, j :: 0 <= i < j < |names| ==> ComesFirst(agentOf, lines, names[i], names[j])
  }

  ghost predicate ComesFirst(agentOf: string -> Option<string>, lines: seq<string>, a: string, b: string) {
    exists k: nat, l: nat :: k < l && FirstSays(agentOf, lines, a, k) && FirstSays(agentOf, lines, b, l)
  }

  method CollectBy(agentOf: string -> Option<string>, lines: seq<string>) returns (names: seq<string>)
    ensures forall n :: n in names <==> Says(agentOf, lines, n)
    ensures forall i, j :: 0 <= i < j < |names| ==> names[i] != names[j]
    ensures InOrderOfFirst(agentOf, lines, names)
  {
    names := [];
    for i := 0 to |lines|
      invariant forall n :: n in names <==> Says(agentOf, lines[..i], n)
      invariant forall j, k :: 0 <= j < k < |names| ==> names[j] != names[k]
      invariant InOrderOfFirst(agentOf, lines, names)
    {
      SaysMore(agentOf, lines, i);
      var agent := agentOf(lines[i]);
      if agent.Some? && agent.value !in names {
        LastComesLast(agentOf, lines, names, i);
        names := names + [agent.value];
      }
    }
    assert lines[..|lines|] == lines;
  }

  lemma SaysMore(agentOf: string -> Option<string>, lines: seq<string>, i: nat)
    requires i < |lines|
    ensures forall n :: Says(agentOf, lines[..i + 1], n) <==>
              Says(agentOf, lines[..i], n) || agentOf(lines[i]) == Some(n)
  {
    assert lines[..i + 1] == lines[..i] + [lines[i]];
    assert lines[i] in lines[..i + 1];
    forall n | Says(agentOf, lines[..i], n)
      ensures Says(agentOf, lines[..i + 1], n)
    {
      var l :| l in lines[..i] && agentOf(l) == Some(n);
      assert l in lines[..i + 1];
    }
  }

  lemma {:induction false} FirstOfName(agentOf: string -> Option<string>, lines: seq<string>, i: nat, name: string)
    returns (k: nat)
    requires i <= |lines| && Says(agentOf, lines[..i], name)
    ensures k < i && FirstSays(agentOf, lines, name, k)
    decreases i
  {
    SaysMore(agentOf, lines, i - 1);
    if Says(agentOf, lines[..i - 1], name) {
      k := FirstOfName(agentOf, lines, i - 1, name);
    } else {
      k := i - 1;
    }
  }

  /** A name that is new at line `i` comes after those of the lines before it. */
  lemma LastComesLast(agentOf: string -> Option<string>, lines: seq<string>, names: seq<string>, i: nat)
    requires i < |lines| && agentOf(lines[i]).Some? && !Says(agentOf, lines[..i], agentOf(lines[i]).value)
    requires forall n :: n in names <==> Says(agentOf, lines[..i], n)
    requires InOrderOfFirst(agentOf, lines, names)
    ensures InOrderOfFirst(agentOf, lines, names + [agentOf(lines[i]).value])
  {
    var name := agentOf(lines[i]).value;
    forall n | n in names
      ensures ComesFirst(agentOf, lines, n, name)
    {
      var k := FirstOfName(agentOf, lines, i, n);
      assert FirstSays(agentOf, lines, name, i);
    }
    forall a, b | 0 <= a < b < |names + [name]|
      ensures ComesFirst(agentOf, lines, (names + [name])[a], (names + [name])[b])
    {
      if b == |names| { assert names[a] in names; }
    }
  }

  /** The trial's own prompt: one that carries its marker, or any prompt without a marker. */
  predicate StartsTrial(agents: set<string>, marker: Option<string>, line: string) {
    OpensPrompt(agents, line) && (marker.None? || Includes(line, "[" + marker.value + "]"))
  }

  function Starter(agents: set<string>, marker: Option<string>): string -> bool {
    line => StartsTrial(agents, marker, line)
  }

  /** What follows the first line that starts the trial. */
  function AfterFirst(starts: string -> bool, lines: seq<string>): Option<seq<string>> {
    if lines == [] then None
    else if starts(lines[0]) then Some(lines[1..])
    else AfterFirst(starts, lines[1..])
  }

  lemma {:induction false} AfterFirstOf(starts: string -> bool, pre: seq<string>, rest: seq<string>)
    requires (forall k :: 0 <= k < |pre| ==> !starts(pre[k])) && rest != [] && starts(rest[0])
    ensures AfterFirst(starts, pre + rest) == Some(rest[1..])
  {
    if pre == [] {
      assert pre + rest == rest;
    } else {
      assert (pre + rest)[0] == pre[0] && (pre + rest)[1..] == pre[1..] + rest;
      AfterFirstOf(starts, pre[1..], rest);
    }
  }

  lemma {:induction false} NeverFirst(starts: string -> bool, lines: seq<string>)
    requires forall k :: 0 <= k < |lines| ==> !starts(lines[k])
    ensures AfterFirst(starts, lines).None?
  {
    if lines != [] { NeverFirst(starts, lines[1..]); }
  }

  function Stripped(raw: seq<string>): (lines: seq<string>)
    ensures |lines| == |raw| && forall i :: 0 <= i < |raw| ==> lines[i] == WithoutIid(Untimed(raw[i]))
  {
    seq(|raw|, i requires 0 <= i < |raw| => WithoutIid(Untimed(raw[i])))
  }

  datatype Trial = Trial(agents: set<string>, after: seq<string>)

  /** The Agents of a conversation's lines, and the lines after its trial's own prompt. Without an Agent
      no line starts a trial. */
  function TrialIn(lines: seq<string>, marker: Option<string>): Option<Trial> {
    var agents := PromptedAgents(lines);
    var after := AfterFirst(Starter(agents, marker), lines);
    if after.None? then None else Some(Trial(agents, after.value))
  }

  function TrialOf(kept: string, marker: Option<string>): Option<Trial> {
    TrialIn(Stripped(Split(kept, '\n')), marker)
  }

  /** What the reader takes from a line: nothing from a line of nobody, and the end of the trial from
      another trial's Frame. */
  datatype Heard = Nothing | TrialEnd | Heard(event: Event)

  function Hear(agents: set<string>, text: string): Heard {
    var l := Parse(agents, text);
    if l.None? then Nothing
    else if l.value.tag == Some("prompt") && IsFrame(l.value.body) then TrialEnd
    else Heard(Classify(l.value))
  }

  function Hearer(agents: set<string>): string -> Heard { text => Hear(agents, text) }

  /** The events up to the trial's end. */
  function Collect(hs: seq<Heard>): seq<Event> {
    if hs == [] then []
    else match hs[0]
         case Nothing => Collect(hs[1..])
         case TrialEnd => []
         case Heard(e) => [e] + Collect(hs[1..])
  }

  function Events(agents: set<string>, texts: seq<string>): seq<Event> { Collect(Map(Hearer(agents), texts)) }

  // ---- lines that say nothing ---------------------------------------------------------------------

  /** The lines that are not the trial's say nothing to the reader. */
  ghost predicate OthersAreSilent(hear: string -> Heard, lines: seq<string>, ours: seq<bool>)
    requires |ours| == |lines|
  {
    forall k :: 0 <= k < |lines| && !ours[k] ==> hear(lines[k]) == Nothing
  }

  /** Lines that say nothing are dropped. */
  lemma {:induction false} SilentLinesAreDropped(hear: string -> Heard, lines: seq<string>, ours: seq<bool>,
                                                 post: seq<string>)
    requires |ours| == |lines| && OthersAreSilent(hear, lines, ours)
    ensures Collect(Map(hear, lines + post)) == Collect(Map(hear, Chosen(lines, ours) + post))
    decreases |lines|
  {
    if lines == [] {
      assert lines + post == Chosen(lines, ours) + post;
    } else {
      var rest, marks := lines[1..], ours[1..];
      assert OthersAreSilent(hear, rest, marks) by {
        assert forall k :: 0 <= k < |rest| ==> rest[k] == lines[k + 1] && marks[k] == ours[k + 1];
      }
      SilentLinesAreDropped(hear, rest, marks, post);
      assert lines + post == [lines[0]] + (rest + post);
      CollectMore(hear, lines[0], rest + post);
      if ours[0] {
        CollectMore(hear, lines[0], Chosen(rest, marks) + post);
        assert Chosen(lines, ours) + post == [lines[0]] + (Chosen(rest, marks) + post);
      } else {
        assert Chosen(lines, ours) == Chosen(rest, marks);
      }
    }
  }

  lemma CollectMore(hear: string -> Heard, line: string, lines: seq<string>)
    ensures Collect(Map(hear, [line] + lines)) ==
            match hear(line)
            case Nothing => Collect(Map(hear, lines))
            case TrialEnd => []
            case Heard(e) => [e] + Collect(Map(hear, lines))
  {
    var all := [line] + lines;
    assert all[0] == line && all[1..] == lines;
    var hs := Map(hear, all);
    assert hs[0] == hear(line) && hs[1..] == Map(hear, lines);
  }

  /** A line that is of no Agent whose prompt printed says nothing to the reader: the echo does not. */
  lemma NobodysLineIsSilent(agents: set<string>, line: string)
    requires Bracketed(line).Some? ==> Bracketed(line).value.inner !in agents
    ensures Hear(agents, line) == Nothing
  {
  }

  /** A line that is no prompt, starts nothing and says nothing. */
  ghost predicate IsMute(agents: set<string>, marker: Option<string>, line: string) {
    PromptAgent(line).None? && !StartsTrial(agents, marker, line) && Hear(agents, line) == Nothing
  }

  lemma {:induction false} MuteAfterFirst(starts: string -> bool, hear: string -> Heard, lines: seq<string>,
                                          ours: seq<bool>)
    requires |ours| == |lines| && OthersAreSilent(hear, lines, ours)
    requires forall k :: 0 <= k < |lines| && !ours[k] ==> !starts(lines[k])
    ensures var a, b := AfterFirst(starts, lines), AfterFirst(starts, Chosen(lines, ours));
            && (a.None? <==> b.None?)
            && (a.Some? ==> Collect(Map(hear, a.value)) == Collect(Map(hear, b.value)))
    decreases |lines|
  {
    if lines != [] {
      var rest, marks := lines[1..], ours[1..];
      assert forall k :: 0 <= k < |rest| ==> rest[k] == lines[k + 1] && marks[k] == ours[k + 1];
      MuteAfterFirst(starts, hear, rest, marks);
      var chosen := Chosen(rest, marks);
      if ours[0] {
        assert Chosen(lines, ours)[0] == lines[0] && Chosen(lines, ours)[1..] == chosen;
        if starts(lines[0]) {
          SilentLinesAreDropped(hear, rest, marks, []);
          assert rest + [] == rest && chosen + [] == chosen;
        }
      } else {
        assert Chosen(lines, ours) == chosen;
      }
    }
  }

  lemma MuteIsNoPrompt(lines: seq<string>, ours: seq<bool>)
    requires |ours| == |lines| && forall k :: 0 <= k < |lines| && !ours[k] ==> PromptAgent(lines[k]).None?
    ensures PromptedAgents(Chosen(lines, ours)) == PromptedAgents(lines)
  {
    forall l | l in lines && PromptAgent(l).Some?
      ensures l in Chosen(lines, ours)
    {
      var k :| 0 <= k < |lines| && lines[k] == l;
      ChosenHas(lines, ours, k);
    }
  }

  /** A mute line can be left out of a log: the trial, its Agents and its events are the same. */
  lemma MuteLinesAreNothing(lines: seq<string>, ours: seq<bool>, marker: Option<string>)
    requires |ours| == |lines|
    requires forall k :: 0 <= k < |lines| && !ours[k] ==> IsMute(PromptedAgents(lines), marker, lines[k])
    ensures var t, u := TrialIn(lines, marker), TrialIn(Chosen(lines, ours), marker);
            && (t.None? <==> u.None?)
            && (t.Some? ==> t.value.agents == u.value.agents
                            && Events(t.value.agents, t.value.after) == Events(u.value.agents, u.value.after))
  {
    forall k | 0 <= k < |lines| && !ours[k]
      ensures PromptAgent(lines[k]).None? && Hear(PromptedAgents(lines), lines[k]) == Nothing
              && !StartsTrial(PromptedAgents(lines), marker, lines[k])
    {
      assert IsMute(PromptedAgents(lines), marker, lines[k]);
    }
    MuteIsNoPrompt(lines, ours);
    var agents := PromptedAgents(lines);
    MuteAfterFirst(Starter(agents, marker), Hearer(agents), lines, ours);
  }

  predicate NoEnd(hs: seq<Heard>) { forall i :: 0 <= i < |hs| ==> !hs[i].TrialEnd? }

  lemma {:induction false} CollectConcat(a: seq<Heard>, b: seq<Heard>)
    requires NoEnd(a)
    ensures Collect(a + b) == Collect(a) + Collect(b)
  {
    if a == [] {
      assert a + b == b;
    } else {
      assert (a + b)[0] == a[0] && (a + b)[1..] == a[1..] + b;
      CollectConcat(a[1..], b);
    }
  }

  // ---- the reader --------------------------------------------------------------------------------

  type Key = (string, string)

  /** Where a body's later lines go. A call is named by its place in `out`. */
  datatype Sink = Nowhere | InputOf(at: nat) | AnswerOf(at: nat)

  datatype Reader = Reader(out: seq<Answered>, unanswered: map<Key, seq<nat>>, open: Sink)

  const START := Reader([], map[], Nowhere)

  function Get(m: map<Key, seq<nat>>, key: Key): seq<nat> {
    if key in m then m[key] else []
  }

  ghost predicate Ok(r: Reader) {
    && (forall key, i :: 0 <= i < |Get(r.unanswered, key)| ==> Get(r.unanswered, key)[i] < |r.out|)
    && (r.open.InputOf? ==> r.open.at < |r.out|)
    && (r.open.AnswerOf? ==> r.open.at < |r.out| && r.out[r.open.at].answer.Some?)
  }

  /** One event: a turn of the loop in `answersIn`. */
  function Read(r: Reader, e: Event): Reader
    requires Ok(r)
  {
    match e
    case Prompted(_, _) => r.(unanswered := map[], open := Nowhere)
    case Replied(agent, pick, isError, body) =>
      var queue := Get(r.unanswered, (agent, pick));
      if queue == [] then r.(open := Nowhere)
      else
        var k := queue[0];
        assert k < |r.out|;
        Reader(r.out[k := r.out[k].(answer := Some(body), error := r.out[k].error || isError)],
               r.unanswered[(agent, pick) := queue[1..]], AnswerOf(k))
    case Called(agent, name, body) =>
      Reader(r.out + [Answered(name, body, None, false)],
             r.unanswered[(agent, name) := Get(r.unanswered, (agent, name)) + [|r.out|]], InputOf(|r.out|))
    case More(text) =>
      (match r.open
       case Nowhere => r
       case InputOf(k) => r.(out := r.out[k := r.out[k].(input := r.out[k].input + "\n" + text)])
       case AnswerOf(k) => r.(out := r.out[k := r.out[k].(answer := Some(r.out[k].answer.value + "\n" + text))]))
    case Spoken => r.(open := Nowhere)
  }

  lemma ReadOk(r: Reader, e: Event)
    requires Ok(r)
    ensures Ok(Read(r, e))
  {
    var t := Read(r, e);
    forall key, i | 0 <= i < |Get(t.unanswered, key)|
      ensures Get(t.unanswered, key)[i] < |t.out|
    {
      if e.Replied? && key == (e.agent, e.pick) && Get(r.unanswered, key) != [] {
        assert Get(t.unanswered, key)[i] == Get(r.unanswered, key)[i + 1];
      } else if e.Called? && key == (e.agent, e.name) && i < |Get(r.unanswered, key)| {
        assert Get(t.unanswered, key)[i] == Get(r.unanswered, key)[i];
      } else if !e.Prompted? && !(e.Called? && key == (e.agent, e.name)) {
        assert Get(t.unanswered, key) == Get(r.unanswered, key);
      }
    }
  }

  function Fed(events: seq<Event>): (r: Reader)
    ensures Ok(r)
  {
    if events == [] then START
    else
      var r := Fed(events[..|events| - 1]);
      ReadOk(r, events[|events| - 1]);
      Read(r, events[|events| - 1])
  }

  function AnswersIn(kept: string, marker: string): Option<seq<Answered>> {
    var trial := TrialOf(kept, Some(marker));
    if trial.None? then None else Some(Fed(Events(trial.value.agents, trial.value.after)).out)
  }

  lemma FedMore(events: seq<Event>, e: Event)
    ensures Fed(events + [e]) == Read(Fed(events), e)
  {
    assert (events + [e])[..|events|] == events;
  }

  /** `read` is what was heard before `i`, and `i` is not past the trial's end. */
  ghost predicate ReadTo(hs: seq<Heard>, i: nat, read: seq<Event>) {
    i <= |hs| && read + Collect(hs[i..]) == Collect(hs)
  }

  lemma ReadOn(hs: seq<Heard>, i: nat, read: seq<Event>)
    requires i < |hs| && ReadTo(hs, i, read)
    ensures match hs[i]
            case Nothing => ReadTo(hs, i + 1, read)
            case TrialEnd => read == Collect(hs)
            case Heard(e) => ReadTo(hs, i + 1, read + [e])
  {
    assert hs[i..][1..] == hs[i + 1..];
    assert read + [] == read;
    if hs[i].Heard? {
      var rest := Collect(hs[i + 1..]);
      assert read + ([hs[i].event] + rest) == (read + [hs[i].event]) + rest;
    }
  }

  /** The loop over the trial's lines, its variables updated in place. */
  method ReadTrial(agents: set<string>, after: seq<string>) returns (out: seq<Answered>)
    ensures out == Fed(Events(agents, after)).out
  {
    out := [];
    var unanswered: map<Key, seq<nat>> := map[];
    var open := Nowhere;
    ghost var hs := Map(Hearer(agents), after);
    ghost var read: seq<Event> := [];
    for i := 0 to |after|
      invariant Reader(out, unanswered, open) == Fed(read)
      invariant ReadTo(hs, i, read)
    {
      ReadOn(hs, i, read);
      MapAt(Hearer(agents), after, i);
      match Hear(agents, after[i]) {
        case Nothing =>
        case TrialEnd => return;
        case Heard(e) =>
          FedMore(read, e);
          out, unanswered, open := ReadEvent(out, unanswered, open, e);
          read := read + [e];
      }
    }
    assert read + [] == read;
  }

  /** A turn of the loop on a line that matched. */
  method ReadEvent(out: seq<Answered>, unanswered: map<Key, seq<nat>>, open: Sink, e: Event)
    returns (out': seq<Answered>, unanswered': map<Key, seq<nat>>, open': Sink)
    requires Ok(Reader(out, unanswered, open))
    ensures Reader(out', unanswered', open') == Read(Reader(out, unanswered, open), e)
  {
    out', unanswered', open' := out, unanswered, open;
    match e {
      case Prompted(_, _) =>
        unanswered', open' := map[], Nowhere;
      case Replied(agent, pick, isError, body) =>
        var queue := Get(unanswered, (agent, pick));
        if queue == [] {
          open' := Nowhere;
        } else {
          var k := queue[0];
          assert k < |Reader(out, unanswered, open).out|;
          unanswered' := unanswered[(agent, pick) := queue[1..]];
          out' := out[k := out[k].(answer := Some(body))];
          if isError { out' := out'[k := out'[k].(error := true)]; }
          open' := AnswerOf(k);
        }
      case Called(agent, name, body) =>
        open' := InputOf(|out|);
        unanswered' := unanswered[(agent, name) := Get(unanswered, (agent, name)) + [|out|]];
        out' := out + [Answered(name, body, None, false)];
      case More(text) =>
        match open {
          case Nowhere =>
          case InputOf(k) => out' := out[k := out[k].(input := out[k].input + "\n" + text)];
          case AnswerOf(k) => out' := out[k := out[k].(answer := Some(out[k].answer.value + "\n" + text))];
        }
      case Spoken =>
        open' := Nowhere;
    }
  }

  method ReadAnswers(kept: string, marker: string) returns (out: Option<seq<Answered>>)
    ensures out == AnswersIn(kept, marker)
  {
    var trial := TrialOf(kept, Some(marker));
    if trial.None? { return None; }
    var read := ReadTrial(trial.value.agents, trial.value.after);
    out := Some(read);
  }

  // ---- a body and its later lines ------------------------------------------------------------------

  /** An event with one more line in its body, if its body is read. */
  function Longer(e: Event, text: string): Event {
    match e
    case Called(agent, name, body) => Called(agent, name, body + "\n" + text)
    case Replied(agent, pick, isError, body) => Replied(agent, pick, isError, body + "\n" + text)
    case _ => e
  }

  /** The events with each body whole: its later lines are part of it. */
  function Blocks(events: seq<Event>): (bs: seq<Event>)
    ensures forall i :: 0 <= i < |bs| ==> !bs[i].More?
  {
    if events == [] then []
    else
      var bs := Blocks(events[..|events| - 1]);
      var e := events[|events| - 1];
      if !e.More? then bs + [e]
      else if bs == [] then []
      else bs[|bs| - 1 := Longer(bs[|bs| - 1], e.text)]
  }

  /** Reading the lines one by one is reading whole bodies. */
  lemma {:induction false} ReadingWholeBodies(events: seq<Event>)
    ensures Fed(events) == Fed(Blocks(events))
  {
    if events != [] {
      var before := events[..|events| - 1];
      var e := events[|events| - 1];
      ReadingWholeBodies(before);
      var bs := Blocks(before);
      if !e.More? {
        assert (bs + [e])[..|bs|] == bs;
      } else if bs != [] {
        var n := |bs| - 1;
        assert bs[n := Longer(bs[n], e.text)][..n] == bs[..n];
        LongerBody(Fed(bs[..n]), bs[n], e.text);
      }
    }
  }

  lemma LongerBody(r: Reader, e: Event, text: string)
    requires Ok(r) && !e.More?
    ensures Ok(Read(r, e)) && Read(Read(r, e), More(text)) == Read(r, Longer(e, text))
  {
    ReadOk(r, e);
  }
}
