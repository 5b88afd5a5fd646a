/** The other reading of a kept conversation, its calls and prompts (features/lib/model-said.ts,
    saidFrom, calledIn), and that it agrees with `answersIn`. */
module Called {
  import opened Wrappers
  import opened Flat
  import opened Lines
  import opened Sayings
  import opened Answers

  datatype Tagged = Tagged(tag: string, body: string)

  /** `^\[<agents>\] \[([^\]]+)\] ?(.*)$`: here a label is required. */
  function ParseTagged(agents: set<string>, text: string): Option<Tagged> {
    var a := Bracketed(text);
    if a.None? || a.value.inner !in agents || a.value.after == "" || a.value.after[0] != ' ' then None
    else
      var b := Bracketed(a.value.after[1..]);
      if b.None? || !OneLine(AfterSpace(b.value.after)) then None
      else Some(Tagged(b.value.inner, AfterSpace(b.value.after)))
  }

  /** What a line says: nothing, a call or a prompt, or another trial's Frame, which ends the trial. */
  datatype Saying = Silent | Ends | Says(said: Said)

  function Say(agents: set<string>, text: string): Saying {
    var l := ParseTagged(agents, text);
    if l.None? then Silent
    else if l.value.tag == "prompt" then if IsFrame(l.value.body) then Ends else Says(Prompt(l.value.body))
    else if IsCall(l.value.tag) then Says(Call(l.value.tag))
    else Silent
  }

  function SaidBy(say: string -> Saying, texts: seq<string>): seq<Said> {
    if texts == [] then []
    else match say(texts[0])
         case Silent => SaidBy(say, texts[1..])
         case Ends => []
         case Says(said) => [said] + SaidBy(say, texts[1..])
  }

  /** What the model called and read, up to another trial's Frame. */
  function SaidFrom(agents: set<string>, texts: seq<string>): seq<Said> {
    SaidBy(text => Say(agents, text), texts)
  }

  /** `saidFrom`, its list filled line by line. */
  method ReadSaid(agents: set<string>, texts: seq<string>) returns (out: seq<Said>)
    ensures out == SaidFrom(agents, texts)
  {
    out := FillSaid(text => Say(agents, text), texts);
  }

  method FillSaid(say: string -> Saying, texts: seq<string>) returns (out: seq<Said>)
    ensures out == SaidBy(say, texts)
  {
    out := [];
    for i := 0 to |texts|
      invariant out + SaidBy(say, texts[i..]) == SaidBy(say, texts)
    {
      assert texts[i..][1..] == texts[i + 1..];
      match say(texts[i]) {
        case Silent =>
        case Ends => break;
        case Says(said) => out := out + [said];
      }
    }
  }

  function CalledIn(kept: string, marker: Option<string>): Option<seq<Said>> {
    var trial := TrialOf(kept, marker);
    if trial.None? then None else Some(SaidFrom(trial.value.agents, trial.value.after))
  }

  /** What an event says: a call or a prompt, or nothing. */
  function SaidOf(e: Event): seq<Said> {
    match e
    case Prompted(_, body) => [Prompt(body)]
    case Called(_, name, _) => [Call(name)]
    case _ => []
  }

  function SaidOfAll(events: seq<Event>): seq<Said> {
    if events == [] then [] else SaidOf(events[0]) + SaidOfAll(events[1..])
  }

  function CallNames(said: seq<Said>): seq<string> {
    if said == [] then []
    else (if said[0].Call? then [said[0].call] else []) + CallNames(said[1..])
  }

  function Names(out: seq<Answered>): seq<string> {
    seq(|out|, i requires 0 <= i < |out| => out[i].call)
  }

  /** The two regular expressions say the same of a line. */
  lemma SameLine(agents: set<string>, text: string)
    ensures match Hear(agents, text)
            case TrialEnd => Say(agents, text) == Ends
            case Nothing => Say(agents, text) == Silent
            case Heard(e) =>
              match Say(agents, text)
              case Silent => SaidOf(e) == []
              case Ends => false
              case Says(said) => SaidOf(e) == [said]
  {
    var l := ParseTagged(agents, text);
    if l.Some? && AnswerLabel(l.value.tag).Some? {
      AnswerIsNoCall(l.value.tag);
    }
  }

  /** Two ways to take a line agree. */
  ghost predicate Agree(hear: string -> Heard, say: string -> Saying, text: string) {
    match hear(text)
    case TrialEnd => say(text) == Ends
    case Nothing => say(text) == Silent
    case Heard(e) => match say(text)
                     case Silent => SaidOf(e) == []
                     case Ends => false
                     case Says(said) => SaidOf(e) == [said]
  }

  lemma {:induction false} SaidByEvents(hear: string -> Heard, say: string -> Saying, texts: seq<string>)
    requires forall i :: 0 <= i < |texts| ==> Agree(hear, say, texts[i])
    ensures SaidBy(say, texts) == SaidOfAll(Collect(Map(hear, texts)))
  {
    if texts != [] {
      assert Agree(hear, say, texts[0]);
      SaidByEvents(hear, say, texts[1..]);
      var hs := Map(hear, texts);
      assert hs[0] == hear(texts[0]) && hs[1..] == Map(hear, texts[1..]);
      if hs[0].Heard? {
        var rest := Collect(hs[1..]);
        assert ([hs[0].event] + rest)[1..] == rest;
        assert [] + SaidOfAll(rest) == SaidOfAll(rest);
      }
    }
  }

  lemma SaidFromEvents(agents: set<string>, texts: seq<string>)
    ensures SaidFrom(agents, texts) == SaidOfAll(Events(agents, texts))
  {
    forall i | 0 <= i < |texts|
      ensures Agree(Hearer(agents), text => Say(agents, text), texts[i])
    {
      SameLine(agents, texts[i]);
    }
    SaidByEvents(Hearer(agents), text => Say(agents, text), texts);
  }

  lemma {:induction false} CallNamesConcat(a: seq<Said>, b: seq<Said>)
    ensures CallNames(a + b) == CallNames(a) + CallNames(b)
  {
    if a == [] {
      assert a + b == b;
    } else {
      assert (a + b)[1..] == a[1..] + b;
      CallNamesConcat(a[1..], b);
    }
  }

  lemma {:induction false} SaidOfAllMore(events: seq<Event>, e: Event)
    ensures SaidOfAll(events + [e]) == SaidOfAll(events) + SaidOf(e)
  {
    if events == [] {
      assert [] + [e] == [e] && [e][1..] == [];
    } else {
      assert (events + [e])[1..] == events[1..] + [e];
      SaidOfAllMore(events[1..], e);
    }
  }

  /** The reader gives one entry per call, under its name. */
  lemma {:induction false} ReaderNamesCalls(events: seq<Event>)
    ensures Names(Fed(events).out) == CallNames(SaidOfAll(events))
  {
    if events != [] {
      var n := |events| - 1;
      var e := events[n];
      assert events == events[..n] + [e];
      ReaderNamesCalls(events[..n]);
      SaidOfAllMore(events[..n], e);
      CallNamesConcat(SaidOfAll(events[..n]), SaidOf(e));
      ReadNames(Fed(events[..n]), e);
    }
  }

  lemma ReadNames(r: Reader, e: Event)
    requires Ok(r)
    ensures Names(Read(r, e).out) == Names(r.out) + CallNames(SaidOf(e))
  {
    if e.Called? {
      assert CallNames([Call(e.name)]) == [e.name];
    } else {
      assert CallNames(SaidOf(e)) == [];
      assert Names(Read(r, e).out) == Names(r.out);
    }
  }

  /** The two readings agree on every log: neither has a reading without the trial's own prompt, and
      otherwise both tell the same calls, in the same order, up to the same Frame. */
  lemma TwoReadersAgree(kept: string, marker: string)
    ensures AnswersIn(kept, marker).None? <==> CalledIn(kept, Some(marker)).None?
    ensures AnswersIn(kept, marker).Some? ==>
              Names(AnswersIn(kept, marker).value) == CallNames(CalledIn(kept, Some(marker)).value)
  {
    var trial := TrialOf(kept, Some(marker));
    if trial.Some? {
      SaidFromEvents(trial.value.agents, trial.value.after);
      ReaderNamesCalls(Events(trial.value.agents, trial.value.after));
    }
  }
}
