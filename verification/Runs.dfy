/**
 * One run's lines of a log that many runs print into (features/lib/model-said.ts, keptOfRun, ofRun),
 * and that reading them is reading that run's log alone.
 */
module Runs {
  import opened Wrappers
  import opened Flat
  import opened Text
  import opened Lines
  import opened Answers
  import opened Called

  predicate OfRunLine(line: string, runId: string) {
    var p := PrintedLine(Untimed(line));
    p.Some? && runId + "/" <= p.value.iid
  }

  function Filter(lines: seq<string>, runId: string): (r: seq<string>)
    ensures forall i :: 0 <= i < |r| ==> r[i] in lines && OfRunLine(r[i], runId)
  {
    if lines == [] then []
    else (if OfRunLine(lines[0], runId) then [lines[0]] else []) + Filter(lines[1..], runId)
  }

  function KeptOfRun(log: string, runId: string): seq<string> { Filter(Split(log, '\n'), runId) }

  function OfRun(log: string, runId: string): string { Join(Stripped(KeptOfRun(log, runId)), '\n') }

  // ---- whose a line is -----------------------------------------------------------------------------

  /** Whose a line of the log is: nobody's (the echo), or a run's; and a run's line can be one that is not
      read, because its text holds a line end. */
  datatype Source = Echo | Kept(run: string) | Broken(run: string)

  /** A run's printed line whose text holds a line end. */
  ghost predicate IsBroken(line: string, agent: string, iid: string, text: string) {
    Inner(agent) && Inner(iid) && IsIid(iid) && !OneLine(text) && IsStamped(line, PrintLine(agent, iid, text))
  }

  ghost predicate IsOf(line: string, source: Source) {
    var p := PrintedLine(Untimed(line));
    match source
    case Echo => p.None?
    case Kept(r) => Free(r, '/') && p.Some? && r + "/" <= p.value.iid
    case Broken(r) =>
      Free(r, '/') && exists agent, iid, text :: IsBroken(line, agent, iid, text) && r + "/" <= iid
  }

  /** What the printer writes for a run, with or without a time stamp, is that run's, and it is read
      exactly when its text holds no line end. */
  lemma PrintedIsOfItsRun(raw: string, agent: string, run: string, path: string, text: string)
    requires Free(run, '/') && Inner(agent) && Inner(run + "/" + path) && IsIid(run + "/" + path)
    requires IsStamped(raw, PrintLine(agent, run + "/" + path, text))
    ensures IsOf(raw, if OneLine(text) then Kept(run) else Broken(run))
    ensures OfRunLine(raw, run) <==> OneLine(text)
  {
    var iid := run + "/" + path;
    UntimedStamped(raw, PrintLine(agent, iid, text));
    ReadPrinted(agent, iid, text);
    if !OneLine(text) { assert IsBroken(raw, agent, iid, text) && run + "/" <= iid; }
  }

  /** Two slash-free run ids that both start one Instance ID are one: the slash ends them. */
  lemma OneRun(a: string, b: string, iid: string)
    requires Free(a, '/') && Free(b, '/') && a + "/" <= iid && b + "/" <= iid
    ensures a == b
  {
    assert iid[|a|] == '/' && iid[|b|] == '/';
    assert a == iid[..|a|] && b == iid[..|b|];
  }

  /** A line of the run, and one that is read. */
  function OwnOf(run: string): Source -> bool { source => source == Kept(run) || source == Broken(run) }

  function KeptBy(run: string): Source -> bool { source => source == Kept(run) }

  ghost predicate AreOf(lines: seq<string>, sources: seq<Source>) {
    |lines| == |sources| && forall i :: 0 <= i < |lines| ==> Free(lines[i], '\n') && IsOf(lines[i], sources[i])
  }

  lemma BrokenIsNotKept(line: string, r: string, run: string)
    requires IsOf(line, Broken(r))
    ensures !OfRunLine(line, run)
  {
    var agent, iid, text :| IsBroken(line, agent, iid, text) && r + "/" <= iid;
    UntimedStamped(line, PrintLine(agent, iid, text));
    ReadPrinted(agent, iid, text);
  }

  lemma KeptExactly(line: string, source: Source, run: string)
    requires Free(run, '/') && IsOf(line, source)
    ensures OfRunLine(line, run) <==> source == Kept(run)
  {
    match source {
      case Echo =>
      case Kept(r) => if OfRunLine(line, run) { OneRun(r, run, PrintedLine(Untimed(line)).value.iid); }
      case Broken(r) => BrokenIsNotKept(line, r, run);
    }
  }

  lemma {:induction false} FilterIsWhere(lines: seq<string>, sources: seq<Source>, run: string)
    requires |lines| == |sources|
    requires forall i :: 0 <= i < |lines| ==> (OfRunLine(lines[i], run) <==> sources[i] == Kept(run))
    ensures Filter(lines, run) == Where(lines, sources, KeptBy(run))
  {
    if lines != [] { FilterIsWhere(lines[1..], sources[1..], run); }
  }

  /** In every interleaving of the lines of many runs and of the echo, those of one run's lines that hold
      no line end are kept, all of them and no other, in order. */
  lemma RunsAreIsolated(lines: seq<string>, sources: seq<Source>, run: string)
    requires lines != [] && AreOf(lines, sources) && Free(run, '/')
    ensures KeptOfRun(Join(lines, '\n'), run) == Where(lines, sources, KeptBy(run))
  {
    SplitJoin(lines, '\n');
    forall i | 0 <= i < |lines|
      ensures OfRunLine(lines[i], run) <==> sources[i] == Kept(run)
    {
      KeptExactly(lines[i], sources[i], run);
    }
    FilterIsWhere(lines, sources, run);
  }

  /** So a run's lines are all kept exactly when none of them holds a line end. */
  lemma AllAreKeptExactly(lines: seq<string>, sources: seq<Source>, run: string)
    requires lines != [] && AreOf(lines, sources) && Free(run, '/')
    ensures KeptOfRun(Join(lines, '\n'), run) == Where(lines, sources, OwnOf(run)) <==> Broken(run) !in sources
  {
    RunsAreIsolated(lines, sources, run);
    WhereSame(lines, sources, OwnOf(run), KeptBy(run));
  }

  /** What `ofRun` gives of a run's printed lines: each Agent and text, without the stamp and without the
      Instance ID. */
  lemma OfRunShows(log: string, run: string, prints: seq<Printed>)
    requires |prints| == |KeptOfRun(log, run)|
    requires forall k :: 0 <= k < |prints| ==> IsPrintedAs(KeptOfRun(log, run)[k], prints[k])
    ensures OfRun(log, run) == Join(Map(TextOf, prints), '\n')
  {
    PrintsAreStripped(KeptOfRun(log, run), prints);
  }

  lemma PrintLineOpens(agent: string, iid: string, text: string)
    ensures PrintLine(agent, iid, text) != "" && !IsDigit(PrintLine(agent, iid, text)[0])
  {
  }

  lemma PrintIsStripped(raw: string, p: Printed)
    requires IsPrintedAs(raw, p)
    ensures WithoutIid(Untimed(raw)) == TextOf(p)
  {
    PrintLineOpens(p.agent, p.iid, p.rest);
    UntimedStamped(raw, PrintLine(p.agent, p.iid, p.rest));
    ReadPrinted(p.agent, p.iid, p.rest);
  }

  lemma PrintsAreStripped(kept: seq<string>, prints: seq<Printed>)
    requires |prints| == |kept| && forall k :: 0 <= k < |prints| ==> IsPrintedAs(kept[k], prints[k])
    ensures Stripped(kept) == Map(TextOf, prints)
  {
    var lines, texts := Stripped(kept), Map(TextOf, prints);
    forall k | 0 <= k < |prints|
      ensures lines[k] == texts[k]
    {
      PrintIsStripped(kept[k], prints[k]);
      MapAt(TextOf, prints, k);
    }
  }

  ghost predicate IsPrintedAs(raw: string, p: Printed) {
    && Inner(p.agent) && Inner(p.iid) && IsIid(p.iid) && OneLine(p.rest)
    && IsStamped(raw, PrintLine(p.agent, p.iid, p.rest))
  }

  function TextOf(p: Printed): string { "[" + p.agent + "]" + (" " + p.rest) }

  // ---- the repeated strip --------------------------------------------------------------------------

  /** A body that opens with a bracketed word of two slashes or more. */
  predicate OpensWithIid(text: string) {
    var b := Bracketed(text);
    b.Some? && IsIid(b.value.inner)
  }

  /** How a line without its Instance ID is read again. */
  lemma ReadAgain(agent: string, rest: string)
    requires Inner(agent) && OneLine(rest)
    ensures PrintedLine(Box(agent, " " + rest)) ==
            if OpensWithIid(rest)
            then Some(Printed(agent, Bracketed(rest).value.inner, AfterSpace(Bracketed(rest).value.after)))
            else None
  {
    BracketedBox(agent, " " + rest);
    assert (" " + rest)[1..] == rest;
    if OpensWithIid(rest) { OneLineAfter(rest); }
  }

  /** A second strip changes a printed line exactly when its body opens with such a word. */
  lemma SecondStrip(line: string)
    requires PrintedLine(line).Some?
    ensures WithoutIid(WithoutIid(line)) == WithoutIid(line) <==> !OpensWithIid(PrintedLine(line).value.rest)
  {
    var Printed(agent, _, rest) := PrintedLine(line).value;
    ReadAgain(agent, rest);
    if OpensWithIid(rest) {
      OneLineAfter(rest);
      assert |Box(agent, " " + AfterSpace(Bracketed(rest).value.after))| < |Box(agent, " " + rest)|;
    }
  }

  lemma StripsTwice(agent: string, iid: string, path: string, text: string)
    requires Inner(agent) && Inner(iid) && IsIid(iid) && Inner(path) && IsIid(path) && OneLine(Box(path, " " + text))
    ensures var line := PrintLine(agent, iid, Box(path, " " + text));
            && WithoutIid(line) == Box(agent, " " + Box(path, " " + text))
            && WithoutIid(WithoutIid(line)) == Box(agent, " " + text)
  {
    var body := Box(path, " " + text);
    BracketedBox(path, " " + text);
    ReadPrinted(agent, iid, body);
    ReadAgain(agent, body);
    assert AfterSpace(" " + text) == text;
  }

  /** A line that the second strip changes: its body opens with a path in brackets. */
  lemma ASecondStripTakesAPath(agent: string, iid: string)
    requires Inner(agent) && Inner(iid) && IsIid(iid)
    ensures var line := PrintLine(agent, iid, "[a/b/c] text");
            WithoutIid(line) != WithoutIid(WithoutIid(line)) == Box(agent, " " + "text")
  {
    APathIsAnIid();
    assert Box("a/b/c", " " + "text") == "[a/b/c] text";
    StripsTwice(agent, iid, "a/b/c", "text");
    assert |Box(agent, " " + "text")| < |Box(agent, " " + Box("a/b/c", " " + "text"))|;
  }

  lemma APathIsAnIid()
    ensures Inner("a/b/c") && IsIid("a/b/c") && OneLine("[a/b/c] text")
  {
    var s := "a/b/c";
    assert s[1..] == "/b/c" && "/b/c"[1..] == "b/c" && "b/c"[1..] == "/c" && "/c"[1..] == "c" && "c"[1..] == "";
    assert Slashes("/c") == 1;
    assert Slashes("/b/c") == 2;
  }

  /** A stripped line is taken as it is by the next reading. */
  lemma StripsOnce(line: string)
    requires PrintedLine(Untimed(line)).Some? && !OpensWithIid(PrintedLine(Untimed(line)).value.rest)
    ensures var l := WithoutIid(Untimed(line)); WithoutIid(Untimed(l)) == l
  {
    var l := WithoutIid(Untimed(line));
    assert l[0] == '[';
    UntimedPlain(l);
    SecondStrip(Untimed(line));
  }

  lemma BracketKeepsOneLine(s: string)
    requires Free(s, '\n') && Bracketed(s).Some?
    ensures Free(Bracketed(s).value.inner, '\n')
  {
  }

  lemma BoxKeepsOneLine(agent: string, rest: string)
    requires Free(agent, '\n') && OneLine(rest)
    ensures Free(Box(agent, " " + rest), '\n')
  {
  }

  lemma StripKeepsOneLine(line: string)
    requires Free(line, '\n')
    ensures Free(WithoutIid(Untimed(line)), '\n')
  {
    var u := Untimed(line);
    assert forall i :: 0 <= i < |u| ==> u[i] == line[StampLength(line) + i];
    WithoutIidKeepsOneLine(u);
  }

  lemma WithoutIidKeepsOneLine(u: string)
    requires Free(u, '\n')
    ensures Free(WithoutIid(u), '\n')
  {
    var p := PrintedLine(u);
    if p.Some? {
      BracketKeepsOneLine(u);
      BoxKeepsOneLine(p.value.agent, p.value.rest);
    }
  }

  /**
   * Reading one run's stripped lines is reading that run's log alone, by both readings and for every
   * marker: the strip that the reading repeats does no harm, while no body opens with a bracketed word
   * of two slashes or more.
   */
  lemma ReadingOneRun(log: string, run: string, marker: string)
    requires forall i :: 0 <= i < |KeptOfRun(log, run)| ==>
               !OpensWithIid(PrintedLine(Untimed(KeptOfRun(log, run)[i])).value.rest)
    ensures AnswersIn(OfRun(log, run), marker) == AnswersIn(Join(KeptOfRun(log, run), '\n'), marker)
    ensures CalledIn(OfRun(log, run), Some(marker)) == CalledIn(Join(KeptOfRun(log, run), '\n'), Some(marker))
  {
    var own := KeptOfRun(log, run);
    if own != [] {
      var lines := Stripped(own);
      forall i | 0 <= i < |own|
        ensures Free(own[i], '\n') && Free(lines[i], '\n') && WithoutIid(Untimed(lines[i])) == lines[i]
      {
        assert own[i] in Split(log, '\n');
        StripKeepsOneLine(own[i]);
        StripsOnce(own[i]);
      }
      SplitJoin(own, '\n');
      SplitJoin(lines, '\n');
      assert Stripped(lines) == lines;
    }
  }

  /** A line whose body, if it is a printed one, does not open with a bracketed word of two slashes. */
  predicate Clean(line: string) {
    var p := PrintedLine(Untimed(line));
    p.Some? ==> !OpensWithIid(p.value.rest)
  }

  lemma PromptPrefix(after: string)
    requires " [prompt] " <= after
    ensures Bracketed(after[1..]) == Some(Bracket("prompt", after[9..]))
  {
    var rest := after[9..];
    assert after == " [prompt]" + rest;
    assert after[1..] == Box("prompt", rest);
    BracketedBox("prompt", rest);
  }

  /** A broken line is no prompt. */
  lemma BrokenIsNoPrompt(agent: string, iid: string, text: string)
    requires Inner(agent) && Inner(iid) && IsIid(iid)
    ensures var a := Bracketed(PrintLine(agent, iid, text)); a.Some? && !(" [prompt] " <= a.value.after)
  {
    var after := " " + Box(iid, " " + text);
    BracketedBox(agent, after);
    assert after[1..] == Box(iid, " " + text);
    BracketedBox(iid, " " + text);
    PromptIsNoIid();
    if " [prompt] " <= after { PromptPrefix(after); }
  }

  /** A broken line is mute. */
  lemma BrokenIsMute(agents: set<string>, marker: Option<string>, line: string, r: string)
    requires IsOf(line, Broken(r))
    ensures IsMute(agents, marker, WithoutIid(Untimed(line)))
  {
    var agent, iid, text :| IsBroken(line, agent, iid, text) && r + "/" <= iid;
    UntimedStamped(line, PrintLine(agent, iid, text));
    ReadPrinted(agent, iid, text);
    BrokenIsNoPrompt(agent, iid, text);
    ParseBroken(agents, agent, iid, text);
  }

  /** Two logs with the same trial are read alike. */
  lemma SameTrialSameReading(a: string, b: string, marker: string)
    requires var t, u := TrialOf(a, Some(marker)), TrialOf(b, Some(marker));
             && (t.None? <==> u.None?)
             && (t.Some? ==> Events(t.value.agents, t.value.after) == Events(u.value.agents, u.value.after))
    ensures AnswersIn(a, marker) == AnswersIn(b, marker)
    ensures CalledIn(a, Some(marker)) == CalledIn(b, Some(marker))
  {
    var t, u := TrialOf(a, Some(marker)), TrialOf(b, Some(marker));
    if t.Some? {
      SaidFromEvents(t.value.agents, t.value.after);
      SaidFromEvents(u.value.agents, u.value.after);
    }
  }

  lemma TrialOfLines(lines: seq<string>, marker: string)
    requires forall k :: 0 <= k < |lines| ==> Free(lines[k], '\n')
    ensures TrialOf(Join(lines, '\n'), Some(marker)) == TrialIn(Stripped(lines), Some(marker))
  {
    if lines == [] {
      NoLineNoTrial(marker);
      assert Stripped(lines) == [];
    } else {
      SplitJoin(lines, '\n');
    }
  }

  lemma NoLineNoTrial(marker: string)
    ensures TrialOf("", Some(marker)).None? && TrialIn([], Some(marker)).None?
  {
    assert Split("", '\n') == [""] && Untimed("") == "" && WithoutIid("") == "";
    var lines := Stripped(Split("", '\n'));
    assert lines == [""] && lines[1..] == [];
    assert !StartsTrial(PromptedAgents(lines), Some(marker), "");
  }

  lemma ReadsAlike(lines: seq<string>, ours: seq<bool>, marker: string)
    requires |ours| == |lines| && forall k :: 0 <= k < |lines| ==> Free(lines[k], '\n')
    requires var agents := PromptedAgents(Stripped(lines));
             forall k :: 0 <= k < |lines| && !ours[k] ==> IsMute(agents, Some(marker), Stripped(lines)[k])
    ensures AnswersIn(Join(Chosen(lines, ours), '\n'), marker) == AnswersIn(Join(lines, '\n'), marker)
    ensures CalledIn(Join(Chosen(lines, ours), '\n'), Some(marker)) == CalledIn(Join(lines, '\n'), Some(marker))
  {
    var chosen := Chosen(lines, ours);
    forall k | 0 <= k < |chosen|
      ensures Free(chosen[k], '\n')
    {
      assert chosen[k] in lines;
    }
    TrialOfLines(lines, marker);
    TrialOfLines(chosen, marker);
    ChosenStripped(lines, ours);
    MuteLinesAreNothing(Stripped(lines), ours, Some(marker));
    SameTrialSameReading(Join(chosen, '\n'), Join(lines, '\n'), marker);
  }

  lemma ChosenStripped(lines: seq<string>, ours: seq<bool>)
    requires |ours| == |lines|
    ensures Chosen(Stripped(lines), ours) == Stripped(Chosen(lines, ours))
  {
    ChosenMapped(line => WithoutIid(Untimed(line)), lines, Stripped(lines), ours);
  }

  lemma OwnReadsAsKept(lines: seq<string>, sources: seq<Source>, run: string, marker: string)
    requires AreOf(lines, sources)
    ensures var own, kept := Where(lines, sources, OwnOf(run)), Where(lines, sources, KeptBy(run));
            && AnswersIn(Join(kept, '\n'), marker) == AnswersIn(Join(own, '\n'), marker)
            && CalledIn(Join(kept, '\n'), Some(marker)) == CalledIn(Join(own, '\n'), Some(marker))
  {
    var own := Where(lines, sources, OwnOf(run));
    var marks := WhereLess(lines, sources, OwnOf(run), KeptBy(run), line => IsOf(line, Broken(run)));
    forall k | 0 <= k < |own|
      ensures Free(own[k], '\n')
      ensures !marks[k] ==> IsMute(PromptedAgents(Stripped(own)), Some(marker), Stripped(own)[k])
    {
      assert own[k] in lines;
      if !marks[k] { BrokenIsMute(PromptedAgents(Stripped(own)), Some(marker), own[k], run); }
    }
    ReadsAlike(own, marks, marker);
  }

  /** The whole of it: out of any interleaving of many runs' lines and the echo, one run's part reads as
      all that this run printed, alone. A line that holds a line end is lost either way. */
  lemma OneRunOfMany(lines: seq<string>, sources: seq<Source>, run: string, marker: string)
    requires lines != [] && AreOf(lines, sources) && Free(run, '/')
    requires forall i :: 0 <= i < |lines| ==> Clean(lines[i])
    ensures var own := Join(Where(lines, sources, OwnOf(run)), '\n');
            && AnswersIn(OfRun(Join(lines, '\n'), run), marker) == AnswersIn(own, marker)
            && CalledIn(OfRun(Join(lines, '\n'), run), Some(marker)) == CalledIn(own, Some(marker))
  {
    RunsAreIsolated(lines, sources, run);
    KeptAreClean(lines, run);
    ReadingOneRun(Join(lines, '\n'), run, marker);
    OwnReadsAsKept(lines, sources, run, marker);
  }

  lemma KeptAreClean(lines: seq<string>, run: string)
    requires lines != [] && forall i :: 0 <= i < |lines| ==> Free(lines[i], '\n') && Clean(lines[i])
    ensures var kept := KeptOfRun(Join(lines, '\n'), run);
            forall i :: 0 <= i < |kept| ==> !OpensWithIid(PrintedLine(Untimed(kept[i])).value.rest)
  {
    SplitJoin(lines, '\n');
    var kept := Filter(lines, run);
    forall i | 0 <= i < |kept|
      ensures !OpensWithIid(PrintedLine(Untimed(kept[i])).value.rest)
    {
      var k :| 0 <= k < |lines| && lines[k] == kept[i];
      assert Clean(lines[k]);
    }
  }
}
