/**
 * What the labels and lines of a printed conversation look like, said by their parts
 * (features/lib/model-said.ts: CALL_LABEL, NOT_A_CALL, printedLine, promptedAgents, isRestatement).
 */
module Grammar {
  import opened Wrappers
  import opened Text
  import opened Lines
  import opened Sayings
  import opened Answers

  // ---- brackets ------------------------------------------------------------------------------------

  /** A text opens with a bracket exactly when it is `[`, something without `]`, `]`, and the rest. */
  lemma BracketedExactly(s: string, inner: string, after: string)
    ensures Bracketed(s) == Some(Bracket(inner, after)) <==> Inner(inner) && s == "[" + inner + "]" + after
  {
    if Bracketed(s).Some? { BracketParts(s); }
    if Inner(inner) { BracketedBox(inner, after); }
  }

  /** A prompt is a Frame exactly when it opens with a word in brackets. */
  lemma FrameExactly(body: string)
    ensures IsFrame(body) <==> exists word, rest :: Inner(word) && body == Box(word, rest)
  {
    if IsFrame(body) {
      BracketParts(body);
    }
    forall word, rest | Inner(word) && body == Box(word, rest)
      ensures IsFrame(body)
    {
      BracketedBox(word, rest);
    }
  }

  // ---- line ends and spaces ------------------------------------------------------------------------

  /** The four line ends, and no other character, break a line. */
  lemma LineEndsExactly(c: char)
    ensures OneLine([c]) <==> c !in {'\n', '\r', '\U{2028}', '\U{2029}'}
  {
    assert [c][0] == c;
  }

  lemma SomeSpaces()
    ensures IsSpace(' ') && IsSpace('\t') && IsSpace('\n') && IsSpace('\r') && IsSpace('\U{a0}')
    ensures IsSpace('\U{2003}') && IsSpace('\U{2028}') && IsSpace('\U{3000}') && IsSpace('\U{feff}')
    ensures !IsSpace('a') && !IsSpace('/') && !IsSpace('_') && !IsSpace('-')
  {
  }

  // ---- Instance IDs --------------------------------------------------------------------------------

  predicate NoSpace(s: string) { forall i :: 0 <= i < |s| ==> !IsSpace(s[i]) }

  lemma {:induction false} SlashesConcat(a: string, b: string)
    ensures Slashes(a + b) == Slashes(a) + Slashes(b)
  {
    if a == "" {
      assert a + b == b;
    } else {
      assert (a + b)[0] == a[0] && (a + b)[1..] == a[1..] + b;
      SlashesConcat(a[1..], b);
    }
  }

  lemma {:induction false} NoSlashes(s: string)
    ensures Slashes(s) == 0 <==> Free(s, '/')
  {
    if s != "" {
      NoSlashes(s[1..]);
      assert s == [s[0]] + s[1..];
    }
  }

  /** A first slash cuts a text in two. */
  lemma SlashCuts(s: string) returns (a: string, b: string)
    requires Slashes(s) > 0
    ensures s == a + "/" + b && Free(a, '/') && Slashes(b) == Slashes(s) - 1
  {
    NoSlashes(s);
    var k := First(s, '/');
    a, b := s[..k], s[k + 1..];
    assert s == a + "/" + b;
    NoSlashes(a);
    SlashesConcat(a + "/", b);
    SlashesConcat(a, "/");
    assert Slashes("/") == 1;
  }

  /** An Instance ID is three parts between slashes, the last one any, without a space. */
  lemma IidExactly(s: string)
    ensures IsIid(s) <==> NoSpace(s) && exists a, b, c :: Free(a, '/') && Free(b, '/') && s == a + "/" + b + "/" + c
  {
    if IsIid(s) {
      var a, rest := SlashCuts(s);
      var b, c := SlashCuts(rest);
      assert s == a + "/" + b + "/" + c;
    }
    forall a, b, c | s == a + "/" + b + "/" + c
      ensures Slashes(s) >= 2
    {
      SlashesConcat(a + "/" + b + "/", c);
      SlashesConcat(a + "/" + b, "/");
      SlashesConcat(a + "/", b);
      SlashesConcat(a, "/");
      assert Slashes("/") == 1;
    }
  }

  // ---- labels --------------------------------------------------------------------------------------

  /** A call's label is a name in lower-case snake, or a server and a tool with one slash between. */
  lemma CallLabelExactly(s: string)
    ensures IsCallLabel(s) <==>
              || IsSnake(s)
              || exists server, tool :: IsServer(server) && IsTool(tool) && s == server + "/" + tool
  {
    var k := First(s, '/');
    if IsCallLabel(s) && !IsSnake(s) {
      assert s == s[..k] + "/" + s[k + 1..];
    }
    forall server, tool | IsServer(server) && IsTool(tool) && s == server + "/" + tool
      ensures IsCallLabel(s)
    {
      FirstOf(server, '/', tool);
      assert s[..|server|] == server && s[|server| + 1..] == tool;
    }
  }

  /** An answer's label is the pick and `answer`, or the pick and `error`. */
  lemma AnswerLabelExactly(s: string, pick: string, isError: bool)
    ensures AnswerLabel(s) == Some((pick, isError)) <==>
              IsSnake(pick) && s == pick + if isError then " error" else " answer"
  {
    var k := First(s, ' ');
    if AnswerLabel(s) == Some((pick, isError)) {
      assert s == s[..k] + s[k..];
    }
    if IsSnake(pick) && s == pick + if isError then " error" else " answer" {
      var suffix := if isError then "error" else "answer";
      assert s == pick + [' '] + suffix;
      FirstOf(pick, ' ', suffix);
      assert s[..|pick|] == pick && s[|pick|..] == " " + suffix;
    }
  }

  /** Labels that are calls, and words in brackets that are not. */
  lemma SomeLabels()
    ensures IsCall("bash") && IsCall("run_2") && IsCall("a-b/C_d")
    ensures !IsCall("prompt") && !IsCall("text") && !IsCall("thinking") && !IsCall("compacted")
    ensures !IsCall("Out") && !IsCall("a b") && !IsCall("a/b/c") && !IsCall("_a")
  {
    assert IsSnake("bash") && IsSnake("run_2");
    AServersTool();
    APathIsNoLabel();
    var s := "Out";
    FirstNone(s, '/');
    var t := "a b";
    assert t[1] == ' ';
    FirstNone(t, '/');
    var u := "_a";
    FirstNone(u, '/');
  }

  lemma AServersTool()
    ensures IsCall("a-b/C_d")
  {
    assert IsServer("a-b") && IsTool("C_d");
    assert "a-b/C_d" == "a-b" + "/" + "C_d";
    CallLabelExactly("a-b/C_d");
    assert |"a-b/C_d"| == 7;
  }

  lemma APathIsNoLabel()
    ensures !IsCall("a/b/c")
  {
    var s := "a/b/c";
    assert s[1] == '/' && s[3] == '/';
    FirstOf("a", '/', "b/c");
    assert "a" + ['/'] + "b/c" == s;
    assert s[2..][1] == '/';
  }

  // ---- prompts -------------------------------------------------------------------------------------

  lemma PrefixRest(after: string)
    requires " [prompt] " <= after
    ensures after == " [prompt] " + after[10..]
  {
  }

  /** A text is an Agent in brackets, and then `[prompt]`. */
  ghost predicate IsPromptOf(line: string, agent: string) {
    Inner(agent) && exists rest :: line == Box(agent, " [prompt] " + rest)
  }

  lemma PromptShape(line: string, agent: string)
    ensures IsPromptOf(line, agent) <==>
              var a := Bracketed(line); a.Some? && a.value.inner == agent && " [prompt] " <= a.value.after
  {
    var a := Bracketed(line);
    if a.Some? && a.value.inner == agent && " [prompt] " <= a.value.after {
      BracketParts(line);
      PrefixRest(a.value.after);
      assert line == Box(agent, " [prompt] " + a.value.after[10..]);
    }
    if IsPromptOf(line, agent) {
      var rest :| line == Box(agent, " [prompt] " + rest);
      BracketedBox(agent, " [prompt] " + rest);
    }
  }

  /** A line is an Agent's prompt exactly when it is, without its Instance ID, the Agent in brackets and
      then `[prompt]`, each with a space after it. */
  lemma PromptAgentExactly(line: string, agent: string)
    ensures PromptAgent(line) == Some(agent) <==> IsPromptOf(WithoutIid(line), agent)
  {
    PromptShape(WithoutIid(line), agent);
  }

  /** A line opens a prompt of one of the Agents exactly when it is one of them in brackets and then
      `[prompt]`. */
  lemma OpensPromptExactly(agents: set<string>, line: string)
    ensures OpensPrompt(agents, line) <==> exists agent :: agent in agents && IsPromptOf(line, agent)
  {
    if OpensPrompt(agents, line) { PromptShape(line, Bracketed(line).value.inner); }
    forall agent | agent in agents && IsPromptOf(line, agent)
      ensures OpensPrompt(agents, line)
    {
      PromptShape(line, agent);
    }
  }

  /** Without a marker the trial starts at the first prompt. */
  lemma WithoutAMarkerTheFirstPrompt(pre: seq<string>, line: string, agent: string, rest: seq<string>)
    requires IsPromptOf(line, agent) && WithoutIid(line) == line
    requires forall k, a :: 0 <= k < |pre| ==> !IsPromptOf(pre[k], a)
    ensures TrialIn(pre + [line] + rest, None) == Some(Trial(PromptedAgents(pre + [line] + rest), rest))
  {
    var lines := pre + [line] + rest;
    var agents := PromptedAgents(lines);
    AgentIsPrompted(pre, line, agent, rest);
    NoneStartsBefore(agents, pre);
    StartsWithoutAMarker(agents, line);
    FirstIs(Starter(agents, None), pre, line, rest);
  }

  lemma AgentIsPrompted(pre: seq<string>, line: string, agent: string, rest: seq<string>)
    requires IsPromptOf(line, agent) && WithoutIid(line) == line
    ensures agent in PromptedAgents(pre + [line] + rest)
  {
    var lines := pre + [line] + rest;
    assert lines[|pre|] == line;
    PromptAgentExactly(line, agent);
  }

  lemma NoneStartsBefore(agents: set<string>, pre: seq<string>)
    requires forall k, a :: 0 <= k < |pre| ==> !IsPromptOf(pre[k], a)
    ensures forall k :: 0 <= k < |pre| ==> !Starter(agents, None)(pre[k])
  {
    forall k | 0 <= k < |pre|
      ensures !Starter(agents, None)(pre[k])
    {
      StartsWithoutAMarker(agents, pre[k]);
    }
  }

  lemma FirstIs(starts: string -> bool, pre: seq<string>, line: string, rest: seq<string>)
    requires (forall k :: 0 <= k < |pre| ==> !starts(pre[k])) && starts(line)
    ensures AfterFirst(starts, pre + [line] + rest) == Some(rest)
  {
    assert pre + [line] + rest == pre + ([line] + rest) && ([line] + rest)[1..] == rest;
    AfterFirstOf(starts, pre, [line] + rest);
  }

  lemma StartsWithoutAMarker(agents: set<string>, line: string)
    ensures Starter(agents, None)(line) <==> exists agent :: agent in agents && IsPromptOf(line, agent)
  {
    OpensPromptExactly(agents, line);
  }

  /** A restated Turn part is a prompt that opens with its tag, and nothing else is. */
  lemma RestatementExactly(s: Said)
    ensures IsRestatement(s) <==> exists rest :: s == Prompt("<jr2-turn>" + rest)
  {
    if IsRestatement(s) {
      assert s.prompt == "<jr2-turn>" + s.prompt[10..];
    }
  }
}
