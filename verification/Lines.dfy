/**
 * One printed line of a conversation (features/lib/model-said.ts). The regular expressions of the
 * source are written out here as what they accept and capture.
 */
module Lines {
  import opened Wrappers
  import opened Text

  /** The characters `.` does not match. */
  predicate EndsLine(c: char) { c == '\n' || c == '\r' || c == '\U{2028}' || c == '\U{2029}' }

  predicate OneLine(s: string) {
    forall i :: 0 <= i < |s| ==> !EndsLine(s[i])
  }

  /** The characters `\s` matches. */
  predicate IsSpace(c: char) {
    || '\t' <= c <= '\r' || c == ' ' || c == '\U{a0}' || c == '\U{1680}' || '\U{2000}' <= c <= '\U{200a}'
    || c == '\U{2028}' || c == '\U{2029}' || c == '\U{202f}' || c == '\U{205f}' || c == '\U{3000}' || c == '\U{feff}'
  }

  predicate IsLower(c: char) { 'a' <= c <= 'z' }

  predicate IsDigit(c: char) { '0' <= c <= '9' }

  // ---- brackets ----------------------------------------------------------------------------------

  datatype Bracket = Bracket(inner: string, after: string)

  /** `\[([^\]]+)\]` at the start: what is inside, up to the first `]`, and what follows. */
  function Bracketed(s: string): Option<Bracket> {
    if s == "" || s[0] != '[' then None
    else
      var k := First(s[1..], ']');
      if k == 0 || k == |s| - 1 then None else Some(Bracket(s[1..][..k], s[k + 2..]))
  }

  /** A text that can stand inside brackets. */
  predicate Inner(s: string) { s != "" && Free(s, ']') }

  /** A text in brackets, and what follows. */
  function Box(inner: string, after: string): string { "[" + inner + "]" + after }

  lemma BracketedBox(inner: string, after: string)
    requires Inner(inner)
    ensures Bracketed(Box(inner, after)) == Some(Bracket(inner, after))
  {
    var s := Box(inner, after);
    assert s[1..] == inner + [']'] + after;
    FirstOf(inner, ']', after);
    assert s[1..][..|inner|] == inner && s[|inner| + 2..] == after;
  }

  /** ` ?` and then the rest. */
  function AfterSpace(s: string): string {
    if s != "" && s[0] == ' ' then s[1..] else s
  }

  /** What follows a bracket on one line is on one line. */
  lemma OneLineAfter(text: string)
    requires OneLine(text) && Bracketed(text).Some?
    ensures OneLine(AfterSpace(Bracketed(text).value.after)) && |Bracketed(text).value.after| < |text|
  {
  }

  // ---- the time stamp of `kubectl logs --timestamps` -----------------------------------------------

  predicate DigitsAt(s: string, i: nat, n: nat) {
    i + n <= |s| && forall k :: i <= k < i + n ==> IsDigit(s[k])
  }

  predicate InTime(c: char) { IsDigit(c) || c == ':' || c == '.' }

  /** The end of the run of clock characters from `i` on. */
  function TimeEnd(s: string, i: nat): (k: nat)
    requires i <= |s|
    ensures i <= k <= |s| && (k < |s| ==> !InTime(s[k])) && forall j :: i <= j < k ==> InTime(s[j])
    decreases |s| - i
  {
    if i < |s| && InTime(s[i]) then TimeEnd(s, i + 1) else i
  }

  /** The length of the zone at `k`: `Z`, or an offset. */
  function ZoneLength(s: string, k: nat): nat {
    if k < |s| && s[k] == 'Z' then 1
    else if k + 6 <= |s| && (s[k] == '+' || s[k] == '-') && DigitsAt(s, k + 1, 2) && s[k + 3] == ':'
            && DigitsAt(s, k + 4, 2) then 6
    else 0
  }

  /** The length of the RFC 3339 stamp a line starts with, with the space after it; 0 without one. */
  function StampLength(s: string): (n: nat)
    ensures n <= |s|
  {
    if DigitsAt(s, 0, 4) && 11 < |s| && s[4] == '-' && DigitsAt(s, 5, 2) && s[7] == '-' && DigitsAt(s, 8, 2)
       && s[10] == 'T'
    then
      var k := TimeEnd(s, 11);
      var z := ZoneLength(s, k);
      if k > 11 && z > 0 && k + z < |s| && s[k + z] == ' ' then k + z + 1 else 0
    else 0
  }

  function Untimed(line: string): string { line[StampLength(line)..] }

  /** What a stamp is, by its characters: `dddd-dd-dd`, `T`, digits, `:` and `.`, a zone, and a space. */
  predicate IsDate(s: string) {
    |s| == 10 && forall k :: 0 <= k < 10 ==> if k == 4 || k == 7 then s[k] == '-' else '0' <= s[k] <= '9'
  }

  predicate IsClock(s: string) {
    s != "" && forall k :: 0 <= k < |s| ==> '0' <= s[k] <= '9' || s[k] == ':' || s[k] == '.'
  }

  predicate IsZone(s: string) {
    || s == "Z"
    || (&& |s| == 6 && (s[0] == '+' || s[0] == '-') && s[3] == ':'
        && forall k :: 0 <= k < 6 && k != 0 && k != 3 ==> '0' <= s[k] <= '9')
  }

  function StampOf(date: string, clock: string, zone: string): string { date + "T" + clock + zone + " " }

  ghost predicate IsStamp(stamp: string) {
    exists date, clock, zone :: IsDate(date) && IsClock(clock) && IsZone(zone) && stamp == StampOf(date, clock, zone)
  }

  /** A line as the log keeps it: with or without a stamp. */
  ghost predicate IsStamped(raw: string, line: string) {
    raw == line || exists stamp :: IsStamp(stamp) && raw == stamp + line
  }

  lemma TimeEndIs(s: string, i: nat, k: nat)
    requires i <= k < |s| && !InTime(s[k]) && forall j :: i <= j < k ==> InTime(s[j])
    ensures TimeEnd(s, i) == k
  {
  }

  lemma StampParts(date: string, clock: string, zone: string, line: string)
    requires IsDate(date) && IsClock(clock) && IsZone(zone)
    ensures var s, k := StampOf(date, clock, zone) + line, 11 + |clock|;
            && |s| == k + |zone| + 1 + |line| && s[10] == 'T' && s[k + |zone|] == ' '
            && (forall j :: 0 <= j < 10 ==> s[j] == date[j])
            && (forall j :: 11 <= j < k ==> s[j] == clock[j - 11])
            && (forall j :: k <= j < k + |zone| ==> s[j] == zone[j - k])
            && s[k + |zone| + 1..] == line
  {
  }

  lemma ZoneLengthIs(s: string, k: nat, zone: string)
    requires IsZone(zone) && k + |zone| <= |s| && forall j :: k <= j < k + |zone| ==> s[j] == zone[j - k]
    ensures ZoneLength(s, k) == |zone| && !InTime(s[k])
  {
    assert s[k] == zone[0];
    if |zone| == 6 {
      assert s[k + 1] == zone[1] && s[k + 2] == zone[2] && s[k + 3] == zone[3];
      assert s[k + 4] == zone[4] && s[k + 5] == zone[5];
    }
  }

  /** A stamp before any line is taken off, whatever the line. */
  lemma UntimedParts(date: string, clock: string, zone: string, line: string)
    requires IsDate(date) && IsClock(clock) && IsZone(zone)
    ensures Untimed(StampOf(date, clock, zone) + line) == line
  {
    var s, k := StampOf(date, clock, zone) + line, 11 + |clock|;
    StampParts(date, clock, zone, line);
    ZoneLengthIs(s, k, zone);
    assert forall j :: 11 <= j < k ==> InTime(s[j]) by {
      assert forall j :: 11 <= j < k ==> s[j] == clock[j - 11];
    }
    TimeEndIs(s, 11, k);
    assert forall j :: 0 <= j < 10 ==> s[j] == date[j];
    assert DigitsAt(s, 0, 4) && DigitsAt(s, 5, 2) && DigitsAt(s, 8, 2);
  }

  lemma UntimedStamp(stamp: string, line: string)
    requires IsStamp(stamp)
    ensures Untimed(stamp + line) == line
  {
    var date, clock, zone :| IsDate(date) && IsClock(clock) && IsZone(zone) && stamp == StampOf(date, clock, zone);
    UntimedParts(date, clock, zone, line);
  }

  /** And nothing else is: a line that is changed began with a stamp. */
  lemma OnlyStampsAreTaken(line: string)
    ensures IsStamped(line, Untimed(line))
  {
    if StampLength(line) > 0 {
      var k := TimeEnd(line, 11);
      var z := ZoneLength(line, k);
      var date, clock, zone := line[..10], line[11..k], line[k..k + z];
      assert IsClock(clock) by { assert forall j :: 0 <= j < |clock| ==> clock[j] == line[j + 11]; }
      ZoneIs(line, k);
      DateIs(line);
      assert line == StampOf(date, clock, zone) + Untimed(line);
      assert IsStamp(StampOf(date, clock, zone));
    } else {
      assert line[0..] == line;
    }
  }

  lemma ZoneIs(s: string, k: nat)
    requires ZoneLength(s, k) > 0 && k + ZoneLength(s, k) <= |s|
    ensures IsZone(s[k..k + ZoneLength(s, k)])
  {
    var z := s[k..k + ZoneLength(s, k)];
    assert forall j :: 0 <= j < |z| ==> z[j] == s[k + j];
    if |z| == 1 { assert z == "Z"; }
  }

  lemma DateIs(s: string)
    requires StampLength(s) > 0
    ensures IsDate(s[..10]) && s[10] == 'T'
  {
    var d := s[..10];
    assert forall j :: 0 <= j < 10 ==> d[j] == s[j];
  }

  /** So a line that begins no stamp comes back, stamped or not. */
  lemma UntimedStamped(raw: string, line: string)
    requires IsStamped(raw, line) && (line == "" || !IsDigit(line[0]))
    ensures Untimed(raw) == line
  {
    if raw == line {
      UntimedPlain(line);
    } else {
      var stamp :| IsStamp(stamp) && raw == stamp + line;
      UntimedStamp(stamp, line);
    }
  }

  lemma UntimedPlain(line: string)
    requires line == "" || !IsDigit(line[0])
    ensures Untimed(line) == line
  {
    assert StampLength(line) == 0;
  }

  // ---- the Agent and the Instance ID ---------------------------------------------------------------

  datatype Printed = Printed(agent: string, iid: string, rest: string)

  function Slashes(s: string): nat {
    if s == "" then 0 else Slashes(s[1..]) + (if s[0] == '/' then 1 else 0)
  }

  /** An Instance ID: no space, and two slashes or more. */
  predicate IsIid(s: string) {
    (forall i :: 0 <= i < |s| ==> !IsSpace(s[i])) && Slashes(s) >= 2
  }

  function PrintedLine(line: string): Option<Printed> {
    var a := Bracketed(line);
    if a.None? || a.value.after == "" || a.value.after[0] != ' ' then None
    else
      var b := Bracketed(a.value.after[1..]);
      if b.None? || !IsIid(b.value.inner) || !OneLine(AfterSpace(b.value.after)) then None
      else Some(Printed(a.value.inner, b.value.inner, AfterSpace(b.value.after)))
  }

  function WithoutIid(line: string): string {
    var p := PrintedLine(line);
    if p.None? then line else Box(p.value.agent, " " + p.value.rest)
  }

  lemma PromptIsNoIid()
    ensures !IsIid("prompt")
  {
    var s := "prompt";
    assert s[1..] == "rompt" && s[1..][1..] == "ompt" && s[1..][1..][1..] == "mpt";
    assert "mpt"[1..] == "pt" && "pt"[1..] == "t" && "t"[1..] == "";
    assert Slashes("mpt") == 0;
    assert Slashes("ompt") == 0;
  }

  /** The printer's line: the Agent, the Instance ID, and one line of a body
      (packages/harness/src/printer.ts, printLines). */
  function PrintLine(agent: string, iid: string, text: string): string {
    Box(agent, " " + Box(iid, " " + text))
  }

  /** A printed line is read exactly when its text holds no line end: `printLines` cuts a body at `\n`
      only, and `.` matches none of the four. Another one is taken as it is. */
  lemma ReadPrinted(agent: string, iid: string, text: string)
    requires Inner(agent) && Inner(iid) && IsIid(iid)
    ensures PrintedLine(PrintLine(agent, iid, text)) ==
            if OneLine(text) then Some(Printed(agent, iid, text)) else None
    ensures WithoutIid(PrintLine(agent, iid, text)) ==
            if OneLine(text) then Box(agent, " " + text) else PrintLine(agent, iid, text)
  {
    var after := " " + Box(iid, " " + text);
    BracketedBox(agent, after);
    assert after[1..] == Box(iid, " " + text);
    BracketedBox(iid, " " + text);
    assert AfterSpace(" " + text) == text;
  }

  // ---- the label ---------------------------------------------------------------------------------

  /** A line of an Agent as the readings match it: its label, if it opens with one, and its body. */
  datatype Line = Line(agent: string, tag: Option<string>, body: string)

  /** `^\[(<agents>)\] (?:\[([^\]]+)\] ?)?(.*)$` */
  function Parse(agents: set<string>, text: string): Option<Line> {
    var a := Bracketed(text);
    if a.None? || a.value.inner !in agents || a.value.after == "" || a.value.after[0] != ' ' then None
    else
      var rest := a.value.after[1..];
      var b := Bracketed(rest);
      if b.None? then (if OneLine(rest) then Some(Line(a.value.inner, None, rest)) else None)
      else if OneLine(AfterSpace(b.value.after))
      then Some(Line(a.value.inner, Some(b.value.inner), AfterSpace(b.value.after)))
      else None
  }

  lemma ParseLabelled(agents: set<string>, agent: string, tag: string, body: string)
    requires agent in agents && Inner(agent) && Inner(tag) && OneLine(body)
    ensures Parse(agents, Box(agent, " " + Box(tag, " " + body))) == Some(Line(agent, Some(tag), body))
  {
    var after := " " + Box(tag, " " + body);
    BracketedBox(agent, after);
    assert after[1..] == Box(tag, " " + body);
    BracketedBox(tag, " " + body);
    assert AfterSpace(" " + body) == body;
  }

  lemma ParseUnlabelled(agents: set<string>, agent: string, body: string)
    requires agent in agents && Inner(agent) && OneLine(body) && Bracketed(body).None?
    ensures Parse(agents, Box(agent, " " + body)) == Some(Line(agent, None, body))
  {
    BracketedBox(agent, " " + body);
    assert (" " + body)[1..] == body;
  }

  /** A text that opens with a bracket is that bracket and what follows. */
  lemma BracketParts(s: string)
    requires Bracketed(s).Some?
    ensures var b := Bracketed(s).value; s == Box(b.inner, b.after) && Inner(b.inner)
  {
  }

  lemma ParseBracketed(agents: set<string>, agent: string, body: string)
    requires agent in agents && Inner(agent) && OneLine(body) && Bracketed(body).Some?
    ensures var b := Bracketed(body).value;
            OneLine(AfterSpace(b.after))
            && Parse(agents, Box(agent, " " + body)) == Some(Line(agent, Some(b.inner), AfterSpace(b.after)))
  {
    OneLineAfter(body);
    BracketedBox(agent, " " + body);
    assert (" " + body)[1..] == body;
  }

  /** A printed line whose text holds a line end is no line of an Agent. */
  lemma ParseBroken(agents: set<string>, agent: string, iid: string, text: string)
    requires Inner(agent) && Inner(iid) && !OneLine(text)
    ensures Parse(agents, PrintLine(agent, iid, text)).None?
  {
    var after := " " + Box(iid, " " + text);
    BracketedBox(agent, after);
    assert after[1..] == Box(iid, " " + text);
    BracketedBox(iid, " " + text);
    assert AfterSpace(" " + text) == text;
  }

  const NOT_A_CALL := {"prompt", "text", "thinking", "compacted"}

  predicate IsSnake(s: string) {
    s != "" && IsLower(s[0])
    && forall i :: 0 <= i < |s| ==> IsLower(s[i]) || IsDigit(s[i]) || s[i] == '_'
  }

  predicate IsServer(s: string) {
    s != "" && IsLower(s[0])
    && forall i :: 0 <= i < |s| ==> IsLower(s[i]) || IsDigit(s[i]) || s[i] == '-'
  }

  predicate IsTool(s: string) {
    s != "" && forall i :: 0 <= i < |s| ==>
                 IsLower(s[i]) || 'A' <= s[i] <= 'Z' || IsDigit(s[i]) || s[i] == '_' || s[i] == '-'
  }

  /** A printed call's label: a bare tool name, or `<server>/<tool>`. */
  predicate IsCallLabel(s: string) {
    IsSnake(s) || (var k := First(s, '/'); k < |s| && IsServer(s[..k]) && IsTool(s[k + 1..]))
  }

  predicate IsCall(tag: string) { tag !in NOT_A_CALL && IsCallLabel(tag) }

  /** `^([a-z][a-z0-9_]*) (answer|error)$`: the pick, and whether it is an error. */
  function AnswerLabel(s: string): Option<(string, bool)> {
    var k := First(s, ' ');
    if IsSnake(s[..k]) && s[k..] == " answer" then Some((s[..k], false))
    else if IsSnake(s[..k]) && s[k..] == " error" then Some((s[..k], true))
    else None
  }

  lemma CallLabelHasNoSpace(s: string)
    requires IsCallLabel(s)
    ensures Free(s, ' ')
  {
    if !IsSnake(s) {
      var k := First(s, '/');
      forall i | 0 <= i < |s|
        ensures s[i] != ' '
      {
        if i < k {
          assert s[..k][i] == s[i];
        } else if i > k {
          assert s[k + 1..][i - k - 1] == s[i];
        }
      }
    }
  }

  lemma SpeechHasNoSpace(s: string)
    requires s in NOT_A_CALL
    ensures Free(s, ' ')
  {
    assert s == "prompt" || s == "text" || s == "thinking" || s == "compacted";
  }

  /** An answer's label holds a space, and a call's holds none. */
  lemma AnswerIsNoCall(s: string)
    requires AnswerLabel(s).Some?
    ensures !IsCallLabel(s) && s !in NOT_A_CALL
  {
    var k := First(s, ' ');
    assert k < |s| && s[k] == ' ';
    if IsCallLabel(s) { CallLabelHasNoSpace(s); }
    if s in NOT_A_CALL { SpeechHasNoSpace(s); }
  }

  /** A prompt's body that opens with a bracketed word: another trial's Frame. */
  predicate IsFrame(body: string) { Bracketed(body).Some? }

  /** `^\[(<agents>)\] \[prompt\] ` at the start of a line. */
  predicate OpensPrompt(agents: set<string>, text: string) {
    var a := Bracketed(text);
    a.Some? && a.value.inner in agents && " [prompt] " <= a.value.after
  }
}
