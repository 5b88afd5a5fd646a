/** `harness-history.txt` (features/lib/model-evidence.ts: viewSettled, historyFile): each conversation's
    last view, and after it each settlement of its stream that the view does not hold. */
module History {
  import opened Wrappers
  import opened Flat
  import opened T = Text
  import opened Settlements

  function Unavailable(why: string): string { "<unavailable: " + why + ">\n" }

  const NO_VIEW := "no history view was read"
  const PAST := "settled on the stream, not in the view above:"

  function Get<V>(m: Ordered<V>, key: string): (v: Option<V>)
    ensures v.Some? <==> Has(m, key)
    ensures v.Some? ==> exists i :: 0 <= i < |m| && m[i] == (key, v.value)
  {
    if m == [] then None
    else if m[0].0 == key then assert m[0] == (key, m[0].1); Some(m[0].1)
    else
      var v := Get(m[1..], key);
      assert forall i :: 0 <= i < |m| - 1 ==> m[1..][i] == m[i + 1];
      v
  }

  /** The view is a 200 and holds a settlement of this Submission. */
  predicate Holds(parse: Parser, view: Option<string>, id: string) {
    && view.Some? && ViewSettlements(parse, view.value).Some?
    && exists h :: h in ViewSettlements(parse, view.value).value && h.id.text == id
  }

  /** The settlements of a stream that are not held. */
  function Past(held: string -> bool, stream: seq<Seen>): seq<Seen> {
    if stream == [] then []
    else
      var n := |stream| - 1;
      Past(held, stream[..n]) + if held(stream[n].id) then [] else [stream[n]]
  }

  /** One conversation's part of the file. */
  datatype Part = Part(iid: string, view: Option<string>, past: seq<Seen>)

  function StreamOf(settled: Ordered<seq<Seen>>, iid: string): seq<Seen> {
    var list := Get(settled, iid);
    if list.Some? then list.value else []
  }

  function PartOf(parse: Parser, views: Ordered<string>, settled: Ordered<seq<Seen>>, iid: string): Part {
    var view := Get(views, iid);
    Part(iid, view, Past(id => Holds(parse, view, id), StreamOf(settled, iid)))
  }

  predicate IsEmpty(p: Part) { p.view.None? && p.past == [] }

  function EndLine(text: string): string {
    if text == "" || text[|text| - 1] != '\n' then text + "\n" else text
  }

  /** The conversation, and its view whole. */
  function Head(p: Part): string {
    "--- " + p.iid + " ---\n" + if p.view.Some? then p.view.value else Unavailable(NO_VIEW)
  }

  /** A part as it is written. `show` is a settlement's JSON. */
  function Write(show: Seen -> string, p: Part): string {
    if p.past == [] then Head(p) else EndLine(Head(p)) + PAST + "\n" + Flatten(s => show(s) + "\n", p.past)
  }

  /** The keys of both maps, each once, the first's first. */
  function Union(a: seq<string>, b: seq<string>): seq<string> {
    if b == [] then a
    else
      var u := Union(a, b[..|b| - 1]);
      if b[|b| - 1] in u then u else u + [b[|b| - 1]]
  }

  function Keys<V>(m: Ordered<V>): seq<string> { Map((e: (string, V)) => e.0, m) }

  function Conversations(views: Ordered<string>, settled: Ordered<seq<Seen>>): seq<string> {
    Union(Keys(views), Keys(settled))
  }

  function PartsOf(partOf: string -> Part, iids: seq<string>): seq<Part> {
    if iids == [] then []
    else
      var n := |iids| - 1;
      var p := partOf(iids[n]);
      PartsOf(partOf, iids[..n]) + if IsEmpty(p) then [] else [p]
  }

  function Parts(parse: Parser, views: Ordered<string>, settled: Ordered<seq<Seen>>): seq<Part> {
    PartsOf(iid => PartOf(parse, views, settled, iid), Conversations(views, settled))
  }

  function Text(show: Seen -> string, parts: seq<Part>, why: string): string {
    if parts == [] then Unavailable(why) else Flatten(p => Write(show, p), parts)
  }

  /** The parts, written one after the other. */
  method WriteParts(partOf: string -> Part, write: Part -> string, iids: seq<string>) returns (text: string, any: bool)
    ensures text == Flatten(write, PartsOf(partOf, iids)) && (any <==> PartsOf(partOf, iids) != [])
  {
    text, any := "", false;
    for i := 0 to |iids|
      invariant text == Flatten(write, PartsOf(partOf, iids[..i])) && (any <==> PartsOf(partOf, iids[..i]) != [])
    {
      ghost var parts := PartsOf(partOf, iids[..i]);
      assert iids[..i + 1][..i] == iids[..i];
      var part := partOf(iids[i]);
      assert (parts + [part])[..|parts|] == parts;
      assert PartsOf(partOf, iids[..i + 1]) == if IsEmpty(part) then parts else parts + [part];
      if !IsEmpty(part) {
        text, any := text + write(part), true;
      }
    }
    assert iids[..|iids|] == iids;
  }

  /** `historyFile`. */
  method HistoryFile(parse: Parser, show: Seen -> string, views: Ordered<string>,
                     settled: Ordered<seq<Seen>>, why: string) returns (text: string)
    ensures text == Text(show, Parts(parse, views, settled), why)
  {
    var any;
    var iids := Conversations(views, settled);
    text, any := WriteParts(iid => PartOf(parse, views, settled, iid), p => Write(show, p), iids);
    if !any { text := Unavailable(why); }
  }

  // ---- nothing is lost, nothing is said twice ------------------------------------------------------

  /** `past` is the settlements of a stream that are not held, each as often and in the order that the
      stream carries them: the `k`th is the one at `at[k]`. */
  ghost predicate IsPast(held: string -> bool, stream: seq<Seen>, at: seq<nat>, past: seq<Seen>) {
    && |at| == |past|
    && (forall k :: 0 <= k < |at| ==> at[k] < |stream| && past[k] == stream[at[k]])
    && (forall k, l :: 0 <= k < l < |at| ==> at[k] < at[l])
    && forall i: nat :: i < |stream| ==> (i in at <==> !held(stream[i].id))
  }

  ghost predicate IsRest(held: string -> bool, stream: seq<Seen>, past: seq<Seen>) {
    exists at: seq<nat> :: IsPast(held, stream, at, past)
  }

  lemma PastMore(held: string -> bool, stream: seq<Seen>, at: seq<nat>, past: seq<Seen>, s: Seen)
    requires IsPast(held, stream, at, past)
    ensures held(s.id) ==> IsPast(held, stream + [s], at, past)
    ensures !held(s.id) ==> IsPast(held, stream + [s], at + [|stream|], past + [s])
  {
    var all, at' := stream + [s], if held(s.id) then at else at + [|stream|];
    forall i: nat | i < |all|
      ensures i in at' <==> !held(all[i].id)
    {
      if i < |stream| { assert all[i] == stream[i] && (i in at' <==> i in at); }
    }
  }

  lemma {:induction false} PastIsWhatIsNotHeld(held: string -> bool, stream: seq<Seen>) returns (at: seq<nat>)
    ensures IsPast(held, stream, at, Past(held, stream))
    decreases |stream|
  {
    if stream == [] {
      at := [];
    } else {
      var n := |stream| - 1;
      at := PastIsWhatIsNotHeld(held, stream[..n]);
      PastMore(held, stream[..n], at, Past(held, stream[..n]), stream[n]);
      assert stream[..n] + [stream[n]] == stream;
      if !held(stream[n].id) { at := at + [n]; }
    }
  }

  ghost predicate Distinct(xs: seq<string>) {
    forall i, j :: 0 <= i < j < |xs| ==> xs[i] != xs[j]
  }

  lemma {:induction false} UnionHasEach(a: seq<string>, b: seq<string>)
    requires Distinct(a)
    ensures Distinct(Union(a, b)) && a <= Union(a, b) && forall x :: x in Union(a, b) <==> x in a || x in b
    decreases |b|
  {
    if b != [] {
      var n := |b| - 1;
      UnionHasEach(a, b[..n]);
      assert b == b[..n] + [b[n]];
    }
  }

  lemma KeysAre<V>(m: Ordered<V>)
    ensures forall key :: key in Keys(m) <==> Has(m, key)
    ensures IsMap(m) ==> Distinct(Keys(m))
  {
    forall i | 0 <= i < |m|
      ensures Keys(m)[i] == m[i].0
    {
      MapAt((e: (string, V)) => e.0, m, i);
    }
  }

  ghost predicate PartsAre(partOf: string -> Part, iids: seq<string>, parts: seq<Part>) {
    && (forall i :: 0 <= i < |parts| ==> parts[i].iid in iids && !IsEmpty(parts[i]) && parts[i] == partOf(parts[i].iid))
    && (forall i, j :: 0 <= i < j < |parts| ==> parts[i].iid != parts[j].iid)
    && forall iid :: iid in iids && !IsEmpty(partOf(iid)) ==> partOf(iid) in parts
  }

  /** One part of each conversation that has something to show. */
  lemma {:induction false} PartsAreOfEach(partOf: string -> Part, iids: seq<string>)
    requires Distinct(iids) && forall iid :: partOf(iid).iid == iid
    ensures PartsAre(partOf, iids, PartsOf(partOf, iids))
    decreases |iids|
  {
    if iids != [] {
      var n := |iids| - 1;
      PartsAreOfEach(partOf, iids[..n]);
      assert iids == iids[..n] + [iids[n]];
    }
  }

  /** What the file says of one conversation: its view, whole, and after it each settlement of its
      stream that the view does not hold, in order, and no other. */
  ghost predicate IsPartOf(parse: Parser, views: Ordered<string>, settled: Ordered<seq<Seen>>, p: Part) {
    && p.view == Get(views, p.iid)
    && IsRest(id => Holds(parse, p.view, id), StreamOf(settled, p.iid), p.past)
  }

  /** A conversation with something to show: a view, or a settlement. */
  predicate HasEvidence(views: Ordered<string>, settled: Ordered<seq<Seen>>, iid: string) {
    Has(views, iid) || StreamOf(settled, iid) != []
  }

  lemma PartIsRight(parse: Parser, views: Ordered<string>, settled: Ordered<seq<Seen>>, iid: string)
    ensures IsPartOf(parse, views, settled, PartOf(parse, views, settled, iid))
    ensures IsEmpty(PartOf(parse, views, settled, iid)) <==> !HasEvidence(views, settled, iid)
  {
    var p := PartOf(parse, views, settled, iid);
    var stream := StreamOf(settled, iid);
    var at := PastIsWhatIsNotHeld(id => Holds(parse, p.view, id), stream);
    if p.view.None? && stream != [] {
      assert !Holds(parse, p.view, stream[0].id);
      assert 0 in at;
    }
  }

  /** The file holds exactly one part of each conversation that has something to show, and the part says
      what was kept of it. */
  lemma HistoryConserves(parse: Parser, views: Ordered<string>, settled: Ordered<seq<Seen>>)
    requires IsMap(views) && IsMap(settled)
    ensures var parts := Parts(parse, views, settled);
            && (forall p :: p in parts ==> IsPartOf(parse, views, settled, p))
            && (forall i, j :: 0 <= i < j < |parts| ==> parts[i].iid != parts[j].iid)
            && forall iid :: HasEvidence(views, settled, iid) <==> exists p :: p in parts && p.iid == iid
  {
    var partOf := iid => PartOf(parse, views, settled, iid);
    var iids, parts := Conversations(views, settled), Parts(parse, views, settled);
    KeysAre(views);
    KeysAre(settled);
    UnionHasEach(Keys(views), Keys(settled));
    PartsAreOfEach(partOf, iids);
    forall p | p in parts
      ensures IsPartOf(parse, views, settled, p) && HasEvidence(views, settled, p.iid)
    {
      PartIsRight(parse, views, settled, p.iid);
    }
    forall iid | HasEvidence(views, settled, iid)
      ensures partOf(iid) in parts
    {
      PartIsRight(parse, views, settled, iid);
      assert iid in iids;
    }
  }

  /** The file says that it is unavailable exactly when no conversation has anything to show. */
  lemma UnavailableExactly(parse: Parser, show: Seen -> string, views: Ordered<string>,
                           settled: Ordered<seq<Seen>>, why: string)
    requires IsMap(views) && IsMap(settled)
    ensures Text(show, Parts(parse, views, settled), why) == "<unavailable: " + why + ">\n"
            <==> forall iid :: !HasEvidence(views, settled, iid)
  {
    HistoryConserves(parse, views, settled);
    var parts := Parts(parse, views, settled);
    if parts != [] {
      assert HasEvidence(views, settled, parts[0].iid);
      WrittenFirst(show, parts);
    }
  }

  lemma {:induction false} FlattenFirst<A, B>(f: A -> seq<B>, xs: seq<A>)
    requires xs != [] && f(xs[0]) != []
    ensures Flatten(f, xs) != [] && Flatten(f, xs)[0] == f(xs[0])[0]
    decreases |xs|
  {
    if |xs| == 1 {
      assert xs[..0] == [];
    } else {
      FlattenFirst(f, xs[..|xs| - 1]);
    }
  }

  lemma WrittenFirst(show: Seen -> string, parts: seq<Part>)
    requires parts != []
    ensures Flatten(p => Write(show, p), parts) != "" && Flatten(p => Write(show, p), parts)[0] == '-'
  {
    var write := p => Write(show, p);
    assert write(parts[0])[0] == '-';
    FlattenFirst(write, parts);
  }

  // ---- the lines of a part -------------------------------------------------------------------------

  lemma {:induction false} LinesJoin(line: Seen -> string, show: Seen -> string, past: seq<Seen>)
    requires forall s :: line(s) == show(s) + "\n"
    ensures Flatten(line, past) == Join(Map(show, past) + [""], '\n')
    decreases |past|
  {
    if past != [] {
      FlattenCons(line, past[0], past[1..]);
      assert [past[0]] + past[1..] == past;
      LinesJoin(line, show, past[1..]);
      var pieces := Map(show, past) + [""];
      assert pieces[0] == show(past[0]) && pieces[1..] == Map(show, past[1..]) + [""];
    }
  }

  /** A text of four runs of lines. */
  lemma LinesOf(head: string, title: string, rest: seq<string>)
    requires Free(title, '\n') && rest != [] && forall i :: 0 <= i < |rest| ==> Free(rest[i], '\n')
    ensures Split(head + "\n" + title + "\n" + Join(rest, '\n'), '\n') == Split(head, '\n') + [title] + rest
  {
    var before := Split(head, '\n');
    JoinSplit(head, '\n');
    JoinConcat(before, [title], '\n');
    JoinConcat(before + [title], rest, '\n');
    SplitJoin(before + [title] + rest, '\n');
    assert Join([title], '\n') == title;
  }

  /** What a part with settlements past its view says, line by line: what comes before, then the title,
      and then one line for each settlement, in order. */
  lemma PartSaysItsPast(show: Seen -> string, p: Part) returns (before: seq<string>)
    requires p.past != [] && forall s :: Free(show(s), '\n')
    ensures Split(Write(show, p), '\n') == before + [PAST] + (Map(show, p.past) + [""])
    ensures Head(p) <= Join(before, '\n') + "\n" && |Join(before, '\n')| <= |Head(p)|
  {
    var line := s => show(s) + "\n";
    var all, n := EndLine(Head(p)), |EndLine(Head(p))| - 1;
    var head := all[..n];
    assert all == head + "\n";
    LinesJoin(line, show, p.past);
    var rest := Map(show, p.past) + [""];
    forall i | 0 <= i < |rest|
      ensures Free(rest[i], '\n')
    {
      if i < |p.past| { MapAt(show, p.past, i); }
    }
    TitleIsOneLine();
    LinesOf(head, PAST, rest);
    before := Split(head, '\n');
    JoinSplit(head, '\n');
  }

  lemma TitleIsOneLine()
    ensures Free(PAST, '\n')
  {
    var a, b, c, d := "settled on ", "the stream, ", "not in the ", "view above:";
    assert Free(a, '\n');
    assert Free(b, '\n');
    assert Free(c, '\n');
    assert Free(d, '\n');
    FreeConcat(a, b, '\n');
    FreeConcat(a + b, c, '\n');
    FreeConcat(a + b + c, d, '\n');
    assert PAST == a + b + c + d;
  }

  // ---- a part says what was kept -------------------------------------------------------------------

  /** A part opens with its conversation and then the view's own text, or says that none was read. */
  lemma PartHoldsItsView(show: Seen -> string, p: Part)
    ensures p.view.Some? ==> "--- " + p.iid + " ---\n" + p.view.value <= Write(show, p)
    ensures p.view.None? ==>
              "--- " + p.iid + " ---\n" + ("<unavailable: " + "no history view was read" + ">\n") <= Write(show, p)
    ensures p.view.Some? && p.past == [] ==> Write(show, p) == "--- " + p.iid + " ---\n" + p.view.value
  {
    HeadIsFirst(EndLine(Head(p)), PAST, "\n", Flatten(s => show(s) + "\n", p.past));
  }

  lemma HeadIsFirst(a: string, b: string, c: string, d: string)
    ensures a <= a + b + c + d
  {
  }

  /** The parts are in the order of the conversations: those with a view first, and then the others. */
  lemma {:induction false} PartsAreInOrder(partOf: string -> Part, iids: seq<string>) returns (at: seq<nat>)
    requires forall iid :: partOf(iid).iid == iid
    ensures var parts := PartsOf(partOf, iids);
            && |at| == |parts|
            && (forall k :: 0 <= k < |at| ==> at[k] < |iids| && parts[k].iid == iids[at[k]])
            && forall k, l :: 0 <= k < l < |at| ==> at[k] < at[l]
    decreases |iids|
  {
    if iids == [] {
      at := [];
    } else {
      var n := |iids| - 1;
      at := PartsAreInOrder(partOf, iids[..n]);
      if !IsEmpty(partOf(iids[n])) { at := at + [n]; }
    }
  }

  /** The stream of a conversation is the one that was kept for it. */
  lemma {:induction false} StreamIsKept(settled: Ordered<seq<Seen>>, i: nat)
    requires IsMap(settled) && i < |settled|
    ensures StreamOf(settled, settled[i].0) == settled[i].1
  {
    if i > 0 {
      assert settled[0].0 != settled[i].0 && settled[1..][i - 1] == settled[i];
      StreamIsKept(settled[1..], i - 1);
    }
  }

  /** A settlement is listed after a view that is a 200 exactly when the view's body does not hold one of
      its Submission. */
  lemma ListedExactly(parse: Parser, views: Ordered<string>, settled: Ordered<seq<Seen>>, iid: string, when: string,
                      body: string, s: Seen)
    requires Free(when, '\n') && Get(views, iid) == Some("read at " + when + "\nHTTP 200\n" + body)
    requires s in StreamOf(settled, iid)
    ensures s in PartOf(parse, views, settled, iid).past <==>
              !(parse(body).Some? && exists h :: h in parse(body).value && h.id.text == s.id)
  {
    AViewIsRead(parse, when, body);
    var view := Get(views, iid);
    PastHas(id => Holds(parse, view, id), StreamOf(settled, iid), s);
  }

  /** And after any other text it is listed. */
  lemma ListedAfterAnotherText(parse: Parser, views: Ordered<string>, settled: Ordered<seq<Seen>>, iid: string, s: Seen)
    requires s in StreamOf(settled, iid)
    requires Get(views, iid).Some? ==> forall when, body :: Free(when, '\n') ==>
               Get(views, iid).value != "read at " + when + "\nHTTP 200\n" + body
    ensures s in PartOf(parse, views, settled, iid).past
  {
    var view := Get(views, iid);
    if view.Some? && ViewSettlements(parse, view.value).Some? { OnlyA200IsRead(parse, view.value); }
    PastHas(id => Holds(parse, view, id), StreamOf(settled, iid), s);
  }

  lemma {:induction false} PastHas(held: string -> bool, stream: seq<Seen>, s: Seen)
    requires s in stream
    ensures s in Past(held, stream) <==> !held(s.id)
    decreases |stream|
  {
    var n := |stream| - 1;
    assert stream == stream[..n] + [stream[n]];
    PastIsOf(held, stream[..n]);
    if s in stream[..n] { PastHas(held, stream[..n], s); }
  }

  lemma {:induction false} PastIsOf(held: string -> bool, stream: seq<Seen>)
    ensures forall s :: s in Past(held, stream) ==> s in stream && !held(s.id)
    decreases |stream|
  {
    if stream != [] {
      var n := |stream| - 1;
      PastIsOf(held, stream[..n]);
      assert stream == stream[..n] + [stream[n]];
    }
  }
}
