/**
 * Which answer is which call's: a declarative matching of whole bodies, that there is exactly one, and
 * that the reader of features/lib/model-said.ts (answersIn), with its mutable queues, computes it.
 */
module Matching {
  import opened Wrappers
  import opened Answers

  // ---- the matching ------------------------------------------------------------------------------

  predicate SamePick(bs: seq<Event>, c: nat, r: nat)
    requires c < |bs| && r < |bs|
  {
    bs[c].Called? && bs[r].Replied? && bs[c].agent == bs[r].agent && bs[c].name == bs[r].pick
  }

  /** A call that an answer could be to: of its pick, by its Agent, before it, with no prompt between. */
  ghost predicate Candidate(bs: seq<Event>, c: nat, r: nat) {
    && c < r < |bs| && SamePick(bs, c, r)
    && forall k :: c < k < r ==> !bs[k].Prompted?
  }

  /** What an answer takes, once the earlier ones took theirs: the oldest candidate that none of them
      has, and nothing only when every candidate is taken. */
  ghost predicate Takes(bs: seq<Event>, earlier: seq<Option<nat>>, r: nat, taken: Option<nat>)
    requires r < |bs|
  {
    if !bs[r].Replied? then taken == None
    else match taken
         case Some(d) =>
           && Candidate(bs, d, r) && Some(d) !in earlier
           && forall c: nat :: c < d && Candidate(bs, c, r) ==> Some(c) in earlier
         case None => forall c: nat :: Candidate(bs, c, r) ==> Some(c) in earlier
  }

  /** A matching gives each answer its call: `m[r]` is the place of the call that `r` answers. */
  ghost predicate IsMatching(bs: seq<Event>, m: seq<Option<nat>>) {
    && |m| == |bs|
    && forall r :: 0 <= r < |bs| ==> Takes(bs, m[..r], r, m[r])
  }

  /** No call has two answers, and answers of one pick are in the order of their calls. */
  lemma OrderIsKept(bs: seq<Event>, m: seq<Option<nat>>, q: nat, r: nat)
    requires IsMatching(bs, m) && q < r < |bs| && m[q].Some? && m[r].Some?
    requires bs[q].agent == bs[r].agent && bs[q].pick == bs[r].pick
    ensures m[q].value < m[r].value
  {
    var c, d := m[q].value, m[r].value;
    assert Takes(bs, m[..q], q, m[q]) && Takes(bs, m[..r], r, m[r]);
    assert m[..r][q] == Some(c);
    if d < c {
      assert Candidate(bs, d, q);
    }
  }

  /** What an answer takes is determined by what the earlier ones took. */
  lemma TakesOne(bs: seq<Event>, earlier: seq<Option<nat>>, r: nat, a: Option<nat>, b: Option<nat>)
    requires r < |bs| && Takes(bs, earlier, r, a) && Takes(bs, earlier, r, b)
    ensures a == b
  {
  }

  lemma {:induction false} SameUpTo(bs: seq<Event>, m: seq<Option<nat>>, n: seq<Option<nat>>, r: nat)
    requires IsMatching(bs, m) && IsMatching(bs, n) && r <= |bs|
    ensures m[..r] == n[..r]
  {
    if r > 0 {
      SameUpTo(bs, m, n, r - 1);
      TakesOne(bs, m[..r - 1], r - 1, m[r - 1], n[r - 1]);
      assert m[..r] == m[..r - 1] + [m[r - 1]] && n[..r] == n[..r - 1] + [n[r - 1]];
    }
  }

  /** There is at most one matching. */
  lemma MatchingIsUnique(bs: seq<Event>, m: seq<Option<nat>>, n: seq<Option<nat>>)
    requires IsMatching(bs, m) && IsMatching(bs, n)
    ensures m == n
  {
    SameUpTo(bs, m, n, |bs|);
    assert m[..|bs|] == m && n[..|bs|] == n;
  }

  // ---- the reader finds the matching ---------------------------------------------------------------

  /** The places of the calls, in order. */
  function Calls(bs: seq<Event>): (cs: seq<nat>)
    ensures forall i :: 0 <= i < |cs| ==> cs[i] < |bs| && bs[cs[i]].Called?
    ensures forall i, j :: 0 <= i < j < |cs| ==> cs[i] < cs[j]
  {
    if bs == [] then []
    else
      var n := |bs| - 1;
      var cs := Calls(bs[..n]);
      if bs[n].Called? then cs + [n] else cs
  }

  /** The place of the answer of the call at `c`. */
  function AnswerAt(m: seq<Option<nat>>, c: nat): (r: Option<nat>)
    ensures r.Some? ==> r.value < |m| && m[r.value] == Some(c)
    ensures r.None? ==> Some(c) !in m
  {
    if m == [] then None
    else
      var n := |m| - 1;
      assert m == m[..n] + [m[n]];
      if m[n] == Some(c) then Some(n) else AnswerAt(m[..n], c)
  }

  /** A call with the answer that the matching gives it. */
  function Entry(bs: seq<Event>, m: seq<Option<nat>>, c: nat): Answered
    requires c < |bs| && bs[c].Called?
  {
    var r := AnswerAt(m, c);
    if r.Some? && r.value < |bs| && bs[r.value].Replied?
    then Answered(bs[c].name, bs[c].body, Some(bs[r.value].body), bs[r.value].isError)
    else Answered(bs[c].name, bs[c].body, None, false)
  }

  /** Every call, in order, with the answer that the matching gives it. */
  function Rendered(bs: seq<Event>, m: seq<Option<nat>>): (r: seq<Answered>)
    ensures |r| == |Calls(bs)| && forall i :: 0 <= i < |r| ==> r[i] == Entry(bs, m, Calls(bs)[i])
  {
    seq(|Calls(bs)|, i requires 0 <= i < |Calls(bs)| => Entry(bs, m, Calls(bs)[i]))
  }

  /** The pairs so far, and the places of the calls that wait, by key. */
  datatype Pairing = Pairing(m: seq<Option<nat>>, waiting: map<Key, seq<nat>>)

  function Pair(p: Pairing, e: Event): Pairing {
    var n := |p.m|;
    match e
    case Prompted(_, _) => Pairing(p.m + [None], map[])
    case Called(agent, name, _) =>
      Pairing(p.m + [None], p.waiting[(agent, name) := Get(p.waiting, (agent, name)) + [n]])
    case Replied(agent, pick, _, _) =>
      var queue := Get(p.waiting, (agent, pick));
      if queue == [] then Pairing(p.m + [None], p.waiting)
      else Pairing(p.m + [Some(queue[0])], p.waiting[(agent, pick) := queue[1..]])
    case _ => Pairing(p.m + [None], p.waiting)
  }

  function PairingOf(bs: seq<Event>): (p: Pairing)
    ensures |p.m| == |bs|
  {
    if bs == [] then Pairing([], map[])
    else Pair(PairingOf(bs[..|bs| - 1]), bs[|bs| - 1])
  }

  /** A call of this key that waits for its answer at the end of `bs`. */
  ghost predicate Waits(bs: seq<Event>, m: seq<Option<nat>>, key: Key, c: nat) {
    && c < |bs| && bs[c].Called? && (bs[c].agent, bs[c].name) == key && Some(c) !in m
    && forall k :: c < k < |bs| ==> !bs[k].Prompted?
  }

  /** The queue of a key holds its waiting calls, oldest first. */
  ghost predicate QueueIs(bs: seq<Event>, m: seq<Option<nat>>, key: Key, queue: seq<nat>) {
    && (forall c :: c in queue <==> Waits(bs, m, key, c))
    && forall i, j :: 0 <= i < j < |queue| ==> queue[i] < queue[j]
  }

  ghost predicate QueuesAre(bs: seq<Event>, p: Pairing) {
    forall key :: QueueIs(bs, p.m, key, Get(p.waiting, key))
  }

  lemma CandidateFrame(bs: seq<Event>, e: Event, c: nat, r: nat)
    requires r < |bs|
    ensures Candidate(bs + [e], c, r) <==> Candidate(bs, c, r)
  {
    if c < r {
      assert forall k :: 0 <= k < |bs| ==> (bs + [e])[k] == bs[k];
    }
  }

  /** Which earlier calls wait after one more event: those that waited, that it does not answer. */
  lemma WaitsOn(bs: seq<Event>, m: seq<Option<nat>>, e: Event, taken: Option<nat>, key: Key, c: nat)
    requires c < |bs|
    ensures Waits(bs + [e], m + [taken], key, c) <==> Waits(bs, m, key, c) && !e.Prompted? && taken != Some(c)
  {
    var bs' := bs + [e];
    assert forall k :: 0 <= k < |bs| ==> bs'[k] == bs[k];
    assert bs'[|bs|] == e;
    assert Some(c) in m + [taken] <==> Some(c) in m || taken == Some(c);
    if Waits(bs, m, key, c) && !e.Prompted? && taken != Some(c) {
      forall k | c < k < |bs'|
        ensures !bs'[k].Prompted?
      {
        assert k < |bs| ==> bs'[k] == bs[k];
      }
    }
  }

  lemma WaitsNew(bs: seq<Event>, m: seq<Option<nat>>, e: Event, key: Key)
    requires forall i :: 0 <= i < |m| && m[i].Some? ==> m[i].value < |bs|
    ensures Waits(bs + [e], m + [None], key, |bs|) <==> e.Called? && (e.agent, e.name) == key
  {
    assert (bs + [e])[|bs|] == e;
    assert Some(|bs|) !in m + [None];
  }

  /** The queues stay what they are through one more event. */
  lemma QueuesStep(bs: seq<Event>, p: Pairing, e: Event, key: Key)
    requires QueuesAre(bs, p) && |p.m| == |bs|
    requires forall i :: 0 <= i < |p.m| && p.m[i].Some? ==> p.m[i].value < |bs|
    ensures QueueIs(bs + [e], Pair(p, e).m, key, Get(Pair(p, e).waiting, key))
  {
    var q := Pair(p, e);
    var taken := q.m[|bs|];
    var was, queue := Get(p.waiting, key), Get(q.waiting, key);
    assert q.m == p.m + [taken];
    assert QueueIs(bs, p.m, key, was);
    if e.Replied? { assert QueueIs(bs, p.m, (e.agent, e.pick), Get(p.waiting, (e.agent, e.pick))); }
    forall i | 0 <= i < |was|
      ensures was[i] < |bs|
    {
      assert was[i] in was;
    }
    forall c: nat
      ensures c in queue <==> Waits(bs + [e], q.m, key, c)
    {
      assert c in was <==> Waits(bs, p.m, key, c);
      assert (bs + [e])[|bs|] == e;
      if e.Replied? && taken.Some? {
        var first := Get(p.waiting, (e.agent, e.pick));
        assert first[0] in first;
        TakesFirst(first, c);
      }
      if c < |bs| {
        WaitsOn(bs, p.m, e, taken, key, c);
      } else if c == |bs| && taken.None? {
        WaitsNew(bs, p.m, e, key);
      }
    }
  }

  /** The rest of an increasing queue is the queue without its first. */
  lemma TakesFirst(queue: seq<nat>, c: nat)
    requires queue != [] && forall i, j :: 0 <= i < j < |queue| ==> queue[i] < queue[j]
    ensures c in queue[1..] <==> c in queue && c != queue[0]
  {
    assert queue == [queue[0]] + queue[1..];
    if c in queue[1..] {
      var k :| 0 <= k < |queue| - 1 && queue[1..][k] == c;
      assert queue[k + 1] == c;
    }
  }

  lemma TakesFrame(bs: seq<Event>, e: Event, earlier: seq<Option<nat>>, r: nat, taken: Option<nat>)
    requires r < |bs| && Takes(bs, earlier, r, taken)
    ensures Takes(bs + [e], earlier, r, taken)
  {
    assert (bs + [e])[r] == bs[r];
    forall c: nat
      ensures Candidate(bs + [e], c, r) <==> Candidate(bs, c, r)
    {
      CandidateFrame(bs, e, c, r);
    }
  }

  /** A candidate of a new answer waits, unless an earlier answer took it. */
  lemma CandidatesWait(bs: seq<Event>, m: seq<Option<nat>>, e: Event, c: nat)
    requires e.Replied?
    ensures Candidate(bs + [e], c, |bs|) && Some(c) !in m <==> Waits(bs, m, (e.agent, e.pick), c)
  {
    assert (bs + [e])[|bs|] == e;
    assert forall k :: 0 <= k < |bs| ==> (bs + [e])[k] == bs[k];
  }

  lemma TakesNew(bs: seq<Event>, p: Pairing, e: Event)
    requires QueuesAre(bs, p) && |p.m| == |bs|
    ensures Takes(bs + [e], p.m, |bs|, Pair(p, e).m[|bs|])
  {
    assert (bs + [e])[|bs|] == e;
    if e.Replied? {
      var key := (e.agent, e.pick);
      var queue := Get(p.waiting, key);
      assert QueueIs(bs, p.m, key, queue);
      forall c: nat
        ensures Candidate(bs + [e], c, |bs|) && Some(c) !in p.m <==> c in queue
      {
        CandidatesWait(bs, p.m, e, c);
      }
      assert queue != [] ==> queue[0] in queue;
    }
  }

  /** Queueing computes the matching: so there is one, for every list of whole bodies. */
  lemma {:induction false} QueuesFindTheMatching(bs: seq<Event>)
    ensures IsMatching(bs, PairingOf(bs).m) && QueuesAre(bs, PairingOf(bs))
  {
    if bs != [] {
      var n := |bs| - 1;
      var before, e := bs[..n], bs[n];
      assert bs == before + [e];
      QueuesFindTheMatching(before);
      var p, q := PairingOf(before), PairingOf(bs);
      assert q.m[..n] == p.m;
      MatchedAreEarlier(before, p.m);
      forall key
        ensures QueueIs(bs, q.m, key, Get(q.waiting, key))
      {
        QueuesStep(before, p, e, key);
      }
      forall r | 0 <= r < |bs|
        ensures Takes(bs, q.m[..r], r, q.m[r])
      {
        if r < n {
          assert q.m[..r] == p.m[..r] && q.m[r] == p.m[r];
          TakesFrame(before, e, p.m[..r], r, p.m[r]);
        } else {
          TakesNew(before, p, e);
        }
      }
    }
  }

  lemma MatchedAreEarlier(bs: seq<Event>, m: seq<Option<nat>>)
    requires IsMatching(bs, m)
    ensures forall i :: 0 <= i < |m| && m[i].Some? ==> m[i].value < i
  {
    forall i | 0 <= i < |m| && m[i].Some?
      ensures m[i].value < i
    {
      assert Takes(bs, m[..i], i, m[i]);
    }
  }

  /** The reader's calls are those of the pairing, and its queues name the same calls. */
  ghost predicate Mirrors(bs: seq<Event>, r: Reader, p: Pairing) {
    && r.out == Rendered(bs, p.m)
    && forall key :: QueueMirrors(Calls(bs), Get(r.unanswered, key), Get(p.waiting, key))
  }

  /** `places` are the places, among the calls `cs`, of those that wait. */
  ghost predicate QueueMirrors(cs: seq<nat>, places: seq<nat>, waiting: seq<nat>) {
    && |places| == |waiting|
    && forall i :: 0 <= i < |places| ==> places[i] < |cs| && cs[places[i]] == waiting[i]
  }

  lemma EntryFrame(bs: seq<Event>, m: seq<Option<nat>>, e: Event, taken: Option<nat>, c: nat)
    requires c < |bs| && bs[c].Called? && taken != Some(c) && |m| == |bs|
    ensures Entry(bs + [e], m + [taken], c) == Entry(bs, m, c)
  {
    assert (m + [taken])[..|m|] == m;
    var r := AnswerAt(m, c);
    assert r.Some? ==> (bs + [e])[r.value] == bs[r.value];
  }

  lemma CallsMore(bs: seq<Event>, e: Event)
    ensures Calls(bs + [e]) == if e.Called? then Calls(bs) + [|bs|] else Calls(bs)
  {
    assert (bs + [e])[..|bs|] == bs;
  }

  lemma NewEntry(bs: seq<Event>, m: seq<Option<nat>>, e: Event)
    requires |m| == |bs| && e.Called? && forall i :: 0 <= i < |m| && m[i].Some? ==> m[i].value < |bs|
    ensures (bs + [e])[|bs|] == e && Entry(bs + [e], m + [None], |bs|) == Answered(e.name, e.body, None, false)
  {
    assert Some(|bs|) !in m + [None];
  }

  lemma RenderedMore(bs: seq<Event>, m: seq<Option<nat>>, e: Event)
    requires |m| == |bs| && forall i :: 0 <= i < |m| && m[i].Some? ==> m[i].value < |bs|
    ensures Rendered(bs + [e], m + [None]) ==
            if e.Called? then Rendered(bs, m) + [Answered(e.name, e.body, None, false)] else Rendered(bs, m)
  {
    CallsMore(bs, e);
    var r, r' := Rendered(bs, m), Rendered(bs + [e], m + [None]);
    forall i | 0 <= i < |r|
      ensures r'[i] == r[i]
    {
      EntryFrame(bs, m, e, None, Calls(bs)[i]);
    }
    if e.Called? {
      NewEntry(bs, m, e);
      assert r'[|r|] == Answered(e.name, e.body, None, false);
    }
  }

  lemma RenderedAnswer(bs: seq<Event>, m: seq<Option<nat>>, e: Event, k: nat)
    requires |m| == |bs| && e.Replied? && k < |Calls(bs)| && Some(Calls(bs)[k]) !in m
    ensures var was := Rendered(bs, m)[k];
            && was.answer == None && !was.error
            && Rendered(bs + [e], m + [Some(Calls(bs)[k])])
               == Rendered(bs, m)[k := was.(answer := Some(e.body), error := e.isError)]
  {
    CallsMore(bs, e);
    var cs := Calls(bs);
    var m' := m + [Some(cs[k])];
    assert m'[|m|] == Some(cs[k]) && (bs + [e])[|bs|] == e;
    forall i | 0 <= i < |cs| && i != k
      ensures Entry(bs + [e], m', cs[i]) == Entry(bs, m, cs[i])
    {
      assert i < k ==> cs[i] < cs[k];
      assert k < i ==> cs[k] < cs[i];
      EntryFrame(bs, m, e, Some(cs[k]), cs[i]);
    }
  }

  /** One more event leaves the reader's calls those of the pairing. */
  lemma MirrorCalls(bs: seq<Event>, r: Reader, p: Pairing, e: Event)
    requires Ok(r) && Mirrors(bs, r, p) && QueuesAre(bs, p) && |p.m| == |bs| && !e.More?
    requires forall i :: 0 <= i < |p.m| && p.m[i].Some? ==> p.m[i].value < |bs|
    ensures Read(r, e).out == Rendered(bs + [e], Pair(p, e).m)
  {
    if e.Replied? {
      var key := (e.agent, e.pick);
      var places, waiting := Get(r.unanswered, key), Get(p.waiting, key);
      assert QueueMirrors(Calls(bs), places, waiting);
      assert QueueIs(bs, p.m, key, waiting);
      if waiting != [] {
        assert waiting[0] in waiting;
        RenderedAnswer(bs, p.m, e, places[0]);
      } else {
        RenderedMore(bs, p.m, e);
      }
    } else {
      RenderedMore(bs, p.m, e);
    }
  }

  /** A queue after one more event, when the next call has the number `n`. */
  function Queued(queue: seq<nat>, e: Event, key: Key, n: nat): seq<nat> {
    if e.Prompted? then []
    else if e.Called? && (e.agent, e.name) == key then queue + [n]
    else if e.Replied? && (e.agent, e.pick) == key && queue != [] then queue[1..]
    else queue
  }

  lemma ReaderQueues(r: Reader, e: Event, key: Key)
    requires Ok(r)
    ensures Get(Read(r, e).unanswered, key) == Queued(Get(r.unanswered, key), e, key, |r.out|)
  {
  }

  lemma PairingQueues(p: Pairing, e: Event, key: Key)
    ensures Get(Pair(p, e).waiting, key) == Queued(Get(p.waiting, key), e, key, |p.m|)
  {
  }

  lemma MirrorQueued(cs: seq<nat>, places: seq<nat>, waiting: seq<nat>, e: Event, key: Key, n: nat)
    requires QueueMirrors(cs, places, waiting)
    ensures QueueMirrors(if e.Called? then cs + [n] else cs, Queued(places, e, key, |cs|), Queued(waiting, e, key, n))
  {
  }

  /** And each queue names the same calls. */
  lemma MirrorQueue(bs: seq<Event>, r: Reader, p: Pairing, e: Event, key: Key)
    requires Ok(r) && Mirrors(bs, r, p) && |p.m| == |bs| && !e.More?
    ensures QueueMirrors(Calls(bs + [e]), Get(Read(r, e).unanswered, key), Get(Pair(p, e).waiting, key))
  {
    var places, waiting := Get(r.unanswered, key), Get(p.waiting, key);
    assert QueueMirrors(Calls(bs), places, waiting);
    CallsMore(bs, e);
    ReaderQueues(r, e, key);
    PairingQueues(p, e, key);
    MirrorQueued(Calls(bs), places, waiting, e, key, |bs|);
  }

  lemma MirrorStep(bs: seq<Event>, r: Reader, p: Pairing, e: Event)
    requires Ok(r) && Mirrors(bs, r, p) && QueuesAre(bs, p) && |p.m| == |bs| && !e.More?
    requires forall i :: 0 <= i < |p.m| && p.m[i].Some? ==> p.m[i].value < |bs|
    ensures Mirrors(bs + [e], Read(r, e), Pair(p, e))
  {
    MirrorCalls(bs, r, p, e);
    forall key
      ensures QueueMirrors(Calls(bs + [e]), Get(Read(r, e).unanswered, key), Get(Pair(p, e).waiting, key))
    {
      MirrorQueue(bs, r, p, e, key);
    }
  }

  lemma {:induction false} ReaderMirrors(bs: seq<Event>)
    requires forall i :: 0 <= i < |bs| ==> !bs[i].More?
    ensures Mirrors(bs, Fed(bs), PairingOf(bs))
  {
    if bs != [] {
      var n := |bs| - 1;
      assert bs == bs[..n] + [bs[n]];
      ReaderMirrors(bs[..n]);
      QueuesFindTheMatching(bs[..n]);
      MatchedAreEarlier(bs[..n], PairingOf(bs[..n]).m);
      MirrorStep(bs[..n], Fed(bs[..n]), PairingOf(bs[..n]), bs[n]);
    }
  }

  /**
   * The refinement: for every log, the loop with its mutable queues gives every call, in order, with
   * its whole input, and the whole answer that the one matching gives it.
   */
  lemma ReaderGivesTheMatching(kept: string, marker: string, m: seq<Option<nat>>)
    requires TrialOf(kept, Some(marker)).Some?
    requires var t := TrialOf(kept, Some(marker)).value; IsMatching(Blocks(Events(t.agents, t.after)), m)
    ensures var t := TrialOf(kept, Some(marker)).value;
            AnswersIn(kept, marker) == Some(Rendered(Blocks(Events(t.agents, t.after)), m))
  {
    var t := TrialOf(kept, Some(marker)).value;
    EventsGiveTheMatching(Events(t.agents, t.after), m);
  }

  lemma EventsGiveTheMatching(events: seq<Event>, m: seq<Option<nat>>)
    requires IsMatching(Blocks(events), m)
    ensures Fed(events).out == Rendered(Blocks(events), m)
  {
    var bs := Blocks(events);
    ReadingWholeBodies(events);
    ReaderMirrors(bs);
    QueuesFindTheMatching(bs);
    MatchingIsUnique(bs, m, PairingOf(bs).m);
  }
}
