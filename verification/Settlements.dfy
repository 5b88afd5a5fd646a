/** Settlements as the evidence keeps them (features/lib/model-evidence.ts: SettlementSeen, usageOf,
    settledIn, viewSettlements), and a map that keeps its insertion order. */
module Settlements {
  import opened Wrappers
  import opened Text

  /** A field of a usage, as read: a finite number, or anything else. */
  datatype Field = Finite(value: real) | NoNumber

  datatype UsageValue = NoObject | Fields(input: Field, output: Field, cacheRead: Field, cacheWrite: Field, cost: Field)

  datatype Usage = Usage(input: real, output: real, cacheRead: real, cacheWrite: real, cost: real)

  const NO_USAGE := Usage(0.0, 0.0, 0.0, 0.0, 0.0)

  function UsageOf(v: UsageValue): Option<Usage> {
    if v.Fields? && v.input.Finite? && v.output.Finite? && v.cacheRead.Finite? && v.cacheWrite.Finite? && v.cost.Finite?
    then Some(Usage(v.input.value, v.output.value, v.cacheRead.value, v.cacheWrite.value, v.cost.value)) else None
  }

  /** A usage as a settlement carries it. */
  function AsValue(u: Usage): UsageValue {
    Fields(Finite(u.input), Finite(u.output), Finite(u.cacheRead), Finite(u.cacheWrite), Finite(u.cost))
  }

  /** A value is a usage exactly when it carries that usage, field by field. */
  lemma UsageReadsBack(v: UsageValue, u: Usage)
    ensures UsageOf(v) == Some(u) <==> v == AsValue(u)
  {
  }

  function Add(a: Usage, b: Usage): Usage {
    Usage(a.input + b.input, a.output + b.output, a.cacheRead + b.cacheRead, a.cacheWrite + b.cacheWrite,
          a.cost + b.cost)
  }

  /** A settlement's ID in a view: a string, or another value that prints as one. */
  datatype Id = IsString(text: string) | Shown(text: string)

  datatype Held = Held(id: Id, usage: UsageValue)

  /** How a view's body is read: the settlements that it holds, or nothing when it is no JSON object. */
  type Parser = string -> Option<seq<Held>>

  /** A settlement as the stream carries it. `error` is its JSON. */
  datatype Seen = Seen(id: string, outcome: string, error: Option<string>, usage: Option<UsageValue>)

  /** A page's event: anything, with the fields that are looked at. */
  datatype StreamEvent = StreamEvent(kind: Option<string>, id: Option<string>, outcome: Option<string>,
                                     error: Option<string>, usage: Option<UsageValue>)

  predicate Settles(e: StreamEvent) {
    e.kind == Some("submission-settled") && e.id.Some? && e.outcome.Some?
  }

  /** `settledIn`: `None` is a page that is no list. */
  method SettledIn(page: Option<seq<StreamEvent>>) returns (out: seq<Seen>)
    ensures page.None? ==> out == []
    ensures page.Some? ==> exists at: seq<nat> :: |at| == |out| && IsSettledAt(page.value, at, out)
  {
    out := [];
    if page.None? { return; }
    var events := page.value;
    ghost var at: seq<nat> := [];
    for i := 0 to |events|
      invariant |at| == |out| && IsSettledAt(events[..i], at, out)
    {
      var e := events[i];
      var settles := e.kind == Some("submission-settled") && e.id.Some? && e.outcome.Some?;
      if settles {
        out := out + [Seen(e.id.value, e.outcome.value, e.error, e.usage)];
        at := at + [i];
      }
    }
    assert events[..|events|] == events;
  }

  predicate IsSettlementOf(s: Seen, e: StreamEvent) {
    Settles(e) && s.id == e.id.value && s.outcome == e.outcome.value && s.error == e.error && s.usage == e.usage
  }

  /** `out` is the settlements of a page, each once, in order: that of the event at `at[k]` is the
      `k`th, and every event that settles is one of these. */
  ghost predicate IsSettledAt(events: seq<StreamEvent>, at: seq<nat>, out: seq<Seen>) {
    && |at| == |out|
    && (forall k :: 0 <= k < |at| ==> at[k] < |events| && IsSettlementOf(out[k], events[at[k]]))
    && (forall k, l :: 0 <= k < l < |at| ==> at[k] < at[l])
    && forall i: nat :: i < |events| && Settles(events[i]) ==> i in at
  }

  /** The settlements in a kept view that is a 200. `parse` reads its body: `None` when it is no JSON
      object, and no settlements when it holds no list of them. */
  function ViewSettlements(parse: Parser, view: string): Option<seq<Held>> {
    var k := First(view, '\n');
    if "read at " <= view && k < |view| && "HTTP 200\n" <= view[k + 1..] then parse(view[k + 1..][|"HTTP 200\n"|..])
    else None
  }

  /** A view that is a 200 is read by its body. */
  lemma AViewIsRead(parse: Parser, when: string, body: string)
    requires Free(when, '\n')
    ensures ViewSettlements(parse, "read at " + when + "\nHTTP 200\n" + body) == parse(body)
  {
    var head, rest := "read at " + when, "HTTP 200\n" + body;
    var view := head + ['\n'] + rest;
    assert view == "read at " + when + "\nHTTP 200\n" + body;
    FreeConcat("read at ", when, '\n');
    FirstOf(head, '\n', rest);
    assert view[|head| + 1..] == rest && rest[9..] == body && "HTTP 200\n" <= rest;
  }

  /** And no other text is. */
  lemma OnlyA200IsRead(parse: Parser, view: string)
    requires ViewSettlements(parse, view).Some?
    ensures exists when, body :: Free(when, '\n') && view == "read at " + when + "\nHTTP 200\n" + body
                                 && ViewSettlements(parse, view) == parse(body)
  {
    var k := First(view, '\n');
    var rest := view[k + 1..];
    ReadAtIsOneLine(view);
    var when, body := view[8..k], rest[9..];
    assert forall i :: 0 <= i < |when| ==> when[i] == view[8 + i];
    Recompose(view, k, "read at ", "HTTP 200\n");
    ViewSpelling(when, body);
    assert view == "read at " + when + "\nHTTP 200\n" + body;
  }

  lemma ReadAtIsOneLine(view: string)
    requires "read at " <= view
    ensures First(view, '\n') >= 8
  {
    var head := "read at ";
    assert forall i :: 0 <= i < 8 ==> view[i] == head[i] && head[i] != '\n';
  }

  lemma Recompose(view: string, k: nat, head: string, status: string)
    requires head <= view && |head| <= k < |view| && view[k] == '\n' && status <= view[k + 1..]
    ensures view == head + view[|head|..k] + ['\n'] + status + view[k + 1..][|status|..]
  {
  }

  lemma ViewSpelling(when: string, body: string)
    ensures "read at " + when + ['\n'] + "HTTP 200\n" + body == "read at " + when + "\nHTTP 200\n" + body
  {
    assert ['\n'] + "HTTP 200\n" == "\nHTTP 200\n";
  }

  // ---- a map in insertion order --------------------------------------------------------------------

  type Ordered<V> = seq<(string, V)>

  ghost predicate IsMap<V>(m: Ordered<V>) {
    forall i, j :: 0 <= i < j < |m| ==> m[i].0 != m[j].0
  }

  predicate Has<V>(m: Ordered<V>, key: string) {
    exists i :: 0 <= i < |m| && m[i].0 == key
  }

  /** `set`: a new key goes last, and a key that is there keeps its place. */
  function Put<V>(m: Ordered<V>, key: string, v: V): Ordered<V> {
    if m == [] then [(key, v)]
    else if m[0].0 == key then [(key, v)] + m[1..]
    else [m[0]] + Put(m[1..], key, v)
  }

  lemma {:induction false} PutNew<V>(m: Ordered<V>, key: string, v: V)
    requires !Has(m, key)
    ensures Put(m, key, v) == m + [(key, v)]
  {
    if m != [] {
      assert !Has(m[1..], key) by {
        assert forall i :: 0 <= i < |m| - 1 ==> m[1..][i] == m[i + 1];
      }
      PutNew(m[1..], key, v);
      assert m[0].0 != key;
    }
  }

  /** A key that is there keeps its place, and every other entry stays. */
  lemma {:induction false} PutKnown<V>(m: Ordered<V>, key: string, v: V, i: nat)
    requires i < |m| && m[i].0 == key && forall k :: 0 <= k < i ==> m[k].0 != key
    ensures Put(m, key, v) == m[i := (key, v)]
  {
    if i > 0 {
      assert m[1..][i - 1] == m[i];
      PutKnown(m[1..], key, v, i - 1);
    }
  }
}
