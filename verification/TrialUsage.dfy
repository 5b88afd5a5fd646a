/** What a trial's model answers spent (features/lib/model-evidence.ts: trialUsage, trialUsageAcross). */
module TrialUsage {
  import opened Wrappers
  import opened Flat
  import opened Text
  import opened Settlements

  /** One kept settlement: whose usage it says, if that is a Submission, and what. */
  datatype Claim = Claim(id: Option<string>, usage: UsageValue)

  function OfHeld(h: Held): Claim { Claim(if h.id.IsString? then Some(h.id.text) else None, h.usage) }
  function OfSeen(s: Seen): Claim { Claim(Some(s.id), if s.usage.Some? then s.usage.value else NoObject) }

  predicate Counts(c: Claim) { c.id.Some? && UsageOf(c.usage).Some? }

  // ---- what is spent: each Submission once, by the first usage kept of it --------------------------

  function Ids(claims: seq<Claim>): set<string> {
    set c | c in claims && Counts(c) :: c.id.value
  }

  /** The first usage kept of a Submission. */
  function FirstUsage(claims: seq<Claim>, id: string): Usage
    requires id in Ids(claims)
  {
    if Counts(claims[0]) && claims[0].id.value == id then UsageOf(claims[0].usage).value
    else
      assert forall c :: c in claims && c != claims[0] ==> c in claims[1..];
      FirstUsage(claims[1..], id)
  }

  /** The usage that is counted is one that a kept settlement of the Submission carries, number for
      number. */
  lemma {:induction false} FirstUsageIsKept(claims: seq<Claim>, id: string)
    requires id in Ids(claims)
    ensures Claim(Some(id), AsValue(FirstUsage(claims, id))) in claims
  {
    if Counts(claims[0]) && claims[0].id.value == id {
      UsageReadsBack(claims[0].usage, FirstUsage(claims, id));
    } else {
      assert claims == [claims[0]] + claims[1..];
      FirstUsageIsKept(claims[1..], id);
    }
  }

  /** The sum over some Submissions. */
  ghost function SumOver(ids: set<string>, claims: seq<Claim>): Usage
    requires ids <= Ids(claims)
  {
    if ids == {} then NO_USAGE
    else
      var id :| id in ids;
      Add(FirstUsage(claims, id), SumOver(ids - {id}, claims))
  }

  /** What was spent, `None` when no usage was kept. */
  ghost function Spent(claims: seq<Claim>): Option<Usage> {
    if Ids(claims) == {} then None else Some(SumOver(Ids(claims), claims))
  }

  /** Any Submission can be the one that is added last. */
  lemma {:induction false} SumAny(ids: set<string>, claims: seq<Claim>, y: string)
    requires ids <= Ids(claims) && y in ids
    ensures SumOver(ids, claims) == Add(FirstUsage(claims, y), SumOver(ids - {y}, claims))
    decreases ids
  {
    var id :| id in ids && SumOver(ids, claims) == Add(FirstUsage(claims, id), SumOver(ids - {id}, claims));
    if id != y {
      SumAny(ids - {id}, claims, y);
      SumAny(ids - {y}, claims, id);
      assert ids - {id} - {y} == ids - {y} - {id};
      AddSwap(FirstUsage(claims, id), FirstUsage(claims, y), SumOver(ids - {id} - {y}, claims));
    }
  }

  lemma AddSwap(a: Usage, b: Usage, c: Usage)
    ensures Add(a, Add(b, c)) == Add(b, Add(a, c))
  {
  }

  /** Two lists of claims that agree on each Submission have the same sum. */
  lemma {:induction false} SumSame(ids: set<string>, a: seq<Claim>, b: seq<Claim>)
    requires ids <= Ids(a) && ids <= Ids(b)
    requires forall id :: id in ids ==> FirstUsage(a, id) == FirstUsage(b, id)
    ensures SumOver(ids, a) == SumOver(ids, b)
    decreases ids
  {
    if ids != {} {
      var id :| id in ids;
      SumAny(ids, a, id);
      SumAny(ids, b, id);
      SumSame(ids - {id}, a, b);
    }
  }

  /** The sum of one number of the usages. */
  ghost function SumField(ids: set<string>, claims: seq<Claim>, field: Usage -> real): real
    requires ids <= Ids(claims)
  {
    if ids == {} then 0.0
    else
      var id :| id in ids;
      field(FirstUsage(claims, id)) + SumField(ids - {id}, claims, field)
  }

  /** A number of a usage that adds up, as each of its five fields does. */
  ghost predicate IsField(field: Usage -> real) {
    field(NO_USAGE) == 0.0 && forall a, b :: field(Add(a, b)) == field(a) + field(b)
  }

  /** Each field of the sum is the sum of that field. */
  lemma {:induction false} SumIsByField(ids: set<string>, claims: seq<Claim>, field: Usage -> real)
    requires ids <= Ids(claims) && IsField(field)
    ensures field(SumOver(ids, claims)) == SumField(ids, claims, field)
    decreases ids
  {
    if ids != {} {
      var id :| id in ids
                && SumField(ids, claims, field) == field(FirstUsage(claims, id)) + SumField(ids - {id}, claims, field);
      SumAny(ids, claims, id);
      SumIsByField(ids - {id}, claims, field);
    }
  }

  function Input(u: Usage): real { u.input }
  function Output(u: Usage): real { u.output }
  function CacheRead(u: Usage): real { u.cacheRead }
  function CacheWrite(u: Usage): real { u.cacheWrite }
  function Cost(u: Usage): real { u.cost }

  /** What was spent, field by field: each of the five numbers is the sum of that number over the
      Submissions. */
  lemma SpentByField(claims: seq<Claim>)
    ensures var ids, sum := Ids(claims), SumOver(Ids(claims), claims);
            && sum.input == SumField(ids, claims, Input)
            && sum.output == SumField(ids, claims, Output)
            && sum.cacheRead == SumField(ids, claims, CacheRead)
            && sum.cacheWrite == SumField(ids, claims, CacheWrite)
            && sum.cost == SumField(ids, claims, Cost)
  {
    var ids := Ids(claims);
    SumIsByField(ids, claims, Input);
    SumIsByField(ids, claims, Output);
    SumIsByField(ids, claims, CacheRead);
    SumIsByField(ids, claims, CacheWrite);
    SumIsByField(ids, claims, Cost);
  }

  lemma IdsConcat(a: seq<Claim>, b: seq<Claim>)
    ensures Ids(a + b) == Ids(a) + Ids(b)
  {
  }

  /** The first usage of a Submission is in the first part that has one. */
  lemma {:induction false} FirstConcat(a: seq<Claim>, b: seq<Claim>, id: string)
    requires id in Ids(a + b)
    ensures id in Ids(a) ==> FirstUsage(a + b, id) == FirstUsage(a, id)
    ensures id !in Ids(a) ==> id in Ids(b) && FirstUsage(a + b, id) == FirstUsage(b, id)
    decreases |a|
  {
    IdsConcat(a, b);
    if a == [] {
      assert a + b == b;
    } else {
      assert (a + b)[0] == a[0] && (a + b)[1..] == a[1..] + b;
      assert a == [a[0]] + a[1..];
      IdsConcat([a[0]], a[1..]);
      if !(Counts(a[0]) && a[0].id.value == id) {
        IdsConcat(a[1..], b);
        FirstConcat(a[1..], b, id);
      }
    }
  }

  /** Claims that were all made before change nothing. */
  lemma RepeatedClaims(a: seq<Claim>, again: seq<Claim>, b: seq<Claim>)
    requires forall c :: c in again ==> c in a
    ensures Spent(a + again + b) == Spent(a + b)
  {
    var once, twice := a + b, a + again + b;
    IdsConcat(a, b);
    IdsConcat(a + again, b);
    IdsConcat(a, again);
    assert Ids(again) <= Ids(a);
    assert Ids(once) == Ids(twice);
    forall id | id in Ids(once)
      ensures FirstUsage(once, id) == FirstUsage(twice, id)
    {
      FirstConcat(a, b, id);
      FirstConcat(a + again, b, id);
      if id in Ids(a) { FirstConcat(a, again, id); }
    }
    SumSame(Ids(once), once, twice);
  }

  // ---- `trialUsage` --------------------------------------------------------------------------------

  /** `bySubmission`, after some claims. */
  function Taken(claims: seq<Claim>): Ordered<Usage> {
    if claims == [] then []
    else Take(Taken(claims[..|claims| - 1]), claims[|claims| - 1])
  }

  function Take(spent: Ordered<Usage>, c: Claim): Ordered<Usage> {
    if Counts(c) && !Has(spent, c.id.value) then Put(spent, c.id.value, UsageOf(c.usage).value) else spent
  }

  function Sum(spent: Ordered<Usage>): Usage {
    if spent == [] then NO_USAGE else Add(Sum(spent[..|spent| - 1]), spent[|spent| - 1].1)
  }

  lemma AddSides(a: Usage, b: Usage)
    ensures Add(a, b) == Add(b, a)
  {
  }

  /** The map holds one usage for each Submission, and their sum is what was spent. */
  lemma {:induction false} TakenIsSpent(claims: seq<Claim>)
    ensures forall id :: Has(Taken(claims), id) <==> id in Ids(claims)
    ensures Sum(Taken(claims)) == SumOver(Ids(claims), claims)
    ensures Taken(claims) == [] <==> Ids(claims) == {}
  {
    if claims != [] {
      var before, c := claims[..|claims| - 1], claims[|claims| - 1];
      assert claims == before + [c];
      TakenIsSpent(before);
      IdsConcat(before, [c]);
      forall id | id in Ids(before)
        ensures FirstUsage(claims, id) == FirstUsage(before, id)
      {
        FirstConcat(before, [c], id);
      }
      SumSame(Ids(before), before, claims);
      if Counts(c) && c.id.value !in Ids(before) {
        TakesNew(Taken(before), c);
        FirstConcat(before, [c], c.id.value);
        SumAny(Ids(claims), claims, c.id.value);
        assert Ids(claims) - {c.id.value} == Ids(before);
        AddSides(SumOver(Ids(before), before), UsageOf(c.usage).value);
      } else {
        assert Ids(claims) == Ids(before);
      }
    }
  }

  lemma TakesNew(spent: Ordered<Usage>, c: Claim)
    requires Counts(c) && !Has(spent, c.id.value)
    ensures Take(spent, c) == spent + [(c.id.value, UsageOf(c.usage).value)]
    ensures Sum(Take(spent, c)) == Add(Sum(spent), UsageOf(c.usage).value)
    ensures forall id :: Has(Take(spent, c), id) <==> Has(spent, id) || id == c.id.value
  {
    PutNew(spent, c.id.value, UsageOf(c.usage).value);
    var spent' := spent + [(c.id.value, UsageOf(c.usage).value)];
    assert spent'[..|spent'| - 1] == spent;
    forall id
      ensures Has(spent', id) <==> Has(spent, id) || id == c.id.value
    {
      if Has(spent, id) {
        var i :| 0 <= i < |spent| && spent[i].0 == id;
        assert spent'[i].0 == id;
      }
      assert spent'[|spent|].0 == c.id.value;
    }
  }

  function ViewClaims(parse: Parser, view: string): seq<Claim> {
    var held := ViewSettlements(parse, view);
    if held.None? then [] else Map(OfHeld, held.value)
  }

  function StreamClaims(list: seq<Seen>): seq<Claim> { Map(OfSeen, list) }

  function Values<V>(m: Ordered<V>): seq<V> { Map((e: (string, V)) => e.1, m) }

  /** What the views and the streams say, the views first. */
  function Claims(parse: Parser, views: seq<string>, streams: seq<seq<Seen>>): seq<Claim> {
    Flatten(view => ViewClaims(parse, view), views) + Flatten(StreamClaims, streams)
  }

  /** Each claim of a list is taken in its turn. */
  method TakeAll(spent: Ordered<Usage>, ghost before: seq<Claim>, claims: seq<Claim>) returns (spent': Ordered<Usage>)
    requires spent == Taken(before)
    ensures spent' == Taken(before + claims)
  {
    spent' := spent;
    assert before + claims[..0] == before;
    for i := 0 to |claims|
      invariant spent' == Taken(before + claims[..i])
    {
      var all := before + claims[..i + 1];
      assert all[..|all| - 1] == before + claims[..i] && all[|all| - 1] == claims[i];
      var c := claims[i];
      if Counts(c) && !Has(spent', c.id.value) {
        spent' := Put(spent', c.id.value, UsageOf(c.usage).value);
      }
    }
    assert claims[..|claims|] == claims;
  }

  function TrialUsage(parse: Parser, views: Ordered<string>, settled: Ordered<seq<Seen>>): Option<Usage> {
    var taken := Taken(Claims(parse, Values(views), Values(settled)));
    if taken == [] then None else Some(Sum(taken))
  }

  lemma FlattenTo<A, B>(f: A -> seq<B>, xs: seq<A>, i: nat)
    requires i < |xs|
    ensures Flatten(f, xs[..i + 1]) == Flatten(f, xs[..i]) + f(xs[i])
  {
    assert xs[..i + 1][..i] == xs[..i];
  }

  /** The claims of each view, or of each stream, in its turn. */
  method TakeEach<A>(spent: Ordered<Usage>, ghost before: seq<Claim>, claims: A -> seq<Claim>, xs: seq<A>)
    returns (spent': Ordered<Usage>)
    requires spent == Taken(before)
    ensures spent' == Taken(before + Flatten(claims, xs))
  {
    spent' := spent;
    assert before + [] == before;
    for i := 0 to |xs|
      invariant spent' == Taken(before + Flatten(claims, xs[..i]))
    {
      ghost var so := Flatten(claims, xs[..i]);
      spent' := TakeAll(spent', before + so, claims(xs[i]));
      FlattenTo(claims, xs, i);
      assert before + (so + claims(xs[i])) == (before + so) + claims(xs[i]);
    }
    assert xs[..|xs|] == xs;
  }

  method Reduce(spent: Ordered<Usage>) returns (sum: Usage)
    ensures sum == Sum(spent)
  {
    sum := NO_USAGE;
    for i := 0 to |spent|
      invariant sum == Sum(spent[..i])
    {
      assert spent[..i + 1][..i] == spent[..i];
      sum := Add(sum, spent[i].1);
    }
    assert spent[..|spent|] == spent;
  }

  /** `trialUsage`. */
  method ReadTrialUsage(parse: Parser, views: Ordered<string>, settled: Ordered<seq<Seen>>)
    returns (usage: Option<Usage>)
    ensures usage == TrialUsage(parse, views, settled)
  {
    var ofView := view => ViewClaims(parse, view);
    var spent := TakeEach([], [], ofView, Values(views));
    assert [] + Flatten(ofView, Values(views)) == Flatten(ofView, Values(views));
    spent := TakeEach(spent, Flatten(ofView, Values(views)), StreamClaims, Values(settled));
    if spent == [] { return None; }
    var sum := Reduce(spent);
    usage := Some(sum);
  }

  /** What a trial spent: the sum, over the Submissions with a usage in any view or stream, of the first
      usage kept; and nothing is said exactly when no usage was kept. */
  lemma UsageIsSpent(parse: Parser, views: Ordered<string>, settled: Ordered<seq<Seen>>)
    ensures TrialUsage(parse, views, settled) == Spent(Claims(parse, Values(views), Values(settled)))
  {
    TakenIsSpent(Claims(parse, Values(views), Values(settled)));
  }

  // ---- over every Harness that a trial kept --------------------------------------------------------

  datatype Side = Side(views: Ordered<string>, settled: Ordered<seq<Seen>>)

  function Decimal(n: nat): string {
    var digit := ('0' as int + n % 10) as char;
    if n < 10 then [digit] else Decimal(n / 10) + [digit]
  }

  function Number(s: string): int {
    if s == "" then 0 else Number(s[..|s| - 1]) * 10 + (s[|s| - 1] as int - '0' as int)
  }

  lemma {:induction false} DecimalReadsBack(n: nat)
    ensures Number(Decimal(n)) == n && Free(Decimal(n), ' ')
  {
    var s := Decimal(n);
    if n >= 10 {
      DecimalReadsBack(n / 10);
      assert s[..|s| - 1] == Decimal(n / 10);
    } else {
      assert s[..0] == "" && Number("") == 0;
    }
  }

  function Key(i: nat, iid: string): string { Decimal(i) + " " + iid }

  /** The sides' keys stay apart, also those of one Instance ID. */
  lemma KeysStayApart(i: nat, iid: string, j: nat, jid: string)
    requires Key(i, iid) == Key(j, jid)
    ensures i == j && iid == jid
  {
    DecimalReadsBack(i);
    DecimalReadsBack(j);
    FirstOf(Decimal(i), ' ', iid);
    FirstOf(Decimal(j), ' ', jid);
    var a, b := Key(i, iid), Key(j, jid);
    assert a[..|Decimal(i)|] == Decimal(i) && a[|Decimal(i)| + 1..] == iid;
    assert b[..|Decimal(j)|] == Decimal(j) && b[|Decimal(j)| + 1..] == jid;
  }

  /** One side's map, put into the map of all. */
  function PutSide<V>(m: Ordered<V>, i: nat, side: Ordered<V>): Ordered<V> {
    if side == [] then m
    else
      var n := |side| - 1;
      Put(PutSide(m, i, side[..n]), Key(i, side[n].0), side[n].1)
  }

  function PutSides<V>(sides: seq<Ordered<V>>): Ordered<V> {
    if sides == [] then [] else PutSide(PutSides(sides[..|sides| - 1]), |sides| - 1, sides[|sides| - 1])
  }

  /** Every key is one of the first `n` sides'. */
  ghost predicate KeysBelow<V>(m: Ordered<V>, n: nat) {
    forall k :: 0 <= k < |m| ==> exists i: nat, iid :: i < n && m[k].0 == Key(i, iid)
  }

  ghost predicate KeyedBy<V>(added: Ordered<V>, i: nat, side: Ordered<V>) {
    |added| == |side| && forall k :: 0 <= k < |side| ==> added[k] == (Key(i, side[k].0), side[k].1)
  }

  /** A side's entries are all new: they go last, in their order. */
  lemma {:induction false} SideGoesLast<V>(m: Ordered<V>, i: nat, side: Ordered<V>) returns (added: Ordered<V>)
    requires KeysBelow(m, i) && IsMap(side)
    ensures PutSide(m, i, side) == m + added && KeyedBy(added, i, side)
    decreases |side|
  {
    if side == [] {
      added := [];
    } else {
      var n := |side| - 1;
      var before := SideGoesLast(m, i, side[..n]);
      var key := Key(i, side[n].0);
      forall k | 0 <= k < |m + before|
        ensures (m + before)[k].0 != key
      {
        if k < |m| {
          var j: nat, iid :| j < i && m[k].0 == Key(j, iid);
          if m[k].0 == key { KeysStayApart(j, iid, i, side[n].0); }
        } else {
          var l := k - |m|;
          if before[l].0 == key { KeysStayApart(i, side[l].0, i, side[n].0); }
        }
      }
      PutNew(m + before, key, side[n].1);
      added := before + [(key, side[n].1)];
    }
  }

  lemma ValuesConcat<V>(a: Ordered<V>, b: Ordered<V>)
    ensures Values(a + b) == Values(a) + Values(b)
  {
    MapConcat((e: (string, V)) => e.1, a, b);
  }

  lemma {:induction false} ValuesKeyed<V>(added: Ordered<V>, i: nat, side: Ordered<V>)
    requires KeyedBy(added, i, side)
    ensures Values(added) == Values(side)
    decreases |side|
  {
    if side != [] {
      assert added[0] == (Key(i, side[0].0), side[0].1);
      forall k | 0 <= k < |side| - 1
        ensures added[1..][k] == (Key(i, side[1..][k].0), side[1..][k].1)
      {
        assert added[k + 1] == (Key(i, side[k + 1].0), side[k + 1].1);
      }
      ValuesKeyed(added[1..], i, side[1..]);
    }
  }

  function AllValues<V>(sides: seq<Ordered<V>>): seq<V> {
    if sides == [] then [] else AllValues(sides[..|sides| - 1]) + Values(sides[|sides| - 1])
  }

  /** No side is lost: the map of all holds each side's values, side after side. */
  lemma {:induction false} NoSideIsLost<V>(sides: seq<Ordered<V>>)
    requires forall i :: 0 <= i < |sides| ==> IsMap(sides[i])
    ensures Values(PutSides(sides)) == AllValues(sides) && KeysBelow(PutSides(sides), |sides|)
  {
    if sides != [] {
      var n := |sides| - 1;
      var m := PutSides(sides[..n]);
      NoSideIsLost(sides[..n]);
      var added := SideGoesLast(m, n, sides[n]);
      ValuesConcat(m, added);
      ValuesKeyed(added, n, sides[n]);
      forall k | 0 <= k < |m + added|
        ensures exists i: nat, iid :: i < |sides| && (m + added)[k].0 == Key(i, iid)
      {
        if k < |m| {
          var i: nat, iid :| i < n && m[k].0 == Key(i, iid);
          assert (m + added)[k].0 == Key(i, iid);
        } else {
          assert (m + added)[k].0 == Key(n, sides[n][k - |m|].0);
        }
      }
    }
  }

  function Views(sides: seq<Side>): (r: seq<Ordered<string>>)
    ensures |r| == |sides| && forall i :: 0 <= i < |sides| ==> r[i] == sides[i].views
  {
    seq(|sides|, i requires 0 <= i < |sides| => sides[i].views)
  }

  function Streams(sides: seq<Side>): (r: seq<Ordered<seq<Seen>>>)
    ensures |r| == |sides| && forall i :: 0 <= i < |sides| ==> r[i] == sides[i].settled
  {
    seq(|sides|, i requires 0 <= i < |sides| => sides[i].settled)
  }

  ghost predicate AreMaps(sides: seq<Side>) {
    forall i :: 0 <= i < |sides| ==> IsMap(sides[i].views) && IsMap(sides[i].settled)
  }

  function TrialUsageAcross(parse: Parser, sides: seq<Side>): Option<Usage> {
    TrialUsage(parse, PutSides(Views(sides)), PutSides(Streams(sides)))
  }

  method PutEach<V>(m: Ordered<V>, i: nat, side: Ordered<V>) returns (m': Ordered<V>)
    ensures m' == PutSide(m, i, side)
  {
    m' := m;
    for k := 0 to |side|
      invariant m' == PutSide(m, i, side[..k])
    {
      assert side[..k + 1][..k] == side[..k];
      m' := Put(m', Key(i, side[k].0), side[k].1);
    }
    assert side[..|side|] == side;
  }

  /** `trialUsageAcross`. */
  method ReadTrialUsageAcross(parse: Parser, sides: seq<Side>) returns (usage: Option<Usage>)
    requires AreMaps(sides)
    ensures usage == TrialUsageAcross(parse, sides)
    ensures usage == Spent(AllClaims(parse, sides))
  {
    var views: Ordered<string>, settled: Ordered<seq<Seen>> := [], [];
    for i := 0 to |sides|
      invariant views == PutSides(Views(sides)[..i]) && settled == PutSides(Streams(sides)[..i])
    {
      assert Views(sides)[..i + 1][..i] == Views(sides)[..i] && Streams(sides)[..i + 1][..i] == Streams(sides)[..i];
      views := PutEach(views, i, sides[i].views);
      settled := PutEach(settled, i, sides[i].settled);
    }
    assert Views(sides)[..|sides|] == Views(sides) && Streams(sides)[..|sides|] == Streams(sides);
    usage := ReadTrialUsage(parse, views, settled);
    UsageAcrossIsSpent(parse, sides);
  }

  /** Every claim of every side, in order: all the views', then all the streams'. */
  function AllClaims(parse: Parser, sides: seq<Side>): seq<Claim> {
    Claims(parse, AllValues(Views(sides)), AllValues(Streams(sides)))
  }

  /** What a trial spent over every Harness: each Submission once, by the first usage that any side
      kept of it, also when sides share an Instance ID. */
  lemma UsageAcrossIsSpent(parse: Parser, sides: seq<Side>)
    requires AreMaps(sides)
    ensures TrialUsageAcross(parse, sides) == Spent(AllClaims(parse, sides))
    ensures TrialUsageAcross(parse, sides).None? <==> forall c :: c in AllClaims(parse, sides) ==> !Counts(c)
  {
    NoSideIsLost(Views(sides));
    NoSideIsLost(Streams(sides));
    UsageIsSpent(parse, PutSides(Views(sides)), PutSides(Streams(sides)));
    var claims := AllClaims(parse, sides);
    forall c | c in claims && Counts(c)
      ensures Ids(claims) != {}
    {
      assert c.id.value in Ids(claims);
    }
  }

  // ---- a side kept twice ---------------------------------------------------------------------------

  function SideClaims<V>(claims: V -> seq<Claim>, side: Ordered<V>): seq<Claim> { Flatten(claims, Values(side)) }

  lemma {:induction false} AllValuesConcat<V>(a: seq<Ordered<V>>, b: seq<Ordered<V>>)
    ensures AllValues(a + b) == AllValues(a) + AllValues(b)
    decreases |b|
  {
    if b == [] {
      assert a + b == a;
    } else {
      var all, n := a + b, |b| - 1;
      assert all[..|all| - 1] == a + b[..n] && all[|all| - 1] == b[n];
      AllValuesConcat(a, b[..n]);
      var x, y, z := AllValues(a), AllValues(b[..n]), Values(b[n]);
      assert (x + y) + z == x + (y + z);
      assert AllValues(b) == y + z;
    }
  }

  lemma {:induction false} FlattenConcat<A, B>(f: A -> seq<B>, a: seq<A>, b: seq<A>)
    ensures Flatten(f, a + b) == Flatten(f, a) + Flatten(f, b)
    decreases |b|
  {
    if b == [] {
      assert a + b == a;
    } else {
      var all, n := a + b, |b| - 1;
      assert all[..|all| - 1] == a + b[..n] && all[|all| - 1] == b[n];
      FlattenConcat(f, a, b[..n]);
      assert (Flatten(f, a) + Flatten(f, b[..n])) + f(b[n]) == Flatten(f, a) + (Flatten(f, b[..n]) + f(b[n]));
    }
  }

  /** The claims of three runs of sides. */
  lemma ClaimsOfThree<V>(claims: V -> seq<Claim>, a: seq<Ordered<V>>, x: Ordered<V>, b: seq<Ordered<V>>)
    ensures Flatten(claims, AllValues(a + [x] + b))
            == Flatten(claims, AllValues(a)) + SideClaims(claims, x) + Flatten(claims, AllValues(b))
  {
    AllValuesConcat(a + [x], b);
    AllValuesConcat(a, [x]);
    assert AllValues([x]) == Values(x) by { assert [x][..0] == []; }
    FlattenConcat(claims, AllValues(a + [x]), AllValues(b));
    FlattenConcat(claims, AllValues(a), Values(x));
  }

  /** A side among some has its claims among theirs. */
  lemma {:induction false} SideIsAmong<V>(claims: V -> seq<Claim>, a: seq<Ordered<V>>, k: nat, c: Claim)
    requires k < |a| && c in SideClaims(claims, a[k])
    ensures c in Flatten(claims, AllValues(a))
    decreases |a|
  {
    var n := |a| - 1;
    FlattenConcat(claims, AllValues(a[..n]), Values(a[n]));
    if k < n { SideIsAmong(claims, a[..n], k, c); }
  }

  /** Keeping a side again changes nothing, wherever it is kept again. */
  lemma AKeptSideAgain(parse: Parser, a: seq<Side>, k: nat, b: seq<Side>)
    requires AreMaps(a + b) && k < |a|
    ensures TrialUsageAcross(parse, a + [a[k]] + b) == TrialUsageAcross(parse, a + b)
  {
    var x := a[k];
    assert AreMaps(a + [x] + b) by {
      forall i | 0 <= i < |a + [x] + b|
        ensures IsMap((a + [x] + b)[i].views) && IsMap((a + [x] + b)[i].settled)
      {
        var from := if i < |a| then i else if i == |a| then k else i - 1;
        assert (a + [x] + b)[i] == (a + b)[from];
      }
    }
    UsageAcrossIsSpent(parse, a + b);
    UsageAcrossIsSpent(parse, a + [x] + b);
    SpentAgain(parse, a, k, b);
  }

  lemma SpentAgain(parse: Parser, a: seq<Side>, k: nat, b: seq<Side>)
    requires k < |a|
    ensures Spent(AllClaims(parse, a + [a[k]] + b)) == Spent(AllClaims(parse, a + b))
  {
    var x := a[k];
    var ofView := view => ViewClaims(parse, view);
    assert Views(a + [x] + b) == Views(a) + [x.views] + Views(b) && Views(a + b) == Views(a) + Views(b);
    assert Streams(a + [x] + b) == Streams(a) + [x.settled] + Streams(b) && Streams(a + b) == Streams(a) + Streams(b);
    ClaimsOfThree(ofView, Views(a), x.views, Views(b));
    ClaimsOfThree(StreamClaims, Streams(a), x.settled, Streams(b));
    ClaimsOfTwo(ofView, Views(a), Views(b));
    ClaimsOfTwo(StreamClaims, Streams(a), Streams(b));
    var va, vx, vb := Flatten(ofView, AllValues(Views(a))), SideClaims(ofView, x.views),
                      Flatten(ofView, AllValues(Views(b)));
    var sa, sx, sb := Flatten(StreamClaims, AllValues(Streams(a))), SideClaims(StreamClaims, x.settled),
                      Flatten(StreamClaims, AllValues(Streams(b)));
    forall c | c in vx ensures c in va { SideIsAmong(ofView, Views(a), k, c); }
    forall c | c in sx ensures c in sa { SideIsAmong(StreamClaims, Streams(a), k, c); }
    RepeatedTwice(va, vx, vb, sa, sx, sb);
  }

  lemma ClaimsOfTwo<V>(claims: V -> seq<Claim>, a: seq<Ordered<V>>, b: seq<Ordered<V>>)
    ensures Flatten(claims, AllValues(a + b)) == Flatten(claims, AllValues(a)) + Flatten(claims, AllValues(b))
  {
    AllValuesConcat(a, b);
    FlattenConcat(claims, AllValues(a), AllValues(b));
  }

  lemma RepeatedTwice(va: seq<Claim>, vx: seq<Claim>, vb: seq<Claim>, sa: seq<Claim>, sx: seq<Claim>, sb: seq<Claim>)
    requires (forall c :: c in vx ==> c in va) && forall c :: c in sx ==> c in sa
    ensures Spent((va + vx + vb) + (sa + sx + sb)) == Spent((va + vb) + (sa + sb))
  {
    RepeatedClaims(va, vx, vb + (sa + sx + sb));
    assert va + vx + (vb + (sa + sx + sb)) == (va + vx + vb) + (sa + sx + sb);
    RepeatedClaims(va + vb + sa, sx, sb);
    assert (va + vb + sa) + sx + sb == va + (vb + (sa + sx + sb));
    assert (va + vb + sa) + sb == (va + vb) + (sa + sb);
  }

  // ---- which settlements count ---------------------------------------------------------------------

  /** What the views say of a Submission is counted before what the streams say. */
  lemma ViewsComeFirst(parse: Parser, views: seq<string>, streams: seq<seq<Seen>>, id: string)
    requires id in Ids(Flatten(view => ViewClaims(parse, view), views))
    ensures id in Ids(Claims(parse, views, streams))
    ensures FirstUsage(Claims(parse, views, streams), id)
            == FirstUsage(Flatten(view => ViewClaims(parse, view), views), id)
  {
    var viewed, streamed := Flatten(view => ViewClaims(parse, view), views), Flatten(StreamClaims, streams);
    IdsConcat(viewed, streamed);
    FirstConcat(viewed, streamed, id);
  }

  lemma AllOfOne<V>(m: Ordered<V>)
    ensures AllValues([m]) == Values(m)
  {
    assert [m][..0] == [];
  }

  lemma FlattenOne<A, B>(f: A -> seq<B>, x: A)
    ensures Flatten(f, [x]) == f(x) && Flatten(f, []) == []
  {
    assert [x][..0] == [];
  }

  /** A side with one view and no stream claims what that view holds. */
  lemma OneViewClaims(parse: Parser, iid: string, view: string)
    ensures AllClaims(parse, [Side([(iid, view)], [])]) == ViewClaims(parse, view)
  {
    var side := Side([(iid, view)], []);
    AllOfOne(side.views);
    AllOfOne(side.settled);
    assert Views([side]) == [side.views] && Streams([side]) == [side.settled];
    assert Values(side.views) == [view] && Values(side.settled) == [];
    FlattenOne(v => ViewClaims(parse, v), view);
    FlattenOne(StreamClaims, []);
    assert ViewClaims(parse, view) + [] == ViewClaims(parse, view);
  }

  lemma OneClaim(c: Claim)
    ensures Spent([c]) == if Counts(c) then UsageOf(c.usage) else None
  {
    if Counts(c) {
      var id := c.id.value;
      assert Ids([c]) == {id};
      SumAny({id}, [c], id);
      assert {id} - {id} == {};
      AddNothing(UsageOf(c.usage).value);
    } else {
      assert Ids([c]) == {};
    }
  }

  lemma AddNothing(u: Usage)
    ensures Add(u, NO_USAGE) == u
  {
  }

  /** The usage of the one settlement of a view that is a 200 is what was spent, when its ID is a string. */
  lemma AViewIsSpent(parse: Parser, iid: string, when: string, body: string, id: Id, u: Usage)
    requires Free(when, '\n') && parse(body) == Some([Held(id, AsValue(u))])
    ensures TrialUsageAcross(parse, [Side([(iid, "read at " + when + "\nHTTP 200\n" + body)], [])])
            == if id.IsString? then Some(u) else None
  {
    var view := "read at " + when + "\nHTTP 200\n" + body;
    var sides := [Side([(iid, view)], [])];
    AViewIsRead(parse, when, body);
    var c := OfHeld(Held(id, AsValue(u)));
    assert ViewClaims(parse, view) == [c];
    OneViewClaims(parse, iid, view);
    UsageAcrossIsSpent(parse, sides);
    OneClaim(c);
  }

  /** And a text that is no such view says nothing. */
  lemma AnotherTextIsNotSpent(parse: Parser, iid: string, view: string)
    requires forall when, body :: Free(when, '\n') ==> view != "read at " + when + "\nHTTP 200\n" + body
    ensures TrialUsageAcross(parse, [Side([(iid, view)], [])]) == None
  {
    if ViewSettlements(parse, view).Some? { OnlyA200IsRead(parse, view); }
    OneViewClaims(parse, iid, view);
    UsageAcrossIsSpent(parse, [Side([(iid, view)], [])]);
    assert Ids([]) == {};
  }

  /** The usage of the one settlement of a stream is what was spent, when it carries one. */
  lemma AStreamIsSpent(parse: Parser, iid: string, s: Seen)
    ensures TrialUsageAcross(parse, [Side([], [(iid, [s])])])
            == if s.usage.Some? then UsageOf(s.usage.value) else None
  {
    var side := Side([], [(iid, [s])]);
    AllOfOne(side.views);
    AllOfOne(side.settled);
    assert Views([side]) == [side.views] && Streams([side]) == [side.settled];
    assert Values(side.views) == [] && Values(side.settled) == [[s]];
    FlattenOne(v => ViewClaims(parse, v), "");
    FlattenOne(StreamClaims, [s]);
    assert StreamClaims([s]) == [OfSeen(s)];
    assert AllClaims(parse, [side]) == [OfSeen(s)];
    UsageAcrossIsSpent(parse, [side]);
    OneClaim(OfSeen(s));
  }
}
