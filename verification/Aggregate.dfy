/**
  telemetry/aggregate.go: calls are added one by one to an aggregator, which holds one accumulator for all of them and
  one for each key of six dimensions, and a report is made of what it holds. Costs are added with a function nothing is
  known about, so a report can forget the order of the calls only by putting their costs in an order of its own.
 */
module Aggregate {
  import opened Wrappers
  import opened Calls
  import opened Sorting
  import opened Text

  datatype Arithmetic = Arithmetic(zero: Cost, add: (Cost, Cost) -> Cost)

  datatype Dimension = BySource | ByRole | ByModel | ByProject | ByDay | ByAgentType

  const DIMENSIONS := [BySource, ByRole, ByModel, ByProject, ByDay, ByAgentType]

  // The sums an accumulator keeps.
  datatype Sums = Sums(calls: int, input: int, cacheRead: int, cacheWrite: int, output: int, reasoning: int,
                       contextTokens: int, costCalls: int, estimatedCalls: int)

  const NOTHING := Sums(0, 0, 0, 0, 0, 0, 0, 0, 0)

  function Plus(a: Sums, b: Sums): Sums {
    Sums(a.calls + b.calls, a.input + b.input, a.cacheRead + b.cacheRead, a.cacheWrite + b.cacheWrite,
         a.output + b.output, a.reasoning + b.reasoning, a.contextTokens + b.contextTokens,
         a.costCalls + b.costCalls, a.estimatedCalls + b.estimatedCalls)
  }

  // The prices of a user give a call with no recorded cost an estimate, or none.
  function Estimate(prices: Call -> Option<Cost>, c: Call): Option<Cost> {
    if c.cost.Some? then None else prices(c)
  }

  function ContextOf(c: Call): int {
    c.input + c.cacheRead + c.cacheWrite
  }

  function KeyOf(d: Dimension, c: Call): string {
    match d
    case BySource => c.source
    case ByRole => c.role
    case ByModel => c.model
    case ByProject => c.project
    case ByDay => c.day
    case ByAgentType => if c.agentType == "" then "(none)" else c.agentType
  }

  // --- what a group of calls amounts to ---

  function Known(v: Option<Cost>): int {
    if v.Some? then 1 else 0
  }

  function One(prices: Call -> Option<Cost>, c: Call): Sums {
    Sums(1, c.input, c.cacheRead, c.cacheWrite, c.output, c.reasoning, ContextOf(c), Known(c.cost),
         Known(Estimate(prices, c)))
  }

  function SumsOf(prices: Call -> Option<Cost>, cs: seq<Call>): Sums {
    if cs == [] then NOTHING else Plus(SumsOf(prices, cs[..|cs| - 1]), One(prices, cs[|cs| - 1]))
  }

  // The values that are there, in order.
  function Collect<T>(f: Call -> Option<T>, cs: seq<Call>): seq<T> {
    if cs == [] then []
    else
      var v := f(cs[|cs| - 1]);
      Collect(f, cs[..|cs| - 1]) + if v.Some? then [v.value] else []
  }

  function RecordedOf(): Call -> Option<int> {
    (c: Call) => c.cost
  }

  function EstimateOf(prices: Call -> Option<Cost>): Call -> Option<int> {
    (c: Call) => Estimate(prices, c)
  }

  function ContextsOf(): Call -> Option<int> {
    (c: Call) => Some(ContextOf(c))
  }

  function WithKey(d: Dimension, key: string): Call -> Option<Call> {
    (c: Call) => if KeyOf(d, c) == key then Some(c) else None
  }

  // The calls with one key.
  function Members(d: Dimension, key: string, cs: seq<Call>): seq<Call> {
    Collect(WithKey(d, key), cs)
  }

  predicate HasKey(d: Dimension, key: string, cs: seq<Call>) {
    exists i :: 0 <= i < |cs| && KeyOf(d, cs[i]) == key
  }

  function Keys(d: Dimension, cs: seq<Call>): set<string> {
    set i | 0 <= i < |cs| :: KeyOf(d, cs[i])
  }

  // --- a report ---

  datatype Distribution = Distribution(p5: int, p25: int, p50: int, p90: int, max: int)

  datatype Group = Group(key: string, sums: Sums, cost: Option<Cost>, estimated: Option<Cost>,
                         cacheReadShare: Option<real>, contextPerOutput: Option<real>, contextPerCall: Option<real>,
                         distribution: Option<Distribution>)

  datatype Report = Report(summary: Group, groups: map<Dimension, seq<Group>>)

  function Ratio(numerator: int, denominator: int): (r: Option<real>)
    ensures r.None? <==> denominator == 0
    ensures r.Some? ==> r.value * denominator as real == numerator as real
  {
    if denominator == 0 then None else Some(numerator as real / denominator as real)
  }

  function SumFrom(a: Arithmetic, costs: seq<Cost>): Cost {
    if costs == [] then a.zero else a.add(SumFrom(a, costs[..|costs| - 1]), costs[|costs| - 1])
  }

  function Canonical(a: Arithmetic, values: seq<Cost>): Option<Cost> {
    if values == [] then None else Some(SumFrom(a, Sorted(values)))
  }

  method CanonicalCost(a: Arithmetic, values: seq<Cost>) returns (r: Option<Cost>)
    ensures r == Canonical(a, values)
  {
    if |values| == 0 { return None; }
    var costs := SortInts(values);
    var sum := a.zero;
    for i := 0 to |costs|
      invariant sum == SumFrom(a, costs[..i])
    {
      assert costs[..i + 1][..i] == costs[..i];
      sum := a.add(sum, costs[i]);
    }
    assert costs[..|costs|] == costs;
    return Some(sum);
  }

  // The place of a percentile in n sorted values: ceil(p / 100 * n), from one, less one.
  function Rank(p: int, n: int): (i: int)
    requires 0 < p <= 100 && 0 < n
    ensures 0 <= i < n && 100 * i < p * n <= 100 * (i + 1)
  {
    assert p * n > 0 && p * n <= 100 * n by { Scale(p, n); }
    (p * n + 99) / 100 - 1
  }

  lemma Scale(p: int, n: int)
    requires 0 < p <= 100 && 0 < n
    ensures 0 < p * n <= 100 * n
  {
  }

  function DistributionOf(contexts: seq<int>): Option<Distribution> {
    if contexts == [] then None
    else
      SortedRises(contexts);
      var s, n := Sorted(contexts), |contexts|;
      Some(Distribution(s[Rank(5, n)], s[Rank(25, n)], s[Rank(50, n)], s[Rank(90, n)], s[n - 1]))
  }

  function GroupOf(prices: Call -> Option<Cost>, a: Arithmetic, key: string, cs: seq<Call>): Group {
    var t := SumsOf(prices, cs);
    Group(key, t, Canonical(a, Collect(RecordedOf(), cs)), Canonical(a, Collect(EstimateOf(prices), cs)),
          Ratio(t.cacheRead, t.contextTokens), Ratio(t.contextTokens, t.output), Ratio(t.contextTokens, t.calls),
          DistributionOf(Collect(ContextsOf(), cs)))
  }

  // The keys of a dimension, sorted.
  ghost function SortedKeys(d: Dimension, cs: seq<Call>): (keys: seq<string>)
    ensures Lists(Less, keys, Keys(d, cs))
  {
    StringsAreTotal(Keys(d, cs));
    Listing(Less, Keys(d, cs))
  }

  function GroupsOf(prices: Call -> Option<Cost>, a: Arithmetic, d: Dimension, keys: seq<string>,
          cs: seq<Call>): (r: seq<Group>)
    ensures |r| == |keys|
  {
    seq(|keys|, i requires 0 <= i < |keys| => GroupOf(prices, a, keys[i], Members(d, keys[i], cs)))
  }

  // What a report says of the calls: nothing of it depends on how they were added.
  ghost function ReportOf(prices: Call -> Option<Cost>, a: Arithmetic, cs: seq<Call>): Report {
    Report(GroupOf(prices, a, "all", cs),
           map d: Dimension | d in DIMENSIONS :: GroupsOf(prices, a, d, SortedKeys(d, cs), cs))
  }

  // --- an accumulator ---

  class Accumulator {
    var sums: Sums
    var contexts: seq<int>
    var costs: seq<Cost>
    var estimates: seq<Cost>
    // The dimension and the key it is for; none for the summary. No two of an aggregator have one owner.
    ghost const owner: Option<(Dimension, string)>

    // The accumulator has been given exactly these calls.
    ghost predicate Holds(prices: Call -> Option<Cost>, cs: seq<Call>)
      reads this
    {
      && sums == SumsOf(prices, cs)
      && contexts == Collect(ContextsOf(), cs)
      && costs == Collect(RecordedOf(), cs)
      && estimates == Collect(EstimateOf(prices), cs)
    }

    constructor (ghost owner: Option<(Dimension, string)>, ghost prices: Call -> Option<Cost>)
      ensures this.owner == owner && Holds(prices, [])
    {
      this.owner := owner;
      sums, contexts, costs, estimates := NOTHING, [], [], [];
    }

    method Add(c: Call, estimate: Option<Cost>, ghost prices: Call -> Option<Cost>, ghost cs: seq<Call>)
      requires Holds(prices, cs) && estimate == Estimate(prices, c)
      modifies this
      ensures Holds(prices, cs + [c])
    {
      assert (cs + [c])[..|cs|] == cs;
      var context := c.input + c.cacheRead + c.cacheWrite;
      sums := sums.(calls := sums.calls + 1, input := sums.input + c.input, cacheRead := sums.cacheRead + c.cacheRead,
                    cacheWrite := sums.cacheWrite + c.cacheWrite, output := sums.output + c.output,
                    reasoning := sums.reasoning + c.reasoning, contextTokens := sums.contextTokens + context);
      contexts := contexts + [context];
      if c.cost.Some? {
        costs := costs + [c.cost.value];
        sums := sums.(costCalls := sums.costCalls + 1);
      }
      if estimate.Some? {
        estimates := estimates + [estimate.value];
        sums := sums.(estimatedCalls := sums.estimatedCalls + 1);
      }
    }

    method MakeGroup(key: string, a: Arithmetic, ghost prices: Call -> Option<Cost>, ghost cs: seq<Call>)
      returns (g: Group)
      requires Holds(prices, cs)
      ensures g == GroupOf(prices, a, key, cs)
    {
      var cost := CanonicalCost(a, costs);
      var estimated := CanonicalCost(a, estimates);
      var distribution: Option<Distribution> := None;
      if |contexts| > 0 {
        var s := SortInts(contexts);
        SortedRises(contexts);
        var n := |s|;
        distribution := Some(Distribution(s[Rank(5, n)], s[Rank(25, n)], s[Rank(50, n)], s[Rank(90, n)], s[n - 1]));
      }
      return Group(key, sums, cost, estimated, Ratio(sums.cacheRead, sums.contextTokens),
                   Ratio(sums.contextTokens, sums.output), Ratio(sums.contextTokens, sums.calls), distribution);
    }
  }

  // --- an aggregator ---

  class Aggregator {
    const prices: Call -> Option<Cost>
    const arithmetic: Arithmetic
    const summary: Accumulator
    var groups: map<Dimension, map<string, Accumulator>>
    ghost var Repr: set<Accumulator>

    // Each key has an accumulator of its own, in each dimension.
    ghost predicate Shape()
      reads this
    {
      && summary in Repr && summary.owner == None
      && (forall d: Dimension :: d in groups)
      && forall d, k :: d in groups && k in groups[d] ==> groups[d][k] in Repr && groups[d][k].owner == Some((d, k))
    }

    // The accumulators of a dimension have been given these calls.
    ghost predicate Dim(d: Dimension, cs: seq<Call>)
      reads this, Repr
      requires Shape()
    {
      && (forall k :: k in groups[d] <==> HasKey(d, k, cs))
      && forall k :: k in groups[d] ==> groups[d][k].Holds(prices, Members(d, k, cs))
    }

    // The aggregator has been given exactly these calls.
    ghost predicate Holds(cs: seq<Call>)
      reads this, Repr
    {
      Shape() && summary.Holds(prices, cs) && forall d: Dimension :: Dim(d, cs)
    }

    constructor (prices: Call -> Option<Cost>, arithmetic: Arithmetic)
      ensures Holds([]) && fresh(Repr) && this.prices == prices && this.arithmetic == arithmetic
    {
      this.prices, this.arithmetic := prices, arithmetic;
      var first := new Accumulator(None, prices);
      this.summary, this.Repr := first, {first};
      this.groups := map[BySource := map[], ByRole := map[], ByModel := map[], ByProject := map[], ByDay := map[],
                         ByAgentType := map[]];
      new;
      forall d: Dimension
        ensures d in groups
      {
        match d
        case BySource =>
        case ByRole =>
        case ByModel =>
        case ByProject =>
        case ByDay =>
        case ByAgentType =>
      }
    }

    // As Dim, and key has an accumulator too.
    ghost predicate DimWith(d: Dimension, key: string, cs: seq<Call>)
      reads this, Repr
      requires Shape()
    {
      && (forall k :: k in groups[d] <==> HasKey(d, k, cs) || k == key)
      && forall k :: k in groups[d] ==> groups[d][k].Holds(prices, Members(d, k, cs))
    }

    // Makes an accumulator for a key that has none.
    method Make(d: Dimension, key: string) returns (cell: Accumulator)
      requires Shape() && key !in groups[d]
      modifies this`groups, this`Repr
      ensures Shape() && fresh(cell) && cell.Holds(prices, []) && Repr == old(Repr) + {cell}
      ensures groups == old(groups)[d := old(groups)[d][key := cell]]
    {
      hide Accumulator.Holds;
      cell := new Accumulator(Some((d, key)), prices);
      Repr := Repr + {cell};
      groups := groups[d := groups[d][key := cell]];
    }

    method MakeFor(d: Dimension, key: string, ghost cs: seq<Call>)
      requires Shape() && Dim(d, cs) && key !in groups[d]
      modifies this`groups, this`Repr
      ensures Shape() && DimWith(d, key, cs) && Repr >= old(Repr) && fresh(Repr - old(Repr))
      ensures forall e :: e != d ==> groups[e] == old(groups[e])
    {
      hide HasKey, Members, Accumulator.Holds;
      NoMembers(d, key, cs);
      var cell := Make(d, key);
      assert groups[d] == old(groups[d])[key := cell];
      forall k | k in groups[d]
        ensures groups[d][k].Holds(prices, Members(d, k, cs))
      {
        assert k != key ==> groups[d][k] == old(groups[d][k]);
      }
    }

    // Gives a call to the accumulator of its key.
    method Give(d: Dimension, key: string, c: Call, estimate: Option<Cost>, ghost cs: seq<Call>)
      requires Shape() && key == KeyOf(d, c) && DimWith(d, key, cs) && estimate == Estimate(prices, c)
      modifies Repr
      ensures Shape() && Dim(d, cs + [c])
      ensures forall a :: a in Repr && a.owner != Some((d, key)) ==> unchanged(a)
    {
      MembersOfMore(d, cs, c);
      hide Members, HasKey, KeyOf, Accumulator.Holds;
      groups[d][key].Add(c, estimate, prices, Members(d, key, cs));
      forall k | k in groups[d]
        ensures groups[d][k].Holds(prices, Members(d, k, cs + [c]))
      {
        assert k != key ==> groups[d][k].owner != Some((d, key));
      }
    }

    // One dimension of Add: of the accumulators there were, it changes at most the one of the key.
    method AddTo(d: Dimension, key: string, c: Call, estimate: Option<Cost>, ghost cs: seq<Call>)
      requires Shape() && Dim(d, cs) && key == KeyOf(d, c) && estimate == Estimate(prices, c)
      modifies this`groups, this`Repr, Repr
      ensures Shape() && Dim(d, cs + [c]) && Repr >= old(Repr) && fresh(Repr - old(Repr))
      ensures forall e :: e != d ==> groups[e] == old(groups[e])
      ensures forall a :: a in old(Repr) && a.owner != Some((d, key)) ==> unchanged(a)
    {
      hide KeyOf, HasKey, Members, Accumulator.Holds;
      if key !in groups[d] { MakeFor(d, key, cs); }
      hide Dim, DimWith;
      Give(d, key, c, estimate, cs);
    }

    method Add(c: Call, ghost cs: seq<Call>)
      requires Holds(cs)
      modifies this`groups, this`Repr, Repr
      ensures Holds(cs + [c]) && Repr >= old(Repr) && fresh(Repr - old(Repr))
    {
      hide Accumulator.Holds, Members, HasKey, KeyOf;
      var estimate := Estimate(prices, c);
      summary.Add(c, estimate, prices, cs);
      AllDimensions();
      forall d: Dimension
        ensures Dim(d, cs)
      {
        assert old(Dim(d, cs));
        forall k | k in groups[d]
          ensures groups[d][k].Holds(prices, Members(d, k, cs))
        {
          assert groups[d][k].owner != summary.owner;
        }
      }
      AddToEach(c, estimate, cs);
    }

    // The loop of Add.
    method AddToEach(c: Call, estimate: Option<Cost>, ghost cs: seq<Call>)
      requires Shape() && summary.Holds(prices, cs + [c]) && estimate == Estimate(prices, c)
      requires forall d: Dimension :: Dim(d, cs)
      modifies this`groups, this`Repr, Repr
      ensures Holds(cs + [c]) && Repr >= old(Repr) && fresh(Repr - old(Repr))
    {
      hide Accumulator.Holds, Members, HasKey, KeyOf;
      AllDimensions();
      for i := 0 to |DIMENSIONS|
        invariant Shape() && Repr >= old(Repr) && fresh(Repr - old(Repr)) && summary.Holds(prices, cs + [c])
        invariant forall j :: 0 <= j < |DIMENSIONS| ==> Dim(DIMENSIONS[j], if j < i then cs + [c] else cs)
      {
        label Before:
        var d := DIMENSIONS[i];
        AddTo(d, KeyOf(d, c), c, estimate, cs);
        forall j | 0 <= j < |DIMENSIONS| && j != i
          ensures Dim(DIMENSIONS[j], if j < i then cs + [c] else cs)
        {
          var e, x := DIMENSIONS[j], if j < i then cs + [c] else cs;
          assert old@Before(Dim(e, x)) && groups[e] == old@Before(groups[e]);
          forall k | k in groups[e]
            ensures groups[e][k].Holds(prices, Members(e, k, x))
          {
            assert groups[e][k].owner != Some((d, KeyOf(d, c)));
          }
        }
      }
      forall d: Dimension
        ensures Dim(d, cs + [c])
      {
        assert d in DIMENSIONS;
        var j :| 0 <= j < |DIMENSIONS| && DIMENSIONS[j] == d;
        assert Dim(DIMENSIONS[j], if j < |DIMENSIONS| then cs + [c] else cs);
      }
    }

    // The keys of one dimension, whatever order they come in.
    method KeyList(d: Dimension, ghost cs: seq<Call>) returns (keys: seq<string>)
      requires Holds(cs)
      ensures keys == SortedKeys(d, cs)
    {
      var all := groups[d].Keys;
      KeysAre(d, cs, all);
      hide Holds, Dim, Shape, HasKey, Keys, Less;
      var list, todo := [], all;
      while todo != {}
        invariant todo <= all && forall k :: k in list <==> k in all - todo
        invariant forall i, j :: 0 <= i < j < |list| ==> list[i] != list[j]
      {
        var k :| k in todo;
        assert forall i :: 0 <= i < |list| ==> list[i] in list && list[i] != k;
        todo := todo - {k};
        list := list + [k];
      }
      StringsAreTotal(all);
      keys := Sort(Less, list, all);
    }

    lemma KeysAre(d: Dimension, cs: seq<Call>, all: set<string>)
      requires Holds(cs) && all == groups[d].Keys
      ensures all == Keys(d, cs)
    {
      hide Accumulator.Holds, Members;
      assert Dim(d, cs);
    }

    // The groups of one dimension.
    method Groups(d: Dimension, ghost cs: seq<Call>) returns (r: seq<Group>)
      requires Holds(cs)
      ensures r == GroupsOf(prices, arithmetic, d, SortedKeys(d, cs), cs)
    {
      hide Accumulator.Holds, GroupOf, Members, KeyOf, Less;
      var keys := KeyList(d, cs);
      r := [];
      for i := 0 to |keys|
        invariant r == GroupsOf(prices, arithmetic, d, keys[..i], cs)
      {
        var k := keys[i];
        assert k in Keys(d, cs);
        assert Dim(d, cs) && k in groups[d];
        var g := groups[d][k].MakeGroup(k, arithmetic, prices, Members(d, k, cs));
        assert keys[..i + 1] == keys[..i] + [k];
        r := r + [g];
      }
      assert keys[..|keys|] == keys;
    }

    // Report: an independent snapshot.
    method MakeReport(ghost cs: seq<Call>) returns (r: Report)
      requires Holds(cs)
      ensures r == ReportOf(prices, arithmetic, cs)
    {
      hide Accumulator.Holds, GroupOf, GroupsOf, Dim, Shape;
      var all := summary.MakeGroup("all", arithmetic, prices, cs);
      var lists: map<Dimension, seq<Group>> := map[];
      for i := 0 to |DIMENSIONS|
        invariant lists == map d: Dimension | d in DIMENSIONS[..i] ::
                    GroupsOf(prices, arithmetic, d, SortedKeys(d, cs), cs)
      {
        var d := DIMENSIONS[i];
        var list := Groups(d, cs);
        assert DIMENSIONS[..i + 1] == DIMENSIONS[..i] + [d];
        lists := lists[d := list];
      }
      assert DIMENSIONS[..|DIMENSIONS|] == DIMENSIONS;
      return Report(all, lists);
    }
  }

  lemma AllDimensions()
    ensures forall d: Dimension :: d in DIMENSIONS
    ensures forall i, j :: 0 <= i < j < |DIMENSIONS| ==> DIMENSIONS[i] != DIMENSIONS[j]
  {
    forall d: Dimension
      ensures d in DIMENSIONS
    {
      match d
      case BySource => assert DIMENSIONS[0] == d;
      case ByRole => assert DIMENSIONS[1] == d;
      case ByModel => assert DIMENSIONS[2] == d;
      case ByProject => assert DIMENSIONS[3] == d;
      case ByDay => assert DIMENSIONS[4] == d;
      case ByAgentType => assert DIMENSIONS[5] == d;
    }
  }

  lemma MembersOfMore(d: Dimension, cs: seq<Call>, c: Call)
    ensures forall k :: HasKey(d, k, cs + [c]) <==> HasKey(d, k, cs) || k == KeyOf(d, c)
    ensures forall k :: Members(d, k, cs + [c]) ==
                        if KeyOf(d, c) == k then Members(d, k, cs) + [c] else Members(d, k, cs)
  {
    var now := cs + [c];
    assert now[..|cs|] == cs;
    forall k
      ensures HasKey(d, k, now) <==> HasKey(d, k, cs) || k == KeyOf(d, c)
    {
      if i :| 0 <= i < |cs| && KeyOf(d, cs[i]) == k { assert now[i] == cs[i]; }
      assert now[|cs|] == c;
    }
  }

  lemma {:induction false} NoMembers(d: Dimension, key: string, cs: seq<Call>)
    requires !HasKey(d, key, cs)
    ensures Members(d, key, cs) == []
  {
    if cs != [] {
      assert cs == cs[..|cs| - 1] + [cs[|cs| - 1]];
      MembersOfMore(d, cs[..|cs| - 1], cs[|cs| - 1]);
      NoMembers(d, key, cs[..|cs| - 1]);
    }
  }

  // --- a report forgets the order of the calls ---

  lemma PlusLaws(a: Sums, b: Sums, c: Sums)
    ensures Plus(a, b) == Plus(b, a) && Plus(Plus(a, b), c) == Plus(a, Plus(b, c)) && Plus(a, NOTHING) == a
  {
  }

  // Where the last of a sequence is in another with the same elements.
  lemma TakeOut(front: seq<Call>, c: Call, b: seq<Call>) returns (x: seq<Call>, y: seq<Call>)
    requires multiset(front + [c]) == multiset(b)
    ensures b == x + [c] + y && multiset(front) == multiset(x + y)
  {
    assert c in multiset(front + [c]);
    var i :| 0 <= i < |b| && b[i] == c;
    x, y := b[..i], b[i + 1..];
    assert b == x + [c] + y;
    assert multiset(front) == multiset(front + [c]) - multiset{c};
    assert multiset(x + y) == multiset(x + [c] + y) - multiset{c};
  }

  lemma SumsOfMore(prices: Call -> Option<Cost>, cs: seq<Call>, c: Call)
    ensures SumsOf(prices, cs + [c]) == Plus(SumsOf(prices, cs), One(prices, c))
  {
    assert (cs + [c])[..|cs|] == cs;
  }

  lemma {:induction false} SumsPlus(prices: Call -> Option<Cost>, a: seq<Call>, b: seq<Call>)
    ensures SumsOf(prices, a + b) == Plus(SumsOf(prices, a), SumsOf(prices, b))
  {
    if b == [] {
      assert a + b == a && SumsOf(prices, b) == NOTHING;
      hide SumsOf;
      PlusLaws(SumsOf(prices, a), NOTHING, NOTHING);
    } else {
      hide SumsOf, One, Plus;
      var front, c := b[..|b| - 1], b[|b| - 1];
      SumsPlus(prices, a, front);
      assert b == front + [c] && a + b == (a + front) + [c];
      SumsOfMore(prices, front, c);
      SumsOfMore(prices, a + front, c);
      PlusLaws(SumsOf(prices, a), SumsOf(prices, front), One(prices, c));
    }
  }

  lemma SumsOne(prices: Call -> Option<Cost>, c: Call)
    ensures SumsOf(prices, [c]) == One(prices, c)
  {
    assert [c][..0] == [];
  }

  lemma SumsSwap(prices: Call -> Option<Cost>, x: seq<Call>, c: Call, y: seq<Call>)
    ensures SumsOf(prices, x + [c] + y) == Plus(SumsOf(prices, x + y), One(prices, c))
  {
    SumsOne(prices, c);
    hide SumsOf, One, Plus;
    SumsPlus(prices, x + [c], y);
    SumsPlus(prices, x, [c]);
    SumsPlus(prices, x, y);
    Exchange(SumsOf(prices, x), One(prices, c), SumsOf(prices, y));
  }

  lemma {:induction false} SumsForgetOrder(prices: Call -> Option<Cost>, a: seq<Call>, b: seq<Call>)
    requires multiset(a) == multiset(b)
    ensures SumsOf(prices, a) == SumsOf(prices, b)
    decreases |a|
  {
    if a == [] {
      assert |multiset(b)| == 0;
    } else {
      var front, c := a[..|a| - 1], a[|a| - 1];
      assert a == front + [c];
      hide SumsOf, One, Plus;
      var x, y := TakeOut(front, c, b);
      SumsForgetOrder(prices, front, x + y);
      SumsSwap(prices, x, c, y);
      SumsSwap(prices, front, c, []);
      assert front + [c] + [] == a && front + [] == front;
    }
  }

  lemma Exchange(x: Sums, c: Sums, y: Sums)
    ensures Plus(Plus(x, c), y) == Plus(Plus(x, y), c)
  {
  }

  lemma {:induction false} CollectPlus<T>(f: Call -> Option<T>, a: seq<Call>, b: seq<Call>)
    ensures Collect(f, a + b) == Collect(f, a) + Collect(f, b)
  {
    if b == [] {
      assert a + b == a;
    } else {
      var n := |b| - 1;
      CollectPlus(f, a, b[..n]);
      assert (a + b)[..|a| + n] == a + b[..n];
    }
  }

  lemma CollectBag<T>(f: Call -> Option<T>, x: seq<Call>, c: Call, y: seq<Call>)
    ensures multiset(Collect(f, x + [c] + y)) == multiset(Collect(f, x + y)) + multiset(Collect(f, [c]))
  {
    CollectPlus(f, x + [c], y);
    CollectPlus(f, x, [c]);
    CollectPlus(f, x, y);
  }

  lemma {:induction false} CollectForgetsOrder<T>(f: Call -> Option<T>, a: seq<Call>, b: seq<Call>)
    requires multiset(a) == multiset(b)
    ensures multiset(Collect(f, a)) == multiset(Collect(f, b))
    decreases |a|
  {
    if a == [] {
      assert |multiset(b)| == 0;
    } else {
      var front, c := a[..|a| - 1], a[|a| - 1];
      assert a == front + [c];
      hide Collect;
      var x, y := TakeOut(front, c, b);
      CollectForgetsOrder(f, front, x + y);
      CollectBag(f, x, c, y);
      CollectBag(f, front, c, []);
      assert front + [c] + [] == a && front + [] == front;
    }
  }

  lemma MembersForgetOrder(d: Dimension, key: string, a: seq<Call>, b: seq<Call>)
    requires multiset(a) == multiset(b)
    ensures multiset(Members(d, key, a)) == multiset(Members(d, key, b))
  {
    CollectForgetsOrder(WithKey(d, key), a, b);
  }

  lemma GroupForgetsOrder(prices: Call -> Option<Cost>, a: Arithmetic, key: string, x: seq<Call>, y: seq<Call>)
    requires multiset(x) == multiset(y)
    ensures GroupOf(prices, a, key, x) == GroupOf(prices, a, key, y)
  {
    SumsForgetOrder(prices, x, y);
    CollectForgetsOrder(RecordedOf(), x, y);
    CollectForgetsOrder(EstimateOf(prices), x, y);
    CollectForgetsOrder(ContextsOf(), x, y);
    CanonicalForgetsOrder(a, Collect(RecordedOf(), x), Collect(RecordedOf(), y));
    CanonicalForgetsOrder(a, Collect(EstimateOf(prices), x), Collect(EstimateOf(prices), y));
    DistributionForgetsOrder(Collect(ContextsOf(), x), Collect(ContextsOf(), y));
  }

  lemma CanonicalForgetsOrder(a: Arithmetic, x: seq<Cost>, y: seq<Cost>)
    requires multiset(x) == multiset(y)
    ensures Canonical(a, x) == Canonical(a, y)
  {
    SortedForgetsOrder(x, y);
    assert |multiset(x)| == |x| && |multiset(y)| == |y|;
  }

  lemma DistributionForgetsOrder(x: seq<int>, y: seq<int>)
    requires multiset(x) == multiset(y)
    ensures DistributionOf(x) == DistributionOf(y)
  {
    SortedForgetsOrder(x, y);
    assert |multiset(x)| == |x| && |multiset(y)| == |y|;
  }

  lemma KeysForgetOrder(d: Dimension, a: seq<Call>, b: seq<Call>)
    requires multiset(a) == multiset(b)
    ensures Keys(d, a) <= Keys(d, b)
  {
    forall i | 0 <= i < |a|
      ensures KeyOf(d, a[i]) in Keys(d, b)
    {
      assert a[i] in multiset(b);
      var j :| 0 <= j < |b| && b[j] == a[i];
    }
  }

  /** Two orders of the same calls give the same report, costs included, whatever adding costs does. */
  lemma ReportForgetsOrder(prices: Call -> Option<Cost>, a: Arithmetic, x: seq<Call>, y: seq<Call>)
    requires multiset(x) == multiset(y)
    ensures ReportOf(prices, a, x) == ReportOf(prices, a, y)
  {
    hide GroupOf, Members, Keys, SortedKeys;
    GroupForgetsOrder(prices, a, "all", x, y);
    forall d | d in DIMENSIONS
      ensures GroupsOf(prices, a, d, SortedKeys(d, x), x) == GroupsOf(prices, a, d, SortedKeys(d, y), y)
    {
      KeysForgetOrder(d, x, y);
      KeysForgetOrder(d, y, x);
      StringsAreTotal(Keys(d, x));
      OneListing(Less, SortedKeys(d, x), SortedKeys(d, y), Keys(d, x));
      var keys := SortedKeys(d, x);
      forall i | 0 <= i < |keys|
        ensures GroupOf(prices, a, keys[i], Members(d, keys[i], x)) ==
                  GroupOf(prices, a, keys[i], Members(d, keys[i], y))
      {
        MembersForgetOrder(d, keys[i], x, y);
        GroupForgetsOrder(prices, a, keys[i], Members(d, keys[i], x), Members(d, keys[i], y));
      }
    }
  }

  // --- the groups of a dimension are a partition ---

  ghost predicate Distinct(keys: seq<string>) {
    forall i, j :: 0 <= i < j < |keys| ==> keys[i] != keys[j]
  }

  function SumGroups(groups: seq<Group>): Sums {
    if groups == [] then NOTHING else Plus(SumGroups(groups[..|groups| - 1]), groups[|groups| - 1].sums)
  }

  function KeyedSums(prices: Call -> Option<Cost>, d: Dimension, keys: seq<string>, cs: seq<Call>): Sums {
    if keys == [] then NOTHING
    else
      var n := |keys| - 1;
      Plus(KeyedSums(prices, d, keys[..n], cs), SumsOf(prices, Members(d, keys[n], cs)))
  }

  function KeyedBag<T(==)>(f: Call -> Option<T>, d: Dimension, keys: seq<string>, cs: seq<Call>): multiset<T> {
    if keys == [] then multiset{}
    else
      var n := |keys| - 1;
      KeyedBag(f, d, keys[..n], cs) + multiset(Collect(f, Members(d, keys[n], cs)))
  }

  lemma {:induction false} GroupsAddUp(prices: Call -> Option<Cost>, a: Arithmetic, d: Dimension, keys: seq<string>,
          cs: seq<Call>)
    ensures SumGroups(GroupsOf(prices, a, d, keys, cs)) == KeyedSums(prices, d, keys, cs)
  {
    hide Canonical, DistributionOf, Ratio, Collect, Members, SumsOf, Plus;
    if keys != [] {
      var n := |keys| - 1;
      GroupsAddUp(prices, a, d, keys[..n], cs);
      assert GroupsOf(prices, a, d, keys, cs)[..n] == GroupsOf(prices, a, d, keys[..n], cs);
    }
  }

  lemma OneMember(d: Dimension, key: string, cs: seq<Call>, c: Call)
    ensures Members(d, key, cs + [c]) == if KeyOf(d, c) == key then Members(d, key, cs) + [c] else Members(d, key, cs)
  {
    MembersOfMore(d, cs, c);
  }

  // One call more is one more in the group of its key.
  lemma {:induction false} KeyedMore(prices: Call -> Option<Cost>, d: Dimension, keys: seq<string>, cs: seq<Call>,
          c: Call)
    requires Distinct(keys)
    ensures KeyedSums(prices, d, keys, cs + [c]) ==
            if KeyOf(d, c) in keys then Plus(KeyedSums(prices, d, keys, cs), One(prices, c))
            else KeyedSums(prices, d, keys, cs)
  {
    if keys != [] {
      hide SumsOf, One, Members, KeyOf, Plus;
      var n := |keys| - 1;
      var front, key := keys[..n], keys[n];
      assert keys == front + [key];
      KeyedMore(prices, d, front, cs, c);
      OneMember(d, key, cs, c);
      SumsOfMore(prices, Members(d, key, cs), c);
      var all, more := KeyedSums(prices, d, front, cs), SumsOf(prices, Members(d, key, cs));
      Exchange(all, One(prices, c), more);
      PlusLaws(all, more, One(prices, c));
    }
  }

  lemma {:induction false} NoSums(prices: Call -> Option<Cost>, d: Dimension, keys: seq<string>)
    ensures KeyedSums(prices, d, keys, []) == NOTHING
  {
    if keys != [] { NoSums(prices, d, keys[..|keys| - 1]); }
  }

  lemma {:induction false} KeyedAddUp(prices: Call -> Option<Cost>, d: Dimension, keys: seq<string>, cs: seq<Call>)
    requires Distinct(keys) && forall i :: 0 <= i < |cs| ==> KeyOf(d, cs[i]) in keys
    ensures KeyedSums(prices, d, keys, cs) == SumsOf(prices, cs)
  {
    if cs == [] {
      NoSums(prices, d, keys);
    } else {
      hide KeyedSums, One, KeyOf, Plus, SumsOf;
      var front, c := cs[..|cs| - 1], cs[|cs| - 1];
      assert cs == front + [c];
      KeyedAddUp(prices, d, keys, front);
      KeyedMore(prices, d, keys, front, c);
      SumsOfMore(prices, front, c);
    }
  }

  lemma BagLaws<T>(a: multiset<T>, b: multiset<T>, c: multiset<T>)
    ensures a + (b + c) == (a + b) + c && (a + c) + b == (a + b) + c
  {
  }

  lemma {:induction false} KeyedBagMore<T>(f: Call -> Option<T>, d: Dimension, keys: seq<string>, cs: seq<Call>,
          c: Call)
    requires Distinct(keys)
    ensures KeyedBag(f, d, keys, cs + [c]) ==
            if KeyOf(d, c) in keys then KeyedBag(f, d, keys, cs) + multiset(Collect(f, [c]))
            else KeyedBag(f, d, keys, cs)
  {
    if keys != [] {
      hide Collect, Members, KeyOf;
      var n := |keys| - 1;
      var front, key := keys[..n], keys[n];
      assert keys == front + [key];
      KeyedBagMore(f, d, front, cs, c);
      OneMember(d, key, cs, c);
      CollectPlus(f, Members(d, key, cs), [c]);
      BagLaws(KeyedBag(f, d, front, cs), multiset(Collect(f, Members(d, key, cs))), multiset(Collect(f, [c])));
    }
  }

  lemma {:induction false} KeyedBagAddsUp<T>(f: Call -> Option<T>, d: Dimension, keys: seq<string>, cs: seq<Call>)
    requires Distinct(keys) && forall i :: 0 <= i < |cs| ==> KeyOf(d, cs[i]) in keys
    ensures KeyedBag(f, d, keys, cs) == multiset(Collect(f, cs))
  {
    if cs == [] {
      NoBag(f, d, keys);
    } else {
      hide KeyedBag, KeyOf, Collect;
      var n := |cs| - 1;
      KeyedBagAddsUp(f, d, keys, cs[..n]);
      assert cs == cs[..n] + [cs[n]];
      KeyedBagMore(f, d, keys, cs[..n], cs[n]);
      CollectPlus(f, cs[..n], [cs[n]]);
    }
  }

  lemma {:induction false} NoBag<T>(f: Call -> Option<T>, d: Dimension, keys: seq<string>)
    ensures KeyedBag(f, d, keys, []) == multiset{}
  {
    if keys != [] { NoBag(f, d, keys[..|keys| - 1]); }
  }

  lemma SortedKeysAreDistinct(d: Dimension, cs: seq<Call>)
    ensures Distinct(SortedKeys(d, cs)) && forall i :: 0 <= i < |cs| ==> KeyOf(d, cs[i]) in SortedKeys(d, cs)
  {
    var keys := SortedKeys(d, cs);
    forall i, j | 0 <= i < j < |keys|
      ensures keys[i] != keys[j]
    {
      LessTotal(keys[i], keys[i]);
      assert Less(keys[i], keys[j]);
    }
    forall i | 0 <= i < |cs|
      ensures KeyOf(d, cs[i]) in keys
    {
      assert KeyOf(d, cs[i]) in Keys(d, cs);
    }
  }

  /** In each of the six dimensions the totals of the groups add up to those of the summary. */
  lemma GroupsPartition(prices: Call -> Option<Cost>, a: Arithmetic, cs: seq<Call>, d: Dimension)
    ensures d in ReportOf(prices, a, cs).groups
    ensures SumGroups(ReportOf(prices, a, cs).groups[d]) == ReportOf(prices, a, cs).summary.sums
  {
    AllDimensions();
    SortedKeysAreDistinct(d, cs);
    hide SortedKeys, KeyedSums, Collect, Canonical, DistributionOf, KeyOf, Distinct, SumGroups, Ratio;
    GroupsAddUp(prices, a, d, SortedKeys(d, cs), cs);
    KeyedAddUp(prices, d, SortedKeys(d, cs), cs);
  }

  /** And the contexts, the costs and the estimates of the groups together are those of the summary. */
  lemma GroupsShareOut(prices: Call -> Option<Cost>, cs: seq<Call>, d: Dimension)
    ensures KeyedBag(ContextsOf(), d, SortedKeys(d, cs), cs) == multiset(Collect(ContextsOf(), cs))
    ensures KeyedBag(RecordedOf(), d, SortedKeys(d, cs), cs) == multiset(Collect(RecordedOf(), cs))
    ensures KeyedBag(EstimateOf(prices), d, SortedKeys(d, cs), cs) == multiset(Collect(EstimateOf(prices), cs))
  {
    SortedKeysAreDistinct(d, cs);
    hide SortedKeys, KeyedBag, Collect, KeyOf, Distinct;
    KeyedBagAddsUp(ContextsOf(), d, SortedKeys(d, cs), cs);
    KeyedBagAddsUp(RecordedOf(), d, SortedKeys(d, cs), cs);
    KeyedBagAddsUp(EstimateOf(prices), d, SortedKeys(d, cs), cs);
  }

  // --- the percentiles ---

  function Count(s: seq<int>, p: int -> bool): nat {
    if s == [] then 0 else Count(s[1..], p) + if p(s[0]) then 1 else 0
  }

  lemma {:induction false} CountPlus(a: seq<int>, b: seq<int>, p: int -> bool)
    ensures Count(a + b, p) == Count(a, p) + Count(b, p)
  {
    if a == [] {
      assert a + b == b;
    } else {
      assert (a + b)[1..] == a[1..] + b;
      CountPlus(a[1..], b, p);
    }
  }

  lemma {:induction false} CountInserted(x: int, s: seq<int>, p: int -> bool)
    ensures Count(InsertInt(x, s), p) == Count(s, p) + if p(x) then 1 else 0
  {
    if s == [] || x <= s[0] {
      assert ([x] + s)[1..] == s;
    } else {
      CountInserted(x, s[1..], p);
      assert ([s[0]] + InsertInt(x, s[1..]))[1..] == InsertInt(x, s[1..]);
    }
  }

  lemma {:induction false} CountSorted(s: seq<int>, p: int -> bool)
    ensures Count(Sorted(s), p) == Count(s, p)
  {
    if s != [] {
      var n := |s| - 1;
      CountSorted(s[..n], p);
      CountInserted(s[n], Sorted(s[..n]), p);
      CountPlus(s[..n], [s[n]], p);
      assert s == s[..n] + [s[n]] && [s[n]][1..] == [];
    }
  }

  lemma {:induction false} CountBounds(s: seq<int>, p: int -> bool)
    ensures Count(s, p) <= |s|
    ensures (forall i :: 0 <= i < |s| ==> p(s[i])) ==> Count(s, p) == |s|
    ensures (forall i :: 0 <= i < |s| ==> !p(s[i])) ==> Count(s, p) == 0
  {
    if s != [] { CountBounds(s[1..], p); }
  }

  lemma AtMostInFront(s: seq<int>, i: nat)
    requires Rising(s) && i < |s|
    ensures Count(s, x => x <= s[i]) >= i + 1
  {
    var v := s[i];
    var atMost := x => x <= v;
    assert s == s[..i + 1] + s[i + 1..];
    CountPlus(s[..i + 1], s[i + 1..], atMost);
    CountBounds(s[..i + 1], atMost);
  }

  lemma BelowInFront(s: seq<int>, i: nat)
    requires Rising(s) && i < |s|
    ensures Count(s, x => x < s[i]) <= i
  {
    var v := s[i];
    var below := x => x < v;
    assert s == s[..i] + s[i..];
    CountPlus(s[..i], s[i..], below);
    CountBounds(s[..i], below);
    CountBounds(s[i..], below);
  }

  /** The value at a percentile is one that at least that share of the contexts does not exceed, and fewer are
      below it. */
  lemma NearestRank(contexts: seq<int>, p: int)
    requires contexts != [] && 0 < p <= 100
    ensures |Sorted(contexts)| == |contexts|
    ensures var v, n := Sorted(contexts)[Rank(p, |contexts|)], |contexts|;
            100 * Count(contexts, x => x <= v) >= p * n > 100 * Count(contexts, x => x < v)
  {
    SortedRises(contexts);
    var s, i := Sorted(contexts), Rank(p, |contexts|);
    hide Count, Sorted, Rising;
    AtMostInFront(s, i);
    BelowInFront(s, i);
    CountSorted(contexts, x => x <= s[i]);
    CountSorted(contexts, x => x < s[i]);
  }

  /** The percentiles of a report do not fall, and none is above the greatest. */
  lemma PercentilesRise(contexts: seq<int>)
    requires contexts != []
    ensures var d := DistributionOf(contexts).value; d.p5 <= d.p25 <= d.p50 <= d.p90 <= d.max
    ensures forall x :: x in contexts ==> x <= DistributionOf(contexts).value.max
  {
    SortedRises(contexts);
    var s, n := Sorted(contexts), |contexts|;
    hide Sorted, InsertInt, Rank;
    RankRises(5, 25, n);
    RankRises(25, 50, n);
    RankRises(50, 90, n);
    LastIsGreatest(contexts, s);
  }

  lemma LastIsGreatest(contexts: seq<int>, s: seq<int>)
    requires Rising(s) && multiset(s) == multiset(contexts) && |s| == |contexts|
    ensures forall x :: x in contexts ==> s != [] && x <= s[|s| - 1]
  {
    forall x | x in contexts
      ensures s != [] && x <= s[|s| - 1]
    {
      assert x in multiset(s);
    }
  }

  lemma RankRises(p: int, q: int, n: int)
    requires 0 < p <= q <= 100 && 0 < n
    ensures Rank(p, n) <= Rank(q, n)
  {
    assert p * n <= q * n;
  }

  lemma {:induction false} CountsAreKept(prices: Call -> Option<Cost>, cs: seq<Call>)
    ensures var t := SumsOf(prices, cs);
            && t.calls == |cs| && t.costCalls + t.estimatedCalls <= t.calls
            && t.costCalls == |Collect(RecordedOf(), cs)| && t.estimatedCalls == |Collect(EstimateOf(prices), cs)|
  {
    if cs != [] { CountsAreKept(prices, cs[..|cs| - 1]); }
  }

  /** No call has both a recorded cost and an estimate; a group has a cost if and only if a call of it recorded one, an
      estimate if and only if one was estimated, and percentiles if and only if it has a call. */
  lemma RecordedOrEstimated(prices: Call -> Option<Cost>, a: Arithmetic, key: string, cs: seq<Call>)
    ensures var g := GroupOf(prices, a, key, cs);
            && g.sums.calls == |cs| && g.sums.costCalls + g.sums.estimatedCalls <= g.sums.calls
            && (g.cost.Some? <==> g.sums.costCalls > 0) && (g.estimated.Some? <==> g.sums.estimatedCalls > 0)
            && (g.distribution.Some? <==> cs != [])
  {
    CountsAreKept(prices, cs);
    assert cs != [] ==> Collect(ContextsOf(), cs) != [];
  }

  // --- what a report says, field by field ---

  function Sum(f: Call -> int, cs: seq<Call>): int {
    if cs == [] then 0 else Sum(f, cs[..|cs| - 1]) + f(cs[|cs| - 1])
  }

  // The calls under one key.
  function Picked(key: Call -> string, k: string, cs: seq<Call>): seq<Call> {
    if cs == [] then []
    else
      var c := cs[|cs| - 1];
      Picked(key, k, cs[..|cs| - 1]) + if key(c) == k then [c] else []
  }

  // Of the calls that have a cost, their costs.
  function CostsOf(cost: Call -> Option<Cost>, cs: seq<Call>): seq<Cost> {
    if cs == [] then []
    else
      var v := cost(cs[|cs| - 1]);
      CostsOf(cost, cs[..|cs| - 1]) + if v.Some? then [v.value] else []
  }

  ghost predicate IsRatio(r: Option<real>, numerator: int, denominator: int) {
    && (r.None? <==> denominator == 0)
    && (r.Some? ==> r.value * denominator as real == numerator as real)
  }

  // None of no costs; otherwise the costs added up from the least to the greatest.
  ghost predicate IsCost(a: Arithmetic, cost: Option<Cost>, costs: seq<Cost>) {
    && (cost.None? <==> costs == [])
    && (cost.Some? ==> exists s: seq<Cost> ::
          Rising(s) && multiset(s) == multiset(costs) && cost.value == SumFrom(a, s))
  }

  ghost predicate IsPercentile(v: int, p: int, contexts: seq<int>) {
    && v in contexts
    && 100 * Count(contexts, x => x <= v) >= p * |contexts| > 100 * Count(contexts, x => x < v)
  }

  ghost predicate IsDistribution(d: Option<Distribution>, contexts: seq<int>) {
    && (d.None? <==> contexts == [])
    && (d.Some? ==>
          && IsPercentile(d.value.p5, 5, contexts) && IsPercentile(d.value.p25, 25, contexts)
          && IsPercentile(d.value.p50, 50, contexts) && IsPercentile(d.value.p90, 90, contexts)
          && d.value.max in contexts && forall x :: x in contexts ==> x <= d.value.max)
  }

  // The sums are those of exactly these calls.
  ghost predicate Adds(t: Sums, prices: Call -> Option<Cost>, cs: seq<Call>) {
    && t.calls == |cs|
    && t.input == Sum((c: Call) => c.input, cs)
    && t.cacheRead == Sum((c: Call) => c.cacheRead, cs)
    && t.cacheWrite == Sum((c: Call) => c.cacheWrite, cs)
    && t.output == Sum((c: Call) => c.output, cs)
    && t.reasoning == Sum((c: Call) => c.reasoning, cs)
    && t.contextTokens == t.input + t.cacheRead + t.cacheWrite
    && t.costCalls == |CostsOf((c: Call) => c.cost, cs)|
    && t.estimatedCalls == |CostsOf((c: Call) => if c.cost.Some? then None else prices(c), cs)|
  }

  // A group is that of exactly these calls.
  ghost predicate Says(g: Group, prices: Call -> Option<Cost>, a: Arithmetic, cs: seq<Call>) {
    && Adds(g.sums, prices, cs)
    && IsCost(a, g.cost, CostsOf((c: Call) => c.cost, cs))
    && IsCost(a, g.estimated, CostsOf((c: Call) => if c.cost.Some? then None else prices(c), cs))
    && IsRatio(g.cacheReadShare, g.sums.cacheRead, g.sums.contextTokens)
    && IsRatio(g.contextPerOutput, g.sums.contextTokens, g.sums.output)
    && IsRatio(g.contextPerCall, g.sums.contextTokens, g.sums.calls)
    && IsDistribution(g.distribution, seq(|cs|, i requires 0 <= i < |cs| =>
                                        cs[i].input + cs[i].cacheRead + cs[i].cacheWrite))
  }

  ghost predicate HasGroup(groups: seq<Group>, k: string) {
    exists g :: g in groups && g.key == k
  }

  ghost predicate HasCall(key: Call -> string, k: string, cs: seq<Call>) {
    exists c :: c in cs && key(c) == k
  }

  // One group for each key that some call has, in the order of the keys, and each is that of the calls under its key.
  ghost predicate Sorts(groups: seq<Group>, key: Call -> string, prices: Call -> Option<Cost>, a: Arithmetic,
                        cs: seq<Call>)
  {
    && (forall k :: HasGroup(groups, k) <==> HasCall(key, k, cs))
    && (forall g :: g in groups ==> Says(g, prices, a, Picked(key, g.key, cs)))
    && forall i, j :: 0 <= i < j < |groups| ==> Less(groups[i].key, groups[j].key)
  }

  lemma {:induction false} AddsUp(prices: Call -> Option<Cost>, cs: seq<Call>)
    ensures Adds(SumsOf(prices, cs), prices, cs)
  {
    if cs != [] { AddsUp(prices, cs[..|cs| - 1]); }
  }

  lemma {:induction false} CollectedCosts(f: Call -> Option<Cost>, cost: Call -> Option<Cost>, cs: seq<Call>)
    requires forall c :: f(c) == cost(c)
    ensures Collect(f, cs) == CostsOf(cost, cs)
  {
    if cs != [] { CollectedCosts(f, cost, cs[..|cs| - 1]); }
  }

  lemma {:induction false} CollectedContexts(cs: seq<Call>)
    ensures Collect(ContextsOf(), cs) ==
            seq(|cs|, i requires 0 <= i < |cs| => cs[i].input + cs[i].cacheRead + cs[i].cacheWrite)
  {
    if cs != [] { CollectedContexts(cs[..|cs| - 1]); }
  }

  lemma {:induction false} MembersArePicked(d: Dimension, key: Call -> string, k: string, cs: seq<Call>)
    requires forall c :: key(c) == KeyOf(d, c)
    ensures Members(d, k, cs) == Picked(key, k, cs)
  {
    if cs != [] { MembersArePicked(d, key, k, cs[..|cs| - 1]); }
  }

  lemma CanonicalIsCost(a: Arithmetic, costs: seq<Cost>)
    ensures IsCost(a, Canonical(a, costs), costs)
  {
    SortedRises(costs);
  }

  lemma DistributionIsOne(contexts: seq<int>)
    ensures IsDistribution(DistributionOf(contexts), contexts)
  {
    if contexts != [] {
      SortedRises(contexts);
      var s := Sorted(contexts);
      hide Count, Sorted, Rank;
      forall p | p in {5, 25, 50, 90}
        ensures IsPercentile(s[Rank(p, |contexts|)], p, contexts)
      {
        NearestRank(contexts, p);
        IsThere(s, contexts, Rank(p, |contexts|));
      }
      IsThere(s, contexts, |s| - 1);
      PercentilesRise(contexts);
    }
  }

  lemma IsThere(s: seq<int>, t: seq<int>, i: nat)
    requires multiset(s) == multiset(t) && i < |s|
    ensures s[i] in t
  {
    assert s[i] in multiset(s);
  }

  lemma GroupSays(prices: Call -> Option<Cost>, a: Arithmetic, key: string, cs: seq<Call>)
    ensures GroupOf(prices, a, key, cs).key == key && Says(GroupOf(prices, a, key, cs), prices, a, cs)
  {
    hide SumsOf, Canonical, DistributionOf, Collect, Adds, IsCost, IsDistribution, CostsOf;
    AddsUp(prices, cs);
    CollectedCosts(RecordedOf(), (c: Call) => c.cost, cs);
    CollectedCosts(EstimateOf(prices), (c: Call) => if c.cost.Some? then None else prices(c), cs);
    CollectedContexts(cs);
    CanonicalIsCost(a, Collect(RecordedOf(), cs));
    CanonicalIsCost(a, Collect(EstimateOf(prices), cs));
    DistributionIsOne(Collect(ContextsOf(), cs));
  }

  lemma DimensionSorts(prices: Call -> Option<Cost>, a: Arithmetic, cs: seq<Call>, d: Dimension, key: Call -> string)
    requires forall c :: key(c) == KeyOf(d, c)
    ensures d in ReportOf(prices, a, cs).groups
    ensures Sorts(ReportOf(prices, a, cs).groups[d], key, prices, a, cs)
  {
    hide GroupOf, Says, Members, Picked, KeyOf, Less;
    AllDimensions();
    var keys := SortedKeys(d, cs);
    var groups := GroupsOf(prices, a, d, keys, cs);
    forall i | 0 <= i < |keys|
      ensures groups[i].key == keys[i] && Says(groups[i], prices, a, Picked(key, keys[i], cs))
    {
      GroupSays(prices, a, keys[i], Members(d, keys[i], cs));
      MembersArePicked(d, key, keys[i], cs);
    }
    forall k
      ensures HasGroup(groups, k) <==> HasCall(key, k, cs)
    {
      assert k in keys <==> k in Keys(d, cs);
      if c :| c in cs && key(c) == k {
        var i :| 0 <= i < |cs| && cs[i] == c;
        var j :| 0 <= j < |keys| && keys[j] == k;
        assert groups[j] in groups;
      }
    }
  }

  /** What a report says, of each field of a call: the summary of all calls, and under each of the six names the groups
      of the calls by the field of that name. */
  lemma ReportSays(prices: Call -> Option<Cost>, a: Arithmetic, cs: seq<Call>)
    ensures var r := ReportOf(prices, a, cs);
            && r.summary.key == "all" && Says(r.summary, prices, a, cs)
            && (forall d: Dimension :: d in r.groups)
            && Sorts(r.groups[BySource], (c: Call) => c.source, prices, a, cs)
            && Sorts(r.groups[ByRole], (c: Call) => c.role, prices, a, cs)
            && Sorts(r.groups[ByModel], (c: Call) => c.model, prices, a, cs)
            && Sorts(r.groups[ByProject], (c: Call) => c.project, prices, a, cs)
            && Sorts(r.groups[ByDay], (c: Call) => c.day, prices, a, cs)
            && Sorts(r.groups[ByAgentType], (c: Call) => if c.agentType == "" then "(none)" else c.agentType, prices, a,
              cs)
  {
    hide Says, Sorts, GroupOf, GroupsOf;
    GroupSays(prices, a, "all", cs);
    AllDimensions();
    DimensionSorts(prices, a, cs, BySource, (c: Call) => c.source);
    DimensionSorts(prices, a, cs, ByRole, (c: Call) => c.role);
    DimensionSorts(prices, a, cs, ByModel, (c: Call) => c.model);
    DimensionSorts(prices, a, cs, ByProject, (c: Call) => c.project);
    DimensionSorts(prices, a, cs, ByDay, (c: Call) => c.day);
    DimensionSorts(prices, a, cs, ByAgentType, (c: Call) => if c.agentType == "" then "(none)" else c.agentType);
  }
}
