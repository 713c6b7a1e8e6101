/** The metric registry: series of counters by tag set, filtered and grouped sums, and the plain sum. */
module Metrics {
  import opened Arithmetic
  import opened Sets
  import opened Words
  import opened Wrappers
  import opened TagSets

  datatype MetricKind = CounterKind | GaugeKind | RateKind | HistogramKind

  type UncountedKind = k: MetricKind | k != CounterKind witness GaugeKind

  /** A series; only the contents of counters are modelled. */
  datatype Series = Counter(count: u64) | Other(kind: UncountedKind)

  datatype MetricDef = MetricDef(name: u32, kind: MetricKind)

  type SeriesMap = map<TagSet, Series>

  function NewSeries(kind: MetricKind): Series {
    if kind == CounterKind then Counter(0) else Other(kind)
  }

  function KindOf(s: Series): MetricKind {
    if s.Counter? then CounterKind else s.kind
  }

  // ------------------------------------------------------------------------ registry

  /** Where a name is defined, or the number of definitions. */
  function Defined(defs: seq<MetricDef>, name: u32): (i: nat)
    ensures i <= |defs| && (i < |defs| ==> defs[i].name == name)
    ensures forall j :: 0 <= j < i ==> defs[j].name != name
  {
    if defs == [] || defs[0].name == name then 0 else Defined(defs[1..], name) + 1
  }

  lemma DefinedFirst(defs: seq<MetricDef>, name: u32, i: nat)
    requires i <= |defs| && (i < |defs| ==> defs[i].name == name) && forall j :: 0 <= j < i ==> defs[j].name != name
    ensures Defined(defs, name) == i
  {
  }

  /** A reference to one series; the source shares its atomics or its lock. */
  datatype Handle = Handle(metric: u32, tags: TagSet, kind: MetricKind)

  /** The series of a metric are of its kind, under sorted tags. */
  ghost predicate SeriesFit(m: SeriesMap, kind: MetricKind) {
    forall t :: t in m ==> KindOf(m[t]) == kind && SortedTags(t)
  }

  /** Metrics are stored under their positions, names differ, and series are of their metric's kind. */
  ghost predicate Stores(defs: seq<MetricDef>, storage: map<u32, SeriesMap>) {
    && |defs| <= TWO_32
    && (forall i :: i in storage <==> 0 <= i < |defs|)
    && (forall i, j :: 0 <= i < j < |defs| ==> defs[i].name != defs[j].name)
    && (forall i :: i in storage ==> SeriesFit(storage[i], defs[i].kind))
  }

  lemma StoresFew(defs: seq<MetricDef>, storage: map<u32, SeriesMap>)
    requires Stores(defs, storage)
    ensures |defs| <= TWO_32
  {
  }

  lemma NewMetricFits(defs: seq<MetricDef>, storage: map<u32, SeriesMap>, def: MetricDef)
    requires Stores(defs, storage) && |defs| < TWO_32 && forall j :: 0 <= j < |defs| ==> defs[j].name != def.name
    ensures Stores(defs + [def], storage[|defs| := map[]])
  {
  }

  class Registry {
    const interner: Interner
    var defs: seq<MetricDef>
    var storage: map<u32, SeriesMap>

    ghost predicate Valid()
      reads this
    {
      Stores(defs, storage)
    }

    constructor ()
      ensures Valid() && defs == [] && storage == map[] && fresh(interner) && Agree(interner.ids, interner.names)
    {
      interner := new Interner();
      defs, storage := [], map[];
    }

    /** Registering a name again returns the first registration, whatever the kind. */
    method Register(name: string, kind: MetricKind) returns (id: u32)
      requires Valid()
      modifies this, interner
      ensures |defs| <= TWO_32 ==> Valid()
      ensures name in interner.ids
      ensures var place := Defined(old(defs), interner.ids[name]);
              if place < |old(defs)| then id == place && defs == old(defs) && storage == old(storage)
              else
                && id == place % TWO_32 && defs == old(defs) + [MetricDef(interner.ids[name], kind)]
                && storage == old(storage)[id := map[]]
      ensures old(Agree(interner.ids, interner.names)) && |interner.names| <= TWO_32 ==> Agree(interner.ids, interner.names)
    {
      hide Stores;
      StoresFew(defs, storage);
      var nameId := interner.GetOrIntern(name);
      var i := 0;
      while i < |defs|
        invariant 0 <= i <= |defs| && forall j :: 0 <= j < i ==> defs[j].name != nameId
      {
        if defs[i].name == nameId {
          DefinedFirst(defs, nameId, i);
          return i;
        }
        i := i + 1;
      }
      DefinedFirst(defs, nameId, i);
      id := |defs| % TWO_32;
      if |defs| < TWO_32 {
        NewMetricFits(defs, storage, MetricDef(nameId, kind));
      }
      defs := defs + [MetricDef(nameId, kind)];
      storage := storage[id := map[]];
    }

    /** Makes the series if it is missing, a counter at 0; no handle for an unknown metric. */
    method GetHandle(metric: u32, tags: TagSet) returns (h: Option<Handle>)
      requires Valid() && SortedTags(tags)
      modifies this
      ensures Valid() && defs == old(defs) && (h.Some? <==> metric in old(storage))
      ensures h.None? ==> storage == old(storage)
      ensures h.Some? ==> h.value == Handle(metric, tags, defs[metric].kind) && Refers(h.value)
      ensures h.Some? ==> storage == if tags in old(storage)[metric] then old(storage)
                                     else old(storage)[metric := old(storage)[metric][tags := NewSeries(defs[metric].kind)]]
      ensures h.Some? && tags !in old(storage)[metric] && defs[metric].kind == CounterKind ==> storage[metric][tags] == Counter(0)
    {
      if metric !in storage {
        return None;
      }
      assert SeriesFit(storage[metric], defs[metric].kind);
      if tags !in storage[metric] {
        var updated := storage[metric][tags := NewSeries(defs[metric].kind)];
        assert SeriesFit(updated, defs[metric].kind);
        storage := storage[metric := updated];
      }
      h := Some(Handle(metric, tags, KindOf(storage[metric][tags])));
    }

    ghost predicate Refers(h: Handle)
      reads this
    {
      h.metric in storage && h.tags in storage[h.metric] && KindOf(storage[h.metric][h.tags]) == h.kind
    }

    /** `fetch_add` through a counter's handle; a handle of another kind ignores it. */
    method Increment(h: Handle, n: u64)
      requires Valid() && Refers(h)
      modifies this
      ensures Valid() && defs == old(defs) && Refers(h)
      ensures h.kind != CounterKind ==> storage == old(storage)
      ensures h.kind == CounterKind ==>
                storage == old(storage)[h.metric := Counted(old(storage)[h.metric], h.tags, n)]
    {
      if h.kind == CounterKind {
        var series := storage[h.metric];
        var updated := series[h.tags := Counter((series[h.tags].count + n) % TWO_64)];
        assert SeriesFit(series, defs[h.metric].kind) && SeriesFit(updated, defs[h.metric].kind);
        storage := storage[h.metric := updated];
      }
    }
  }

  /** The plain sum over the selected series of a metric; an unknown metric has none. */
  method FoldOf(registry: Registry, metric: u32, q: Query) returns (total: u64)
    requires registry.Valid()
    ensures metric !in registry.storage ==> total == 0
    ensures metric in registry.storage ==>
              exists order :: ListsOnce(order, registry.storage[metric].Keys) && total == Saturated(Total(order, registry.storage[metric], q))
  {
    if metric !in registry.storage {
      return 0;
    }
    assert SeriesFit(registry.storage[metric], registry.defs[metric].kind);
    total := FoldCounterSum(registry.storage[metric], q);
  }

  /** The sums by group over the selected series of a metric. */
  method SumOf(registry: Registry, metric: u32, q: Query) returns (out: map<TagSet, u64>)
    requires registry.Valid()
    ensures metric !in registry.storage ==> out == map[]
    ensures metric in registry.storage ==>
              exists order :: ListsOnce(order, registry.storage[metric].Keys) && Grouped(out, order, registry.storage[metric], q)
  {
    if metric !in registry.storage {
      return map[];
    }
    assert SeriesFit(registry.storage[metric], registry.defs[metric].kind);
    out := SumCounter(registry.storage[metric], q);
  }

  /** A counter's series after a wrapping addition. */
  function Counted(m: SeriesMap, t: TagSet, n: u64): SeriesMap
    requires t in m && m[t].Counter?
  {
    m[t := Counter((m[t].count + n) % TWO_64)]
  }

  // --------------------------------------------------------------------------- query

  datatype TagFilter = Eq(key: u32, value: u32) | NotEq(key: u32, value: u32) | Has(key: u32) | Missing(key: u32)

  datatype Query = Query(filters: seq<TagFilter>, groupKeys: seq<u32>)

  function FilterMatches(f: TagFilter, t: TagSet): bool {
    match f
    case Eq(k, v) => Lookup(t, k) == Some(v)
    case NotEq(k, v) => Lookup(t, k) != Some(v)
    case Has(k) => Lookup(t, k).Some?
    case Missing(k) => Lookup(t, k).None?
  }

  predicate Matches(q: Query, t: TagSet) {
    forall i :: 0 <= i < |q.filters| ==> FilterMatches(q.filters[i], t)
  }

  function GroupOf(q: Query, t: TagSet): TagSet {
    Projected(t, q.groupKeys)
  }

  /** What a series adds to a filtered sum. */
  function Weight(m: SeriesMap, q: Query, t: TagSet): nat {
    if t in m && m[t].Counter? && Matches(q, t) then m[t].count else 0
  }

  function Total(order: seq<TagSet>, m: SeriesMap, q: Query): nat {
    if order == [] then 0 else Total(order[..|order| - 1], m, q) + Weight(m, q, order[|order| - 1])
  }

  /** The part of the total that belongs to one group. */
  function GroupTotal(order: seq<TagSet>, m: SeriesMap, q: Query, g: TagSet): nat {
    if order == [] then 0
    else
      var last := order[|order| - 1];
      GroupTotal(order[..|order| - 1], m, q, g) + (if GroupOf(q, last) == g then Weight(m, q, last) else 0)
  }

  function Saturated(n: nat): u64 {
    if n < TWO_64 then n else TWO_64 - 1
  }

  ghost predicate AllSorted(m: SeriesMap) {
    forall t :: t in m ==> SortedTags(t)
  }

  // --------------------------------------------------------------------------- loops

  method MatchesTags(q: Query, t: TagSet) returns (ok: bool)
    requires SortedTags(t)
    ensures ok == Matches(q, t)
  {
    for i := 0 to |q.filters|
      invariant forall j :: 0 <= j < i ==> FilterMatches(q.filters[j], t)
    {
      var v := Get(t, q.filters[i].key);
      var good := match q.filters[i] {
        case Eq(_, w) => v == Some(w)
        case NotEq(_, w) => v != Some(w)
        case Has(_) => v.Some?
        case Missing(_) => v.None?
      };
      if !good {
        return false;
      }
    }
    ok := true;
  }

  /** The plain sum over the series a query's filters select. */
  method FoldCounterSum(m: SeriesMap, q: Query) returns (total: u64)
    requires AllSorted(m)
    ensures exists order :: ListsOnce(order, m.Keys) && total == Saturated(Total(order, m, q))
  {
    total := 0;
    var todo := m.Keys;
    ghost var order: seq<TagSet> := [];
    while todo != {}
      invariant todo <= m.Keys && ListsOnce(order, m.Keys - todo) && total == Saturated(Total(order, m, q))
      decreases |todo|
    {
      var t :| t in todo;
      ListOneMore(order, m.Keys, todo, t);
      todo := todo - {t};
      var ok := MatchesTags(q, t);
      if ok && m[t].Counter? {
        total := Min(total + m[t].count, TWO_64 - 1);
      }
      assert (order + [t])[..|order|] == order;
      order := order + [t];
    }
    assert m.Keys - todo == m.Keys;
  }

  /** The sums by group; a counter at 0 makes no group. */
  method SumCounter(m: SeriesMap, q: Query) returns (out: map<TagSet, u64>)
    requires AllSorted(m)
    ensures exists order :: ListsOnce(order, m.Keys) && Grouped(out, order, m, q)
  {
    out := map[];
    var todo := m.Keys;
    ghost var order: seq<TagSet> := [];
    while todo != {}
      invariant todo <= m.Keys && ListsOnce(order, m.Keys - todo) && Grouped(out, order, m, q)
      decreases |todo|
    {
      var t :| t in todo;
      ListOneMore(order, m.Keys, todo, t);
      todo := todo - {t};
      var ok := MatchesTags(q, t);
      ghost var before := out;
      if ok && m[t].Counter? && m[t].count != 0 {
        var k := Project(t, q.groupKeys);
        if k in out {
          out := out[k := Min(out[k] + m[t].count, TWO_64 - 1)];
        } else {
          out := out[k := m[t].count];
        }
      }
      GroupedMore(before, out, order, m, q, t);
      order := order + [t];
    }
    assert m.Keys - todo == m.Keys;
  }

  /** Each group with something in it has the saturated sum of its series, and no other group is there. */
  ghost predicate Grouped(out: map<TagSet, u64>, order: seq<TagSet>, m: SeriesMap, q: Query) {
    && (forall g :: g in out <==> GroupTotal(order, m, q, g) > 0)
    && (forall g :: g in out ==> out[g] == Saturated(GroupTotal(order, m, q, g)))
  }

  lemma GroupedMore(before: map<TagSet, u64>, out: map<TagSet, u64>, order: seq<TagSet>, m: SeriesMap, q: Query, t: TagSet)
    requires Grouped(before, order, m, q) && t in m
    requires Weight(m, q, t) == 0 ==> out == before
    requires Weight(m, q, t) > 0 ==>
               out == before[GroupOf(q, t) := if GroupOf(q, t) in before then Min(before[GroupOf(q, t)] + m[t].count, TWO_64 - 1) else m[t].count]
    ensures Grouped(out, order + [t], m, q)
  {
    hide Weight, GroupOf;
    assert Weight(m, q, t) > 0 ==> Weight(m, q, t) == m[t].count by { WeightIsCount(m, q, t); }
    assert (order + [t])[..|order|] == order;
    forall g
      ensures GroupTotal(order + [t], m, q, g) == GroupTotal(order, m, q, g) + (if GroupOf(q, t) == g then Weight(m, q, t) else 0)
    {
    }
  }

  lemma WeightIsCount(m: SeriesMap, q: Query, t: TagSet)
    requires t in m
    ensures Weight(m, q, t) > 0 ==> m[t].Counter? && Weight(m, q, t) == m[t].count
  {
  }

  // ------------------------------------------------------------------ sums and their parts

  /** The values of some groups added up. */
  function Over(groups: seq<TagSet>, order: seq<TagSet>, m: SeriesMap, q: Query): nat {
    if groups == [] then 0
    else Over(groups[..|groups| - 1], order, m, q) + GroupTotal(order, m, q, groups[|groups| - 1])
  }

  lemma {:induction false} OverMore(groups: seq<TagSet>, order: seq<TagSet>, m: SeriesMap, q: Query)
    requires order != [] && forall i, j :: 0 <= i < j < |groups| ==> groups[i] != groups[j]
    ensures var last := order[|order| - 1];
            Over(groups, order, m, q)
            == Over(groups, order[..|order| - 1], m, q) + (if GroupOf(q, last) in groups then Weight(m, q, last) else 0)
    decreases |groups|
  {
    hide Weight, GroupOf;
    if groups != [] {
      OverMore(groups[..|groups| - 1], order, m, q);
      assert groups == groups[..|groups| - 1] + [groups[|groups| - 1]];
    }
  }

  lemma {:induction false} OverNothing(groups: seq<TagSet>, m: SeriesMap, q: Query)
    ensures Over(groups, [], m, q) == 0
    decreases |groups|
  {
    if groups != [] {
      OverNothing(groups[..|groups| - 1], m, q);
    }
  }

  /** Groups that are all different and miss no series with a weight add up to the total. */
  lemma {:induction false} GroupsPartition(groups: seq<TagSet>, order: seq<TagSet>, m: SeriesMap, q: Query)
    requires forall i, j :: 0 <= i < j < |groups| ==> groups[i] != groups[j]
    requires forall i :: 0 <= i < |order| && Weight(m, q, order[i]) > 0 ==> GroupOf(q, order[i]) in groups
    ensures Over(groups, order, m, q) == Total(order, m, q)
    decreases |order|
  {
    hide Weight, GroupOf;
    if order == [] {
      OverNothing(groups, m, q);
    } else {
      GroupsPartition(groups, order[..|order| - 1], m, q);
      OverMore(groups, order, m, q);
    }
  }

  lemma {:induction false} GroupHasItsSeries(order: seq<TagSet>, m: SeriesMap, q: Query, i: nat)
    requires i < |order|
    ensures GroupTotal(order, m, q, GroupOf(q, order[i])) >= Weight(m, q, order[i])
    ensures Total(order, m, q) >= Weight(m, q, order[i])
    decreases |order|
  {
    hide Weight, GroupOf;
    if i < |order| - 1 {
      GroupHasItsSeries(order[..|order| - 1], m, q, i);
    }
  }

  lemma {:induction false} GroupAtMostTotal(order: seq<TagSet>, m: SeriesMap, q: Query, g: TagSet)
    ensures GroupTotal(order, m, q, g) <= Total(order, m, q)
    decreases |order|
  {
    hide Weight, GroupOf;
    if order != [] {
      GroupAtMostTotal(order[..|order| - 1], m, q, g);
    }
  }

  /** A total is the same whatever order the series are visited in. */
  lemma {:induction false} OrderFree(a: seq<TagSet>, b: seq<TagSet>, keys: set<TagSet>, m: SeriesMap, q: Query, g: TagSet)
    requires ListsOnce(a, keys) && ListsOnce(b, keys)
    ensures Total(a, m, q) == Total(b, m, q) && GroupTotal(a, m, q, g) == GroupTotal(b, m, q, g)
    decreases |a|
  {
    hide Weight, GroupOf;
    if a == [] {
      assert forall i :: 0 <= i < |b| ==> b[i] in keys;
    } else {
      var last := a[|a| - 1];
      assert last in b;
      var i :| 0 <= i < |b| && b[i] == last;
      var rest := b[..i] + b[i + 1..];
      ListsRest(a, keys, |a| - 1);
      ListsRest(b, keys, i);
      assert a[..|a| - 1] + a[|a|..] == a[..|a| - 1];
      OrderFree(a[..|a| - 1], rest, keys - {last}, m, q, g);
      TakeOut(b, i, m, q, g);
    }
  }

  lemma {:induction false} TakeOut(order: seq<TagSet>, i: nat, m: SeriesMap, q: Query, g: TagSet)
    requires i < |order|
    ensures Total(order, m, q) == Total(order[..i] + order[i + 1..], m, q) + Weight(m, q, order[i])
    ensures GroupTotal(order, m, q, g)
            == GroupTotal(order[..i] + order[i + 1..], m, q, g) + (if GroupOf(q, order[i]) == g then Weight(m, q, order[i]) else 0)
    decreases |order|
  {
    hide Weight, GroupOf;
    var last := |order| - 1;
    if i == last {
      assert order[..i] + order[i + 1..] == order[..last];
    } else {
      TakeOut(order[..last], i, m, q, g);
      var rest := order[..i] + order[i + 1..];
      assert order[..last][..i] + order[..last][i + 1..] == rest[..|rest| - 1];
      assert rest[|rest| - 1] == order[last];
    }
  }

  // --------------------------------------------------------------------- main results

  /** The values of a map at some keys, added up. */
  function Values(groups: seq<TagSet>, out: map<TagSet, u64>): nat
    requires forall g :: g in groups ==> g in out
  {
    if groups == [] then 0 else Values(groups[..|groups| - 1], out) + out[groups[|groups| - 1]]
  }

  lemma {:induction false} ValuesAreOver(groups: seq<TagSet>, out: map<TagSet, u64>, order: seq<TagSet>, m: SeriesMap, q: Query)
    requires (forall g :: g in groups ==> g in out) && Grouped(out, order, m, q) && Total(order, m, q) < TWO_64
    ensures Values(groups, out) == Over(groups, order, m, q)
    decreases |groups|
  {
    if groups != [] {
      ValuesAreOver(groups[..|groups| - 1], out, order, m, q);
      GroupAtMostTotal(order, m, q, groups[|groups| - 1]);
    }
  }

  /** Saturating group by group loses no more than saturating the whole. */
  lemma {:induction false} ValuesAtLeast(groups: seq<TagSet>, out: map<TagSet, u64>, order: seq<TagSet>, m: SeriesMap, q: Query)
    requires (forall g :: g in groups ==> g in out) && Grouped(out, order, m, q)
    ensures Values(groups, out) >= Saturated(Over(groups, order, m, q))
    decreases |groups|
  {
    hide GroupTotal;
    if groups != [] {
      ValuesAtLeast(groups[..|groups| - 1], out, order, m, q);
    }
  }

  /** With two groups or more, a total that does not fit is exceeded by the values. */
  lemma ValuesExceed(groups: seq<TagSet>, out: map<TagSet, u64>, order: seq<TagSet>, m: SeriesMap, q: Query)
    requires (forall g :: g in groups ==> g in out) && Grouped(out, order, m, q)
    requires |groups| >= 2 && Over(groups, order, m, q) >= TWO_64
    ensures Values(groups, out) >= TWO_64
  {
    hide GroupTotal;
    var front, last := groups[..|groups| - 1], groups[|groups| - 1];
    ValuesAtLeast(front, out, order, m, q);
    assert front[|front| - 1] in groups && last in groups;
    assert Over(front, order, m, q) >= GroupTotal(order, m, q, front[|front| - 1]) > 0;
    assert out[last] == Saturated(GroupTotal(order, m, q, last)) > 0;
  }

  /**
  The values of a grouped sum add up to the plain sum over the same filters, whatever orders the two
  visited the series in, if and only if the total fits in 64 bits or there is at most one group.
  */
  lemma GroupedSumsPartition(out: map<TagSet, u64>, plain: u64, one: seq<TagSet>, two: seq<TagSet>, groups: seq<TagSet>,
                             m: SeriesMap, q: Query)
    requires ListsOnce(one, m.Keys) && Grouped(out, one, m, q)
    requires ListsOnce(two, m.Keys) && plain == Saturated(Total(two, m, q))
    requires ListsOnce(groups, out.Keys)
    ensures Values(groups, out) == plain <==> Total(two, m, q) < TWO_64 || |groups| <= 1
  {
    hide Weight, GroupOf, Total, GroupTotal;
    OrderFree(one, two, m.Keys, m, q, []);
    OverIsTotal(out, one, groups, m, q);
    if Total(two, m, q) < TWO_64 {
      ValuesAreOver(groups, out, one, m, q);
    } else if |groups| >= 2 {
      ValuesExceed(groups, out, one, m, q);
    } else {
      ValuesAtLeast(groups, out, one, m, q);
      assert |groups| == 1 ==> groups[..0] == [] && Values(groups, out) == out[groups[0]];
    }
  }

  /** The groups of a grouped sum take up the whole total. */
  lemma OverIsTotal(out: map<TagSet, u64>, order: seq<TagSet>, groups: seq<TagSet>, m: SeriesMap, q: Query)
    requires ListsOnce(order, m.Keys) && Grouped(out, order, m, q) && ListsOnce(groups, out.Keys)
    ensures Over(groups, order, m, q) == Total(order, m, q)
  {
    hide Weight, GroupOf, Total, GroupTotal;
    forall i | 0 <= i < |order| && Weight(m, q, order[i]) > 0
      ensures GroupOf(q, order[i]) in groups
    {
      GroupHasItsSeries(order, m, q, i);
      assert GroupOf(q, order[i]) in out.Keys;
    }
    GroupsPartition(groups, order, m, q);
  }

  /** A grouped sum does not depend on the order of the series, saturated or not. */
  lemma GroupedIsUnique(a: map<TagSet, u64>, b: map<TagSet, u64>, one: seq<TagSet>, two: seq<TagSet>, m: SeriesMap, q: Query)
    requires ListsOnce(one, m.Keys) && Grouped(a, one, m, q) && ListsOnce(two, m.Keys) && Grouped(b, two, m, q)
    ensures a == b
  {
    hide GroupTotal, Total;
    forall g
      ensures GroupTotal(one, m, q, g) == GroupTotal(two, m, q, g)
    {
      OrderFree(one, two, m.Keys, m, q, g);
    }
    assert a.Keys == b.Keys;
  }

  /** Two series are in one group exactly when they agree on every group key. */
  lemma GroupsAgreeOnKeys(keys: seq<u32>, filters: seq<TagFilter>, t: TagSet, u: TagSet)
    ensures var q := Query(filters, GroupKeys(keys));
            GroupOf(q, t) == GroupOf(q, u) <==> forall k :: k in keys ==> Lookup(t, k) == Lookup(u, k)
  {
    GroupKeysIncrease(keys);
    SameGroup(t, u, GroupKeys(keys));
  }

  /** What counting adds to the unbounded totals. */
  lemma {:induction false} CountingAdds(order: seq<TagSet>, keys: set<TagSet>, m: SeriesMap, q: Query, t: TagSet, n: u64, g: TagSet)
    requires ListsOnce(order, keys) && t in m && m[t].Counter?
    ensures var gain := if t in keys && Matches(q, t) then (m[t].count + n) % TWO_64 - m[t].count else 0;
            && Total(order, Counted(m, t, n), q) == Total(order, m, q) + gain
            && GroupTotal(order, Counted(m, t, n), q, g) == GroupTotal(order, m, q, g) + (if GroupOf(q, t) == g then gain else 0)
    decreases |order|
  {
    hide GroupOf, Matches;
    if order != [] {
      var last := |order| - 1;
      ListsRest(order, keys, last);
      assert order[..last] + order[last + 1..] == order[..last];
      CountingAdds(order[..last], keys - {order[last]}, m, q, t, n, g);
    }
  }

  /** What a grouped sum says of a group; a group that is not there has nothing. */
  function ValueOf(out: map<TagSet, u64>, g: TagSet): u64 {
    if g in out then out[g] else 0
  }

  /** A saturated sum that gains shows all of a gain exactly when neither the counter wraps nor the sum saturates. */
  lemma GainShows(before: nat, count: u64, n: u64)
    requires n > 0 && before >= count
    ensures Saturated(before + (count + n) % TWO_64 - count) - Saturated(before) == n
            <==> count + n < TWO_64 && before + n < TWO_64
  {
  }

  /**
  Counting `n` in a series shows in the sums the code returns, whatever orders they visit the series in: the
  plain sum and the series' own group grow by `n` exactly when neither the counter nor that sum passes
  2^64 - 1; other groups, and sums that do not select the series, stay as they are.
  */
  lemma CountingShows(m: SeriesMap, q: Query, t: TagSet, n: u64, one: seq<TagSet>, two: seq<TagSet>,
                      out: map<TagSet, u64>, after: map<TagSet, u64>, g: TagSet)
    requires t in m && m[t].Counter? && n > 0
    requires ListsOnce(one, m.Keys) && Grouped(out, one, m, q)
    requires ListsOnce(two, m.Keys) && Grouped(after, two, Counted(m, t, n), q)
    ensures Matches(q, t) ==>
              (Saturated(Total(two, Counted(m, t, n), q)) - Saturated(Total(one, m, q)) == n
               <==> m[t].count + n < TWO_64 && Total(one, m, q) + n < TWO_64)
    ensures Matches(q, t) && GroupOf(q, t) == g ==>
              (ValueOf(after, g) - ValueOf(out, g) == n
               <==> m[t].count + n < TWO_64 && GroupTotal(one, m, q, g) + n < TWO_64)
    ensures GroupOf(q, t) != g || !Matches(q, t) ==> ValueOf(after, g) == ValueOf(out, g)
    ensures !Matches(q, t) ==> Saturated(Total(two, Counted(m, t, n), q)) == Saturated(Total(one, m, q))
  {
    hide Total, GroupTotal, GroupOf, Matches, Weight, Counted, Saturated;
    PlainSumShows(m, q, t, n, one, two);
    GroupSumShows(m, q, t, n, one, two, g);
    GroupedValue(out, one, m, q, g);
    GroupedValue(after, two, Counted(m, t, n), q, g);
  }

  lemma GroupedValue(out: map<TagSet, u64>, order: seq<TagSet>, m: SeriesMap, q: Query, g: TagSet)
    requires Grouped(out, order, m, q)
    ensures ValueOf(out, g) == Saturated(GroupTotal(order, m, q, g))
  {
    hide GroupTotal;
  }

  lemma PlainSumShows(m: SeriesMap, q: Query, t: TagSet, n: u64, one: seq<TagSet>, two: seq<TagSet>)
    requires t in m && m[t].Counter? && n > 0 && ListsOnce(one, m.Keys) && ListsOnce(two, m.Keys)
    ensures Matches(q, t) ==>
              (Saturated(Total(two, Counted(m, t, n), q)) - Saturated(Total(one, m, q)) == n
               <==> m[t].count + n < TWO_64 && Total(one, m, q) + n < TWO_64)
    ensures !Matches(q, t) ==> Total(two, Counted(m, t, n), q) == Total(one, m, q)
  {
    hide Total, GroupTotal, GroupOf, Matches, Weight, Counted;
    OrderFree(one, two, m.Keys, m, q, []);
    CountingAdds(two, m.Keys, m, q, t, n, []);
    if Matches(q, t) {
      var i :| 0 <= i < |one| && one[i] == t;
      GroupHasItsSeries(one, m, q, i);
      SelectedWeight(m, q, t);
      GainShows(Total(one, m, q), m[t].count, n);
    }
  }

  lemma GroupSumShows(m: SeriesMap, q: Query, t: TagSet, n: u64, one: seq<TagSet>, two: seq<TagSet>, g: TagSet)
    requires t in m && m[t].Counter? && n > 0 && ListsOnce(one, m.Keys) && ListsOnce(two, m.Keys)
    ensures Matches(q, t) && GroupOf(q, t) == g ==>
              (Saturated(GroupTotal(two, Counted(m, t, n), q, g)) - Saturated(GroupTotal(one, m, q, g)) == n
               <==> m[t].count + n < TWO_64 && GroupTotal(one, m, q, g) + n < TWO_64)
    ensures GroupOf(q, t) != g || !Matches(q, t) ==> GroupTotal(two, Counted(m, t, n), q, g) == GroupTotal(one, m, q, g)
  {
    hide Total, GroupTotal, GroupOf, Matches, Weight, Counted;
    OrderFree(one, two, m.Keys, m, q, g);
    CountingAdds(two, m.Keys, m, q, t, n, g);
    if Matches(q, t) && GroupOf(q, t) == g {
      var i :| 0 <= i < |one| && one[i] == t;
      GroupHasItsSeries(one, m, q, i);
      SelectedWeight(m, q, t);
      GainShows(GroupTotal(one, m, q, g), m[t].count, n);
    }
  }

  lemma SelectedWeight(m: SeriesMap, q: Query, t: TagSet)
    requires t in m && m[t].Counter? && Matches(q, t)
    ensures Weight(m, q, t) == m[t].count
  {
  }

  /**
  Two series with named tags, each key once, are in one group exactly when they have the same text, or none,
  under the name of every group key.
  */
  lemma GroupsAgreeOnText(ids: map<string, u32>, names: seq<string>, filters: seq<TagFilter>, ks: seq<string>,
                          a: seq<(string, string)>, b: seq<(string, string)>)
    requires Agree(ids, names) && forall i :: 0 <= i < |ks| ==> ks[i] in ids
    requires forall i :: 0 <= i < |a| ==> a[i].0 in ids && a[i].1 in ids
    requires forall i :: 0 <= i < |b| ==> b[i].0 in ids && b[i].1 in ids
    requires forall i, j :: 0 <= i < j < |a| ==> a[i].0 != a[j].0
    requires forall i, j :: 0 <= i < j < |b| ==> b[i].0 != b[j].0
    ensures var keys := seq(|ks|, i requires 0 <= i < |ks| => ids[ks[i]]);
            var q := Query(filters, GroupKeys(keys));
            GroupOf(q, SortTags(Numbered(ids, a))) == GroupOf(q, SortTags(Numbered(ids, b)))
            <==> forall i :: 0 <= i < |ks| ==> TextOf(a, ks[i]) == TextOf(b, ks[i])
  {
    var keys := seq(|ks|, i requires 0 <= i < |ks| => ids[ks[i]]);
    var t, u := SortTags(Numbered(ids, a)), SortTags(Numbered(ids, b));
    GroupsAgreeOnKeys(keys, filters, t, u);
    forall i | 0 <= i < |ks|
      ensures keys[i] == ids[ks[i]] && (Lookup(t, keys[i]) == Lookup(u, keys[i]) <==> TextOf(a, ks[i]) == TextOf(b, ks[i]))
    {
      ResolvedText(ids, names, a, ks[i]);
      ResolvedText(ids, names, b, ks[i]);
      if TextOf(a, ks[i]).Some? && TextOf(b, ks[i]).Some? {
        InternerIsInjective(ids, names, TextOf(a, ks[i]).value, TextOf(b, ks[i]).value);
      }
    }
    assert (forall k :: k in keys ==> Lookup(t, k) == Lookup(u, k))
      <==> forall i :: 0 <= i < |ks| ==> Lookup(t, keys[i]) == Lookup(u, keys[i]);
  }

  /** What each filter selects, by the text a series has under the filter's key. */
  lemma FiltersGoByText(ids: map<string, u32>, names: seq<string>, groupKeys: seq<u32>, tags: seq<(string, string)>,
                        k: string, v: string)
    requires Agree(ids, names) && k in ids && v in ids
    requires forall i :: 0 <= i < |tags| ==> tags[i].0 in ids && tags[i].1 in ids
    requires forall i, j :: 0 <= i < j < |tags| ==> tags[i].0 != tags[j].0
    ensures var t := SortTags(Numbered(ids, tags));
            && (Matches(Query([Eq(ids[k], ids[v])], groupKeys), t) <==> (k, v) in tags)
            && (Matches(Query([NotEq(ids[k], ids[v])], groupKeys), t) <==> (k, v) !in tags)
            && (Matches(Query([Has(ids[k])], groupKeys), t) <==> exists i :: 0 <= i < |tags| && tags[i].0 == k)
            && (Matches(Query([Missing(ids[k])], groupKeys), t) <==> forall i :: 0 <= i < |tags| ==> tags[i].0 != k)
  {
    hide Lookup, SortTags, Numbered, FilterMatches;
    var t := SortTags(Numbered(ids, tags));
    OneFilter(Eq(ids[k], ids[v]), groupKeys, t);
    OneFilter(NotEq(ids[k], ids[v]), groupKeys, t);
    OneFilter(Has(ids[k]), groupKeys, t);
    OneFilter(Missing(ids[k]), groupKeys, t);
    ResolvedText(ids, names, tags, k);
    ListedIsText(tags, k, v);
    if TextOf(tags, k).Some? {
      InternerIsInjective(ids, names, TextOf(tags, k).value, v);
    }
    FilterFinds(t, ids[k], ids[v]);
  }

  lemma OneFilter(f: TagFilter, groupKeys: seq<u32>, t: TagSet)
    ensures Matches(Query([f], groupKeys), t) <==> FilterMatches(f, t)
  {
    hide FilterMatches;
    assert [f][0] == f;
  }

  lemma FilterFinds(t: TagSet, k: u32, v: u32)
    ensures FilterMatches(Eq(k, v), t) <==> Lookup(t, k) == Some(v)
    ensures FilterMatches(NotEq(k, v), t) <==> Lookup(t, k) != Some(v)
    ensures FilterMatches(Has(k), t) <==> Lookup(t, k).Some?
    ensures FilterMatches(Missing(k), t) <==> Lookup(t, k).None?
  {
  }

  lemma ListedIsText(tags: seq<(string, string)>, k: string, v: string)
    requires forall i, j :: 0 <= i < j < |tags| ==> tags[i].0 != tags[j].0
    ensures (k, v) in tags <==> TextOf(tags, k) == Some(v)
    ensures TextOf(tags, k).Some? <==> exists i :: 0 <= i < |tags| && tags[i].0 == k
  {
    hide TextOf;
    TextIsListed(tags, k);
    if TextOf(tags, k).Some? {
      var i :| 0 <= i < |tags| && tags[i] == (k, TextOf(tags, k).value);
      assert tags[i].0 == k;
    }
  }

  /** Filters narrow: a series passes a list of filters exactly when it passes each part of the list. */
  lemma FiltersNarrow(a: seq<TagFilter>, b: seq<TagFilter>, groupKeys: seq<u32>, t: TagSet)
    ensures Matches(Query(a + b, groupKeys), t) <==> Matches(Query(a, groupKeys), t) && Matches(Query(b, groupKeys), t)
    ensures Matches(Query([], groupKeys), t)
  {
    hide FilterMatches;
    if Matches(Query(a + b, groupKeys), t) {
      assert forall i :: 0 <= i < |a| ==> (a + b)[i] == a[i];
      assert forall i :: 0 <= i < |b| ==> (a + b)[|a| + i] == b[i];
    }
  }
}
