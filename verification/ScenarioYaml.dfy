/** The YAML document of a run: resolved scenarios exported to it, and scenario options imported from it. */
module ScenarioYaml {
  import opened Words
  import opened Wrappers
  import opened Strings
  import opened Schedule
  import opened Scenarios

  datatype ScenarioDoc = ScenarioDoc(
    name: Option<string>, exec: Option<string>, tags: map<string, string>, executor: Option<string>,
    vus: Option<u64>, iterations: Option<u64>, duration: Option<Duration>,
    startVus: Option<u64>, stages: seq<Stage>,
    startRate: Option<u64>, timeUnit: Option<Duration>, preAllocatedVus: Option<u64>, maxVus: Option<u64>
  )

  // ------------------------------------------------------------------------- meaning

  /** The last value of a repeated tag stays. */
  function TagMap(tags: Tags): map<string, string> {
    if tags == [] then map[] else TagMap(tags[..|tags| - 1])[tags[|tags| - 1].0 := tags[|tags| - 1].1]
  }

  function Exported(c: ScenarioConfig): ScenarioDoc {
    var base := ScenarioDoc(Some(c.scenario), Some(c.exec), TagMap(c.tags), None, None, None, None, None, [], None, None, None, None);
    match c.executor
    case ConstantVus(vus) =>
      base.(executor := Some("constant-vus"), vus := Some(vus), iterations := c.iterations, duration := c.duration)
    case RampingVus(start, stages) =>
      base.(executor := Some("ramping-vus"), startVus := Some(start), stages := stages)
    case RampingArrivalRate(rate, timeUnit, pre, max, stages) =>
      base.(executor := Some("ramping-arrival-rate"), startRate := Some(rate), timeUnit := Some(timeUnit),
            preAllocatedVus := Some(pre), maxVus := Some(max), stages := stages)
  }

  /** The pairs of a tag map in the order of its keys. */
  function TagList(order: seq<string>, tags: map<string, string>): (r: Tags)
    requires forall k :: k in order ==> k in tags
    ensures |r| == |order|
  {
    if order == [] then []
    else TagList(order[..|order| - 1], tags) + [(order[|order| - 1], tags[order[|order| - 1]])]
  }

  /** `o` is what the document's scenario is read as. */
  ghost predicate ReadsAs(d: ScenarioDoc, defaultName: string, o: ScenarioOptions) {
    && (exists order :: InKeyOrder(order, d.tags.Keys) && o.tags == TagList(order, d.tags))
    && o.name == UnwrapOr(d.name, defaultName)
    && o.exec == d.exec && o.executor == d.executor
    && o.vus == d.vus && o.iterations == d.iterations && o.duration == d.duration
    && o.startVus == d.startVus && o.stages == d.stages
    && o.startRate == d.startRate && o.timeUnit == d.timeUnit
    && o.preAllocatedVus == d.preAllocatedVus && o.maxVus == d.maxVus
  }

  // --------------------------------------------------------------------------- loops

  method BuildDoc(c: ScenarioConfig) returns (d: ScenarioDoc)
    ensures d == Exported(c)
  {
    var tags: map<string, string> := map[];
    for i := 0 to |c.tags|
      invariant tags == TagMap(c.tags[..i])
    {
      assert c.tags[..i + 1][..i] == c.tags[..i];
      tags := tags[c.tags[i].0 := c.tags[i].1];
    }
    assert c.tags[..|c.tags|] == c.tags;
    match c.executor {
      case ConstantVus(vus) =>
        d := ScenarioDoc(Some(c.scenario), Some(c.exec), tags, Some("constant-vus"), Some(vus), c.iterations, c.duration,
                         None, [], None, None, None, None);
      case RampingVus(start, stages) =>
        d := ScenarioDoc(Some(c.scenario), Some(c.exec), tags, Some("ramping-vus"), None, None, None,
                         Some(start), stages, None, None, None, None);
      case RampingArrivalRate(rate, timeUnit, pre, max, stages) =>
        d := ScenarioDoc(Some(c.scenario), Some(c.exec), tags, Some("ramping-arrival-rate"), None, None, None,
                         None, stages, Some(rate), Some(timeUnit), Some(pre), Some(max));
    }
  }

  method BuildDocs(cs: seq<ScenarioConfig>) returns (ds: seq<ScenarioDoc>)
    ensures |ds| == |cs| && forall i :: 0 <= i < |cs| ==> ds[i] == Exported(cs[i])
  {
    ds := [];
    for i := 0 to |cs|
      invariant |ds| == i && forall j :: 0 <= j < i ==> ds[j] == Exported(cs[j])
    {
      var d := BuildDoc(cs[i]);
      ds := ds + [d];
    }
  }

  method IntoOptions(d: ScenarioDoc, defaultName: string) returns (o: ScenarioOptions)
    ensures ReadsAs(d, defaultName, o)
  {
    var order := KeysInOrder(d.tags.Keys);
    var tags: Tags := [];
    for i := 0 to |order|
      invariant tags == TagList(order[..i], d.tags)
    {
      assert order[..i + 1][..i] == order[..i];
      tags := tags + [(order[i], d.tags[order[i]])];
    }
    assert order[..|order|] == order;
    o := ScenarioOptions(UnwrapOr(d.name, defaultName), d.exec, tags, d.executor, d.vus, d.iterations, d.duration,
                         d.startVus, d.stages, d.startRate, d.timeUnit, d.preAllocatedVus, d.maxVus);
  }

  /** Reads every scenario of a document; names are defaulted by position when there are several. */
  method LoadScenarios(ds: seq<ScenarioDoc>, defaultNames: seq<string>) returns (os: seq<ScenarioOptions>)
    requires |defaultNames| == |ds|
    ensures |os| == |ds| && forall i :: 0 <= i < |ds| ==> ReadsAs(ds[i], defaultNames[i], os[i])
  {
    os := [];
    for i := 0 to |ds|
      invariant |os| == i && forall j :: 0 <= j < i ==> ReadsAs(ds[j], defaultNames[j], os[j])
    {
      var o := IntoOptions(ds[i], defaultNames[i]);
      os := os + [o];
    }
  }

  // ------------------------------------------------------------------------ fixpoint

  /** The same configuration, its tags taken as a map. */
  predicate Same(a: ScenarioConfig, b: ScenarioConfig) {
    && a.exec == b.exec && a.scenario == b.scenario && a.executor == b.executor
    && a.iterations == b.iterations && a.duration == b.duration && TagMap(a.tags) == TagMap(b.tags)
  }

  lemma {:induction false} TagListMaps(order: seq<string>, tags: map<string, string>)
    requires forall k :: k in order ==> k in tags
    ensures forall k :: k in TagMap(TagList(order, tags)) <==> k in order
    ensures forall k :: k in order ==> TagMap(TagList(order, tags))[k] == tags[k]
    decreases |order|
  {
    if order != [] {
      var last := |order| - 1;
      TagListMaps(order[..last], tags);
      var list := TagList(order, tags);
      assert list[..|list| - 1] == TagList(order[..last], tags);
      assert order == order[..last] + [order[last]];
    }
  }

  /** Listing a tag map and collecting the list gives the map back. */
  lemma TagsComeBack(order: seq<string>, tags: map<string, string>)
    requires InKeyOrder(order, tags.Keys)
    ensures TagMap(TagList(order, tags)) == tags
  {
    TagListMaps(order, tags);
    var back := TagMap(TagList(order, tags));
    assert forall k :: k in back <==> k in tags.Keys;
    assert back.Keys == tags.Keys;
  }

  /** The document's tags are the configuration's, the last value of a repeated one. */
  lemma {:induction false} LastTagStays(tags: Tags, i: nat)
    requires i < |tags| && forall j :: i < j < |tags| ==> tags[j].0 != tags[i].0
    ensures tags[i].0 in TagMap(tags) && TagMap(tags)[tags[i].0] == tags[i].1
    decreases |tags|
  {
    var last := |tags| - 1;
    if i < last {
      assert tags[last].0 != tags[i].0;
      LastTagStays(tags[..last], i);
    }
  }

  lemma {:induction false} OnlyTagsStay(tags: Tags, k: string)
    requires k in TagMap(tags)
    ensures exists i :: 0 <= i < |tags| && tags[i].0 == k
    decreases |tags|
  {
    var last := |tags| - 1;
    if tags[last].0 != k {
      OnlyTagsStay(tags[..last], k);
    }
  }

  /** A document sets no top-level options. */
  function FromYaml(os: seq<ScenarioOptions>): ScriptOptions {
    ScriptOptions(None, None, None, os)
  }

  /** One scenario comes back from its document, if and only if it was runnable. */
  lemma OneComesBack(c: ScenarioConfig, defaultName: string, o: ScenarioOptions, os: seq<ScenarioOptions>)
    requires ReadsAs(Exported(c), defaultName, o)
    ensures var r := ResolveOne(o, FromYaml(os), NO_OVERRIDES);
            r.Ok? && Same(r.value, c) <==> Runnable(c)
  {
    hide TagMap, TagList, StagesTotal, MaxVus;
    var order :| InKeyOrder(order, Exported(c).tags.Keys) && o.tags == TagList(order, Exported(c).tags);
    TagsComeBack(order, TagMap(c.tags));
  }

  /**
  Exporting configurations and resolving the import, with no overrides, gives the same configurations if
  and only if there are some and all are runnable.
  */
  lemma ExportIsFixpoint(cs: seq<ScenarioConfig>, defaultNames: seq<string>, os: seq<ScenarioOptions>)
    requires |os| == |cs| == |defaultNames|
    requires forall i :: 0 <= i < |cs| ==> ReadsAs(Exported(cs[i]), defaultNames[i], os[i])
    ensures var r := Resolve(FromYaml(os), NO_OVERRIDES);
            r.Ok? && |r.value| == |cs| && (forall i :: 0 <= i < |cs| ==> Same(r.value[i], cs[i]))
            <==> cs != [] && forall i :: 0 <= i < |cs| ==> Runnable(cs[i])
  {
    hide ResolveOne, ReadsAs, Exported, Same, Runnable, ResolveEach;
    var opts := FromYaml(os);
    forall i | 0 <= i < |cs|
      ensures var r := ResolveOne(os[i], opts, NO_OVERRIDES); r.Ok? && Same(r.value, cs[i]) <==> Runnable(cs[i])
    {
      OneComesBack(cs[i], defaultNames[i], os[i], os);
    }
    if cs != [] {
      if forall i :: 0 <= i < |cs| ==> Runnable(cs[i]) {
        EachResolves(os, opts, NO_OVERRIDES);
      }
      if ResolveEach(os, opts, NO_OVERRIDES).Ok? {
        forall i | 0 <= i < |cs|
          ensures ResolveOne(os[i], opts, NO_OVERRIDES) == Ok(ResolveEach(os, opts, NO_OVERRIDES).value[i])
        {
          EachIsOne(os, opts, NO_OVERRIDES, i);
        }
      }
    }
  }

  /** Whatever options and overrides resolve, the export of what they resolve to imports as the same configurations. */
  lemma ResolvedSurvivesExport(opts: ScriptOptions, cfg: Overrides, defaultNames: seq<string>, os: seq<ScenarioOptions>)
    requires Resolve(opts, cfg).Ok?
    requires |os| == |defaultNames| == |Resolve(opts, cfg).value|
    requires forall i :: 0 <= i < |os| ==> ReadsAs(Exported(Resolve(opts, cfg).value[i]), defaultNames[i], os[i])
    ensures var r := Resolve(FromYaml(os), NO_OVERRIDES);
            && r.Ok? && |r.value| == |os|
            && forall i :: 0 <= i < |os| ==>
                 Same(r.value[i], Resolve(opts, cfg).value[i]) && Exported(r.value[i]) == Exported(Resolve(opts, cfg).value[i])
  {
    hide Resolve, Runnable, ReadsAs;
    var cs := Resolve(opts, cfg).value;
    ResolvedIsRunnable(opts, cfg);
    ExportIsFixpoint(cs, defaultNames, os);
  }

  /** The whole way round: resolve, write the document, read it, resolve again. */
  method ExportAndResolve(opts: ScriptOptions, cfg: Overrides, defaultNames: seq<string>)
    returns (first: Result<seq<ScenarioConfig>, ConfigError>, second: Result<seq<ScenarioConfig>, ConfigError>)
    requires |defaultNames| == if opts.scenarios == [] then 1 else |opts.scenarios|
    ensures first == Resolve(opts, cfg)
    ensures first.Err? ==> second == first
    ensures first.Ok? ==>
              && second.Ok? && |second.value| == |first.value|
              && forall i :: 0 <= i < |first.value| ==> Same(second.value[i], first.value[i])
  {
    hide ResolveOne, Same, ReadsAs, Exported, ResolveEach;
    first := ScenariosFromOptions(opts, cfg);
    if first.Err? {
      return first, first;
    }
    var docs := BuildDocs(first.value);
    var os := LoadScenarios(docs, defaultNames);
    ResolvedSurvivesExport(opts, cfg, defaultNames, os);
    second := ScenariosFromOptions(FromYaml(os), NO_OVERRIDES);
  }
}
