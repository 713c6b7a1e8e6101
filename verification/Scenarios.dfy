/** Scenario configuration: what the script's options and the command line's overrides resolve to. */
module Scenarios {
  import opened Arithmetic
  import opened Words
  import opened Wrappers
  import opened Schedule

  type Tags = seq<(string, string)>

  /** Command-line overrides. */
  datatype Overrides = Overrides(iterations: Option<u64>, vus: Option<u64>, duration: Option<Duration>)

  const NO_OVERRIDES: Overrides := Overrides(None, None, None)

  datatype ScenarioOptions = ScenarioOptions(
    name: string, exec: Option<string>, tags: Tags, executor: Option<string>,
    vus: Option<u64>, iterations: Option<u64>, duration: Option<Duration>,
    startVus: Option<u64>, stages: seq<Stage>,
    startRate: Option<u64>, timeUnit: Option<Duration>, preAllocatedVus: Option<u64>, maxVus: Option<u64>
  )

  datatype ScriptOptions = ScriptOptions(
    vus: Option<u64>, iterations: Option<u64>, duration: Option<Duration>, scenarios: seq<ScenarioOptions>
  )

  datatype Executor =
    | ConstantVus(vus: u64)
    | RampingVus(startVus: u64, stages: seq<Stage>)
    | RampingArrivalRate(startRate: u64, timeUnit: Duration, preAllocatedVus: u64, maxVus: u64, stages: seq<Stage>)

  datatype ScenarioConfig = ScenarioConfig(
    exec: string, scenario: string, tags: Tags, executor: Executor, iterations: Option<u64>, duration: Option<Duration>
  )

  datatype ConfigError =
    | InvalidExecutor | InvalidVus | InvalidIterations | InvalidStages | InvalidTimeUnit | InvalidPreAllocatedVus | InvalidMaxVus

  datatype ExecutorKind = Constant | Ramping | ArrivalRate

  function ParseKind(s: string): Option<ExecutorKind> {
    if s == "constant-vus" || s == "constant" || s == "per-vu-iterations" then Some(Constant)
    else if s == "ramping-vus" then Some(Ramping)
    else if s == "ramping-arrival-rate" || s == "ramping-rps" then Some(ArrivalRate)
    else None
  }

  function Or<T>(a: Option<T>, b: Option<T>): Option<T> {
    if a.Some? then a else b
  }

  function UnwrapOr<T>(a: Option<T>, d: T): T {
    if a.Some? then a.value else d
  }

  /** The stage durations added up, clamped. */
  function StagesTotal(stages: seq<Stage>): Duration {
    if stages == [] then 0
    else SaturatingAddDuration(StagesTotal(stages[..|stages| - 1]), stages[|stages| - 1].duration)
  }

  /** The scenario's total is where its ramp ends. */
  lemma {:induction false} TotalIsRampEnd(start: u64, stages: seq<Stage>)
    ensures StagesTotal(stages) == TotalDuration(Ramp(start, stages, CumulativeEnds(stages)))
    decreases |stages|
  {
    if stages != [] {
      TotalIsRampEnd(start, stages[..|stages| - 1]);
    }
  }

  // ------------------------------------------------------------------- resolution

  predicate AnyOverride(cfg: Overrides) {
    cfg.vus.Some? || cfg.iterations.Some? || cfg.duration.Some?
  }

  function ResolveConstant(s: ScenarioOptions, opts: ScriptOptions, cfg: Overrides, exec: string): Result<ScenarioConfig, ConfigError> {
    var vus := UnwrapOr(Or(cfg.vus, Or(s.vus, opts.vus)), 1);
    var iterations := Or(cfg.iterations, Or(s.iterations, opts.iterations));
    if vus == 0 then Err(InvalidVus)
    else if iterations == Some(0) then Err(InvalidIterations)
    else Ok(ScenarioConfig(exec, s.name, s.tags, ConstantVus(vus), iterations, Or(cfg.duration, Or(s.duration, opts.duration))))
  }

  function ResolveRamping(s: ScenarioOptions, opts: ScriptOptions, exec: string): Result<ScenarioConfig, ConfigError> {
    var startVus := UnwrapOr(s.startVus, 0);
    if s.iterations.Some? || opts.iterations.Some? then Err(InvalidIterations)
    else if s.stages == [] then Err(InvalidStages)
    else if MaxVus(startVus, s.stages) == 0 then Err(InvalidVus)
    else if StagesTotal(s.stages) == 0 then Err(InvalidStages)
    else Ok(ScenarioConfig(exec, s.name, s.tags, RampingVus(startVus, s.stages), None, Some(StagesTotal(s.stages))))
  }

  function ResolveArrival(s: ScenarioOptions, opts: ScriptOptions, exec: string): Result<ScenarioConfig, ConfigError> {
    var timeUnit := UnwrapOr(s.timeUnit, SECOND);
    var pre := UnwrapOr(s.preAllocatedVus, 1);
    var max := UnwrapOr(s.maxVus, pre);
    if s.iterations.Some? || opts.iterations.Some? then Err(InvalidIterations)
    else if s.stages == [] then Err(InvalidStages)
    else if timeUnit == 0 then Err(InvalidTimeUnit)
    else if pre == 0 then Err(InvalidPreAllocatedVus)
    else if max < pre then Err(InvalidMaxVus)
    else if StagesTotal(s.stages) == 0 then Err(InvalidStages)
    else Ok(ScenarioConfig(exec, s.name, s.tags, RampingArrivalRate(UnwrapOr(s.startRate, 0), timeUnit, pre, max, s.stages),
                           None, Some(StagesTotal(s.stages))))
  }

  function ResolveOne(s: ScenarioOptions, opts: ScriptOptions, cfg: Overrides): Result<ScenarioConfig, ConfigError> {
    var exec := UnwrapOr(s.exec, "Default");
    match ParseKind(UnwrapOr(s.executor, "constant-vus"))
    case None => Err(InvalidExecutor)
    case Some(kind) =>
      if kind == Constant || AnyOverride(cfg) then ResolveConstant(s, opts, cfg, exec)
      else if kind == Ramping then ResolveRamping(s, opts, exec)
      else ResolveArrival(s, opts, exec)
  }

  function ResolveEach(scenarios: seq<ScenarioOptions>, opts: ScriptOptions, cfg: Overrides): (r: Result<seq<ScenarioConfig>, ConfigError>)
    ensures r.Ok? ==> |r.value| == |scenarios|
  {
    if scenarios == [] then Ok([])
    else
      var last := |scenarios| - 1;
      var front :- ResolveEach(scenarios[..last], opts, cfg);
      var one :- ResolveOne(scenarios[last], opts, cfg);
      Ok(front + [one])
  }

  /** Without scenarios the top-level options make one; it runs once unless something limits it. */
  function ResolveTopLevel(opts: ScriptOptions, cfg: Overrides): Result<seq<ScenarioConfig>, ConfigError> {
    var vus := UnwrapOr(Or(cfg.vus, opts.vus), 1);
    var duration := Or(cfg.duration, opts.duration);
    var iterations := Or(cfg.iterations, Or(opts.iterations, if duration.Some? then None else Some(1)));
    if vus == 0 then Err(InvalidVus)
    else if iterations == Some(0) then Err(InvalidIterations)
    else Ok([ScenarioConfig("Default", "Default", [], ConstantVus(vus), iterations, duration)])
  }

  function Resolve(opts: ScriptOptions, cfg: Overrides): Result<seq<ScenarioConfig>, ConfigError> {
    if opts.scenarios != [] then ResolveEach(opts.scenarios, opts, cfg) else ResolveTopLevel(opts, cfg)
  }

  method ScenariosFromOptions(opts: ScriptOptions, cfg: Overrides) returns (r: Result<seq<ScenarioConfig>, ConfigError>)
    ensures r == Resolve(opts, cfg)
  {
    if opts.scenarios == [] {
      r := TopLevelScenario(opts, cfg);
      return;
    }
    var scenarios := opts.scenarios;
    var out: seq<ScenarioConfig> := [];
    for i := 0 to |scenarios|
      invariant ResolveEach(scenarios[..i], opts, cfg) == Ok(out)
    {
      assert scenarios[..i + 1][..i] == scenarios[..i];
      StopsAtError(scenarios, opts, cfg, i);
      var one := ScenarioFromOptions(scenarios[i], opts, cfg);
      if one.Err? {
        return Err(one.error);
      }
      out := out + [one.value];
    }
    assert scenarios[..|scenarios|] == scenarios;
    r := Ok(out);
  }

  /** One scenario; an override turns a ramp into a constant scenario. */
  method ScenarioFromOptions(s: ScenarioOptions, opts: ScriptOptions, cfg: Overrides) returns (r: Result<ScenarioConfig, ConfigError>)
    ensures r == ResolveOne(s, opts, cfg)
  {
    var exec := UnwrapOr(s.exec, "Default");
    var kind := ParseKind(UnwrapOr(s.executor, "constant-vus"));
    if kind.None? {
      return Err(InvalidExecutor);
    }
    if (AnyOverride(cfg) && kind.value != Constant) || kind.value == Constant {
      var vus := UnwrapOr(Or(Or(cfg.vus, s.vus), opts.vus), 1);
      if vus == 0 {
        return Err(InvalidVus);
      }
      var iterations := Or(Or(cfg.iterations, s.iterations), opts.iterations);
      if iterations == Some(0) {
        return Err(InvalidIterations);
      }
      var duration := Or(Or(cfg.duration, s.duration), opts.duration);
      return Ok(ScenarioConfig(exec, s.name, s.tags, ConstantVus(vus), iterations, duration));
    }
    if s.iterations.Some? || opts.iterations.Some? {
      return Err(InvalidIterations);
    }
    if s.stages == [] {
      return Err(InvalidStages);
    }
    var total := TotalOfStages(s.stages);
    if kind.value == Ramping {
      var startVus := UnwrapOr(s.startVus, 0);
      var maxVus := LargestTarget(s.stages, startVus);
      if maxVus == 0 {
        return Err(InvalidVus);
      }
      if total == 0 {
        return Err(InvalidStages);
      }
      return Ok(ScenarioConfig(exec, s.name, s.tags, RampingVus(startVus, s.stages), None, Some(total)));
    }
    var startRate := UnwrapOr(s.startRate, 0);
    var timeUnit := UnwrapOr(s.timeUnit, SECOND);
    if timeUnit == 0 {
      return Err(InvalidTimeUnit);
    }
    var pre := UnwrapOr(s.preAllocatedVus, 1);
    if pre == 0 {
      return Err(InvalidPreAllocatedVus);
    }
    var max := UnwrapOr(s.maxVus, pre);
    if max < pre {
      return Err(InvalidMaxVus);
    }
    if total == 0 {
      return Err(InvalidStages);
    }
    r := Ok(ScenarioConfig(exec, s.name, s.tags, RampingArrivalRate(startRate, timeUnit, pre, max, s.stages), None, Some(total)));
  }

  method TopLevelScenario(opts: ScriptOptions, cfg: Overrides) returns (r: Result<seq<ScenarioConfig>, ConfigError>)
    ensures r == ResolveTopLevel(opts, cfg)
  {
    var vus := UnwrapOr(Or(cfg.vus, opts.vus), 1);
    if vus == 0 {
      return Err(InvalidVus);
    }
    var iterations := Or(cfg.iterations, opts.iterations);
    if iterations.None? && Or(cfg.duration, opts.duration).None? {
      iterations := Some(1);
    }
    if iterations == Some(0) {
      return Err(InvalidIterations);
    }
    r := Ok([ScenarioConfig("Default", "Default", [], ConstantVus(vus), iterations, Or(cfg.duration, opts.duration))]);
  }

  method TotalOfStages(stages: seq<Stage>) returns (total: Duration)
    ensures total == StagesTotal(stages)
  {
    total := 0;
    for i := 0 to |stages|
      invariant total == StagesTotal(stages[..i])
    {
      assert stages[..i + 1][..i] == stages[..i];
      total := SaturatingAddDuration(total, stages[i].duration);
    }
    assert stages[..|stages|] == stages;
  }

  method LargestTarget(stages: seq<Stage>, start: u64) returns (max: u64)
    ensures max == MaxVus(start, stages)
    ensures max == start || exists i :: 0 <= i < |stages| && stages[i].target == max
  {
    max := start;
    for i := 0 to |stages|
      invariant max == MaxVus(start, stages[..i])
      invariant max == start || exists j :: 0 <= j < i && stages[j].target == max
    {
      assert stages[..i + 1][..i] == stages[..i];
      max := Max(stages[i].target, max);
    }
    assert stages[..|stages|] == stages;
  }

  lemma {:induction false} StopsAtError(scenarios: seq<ScenarioOptions>, opts: ScriptOptions, cfg: Overrides, n: nat)
    requires n < |scenarios|
    ensures ResolveEach(scenarios[..n + 1], opts, cfg).Err? ==>
              ResolveEach(scenarios, opts, cfg) == ResolveEach(scenarios[..n + 1], opts, cfg)
    decreases |scenarios|
  {
    hide ResolveOne;
    if n + 1 == |scenarios| {
      assert scenarios[..n + 1] == scenarios;
    } else {
      var front := scenarios[..|scenarios| - 1];
      StopsAtError(front, opts, cfg, n);
      assert front[..n + 1] == scenarios[..n + 1];
    }
  }

  // --------------------------------------------------------------- what resolves

  /** What a configuration that resolved satisfies; the pacer and the schedules rely on it. */
  predicate Runnable(c: ScenarioConfig) {
    match c.executor
    case ConstantVus(vus) => vus > 0 && c.iterations != Some(0)
    case RampingVus(start, stages) =>
      && stages != [] && MaxVus(start, stages) > 0 && StagesTotal(stages) > 0
      && c.iterations == None && c.duration == Some(StagesTotal(stages))
    case RampingArrivalRate(_, timeUnit, pre, max, stages) =>
      && stages != [] && timeUnit > 0 && 1 <= pre <= max && StagesTotal(stages) > 0
      && c.iterations == None && c.duration == Some(StagesTotal(stages))
  }

  lemma {:induction false} EachIsOne(scenarios: seq<ScenarioOptions>, opts: ScriptOptions, cfg: Overrides, i: nat)
    requires i < |scenarios| && ResolveEach(scenarios, opts, cfg).Ok?
    ensures ResolveOne(scenarios[i], opts, cfg) == Ok(ResolveEach(scenarios, opts, cfg).value[i])
    decreases |scenarios|
  {
    hide ResolveOne;
    var last := |scenarios| - 1;
    if i < last {
      EachIsOne(scenarios[..last], opts, cfg, i);
    }
  }

  lemma {:induction false} EachResolves(scenarios: seq<ScenarioOptions>, opts: ScriptOptions, cfg: Overrides)
    requires forall i :: 0 <= i < |scenarios| ==> ResolveOne(scenarios[i], opts, cfg).Ok?
    ensures ResolveEach(scenarios, opts, cfg).Ok?
    decreases |scenarios|
  {
    hide ResolveOne;
    if scenarios != [] {
      EachResolves(scenarios[..|scenarios| - 1], opts, cfg);
    }
  }

  /** Resolution yields at least one scenario, every one runnable. */
  lemma ResolvedIsRunnable(opts: ScriptOptions, cfg: Overrides)
    requires Resolve(opts, cfg).Ok?
    ensures Resolve(opts, cfg).value != []
    ensures forall i :: 0 <= i < |Resolve(opts, cfg).value| ==> Runnable(Resolve(opts, cfg).value[i])
  {
    if opts.scenarios != [] {
      forall i | 0 <= i < |opts.scenarios|
        ensures Runnable(Resolve(opts, cfg).value[i])
      {
        EachIsOne(opts.scenarios, opts, cfg, i);
      }
    }
  }

  /** With any override on the command line every scenario becomes constant, and each override wins. */
  lemma OverridesFlattenRamps(opts: ScriptOptions, cfg: Overrides, i: nat)
    requires Resolve(opts, cfg).Ok? && AnyOverride(cfg) && i < |Resolve(opts, cfg).value|
    ensures var c := Resolve(opts, cfg).value[i];
            && c.executor.ConstantVus?
            && (cfg.vus.Some? ==> c.executor.vus == cfg.vus.value)
            && (cfg.iterations.Some? ==> c.iterations == cfg.iterations)
            && (cfg.duration.Some? ==> c.duration == cfg.duration)
  {
    if opts.scenarios != [] {
      EachIsOne(opts.scenarios, opts, cfg, i);
    }
  }

  /** The command line or the scenario says what two sets of top-level options differ in. */
  predicate Decided(s: ScenarioOptions, one: ScriptOptions, two: ScriptOptions, cfg: Overrides) {
    && (cfg.vus.Some? || s.vus.Some? || one.vus == two.vus)
    && (cfg.duration.Some? || s.duration.Some? || one.duration == two.duration)
    && (cfg.iterations.Some? || s.iterations.Some? || one.iterations == two.iterations)
  }

  /** Top-level options matter only where neither the command line nor some scenario says anything. */
  lemma {:induction false} TopLevelOnlyFillsIn(scenarios: seq<ScenarioOptions>, one: ScriptOptions, two: ScriptOptions, cfg: Overrides)
    requires one.scenarios == two.scenarios == scenarios != []
    requires forall i :: 0 <= i < |scenarios| ==> Decided(scenarios[i], one, two, cfg)
    ensures Resolve(one, cfg) == Resolve(two, cfg)
  {
    EachAlike(scenarios, one, two, cfg);
  }

  lemma {:induction false} EachAlike(scenarios: seq<ScenarioOptions>, one: ScriptOptions, two: ScriptOptions, cfg: Overrides)
    requires forall i :: 0 <= i < |scenarios| ==> Decided(scenarios[i], one, two, cfg)
    ensures ResolveEach(scenarios, one, cfg) == ResolveEach(scenarios, two, cfg)
    decreases |scenarios|
  {
    if scenarios != [] {
      var last := |scenarios| - 1;
      assert Decided(scenarios[last], one, two, cfg);
      assert ResolveOne(scenarios[last], one, cfg) == ResolveOne(scenarios[last], two, cfg);
      EachAlike(scenarios[..last], one, two, cfg);
    }
  }

  // ------------------------------------------------------- what configurations say

  /** The command line speaks first, then the scenario, then the top level. */
  predicate Chosen<T(==)>(cli: Option<T>, own: Option<T>, top: Option<T>, r: Option<T>) {
    && (cli.Some? ==> r == cli)
    && (cli.None? && own.Some? ==> r == own)
    && (cli.None? && own.None? ==> r == top)
  }

  predicate CalledConstant(s: ScenarioOptions) {
    s.executor in {None, Some("constant-vus"), Some("constant"), Some("per-vu-iterations")}
  }

  /** What a scenario's configuration says of the options it was written with. */
  ghost predicate AsWritten(s: ScenarioOptions, opts: ScriptOptions, cfg: Overrides, c: ScenarioConfig) {
    && c.scenario == s.name && c.tags == s.tags
    && (s.exec.Some? ==> c.exec == s.exec.value) && (s.exec.None? ==> c.exec == "Default")
    && match c.executor
       case ConstantVus(vus) =>
         && (CalledConstant(s) || AnyOverride(cfg))
         && (exists n :: Chosen(cfg.vus, s.vus, opts.vus, n) && vus == match n { case Some(v) => v case None => 1 })
         && Chosen(cfg.iterations, s.iterations, opts.iterations, c.iterations)
         && Chosen(cfg.duration, s.duration, opts.duration, c.duration)
       case RampingVus(start, stages) =>
         && s.executor == Some("ramping-vus") && !AnyOverride(cfg)
         && start == (match s.startVus { case Some(v) => v case None => 0 }) && stages == s.stages
         && c.iterations == None && c.duration == Some(StagesTotal(s.stages))
       case RampingArrivalRate(rate, timeUnit, pre, max, stages) =>
         && s.executor in {Some("ramping-arrival-rate"), Some("ramping-rps")} && !AnyOverride(cfg)
         && rate == (match s.startRate { case Some(v) => v case None => 0 })
         && timeUnit == (match s.timeUnit { case Some(v) => v case None => 1_000_000_000 })
         && pre == (match s.preAllocatedVus { case Some(v) => v case None => 1 })
         && max == (match s.maxVus { case Some(v) => v case None => pre }) && stages == s.stages
         && c.iterations == None && c.duration == Some(StagesTotal(s.stages))
  }

  lemma OneIsAsWritten(s: ScenarioOptions, opts: ScriptOptions, cfg: Overrides)
    requires ResolveOne(s, opts, cfg).Ok?
    ensures AsWritten(s, opts, cfg, ResolveOne(s, opts, cfg).value)
  {
    hide StagesTotal, MaxVus;
    assert Chosen(cfg.vus, s.vus, opts.vus, Or(cfg.vus, Or(s.vus, opts.vus)));
  }

  /** Every scenario comes out as written, the command line first and the top level last. */
  lemma ScenariosAreAsWritten(opts: ScriptOptions, cfg: Overrides, i: nat)
    requires Resolve(opts, cfg).Ok? && i < |opts.scenarios|
    ensures AsWritten(opts.scenarios[i], opts, cfg, Resolve(opts, cfg).value[i])
  {
    hide ResolveOne, AsWritten;
    EachIsOne(opts.scenarios, opts, cfg, i);
    OneIsAsWritten(opts.scenarios[i], opts, cfg);
  }

  /** Without scenarios there is one constant scenario, run once unless iterations or a duration are given. */
  lemma TopLevelIsAsWritten(opts: ScriptOptions, cfg: Overrides, vus: Option<u64>, iterations: Option<u64>, duration: Option<Duration>)
    requires opts.scenarios == []
    requires Chosen(cfg.vus, None, opts.vus, vus) && Chosen(cfg.duration, None, opts.duration, duration)
    requires Chosen(cfg.iterations, None, opts.iterations, iterations)
    ensures vus == Some(0) || iterations == Some(0) <==> Resolve(opts, cfg).Err?
    ensures Resolve(opts, cfg).Ok? ==>
              Resolve(opts, cfg).value ==
              [ScenarioConfig("Default", "Default", [], ConstantVus(match vus { case Some(v) => v case None => 1 }),
                              if iterations.None? && duration.None? then Some(1) else iterations, duration)]
  {
  }

  /** What a scenario must be for resolution to accept it. */
  ghost predicate Acceptable(s: ScenarioOptions, opts: ScriptOptions, cfg: Overrides) {
    if CalledConstant(s) || (AnyOverride(cfg) && s.executor in {Some("ramping-vus"), Some("ramping-arrival-rate"), Some("ramping-rps")}) then
      && !Chosen(cfg.vus, s.vus, opts.vus, Some(0))
      && !Chosen(cfg.iterations, s.iterations, opts.iterations, Some(0))
    else
      && s.executor in {Some("ramping-vus"), Some("ramping-arrival-rate"), Some("ramping-rps")}
      && s.iterations == None && opts.iterations == None
      && (exists i :: 0 <= i < |s.stages| && s.stages[i].duration > 0)
      && if s.executor == Some("ramping-vus") then
           (s.startVus.Some? && s.startVus.value > 0) || exists i :: 0 <= i < |s.stages| && s.stages[i].target > 0
         else
           && s.timeUnit != Some(0) && s.preAllocatedVus != Some(0)
           && (s.maxVus.Some? ==> s.maxVus.value >= match s.preAllocatedVus { case Some(v) => v case None => 1 })
  }

  lemma {:induction false} TotalIsPositive(stages: seq<Stage>)
    ensures StagesTotal(stages) > 0 <==> exists i :: 0 <= i < |stages| && stages[i].duration > 0
    decreases |stages|
  {
    if stages != [] {
      var last := |stages| - 1;
      TotalIsPositive(stages[..last]);
      assert forall i :: 0 <= i < last ==> stages[..last][i] == stages[i];
      if i :| 0 <= i < |stages| && stages[i].duration > 0 && i < last {
        assert stages[..last][i].duration > 0;
      }
    }
  }

  lemma {:induction false} LargestIsPositive(start: u64, stages: seq<Stage>)
    ensures MaxVus(start, stages) > 0 <==> start > 0 || exists i :: 0 <= i < |stages| && stages[i].target > 0
    decreases |stages|
  {
    if stages != [] {
      var last := |stages| - 1;
      LargestIsPositive(start, stages[..last]);
      assert forall i :: 0 <= i < last ==> stages[..last][i] == stages[i];
      if i :| 0 <= i < |stages| && stages[i].target > 0 && i < last {
        assert stages[..last][i].target > 0;
      }
    }
  }

  lemma OneResolvesIffAcceptable(s: ScenarioOptions, opts: ScriptOptions, cfg: Overrides)
    ensures ResolveOne(s, opts, cfg).Ok? <==> Acceptable(s, opts, cfg)
  {
    TotalIsPositive(s.stages);
    LargestIsPositive(UnwrapOr(s.startVus, 0), s.stages);
  }

  /** Scenarios resolve if and only if every one is acceptable. */
  lemma ResolvesIffAcceptable(opts: ScriptOptions, cfg: Overrides)
    requires opts.scenarios != []
    ensures Resolve(opts, cfg).Ok? <==> forall i :: 0 <= i < |opts.scenarios| ==> Acceptable(opts.scenarios[i], opts, cfg)
  {
    hide ResolveOne, Acceptable;
    forall i | 0 <= i < |opts.scenarios|
      ensures ResolveOne(opts.scenarios[i], opts, cfg).Ok? <==> Acceptable(opts.scenarios[i], opts, cfg)
    {
      OneResolvesIffAcceptable(opts.scenarios[i], opts, cfg);
    }
    if Resolve(opts, cfg).Ok? {
      forall i | 0 <= i < |opts.scenarios|
        ensures Acceptable(opts.scenarios[i], opts, cfg)
      {
        EachIsOne(opts.scenarios, opts, cfg, i);
      }
    } else if forall i :: 0 <= i < |opts.scenarios| ==> Acceptable(opts.scenarios[i], opts, cfg) {
      EachResolves(opts.scenarios, opts, cfg);
    }
  }

  /** What each refusal says of the scenario. */
  ghost predicate Refused(s: ScenarioOptions, opts: ScriptOptions, cfg: Overrides, e: ConfigError) {
    var constant := CalledConstant(s) || AnyOverride(cfg);
    match e
    case InvalidExecutor =>
      !CalledConstant(s) && s.executor !in {Some("ramping-vus"), Some("ramping-arrival-rate"), Some("ramping-rps")}
    case InvalidVus =>
      if constant then Chosen(cfg.vus, s.vus, opts.vus, Some(0))
      else
        && s.executor == Some("ramping-vus") && s.startVus in {None, Some(0)}
        && forall i :: 0 <= i < |s.stages| ==> s.stages[i].target == 0
    case InvalidIterations =>
      if constant then Chosen(cfg.iterations, s.iterations, opts.iterations, Some(0))
      else s.iterations.Some? || opts.iterations.Some?
    case InvalidStages => !constant && forall i :: 0 <= i < |s.stages| ==> s.stages[i].duration == 0
    case InvalidTimeUnit => !constant && s.executor != Some("ramping-vus") && s.timeUnit == Some(0)
    case InvalidPreAllocatedVus => !constant && s.executor != Some("ramping-vus") && s.preAllocatedVus == Some(0)
    case InvalidMaxVus =>
      !constant && s.executor != Some("ramping-vus") && s.maxVus.Some?
      && s.maxVus.value < match s.preAllocatedVus { case Some(v) => v case None => 1 }
  }

  lemma OneRefusal(s: ScenarioOptions, opts: ScriptOptions, cfg: Overrides)
    requires ResolveOne(s, opts, cfg).Err?
    ensures Refused(s, opts, cfg, ResolveOne(s, opts, cfg).error)
  {
    TotalIsPositive(s.stages);
    LargestIsPositive(UnwrapOr(s.startVus, 0), s.stages);
  }

  /** Scenario `i` is the first that is not acceptable, and `e` says why. */
  ghost predicate RefusedAt(scenarios: seq<ScenarioOptions>, opts: ScriptOptions, cfg: Overrides, i: nat, e: ConfigError) {
    && i < |scenarios| && Refused(scenarios[i], opts, cfg, e) && !Acceptable(scenarios[i], opts, cfg)
    && forall j :: 0 <= j < i ==> Acceptable(scenarios[j], opts, cfg)
  }

  /** The error is that of the first scenario refused, and says what is wrong with it. */
  lemma {:induction false} FirstRefusalDecides(scenarios: seq<ScenarioOptions>, opts: ScriptOptions, cfg: Overrides)
    requires ResolveEach(scenarios, opts, cfg).Err?
    ensures exists i :: RefusedAt(scenarios, opts, cfg, i, ResolveEach(scenarios, opts, cfg).error)
    decreases |scenarios|
  {
    hide ResolveOne, Refused, Acceptable;
    var last := |scenarios| - 1;
    var front := scenarios[..last];
    if ResolveEach(front, opts, cfg).Err? {
      FirstRefusalDecides(front, opts, cfg);
      var i :| RefusedAt(front, opts, cfg, i, ResolveEach(front, opts, cfg).error);
      assert forall j :: 0 <= j <= i ==> front[j] == scenarios[j];
      assert RefusedAt(scenarios, opts, cfg, i, ResolveEach(scenarios, opts, cfg).error);
    } else {
      OneRefusal(scenarios[last], opts, cfg);
      OneResolvesIffAcceptable(scenarios[last], opts, cfg);
      forall j | 0 <= j < last
        ensures Acceptable(scenarios[j], opts, cfg)
      {
        EachIsOne(front, opts, cfg, j);
        OneResolvesIffAcceptable(scenarios[j], opts, cfg);
      }
      assert RefusedAt(scenarios, opts, cfg, last, ResolveEach(scenarios, opts, cfg).error);
    }
  }
}
