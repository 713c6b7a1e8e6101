/**
Starting a run: every virtual user initialises and reaches a barrier with the runner, which then either
gives up or publishes one start instant, starts the gates from it and opens the start signal.
*/
module Startup {
  import opened Arithmetic
  import opened Sets
  import opened Words
  import opened Wrappers

  // ----------------------------------------------------------------------- spawning

  datatype SpawnedVu = SpawnedVu(id: u64, scenario: nat, scenarioVu: u64)

  function Total(vus: seq<u64>): nat {
    if vus == [] then 0 else Total(vus[..|vus| - 1]) + vus[|vus| - 1]
  }

  predicate Follows(a: SpawnedVu, b: SpawnedVu) {
    a.scenario < b.scenario || (a.scenario == b.scenario && a.scenarioVu < b.scenarioVu)
  }

  /** The virtual users of the first scenarios, and some of the next one, each once and in order, numbered from 1. */
  ghost predicate SpawnedUpTo(spawned: seq<SpawnedVu>, maxima: seq<u64>, i: nat, j: nat) {
    && (forall k :: 0 <= k < |spawned| ==>
          && spawned[k].id == Min(k + 1, TWO_64 - 1)
          && 1 <= spawned[k].scenarioVu && Due(spawned[k].scenario, spawned[k].scenarioVu, maxima, i, j))
    && (forall k, l :: 0 <= k < l < |spawned| ==> Follows(spawned[k], spawned[l]))
    && (forall scenario: nat, vu: u64 :: 1 <= vu && Due(scenario, vu, maxima, i, j) ==> IsSpawned(spawned, scenario, vu))
  }

  predicate Due(scenario: nat, vu: u64, maxima: seq<u64>, i: nat, j: nat) {
    scenario < |maxima| && if scenario < i then vu <= maxima[scenario] else scenario == i && vu <= j
  }

  ghost predicate IsSpawned(spawned: seq<SpawnedVu>, scenario: nat, vu: u64) {
    exists k :: 0 <= k < |spawned| && spawned[k].scenario == scenario && spawned[k].scenarioVu == vu
  }

  lemma SpawnOneMore(spawned: seq<SpawnedVu>, maxima: seq<u64>, i: nat, j: nat)
    requires i < |maxima| && j < maxima[i] && SpawnedUpTo(spawned, maxima, i, j)
    ensures SpawnedUpTo(spawned + [SpawnedVu(Min(|spawned| + 1, TWO_64 - 1), i, j + 1)], maxima, i, j + 1)
  {
    var longer := spawned + [SpawnedVu(Min(|spawned| + 1, TWO_64 - 1), i, j + 1)];
    forall scenario: nat, vu: u64 | 1 <= vu && Due(scenario, vu, maxima, i, j + 1)
      ensures IsSpawned(longer, scenario, vu)
    {
      if scenario == i && vu == j + 1 {
        assert longer[|spawned|].scenario == scenario && longer[|spawned|].scenarioVu == vu;
      } else {
        assert Due(scenario, vu, maxima, i, j) && IsSpawned(spawned, scenario, vu);
        var k :| 0 <= k < |spawned| && spawned[k].scenario == scenario && spawned[k].scenarioVu == vu;
        assert longer[k] == spawned[k];
      }
    }
  }

  lemma ScenarioSpawned(spawned: seq<SpawnedVu>, maxima: seq<u64>, i: nat)
    requires i < |maxima| && SpawnedUpTo(spawned, maxima, i, maxima[i])
    ensures SpawnedUpTo(spawned, maxima, i + 1, 0)
  {
    forall scenario: nat, vu: u64 | 1 <= vu
      ensures Due(scenario, vu, maxima, i + 1, 0) <==> Due(scenario, vu, maxima, i, maxima[i])
    {
    }
  }

  /**
  Adds up the scenarios' virtual users in 64 bits (wrapping, where it does not abort), sizes the barrier one
  larger, and spawns them: for each scenario its users from 1 to its number, each once and scenario by scenario,
  numbered from 1 without a gap up to the largest number there is. The barrier counts on exactly those and the
  runner, as long as they fit.
  */
  method SpawnVus(maxima: seq<u64>) returns (parties: u64, spawned: seq<SpawnedVu>)
    ensures forall k :: 0 <= k < |spawned| ==>
              && spawned[k].id == Min(k + 1, TWO_64 - 1)
              && spawned[k].scenario < |maxima| && 1 <= spawned[k].scenarioVu <= maxima[spawned[k].scenario]
    ensures forall k, l :: 0 <= k < l < |spawned| ==>
              || spawned[k].scenario < spawned[l].scenario
              || (spawned[k].scenario == spawned[l].scenario && spawned[k].scenarioVu < spawned[l].scenarioVu)
    ensures forall scenario: nat, vu: u64 :: scenario < |maxima| && 1 <= vu <= maxima[scenario] ==> IsSpawned(spawned, scenario, vu)
    ensures parties == |spawned| + 1 <==> |spawned| < TWO_64 - 1
  {
    hide SpawnedUpTo;
    var total: u64 := 0;
    for i := 0 to |maxima|
      invariant total == Total(maxima[..i]) % TWO_64
    {
      assert maxima[..i + 1][..i] == maxima[..i];
      total := (total + maxima[i]) % TWO_64;
    }
    assert maxima[..|maxima|] == maxima;
    parties := Min(total + 1, TWO_64 - 1);
    spawned := [];
    var nextId: u64 := 1;
    NoneSpawned(maxima);
    for i := 0 to |maxima|
      invariant |spawned| == Total(maxima[..i]) && nextId == Min(|spawned| + 1, TWO_64 - 1)
      invariant SpawnedUpTo(spawned, maxima, i, 0)
    {
      assert maxima[..i + 1][..i] == maxima[..i];
      for j := 0 to maxima[i]
        invariant |spawned| == Total(maxima[..i]) + j && nextId == Min(|spawned| + 1, TWO_64 - 1)
        invariant SpawnedUpTo(spawned, maxima, i, j)
      {
        SpawnOneMore(spawned, maxima, i, j);
        spawned := spawned + [SpawnedVu(nextId, i, j + 1)];
        nextId := Min(nextId + 1, TWO_64 - 1);
      }
      ScenarioSpawned(spawned, maxima, i);
    }
    assert maxima[..|maxima|] == maxima;
    AllSpawned(spawned, maxima);
  }

  lemma NoneSpawned(maxima: seq<u64>)
    ensures SpawnedUpTo([], maxima, 0, 0)
  {
  }

  lemma AllSpawned(spawned: seq<SpawnedVu>, maxima: seq<u64>)
    requires SpawnedUpTo(spawned, maxima, |maxima|, 0)
    ensures forall k :: 0 <= k < |spawned| ==>
              && spawned[k].id == Min(k + 1, TWO_64 - 1)
              && spawned[k].scenario < |maxima| && 1 <= spawned[k].scenarioVu <= maxima[spawned[k].scenario]
    ensures forall k, l :: 0 <= k < l < |spawned| ==>
              || spawned[k].scenario < spawned[l].scenario
              || (spawned[k].scenario == spawned[l].scenario && spawned[k].scenarioVu < spawned[l].scenarioVu)
    ensures forall scenario: nat, vu: u64 :: scenario < |maxima| && 1 <= vu <= maxima[scenario] ==> IsSpawned(spawned, scenario, vu)
  {
    hide IsSpawned;
    forall scenario: nat, vu: u64 | scenario < |maxima| && 1 <= vu <= maxima[scenario]
      ensures IsSpawned(spawned, scenario, vu)
    {
      assert Due(scenario, vu, maxima, |maxima|, 0);
    }
  }

  // ---------------------------------------------------------------------- the protocol

  /** What never changes during a run: the gates' durations, and the gate a virtual user shares, if any. */
  datatype Setup = Setup(durations: seq<Option<nat>>, gateOf: map<nat, nat>)

  datatype Vu =
    | Initialising
    | Failing(error: string)
    | Recorded
    | AtBarrier(ok: bool)
    | AtSignal
    | Reading
    | Running(started: nat)
    | Gone

  datatype Runner =
    | Arriving
    | AtBarrier
    | Checking
    | Publishing
    | StartingGates(next: nat, started: nat)
    | Signalling
    | Started
    | GaveUp(error: string)

  /** What has happened so far; the program keeps no such record. */
  datatype History = History(arrived: set<nat>, failed: set<nat>, iterations: nat, fallback: bool, lazyDeadline: bool)

  datatype State = State(
    clock: nat,
    vus: map<nat, Vu>,
    runner: Runner,
    arrivals: nat,
    initError: Option<string>,
    runStarted: Option<nat>,
    deadlines: seq<Option<nat>>,
    signal: bool,
    past: History
  )

  datatype Action =
    | Tick(elapsed: nat)
    | InitOk(vu: nat)
    | InitFails(vu: nat, error: string)
    | RunnerStep
    | VuStep(vu: nat)
    | Iterate(vu: nat)
    | Leave(vu: nat)
    | Abort(vu: nat)

  /** The barrier counts arrivals; it opens when the virtual users and the runner have all arrived. */
  predicate Open(s: State) {
    s.arrivals == |s.vus| + 1
  }

  predicate Enabled(s: State, a: Action) {
    match a
    case Tick(_) => true
    case InitOk(v) => v in s.vus && s.vus[v].Initialising?
    case InitFails(v, _) => v in s.vus && s.vus[v].Initialising?
    case RunnerStep => !s.runner.Started? && !s.runner.GaveUp? && (s.runner.AtBarrier? ==> Open(s))
    case VuStep(v) =>
      v in s.vus && match s.vus[v] {
        case Failing(_) => true
        case Recorded => true
        case AtBarrier(_) => Open(s)
        case AtSignal => s.signal
        case Reading => true
        case _ => false
      }
    case Iterate(v) => v in s.vus && s.vus[v].Running?
    case Leave(v) => v in s.vus && s.vus[v].Running?
    case Abort(v) => v in s.vus && s.runner.GaveUp?
  }

  function Moved(s: State, v: nat, vu: Vu): State {
    s.(vus := s.vus[v := vu])
  }

  function Arrived(s: State, v: nat, ok: bool): State {
    Moved(s, v, Vu.AtBarrier(ok)).(arrivals := s.arrivals + 1, past := s.past.(arrived := s.past.arrived + {v}))
  }

  function StepVu(s: State, v: nat): State
    requires Enabled(s, VuStep(v))
  {
    match s.vus[v]
    case Failing(error) => Moved(s, v, Recorded).(initError := if s.initError.None? then Some(error) else s.initError)
    case Recorded => Arrived(s, v, false)
    case AtBarrier(ok) => Moved(s, v, if ok then AtSignal else Gone)
    case AtSignal => Moved(s, v, Reading)
    case Reading =>
      if s.runStarted.Some? then Moved(s, v, Running(s.runStarted.value))
      else Moved(s, v, Running(s.clock)).(past := s.past.(fallback := true))
  }

  /** `start_at` on one gate: the first deadline stays. */
  function StartGate(u: Setup, deadlines: seq<Option<nat>>, i: nat, started: nat): seq<Option<nat>>
    requires i < |deadlines| == |u.durations|
  {
    if deadlines[i].None? && u.durations[i].Some? then deadlines[i := Some(started + u.durations[i].value)] else deadlines
  }

  function StepRunner(u: Setup, s: State): State
    requires Enabled(s, RunnerStep) && |s.deadlines| == |u.durations|
  {
    match s.runner
    case Arriving => s.(runner := Runner.AtBarrier, arrivals := s.arrivals + 1)
    case AtBarrier => s.(runner := Checking)
    case Checking => s.(runner := if s.initError.Some? then GaveUp(s.initError.value) else Publishing)
    case Publishing =>
      s.(runner := StartingGates(0, s.clock), runStarted := if s.runStarted.None? then Some(s.clock) else s.runStarted)
    case StartingGates(next, started) =>
      if next < |s.deadlines| then
        s.(deadlines := StartGate(u, s.deadlines, next, started), runner := StartingGates(next + 1, started))
      else s.(runner := Signalling)
    case Signalling => s.(signal := true, runner := Started)
  }

  /** One iteration; a gate with a duration and no deadline would take one from the first call. */
  function StepIterate(u: Setup, s: State, v: nat): State
    requires |s.deadlines| == |u.durations|
  {
    var s1 := s.(past := s.past.(iterations := s.past.iterations + 1));
    if v in u.gateOf && u.gateOf[v] < |s.deadlines| && s.deadlines[u.gateOf[v]].None? && u.durations[u.gateOf[v]].Some? then
      s1.(deadlines := StartGate(u, s.deadlines, u.gateOf[v], s.clock), past := s1.past.(lazyDeadline := true))
    else s1
  }

  function Apply(u: Setup, s: State, a: Action): (r: State)
    requires Enabled(s, a) && |s.deadlines| == |u.durations|
    ensures |r.deadlines| == |u.durations|
  {
    match a
    case Tick(elapsed) => s.(clock := s.clock + elapsed)
    case InitOk(v) => Arrived(s, v, true)
    case InitFails(v, error) => Moved(s, v, Failing(error)).(past := s.past.(failed := s.past.failed + {v}))
    case RunnerStep => StepRunner(u, s)
    case VuStep(v) => StepVu(s, v)
    case Iterate(v) => StepIterate(u, s, v)
    case Leave(v) => Moved(s, v, Gone)
    case Abort(v) => Moved(s, v, Gone)
  }

  predicate Initial(u: Setup, s: State) {
    && (forall v :: v in s.vus ==> s.vus[v] == Initialising)
    && s.runner == Arriving && s.arrivals == 0 && s.initError == None && s.runStarted == None && !s.signal
    && |s.deadlines| == |u.durations| && (forall i :: 0 <= i < |s.deadlines| ==> s.deadlines[i] == None)
    && s.past == History({}, {}, 0, false, false)
  }

  ghost predicate Run(u: Setup, states: seq<State>, steps: seq<Action>) {
    && |states| == |steps| + 1
    && Initial(u, states[0])
    && forall i :: 0 <= i < |steps| ==>
         Enabled(states[i], steps[i]) && |states[i].deadlines| == |u.durations| && states[i + 1] == Apply(u, states[i], steps[i])
  }

  // ------------------------------------------------------------------------- invariant

  predicate RunnerArrived(r: Runner) {
    !r.Arriving?
  }

  /** The virtual user has not reached the barrier. */
  predicate Preparing(vu: Vu) {
    vu.Initialising? || vu.Failing? || vu.Recorded?
  }

  /** The count is who has arrived, and an open barrier let nobody through early. */
  ghost predicate BarrierSound(s: State) {
    && s.arrivals == |s.past.arrived| + (if RunnerArrived(s.runner) then 1 else 0)
    && s.past.arrived <= s.vus.Keys
    && (forall v :: v in s.vus ==> (v in s.past.arrived <==> !Preparing(s.vus[v])))
    && (!s.runner.Arriving? && !s.runner.AtBarrier? ==> Open(s))
    && (forall v :: v in s.vus && (s.vus[v].AtSignal? || s.vus[v].Reading? || s.vus[v].Running? || s.vus[v].Gone?) ==> Open(s))
  }

  predicate Passed(r: Runner) {
    r.Publishing? || r.StartingGates? || r.Signalling? || r.Started?
  }

  /** A failure is on record by the time its virtual user reaches the barrier. */
  ghost predicate ErrorsSound(s: State) {
    && s.past.failed <= s.vus.Keys
    && (forall v :: v in s.past.failed ==> s.vus[v].Failing? || s.initError.Some?)
    && (forall v :: v in s.vus && s.vus[v].Failing? ==> v in s.past.failed)
    && (Passed(s.runner) ==> s.initError.None?)
  }

  predicate DeadlineSet(u: Setup, deadlines: seq<Option<nat>>, i: nat, started: nat)
    requires i < |deadlines| == |u.durations|
  {
    deadlines[i] == if u.durations[i].Some? then Some(started + u.durations[i].value) else None
  }

  ghost predicate StartSound(u: Setup, s: State) {
    && |s.deadlines| == |u.durations|
    && (s.runStarted.Some? <==> s.runner.StartingGates? || s.runner.Signalling? || s.runner.Started?)
    && (s.runStarted.None? ==> forall i :: 0 <= i < |s.deadlines| ==> s.deadlines[i].None?)
    && (s.runner.StartingGates? ==>
          && s.runStarted == Some(s.runner.started) && s.runner.next <= |s.deadlines|
          && (forall i :: 0 <= i < s.runner.next ==> DeadlineSet(u, s.deadlines, i, s.runner.started))
          && (forall i :: s.runner.next <= i < |s.deadlines| ==> s.deadlines[i].None?))
    && (s.runner.Signalling? || s.runner.Started? ==>
          forall i :: 0 <= i < |s.deadlines| ==> DeadlineSet(u, s.deadlines, i, s.runStarted.value))
    && (s.signal <==> s.runner.Started?)
    && (forall v :: v in s.vus && (s.vus[v].Reading? || s.vus[v].Running?) ==> s.signal)
    && (forall v :: v in s.vus && s.vus[v].Running? ==> s.runStarted == Some(s.vus[v].started))
    && (s.past.iterations > 0 ==> s.runner.Started?)
    && !s.past.fallback && !s.past.lazyDeadline
  }

  /** The barrier is open exactly when everyone has arrived. */
  lemma OpenMeansAll(s: State)
    requires BarrierSound(s)
    ensures |s.past.arrived| <= |s.vus|
    ensures Open(s) <==> s.past.arrived == s.vus.Keys && !s.runner.Arriving?
  {
    SubsetSize(s.past.arrived, s.vus.Keys);
    assert |s.vus.Keys| == |s.vus|;
  }

  lemma StepKeepsBarrier(u: Setup, s: State, a: Action)
    requires BarrierSound(s) && Enabled(s, a) && |s.deadlines| == |u.durations|
    ensures BarrierSound(Apply(u, s, a))
  {
    match a
    case Tick(_) =>
    case InitOk(v) => ArrivalKeepsBarrier(s, Apply(u, s, a), v);
    case InitFails(v, error) => MoveKeepsBarrier(s, Apply(u, s, a), v, Failing(error));
    case RunnerStep => RunnerKeepsBarrier(u, s);
    case VuStep(v) => VuKeepsBarrier(s, v);
    case Iterate(v) => assert StepIterate(u, s, v).vus == s.vus;
    case Leave(v) => MoveKeepsBarrier(s, Apply(u, s, a), v, Gone);
    case Abort(v) => OpenMeansAll(s); MoveKeepsBarrier(s, Apply(u, s, a), v, Gone);
  }

  lemma RunnerKeepsBarrier(u: Setup, s: State)
    requires BarrierSound(s) && Enabled(s, RunnerStep) && |s.deadlines| == |u.durations|
    ensures BarrierSound(StepRunner(u, s))
  {
    OpenMeansAll(s);
    assert StepRunner(u, s).vus == s.vus;
  }

  lemma VuKeepsBarrier(s: State, v: nat)
    requires BarrierSound(s) && Enabled(s, VuStep(v))
    ensures BarrierSound(StepVu(s, v))
  {
    var s' := StepVu(s, v);
    if s.vus[v].Recorded? {
      ArrivalKeepsBarrier(s, s', v);
    } else {
      MoveKeepsBarrier(s, s', v, s'.vus[v]);
    }
  }

  /** A move on one side of the barrier; beyond it only when it is open. */
  lemma MoveKeepsBarrier(s: State, s': State, v: nat, to: Vu)
    requires BarrierSound(s) && v in s.vus && s'.vus == s.vus[v := to]
    requires s'.runner == s.runner && s'.arrivals == s.arrivals && s'.past.arrived == s.past.arrived
    requires Preparing(to) <==> Preparing(s.vus[v])
    requires to.AtSignal? || to.Reading? || to.Running? || to.Gone? ==> Open(s)
    ensures BarrierSound(s')
  {
    assert s'.vus.Keys == s.vus.Keys;
    assert |s'.vus.Keys| == |s'.vus| && |s.vus.Keys| == |s.vus|;
  }

  lemma ArrivalKeepsBarrier(s: State, s': State, v: nat)
    requires BarrierSound(s) && v in s.vus && Preparing(s.vus[v])
    requires exists ok :: s'.vus == s.vus[v := Vu.AtBarrier(ok)]
    requires s'.runner == s.runner && s'.arrivals == s.arrivals + 1 && s'.past.arrived == s.past.arrived + {v}
    ensures BarrierSound(s')
  {
    OpenMeansAll(s);
    assert |s'.vus.Keys| == |s'.vus| && |s.vus.Keys| == |s.vus|;
    assert s'.vus.Keys == s.vus.Keys;
    assert v !in s.past.arrived;
    assert !Open(s);
  }

  lemma StepKeepsErrors(u: Setup, s: State, a: Action)
    requires BarrierSound(s) && ErrorsSound(s) && Enabled(s, a) && |s.deadlines| == |u.durations|
    ensures ErrorsSound(Apply(u, s, a))
  {
    match a
    case Tick(_) =>
    case InitOk(v) => MoveKeepsErrors(s, Apply(u, s, a), v);
    case InitFails(v, _) => FailureKeepsErrors(s, Apply(u, s, a), v);
    case RunnerStep => RunnerKeepsErrors(u, s);
    case VuStep(v) => VuKeepsErrors(s, v);
    case Iterate(v) => IterationKeepsErrors(u, s, v);
    case Leave(v) => MoveKeepsErrors(s, Apply(u, s, a), v);
    case Abort(v) => OpenMeansAll(s); MoveKeepsErrors(s, Apply(u, s, a), v);
  }

  /** A move that fails nobody; a virtual user leaves `Failing` only with an error on record. */
  lemma MoveKeepsErrors(s: State, s': State, v: nat)
    requires ErrorsSound(s) && v in s.vus && v in s'.vus && s'.vus == s.vus[v := s'.vus[v]] && !s'.vus[v].Failing?
    requires s'.runner == s.runner && s'.initError == s.initError && s'.past.failed == s.past.failed
    requires s.vus[v].Failing? ==> s.initError.Some?
    ensures ErrorsSound(s')
  {
  }

  lemma FailureKeepsErrors(s: State, s': State, v: nat)
    requires ErrorsSound(s) && v in s.vus && v in s'.vus && s'.vus == s.vus[v := s'.vus[v]] && s'.vus[v].Failing?
    requires s'.runner == s.runner && s'.initError == s.initError && s'.past.failed == s.past.failed + {v}
    ensures ErrorsSound(s')
  {
  }

  /** Recording an error is over before the runner can pass the barrier. */
  lemma VuKeepsErrors(s: State, v: nat)
    requires BarrierSound(s) && ErrorsSound(s) && Enabled(s, VuStep(v))
    ensures ErrorsSound(StepVu(s, v))
  {
    var s' := StepVu(s, v);
    if s.vus[v].Failing? {
      OpenMeansAll(s);
      assert v !in s.past.arrived;
      assert !Passed(s.runner);
      MoveKeepsErrors(s.(initError := s'.initError), s', v);
    } else {
      MoveKeepsErrors(s, s', v);
    }
  }

  lemma RunnerKeepsErrors(u: Setup, s: State)
    requires ErrorsSound(s) && Enabled(s, RunnerStep) && |s.deadlines| == |u.durations|
    ensures ErrorsSound(StepRunner(u, s))
  {
    hide StartGate;
    var s' := StepRunner(u, s);
    assert s'.vus == s.vus && s'.initError == s.initError && s'.past == s.past;
  }

  lemma IterationKeepsErrors(u: Setup, s: State, v: nat)
    requires ErrorsSound(s) && |s.deadlines| == |u.durations|
    ensures ErrorsSound(StepIterate(u, s, v))
  {
    hide StartGate;
    var s' := StepIterate(u, s, v);
    assert s'.vus == s.vus && s'.initError == s.initError && s'.runner == s.runner && s'.past.failed == s.past.failed;
  }

  lemma StepKeepsStart(u: Setup, s: State, a: Action)
    requires BarrierSound(s) && StartSound(u, s) && Enabled(s, a)
    ensures StartSound(u, Apply(u, s, a))
  {
    match a
    case RunnerStep => RunnerKeepsStart(u, s);
    case Iterate(v) =>
      assert v in u.gateOf && u.gateOf[v] < |s.deadlines| ==> DeadlineSet(u, s.deadlines, u.gateOf[v], s.runStarted.value);
      assert StepIterate(u, s, v).deadlines == s.deadlines;
    case _ =>
      assert Apply(u, s, a).deadlines == s.deadlines;
  }

  lemma RunnerKeepsStart(u: Setup, s: State)
    requires BarrierSound(s) && StartSound(u, s) && Enabled(s, RunnerStep)
    ensures StartSound(u, StepRunner(u, s))
  {
    var s' := StepRunner(u, s);
    if s.runner.StartingGates? && s.runner.next < |s.deadlines| {
      assert s.deadlines[s.runner.next].None?;
      assert DeadlineSet(u, s'.deadlines, s.runner.next, s.runner.started);
      forall i | 0 <= i < s.runner.next
        ensures DeadlineSet(u, s'.deadlines, i, s.runner.started)
      {
        assert DeadlineSet(u, s.deadlines, i, s.runner.started);
      }
    } else {
      assert s'.deadlines == s.deadlines;
    }
  }

  lemma {:induction false} RunKeepsInvariant(u: Setup, states: seq<State>, steps: seq<Action>, n: nat)
    requires Run(u, states, steps) && n < |states|
    ensures BarrierSound(states[n]) && ErrorsSound(states[n]) && StartSound(u, states[n])
    decreases n
  {
    if n > 0 {
      RunKeepsInvariant(u, states, steps, n - 1);
      var s, a := states[n - 1], steps[n - 1];
      assert Enabled(s, a) && states[n] == Apply(u, s, a);
      StepKeepsBarrier(u, s, a);
      StepKeepsErrors(u, s, a);
      StepKeepsStart(u, s, a);
    }
  }

  // ---------------------------------------------------------------------- main results

  /** No iteration is run before every virtual user has finished initialising, without an error. */
  lemma NoIterationBeforeAllReady(u: Setup, states: seq<State>, steps: seq<Action>, n: nat)
    requires Run(u, states, steps) && n < |states| && states[n].past.iterations > 0
    ensures states[n].past.failed == {} && states[n].initError == None
    ensures forall v :: v in states[n].vus ==> !Preparing(states[n].vus[v])
  {
    RunKeepsInvariant(u, states, steps, n);
    OpenMeansAll(states[n]);
    assert states[n].runner.Started?;
  }

  /** If any initialisation fails, no iteration is ever run. */
  lemma FailureStopsTheRun(u: Setup, states: seq<State>, steps: seq<Action>, m: nat, n: nat)
    requires Run(u, states, steps) && m <= n < |states| && states[m].past.failed != {}
    ensures states[n].past.iterations == 0
    ensures forall v :: v in states[n].vus ==> !states[n].vus[v].Running?
  {
    FailuresGrow(u, states, steps, m, n);
    RunKeepsInvariant(u, states, steps, n);
    var v :| v in states[m].past.failed;
    assert v in states[n].past.failed;
    FailureHolds(u, states[n]);
  }

  lemma {:induction false} FailuresGrow(u: Setup, states: seq<State>, steps: seq<Action>, m: nat, n: nat)
    requires Run(u, states, steps) && m <= n < |states|
    ensures states[m].past.failed <= states[n].past.failed
    decreases n
  {
    hide Apply, Enabled;
    if m < n {
      FailuresGrow(u, states, steps, m, n - 1);
      assert Enabled(states[n - 1], steps[n - 1]) && states[n] == Apply(u, states[n - 1], steps[n - 1]);
      FailuresStay(u, states[n - 1], steps[n - 1]);
    }
  }

  lemma FailuresStay(u: Setup, s: State, a: Action)
    requires Enabled(s, a) && |s.deadlines| == |u.durations|
    ensures s.past.failed <= Apply(u, s, a).past.failed
  {
  }

  lemma FailureHolds(u: Setup, s: State)
    requires BarrierSound(s) && ErrorsSound(s) && StartSound(u, s) && s.past.failed != {}
    ensures s.past.iterations == 0 && forall v :: v in s.vus ==> !s.vus[v].Running?
  {
    OpenMeansAll(s);
    var v :| v in s.past.failed;
    assert !Passed(s.runner);
  }

  /**
  Every running virtual user measures from the runner's one start instant, and every gate's deadline
  comes from it: the fallback clock and the lazily taken deadline are never used.
  */
  lemma OneStartInstant(u: Setup, states: seq<State>, steps: seq<Action>, n: nat, v: nat)
    requires Run(u, states, steps) && n < |states|
    requires v in states[n].vus && states[n].vus[v].Running?
    ensures states[n].runStarted == Some(states[n].vus[v].started)
    ensures |states[n].deadlines| == |u.durations|
    ensures forall i :: 0 <= i < |u.durations| ==>
              states[n].deadlines[i] ==
              if u.durations[i].Some? then Some(states[n].vus[v].started + u.durations[i].value) else None
  {
    RunKeepsInvariant(u, states, steps, n);
    var s := states[n];
    forall i | 0 <= i < |u.durations|
      ensures s.deadlines[i] == if u.durations[i].Some? then Some(s.vus[v].started + u.durations[i].value) else None
    {
      assert DeadlineSet(u, s.deadlines, i, s.runStarted.value);
    }
  }

  /** An action that brings the start forward: not the clock, and not what happens once it is over. */
  predicate Progress(a: Action) {
    a.InitOk? || a.RunnerStep? || a.VuStep? || a.Abort?
  }

  predicate Settled(s: State) {
    && (s.runner.Started? || s.runner.GaveUp?)
    && forall v :: v in s.vus ==> s.vus[v].Running? || s.vus[v].Gone?
  }

  /** A start never gets stuck: until the runner and every virtual user are through, one of them can go on. */
  lemma NobodyIsStuck(u: Setup, states: seq<State>, steps: seq<Action>, n: nat)
    requires Run(u, states, steps) && n < |states| && !Settled(states[n])
    ensures exists a :: Progress(a) && Enabled(states[n], a)
  {
    RunKeepsInvariant(u, states, steps, n);
    var s := states[n];
    OpenMeansAll(s);
    if !s.runner.Started? && !s.runner.GaveUp? && !s.runner.AtBarrier? {
      assert Enabled(s, RunnerStep);
    } else if s.runner.AtBarrier? && Open(s) {
      assert Enabled(s, RunnerStep);
    } else if s.runner.AtBarrier? {
      var v :| v in s.vus && v !in s.past.arrived;
      assert Enabled(s, InitOk(v)) || Enabled(s, VuStep(v));
    } else {
      var v :| v in s.vus && !s.vus[v].Running? && !s.vus[v].Gone?;
      assert Enabled(s, VuStep(v)) || Enabled(s, Abort(v));
    }
  }

  /** How far a virtual user and the runner still have to go. */
  function VuSteps(vu: Vu): nat {
    match vu
    case Initialising => 6
    case Failing(_) => 5
    case Recorded => 4
    case AtBarrier(_) => 3
    case AtSignal => 2
    case Reading => 1
    case _ => 0
  }

  function RunnerSteps(s: State): nat {
    match s.runner
    case Arriving => |s.deadlines| + 6
    case AtBarrier => |s.deadlines| + 5
    case Checking => |s.deadlines| + 4
    case Publishing => |s.deadlines| + 3
    case StartingGates(next, _) => if next < |s.deadlines| then |s.deadlines| - next + 2 else 2
    case Signalling => 1
    case _ => 0
  }

  /** Each such step brings one of them closer and holds nobody up, so the start comes to an end. */
  lemma ProgressComesToAnEnd(u: Setup, s: State, a: Action)
    requires |s.deadlines| == |u.durations| && Enabled(s, a) && Progress(a)
    requires a.Abort? ==> !s.vus[a.vu].Running? && !s.vus[a.vu].Gone?
    ensures var s' := Apply(u, s, a);
            && s'.vus.Keys == s.vus.Keys && RunnerSteps(s') <= RunnerSteps(s)
            && (forall v :: v in s.vus ==> VuSteps(s'.vus[v]) <= VuSteps(s.vus[v]))
            && (RunnerSteps(s') < RunnerSteps(s) || exists v :: v in s.vus && VuSteps(s'.vus[v]) < VuSteps(s.vus[v]))
  {
    hide StartGate;
    var s' := Apply(u, s, a);
    if a.RunnerStep? {
      assert s'.vus == s.vus && RunnerSteps(s') < RunnerSteps(s);
    } else {
      assert s'.runner == s.runner && |s'.deadlines| == |s.deadlines|;
      assert VuSteps(s'.vus[a.vu]) < VuSteps(s.vus[a.vu]);
    }
  }

  /** Who failed and who did not, as long as nobody has left of its own accord. */
  ghost predicate OutcomeSound(s: State) {
    && (s.initError.Some? ==> s.past.failed != {})
    && (s.runner.GaveUp? ==> s.initError == Some(s.runner.error))
    && forall v :: v in s.vus ==> VuOutcome(s.vus[v], v in s.past.failed, s.runner.GaveUp?)
  }

  predicate VuOutcome(vu: Vu, failed: bool, gaveUp: bool) {
    match vu
    case Failing(_) => failed
    case Recorded => failed
    case AtBarrier(ok) => ok <==> !failed
    case Gone => failed || gaveUp
    case _ => !failed
  }

  lemma StepKeepsOutcome(u: Setup, s: State, a: Action)
    requires OutcomeSound(s) && Enabled(s, a) && !a.Leave? && |s.deadlines| == |u.durations|
    ensures OutcomeSound(Apply(u, s, a))
  {
    hide StartGate, VuOutcome;
    var s' := Apply(u, s, a);
    match a
    case RunnerStep => assert s'.vus == s.vus && s'.past.failed == s.past.failed && s'.initError == s.initError; GaveUpStays(s, s');
    case Iterate(_) => assert s'.vus == s.vus && s'.past.failed == s.past.failed;
    case Tick(_) =>
    case InitOk(v) => OneOutcome(u, s, a, v);
    case InitFails(v, _) => OneOutcome(u, s, a, v);
    case VuStep(v) => OneOutcome(u, s, a, v);
    case Abort(v) => OneOutcome(u, s, a, v);
  }

  lemma GaveUpStays(s: State, s': State)
    requires s'.vus == s.vus && s'.past.failed == s.past.failed && !s.runner.GaveUp?
    requires forall v :: v in s.vus ==> VuOutcome(s.vus[v], v in s.past.failed, s.runner.GaveUp?)
    ensures forall v :: v in s'.vus ==> VuOutcome(s'.vus[v], v in s'.past.failed, s'.runner.GaveUp?)
  {
  }

  /** One virtual user moves. */
  lemma OneOutcome(u: Setup, s: State, a: Action, v: nat)
    requires OutcomeSound(s) && Enabled(s, a) && |s.deadlines| == |u.durations| && v in s.vus
    requires a == InitOk(v) || (a.InitFails? && a.vu == v) || a == VuStep(v) || a == Abort(v)
    ensures OutcomeSound(Apply(u, s, a))
  {
    var s' := Apply(u, s, a);
    assert s'.runner == s.runner;
    assert VuOutcome(s.vus[v], v in s.past.failed, s.runner.GaveUp?);
    assert VuOutcome(s'.vus[v], v in s'.past.failed, s.runner.GaveUp?);
    assert s.initError.Some? || s'.initError.Some? ==> s'.past.failed != {} by {
      if s.vus[v].Failing? {
        assert v in s'.past.failed;
      }
    }
    hide VuOutcome, Apply;
    forall w | w in s'.vus && w != v
      ensures VuOutcome(s'.vus[w], w in s'.past.failed, s'.runner.GaveUp?)
    {
      OthersStay(u, s, a, v, w);
    }
  }

  lemma OthersStay(u: Setup, s: State, a: Action, v: nat, w: nat)
    requires Enabled(s, a) && |s.deadlines| == |u.durations| && v in s.vus && w != v
    requires a == InitOk(v) || (a.InitFails? && a.vu == v) || a == VuStep(v) || a == Abort(v)
    ensures w in Apply(u, s, a).vus <==> w in s.vus
    ensures w in s.vus ==> Apply(u, s, a).vus[w] == s.vus[w]
    ensures w in Apply(u, s, a).past.failed <==> w in s.past.failed
  {
  }

  lemma {:induction false} OutcomesKept(u: Setup, states: seq<State>, steps: seq<Action>, n: nat)
    requires Run(u, states, steps) && n < |states| && forall i :: 0 <= i < n ==> !steps[i].Leave?
    ensures OutcomeSound(states[n])
    decreases n
  {
    hide Apply, OutcomeSound;
    if n == 0 {
      NothingFailedYet(u, states[0]);
    } else {
      OutcomesKept(u, states, steps, n - 1);
      assert Enabled(states[n - 1], steps[n - 1]) && states[n] == Apply(u, states[n - 1], steps[n - 1]);
      StepKeepsOutcome(u, states[n - 1], steps[n - 1]);
    }
  }

  lemma NothingFailedYet(u: Setup, s: State)
    requires Initial(u, s)
    ensures OutcomeSound(s)
  {
  }

  /**
  A start that is over, nobody having left since: without a failure every virtual user runs and the runner has
  started; with one nobody runs and the runner has given up.
  */
  lemma StartSucceedsIffNoFailure(u: Setup, states: seq<State>, steps: seq<Action>, n: nat)
    requires Run(u, states, steps) && n < |states| && forall i :: 0 <= i < n ==> !steps[i].Leave?
    requires Settled(states[n]) && states[n].vus != map[]
    ensures states[n].past.failed == {} ==> states[n].runner.Started? && forall v :: v in states[n].vus ==> states[n].vus[v].Running?
    ensures states[n].past.failed != {} ==> states[n].runner.GaveUp? && forall v :: v in states[n].vus ==> states[n].vus[v].Gone?
  {
    RunKeepsInvariant(u, states, steps, n);
    OutcomesKept(u, states, steps, n);
    var s := states[n];
    if s.past.failed != {} {
      OpenMeansAll(s);
      var v :| v in s.past.failed;
      assert v in s.vus;
    }
  }

  /** The error the runner gives up with is one that some failed initialisation reported. */
  lemma {:induction false} ErrorWasReported(u: Setup, states: seq<State>, steps: seq<Action>, n: nat, e: string)
    requires Run(u, states, steps) && n < |states|
    requires states[n].initError == Some(e) || states[n].runner == GaveUp(e) || exists v :: v in states[n].vus && states[n].vus[v] == Failing(e)
    ensures exists i :: 0 <= i < n && steps[i].InitFails? && steps[i].error == e
    decreases n
  {
    if n > 0 {
      var s, a := states[n - 1], steps[n - 1];
      assert Enabled(s, a) && states[n] == Apply(u, s, a);
      if !(a.InitFails? && a.error == e) {
        ErrorWasThere(u, s, a, e);
        ErrorWasReported(u, states, steps, n - 1, e);
      }
    }
  }

  lemma ErrorWasThere(u: Setup, s: State, a: Action, e: string)
    requires Enabled(s, a) && |s.deadlines| == |u.durations| && !(a.InitFails? && a.error == e)
    requires var s' := Apply(u, s, a);
             s'.initError == Some(e) || s'.runner == GaveUp(e) || exists v :: v in s'.vus && s'.vus[v] == Failing(e)
    ensures s.initError == Some(e) || s.runner == GaveUp(e) || exists v :: v in s.vus && s.vus[v] == Failing(e)
  {
    hide StartGate;
    var s' := Apply(u, s, a);
    if s'.initError != Some(e) && s'.runner != GaveUp(e) {
      var v :| v in s'.vus && s'.vus[v] == Failing(e);
      FailingWasThere(u, s, a, v);
    }
  }

  lemma FailingWasThere(u: Setup, s: State, a: Action, v: nat)
    requires Enabled(s, a) && |s.deadlines| == |u.durations|
    requires v in Apply(u, s, a).vus && Apply(u, s, a).vus[v].Failing?
    ensures v in s.vus && (s.vus[v] == Apply(u, s, a).vus[v] || a == InitFails(v, Apply(u, s, a).vus[v].error))
  {
    hide StartGate;
  }

  lemma FallbacksUnreachable(u: Setup, states: seq<State>, steps: seq<Action>, n: nat)
    requires Run(u, states, steps) && n < |states|
    ensures !states[n].past.fallback && !states[n].past.lazyDeadline
  {
    RunKeepsInvariant(u, states, steps, n);
  }
}
