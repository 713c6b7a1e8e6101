/**
The iteration gate that the virtual users of a constant scenario share, and their loop around it. Every
atomic access is one step; times are counted from any fixed instant.
*/
module Gate {
  import opened Arithmetic
  import opened Sets
  import opened Words
  import opened Wrappers

  datatype Limits = Limits(iterations: Option<u64>, duration: Option<nat>)

  /** How many iterations the counter lets through; with neither limit, one. */
  function Budget(l: Limits): Option<u64> {
    if l.iterations.Some? then l.iterations else if l.duration.None? then Some(1) else None
  }

  class IterationGate {
    const limits: Limits
    var counter: u64
    var deadline: Option<nat>

    constructor (limits: Limits)
      ensures this.limits == limits && counter == 0 && deadline == None
    {
      this.limits, counter, deadline := limits, 0, None;
    }

    /** Fixes the deadline unless it is fixed already. */
    method StartAt(started: nat)
      modifies this`deadline
      ensures deadline ==
              if old(deadline).None? && limits.duration.Some? then Some(started + limits.duration.value) else old(deadline)
    {
      if deadline.Some? {
        return;
      }
      if limits.duration.Some? {
        deadline := Some(started + limits.duration.value);
      }
    }

    /**
    A call without interference goes on before the deadline, if there is one, and below the iteration limit, if
    there is one; with neither, only the first does. Counting is left out only when just a duration is set.
    */
    method Next(now: nat) returns (go: bool)
      modifies this
      ensures limits.duration.None? ==> deadline == old(deadline)
      ensures limits.duration.Some? ==>
                deadline == if old(deadline).Some? then old(deadline) else Some(now + limits.duration.value)
      ensures var inTime := limits.duration.Some? ==> now < deadline.value;
              && (go <==>
                    && inTime
                    && (limits.iterations.Some? ==> old(counter) < limits.iterations.value)
                    && (limits.iterations.None? && limits.duration.None? ==> old(counter) == 0))
              && counter == if inTime && (limits.iterations.Some? || limits.duration.None?) then (old(counter) + 1) % TWO_64
                            else old(counter)
    {
      if limits.duration.Some? {
        if deadline.None? {
          StartAt(now);
        }
        if deadline.Some? && now >= deadline.value {
          return false;
        }
      }
      if limits.iterations.Some? {
        var idx := counter;
        counter := (counter + 1) % TWO_64;
        if idx >= limits.iterations.value {
          return false;
        }
      } else if limits.duration.None? {
        var idx := counter;
        counter := (counter + 1) % TWO_64;
        if idx > 0 {
          return false;
        }
      }
      go := true;
    }
  }

  // ------------------------------------------------------------- interleaved steps

  /** Where a virtual user stands in its loop; `now` is the clock it read when it called. */
  datatype Vu =
    | Calling
    | Timed(now: nat)
    | Starting(now: nat)
    | Setting(now: nat)
    | Comparing(now: nat)
    | Counting(now: nat)
    | Iterating(now: nat)
    | Left
    | Failed

  /** What has happened so far; the program keeps no such record. */
  datatype History = History(fetches: nat, granted: nat, ended: nat, running: set<nat>, refused: set<nat>)

  datatype State = State(counter: u64, deadline: Option<nat>, clock: nat, vus: map<nat, Vu>, past: History)

  datatype Action =
    | Tick(elapsed: nat)
    | RunnerStart(started: nat)
    | Step(vu: nat)
    | IterationEnds(vu: nat, ok: bool)

  predicate Enabled(s: State, a: Action) {
    match a
    case Tick(_) => true
    case RunnerStart(started) => started <= s.clock
    case Step(v) => v in s.vus && !s.vus[v].Iterating? && !s.vus[v].Left? && !s.vus[v].Failed?
    case IterationEnds(v, _) => v in s.vus && s.vus[v].Iterating?
  }

  /** `OnceLock::set` keeps the first value. */
  function SetOnce(deadline: Option<nat>, l: Limits, started: nat): Option<nat> {
    if deadline.None? && l.duration.Some? then Some(started + l.duration.value) else deadline
  }

  function Moved(s: State, v: nat, vu: Vu): State {
    s.(vus := s.vus[v := vu])
  }

  function Go(s: State, v: nat, now: nat): State {
    Moved(s, v, Iterating(now)).(past := s.past.(granted := s.past.granted + 1, running := s.past.running + {v}))
  }

  function VuStep(l: Limits, s: State, v: nat): State
    requires Enabled(s, Step(v))
  {
    match s.vus[v]
    case Calling => Moved(s, v, if l.duration.Some? then Timed(s.clock) else Counting(s.clock))
    case Timed(now) => Moved(s, v, if s.deadline.None? then Starting(now) else Comparing(now))
    case Starting(now) => Moved(s, v, if s.deadline.Some? then Comparing(now) else Setting(now))
    case Setting(now) => Moved(s, v, Comparing(now)).(deadline := SetOnce(s.deadline, l, now))
    case Comparing(now) => Moved(s, v, if s.deadline.Some? && now >= s.deadline.value then Left else Counting(now))
    case Counting(now) =>
      if Budget(l).None? then Go(s, v, now)
      else
        var s1 := s.(counter := (s.counter + 1) % TWO_64, past := s.past.(fetches := s.past.fetches + 1));
        if s.counter >= Budget(l).value then Moved(s1, v, Left).(past := s1.past.(refused := s1.past.refused + {v}))
        else Go(s1, v, now)
  }

  function Apply(l: Limits, s: State, a: Action): State
    requires Enabled(s, a)
  {
    match a
    case Tick(elapsed) => s.(clock := s.clock + elapsed)
    case RunnerStart(started) => s.(deadline := SetOnce(s.deadline, l, started))
    case Step(v) => VuStep(l, s, v)
    case IterationEnds(v, ok) =>
      Moved(s, v, if ok then Calling else Failed).(
        past := s.past.(ended := s.past.ended + 1, running := s.past.running - {v}))
  }

  predicate Initial(s: State) {
    && s.counter == 0 && s.deadline == None
    && (forall v :: v in s.vus ==> s.vus[v] == Calling)
    && s.past == History(0, 0, 0, {}, {})
  }

  ghost predicate Run(l: Limits, states: seq<State>, steps: seq<Action>) {
    && |states| == |steps| + 1
    && Initial(states[0])
    && forall i :: 0 <= i < |steps| ==> Enabled(states[i], steps[i]) && states[i + 1] == Apply(l, states[i], steps[i])
  }

  // -------------------------------------------------------------------- invariants

  /** Iterations granted have ended or are running. */
  ghost predicate Tallied(s: State) {
    && s.past.granted == s.past.ended + |s.past.running|
    && (forall v :: v in s.vus ==> (v in s.past.running <==> s.vus[v].Iterating?))
    && s.past.running <= s.vus.Keys
  }

  /** The counter is the number of fetches; the first `budget` of them were granted, each other one retired a user. */
  ghost predicate WithinBudget(l: Limits, s: State) {
    Budget(l).Some? ==>
      && s.past.refused <= s.vus.Keys
      && (forall v :: v in s.past.refused ==> s.vus[v].Left?)
      && s.past.fetches == s.past.granted + |s.past.refused|
      && s.past.granted == Min(s.past.fetches, Budget(l).value)
      && s.counter == s.past.fetches % TWO_64
      && (l.duration.None? ==> forall v :: v in s.vus && s.vus[v].Left? ==> v in s.past.refused)
  }

  /** Whoever passed the clock check read a time before the deadline. */
  predicate TimeSound(l: Limits, vu: Vu, deadline: Option<nat>) {
    match vu
    case Timed(_) => l.duration.Some?
    case Starting(_) => l.duration.Some?
    case Setting(_) => l.duration.Some?
    case Comparing(_) => l.duration.Some? && deadline.Some?
    case Counting(now) => l.duration.Some? ==> deadline.Some? && now < deadline.value
    case Iterating(now) => l.duration.Some? ==> deadline.Some? && now < deadline.value
    case _ => true
  }

  ghost predicate InTime(l: Limits, s: State) {
    && (forall v :: v in s.vus ==> TimeSound(l, s.vus[v], s.deadline))
    && (s.deadline.Some? ==> l.duration.Some?)
  }

  /** The counter does not wrap while anyone still calls: every virtual user stops at its first refusal. */
  predicate CounterFits(l: Limits, s: State) {
    && (l.iterations.Some? ==> l.iterations.value == 0 || l.iterations.value + |s.vus| <= TWO_64)
    && (l.iterations.None? && l.duration.None? ==> 1 + |s.vus| <= TWO_64)
  }

  lemma StepKeepsTally(l: Limits, s: State, a: Action)
    requires Tallied(s) && Enabled(s, a)
    ensures Tallied(Apply(l, s, a))
  {
  }

  lemma StepKeepsBudget(l: Limits, s: State, a: Action)
    requires InTime(l, s) && WithinBudget(l, s) && CounterFits(l, s) && Enabled(s, a)
    ensures WithinBudget(l, Apply(l, s, a))
  {
    if a.Step? {
      assert TimeSound(l, s.vus[a.vu], s.deadline);
      if s.vus[a.vu].Counting? {
        CountKeepsBudget(l, s, a.vu);
      }
    }
  }

  lemma CountKeepsBudget(l: Limits, s: State, v: nat)
    requires WithinBudget(l, s) && CounterFits(l, s) && Enabled(s, Step(v)) && s.vus[v].Counting?
    ensures WithinBudget(l, VuStep(l, s, v))
  {
    hide CounterFits;
    CallerSeesAll(l, s, v);
    if Budget(l).Some? {
      if s.counter >= Budget(l).value {
        RefusalKeepsBudget(l, s, v);
      } else {
        GrantKeepsBudget(l, s, v);
      }
    }
  }

  lemma RefusalKeepsBudget(l: Limits, s: State, v: nat)
    requires WithinBudget(l, s) && Enabled(s, Step(v)) && s.vus[v].Counting?
    requires Budget(l).Some? && s.counter >= Budget(l).value && (Budget(l).value > 0 ==> s.counter == s.past.fetches)
    ensures WithinBudget(l, VuStep(l, s, v))
  {
    hide Budget;
    assert v !in s.past.refused;
    assert VuStep(l, s, v).past.refused == s.past.refused + {v};
  }

  lemma GrantKeepsBudget(l: Limits, s: State, v: nat)
    requires WithinBudget(l, s) && Enabled(s, Step(v)) && s.vus[v].Counting?
    requires Budget(l).Some? && s.counter < Budget(l).value && s.counter == s.past.fetches
    ensures WithinBudget(l, VuStep(l, s, v))
  {
    hide Budget;
    assert VuStep(l, s, v).past.refused == s.past.refused;
  }

  /** To someone who still calls, the counter is the number of fetches. */
  lemma CallerSeesAll(l: Limits, s: State, v: nat)
    requires WithinBudget(l, s) && CounterFits(l, s) && v in s.vus && !s.vus[v].Left?
    ensures Budget(l).Some? && Budget(l).value > 0 ==> s.counter == s.past.fetches
  {
    if Budget(l).Some? {
      SubsetSize(s.past.refused, s.vus.Keys - {v});
      assert |s.vus.Keys| == |s.vus|;
    }
  }

  lemma StepKeepsTime(l: Limits, s: State, a: Action)
    requires InTime(l, s) && Enabled(s, a)
    ensures InTime(l, Apply(l, s, a))
    ensures s.deadline.Some? ==> Apply(l, s, a).deadline == s.deadline
  {
  }

  lemma SameVus(l: Limits, s: State, a: Action)
    requires Enabled(s, a)
    ensures Apply(l, s, a).vus.Keys == s.vus.Keys
  {
  }

  lemma InitialIsSound(l: Limits, s: State)
    requires Initial(s)
    ensures Tallied(s) && InTime(l, s) && WithinBudget(l, s)
  {
  }

  lemma {:induction false} RunKeepsTime(l: Limits, states: seq<State>, steps: seq<Action>, n: nat)
    requires Run(l, states, steps) && n < |states|
    ensures Tallied(states[n]) && InTime(l, states[n]) && states[n].vus.Keys == states[0].vus.Keys
    decreases n
  {
    hide Apply, Enabled, Tallied, InTime;
    if n == 0 {
      InitialIsSound(l, states[0]);
    } else {
      RunKeepsTime(l, states, steps, n - 1);
      var s, a := states[n - 1], steps[n - 1];
      assert Enabled(s, a) && states[n] == Apply(l, s, a);
      StepKeepsTally(l, s, a);
      StepKeepsTime(l, s, a);
      SameVus(l, s, a);
    }
  }

  lemma {:induction false} RunKeepsBudget(l: Limits, states: seq<State>, steps: seq<Action>, n: nat)
    requires Run(l, states, steps) && n < |states| && CounterFits(l, states[0])
    ensures WithinBudget(l, states[n])
    decreases n
  {
    hide Apply, Enabled, Tallied, InTime, WithinBudget;
    if n == 0 {
      InitialIsSound(l, states[0]);
    } else {
      RunKeepsBudget(l, states, steps, n - 1);
      RunKeepsTime(l, states, steps, n - 1);
      var s, a := states[n - 1], steps[n - 1];
      assert Enabled(s, a) && states[n] == Apply(l, s, a);
      assert |s.vus| == |s.vus.Keys| && |states[0].vus| == |states[0].vus.Keys|;
      StepKeepsBudget(l, s, a);
    }
  }

  // ------------------------------------------------------------------ main results

  /** Over every interleaving, no more iterations are granted than the limit, and without any limit at most one. */
  lemma NeverOverBudget(l: Limits, states: seq<State>, steps: seq<Action>, n: nat)
    requires Run(l, states, steps) && n < |states| && CounterFits(l, states[0])
    ensures l.iterations.Some? ==> states[n].past.granted <= l.iterations.value
    ensures l.iterations.None? && l.duration.None? ==> states[n].past.granted <= 1
  {
    RunKeepsBudget(l, states, steps, n);
  }

  /**
  Without a duration, once a single virtual user has left its loop the whole limit has been granted; once
  all have left (none by an error), exactly that many iterations have been run.
  */
  lemma ExactlyTheBudget(l: Limits, states: seq<State>, steps: seq<Action>, n: nat, v: nat)
    requires Run(l, states, steps) && n < |states| && CounterFits(l, states[0]) && l.duration.None?
    requires v in states[n].vus && states[n].vus[v].Left?
    ensures states[n].past.granted == if l.iterations.Some? then l.iterations.value else 1
    ensures (forall w :: w in states[n].vus ==> states[n].vus[w].Left?) ==>
              states[n].past.ended == if l.iterations.Some? then l.iterations.value else 1
  {
    RunKeepsBudget(l, states, steps, n);
    RunKeepsTime(l, states, steps, n);
    var past := states[n].past;
    assert v in past.refused;
    assert past.refused != {};
    if forall w :: w in states[n].vus ==> states[n].vus[w].Left? {
      assert past.running == {};
    }
  }

  /** With a duration and no iteration limit, only a call that reads the clock at or after the deadline is refused. */
  lemma DurationAloneGrants(l: Limits, states: seq<State>, steps: seq<Action>, n: nat, v: nat)
    requires Run(l, states, steps) && n < |steps| && l.iterations.None? && l.duration.Some?
    requires v in states[n].vus && !states[n].vus[v].Left? && v in states[n + 1].vus && states[n + 1].vus[v].Left?
    ensures states[n].vus[v].Comparing? && states[n].deadline.Some? && states[n].vus[v].now >= states[n].deadline.value
  {
    assert Enabled(states[n], steps[n]) && states[n + 1] == Apply(l, states[n], steps[n]);
  }

  /** A call in time is refused only once the whole limit has been granted. */
  lemma RefusedInTimeMeansUsedUp(l: Limits, states: seq<State>, steps: seq<Action>, n: nat, v: nat)
    requires Run(l, states, steps) && n < |steps| && CounterFits(l, states[0])
    requires v in states[n].vus && states[n].vus[v].Counting? && v in states[n + 1].vus && states[n + 1].vus[v].Left?
    ensures l.iterations.Some? || l.duration.None?
    ensures states[n].past.granted == if l.iterations.Some? then l.iterations.value else 1
  {
    RunKeepsBudget(l, states, steps, n);
    RunKeepsTime(l, states, steps, n);
    assert Enabled(states[n], steps[n]) && states[n + 1] == Apply(l, states[n], steps[n]);
    assert |states[n].vus| == |states[n].vus.Keys| && |states[0].vus| == |states[0].vus.Keys|;
    CallerSeesAll(l, states[n], v);
  }

  /** With a duration, a call that reads the clock at or after the deadline is never granted. */
  lemma NothingAfterDeadline(l: Limits, states: seq<State>, steps: seq<Action>, n: nat, v: nat)
    requires Run(l, states, steps) && n < |states| && l.duration.Some?
    requires v in states[n].vus && states[n].vus[v].Iterating?
    ensures states[n].deadline.Some? && states[n].vus[v].now < states[n].deadline.value
  {
    RunKeepsTime(l, states, steps, n);
    assert TimeSound(l, states[n].vus[v], states[n].deadline);
  }

  /** A virtual user whose iteration fails is out for good. */
  lemma {:induction false} FailureEndsTheLoop(l: Limits, states: seq<State>, steps: seq<Action>, m: nat, n: nat, v: nat)
    requires Run(l, states, steps) && m < n < |states| && steps[m] == IterationEnds(v, false)
    ensures v in states[n].vus && states[n].vus[v].Failed?
    decreases n
  {
    if m + 1 < n {
      FailureEndsTheLoop(l, states, steps, m, n - 1, v);
    }
    assert Enabled(states[n - 1], steps[n - 1]) && states[n] == Apply(l, states[n - 1], steps[n - 1]);
  }

  /** The deadline, once fixed, is fixed: also against callers that found none. */
  lemma {:induction false} DeadlineIsFinal(l: Limits, states: seq<State>, steps: seq<Action>, m: nat, n: nat)
    requires Run(l, states, steps) && m <= n < |states|
    requires states[m].deadline.Some?
    ensures states[n].deadline == states[m].deadline
    decreases n
  {
    if m < n {
      DeadlineIsFinal(l, states, steps, m, n - 1);
      RunKeepsTime(l, states, steps, n - 1);
      assert Enabled(states[n - 1], steps[n - 1]) && states[n] == Apply(l, states[n - 1], steps[n - 1]);
      StepKeepsTime(l, states[n - 1], steps[n - 1]);
    }
  }

  // ------------------------------------------------ the call is the steps, uninterrupted

  function StepsLeft(vu: Vu): nat {
    match vu
    case Calling => 6
    case Timed(_) => 5
    case Starting(_) => 4
    case Setting(_) => 3
    case Comparing(_) => 2
    case Counting(_) => 1
    case _ => 0
  }

  /** The virtual user runs to the end of its call. */
  function VuAlone(l: Limits, s: State, v: nat): (r: State)
    requires v in s.vus
    ensures v in r.vus
    decreases StepsLeft(s.vus[v])
  {
    if Enabled(s, Step(v)) then VuAlone(l, VuStep(l, s, v), v) else s
  }

  /** Run alone, the steps do what `Next` does. */
  lemma UninterruptedNext(l: Limits, s: State, v: nat)
    requires v in s.vus && s.vus[v].Calling? && (s.deadline.Some? ==> l.duration.Some?)
    ensures var r := VuAlone(l, s, v);
            var inTime := l.duration.Some? ==> s.clock < SetOnce(s.deadline, l, s.clock).value;
            && r.deadline == SetOnce(s.deadline, l, s.clock)
            && r.vus[v] == (if inTime && (l.iterations.Some? ==> s.counter < l.iterations.value)
                              && (l.iterations.None? && l.duration.None? ==> s.counter == 0) then Iterating(s.clock) else Left)
            && r.counter == if inTime && (l.iterations.Some? || l.duration.None?) then (s.counter + 1) % TWO_64 else s.counter
  {
    var s1 := VuStep(l, s, v);
    if l.duration.Some? {
      var s2 := VuStep(l, s1, v);
      if s.deadline.None? {
        var s3 := VuStep(l, s2, v);
        var s4 := VuStep(l, s3, v);
        CompareAlone(l, s4, v);
        assert VuAlone(l, s, v) == VuAlone(l, s1, v) == VuAlone(l, s2, v) == VuAlone(l, s3, v) == VuAlone(l, s4, v);
      } else {
        CompareAlone(l, s2, v);
        assert VuAlone(l, s, v) == VuAlone(l, s1, v) == VuAlone(l, s2, v);
      }
    } else {
      CountAlone(l, s1, v);
    }
  }

  lemma CompareAlone(l: Limits, s: State, v: nat)
    requires v in s.vus && s.vus[v].Comparing? && s.deadline.Some?
    ensures var r := VuAlone(l, s, v);
            var now := s.vus[v].now;
            && r.deadline == s.deadline
            && r.vus[v] == (if now < s.deadline.value && (Budget(l).Some? ==> s.counter < Budget(l).value) then Iterating(now) else Left)
            && r.counter == if now < s.deadline.value && Budget(l).Some? then (s.counter + 1) % TWO_64 else s.counter
  {
    var s1 := VuStep(l, s, v);
    if s1.vus[v].Counting? {
      CountAlone(l, s1, v);
    }
    assert VuAlone(l, s, v) == VuAlone(l, s1, v);
  }

  lemma CountAlone(l: Limits, s: State, v: nat)
    requires v in s.vus && s.vus[v].Counting?
    ensures var r := VuAlone(l, s, v);
            && r.deadline == s.deadline
            && r.vus[v] == (if Budget(l).Some? ==> s.counter < Budget(l).value then Iterating(s.vus[v].now) else Left)
            && r.counter == if Budget(l).Some? then (s.counter + 1) % TWO_64 else s.counter
  {
    var s1 := VuStep(l, s, v);
    assert VuAlone(l, s, v) == VuAlone(l, s1, v);
  }
}
