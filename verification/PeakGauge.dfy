/**
The gauge of active virtual users and the peak kept beside it: a user adds itself to the gauge, then raises
the peak to the count it reached by compare-and-swap. Every atomic access is one step.
*/
module PeakGauge {
  import opened Arithmetic
  import opened Sets
  import opened Words

  /** Where a virtual user stands; `reached` is the count its own addition reached. */
  datatype Vu =
    | Outside
    | Counted(reached: i64)
    | Raising(reached: i64, seen: i64)
    | Inside(reached: i64)

  /** What has happened so far; the program keeps no such record. */
  datatype History = History(highest: int, counted: set<nat>)

  datatype State = State(active: i64, peak: i64, vus: map<nat, Vu>, past: History)

  datatype Action = Enter(vu: nat) | Load(vu: nat) | Swap(vu: nat) | SwapFails(vu: nat) | Drop(vu: nat)

  predicate Enabled(s: State, a: Action) {
    a.vu in s.vus &&
    match a
    case Enter(v) => s.vus[v].Outside?
    case Load(v) => s.vus[v].Counted?
    case Swap(v) => s.vus[v].Raising?
    case SwapFails(v) => s.vus[v].Raising?
    case Drop(v) => s.vus[v].Inside?
  }

  /** `fetch_add` on a signed counter wraps around. */
  function WrappingAdd(a: i64, b: int): i64
    requires -1 <= b <= 1
  {
    if a + b >= TWO_63 then a + b - TWO_64 else if a + b < -TWO_63 then a + b + TWO_64 else a + b
  }

  /** The loop goes on as long as the peak observed is below the count reached. */
  function Observed(s: State, v: nat, reached: i64): State {
    s.(vus := s.vus[v := if reached > s.peak then Raising(reached, s.peak) else Inside(reached)])
  }

  function Apply(s: State, a: Action): State
    requires Enabled(s, a)
  {
    match a
    case Enter(v) =>
      var reached := Min(s.active + 1, TWO_63 - 1);
      State(WrappingAdd(s.active, 1), s.peak, s.vus[v := Counted(reached)],
            History(Max(s.past.highest, reached), s.past.counted + {v}))
    case Load(v) => Observed(s, v, s.vus[v].reached)
    case Swap(v) =>
      if s.peak == s.vus[v].seen then s.(peak := s.vus[v].reached, vus := s.vus[v := Inside(s.vus[v].reached)])
      else Observed(s, v, s.vus[v].reached)
    case SwapFails(v) => Observed(s, v, s.vus[v].reached)
    case Drop(v) =>
      State(WrappingAdd(s.active, -1), s.peak, s.vus[v := Outside], s.past.(counted := s.past.counted - {v}))
  }

  predicate Initial(s: State) {
    s.active == 0 && s.peak == 0 && s.past == History(0, {}) && forall v :: v in s.vus ==> s.vus[v] == Outside
  }

  ghost predicate Run(states: seq<State>, steps: seq<Action>) {
    && |states| == |steps| + 1
    && Initial(states[0])
    && forall i :: 0 <= i < |steps| ==> Enabled(states[i], steps[i]) && states[i + 1] == Apply(states[i], steps[i])
  }

  // --------------------------------------------------------------------- invariants

  predicate InLoop(vu: Vu) {
    vu.Counted? || vu.Raising?
  }

  /** The gauge is the number of virtual users counted, which fits. */
  ghost predicate GaugeSound(s: State) {
    && |s.vus| < TWO_63 && s.past.counted <= s.vus.Keys && s.active == |s.past.counted|
    && forall v :: v in s.vus ==> (v in s.past.counted <==> !s.vus[v].Outside?)
  }

  /** The peak is a count that was reached, and no lower than any whose user has left the loop. */
  ghost predicate PeakSound(s: State) {
    && 0 <= s.peak <= s.past.highest
    && (forall v :: v in s.vus && !s.vus[v].Outside? ==> s.vus[v].reached <= s.past.highest)
    && (forall v :: v in s.vus && s.vus[v].Inside? ==> s.vus[v].reached <= s.peak)
    && (forall v :: v in s.vus && s.vus[v].Raising? ==> s.vus[v].seen < s.vus[v].reached)
    && (s.peak < s.past.highest ==> exists v :: v in s.vus && InLoop(s.vus[v]) && s.vus[v].reached == s.past.highest)
  }

  lemma StepKeepsGauge(s: State, a: Action)
    requires GaugeSound(s) && Enabled(s, a)
    ensures GaugeSound(Apply(s, a)) && Apply(s, a).vus.Keys == s.vus.Keys
  {
    var s' := Apply(s, a);
    assert s'.vus.Keys == s.vus.Keys;
    assert |s'.vus.Keys| == |s'.vus| && |s.vus.Keys| == |s.vus|;
    SubsetSize(s.past.counted, s.vus.Keys);
    if a.Enter? {
      SubsetSize(s.past.counted + {a.vu}, s.vus.Keys);
    }
  }

  lemma StepKeepsPeak(s: State, a: Action)
    requires PeakSound(s) && Enabled(s, a)
    ensures PeakSound(Apply(s, a)) && s.peak <= Apply(s, a).peak
  {
    var s' := Apply(s, a);
    if s'.peak < s'.past.highest {
      if s.peak < s.past.highest {
        var v :| v in s.vus && InLoop(s.vus[v]) && s.vus[v].reached == s.past.highest;
        if v != a.vu {
          assert s'.vus[v] == s.vus[v];
        }
        assert s'.past.highest == s.past.highest ==> v in s'.vus && InLoop(s'.vus[v]) && s'.vus[v].reached == s'.past.highest;
      }
      if s'.past.highest > s.past.highest {
        assert InLoop(s'.vus[a.vu]) && s'.vus[a.vu].reached == s'.past.highest;
      }
    }
  }

  lemma {:induction false} RunKeepsInvariant(states: seq<State>, steps: seq<Action>, n: nat)
    requires Run(states, steps) && n < |states| && |states[0].vus| < TWO_63
    ensures GaugeSound(states[n]) && PeakSound(states[n])
    decreases n
  {
    hide Apply, Enabled, GaugeSound, PeakSound;
    if n == 0 {
      InitialIsSound(states[0]);
    } else {
      RunKeepsInvariant(states, steps, n - 1);
      assert Enabled(states[n - 1], steps[n - 1]) && states[n] == Apply(states[n - 1], steps[n - 1]);
      StepKeepsGauge(states[n - 1], steps[n - 1]);
      StepKeepsPeak(states[n - 1], steps[n - 1]);
    }
  }

  lemma InitialIsSound(s: State)
    requires Initial(s) && |s.vus| < TWO_63
    ensures GaugeSound(s) && PeakSound(s)
  {
  }

  // ------------------------------------------------------------------- main results

  /** Over every interleaving the gauge is the number of users counted, and the peak a bound on it once they are in. */
  lemma PeakCoversAll(states: seq<State>, steps: seq<Action>, n: nat, v: nat)
    requires Run(states, steps) && n < |states| && |states[0].vus| < TWO_63
    ensures states[n].active == |states[n].past.counted| && states[n].peak <= states[n].past.highest
    ensures v in states[n].vus && states[n].vus[v].Inside? ==> states[n].vus[v].reached <= states[n].peak
  {
    RunKeepsInvariant(states, steps, n);
  }

  /** When nobody is raising it, the peak is exactly the highest count any user ever reached. */
  lemma QuietPeakIsExact(states: seq<State>, steps: seq<Action>, n: nat)
    requires Run(states, steps) && n < |states| && |states[0].vus| < TWO_63
    requires forall v :: v in states[n].vus ==> !InLoop(states[n].vus[v])
    ensures states[n].peak == states[n].past.highest
  {
    RunKeepsInvariant(states, steps, n);
  }

  /** The highest count is that of some state of the run, and no state's gauge exceeds it. */
  lemma {:induction false} HighestIsReached(states: seq<State>, steps: seq<Action>, n: nat)
    requires Run(states, steps) && n < |states| && |states[0].vus| < TWO_63
    ensures forall m :: 0 <= m <= n ==> states[m].active <= states[n].past.highest
    ensures exists m :: 0 <= m <= n && states[m].active == states[n].past.highest
    decreases n
  {
    if n > 0 {
      HighestIsReached(states, steps, n - 1);
      RunKeepsInvariant(states, steps, n - 1);
      RunKeepsInvariant(states, steps, n);
      assert Enabled(states[n - 1], steps[n - 1]) && states[n] == Apply(states[n - 1], steps[n - 1]);
      SubsetSize(states[n].past.counted, states[n].vus.Keys);
      var m :| 0 <= m <= n - 1 && states[m].active == states[n - 1].past.highest;
      if states[n].past.highest > states[n - 1].past.highest {
        assert states[n].active == states[n].past.highest;
      } else {
        assert states[m].active == states[n].past.highest;
      }
    } else {
      assert states[0].active == states[0].past.highest;
    }
  }

  /** Undisturbed, a virtual user is in after two steps, with the peak raised to its count if that is higher. */
  lemma UninterruptedRaise(s: State, v: nat)
    requires v in s.vus && s.vus[v].Counted?
    ensures var loaded := Apply(s, Load(v));
            && (s.vus[v].reached <= s.peak ==> loaded.vus[v].Inside? && loaded.peak == s.peak)
            && (s.vus[v].reached > s.peak ==>
                  && Enabled(loaded, Swap(v))
                  && var swapped := Apply(loaded, Swap(v));
                     swapped.vus[v].Inside? && swapped.peak == s.vus[v].reached)
  {
  }
}
