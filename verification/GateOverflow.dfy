/** How far the iteration gate's 64-bit counter carries: the budget holds exactly as long as it cannot wrap under a caller. */
module GateOverflow {
  import opened Words
  import opened Wrappers
  import opened Gate

  /** A run and where it has come to. */
  ghost predicate Reached(l: Limits, keys: set<nat>, s: State) {
    exists states: seq<State>, steps: seq<Action> :: Run(l, states, steps) && states[0].vus.Keys == keys && states[|states| - 1] == s
  }

  lemma ReachedNext(l: Limits, keys: set<nat>, s: State, a: Action)
    requires Reached(l, keys, s) && Enabled(s, a)
    ensures Reached(l, keys, Apply(l, s, a))
  {
    var states: seq<State>, steps: seq<Action> :| Run(l, states, steps) && states[0].vus.Keys == keys && states[|states| - 1] == s;
    var states', steps' := states + [Apply(l, s, a)], steps + [a];
    forall i | 0 <= i < |steps'|
      ensures Enabled(states'[i], steps'[i]) && states'[i + 1] == Apply(l, states'[i], steps'[i])
    {
      if i < |steps| {
        assert Enabled(states[i], steps[i]) && states[i + 1] == Apply(l, states[i], steps[i]);
      }
    }
    assert Run(l, states', steps');
  }

  lemma {:induction false} ReachedAlone(l: Limits, keys: set<nat>, s: State, v: nat)
    requires Reached(l, keys, s) && v in s.vus
    ensures Reached(l, keys, VuAlone(l, s, v))
    decreases StepsLeft(s.vus[v])
  {
    hide Reached;
    if Enabled(s, Step(v)) {
      ReachedNext(l, keys, s, Step(v));
      ReachedAlone(l, keys, VuStep(l, s, v), v);
    }
  }

  /** A call touches nobody else, and counts a grant exactly when it is granted. */
  lemma {:induction false} AloneTouchesOne(l: Limits, s: State, v: nat)
    requires v in s.vus
    ensures var r := VuAlone(l, s, v);
            && r.clock == s.clock && r.vus.Keys == s.vus.Keys
            && (forall w :: w in s.vus && w != v ==> r.vus[w] == s.vus[w])
            && r.past.granted == s.past.granted + (if r.vus[v].Iterating? && !s.vus[v].Iterating? then 1 else 0)
    decreases StepsLeft(s.vus[v])
  {
    if Enabled(s, Step(v)) {
      AloneTouchesOne(l, VuStep(l, s, v), v);
    }
  }

  /** Calls are in time: there is no duration, or the deadline lies ahead. */
  predicate InTimeNow(l: Limits, s: State) {
    if l.duration.None? then s.deadline.None? else s.deadline.Some? && s.clock < s.deadline.value
  }

  /** A virtual user runs one iteration after another as long as the budget lasts. */
  lemma {:induction false} GrantMany(l: Limits, keys: set<nat>, s: State, v: nat, k: nat) returns (r: State)
    requires Reached(l, keys, s) && InTimeNow(l, s) && Budget(l).Some?
    requires v in s.vus && s.vus[v].Calling? && s.counter + k <= Budget(l).value
    ensures Reached(l, keys, r) && InTimeNow(l, r) && r.vus == s.vus
    ensures r.counter == s.counter + k && r.past.granted == s.past.granted + k
    decreases k
  {
    hide Reached, VuAlone;
    r := s;
    if k > 0 {
      ReachedAlone(l, keys, s, v);
      UninterruptedNext(l, s, v);
      AloneTouchesOne(l, s, v);
      var running := VuAlone(l, s, v);
      ReachedNext(l, keys, running, IterationEnds(v, true));
      var next := Apply(l, running, IterationEnds(v, true));
      assert next.vus == s.vus;
      r := GrantMany(l, keys, next, v, k - 1);
    }
  }

  /** Once the budget is used up every other caller is refused, and counted. */
  lemma {:induction false} RefuseMany(l: Limits, keys: set<nat>, s: State, v: nat, ws: set<nat>) returns (r: State)
    requires Reached(l, keys, s) && InTimeNow(l, s) && Budget(l).Some?
    requires v in s.vus && v !in ws && forall w :: w in ws ==> w in s.vus && s.vus[w].Calling?
    requires Budget(l).value <= s.counter && s.counter + |ws| <= TWO_64
    ensures Reached(l, keys, r) && InTimeNow(l, r) && v in r.vus && r.vus[v] == s.vus[v]
    ensures r.counter == (s.counter + |ws|) % TWO_64 && r.past.granted == s.past.granted
    decreases |ws|
  {
    hide Reached, VuAlone;
    r := s;
    if ws != {} {
      var w :| w in ws;
      ReachedAlone(l, keys, s, w);
      UninterruptedNext(l, s, w);
      AloneTouchesOne(l, s, w);
      var next := VuAlone(l, s, w);
      if ws == {w} {
        r := next;
      } else {
        assert |ws - {w}| > 0;
        assert next.counter == s.counter + 1;
        r := RefuseMany(l, keys, next, v, ws - {w});
      }
    }
  }

  lemma {:induction false} SubsetOfSize(s: set<nat>, n: nat) returns (t: set<nat>)
    requires n <= |s|
    ensures t <= s && |t| == n
    decreases n
  {
    if n == 0 {
      t := {};
    } else {
      var x :| x in s;
      var u := SubsetOfSize(s - {x}, n - 1);
      t := u + {x};
    }
  }

  lemma StartInTime(l: Limits, keys: set<nat>) returns (s: State)
    requires l.duration != Some(0)
    ensures Reached(l, keys, s) && InTimeNow(l, s) && s.counter == 0 && s.past.granted == 0
    ensures s.vus.Keys == keys && forall v :: v in keys ==> s.vus[v] == Calling
  {
    var first := State(0, None, 0, map v | v in keys :: Calling, History(0, 0, 0, {}, {}));
    assert Run(l, [first], []) && [first][0].vus.Keys == keys && [first][|[first]| - 1] == first;
    s := first;
    if l.duration.Some? {
      ReachedNext(l, keys, first, RunnerStart(0));
      s := Apply(l, first, RunnerStart(0));
    }
  }

  /** With a larger budget the counter wraps while someone still calls, and the budget is exceeded. */
  lemma WrapExceedsBudget(l: Limits, keys: set<nat>) returns (s: State)
    requires Budget(l).Some? && Budget(l).value > 0 && l.duration != Some(0)
    requires Budget(l).value + |keys| > TWO_64
    ensures Reached(l, keys, s) && s.past.granted > Budget(l).value
  {
    hide Reached, VuAlone;
    var b := Budget(l).value;
    var v :| v in keys;
    var others := SubsetOfSize(keys - {v}, TWO_64 - b);
    var start := StartInTime(l, keys);
    var used := GrantMany(l, keys, start, v, b);
    var wrapped := RefuseMany(l, keys, used, v, others);
    ReachedAlone(l, keys, wrapped, v);
    UninterruptedNext(l, wrapped, v);
    AloneTouchesOne(l, wrapped, v);
    s := VuAlone(l, wrapped, v);
  }

  /**
  With an iteration limit, or with no limit at all, the bound on the iterations granted holds in every run of
  these virtual users if and only if it is 0 or, together with their number, does not exceed 2^64.
  */
  lemma BudgetHoldsIff(l: Limits, keys: set<nat>)
    requires (l.iterations.Some? || l.duration.None?) && l.duration != Some(0)
    ensures var limit := if l.iterations.Some? then l.iterations.value else 1;
            (forall s :: Reached(l, keys, s) ==> s.past.granted <= limit) <==> limit == 0 || limit + |keys| <= TWO_64
  {
    var limit := if l.iterations.Some? then l.iterations.value else 1;
    if limit == 0 || limit + |keys| <= TWO_64 {
      forall s | Reached(l, keys, s)
        ensures s.past.granted <= limit
      {
        var states: seq<State>, steps: seq<Action> :| Run(l, states, steps) && states[0].vus.Keys == keys && states[|states| - 1] == s;
        assert |states[0].vus| == |keys|;
        NeverOverBudget(l, states, steps, |states| - 1);
      }
    } else {
      var s := WrapExceedsBudget(l, keys);
    }
  }
}
