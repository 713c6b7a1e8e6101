/**
The arrival pacer: one producer schedules arrivals, any number of virtual users claim them through a
compare-and-swap. Every atomic load, store, addition and swap is one step.
*/
module Pacer {
  import opened Arithmetic
  import opened Words

  datatype Config = Config(preAllocated: u64, max: u64)

  /** The atomics. */
  datatype Counters = Counters(scheduled: u64, claimed: u64, dropped: u64, active: u64, done: bool)

  function SaturatingSub(a: u64, b: u64): u64 {
    if a < b then 0 else a - b
  }

  /** `fetch_add` wraps around. */
  function WrappingAdd(a: u64, b: u64): u64 {
    (a + b) % TWO_64
  }

  lemma AddZero(a: u64)
    ensures WrappingAdd(a, 0) == a
  {
  }

  function MaxBacklog(cfg: Config): u64 {
    Max(cfg.max, 1)
  }

  /** How many of `due` arrivals are scheduled; the rest are dropped. */
  function Accepted(cfg: Config, due: u64, claimed: u64, scheduled: u64): u64 {
    Min(due, SaturatingSub(MaxBacklog(cfg), SaturatingSub(scheduled, claimed)))
  }

  /** The number of virtual users that may be active; a limit of 0 would be a panic. */
  function Desired(cfg: Config, claimed: u64, scheduled: u64): u64
    requires cfg.max >= 1
  {
    var backlog := SaturatingSub(scheduled, claimed);
    var desired := if backlog == 0 then cfg.preAllocated else Max(cfg.preAllocated, Min(backlog + 1, TWO_64 - 1));
    Min(Max(desired, 1), cfg.max)
  }

  /** One virtual user more than the backlog, within the pre-allocated number and the limit; without a backlog the former. */
  predicate FollowsBacklog(cfg: Config, backlog: int, active: u64) {
    && (backlog <= 0 ==> active == cfg.preAllocated)
    && (backlog > 0 ==>
          && (backlog + 1 <= cfg.preAllocated ==> active == cfg.preAllocated)
          && (cfg.preAllocated <= backlog + 1 <= cfg.max ==> active == backlog + 1)
          && (cfg.max <= backlog + 1 ==> active == cfg.max))
  }

  // ---------------------------------------------------- calls without interference

  function Adjusted(cfg: Config, c: Counters): Counters
    requires cfg.max >= 1
  {
    c.(active := Desired(cfg, c.claimed, c.scheduled))
  }

  function Updated(cfg: Config, c: Counters, due: u64): Counters
    requires cfg.max >= 1
  {
    var add := Accepted(cfg, due, c.claimed, c.scheduled);
    Adjusted(cfg, c.(scheduled := WrappingAdd(c.scheduled, add), dropped := WrappingAdd(c.dropped, due - add)))
  }

  datatype Outcome = Token | NoMore | Asleep

  /** One pass through the claiming loop. */
  function Claimed(c: Counters): (Counters, Outcome) {
    if c.claimed < c.scheduled then (c.(claimed := c.claimed + 1), Token)
    else (c, if c.done then NoMore else Asleep)
  }

  class ArrivalPacer {
    const cfg: Config
    var scheduled: u64
    var claimed: u64
    var dropped: u64
    var active: u64
    var done: bool

    function Now(): Counters
      reads this
    {
      Counters(scheduled, claimed, dropped, active, done)
    }

    constructor (cfg: Config)
      ensures this.cfg == cfg && Now() == Counters(0, 0, 0, cfg.preAllocated, false)
    {
      this.cfg := cfg;
      scheduled, claimed, dropped, active, done := 0, 0, 0, cfg.preAllocated, false;
    }

    method UpdateActiveVus()
      requires cfg.max >= 1
      modifies this
      ensures Now() == Adjusted(cfg, old(Now()))
      ensures 1 <= cfg.preAllocated <= cfg.max ==> FollowsBacklog(cfg, old(scheduled) - old(claimed), active)
    {
      var backlog := if scheduled < claimed then 0 else scheduled - claimed;
      var desired := cfg.preAllocated;
      if backlog != 0 {
        desired := Max(cfg.preAllocated, Min(backlog + 1, TWO_64 - 1));
      }
      active := if desired < 1 then 1 else if desired > cfg.max then cfg.max else desired;
    }

    method UpdateDue(addDue: u64)
      requires cfg.max >= 1
      modifies this
      ensures Now() == Updated(cfg, old(Now()), addDue)
    {
      hide Desired, WrappingAdd;
      AddZero(scheduled);
      AddZero(dropped);
      if addDue == 0 {
        UpdateActiveVus();
        return;
      }
      var backlog := if scheduled < claimed then 0 else scheduled - claimed;
      var allowed := if MaxBacklog(cfg) < backlog then 0 else MaxBacklog(cfg) - backlog;
      var toAdd := Min(addDue, allowed);
      var drop := addDue - toAdd;
      if toAdd != 0 {
        scheduled := WrappingAdd(scheduled, toAdd);
      }
      if drop != 0 {
        dropped := WrappingAdd(dropped, drop);
      }
      UpdateActiveVus();
    }

    method MarkDone()
      modifies this
      ensures Now() == old(Now()).(done := true)
    {
      done := true;
    }

    /** `claim_next` up to its first return or its first sleep, the swap not failing spuriously. */
    method ClaimNext() returns (outcome: Outcome)
      modifies this
      ensures (Now(), outcome) == Claimed(old(Now()))
    {
      if done {
        if claimed >= scheduled {
          return NoMore;
        }
      }
      if claimed < scheduled {
        claimed := Min(claimed + 1, TWO_64 - 1);
        return Token;
      }
      outcome := Asleep;
    }
  }

  // ------------------------------------------------------------- interleaved steps

  /** Where the producer stands inside `update_due`; it ends with `mark_done`. */
  datatype Producer =
    | Resting
    | Offering(due: u64)
    | SawClaimed(due: u64, claimed: u64)
    | Adding(add: u64, drop: u64)
    | Dropping(drop: u64)
    | Adjusting
    | AdjustSaw(claimed: u64)
    | Storing(desired: u64)
    | Finished

  /** Where a virtual user stands inside `claim_next`. */
  datatype Claimer =
    | Outside
    | Top
    | DoneSeen
    | DoneSaw(claimed: u64)
    | Reading
    | SawOne(claimed: u64)
    | Swapping(claimed: u64)
    | Sleeping
    | Granted
    | Refused

  /** What has happened so far, in unbounded counts; the program keeps no such record. */
  datatype History = History(offered: nat, accepted: nat, lost: nat, granted: nat, refusals: nat)

  datatype State = State(now: Counters, producer: Producer, claimers: map<nat, Claimer>, past: History)

  datatype Action =
    | Update(due: u64)
    | Produce
    | MarkDone
    | Call(vu: nat)
    | Claim(vu: nat)
    | SwapFails(vu: nat)
    | Wake(vu: nat)
    | Leave(vu: nat)

  predicate Enabled(s: State, a: Action) {
    match a
    case Update(_) => s.producer.Resting?
    case Produce => !s.producer.Resting? && !s.producer.Finished?
    case MarkDone => s.producer.Resting?
    case Call(v) => v in s.claimers && s.claimers[v].Outside?
    case Claim(v) =>
      v in s.claimers && !s.claimers[v].Outside? && !s.claimers[v].Sleeping? && !s.claimers[v].Granted? && !s.claimers[v].Refused?
    case SwapFails(v) => v in s.claimers && s.claimers[v].Swapping?
    case Wake(v) => v in s.claimers && s.claimers[v].Sleeping?
    case Leave(v) => v in s.claimers && (s.claimers[v].Granted? || s.claimers[v].Refused?)
  }

  function ProducerStep(cfg: Config, s: State): State
    requires cfg.max >= 1 && Enabled(s, Produce)
  {
    match s.producer
    case Offering(due) => s.(producer := SawClaimed(due, s.now.claimed))
    case SawClaimed(due, c) =>
      var add := Accepted(cfg, due, c, s.now.scheduled);
      s.(producer := Adding(add, due - add))
    case Adding(add, drop) =>
      s.(now := s.now.(scheduled := WrappingAdd(s.now.scheduled, add)), producer := Dropping(drop),
         past := s.past.(accepted := s.past.accepted + add))
    case Dropping(drop) =>
      s.(now := s.now.(dropped := WrappingAdd(s.now.dropped, drop)), producer := Adjusting,
         past := s.past.(lost := s.past.lost + drop))
    case Adjusting => s.(producer := AdjustSaw(s.now.claimed))
    case AdjustSaw(c) => s.(producer := Storing(Desired(cfg, c, s.now.scheduled)))
    case Storing(d) => s.(now := s.now.(active := d), producer := Resting)
  }

  function Moved(s: State, v: nat, c: Claimer): State {
    s.(claimers := s.claimers[v := c])
  }

  function ClaimStep(s: State, v: nat): State
    requires Enabled(s, Claim(v))
  {
    match s.claimers[v]
    case Top => Moved(s, v, if s.now.done then DoneSeen else Reading)
    case DoneSeen => Moved(s, v, DoneSaw(s.now.claimed))
    case DoneSaw(c) =>
      if c >= s.now.scheduled then Moved(s, v, Refused).(past := s.past.(refusals := s.past.refusals + 1))
      else Moved(s, v, Reading)
    case Reading => Moved(s, v, SawOne(s.now.claimed))
    case SawOne(c) => Moved(s, v, if c < s.now.scheduled then Swapping(c) else Sleeping)
    case Swapping(c) =>
      if s.now.claimed == c then
        Moved(s, v, Granted).(now := s.now.(claimed := Min(c + 1, TWO_64 - 1)),
                              past := s.past.(granted := s.past.granted + 1))
      else Moved(s, v, Top)
  }

  function Apply(cfg: Config, s: State, a: Action): State
    requires cfg.max >= 1 && Enabled(s, a)
  {
    match a
    case Update(due) =>
      s.(producer := if due == 0 then Adjusting else Offering(due), past := s.past.(offered := s.past.offered + due))
    case Produce => ProducerStep(cfg, s)
    case MarkDone => s.(now := s.now.(done := true), producer := Finished)
    case Call(v) => Moved(s, v, Top)
    case Claim(v) => ClaimStep(s, v)
    case SwapFails(v) => Moved(s, v, Top)
    case Wake(v) => Moved(s, v, Top)
    case Leave(v) => Moved(s, v, Outside)
  }

  predicate Initial(cfg: Config, s: State) {
    && s.now == Counters(0, 0, 0, cfg.preAllocated, false)
    && s.producer == Resting
    && (forall v :: v in s.claimers ==> s.claimers[v] == Outside)
    && s.past == History(0, 0, 0, 0, 0)
  }

  ghost predicate Run(cfg: Config, states: seq<State>, steps: seq<Action>)
    requires cfg.max >= 1
  {
    && |states| == |steps| + 1
    && Initial(cfg, states[0])
    && forall i :: 0 <= i < |steps| ==> Enabled(states[i], steps[i]) && states[i + 1] == Apply(cfg, states[i], steps[i])
  }

  // ------------------------------------------------------------------- invariants

  /** Arrivals taken in by the producer that it has neither scheduled nor dropped yet. */
  function InHand(p: Producer): nat {
    match p
    case Offering(due) => due
    case SawClaimed(due, _) => due
    case Adding(add, drop) => add + drop
    case Dropping(drop) => drop
    case _ => 0
  }

  /** The counters are the history, modulo their width. */
  predicate Accounted(s: State) {
    && s.now.scheduled == s.past.accepted % TWO_64
    && s.now.dropped == s.past.lost % TWO_64
    && s.past.accepted + s.past.lost + InHand(s.producer) == s.past.offered
  }

  /** A claimer's remembered values are no longer ahead of the counters. */
  predicate ClaimerSound(c: Claimer, now: Counters) {
    match c
    case DoneSeen => now.done
    case DoneSaw(k) => now.done && k <= now.claimed
    case SawOne(k) => k <= now.claimed
    case Swapping(k) => k <= now.claimed && k < TWO_64 - 1
    case Refused => now.done && now.scheduled <= now.claimed
    case _ => true
  }

  /** What holds however far the counters have come. */
  ghost predicate Settled(s: State) {
    && s.now.claimed == s.past.granted
    && (s.now.done <==> s.producer.Finished?)
    && (forall v :: v in s.claimers ==> ClaimerSound(s.claimers[v], s.now))
    && (s.past.refusals > 0 ==> s.now.done && s.now.scheduled <= s.now.claimed)
  }

  predicate ProducerSound(cfg: Config, s: State) {
    match s.producer
    case SawClaimed(_, c) => c <= s.now.claimed
    case Adding(add, _) => s.now.scheduled + add <= s.now.claimed + MaxBacklog(cfg)
    case _ => true
  }

  predicate InBounds(cfg: Config, now: Counters) {
    now.claimed <= now.scheduled <= now.claimed + Max(cfg.max, 1)
  }

  /** What holds as long as fewer than 2^64 arrivals have been scheduled. */
  ghost predicate Bounded(cfg: Config, s: State) {
    && InBounds(cfg, s.now)
    && ProducerSound(cfg, s)
    && forall v :: v in s.claimers && s.claimers[v].Swapping? ==> s.claimers[v].claimed < s.now.scheduled
  }

  ghost predicate Invariant(cfg: Config, s: State) {
    Accounted(s) && Settled(s) && (s.past.accepted < TWO_64 ==> Bounded(cfg, s))
  }

  predicate ActiveInRange(cfg: Config, s: State) {
    && 1 <= s.now.active <= cfg.max && cfg.preAllocated <= s.now.active
    && (s.producer.Storing? ==> 1 <= s.producer.desired <= cfg.max && cfg.preAllocated <= s.producer.desired)
  }

  lemma WrappedSum(a: nat, b: u64)
    ensures WrappingAdd(a % TWO_64, b) == (a + b) % TWO_64
  {
  }

  lemma StepKeepsAccounts(cfg: Config, s: State, a: Action)
    requires cfg.max >= 1 && Accounted(s) && Enabled(s, a)
    ensures Accounted(Apply(cfg, s, a))
    ensures s.past.accepted <= Apply(cfg, s, a).past.accepted && s.past.refusals <= Apply(cfg, s, a).past.refusals
  {
    if a.Produce? && s.producer.Adding? {
      WrappedSum(s.past.accepted, s.producer.add);
    } else if a.Produce? && s.producer.Dropping? {
      WrappedSum(s.past.lost, s.producer.drop);
    }
  }

  lemma StepSettles(cfg: Config, s: State, a: Action)
    requires cfg.max >= 1 && Settled(s) && Enabled(s, a)
    ensures Settled(Apply(cfg, s, a))
  {
    match a
    case Produce => ProducerSettles(cfg, s);
    case Claim(v) => ClaimSettles(s, v);
    case _ =>
  }

  lemma ProducerSettles(cfg: Config, s: State)
    requires cfg.max >= 1 && Settled(s) && Enabled(s, Produce)
    ensures Settled(ProducerStep(cfg, s))
  {
    hide Desired, Accepted, WrappingAdd;
    assert forall v :: v in s.claimers ==> ClaimerSound(s.claimers[v], s.now);
  }

  lemma ClaimSettles(s: State, v: nat)
    requires Settled(s) && Enabled(s, Claim(v))
    ensures Settled(ClaimStep(s, v))
  {
    assert ClaimerSound(s.claimers[v], s.now);
    var s' := ClaimStep(s, v);
    forall w | w in s'.claimers
      ensures ClaimerSound(s'.claimers[w], s'.now)
    {
      assert w != v ==> ClaimerSound(s.claimers[w], s.now);
    }
  }

  lemma StepKeepsBounds(cfg: Config, s: State, a: Action)
    requires cfg.max >= 1 && Accounted(s) && Settled(s) && Bounded(cfg, s) && Enabled(s, a)
    requires Apply(cfg, s, a).past.accepted < TWO_64
    ensures Bounded(cfg, Apply(cfg, s, a))
  {
    match a
    case Produce => ProducerKeepsBounds(cfg, s);
    case Claim(v) => ClaimKeepsBounds(cfg, s, v);
    case _ =>
  }

  lemma ProducerKeepsBounds(cfg: Config, s: State)
    requires cfg.max >= 1 && Accounted(s) && Bounded(cfg, s) && Enabled(s, Produce)
    requires ProducerStep(cfg, s).past.accepted < TWO_64
    ensures Bounded(cfg, ProducerStep(cfg, s))
  {
    hide Desired;
    var s' := ProducerStep(cfg, s);
    if s.producer.Adding? {
      assert s'.now.scheduled == s.now.scheduled + s.producer.add;
    }
  }

  lemma ClaimKeepsBounds(cfg: Config, s: State, v: nat)
    requires cfg.max >= 1 && Settled(s) && Bounded(cfg, s) && Enabled(s, Claim(v))
    ensures Bounded(cfg, ClaimStep(s, v))
  {
    assert ClaimerSound(s.claimers[v], s.now);
  }

  lemma {:induction false} RunKeepsInvariant(cfg: Config, states: seq<State>, steps: seq<Action>, n: nat)
    requires cfg.max >= 1 && Run(cfg, states, steps) && n < |states|
    ensures Invariant(cfg, states[n])
    decreases n
  {
    hide Apply, Enabled, Accounted, Settled, Bounded;
    if n == 0 {
      InitialIsSound(cfg, states[0]);
    } else {
      RunKeepsInvariant(cfg, states, steps, n - 1);
      var s, a := states[n - 1], steps[n - 1];
      assert Enabled(s, a) && states[n] == Apply(cfg, s, a);
      StepKeepsAccounts(cfg, s, a);
      StepSettles(cfg, s, a);
      if states[n].past.accepted < TWO_64 {
        StepKeepsBounds(cfg, s, a);
      }
    }
  }

  lemma InitialIsSound(cfg: Config, s: State)
    requires Initial(cfg, s)
    ensures Invariant(cfg, s)
  {
  }

  // ----------------------------------------------------------------- main results

  /** The step that schedules the 2^64th arrival wraps the counter below the number claimed. */
  lemma CrossingBreaksBounds(cfg: Config, s: State, a: Action)
    requires cfg.max >= 1 && Accounted(s) && Bounded(cfg, s) && Enabled(s, a)
    requires s.past.accepted < TWO_64 <= Apply(cfg, s, a).past.accepted
    ensures !InBounds(cfg, Apply(cfg, s, a).now)
  {
    assert a.Produce? && s.producer.Adding?;
    assert s.now.scheduled == s.past.accepted;
    assert Apply(cfg, s, a).now.scheduled == s.now.scheduled + s.producer.add - TWO_64;
  }

  lemma {:induction false} FindCrossing(cfg: Config, states: seq<State>, steps: seq<Action>, n: nat) returns (m: nat)
    requires cfg.max >= 1 && Run(cfg, states, steps) && n < |states| && states[n].past.accepted >= TWO_64
    ensures m <= n && !InBounds(cfg, states[m].now)
    decreases n
  {
    hide Apply, Enabled, Accounted, Settled, Bounded, InBounds;
    var s, a := states[n - 1], steps[n - 1];
    assert Enabled(s, a) && states[n] == Apply(cfg, s, a);
    if s.past.accepted >= TWO_64 {
      m := FindCrossing(cfg, states, steps, n - 1);
    } else {
      RunKeepsInvariant(cfg, states, steps, n - 1);
      CrossingBreaksBounds(cfg, s, a);
      m := n;
    }
  }

  /** In every run a claim granted is one token claimed. */
  lemma GrantsAreClaims(cfg: Config, states: seq<State>, steps: seq<Action>, n: nat)
    requires cfg.max >= 1 && Run(cfg, states, steps) && n < |states|
    ensures states[n].now.claimed == states[n].past.granted
  {
    RunKeepsInvariant(cfg, states, steps, n);
  }

  /**
  Tokens are never over-claimed and the backlog stays bounded, up to any point of a run, if and only if
  fewer than 2^64 arrivals have been scheduled by then.
  */
  lemma BacklogIsBounded(cfg: Config, states: seq<State>, steps: seq<Action>, n: nat)
    requires cfg.max >= 1 && Run(cfg, states, steps) && n < |states|
    ensures (forall m :: 0 <= m <= n ==> InBounds(cfg, states[m].now)) <==> states[n].past.accepted < TWO_64
  {
    if states[n].past.accepted < TWO_64 {
      forall m | 0 <= m <= n
        ensures InBounds(cfg, states[m].now)
      {
        RefusalsStay(cfg, states, steps, m, n);
        RunKeepsInvariant(cfg, states, steps, m);
      }
    } else {
      var m := FindCrossing(cfg, states, steps, n);
    }
  }

  /**
  Between two updates every arrival offered is either scheduled or dropped. The two counters add up to
  the number offered exactly when neither has wrapped.
  */
  lemma NoArrivalUnaccounted(cfg: Config, states: seq<State>, steps: seq<Action>, n: nat)
    requires cfg.max >= 1 && Run(cfg, states, steps) && n < |states|
    requires states[n].producer.Resting? || states[n].producer.Finished?
    ensures var s := states[n];
            s.now.scheduled + s.now.dropped == s.past.offered <==> s.past.accepted < TWO_64 && s.past.lost < TWO_64
    ensures var s := states[n]; (s.now.scheduled + s.now.dropped) % TWO_64 == s.past.offered % TWO_64
  {
    RunKeepsInvariant(cfg, states, steps, n);
    var s := states[n];
    assert s.past.offered == s.past.accepted + s.past.lost;
  }

  lemma {:induction false} RefusalsStay(cfg: Config, states: seq<State>, steps: seq<Action>, m: nat, n: nat)
    requires cfg.max >= 1 && Run(cfg, states, steps) && m <= n < |states|
    ensures states[m].past.refusals <= states[n].past.refusals
    ensures states[m].past.accepted <= states[n].past.accepted
    decreases n
  {
    if m < n {
      RefusalsStay(cfg, states, steps, m, n - 1);
      RunKeepsInvariant(cfg, states, steps, n - 1);
      assert Accounted(states[n - 1]);
      hide Apply, Enabled, Invariant, Accounted;
      assert Enabled(states[n - 1], steps[n - 1]) && states[n] == Apply(cfg, states[n - 1], steps[n - 1]);
      StepKeepsAccounts(cfg, states[n - 1], steps[n - 1]);
    }
  }

  /**
  Once any claim has been refused the pacer is done and no token is left for ever after. Every arrival
  offered was then either granted to a virtual user or dropped, if and only if the counter never wrapped.
  */
  lemma RefusalIsFinal(cfg: Config, states: seq<State>, steps: seq<Action>, m: nat, n: nat)
    requires cfg.max >= 1 && Run(cfg, states, steps) && m <= n < |states| && states[m].past.refusals > 0
    ensures states[n].now.done && states[n].now.scheduled <= states[n].now.claimed
    ensures states[n].past.granted + states[n].past.lost == states[n].past.offered <==> states[n].past.accepted < TWO_64
    ensures states[n].past.accepted < TWO_64 ==> states[n].now.claimed == states[n].now.scheduled
  {
    RefusalsStay(cfg, states, steps, m, n);
    RunKeepsInvariant(cfg, states, steps, n);
  }

  /** A virtual user whose claim is refused makes that so. */
  lemma RefusedMeansDrained(cfg: Config, states: seq<State>, steps: seq<Action>, n: nat, v: nat)
    requires cfg.max >= 1 && Run(cfg, states, steps) && n < |states|
    requires v in states[n].claimers && states[n].claimers[v].Refused?
    ensures states[n].now.done && states[n].now.scheduled <= states[n].now.claimed
    ensures states[n].past.accepted < TWO_64 ==> states[n].now.claimed == states[n].now.scheduled
  {
    RunKeepsInvariant(cfg, states, steps, n);
    assert ClaimerSound(states[n].claimers[v], states[n].now);
  }

  /**
  An arrival is dropped only when the backlog the producer saw was filled to its limit; until the counter
  wraps that is the number scheduled beyond the number it saw claimed.
  */
  lemma DropsOnlyWhenFull(cfg: Config, states: seq<State>, steps: seq<Action>, n: nat)
    requires cfg.max >= 1 && Run(cfg, states, steps) && n < |states| && states[n].producer.SawClaimed?
    ensures var s, next := states[n], ProducerStep(cfg, states[n]);
            next.producer.drop > 0 ==>
              && SaturatingSub(s.now.scheduled, s.producer.claimed) + next.producer.add >= Max(cfg.max, 1)
              && (s.past.accepted < TWO_64 ==>
                    s.now.scheduled + next.producer.add == Max(s.now.scheduled, s.producer.claimed + Max(cfg.max, 1)))
  {
    RunKeepsInvariant(cfg, states, steps, n);
  }

  /** The number of active virtual users stays between the pre-allocated number and the limit. */
  lemma {:induction false} ActiveStaysInRange(cfg: Config, states: seq<State>, steps: seq<Action>, n: nat)
    requires 1 <= cfg.preAllocated <= cfg.max && Run(cfg, states, steps) && n < |states|
    ensures ActiveInRange(cfg, states[n])
    decreases n
  {
    if n > 0 {
      ActiveStaysInRange(cfg, states, steps, n - 1);
      assert Enabled(states[n - 1], steps[n - 1]) && states[n] == Apply(cfg, states[n - 1], steps[n - 1]);
    }
  }

  /** The number stored is that of the backlog between the claims the producer saw and what it has scheduled. */
  lemma ActiveFollowsBacklog(cfg: Config, states: seq<State>, steps: seq<Action>, n: nat)
    requires 1 <= cfg.preAllocated <= cfg.max && Run(cfg, states, steps) && n < |steps|
    requires states[n].producer.AdjustSaw? && steps[n] == Produce
    ensures states[n + 1].producer.Storing?
    ensures FollowsBacklog(cfg, states[n].now.scheduled - states[n].producer.claimed, states[n + 1].producer.desired)
  {
    assert Enabled(states[n], steps[n]) && states[n + 1] == Apply(cfg, states[n], steps[n]);
  }

  // ------------------------------------------- the calls are the steps, uninterrupted

  function StepsLeft(p: Producer): nat {
    match p
    case Offering(_) => 7
    case SawClaimed(_, _) => 6
    case Adding(_, _) => 5
    case Dropping(_) => 4
    case Adjusting => 3
    case AdjustSaw(_) => 2
    case Storing(_) => 1
    case _ => 0
  }

  /** The producer runs to the end of its call. */
  function ProducerAlone(cfg: Config, s: State): State
    requires cfg.max >= 1
    decreases StepsLeft(s.producer)
  {
    if Enabled(s, Produce) then ProducerAlone(cfg, ProducerStep(cfg, s)) else s
  }

  lemma AcceptsNothing(cfg: Config, claimed: u64, scheduled: u64)
    ensures Accepted(cfg, 0, claimed, scheduled) == 0
  {
  }

  lemma UninterruptedUpdate(cfg: Config, s: State, due: u64)
    requires cfg.max >= 1 && s.producer == Resting
    ensures ProducerAlone(cfg, Apply(cfg, s, Update(due))).now == Updated(cfg, s.now, due)
    ensures ProducerAlone(cfg, Apply(cfg, s, Update(due))).producer == Resting
  {
    hide Desired, Accepted, WrappingAdd;
    AddZero(s.now.scheduled);
    AddZero(s.now.dropped);
    AcceptsNothing(cfg, s.now.claimed, s.now.scheduled);
    var s1 := Apply(cfg, s, Update(due));
    if due != 0 {
      var s2 := ProducerStep(cfg, s1);
      var s3 := ProducerStep(cfg, s2);
      var s4 := ProducerStep(cfg, s3);
      var s5 := ProducerStep(cfg, s4);
      AdjustAlone(cfg, s5);
      assert ProducerAlone(cfg, s1) == ProducerAlone(cfg, s2) == ProducerAlone(cfg, s3)
          == ProducerAlone(cfg, s4) == ProducerAlone(cfg, s5);
    } else {
      AdjustAlone(cfg, s1);
    }
  }

  lemma AdjustAlone(cfg: Config, s: State)
    requires cfg.max >= 1 && s.producer == Adjusting
    ensures ProducerAlone(cfg, s) == s.(now := Adjusted(cfg, s.now), producer := Resting)
  {
    var s1 := ProducerStep(cfg, s);
    var s2 := ProducerStep(cfg, s1);
    var s3 := ProducerStep(cfg, s2);
    assert ProducerAlone(cfg, s) == ProducerAlone(cfg, s1) == ProducerAlone(cfg, s2) == ProducerAlone(cfg, s3);
  }

  function ClaimStepsLeft(c: Claimer): nat {
    match c
    case Top => 6
    case DoneSeen => 5
    case DoneSaw(_) => 4
    case Reading => 3
    case SawOne(_) => 2
    case Swapping(_) => 1
    case _ => 0
  }

  predicate NoSwapMisses(s: State, v: nat) {
    v in s.claimers && match s.claimers[v]
    case SawOne(c) => c == s.now.claimed
    case Swapping(c) => c == s.now.claimed
    case _ => true
  }

  /** The claimer runs to its first return or its first sleep. */
  function ClaimAlone(cfg: Config, s: State, v: nat): (r: State)
    requires cfg.max >= 1 && NoSwapMisses(s, v)
    ensures v in r.claimers
    decreases ClaimStepsLeft(s.claimers[v])
  {
    if Enabled(s, Claim(v)) then ClaimAlone(cfg, Apply(cfg, s, Claim(v)), v) else s
  }

  lemma UninterruptedClaim(cfg: Config, s: State, v: nat)
    requires cfg.max >= 1 && v in s.claimers && s.claimers[v] == Top
    ensures var (now, outcome) := Claimed(s.now);
            var s' := ClaimAlone(cfg, s, v);
            && s'.now == now
            && s'.claimers[v] == match outcome { case Token => Granted case NoMore => Refused case Asleep => Sleeping }
  {
    var s1 := ClaimStep(s, v);
    if s.now.done {
      var s2 := ClaimStep(s1, v);
      var s3 := ClaimStep(s2, v);
      if s3.claimers[v].Reading? {
        ReadAlone(cfg, s3, v);
      }
      assert ClaimAlone(cfg, s, v) == ClaimAlone(cfg, s1, v) == ClaimAlone(cfg, s2, v) == ClaimAlone(cfg, s3, v);
    } else {
      ReadAlone(cfg, s1, v);
    }
  }

  lemma ReadAlone(cfg: Config, s: State, v: nat)
    requires cfg.max >= 1 && v in s.claimers && s.claimers[v] == Reading
    ensures var s' := ClaimAlone(cfg, s, v);
            && s'.now == Claimed(s.now).0
            && s'.claimers[v] == if s.now.claimed < s.now.scheduled then Granted else Sleeping
  {
    var s1 := ClaimStep(s, v);
    var s2 := ClaimStep(s1, v);
    if s.now.claimed < s.now.scheduled {
      var s3 := ClaimStep(s2, v);
      assert ClaimAlone(cfg, s, v) == ClaimAlone(cfg, s1, v) == ClaimAlone(cfg, s2, v) == ClaimAlone(cfg, s3, v);
    } else {
      assert ClaimAlone(cfg, s, v) == ClaimAlone(cfg, s1, v) == ClaimAlone(cfg, s2, v);
    }
  }

  /** One who woke up or missed its swap looks again, and undisturbed gets what a fresh call would; then it may call again. */
  lemma LooksAgain(cfg: Config, s: State, v: nat, a: Action)
    requires cfg.max >= 1 && Enabled(s, a) && (a == Wake(v) || a == SwapFails(v))
    ensures var (now, outcome) := Claimed(s.now);
            var s' := ClaimAlone(cfg, Apply(cfg, s, a), v);
            && s'.now == now
            && (outcome == Token ==>
                  s'.claimers[v] == Granted && Enabled(s', Leave(v)) && Enabled(Apply(cfg, s', Leave(v)), Call(v)))
  {
    UninterruptedClaim(cfg, Apply(cfg, s, a), v);
  }
}
