/**
The shared store's wait protocol: a mutex-guarded map with one watch channel per awaited key, where a
writer sends its notification after it has released the lock.
*/
module SharedStore {
  import opened Words
  import opened Wrappers
  import opened Values

  type Key = Str
  type Task = nat

  /** A watch channel: the value sent, a version every delivered send advances, the receivers subscribed. */
  datatype Channel = Channel(value: u64, version: nat, receivers: set<Task>)

  /** What the mutex guards, with the channels reached through it. */
  datatype Inner = Inner(values: map<Key, Value>, channels: map<Key, Channel>)

  function SaturatingAdd(a: i64, b: i64): i64 {
    if a + b >= TWO_63 then TWO_63 - 1 else if a + b < -TWO_63 then -TWO_63 else a + b
  }

  function CounterOf(inner: Inner, k: Key): i64 {
    if k in inner.values && inner.values[k].I64? then inner.values[k].signed else 0
  }

  // ------------------------------------------------ meaning: the locked sections

  function Put(inner: Inner, k: Key, v: Value): Inner {
    inner.(values := inner.values[k := v])
  }

  function Remove(inner: Inner, k: Key): Inner {
    inner.(values := inner.values - {k})
  }

  function Subscribe(inner: Inner, k: Key, t: Task): Inner {
    var c := if k in inner.channels then inner.channels[k] else Channel(0, 0, {});
    inner.(channels := inner.channels[k := c.(receivers := c.receivers + {t})])
  }

  function Unsubscribe(inner: Inner, k: Key, t: Task): Inner
    requires k in inner.channels
  {
    var c := inner.channels[k];
    inner.(channels := inner.channels[k := c.(receivers := c.receivers - {t})])
  }

  /** A send is dropped when nobody is subscribed. */
  function Deliver(inner: Inner, k: Key, next: u64): Inner
    requires k in inner.channels
  {
    var c := inner.channels[k];
    if c.receivers == {} then inner else inner.(channels := inner.channels[k := Channel(next, c.version + 1, c.receivers)])
  }

  /** The number under a key, 0 when there is none. */
  predicate Holds(values: map<Key, Value>, k: Key, n: int) {
    if k in values && values[k].I64? then values[k].signed == n else n == 0
  }

  /** An increment adds to the number held, clamped to 64 bits, and touches no other key. */
  predicate Incremented(before: map<Key, Value>, after: map<Key, Value>, k: Key, delta: i64) {
    && k in after && after[k].I64? && after.Keys == before.Keys + {k}
    && (forall other :: other in before && other != k ==> after[other] == before[other])
    && var held := if k in before && before[k].I64? then before[k].signed else 0;
       && (-TWO_63 <= held + delta < TWO_63 ==> after[k].signed == held + delta)
       && (held + delta >= TWO_63 ==> after[k].signed == TWO_63 - 1)
       && (held + delta < -TWO_63 ==> after[k].signed == -TWO_63)
  }

  // ------------------------------------------------------------------ the store

  class Store {
    var inner: Inner

    constructor ()
      ensures inner == Inner(map[], map[])
    {
      inner := Inner(map[], map[]);
    }

    /** `set` up to releasing the lock; `notify` says whether a sender was cloned. */
    method SetLocked(k: Key, v: Value) returns (notify: bool)
      modifies this
      ensures inner == Put(old(inner), k, v) && notify == (k in old(inner.channels))
    {
      inner := inner.(values := inner.values[k := v]);
      notify := k in inner.channels;
    }

    /** `incr` up to releasing the lock: a value that is not a counter counts as 0, the sum saturates. */
    method IncrLocked(k: Key, delta: i64) returns (notify: bool)
      modifies this
      ensures inner == Put(old(inner), k, I64(SaturatingAdd(CounterOf(old(inner), k), delta)))
      ensures Incremented(old(inner).values, inner.values, k, delta)
      ensures notify == (k in old(inner.channels))
    {
      var cur := 0;
      if k in inner.values && inner.values[k].I64? {
        cur := inner.values[k].signed;
      }
      var sum := cur + delta;
      var next := if sum >= TWO_63 then TWO_63 - 1 else if sum < -TWO_63 then -TWO_63 else sum;
      inner := inner.(values := inner.values[k := I64(next)]);
      notify := k in inner.channels;
    }

    /** The notification of a writer that cloned a sender: read the last value sent, send its successor. */
    method Notify(k: Key)
      requires k in inner.channels
      modifies this
      ensures inner == Deliver(old(inner), k, (old(inner).channels[k].value + 1) % TWO_64)
    {
      var next := (inner.channels[k].value + 1) % TWO_64;
      var c := inner.channels[k];
      if c.receivers != {} {
        inner := inner.(channels := inner.channels[k := Channel(next, c.version + 1, c.receivers)]);
      }
    }

    /** `set` run without interruption. */
    method Set(k: Key, v: Value)
      modifies this
      ensures inner.values == old(inner).values[k := v]
      ensures inner.channels == if k in old(inner).channels
                                then Deliver(old(inner), k, (old(inner).channels[k].value + 1) % TWO_64).channels
                                else old(inner).channels
    {
      var notify := SetLocked(k, v);
      if notify {
        Notify(k);
      }
    }

    method Get(k: Key) returns (v: Option<Value>)
      ensures v == if k in inner.values then Some(inner.values[k]) else None
    {
      if k in inner.values {
        return Some(inner.values[k]);
      }
      v := None;
    }

    method DeleteLocked(k: Key)
      modifies this
      ensures inner == Remove(old(inner), k)
    {
      inner := inner.(values := inner.values - {k});
    }

    /** The first locked section of `wait_for_key`: present, or subscribed with the version seen. */
    method WaitLocked(k: Key, t: Task) returns (seen: Option<nat>)
      modifies this
      ensures k in old(inner.values) ==> seen == None && inner == old(inner)
      ensures k !in old(inner.values) ==>
                inner == Subscribe(old(inner), k, t) && seen == Some(inner.channels[k].version)
      ensures k !in old(inner.values) && k !in old(inner.channels) ==> inner.channels[k] == Channel(0, 0, {t})
    {
      if k in inner.values {
        return None;
      }
      if k !in inner.channels {
        inner := inner.(channels := inner.channels[k := Channel(0, 0, {})]);
      }
      var c := inner.channels[k];
      inner := inner.(channels := inner.channels[k := c.(receivers := c.receivers + {t})]);
      seen := Some(c.version);
    }
  }

  // -------------------------------------------------------------- the protocol

  /** Where a task stands. A writer passes `Notifying` and `Publishing` only if it cloned a sender. */
  datatype Pc =
    | Idle
    | Notifying(key: Key)
    | Publishing(key: Key, next: u64)
    | Checking(key: Key, seen: nat)
    | Waiting(key: Key, seen: nat)
    | Returned(key: Key)

  datatype State = State(inner: Inner, tasks: map<Task, Pc>)

  datatype Action =
    | DoSet(key: Key, value: Value)
    | DoIncr(key: Key, delta: i64)
    | DoDelete(key: Key)
    | DoWait(key: Key)
    | Borrow
    | Send
    | Check
    | Changed
    | Cancel
    | Finish

  predicate Enabled(s: State, t: Task, a: Action) {
    t in s.tasks &&
    match a
    case DoSet(_, _) => s.tasks[t].Idle?
    case DoIncr(_, _) => s.tasks[t].Idle?
    case DoDelete(_) => s.tasks[t].Idle?
    case DoWait(_) => s.tasks[t].Idle?
    case Borrow => s.tasks[t].Notifying? && s.tasks[t].key in s.inner.channels
    case Send => s.tasks[t].Publishing? && s.tasks[t].key in s.inner.channels
    case Check => s.tasks[t].Checking? && s.tasks[t].key in s.inner.channels
    case Changed => s.tasks[t].Waiting? && s.tasks[t].key in s.inner.channels
                    && s.inner.channels[s.tasks[t].key].version != s.tasks[t].seen
    case Cancel => (s.tasks[t].Checking? || s.tasks[t].Waiting?) && s.tasks[t].key in s.inner.channels
    case Finish => s.tasks[t].Returned?
  }

  function AfterWrite(s: State, t: Task, k: Key, v: Value): State {
    State(Put(s.inner, k, v), s.tasks[t := if k in s.inner.channels then Notifying(k) else Idle])
  }

  function Apply(s: State, t: Task, a: Action): State
    requires Enabled(s, t, a)
  {
    var pc := s.tasks[t];
    match a
    case DoSet(k, v) => AfterWrite(s, t, k, v)
    case DoIncr(k, d) => AfterWrite(s, t, k, I64(SaturatingAdd(CounterOf(s.inner, k), d)))
    case DoDelete(k) => s.(inner := Remove(s.inner, k))
    case DoWait(k) =>
      if k in s.inner.values then s.(tasks := s.tasks[t := Returned(k)])
      else
        var inner := Subscribe(s.inner, k, t);
        State(inner, s.tasks[t := Checking(k, inner.channels[k].version)])
    case Borrow => s.(tasks := s.tasks[t := Publishing(pc.key, (s.inner.channels[pc.key].value + 1) % TWO_64)])
    case Send => State(Deliver(s.inner, pc.key, pc.next), s.tasks[t := Idle])
    case Check =>
      if pc.key in s.inner.values then State(Unsubscribe(s.inner, pc.key, t), s.tasks[t := Returned(pc.key)])
      else s.(tasks := s.tasks[t := Waiting(pc.key, pc.seen)])
    case Changed => s.(tasks := s.tasks[t := Checking(pc.key, s.inner.channels[pc.key].version)])
    case Cancel => State(Unsubscribe(s.inner, pc.key, t), s.tasks[t := Idle])
    case Finish => s.(tasks := s.tasks[t := Idle])
  }

  predicate Initial(s: State) {
    s.inner == Inner(map[], map[]) && forall t :: t in s.tasks ==> s.tasks[t].Idle?
  }

  /** A run: any interleaving of any tasks' steps, one step between neighbouring states. */
  ghost predicate Run(states: seq<State>, steps: seq<(Task, Action)>) {
    && |states| == |steps| + 1
    && Initial(states[0])
    && forall i :: 0 <= i < |steps| ==>
         Enabled(states[i], steps[i].0, steps[i].1) && states[i + 1] == Apply(states[i], steps[i].0, steps[i].1)
  }

  // ----------------------------------------------------------------- invariant

  predicate Subscribed(pc: Pc) {
    pc.Checking? || pc.Waiting?
  }

  /** Between releasing the lock after writing `k` and sending. */
  predicate MidSend(pc: Pc, k: Key) {
    (pc.Notifying? || pc.Publishing?) && pc.key == k
  }

  ghost predicate SomeoneSending(s: State, k: Key) {
    exists w :: w in s.tasks && MidSend(s.tasks[w], k)
  }

  /** A channel's receivers are exactly those waiting for its key, none ahead of it; senders have a channel. */
  ghost predicate Consistent(s: State) {
    && (forall t :: t in s.tasks && Subscribed(s.tasks[t]) ==>
          && s.tasks[t].key in s.inner.channels
          && s.tasks[t].seen <= s.inner.channels[s.tasks[t].key].version)
    && (forall t :: t in s.tasks && (s.tasks[t].Notifying? || s.tasks[t].Publishing?) ==> s.tasks[t].key in s.inner.channels)
    && (forall k :: k in s.inner.channels ==> Receives(s, k))
  }

  ghost predicate Receives(s: State, k: Key)
    requires k in s.inner.channels
  {
    forall t :: t in s.inner.channels[k].receivers <==> t in s.tasks && Subscribed(s.tasks[t]) && s.tasks[t].key == k
  }

  /** The waiter's version is unseen, or someone is about to send. */
  ghost predicate CanWake(s: State, w: Task)
    requires w in s.tasks && s.tasks[w].Waiting?
  {
    var k := s.tasks[w].key;
    (k in s.inner.channels && s.inner.channels[k].version != s.tasks[w].seen) || SomeoneSending(s, k)
  }

  /** Every waiter on a present key can still wake. */
  ghost predicate NothingLost(s: State) {
    forall w :: w in s.tasks && s.tasks[w].Waiting? && s.tasks[w].key in s.inner.values ==> CanWake(s, w)
  }

  lemma StepKeepsConsistent(s: State, t: Task, a: Action)
    requires Consistent(s) && Enabled(s, t, a)
    ensures Consistent(Apply(s, t, a))
  {
    hide SaturatingAdd, CounterOf, Receives;
    var s' := Apply(s, t, a);
    forall k | k in s'.inner.channels
      ensures Receives(s', k)
    {
      StepKeepsReceivers(s, t, a, k);
    }
    forall w | w in s'.tasks && Subscribed(s'.tasks[w])
      ensures && s'.tasks[w].key in s'.inner.channels
              && s'.tasks[w].seen <= s'.inner.channels[s'.tasks[w].key].version
    {
      if w != t {
        assert s'.tasks[w] == s.tasks[w];
      }
    }
  }

  lemma OthersStay(s: State, t: Task, a: Action, k: Key, w: Task)
    requires Enabled(s, t, a) && k in Apply(s, t, a).inner.channels && w != t
    ensures w in Apply(s, t, a).tasks <==> w in s.tasks
    ensures w in s.tasks ==> Apply(s, t, a).tasks[w] == s.tasks[w]
    ensures w in Apply(s, t, a).inner.channels[k].receivers <==> k in s.inner.channels && w in s.inner.channels[k].receivers
  {
    hide SaturatingAdd, CounterOf;
  }

  lemma StepKeepsReceivers(s: State, t: Task, a: Action, k: Key)
    requires Enabled(s, t, a) && k in Apply(s, t, a).inner.channels
    requires if k in s.inner.channels then Receives(s, k)
             else forall w :: w in s.tasks && Subscribed(s.tasks[w]) ==> s.tasks[w].key != k
    ensures Receives(Apply(s, t, a), k)
  {
    hide SaturatingAdd, CounterOf;
    var s' := Apply(s, t, a);
    assert t in s'.inner.channels[k].receivers <==> t in s'.tasks && Subscribed(s'.tasks[t]) && s'.tasks[t].key == k;
    hide Apply, Enabled, Subscribed;
    forall w | w != t
      ensures w in s'.inner.channels[k].receivers <==> w in s'.tasks && Subscribed(s'.tasks[w]) && s'.tasks[w].key == k
    {
      OthersStay(s, t, a, k, w);
    }
  }

  lemma StepLosesNothing(s: State, t: Task, a: Action)
    requires Consistent(s) && NothingLost(s) && Enabled(s, t, a)
    ensures NothingLost(Apply(s, t, a))
  {
    var s' := Apply(s, t, a);
    forall w | w in s'.tasks && s'.tasks[w].Waiting? && s'.tasks[w].key in s'.inner.values
      ensures CanWake(s', w)
    {
      WaiterCanStillWake(s, t, a, w);
    }
  }

  lemma WaiterCanStillWake(s: State, t: Task, a: Action, w: Task)
    requires Consistent(s) && NothingLost(s) && Enabled(s, t, a)
    requires w in Apply(s, t, a).tasks && Apply(s, t, a).tasks[w].Waiting?
    requires Apply(s, t, a).tasks[w].key in Apply(s, t, a).inner.values
    ensures CanWake(Apply(s, t, a), w)
  {
    hide SaturatingAdd, CounterOf;
    var s' := Apply(s, t, a);
    var k := s'.tasks[w].key;
    if w != t {
      if a.DoSet? || a.DoIncr? {
        if a.key == k {
          assert MidSend(s'.tasks[t], k);
        }
      }
      if SomeoneSending(s, k) {
        var x :| x in s.tasks && MidSend(s.tasks[x], k);
        if x != t {
          assert MidSend(s'.tasks[x], k);
        } else if a.Borrow? {
          assert MidSend(s'.tasks[t], k);
        }
      }
    }
  }

  /** Over every interleaving, no wake-up is lost. */
  lemma {:induction false} NoLostWakeup(states: seq<State>, steps: seq<(Task, Action)>, n: nat)
    requires Run(states, steps) && n < |states|
    ensures Consistent(states[n]) && NothingLost(states[n])
    decreases n
  {
    if n > 0 {
      NoLostWakeup(states, steps, n - 1);
      var (t, a) := steps[n - 1];
      StepKeepsConsistent(states[n - 1], t, a);
      StepLosesNothing(states[n - 1], t, a);
    }
  }

  /** A send reaches those who wait for the key, as one new version with the number sent; without any it is dropped. */
  lemma SendReachesWaiters(states: seq<State>, steps: seq<(Task, Action)>, n: nat, t: Task)
    requires Run(states, steps) && n < |steps| && steps[n] == (t, Send)
    ensures t in states[n].tasks && states[n].tasks[t].Publishing?
    ensures var k, next := states[n].tasks[t].key, states[n].tasks[t].next;
            && k in states[n].inner.channels && k in states[n + 1].inner.channels
            && var before, after := states[n].inner.channels[k], states[n + 1].inner.channels[k];
               if exists w :: w in states[n].tasks && Subscribed(states[n].tasks[w]) && states[n].tasks[w].key == k
               then after.version == before.version + 1 && after.value == next
               else after == before
  {
    NoLostWakeup(states, steps, n);
    assert Enabled(states[n], steps[n].0, steps[n].1) && states[n + 1] == Apply(states[n], steps[n].0, steps[n].1);
    assert Receives(states[n], states[n].tasks[t].key);
  }

  /** A writer's steps, run alone, do what `set` does: the value stored, and one new version for those who wait. */
  lemma UninterruptedSet(s: State, t: Task, k: Key, v: Value)
    requires t in s.tasks && s.tasks[t] == Idle
    ensures var written := Apply(s, t, DoSet(k, v));
            && written.inner.values == s.inner.values[k := v] && written.inner.channels == s.inner.channels
            && (k !in s.inner.channels ==> written.tasks[t] == Idle)
            && (k in s.inner.channels ==>
                  && Enabled(written, t, Borrow) && Enabled(Apply(written, t, Borrow), t, Send)
                  && var sent, c := Apply(Apply(written, t, Borrow), t, Send), s.inner.channels[k];
                     && sent.tasks[t] == Idle && sent.inner.values == written.inner.values
                     && sent.inner.channels == if c.receivers == {} then s.inner.channels
                                               else s.inner.channels[k := Channel((c.value + 1) % TWO_64, c.version + 1, c.receivers)])
  {
  }

  /** Waiting for a present key returns at once and subscribes nobody; for an absent one it subscribes. */
  lemma WaitLooksFirst(s: State, t: Task, k: Key)
    requires t in s.tasks && s.tasks[t] == Idle
    ensures var s' := Apply(s, t, DoWait(k));
            && (k in s.inner.values ==> s'.inner == s.inner && s'.tasks[t] == Returned(k))
            && (k !in s.inner.values ==>
                  && k in s'.inner.channels && t in s'.inner.channels[k].receivers
                  && s'.tasks[t] == Checking(k, if k in s.inner.channels then s.inner.channels[k].version else 0))
  {
  }

  predicate Writes(a: Action, k: Key) {
    (a.DoSet? || a.DoIncr?) && a.key == k
  }

  /** Step `m` of the run wrote `k`, and no step after it and before `n` deleted it. */
  ghost predicate LastWritten(steps: seq<(Task, Action)>, k: Key, m: nat, n: nat) {
    m < n <= |steps| && Writes(steps[m].1, k) && forall j :: m < j < n ==> steps[j].1 != DoDelete(k)
  }

  lemma StepValues(s: State, t: Task, a: Action, k: Key)
    requires Enabled(s, t, a) && k in Apply(s, t, a).inner.values
    ensures a != DoDelete(k)
    ensures Writes(a, k) || k in s.inner.values
  {
  }

  /** A key is present only because a step wrote it and none deleted it since. */
  lemma {:induction false} PresentWasWritten(states: seq<State>, steps: seq<(Task, Action)>, n: nat, k: Key) returns (m: nat)
    requires Run(states, steps) && n < |states| && k in states[n].inner.values
    ensures LastWritten(steps, k, m, n)
    decreases n
  {
    hide Apply, Enabled;
    assert n > 0;
    var (t, a) := steps[n - 1];
    assert Enabled(states[n - 1], steps[n - 1].0, steps[n - 1].1)
        && states[n] == Apply(states[n - 1], steps[n - 1].0, steps[n - 1].1);
    StepValues(states[n - 1], t, a, k);
    if Writes(a, k) {
      m := n - 1;
    } else {
      m := PresentWasWritten(states, steps, n - 1, k);
    }
  }

  /**
  `wait_for_key` returns only at a step of its own that finds its key present: an earlier step of the run
  wrote the key, and no delete of it lies in between.
  */
  lemma ReturnsOnlyWhenPresent(states: seq<State>, steps: seq<(Task, Action)>, n: nat, t: Task) returns (m: nat)
    requires Run(states, steps) && n < |steps|
    requires t in states[n + 1].tasks && states[n + 1].tasks[t].Returned?
    requires t in states[n].tasks && !states[n].tasks[t].Returned?
    ensures steps[n].0 == t && states[n + 1].tasks[t].key in states[n].inner.values
    ensures states[n].inner.values == states[n + 1].inner.values
    ensures LastWritten(steps, states[n + 1].tasks[t].key, m, n)
  {
    assert Enabled(states[n], steps[n].0, steps[n].1) && states[n + 1] == Apply(states[n], steps[n].0, steps[n].1);
    m := PresentWasWritten(states, steps, n, states[n + 1].tasks[t].key);
  }

  /** What steps `m` to `n` add to a key. */
  function Added(steps: seq<(Task, Action)>, k: Key, m: nat, n: nat): int
    requires m <= n <= |steps|
    decreases n
  {
    if m == n then 0
    else
      var a := steps[n - 1].1;
      Added(steps, k, m, n - 1) + (if a.DoIncr? && a.key == k then a.delta else 0)
  }

  /** No step in between sets or deletes the key. */
  predicate OnlyCounted(steps: seq<(Task, Action)>, k: Key, m: nat, n: nat) {
    forall j :: m <= j < n <= |steps| ==> steps[j].1 != DoDelete(k) && !(steps[j].1.DoSet? && steps[j].1.key == k)
  }

  lemma StepCounts(s: State, t: Task, a: Action, k: Key, n: int)
    requires Enabled(s, t, a) && Holds(s.inner.values, k, n)
    requires a != DoDelete(k) && !(a.DoSet? && a.key == k)
    requires a.DoIncr? && a.key == k ==> -TWO_63 <= n + a.delta < TWO_63
    ensures Holds(Apply(s, t, a).inner.values, k, if a.DoIncr? && a.key == k then n + a.delta else n)
    ensures a.DoIncr? ==> Incremented(s.inner.values, Apply(s, t, a).inner.values, a.key, a.delta)
  {
  }

  /**
  Over every interleaving no increment is lost: as long as nobody sets or deletes the key, it holds the number it
  held before plus everything added since, unless some sum on the way leaves 64 bits.
  */
  lemma {:induction false} IncrementsAddUp(states: seq<State>, steps: seq<(Task, Action)>, m: nat, n: nat, k: Key, start: int)
    requires Run(states, steps) && m <= n < |states| && OnlyCounted(steps, k, m, n) && Holds(states[m].inner.values, k, start)
    requires forall j :: m <= j <= n ==> -TWO_63 <= start + Added(steps, k, m, j) < TWO_63
    ensures Holds(states[n].inner.values, k, start + Added(steps, k, m, n))
    decreases n
  {
    hide Apply, Enabled, Holds;
    if m < n {
      IncrementsAddUp(states, steps, m, n - 1, k, start);
      var (t, a) := steps[n - 1];
      assert Enabled(states[n - 1], steps[n - 1].0, steps[n - 1].1)
          && states[n] == Apply(states[n - 1], steps[n - 1].0, steps[n - 1].1);
      assert Added(steps, k, m, n) == Added(steps, k, m, n - 1) + (if a.DoIncr? && a.key == k then a.delta else 0);
      StepCounts(states[n - 1], t, a, k, start + Added(steps, k, m, n - 1));
    }
  }

  /** Once nobody is mid-send, a waiter on a present key can wake, and its next look returns. */
  lemma WaiterIsNeverStuck(states: seq<State>, steps: seq<(Task, Action)>, n: nat, t: Task)
    requires Run(states, steps) && n < |states|
    requires t in states[n].tasks && states[n].tasks[t].Waiting?
    requires states[n].tasks[t].key in states[n].inner.values && !SomeoneSending(states[n], states[n].tasks[t].key)
    ensures Enabled(states[n], t, Changed)
    ensures var woken := Apply(states[n], t, Changed);
            Enabled(woken, t, Check) && Apply(woken, t, Check).tasks[t] == Returned(states[n].tasks[t].key)
  {
    NoLostWakeup(states, steps, n);
  }

  /** The window is real: with the send still to come, a waiter on a present key may have nothing unseen. */
  lemma WindowWitness(k: Key, v: Value) returns (states: seq<State>, steps: seq<(Task, Action)>)
    ensures Run(states, steps) && |steps| == 3 && 0 in states[3].tasks && 1 in states[3].tasks
              && k in states[3].inner.channels && states[3].tasks[0] == Waiting(k, 0) && k in states[3].inner.values
              && states[3].inner.channels[k].version == 0 && states[3].tasks[1] == Notifying(k)
  {
    var s0 := State(Inner(map[], map[]), map[0 := Idle, 1 := Idle]);
    var s1 := Apply(s0, 0, DoWait(k));
    var s2 := Apply(s1, 0, Check);
    var s3 := Apply(s2, 1, DoSet(k, v));
    states, steps := [s0, s1, s2, s3], [(0, DoWait(k)), (0, Check), (1, DoSet(k, v))];
    assert forall i :: 0 <= i < 3 ==>
      Enabled(states[i], steps[i].0, steps[i].1) && states[i + 1] == Apply(states[i], steps[i].0, steps[i].1);
    assert Run(states, steps);
  }
}
