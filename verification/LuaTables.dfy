/**
One Lua table as a value: a single pass in the table's own unspecified order that starts out as an array
and an object and is upgraded to a map when it has to be.
*/
module LuaTables {
  import opened Arithmetic
  import opened Sets
  import opened Wrappers
  import opened Words
  import opened Values

  /** A key of a Lua table; `KeyOther` is any key of a type the bridge does not store. */
  datatype LuaKey = KeyInt(index: i64) | KeyText(text: Str) | KeyFlag(flag: bool) | KeyOther(id: nat)

  predicate Storable(k: LuaKey) {
    !k.KeyOther?
  }

  function MapKeyOf(k: LuaKey): MapKey
    requires Storable(k)
  {
    match k
    case KeyInt(i) => if i >= 0 then KeyU64(i) else KeyI64(i)
    case KeyText(s) => KeyString(s)
    case KeyFlag(b) => KeyBool(b)
  }

  lemma MapKeyInjective(a: LuaKey, b: LuaKey)
    requires Storable(a) && Storable(b) && MapKeyOf(a) == MapKeyOf(b)
    ensures a == b
  {
  }

  // ---------------------------------------------------------------------- one pass

  /** The variables of the pass. */
  datatype Pass = Pass(
    onlyPosInt: bool, maxIdx: nat, slots: seq<Option<Value>>,
    sawString: bool, sawOther: bool,
    texts: Option<map<Str, Value>>, entries: Option<map<MapKey, Value>>
  )

  const FRESH: Pass := Pass(true, 0, [], false, false, Some(map[]), None)

  predicate Sized(p: Pass) {
    |p.slots| < TWO_63
  }

  function TextEntries(texts: Option<map<Str, Value>>): (r: map<MapKey, Value>)
    ensures forall k :: k in r <==> texts.Some? && k.KeyString? && k.text in texts.value
    ensures forall k :: k in r ==> r[k] == texts.value[k.text]
  {
    if texts.Some? then map s | s in texts.value :: KeyString(s) := texts.value[s] else map[]
  }

  function IndexEntries(slots: seq<Option<Value>>): (r: map<MapKey, Value>)
    requires |slots| < TWO_63
    ensures forall k :: k in r <==> k.KeyU64? && 1 <= k.unsigned <= |slots| && slots[k.unsigned - 1].Some?
    ensures forall k :: k in r ==> r[k] == slots[k.unsigned - 1].value
  {
    map i: int | 0 <= i < |slots| && slots[i].Some? :: KeyU64(i + 1) := slots[i].value
  }

  /** Makes the map, moving in what was collected so far. */
  function EnsureMap(p: Pass): (r: Pass)
    requires Sized(p)
    ensures Sized(r) && r.entries.Some?
  {
    if p.entries.Some? then p
    else p.(entries := Some(TextEntries(p.texts) + IndexEntries(p.slots)), texts := None,
            slots := seq(|p.slots|, i => None))
  }

  function Store(p: Pass, k: LuaKey, v: Value): (r: Pass)
    requires Sized(p) && Storable(k)
    ensures Sized(r)
  {
    var q := EnsureMap(p);
    q.(entries := Some(q.entries.value[MapKeyOf(k) := v]))
  }

  function Resized(slots: seq<Option<Value>>, n: nat): seq<Option<Value>> {
    if |slots| < n then slots + seq(n - |slots|, i => None) else slots
  }

  /** One pair of the table; no result is an error. */
  function Step(p: Pass, k: LuaKey, v: Value): (r: Option<Pass>)
    requires Sized(p)
    ensures r.Some? ==> Sized(r.value)
  {
    match k
    case KeyInt(i) =>
      var q := p.(sawOther := true);
      if i >= 1 && q.onlyPosInt && q.entries.None? then
        var slots := Resized(q.slots, i);
        if slots[i - 1].Some? then None
        else Some(q.(maxIdx := Max(q.maxIdx, i), slots := slots[i - 1 := Some(v)]))
      else
        Some(Store(if i < 1 then q.(onlyPosInt := false) else q, k, v))
    case KeyText(s) =>
      var q := p.(sawString := true, onlyPosInt := false);
      if q.entries.Some? || q.slots != [] then Some(Store(q, k, v))
      else if q.texts.Some? then Some(q.(texts := Some(q.texts.value[s := v])))
      else None
    case KeyFlag(b) => Some(Store(p.(sawOther := true, onlyPosInt := false), k, v))
    case KeyOther(_) => Some(p.(sawOther := true, onlyPosInt := false))
  }

  function Finish(p: Pass): Option<Value> {
    if p.entries.Some? then Some(Map(p.entries.value))
    else if p.onlyPosInt then
      if p.maxIdx == 0 then Some(Array([]))
      else if |p.slots| != p.maxIdx || exists i :: 0 <= i < |p.slots| && p.slots[i].None? then None
      else Some(Array(seq(|p.slots|, i requires 0 <= i < |p.slots| && p.slots[i].Some? => p.slots[i].value)))
    else if p.sawString && !p.sawOther then Some(Object(if p.texts.Some? then p.texts.value else map[]))
    else Some(Map(map[]))
  }

  predicate Covers(order: seq<LuaKey>, m: map<LuaKey, Value>) {
    forall k :: k in order ==> k in m
  }

  /** The pass over the keys in `order`. */
  function Passed(order: seq<LuaKey>, m: map<LuaKey, Value>): (r: Option<Pass>)
    requires Covers(order, m)
    ensures r.Some? ==> Sized(r.value)
  {
    if order == [] then Some(FRESH)
    else
      var last := |order| - 1;
      match Passed(order[..last], m)
      case None => None
      case Some(p) => Step(p, order[last], m[order[last]])
  }

  function Folded(order: seq<LuaKey>, m: map<LuaKey, Value>): Option<Value>
    requires Covers(order, m)
  {
    match Passed(order, m)
    case None => None
    case Some(p) => Finish(p)
  }

  // ------------------------------------------------- meaning, whatever the order

  ghost predicate HasPositive(keys: set<LuaKey>) { exists k :: k in keys && k.KeyInt? && k.index >= 1 }
  ghost predicate HasBelowOne(keys: set<LuaKey>) { exists k :: k in keys && k.KeyInt? && k.index < 1 }
  ghost predicate HasText(keys: set<LuaKey>) { exists k :: k in keys && k.KeyText? }
  ghost predicate HasFlag(keys: set<LuaKey>) { exists k :: k in keys && k.KeyFlag? }
  ghost predicate HasOther(keys: set<LuaKey>) { exists k :: k in keys && k.KeyOther? }

  ghost predicate OnlyPositive(keys: set<LuaKey>) {
    !HasBelowOne(keys) && !HasText(keys) && !HasFlag(keys) && !HasOther(keys)
  }

  /** Keys that make a map in every order. */
  ghost predicate MustMap(keys: set<LuaKey>) {
    HasBelowOne(keys) || HasFlag(keys) || (HasPositive(keys) && HasText(keys))
  }

  /** Keys that make a map in one order and not in another: positive integers among keys that are not stored. */
  ghost predicate Ambiguous(keys: set<LuaKey>) {
    HasPositive(keys) && HasOther(keys) && !HasBelowOne(keys) && !HasText(keys) && !HasFlag(keys)
  }

  /** The keys are exactly 1, 2, up to their number. */
  ghost predicate Contiguous(keys: set<LuaKey>) {
    |keys| < TWO_63 && forall i :: 1 <= i <= |keys| ==> KeyInt(i) in keys
  }

  function Stored(m: map<LuaKey, Value>): (r: map<MapKey, Value>)
    ensures forall k :: k in m && Storable(k) ==> MapKeyOf(k) in r && r[MapKeyOf(k)] == m[k]
    ensures forall mk :: mk in r ==> exists k :: k in m && Storable(k) && MapKeyOf(k) == mk
  {
    map k | k in m && Storable(k) :: MapKeyOf(k) := m[k]
  }

  function Texts(m: map<LuaKey, Value>): (r: map<Str, Value>)
    ensures forall s :: s in r <==> KeyText(s) in m
    ensures forall s :: s in r ==> r[s] == m[KeyText(s)]
  {
    map k | k in m && k.KeyText? :: k.text := m[k]
  }

  ghost function Items(m: map<LuaKey, Value>): (r: seq<Value>)
    requires Contiguous(m.Keys)
  {
    seq(|m.Keys|, i requires 0 <= i < |m.Keys| => m[KeyInt(i + 1)])
  }

  /** The value of a table, given whether the pass ended with a map. */
  ghost function Level(m: map<LuaKey, Value>, mapped: bool): Option<Value>
  {
    if mapped then Some(Map(Stored(m)))
    else if OnlyPositive(m.Keys) then
      if Contiguous(m.Keys) then Some(Array(Items(m))) else None
    else if HasText(m.Keys) && !HasPositive(m.Keys) && !HasOther(m.Keys) then Some(Object(Texts(m)))
    else Some(Map(map[]))
  }

  /** What the pass has collected from the pairs `m`. */
  ghost predicate Collected(p: Pass, m: map<LuaKey, Value>) {
    && Sized(p)
    && (p.sawString <==> HasText(m.Keys))
    && (p.sawOther <==> HasPositive(m.Keys) || HasBelowOne(m.Keys) || HasFlag(m.Keys) || HasOther(m.Keys))
    && (p.onlyPosInt <==> OnlyPositive(m.Keys))
    && (p.entries.Some? ==> p.entries.value == Stored(m) && (MustMap(m.Keys) || Ambiguous(m.Keys)))
    && (p.entries.None? ==> !MustMap(m.Keys) && p.texts == Some(Texts(m)) && Indexed(p.maxIdx, p.slots, m))
  }

  /** The array holds the positive indices, with gaps, up to the largest. */
  ghost predicate Indexed(maxIdx: nat, slots: seq<Option<Value>>, m: map<LuaKey, Value>) {
    && |slots| < TWO_63 && maxIdx == |slots|
    && (forall i :: 0 <= i < |slots| ==> slots[i] == if KeyInt(i + 1) in m then Some(m[KeyInt(i + 1)]) else None)
    && (forall k :: k in m && k.KeyInt? && k.index >= 1 ==> k.index <= |slots|)
    && (slots != [] ==> KeyInt(|slots|) in m)
  }

  lemma KindsGrow(keys: set<LuaKey>, k: LuaKey)
    ensures HasPositive(keys + {k}) <==> HasPositive(keys) || (k.KeyInt? && k.index >= 1)
    ensures HasBelowOne(keys + {k}) <==> HasBelowOne(keys) || (k.KeyInt? && k.index < 1)
    ensures HasText(keys + {k}) <==> HasText(keys) || k.KeyText?
    ensures HasFlag(keys + {k}) <==> HasFlag(keys) || k.KeyFlag?
    ensures HasOther(keys + {k}) <==> HasOther(keys) || k.KeyOther?
  {
    assert forall x :: x in keys ==> x in keys + {k};
    assert k in keys + {k};
  }

  lemma StoredGrows(m: map<LuaKey, Value>, k: LuaKey, v: Value)
    requires k !in m
    ensures Stored(m[k := v]) == if Storable(k) then Stored(m)[MapKeyOf(k) := v] else Stored(m)
  {
    var bigger := m[k := v];
    forall a | a in m && Storable(a) && Storable(k)
      ensures MapKeyOf(a) != MapKeyOf(k)
    {
      if MapKeyOf(a) == MapKeyOf(k) {
        MapKeyInjective(a, k);
      }
    }
    var left, right := Stored(bigger), if Storable(k) then Stored(m)[MapKeyOf(k) := v] else Stored(m);
    forall mk | mk in left
      ensures mk in right && left[mk] == right[mk]
    {
      var a :| a in bigger && Storable(a) && MapKeyOf(a) == mk;
    }
    forall mk | mk in right
      ensures mk in left
    {
      if mk in Stored(m) {
        var a :| a in m && Storable(a) && MapKeyOf(a) == mk;
        assert a in bigger;
      }
    }
  }

  lemma TextsGrow(m: map<LuaKey, Value>, k: LuaKey, v: Value)
    requires k !in m
    ensures Texts(m[k := v]) == if k.KeyText? then Texts(m)[k.text := v] else Texts(m)
  {
  }

  /** Until there is a map, what the map would be made of is exactly what is stored so far. */
  lemma MovedIsStored(p: Pass, m: map<LuaKey, Value>)
    requires Collected(p, m)
    ensures EnsureMap(p).entries.value == Stored(m)
  {
    hide TextEntries, IndexEntries, Stored, MustMap, OnlyPositive, Ambiguous;
    if p.entries.None? {
      forall mk | mk in EnsureMap(p).entries.value
        ensures mk in Stored(m) && EnsureMap(p).entries.value[mk] == Stored(m)[mk]
      {
        if mk in IndexEntries(p.slots) {
          assert MapKeyOf(KeyInt(mk.unsigned)) == mk;
        } else {
          assert MapKeyOf(KeyText(mk.text)) == mk;
        }
      }
      forall mk | mk in Stored(m)
        ensures mk in EnsureMap(p).entries.value
      {
        var k :| k in m && Storable(k) && MapKeyOf(k) == mk;
        StoredIsMoved(p, m, k);
      }
    }
  }

  lemma StoredIsMoved(p: Pass, m: map<LuaKey, Value>, k: LuaKey)
    requires Collected(p, m) && p.entries.None? && k in m && Storable(k)
    ensures MapKeyOf(k) in EnsureMap(p).entries.value
  {
    hide TextEntries, IndexEntries, Stored;
    assert !HasBelowOne(m.Keys) && !HasFlag(m.Keys);
    if k.KeyInt? {
      assert p.slots[k.index - 1].Some?;
    } else {
      assert k.text in p.texts.value;
    }
  }

  lemma StoreCollects(p: Pass, m: map<LuaKey, Value>, k: LuaKey, v: Value)
    requires Collected(p, m) && k !in m && Storable(k)
    ensures Store(p, k, v).entries == Some(Stored(m[k := v]))
  {
    MovedIsStored(p, m);
    StoredGrows(m, k, v);
  }

  lemma SlotFilled(maxIdx: nat, slots: seq<Option<Value>>, m: map<LuaKey, Value>, i: i64, v: Value)
    requires Indexed(maxIdx, slots, m) && KeyInt(i) !in m && i >= 1
    ensures Resized(slots, i)[i - 1] == None
    ensures Indexed(Max(maxIdx, i), Resized(slots, i)[i - 1 := Some(v)], m[KeyInt(i) := v])
  {
  }

  lemma SlotsStay(maxIdx: nat, slots: seq<Option<Value>>, m: map<LuaKey, Value>, k: LuaKey, v: Value)
    requires Indexed(maxIdx, slots, m) && !k.KeyInt?
    ensures Indexed(maxIdx, slots, m[k := v])
  {
  }

  lemma SlotsMeanPositive(maxIdx: nat, slots: seq<Option<Value>>, m: map<LuaKey, Value>)
    requires Indexed(maxIdx, slots, m)
    ensures slots != [] <==> HasPositive(m.Keys)
  {
    if slots != [] {
      assert KeyInt(|slots|) in m.Keys;
    }
  }

  lemma StepCollects(p: Pass, m: map<LuaKey, Value>, k: LuaKey, v: Value)
    requires Collected(p, m) && k !in m
    ensures Step(p, k, v).Some? && Collected(Step(p, k, v).value, m[k := v])
  {
    hide Stored, Texts, TextEntries, IndexEntries, Indexed, HasPositive, HasBelowOne, HasText, HasFlag, HasOther;
    KindsGrow(m.Keys, k);
    assert m[k := v].Keys == m.Keys + {k};
    TextsGrow(m, k, v);
    StoredGrows(m, k, v);
    if Storable(k) {
      StoreCollects(p, m, k, v);
    }
    if p.entries.None? {
      SlotsMeanPositive(p.maxIdx, p.slots, m);
      if k.KeyInt? && k.index >= 1 {
        SlotFilled(p.maxIdx, p.slots, m, k.index, v);
      } else if !k.KeyInt? {
        SlotsStay(p.maxIdx, p.slots, m, k, v);
      }
    }
  }

  /** The pass never fails, and what it has collected is what it has seen. */
  lemma {:induction false} PassCollects(order: seq<LuaKey>, m: map<LuaKey, Value>)
    requires ListsOnce(order, m.Keys)
    ensures Passed(order, m).Some? && Collected(Passed(order, m).value, m)
    decreases |order|
  {
    hide Collected, Step;
    if order == [] {
      FreshCollects(m);
    } else {
      var last := |order| - 1;
      var front, k := order[..last], order[last];
      var before := m - {k};
      ListsRest(order, m.Keys, last);
      assert order[..last] + order[last + 1..] == order[..last];
      PassCollects(front, before);
      PassAgrees(front, before, m);
      StepCollects(Passed(front, before).value, before, k, m[k]);
      assert before[k := m[k]] == m;
    }
  }

  lemma FreshCollects(m: map<LuaKey, Value>)
    requires m.Keys == {}
    ensures Collected(FRESH, m)
  {
    assert m == map[];
    assert Stored(m) == map[] && Texts(m) == map[];
  }

  lemma {:induction false} PassAgrees(order: seq<LuaKey>, m: map<LuaKey, Value>, n: map<LuaKey, Value>)
    requires Covers(order, m) && Covers(order, n) && forall k :: k in order ==> m[k] == n[k]
    ensures Passed(order, m) == Passed(order, n)
    decreases |order|
  {
    if order != [] {
      PassAgrees(order[..|order| - 1], m, n);
    }
  }

  // ------------------------------------------------------------ what the pass ends with

  lemma {:induction false} IndexKeys(n: nat)
    requires n < TWO_63
    ensures |(set i: int | 1 <= i <= n :: KeyInt(i))| == n
  {
    var keys := set i: int | 1 <= i <= n :: KeyInt(i);
    if n == 0 {
      assert keys == {};
    } else {
      IndexKeys(n - 1);
      assert keys == (set i: int | 1 <= i <= n - 1 :: KeyInt(i)) + {KeyInt(n)};
    }
  }

  /** An array without gaps, and only that, comes from the keys 1 up to their number. */
  lemma FullMeansContiguous(maxIdx: nat, slots: seq<Option<Value>>, m: map<LuaKey, Value>)
    requires Indexed(maxIdx, slots, m) && OnlyPositive(m.Keys)
    ensures (forall i :: 0 <= i < |slots| ==> slots[i].Some?) <==> Contiguous(m.Keys)
    ensures Contiguous(m.Keys) ==> |slots| == |m.Keys|
  {
    var all := set i: int | 1 <= i <= |slots| :: KeyInt(i);
    IndexKeys(|slots|);
    assert m.Keys <= all;
    SubsetSize(m.Keys, all);
    if forall i :: 0 <= i < |slots| ==> slots[i].Some? {
      forall k | k in all
        ensures k in m
      {
        assert slots[k.index - 1].Some?;
      }
    }
    if Contiguous(m.Keys) {
      var few := set i: int | 1 <= i <= |m.Keys| :: KeyInt(i);
      IndexKeys(|m.Keys|);
      assert few <= m.Keys;
      SubsetSize(few, m.Keys);
      assert few == m.Keys;
      if slots != [] {
        assert KeyInt(|slots|) in few;
      }
    }
  }

  /** What a pass returns depends on its order only through whether it made a map. */
  lemma FoldedIsLevel(order: seq<LuaKey>, m: map<LuaKey, Value>)
    requires ListsOnce(order, m.Keys)
    ensures Passed(order, m).Some?
    ensures Folded(order, m) == Level(m, Passed(order, m).value.entries.Some?)
    ensures var mapped := Passed(order, m).value.entries.Some?;
            (MustMap(m.Keys) ==> mapped) && (mapped ==> MustMap(m.Keys) || Ambiguous(m.Keys))
  {
    PassCollects(order, m);
    FinishIsLevel(Passed(order, m).value, m);
  }

  lemma FinishIsLevel(p: Pass, m: map<LuaKey, Value>)
    requires Collected(p, m)
    ensures Finish(p) == Level(m, p.entries.Some?)
  {
    hide Stored, Texts, HasPositive, HasBelowOne, HasText, HasFlag, HasOther, Contiguous;
    if p.entries.None? && p.onlyPosInt {
      FullMeansContiguous(p.maxIdx, p.slots, m);
      if Contiguous(m.Keys) {
        assert Finish(p).Some? && Finish(p).value.items == Items(m);
      }
    }
  }

  /** Every order, once the keys leave no choice. */
  lemma OrderDoesNotMatter(first: seq<LuaKey>, second: seq<LuaKey>, m: map<LuaKey, Value>)
    requires ListsOnce(first, m.Keys) && ListsOnce(second, m.Keys) && !Ambiguous(m.Keys)
    ensures Folded(first, m) == Folded(second, m) == Level(m, MustMap(m.Keys))
  {
    FoldedIsLevel(first, m);
    FoldedIsLevel(second, m);
  }

  // ---------------------------------------------------- the tables whose order matters

  lemma {:induction false} OthersMakeNoMap(a: seq<LuaKey>, b: seq<LuaKey>, m: map<LuaKey, Value>)
    requires Covers(a + b, m) && Covers(a, m) && forall k :: k in b ==> k.KeyOther?
    requires Passed(a, m).Some? && Passed(a + b, m).Some?
    ensures Passed(a + b, m).value.entries == Passed(a, m).value.entries
    decreases |b|
  {
    hide EnsureMap, Store;
    if b == [] {
      assert a + b == a;
    } else {
      var last := |b| - 1;
      assert (a + b)[..|a + b| - 1] == a + b[..last];
      assert b[last] in b;
      OthersMakeNoMap(a, b[..last], m);
    }
  }

  /** With ambiguous keys one order yields an empty map and another a map with every entry. */
  lemma AmbiguousOrders(m: map<LuaKey, Value>) returns (lossy: seq<LuaKey>, full: seq<LuaKey>)
    requires Ambiguous(m.Keys)
    ensures ListsOnce(lossy, m.Keys) && ListsOnce(full, m.Keys)
    ensures Folded(lossy, m) == Some(Map(map[])) && Folded(full, m) == Some(Map(Stored(m)))
    ensures Stored(m) != map[]
  {
    lossy := LossyOrder(m);
    full := FullOrder(m);
    FoldedIsLevel(lossy, m);
    FoldedIsLevel(full, m);
    var k :| k in m.Keys && k.KeyInt? && k.index >= 1;
    assert MapKeyOf(k) in Stored(m);
  }

  lemma LossyOrder(m: map<LuaKey, Value>) returns (order: seq<LuaKey>)
    requires Ambiguous(m.Keys)
    ensures ListsOnce(order, m.Keys) && Passed(order, m).Some? && Passed(order, m).value.entries.None?
  {
    var ints, others := set k | k in m && k.KeyInt?, set k | k in m && k.KeyOther?;
    var a := SomeList(ints);
    var b := SomeList(others);
    ListsAppend(a, ints, b, others);
    assert ints + others == m.Keys;
    order := a + b;
    PassCollects(order, m);
    var part := m - others;
    assert part.Keys == ints;
    PassCollects(a, part);
    PassAgrees(a, part, m);
    assert !MustMap(ints) && !Ambiguous(ints);
    OthersMakeNoMap(a, b, m);
  }

  lemma FullOrder(m: map<LuaKey, Value>) returns (order: seq<LuaKey>)
    requires Ambiguous(m.Keys)
    ensures ListsOnce(order, m.Keys) && Passed(order, m).Some? && Passed(order, m).value.entries.Some?
  {
    hide EnsureMap, Stored, Texts, Indexed, ListsOnce;
    var k :| k in m.Keys && k.KeyInt? && k.index >= 1;
    var u :| u in m.Keys && u.KeyOther?;
    var front := SomeList(m.Keys - {k});
    ListsAppend(front, m.Keys - {k}, [k], {k});
    assert m.Keys - {k} + {k} == m.Keys;
    order := front + [k];
    assert order[..|order| - 1] == front;
    PassCollects(order, m);
    PassCollects(front, m - {k});
    PassAgrees(front, m - {k}, m);
    assert u in (m - {k}).Keys;
  }

  /** One more pair continues a pass; it never fails there. */
  lemma PassOneMore(order: seq<LuaKey>, m: map<LuaKey, Value>, k: LuaKey, v: Value)
    requires ListsOnce(order, m.Keys) && k !in m && Passed(order, m).Some?
    ensures ListsOnce(order + [k], m[k := v].Keys)
    ensures Step(Passed(order, m).value, k, v).Some?
    ensures Passed(order + [k], m[k := v]) == Step(Passed(order, m).value, k, v)
  {
    hide Step, Collected;
    var more := m[k := v];
    assert more.Keys == m.Keys + {k};
    ListsAppend(order, m.Keys, [k], {k});
    PassAgrees(order, m, more);
    assert (order + [k])[..|order + [k]| - 1] == order;
    PassCollects(order + [k], more);
  }

  // ------------------------------------------------------------------- levels compared

  /** Whether the values at a table's storable keys reach the result. */
  ghost predicate Kept(keys: set<LuaKey>) {
    MustMap(keys) || !HasOther(keys)
  }

  /** Contiguous positive keys are exactly 1 up to their number. */
  lemma ContiguousKeys(keys: set<LuaKey>, k: LuaKey)
    requires OnlyPositive(keys) && Contiguous(keys) && k in keys
    ensures k.KeyInt? && 1 <= k.index <= |keys|
  {
    var few := set i: int | 1 <= i <= |keys| :: KeyInt(i);
    IndexKeys(|keys|);
    assert few <= keys;
    SubsetSize(few, keys);
    assert k in few;
  }

  lemma LevelsAgree(m: map<LuaKey, Value>, n: map<LuaKey, Value>)
    requires m.Keys == n.Keys
    requires Kept(m.Keys) ==> forall k :: k in m && Storable(k) ==> m[k] == n[k]
    ensures Level(m, MustMap(m.Keys)) == Level(n, MustMap(n.Keys))
  {
    if Kept(m.Keys) {
      if HasOther(m.Keys) {
        StoredAgree(m, n);
      } else {
        assert m == n;
      }
    }
  }

  lemma StoredAgree(m: map<LuaKey, Value>, n: map<LuaKey, Value>)
    requires m.Keys == n.Keys && forall k :: k in m && Storable(k) ==> m[k] == n[k]
    ensures Stored(m) == Stored(n)
  {
    forall mk | mk in Stored(m)
      ensures mk in Stored(n) && Stored(m)[mk] == Stored(n)[mk]
    {
      var k :| k in m && Storable(k) && MapKeyOf(k) == mk;
    }
    forall mk | mk in Stored(n)
      ensures mk in Stored(m)
    {
      var k :| k in n && Storable(k) && MapKeyOf(k) == mk;
    }
  }

  /** Two different values at a kept key make two different results. */
  lemma LevelsDiffer(m: map<LuaKey, Value>, k: LuaKey, x: Value, y: Value)
    requires k in m && Storable(k) && x != y && Kept(m.Keys) && !Ambiguous(m.Keys)
    requires Level(m, MustMap(m.Keys)).Some?
    ensures Level(m[k := x], MustMap(m.Keys)) != Level(m[k := y], MustMap(m.Keys))
  {
    var a, b := m[k := x], m[k := y];
    assert a.Keys == m.Keys && b.Keys == m.Keys;
    if MustMap(m.Keys) {
      assert Stored(a)[MapKeyOf(k)] == x && Stored(b)[MapKeyOf(k)] == y;
    } else if OnlyPositive(m.Keys) {
      ContiguousKeys(m.Keys, k);
      assert Items(a)[k.index - 1] == x && Items(b)[k.index - 1] == y;
    } else {
      assert k.KeyText?;
      assert Texts(a)[k.text] == x && Texts(b)[k.text] == y;
    }
  }
}
