/** `value_to_lua`, and what a Lua value becomes when it goes to the host and comes back. */
module LuaRoundTrip {
  import opened Wrappers
  import opened Words
  import opened Values
  import opened Coercion
  import opened Sets
  import opened LuaTables
  import opened LuaBridge

  datatype Int64Repr = AsInteger | AsString

  /** A number as the host reads it out of a Lua state. */
  datatype Held = HeldInteger(signed: i64) | HeldNumber(bits: u64)

  /**
  How a Lua state holds numbers: what a table gives back for an integer and for a double put into it. A state
  that has only doubles rounds wide integers, and the host reads a double that is an integer as an integer.
  */
  datatype Numbers = Numbers(ofInteger: i64 -> Held, ofDouble: u64 -> Held)

  datatype Bridge = Bridge(repr: Int64Repr, numbers: Numbers)

  function Again(n: Numbers, h: Held): Held {
    match h case HeldInteger(i) => n.ofInteger(i) case HeldNumber(f) => n.ofDouble(f)
  }

  /** Putting back what was read changes nothing. */
  ghost predicate Settles(n: Numbers) {
    && (forall i {:trigger n.ofInteger(i)} :: Again(n, n.ofInteger(i)) == n.ofInteger(i))
    && (forall f {:trigger n.ofDouble(f)} :: Again(n, n.ofDouble(f)) == n.ofDouble(f))
  }

  function Read(h: Held): Lua {
    match h case HeldInteger(i) => Integer(i) case HeldNumber(f) => Lua.Number(f)
  }

  /** A value as a table holds it. */
  function ValueHeld(n: Numbers, l: Lua): Lua {
    match l
    case Integer(i) => Read(n.ofInteger(i))
    case Number(f) => Read(n.ofDouble(f))
    case _ => l
  }

  /** A key as a table holds it; a number that is not read as an integer is a key of an unsupported type. */
  function KeyHeld(n: Numbers, k: LuaKey): LuaKey {
    if k.KeyInt? then
      match n.ofInteger(k.index)
      case HeldInteger(i) => KeyInt(i)
      case HeldNumber(f) => KeyOther(f)
    else k
  }

  function SignedOut(br: Bridge, i: i64): Lua {
    if br.repr == AsInteger then Integer(i) else Text(ShowInt(i))
  }

  /** An unsigned number the host's Lua integers cannot express becomes text. */
  function UnsignedOut(br: Bridge, u: u64): Lua {
    if br.repr == AsInteger && u < TWO_63 then Integer(u) else Text(ShowNat(u))
  }

  /** The key of an entry, as the table holds it. */
  function KeyOut(br: Bridge, k: MapKey): LuaKey {
    match k
    case KeyBool(b) => KeyFlag(b)
    case KeyI64(i) => if br.repr == AsInteger then KeyHeld(br.numbers, KeyInt(i)) else KeyText(ShowInt(i))
    case KeyU64(u) => if br.repr == AsInteger && u < TWO_63 then KeyHeld(br.numbers, KeyInt(u)) else KeyText(ShowNat(u))
    case KeyString(s) => KeyText(s)
  }

  // --------------------------------------------------------------------- meaning

  datatype Slot = Slot(key: LuaKey, value: Value)

  /** Assigning nil removes the key. */
  function Assign(br: Bridge, t: map<LuaKey, Lua>, k: LuaKey, l: Lua): map<LuaKey, Lua> {
    if l.Nil? then t - {k} else t[k := ValueHeld(br.numbers, l)]
  }

  /** The table after one assignment for each slot, in order. */
  function Filled(br: Bridge, slots: seq<Slot>, ls: seq<Lua>): map<LuaKey, Lua>
    requires |slots| == |ls|
  {
    if slots == [] then map[]
    else
      var last := |slots| - 1;
      Assign(br, Filled(br, slots[..last], ls[..last]), slots[last].key, ls[last])
  }

  /** The slots of a container, in an order it may be visited in; no Rust vector is 2^63 long. */
  ghost predicate Lists(br: Bridge, v: Value, slots: seq<Slot>) {
    match v
    case Array(items) =>
      && |slots| == |items|
      && forall i :: 0 <= i < |items| ==> slots[i] == Slot(IndexKey(br, i), items[i])
    case Object(fields) =>
      exists order: seq<Str> :: ListsOnce(order, fields.Keys) && |slots| == |order|
        && forall i :: 0 <= i < |order| ==> slots[i] == Slot(KeyText(order[i]), fields[order[i]])
    case Map(entries) =>
      exists order: seq<MapKey> :: ListsOnce(order, entries.Keys) && |slots| == |order|
        && forall i :: 0 <= i < |order| ==> slots[i] == Slot(KeyOut(br, order[i]), entries[order[i]])
    case _ => false
  }

  function IndexKey(br: Bridge, i: nat): LuaKey {
    KeyHeld(br.numbers, KeyInt(if i + 1 < TWO_63 then i + 1 else TWO_63 - 1))
  }

  predicate Container(v: Value) {
    v.Array? || v.Object? || v.Map?
  }

  /** What a value that is not a container becomes. */
  function ScalarOut(br: Bridge, v: Value): Lua
    requires !Container(v)
  {
    match v
    case Null => Nil
    case Bool(b) => Boolean(b)
    case I64(i) => SignedOut(br, i)
    case U64(u) => UnsignedOut(br, u)
    case F64(f) => Lua.Number(f)
    case String(s) => Text(s)
    case Bytes(b) => Text(b)
  }

  /** `build` may return `out` (nothing being an error) within `depth`. */
  ghost predicate Builds(br: Bridge, v: Value, depth: nat, out: Option<Lua>)
    decreases v, 2
  {
    if depth == 0 then out == None
    else if !Container(v) then out == Some(ScalarOut(br, v))
    else BuildsTable(br, v, depth - 1, out)
  }

  ghost predicate BuildsTable(br: Bridge, v: Value, depth: nat, out: Option<Lua>)
    decreases v, 1
  {
    || (out == None && exists slots: seq<Slot>, i: nat :: i < |slots| && Lists(br, v, slots) && SlotFails(br, v, depth, slots[i]))
    || exists slots: seq<Slot>, ls: seq<Lua> ::
         |slots| == |ls| && Lists(br, v, slots) && Built(br, v, depth, slots, ls) && out == Some(Table(Filled(br, slots, ls)))
  }

  ghost predicate SlotFails(br: Bridge, v: Value, depth: nat, slot: Slot)
    decreases v, 0
  {
    slot.value < v && Builds(br, slot.value, depth, None)
  }

  /** `ls` are what the slots' values may become. */
  ghost predicate Built(br: Bridge, v: Value, depth: nat, slots: seq<Slot>, ls: seq<Lua>)
    requires |slots| == |ls|
    decreases v, 0
  {
    forall i :: 0 <= i < |slots| ==> slots[i].value < v && Builds(br, slots[i].value, depth, Some(ls[i]))
  }

  // ------------------------------------------------------------------------ loops

  method ValueToLua(v: Value, br: Bridge) returns (out: Option<Lua>)
    ensures Builds(br, v, 64, out)
  {
    out := Build(v, DEPTH, br);
  }

  method Build(v: Value, depth: nat, br: Bridge) returns (out: Option<Lua>)
    ensures Builds(br, v, depth, out)
    decreases v, 1
  {
    hide BuildsTable;
    if depth == 0 {
      return None;
    }
    match v {
      case Array(items) => out := BuildArray(v, items, depth - 1, br);
      case Object(fields) => out := BuildObject(v, fields, depth - 1, br);
      case Map(entries) => out := BuildMap(v, entries, depth - 1, br);
      case _ => return Some(ScalarOut(br, v));
    }
  }

  method BuildArray(v: Value, items: seq<Value>, depth: nat, br: Bridge) returns (out: Option<Lua>)
    requires v == Array(items)
    ensures BuildsTable(br, v, depth, out)
    decreases v, 0
  {
    hide Builds, Filled, Built, BuildsTable;
    var t: map<LuaKey, Lua> := map[];
    ghost var slots := seq(|items|, i requires 0 <= i < |items| => Slot(IndexKey(br, i), items[i]));
    ghost var ls: seq<Lua> := [];
    FilledNone(br, v, depth);
    for i := 0 to |items|
      invariant |ls| == i && Built(br, v, depth, slots[..i], ls) && t == Filled(br, slots[..i], ls)
    {
      var l := Build(items[i], depth, br);
      if l.None? {
        OneSlotFails(br, v, depth, slots, i);
        return None;
      }
      BuiltOneMore(br, v, depth, slots[..i], ls, slots[i], l.value);
      assert slots[..i + 1] == slots[..i] + [slots[i]];
      t := Assign(br, t, IndexKey(br, i), l.value);
      ls := ls + [l.value];
    }
    assert slots[..|items|] == slots;
    AllSlotsBuilt(br, v, depth, slots, ls);
    out := Some(Table(t));
  }

  method BuildObject(v: Value, fields: map<Str, Value>, depth: nat, br: Bridge) returns (out: Option<Lua>)
    requires v == Object(fields)
    ensures BuildsTable(br, v, depth, out)
    decreases v, 0
  {
    hide Builds, Filled, Built, BuildsTable, Lists, Assign;
    var t: map<LuaKey, Lua> := map[];
    var todo := fields.Keys;
    ghost var order: seq<Str> := [];
    ghost var ls: seq<Lua> := [];
    FilledNone(br, v, depth);
    assert FieldSlots(fields, order) == [];
    while todo != {}
      invariant todo <= fields.Keys && ListsOnce(order, fields.Keys - todo) && |ls| == |order|
      invariant Built(br, v, depth, FieldSlots(fields, order), ls) && t == Filled(br, FieldSlots(fields, order), ls)
      decreases |todo|
    {
      var s :| s in todo;
      ListOneMore(order, fields.Keys, todo, s);
      todo := todo - {s};
      var l := Build(fields[s], depth, br);
      if l.None? {
        FieldFails(br, v, fields, depth, s);
        return None;
      }
      BuiltOneMore(br, v, depth, FieldSlots(fields, order), ls, Slot(KeyText(s), fields[s]), l.value);
      assert FieldSlots(fields, order + [s]) == FieldSlots(fields, order) + [Slot(KeyText(s), fields[s])];
      t := Assign(br, t, KeyText(s), l.value);
      order, ls := order + [s], ls + [l.value];
    }
    assert fields.Keys - todo == fields.Keys;
    FieldsListed(br, fields, order);
    AllSlotsBuilt(br, v, depth, FieldSlots(fields, order), ls);
    out := Some(Table(t));
  }

  method BuildMap(v: Value, entries: map<MapKey, Value>, depth: nat, br: Bridge) returns (out: Option<Lua>)
    requires v == Map(entries)
    ensures BuildsTable(br, v, depth, out)
    decreases v, 0
  {
    hide Builds, Filled, Built, BuildsTable, Lists, KeyOut, Assign;
    var t: map<LuaKey, Lua> := map[];
    var todo := entries.Keys;
    ghost var order: seq<MapKey> := [];
    ghost var ls: seq<Lua> := [];
    FilledNone(br, v, depth);
    assert EntrySlots(br, entries, order) == [];
    while todo != {}
      invariant todo <= entries.Keys && ListsOnce(order, entries.Keys - todo) && |ls| == |order|
      invariant Built(br, v, depth, EntrySlots(br, entries, order), ls) && t == Filled(br, EntrySlots(br, entries, order), ls)
      decreases |todo|
    {
      var k :| k in todo;
      ListOneMore(order, entries.Keys, todo, k);
      todo := todo - {k};
      var l := Build(entries[k], depth, br);
      if l.None? {
        EntryFails(br, v, entries, depth, k);
        return None;
      }
      BuiltOneMore(br, v, depth, EntrySlots(br, entries, order), ls, Slot(KeyOut(br, k), entries[k]), l.value);
      assert EntrySlots(br, entries, order + [k]) == EntrySlots(br, entries, order) + [Slot(KeyOut(br, k), entries[k])];
      t := Assign(br, t, KeyOut(br, k), l.value);
      order, ls := order + [k], ls + [l.value];
    }
    assert entries.Keys - todo == entries.Keys;
    EntriesListed(br, entries, order);
    AllSlotsBuilt(br, v, depth, EntrySlots(br, entries, order), ls);
    out := Some(Table(t));
  }

  ghost function FieldSlots(fields: map<Str, Value>, order: seq<Str>): seq<Slot>
    requires forall s :: s in order ==> s in fields
  {
    seq(|order|, i requires 0 <= i < |order| => Slot(KeyText(order[i]), fields[order[i]]))
  }

  ghost function EntrySlots(br: Bridge, entries: map<MapKey, Value>, order: seq<MapKey>): seq<Slot>
    requires forall k :: k in order ==> k in entries
  {
    seq(|order|, i requires 0 <= i < |order| => Slot(KeyOut(br, order[i]), entries[order[i]]))
  }

  lemma FilledNone(br: Bridge, v: Value, depth: nat)
    ensures Filled(br, [], []) == map[] && Built(br, v, depth, [], [])
  {
  }

  lemma BuiltOneMore(br: Bridge, v: Value, depth: nat, slots: seq<Slot>, ls: seq<Lua>, slot: Slot, l: Lua)
    requires |slots| == |ls| && Built(br, v, depth, slots, ls)
    requires slot.value < v && Builds(br, slot.value, depth, Some(l))
    ensures Filled(br, slots + [slot], ls + [l]) == Assign(br, Filled(br, slots, ls), slot.key, l)
    ensures Built(br, v, depth, slots + [slot], ls + [l])
  {
    hide Builds;
    assert (slots + [slot])[..|slots|] == slots && (ls + [l])[..|ls|] == ls;
  }

  lemma FieldsListed(br: Bridge, fields: map<Str, Value>, order: seq<Str>)
    requires ListsOnce(order, fields.Keys)
    ensures Lists(br, Object(fields), FieldSlots(fields, order))
  {
  }

  lemma EntriesListed(br: Bridge, entries: map<MapKey, Value>, order: seq<MapKey>)
    requires ListsOnce(order, entries.Keys)
    ensures Lists(br, Map(entries), EntrySlots(br, entries, order))
  {
  }

  lemma OneSlotFails(br: Bridge, v: Value, depth: nat, slots: seq<Slot>, i: nat)
    requires i < |slots| && Lists(br, v, slots) && slots[i].value < v && Builds(br, slots[i].value, depth, None)
    ensures BuildsTable(br, v, depth, None)
  {
    hide Builds, Lists;
    assert SlotFails(br, v, depth, slots[i]);
  }

  lemma FieldFails(br: Bridge, v: Value, fields: map<Str, Value>, depth: nat, s: Str)
    requires v == Object(fields) && s in fields && fields[s] < v && Builds(br, fields[s], depth, None)
    ensures BuildsTable(br, v, depth, None)
  {
    hide Builds;
    var order := SomeList(fields.Keys);
    var i :| 0 <= i < |order| && order[i] == s;
    FieldsListed(br, fields, order);
    OneSlotFails(br, v, depth, FieldSlots(fields, order), i);
  }

  lemma EntryFails(br: Bridge, v: Value, entries: map<MapKey, Value>, depth: nat, k: MapKey)
    requires v == Map(entries) && k in entries && entries[k] < v && Builds(br, entries[k], depth, None)
    ensures BuildsTable(br, v, depth, None)
  {
    hide Builds;
    var order := SomeList(entries.Keys);
    var i :| 0 <= i < |order| && order[i] == k;
    EntriesListed(br, entries, order);
    OneSlotFails(br, v, depth, EntrySlots(br, entries, order), i);
  }

  lemma AllSlotsBuilt(br: Bridge, v: Value, depth: nat, slots: seq<Slot>, ls: seq<Lua>)
    requires |slots| == |ls| && Lists(br, v, slots) && Built(br, v, depth, slots, ls)
    ensures BuildsTable(br, v, depth, Some(Table(Filled(br, slots, ls))))
  {
  }

  // ------------------------------------------------------------------- round trip

  ghost predicate HasSlot(slots: seq<Slot>, k: LuaKey) {
    exists i :: 0 <= i < |slots| && slots[i].key == k
  }

  /** What one assignment leaves under its key. */
  ghost predicate HoldsSlot(br: Bridge, t: map<LuaKey, Lua>, slot: Slot, l: Lua) {
    if l.Nil? then slot.key !in t else slot.key in t && t[slot.key] == ValueHeld(br.numbers, l)
  }

  /** With different keys a table holds what was assigned, nil excepted, and nothing else. */
  lemma {:induction false} FilledHolds(br: Bridge, slots: seq<Slot>, ls: seq<Lua>)
    requires |slots| == |ls|
    requires forall i, j :: 0 <= i < j < |slots| ==> slots[i].key != slots[j].key
    ensures forall i :: 0 <= i < |slots| ==> HoldsSlot(br, Filled(br, slots, ls), slots[i], ls[i])
    ensures forall k :: k in Filled(br, slots, ls) ==> HasSlot(slots, k)
    decreases |slots|
  {
    hide ValueHeld, HasSlot;
    FilledFromSlots(br, slots, ls);
    if slots != [] {
      var last := |slots| - 1;
      var front, some := slots[..last], ls[..last];
      FilledHolds(br, front, some);
      NoSlotYet(br, front, some, slots[last].key);
      forall i | 0 <= i < last
        ensures HoldsSlot(br, Filled(br, slots, ls), slots[i], ls[i])
      {
        assert HoldsSlot(br, Filled(br, front, some), front[i], some[i]);
      }
    }
  }

  lemma NoSlotYet(br: Bridge, slots: seq<Slot>, ls: seq<Lua>, k: LuaKey)
    requires |slots| == |ls| && forall i :: 0 <= i < |slots| ==> slots[i].key != k
    ensures k !in Filled(br, slots, ls)
  {
    hide Filled;
    FilledFromSlots(br, slots, ls);
  }

  lemma {:induction false} FilledFromSlots(br: Bridge, slots: seq<Slot>, ls: seq<Lua>)
    requires |slots| == |ls|
    ensures forall k :: k in Filled(br, slots, ls) ==> HasSlot(slots, k)
    decreases |slots|
  {
    if slots != [] {
      var last := |slots| - 1;
      FilledFromSlots(br, slots[..last], ls[..last]);
      forall k | k in Filled(br, slots, ls)
        ensures HasSlot(slots, k)
      {
        if k != slots[last].key {
          var front := slots[..last];
          assert HasSlot(front, k);
          var i :| 0 <= i < |front| && front[i].key == k;
          assert slots[i].key == k;
        }
      }
    }
  }

  lemma KeyComesBack(br: Bridge, k: LuaKey)
    requires br.repr == AsInteger && Storable(k) && KeyHeld(br.numbers, k) == k
    ensures KeyOut(br, MapKeyOf(k)) == k
  {
  }

  /** The slots of a converted table are pairs of that table, each once. */
  ghost predicate SlotsFrom(vals: map<LuaKey, Value>, slots: seq<Slot>) {
    && (forall i :: 0 <= i < |slots| ==>
          slots[i].key in vals && Storable(slots[i].key) && slots[i].value == vals[slots[i].key])
    && (forall i, j :: 0 <= i < j < |slots| ==> slots[i].key != slots[j].key)
  }

  /** Keys of a table read out of a state. */
  ghost predicate KeysHeld(br: Bridge, keys: set<LuaKey>) {
    forall k :: k in keys ==> KeyHeld(br.numbers, k) == k
  }

  lemma SlotsAreVals(br: Bridge, vals: map<LuaKey, Value>, mapped: bool, slots: seq<Slot>)
    requires br.repr == AsInteger && KeysHeld(br, vals.Keys)
    requires Level(vals, mapped).Some? && Lists(br, Level(vals, mapped).value, slots)
    ensures SlotsFrom(vals, slots)
    ensures !HasOther(vals.Keys) && (MustMap(vals.Keys) ==> mapped) ==> forall k :: k in vals ==> HasSlot(slots, k)
  {
    hide Lists, SlotsFrom, HasSlot, Stored, Contiguous, KeysHeld;
    if Level(vals, mapped).value.Map? {
      MapSlotsAreVals(br, vals, Level(vals, mapped).value.entries, slots);
    } else if Level(vals, mapped).value.Array? {
      ArraySlotsAreVals(br, vals, slots);
    } else {
      ObjectSlotsAreVals(br, vals, slots);
    }
  }

  lemma StoredComesBack(br: Bridge, vals: map<LuaKey, Value>, mk: MapKey)
    requires br.repr == AsInteger && KeysHeld(br, vals.Keys) && mk in Stored(vals)
    ensures var k := KeyOut(br, mk);
            k in vals && Storable(k) && MapKeyOf(k) == mk && vals[k] == Stored(vals)[mk]
  {
    var k :| k in vals && Storable(k) && MapKeyOf(k) == mk;
    KeyComesBack(br, k);
  }

  lemma MapSlotsAreVals(br: Bridge, vals: map<LuaKey, Value>, entries: map<MapKey, Value>, slots: seq<Slot>)
    requires br.repr == AsInteger && KeysHeld(br, vals.Keys)
    requires entries == Stored(vals) || entries == map[]
    requires Lists(br, Map(entries), slots)
    ensures SlotsFrom(vals, slots)
    ensures entries == Stored(vals) ==> forall k :: k in vals && Storable(k) ==> HasSlot(slots, k)
  {
    hide Stored, KeyOut, MapKeyOf, KeyHeld;
    var order: seq<MapKey> :| ListsOnce(order, entries.Keys) && |slots| == |order|
      && forall i :: 0 <= i < |order| ==> slots[i] == Slot(KeyOut(br, order[i]), entries[order[i]]);
    forall i | 0 <= i < |slots|
      ensures slots[i].key in vals && Storable(slots[i].key) && slots[i].value == vals[slots[i].key]
      ensures MapKeyOf(slots[i].key) == order[i]
    {
      assert order[i] in entries;
      StoredComesBack(br, vals, order[i]);
    }
    if entries == Stored(vals) {
      forall k | k in vals && Storable(k)
        ensures HasSlot(slots, k)
      {
        KeyComesBack(br, k);
        assert MapKeyOf(k) in order;
        var i :| 0 <= i < |order| && order[i] == MapKeyOf(k);
        assert slots[i].key == k;
      }
    }
  }

  lemma ItemsCount(br: Bridge, vals: map<LuaKey, Value>, slots: seq<Slot>)
    requires Contiguous(vals.Keys) && Lists(br, Array(Items(vals)), slots)
    ensures |slots| == |vals.Keys| < TWO_63
  {
  }

  lemma ItemIsPair(br: Bridge, vals: map<LuaKey, Value>, slots: seq<Slot>, i: nat)
    requires KeysHeld(br, vals.Keys) && Contiguous(vals.Keys) && Lists(br, Array(Items(vals)), slots) && i < |slots|
    ensures i + 1 < TWO_63
    ensures slots[i].key == KeyInt(i + 1) && slots[i].key in vals && slots[i].value == vals[slots[i].key]
  {
    assert KeyInt(i + 1) in vals.Keys;
  }

  lemma ArraySlotsAreVals(br: Bridge, vals: map<LuaKey, Value>, slots: seq<Slot>)
    requires KeysHeld(br, vals.Keys) && OnlyPositive(vals.Keys) && Contiguous(vals.Keys)
    requires Lists(br, Array(Items(vals)), slots)
    ensures SlotsFrom(vals, slots)
    ensures forall k :: k in vals ==> HasSlot(slots, k)
  {
    hide Contiguous, OnlyPositive, Lists, KeysHeld;
    forall i | 0 <= i < |slots|
      ensures i + 1 < TWO_63 && slots[i].key == KeyInt(i + 1) && slots[i].key in vals && slots[i].value == vals[slots[i].key]
    {
      ItemIsPair(br, vals, slots, i);
    }
    assert |slots| == |vals.Keys| by { ItemsCount(br, vals, slots); }
    forall k | k in vals
      ensures HasSlot(slots, k)
    {
      ContiguousKeys(vals.Keys, k);
      assert slots[k.index - 1].key == k;
    }
  }

  lemma ObjectSlotsAreVals(br: Bridge, vals: map<LuaKey, Value>, slots: seq<Slot>)
    requires Lists(br, Object(Texts(vals)), slots)
    ensures SlotsFrom(vals, slots)
    ensures forall k :: k in vals && k.KeyText? ==> HasSlot(slots, k)
  {
    var order: seq<Str> :| ListsOnce(order, Texts(vals).Keys) && |slots| == |order|
      && forall i :: 0 <= i < |order| ==> slots[i] == Slot(KeyText(order[i]), Texts(vals)[order[i]]);
    assert forall i :: 0 <= i < |order| ==> order[i] in Texts(vals).Keys;
    forall k | k in vals && k.KeyText?
      ensures HasSlot(slots, k)
    {
      assert k.text in order;
      var i :| 0 <= i < |order| && order[i] == k.text;
      assert slots[i].key == k;
    }
  }

  /** What comes back as it was: well-formed text, and tables whose keys the bridge stores. */
  ghost predicate Faithful(v: Lua)
    decreases v
  {
    match v
    case Text(s) => ValidUtf8(s)
    case Table(pairs) => forall k :: k in pairs ==> Storable(k) && Faithful(pairs[k])
    case _ => true
  }

  /** What a state can hand over: its tables hold no nil, and keys and numbers as tables give them back. */
  ghost predicate FromState(n: Numbers, v: Lua)
    decreases v
  {
    v.Table? ==> forall k :: k in v.pairs ==>
      !v.pairs[k].Nil? && KeyHeld(n, k) == k && ValueHeld(n, v.pairs[k]) == v.pairs[k] && FromState(n, v.pairs[k])
  }

  lemma OnlyNilBecomesNull(repair: Repair, v: Lua, depth: nat, x: Value)
    requires Converts(repair, v, depth, Some(x))
    ensures x.Null? <==> v.Nil?
  {
    if v.Table? {
      var order: seq<LuaKey>, vals: map<LuaKey, Value> :|
        Gathered(repair, v, v.pairs, depth - 2, order, vals) && Some(x) == Folded(order, vals);
    }
  }

  /** `out` is a success, not nil, and the original exactly when the original is faithful. */
  ghost predicate ComesBack(v: Lua, out: Option<Lua>) {
    out.Some? && !out.value.Nil? && (out.value == v <==> Faithful(v))
  }

  lemma NilStaysOut(br: Bridge, repair: Repair, v: Lua, depth: nat, x: Value, back: nat, out: Option<Lua>)
    requires !v.Nil? && Converts(repair, v, depth, Some(x)) && Builds(br, x, back, out)
    ensures out.Some? ==> !out.value.Nil?
  {
    hide BuildsTable, Converts;
    OnlyNilBecomesNull(repair, v, depth, x);
    if Container(x) && out.Some? {
      TablesAreTables(br, x, back - 1, out.value);
    }
  }

  lemma TablesAreContainers(repair: Repair, v: Lua, pairs: map<LuaKey, Lua>, depth: nat, x: Value)
    requires forall k :: k in pairs ==> pairs[k] < v
    requires ConvertsTable(repair, v, pairs, depth, Some(x))
    ensures Container(x)
  {
    hide Converts, Level;
    var order: seq<LuaKey>, vals: map<LuaKey, Value> :|
      Gathered(repair, v, pairs, depth, order, vals) && Some(x) == Folded(order, vals);
    FoldedIsLevel(order, vals);
    LevelIsContainer(vals, Passed(order, vals).value.entries.Some?);
  }

  lemma TablesAreTables(br: Bridge, x: Value, depth: nat, l: Lua)
    requires BuildsTable(br, x, depth, Some(l))
    ensures l.Table?
  {
    hide Builds, Lists, Filled;
  }

  lemma LevelIsContainer(vals: map<LuaKey, Value>, mapped: bool)
    requires Level(vals, mapped).Some?
    ensures Container(Level(vals, mapped).value)
  {
  }

  lemma FaithfulTable(v: Lua, pairs: map<LuaKey, Lua>)
    requires v == Table(pairs)
    ensures Faithful(v) <==> forall k :: k in pairs ==> Storable(k) && Faithful(pairs[k])
  {
  }

  lemma SlotIsPair(vals: map<LuaKey, Value>, slots: seq<Slot>, i: nat)
    requires SlotsFrom(vals, slots) && i < |slots|
    ensures slots[i].key in vals && slots[i].value == vals[slots[i].key]
  {
  }

  /** A slot's value cannot fail to build when every pair comes back. */
  lemma NoSlotFails(br: Bridge, pairs: map<LuaKey, Lua>, vals: map<LuaKey, Value>, x: Value, back: nat, slots: seq<Slot>, i: nat)
    requires SlotsFrom(vals, slots) && i < |slots| && vals.Keys == pairs.Keys
    requires forall k, o :: k in pairs && Builds(br, vals[k], back, o) ==> ComesBack(pairs[k], o)
    ensures !SlotFails(br, x, back, slots[i])
  {
    hide Builds, Faithful;
    assert slots[i].value == vals[slots[i].key];
    assert Builds(br, vals[slots[i].key], back, None) ==> ComesBack(pairs[slots[i].key], None);
  }

  /** Putting a value into a table does not decide whether it comes back: numbers always do. */
  lemma HoldingKeeps(br: Bridge, v: Lua, l: Lua)
    requires ValueHeld(br.numbers, v) == v && (l == v <==> Faithful(v))
    ensures ValueHeld(br.numbers, l) == v <==> Faithful(v)
  {
  }

  /** The table filled from the slots is the original exactly when every pair of the original is faithful. */
  lemma PairsComeBack(br: Bridge, pairs: map<LuaKey, Lua>, vals: map<LuaKey, Value>, slots: seq<Slot>, ls: seq<Lua>)
    requires SlotsFrom(vals, slots) && |slots| == |ls| && vals.Keys == pairs.Keys
    requires forall k :: k in pairs ==> ValueHeld(br.numbers, pairs[k]) == pairs[k]
    requires !HasOther(vals.Keys) ==> forall k :: k in vals ==> HasSlot(slots, k)
    requires forall i :: 0 <= i < |slots| ==> slots[i].key in pairs && ComesBack(pairs[slots[i].key], Some(ls[i]))
    ensures Filled(br, slots, ls) == pairs <==> forall k :: k in pairs ==> Storable(k) && Faithful(pairs[k])
  {
    hide Filled, Faithful, ValueHeld;
    FilledHolds(br, slots, ls);
    var filled := Filled(br, slots, ls);
    if HasOther(vals.Keys) {
      var k :| k in vals.Keys && k.KeyOther?;
      assert k !in filled && k in pairs;
    } else {
      forall k | k in pairs
        ensures k in filled && (filled[k] == pairs[k] <==> Faithful(pairs[k])) && Storable(k)
      {
        assert HasSlot(slots, k);
        var i :| 0 <= i < |slots| && slots[i].key == k;
        assert ComesBack(pairs[slots[i].key], Some(ls[i]));
        HoldingKeeps(br, pairs[k], ls[i]);
      }
      assert filled.Keys == pairs.Keys;
      assert filled == pairs <==> forall k :: k in pairs ==> filled[k] == pairs[k];
    }
  }

  /**
  Whenever a Lua value converts, its conversion goes back within the same depth; it comes back as it was
  if and only if its text is well-formed and all its keys are of a stored type.
  */
  lemma {:induction false} RoundTrip(br: Bridge, repair: Repair, v: Lua, depth: nat, x: Value, back: nat, out: Option<Lua>)
    requires br.repr == AsInteger && FromState(br.numbers, v) && Converts(repair, v, depth, Some(x))
    requires back >= depth && Builds(br, x, back, out)
    ensures out.Some? && (out.value == v <==> Faithful(v))
    decreases v, 1
  {
    hide BuildsTable, ConvertsTable;
    if v.Table? {
      TablesAreContainers(repair, v, v.pairs, depth - 2, x);
      TableRoundTrip(br, repair, v, v.pairs, depth - 2, x, back - 1, out);
    }
  }

  lemma {:induction false} TableRoundTrip(br: Bridge, repair: Repair, v: Lua, pairs: map<LuaKey, Lua>, depth: nat, x: Value,
                                          back: nat, out: Option<Lua>)
    requires br.repr == AsInteger && v == Table(pairs) && back >= depth
    requires forall k :: k in pairs ==> pairs[k] < v && !pairs[k].Nil? && FromState(br.numbers, pairs[k])
    requires KeysHeld(br, pairs.Keys) && forall k :: k in pairs ==> ValueHeld(br.numbers, pairs[k]) == pairs[k]
    requires ConvertsTable(repair, v, pairs, depth, Some(x)) && BuildsTable(br, x, back, out)
    ensures Container(x) && out.Some? && (out.value == v <==> Faithful(v))
    decreases v, 0
  {
    hide Converts, Builds, Faithful, FromState, Level, Folded, Filled, Lists, SlotsFrom, MustMap, HasOther, KeysHeld, ValueHeld;
    var order: seq<LuaKey>, vals: map<LuaKey, Value> :|
      Gathered(repair, v, pairs, depth, order, vals) && Some(x) == Folded(order, vals);
    FoldedIsLevel(order, vals);
    var mapped := Passed(order, vals).value.entries.Some?;
    forall k, o | k in pairs && Builds(br, vals[k], back, o)
      ensures ComesBack(pairs[k], o)
    {
      RoundTrip(br, repair, pairs[k], depth, vals[k], back, o);
      NilStaysOut(br, repair, pairs[k], depth, vals[k], back, o);
    }
    LevelIsContainer(vals, mapped);
    if slots: seq<Slot>, i: nat :| i < |slots| && Lists(br, x, slots) && SlotFails(br, x, back, slots[i]) {
      SlotsAreVals(br, vals, mapped, slots);
      NoSlotFails(br, pairs, vals, x, back, slots, i);
    }
    var slots: seq<Slot>, ls: seq<Lua> :|
      |slots| == |ls| && Lists(br, x, slots) && Built(br, x, back, slots, ls) && out == Some(Table(Filled(br, slots, ls)));
    SlotsAreVals(br, vals, mapped, slots);
    forall i | 0 <= i < |slots|
      ensures slots[i].key in pairs && ComesBack(pairs[slots[i].key], Some(ls[i]))
    {
      SlotIsPair(vals, slots, i);
    }
    PairsComeBack(br, pairs, vals, slots, ls);
    FaithfulTable(v, pairs);
  }
}
