/** What a host value becomes when it goes to Lua and comes back, in either representation of 64-bit integers. */
module HostRoundTrip {
  import opened Wrappers
  import opened Words
  import opened Values
  import opened Sets
  import opened LuaTables
  import opened LuaBridge
  import opened LuaRoundTrip

  // ------------------------------------------------------------- building fails by depth

  /** The value is nested deeper than `depth`. */
  ghost predicate TooDeep(v: Value, depth: nat)
    decreases v
  {
    depth == 0 || match v
    case Array(items) => exists i :: 0 <= i < |items| && TooDeep(items[i], depth - 1)
    case Object(fields) => exists s :: s in fields && TooDeep(fields[s], depth - 1)
    case Map(entries) => exists k :: k in entries && TooDeep(entries[k], depth - 1)
    case _ => false
  }

  ghost predicate IsChild(v: Value, c: Value) {
    match v
    case Array(items) => exists i :: 0 <= i < |items| && items[i] == c
    case Object(fields) => exists s :: s in fields && fields[s] == c
    case Map(entries) => exists k :: k in entries && entries[k] == c
    case _ => false
  }

  ghost predicate HoldsChild(slots: seq<Slot>, c: Value) {
    exists i :: 0 <= i < |slots| && slots[i].value == c
  }

  /** The slots of a container hold its children, and all of them. */
  lemma SlotsHoldChildren(br: Bridge, v: Value, slots: seq<Slot>)
    requires Lists(br, v, slots)
    ensures forall i :: 0 <= i < |slots| ==> IsChild(v, slots[i].value)
    ensures forall c :: IsChild(v, c) ==> HoldsChild(slots, c) && c < v
  {
    match v
    case Array(items) =>
      forall c | IsChild(v, c)
        ensures HoldsChild(slots, c)
      {
        var i :| 0 <= i < |items| && items[i] == c;
        assert slots[i].value == c;
      }
    case Object(fields) => ObjectSlotsHold(br, fields, slots);
    case Map(entries) => MapSlotsHold(br, entries, slots);
  }

  lemma ObjectSlotsHold(br: Bridge, fields: map<Str, Value>, slots: seq<Slot>)
    requires Lists(br, Object(fields), slots)
    ensures forall i :: 0 <= i < |slots| ==> IsChild(Object(fields), slots[i].value)
    ensures forall c :: IsChild(Object(fields), c) ==> HoldsChild(slots, c) && c < Object(fields)
  {
    var order: seq<Str> :| ListsOnce(order, fields.Keys) && |slots| == |order|
      && forall i :: 0 <= i < |order| ==> slots[i] == Slot(KeyText(order[i]), fields[order[i]]);
    assert forall i :: 0 <= i < |order| ==> order[i] in fields.Keys;
    forall c | IsChild(Object(fields), c)
      ensures HoldsChild(slots, c)
    {
      var s :| s in fields && fields[s] == c;
      assert s in order;
      var i :| 0 <= i < |order| && order[i] == s;
      assert slots[i].value == c;
    }
  }

  lemma MapSlotsHold(br: Bridge, entries: map<MapKey, Value>, slots: seq<Slot>)
    requires Lists(br, Map(entries), slots)
    ensures forall i :: 0 <= i < |slots| ==> IsChild(Map(entries), slots[i].value)
    ensures forall c :: IsChild(Map(entries), c) ==> HoldsChild(slots, c) && c < Map(entries)
  {
    hide KeyOut;
    var order: seq<MapKey> :| ListsOnce(order, entries.Keys) && |slots| == |order|
      && forall i :: 0 <= i < |order| ==> slots[i] == Slot(KeyOut(br, order[i]), entries[order[i]]);
    assert forall i :: 0 <= i < |order| ==> order[i] in entries.Keys;
    forall c | IsChild(Map(entries), c)
      ensures HoldsChild(slots, c)
    {
      var k :| k in entries && entries[k] == c;
      assert k in order;
      var i :| 0 <= i < |order| && order[i] == k;
      assert slots[i].value == c;
    }
  }

  lemma TooDeepByChild(v: Value, depth: nat)
    requires Container(v) && depth > 0
    ensures TooDeep(v, depth) <==> exists c :: IsChild(v, c) && c < v && TooDeep(c, depth - 1)
  {
    match v
    case Array(items) => assert forall i :: 0 <= i < |items| ==> IsChild(v, items[i]);
    case Object(fields) => assert forall s :: s in fields ==> IsChild(v, fields[s]);
    case Map(entries) => assert forall k :: k in entries ==> IsChild(v, entries[k]);
  }

  lemma SlotsTooDeep(br: Bridge, v: Value, depth: nat, slots: seq<Slot>)
    requires Lists(br, v, slots) && depth > 0
    ensures forall i :: 0 <= i < |slots| ==> slots[i].value < v
    ensures TooDeep(v, depth) <==> exists i :: 0 <= i < |slots| && TooDeep(slots[i].value, depth - 1)
  {
    hide TooDeep, IsChild;
    assert Container(v);
    hide Lists;
    SlotsHoldChildren(br, v, slots);
    TooDeepByChild(v, depth);
    if c :| IsChild(v, c) && c < v && TooDeep(c, depth - 1) {
      assert HoldsChild(slots, c);
    }
  }

  /** In both representations `value_to_lua` fails exactly on values nested too deep. */
  lemma {:induction false} BuildFailsExactly(br: Bridge, v: Value, depth: nat, out: Option<Lua>)
    requires Builds(br, v, depth, out)
    ensures out.None? <==> TooDeep(v, depth)
    decreases v, 1
  {
    if depth > 0 && Container(v) {
      TableFailsExactly(br, v, depth, out);
    }
  }

  lemma {:induction false} TableFailsExactly(br: Bridge, v: Value, depth: nat, out: Option<Lua>)
    requires depth > 0 && BuildsTable(br, v, depth - 1, out)
    ensures out.None? <==> TooDeep(v, depth)
    decreases v, 0
  {
    hide Builds, TooDeep, Lists, Filled;
    if slots: seq<Slot>, i: nat :|
      out == None && i < |slots| && Lists(br, v, slots) && SlotFails(br, v, depth - 1, slots[i]) {
      SlotsTooDeep(br, v, depth, slots);
      BuildFailsExactly(br, slots[i].value, depth - 1, None);
    } else {
      var slots: seq<Slot>, ls: seq<Lua> :|
        |slots| == |ls| && Lists(br, v, slots) && Built(br, v, depth - 1, slots, ls) && out == Some(Table(Filled(br, slots, ls)));
      SlotsTooDeep(br, v, depth, slots);
      forall i | 0 <= i < |slots|
        ensures !TooDeep(slots[i].value, depth - 1)
      {
        BuildFailsExactly(br, slots[i].value, depth - 1, Some(ls[i]));
      }
    }
  }

  // ----------------------------------------------------------------- what comes home

  /** A table gives the integer back as it was put in. */
  predicate KeepsInteger(br: Bridge, i: i64) {
    br.numbers.ofInteger(i) == HeldInteger(i)
  }

  /** A table gives the number back as it was put in. */
  predicate KeepsNumber(br: Bridge, v: Value) {
    match v
    case I64(i) => br.repr == AsInteger ==> KeepsInteger(br, i)
    case F64(f) => br.numbers.ofDouble(f) == HeldNumber(f)
    case _ => true
  }

  /** A table gives the index of an element back. */
  predicate KeepsIndex(br: Bridge, i: nat) {
    i + 1 < TWO_63 && KeepsInteger(br, i + 1)
  }

  /** The key is the one its Lua form is read as. */
  predicate KeyComesHome(br: Bridge, k: MapKey) {
    match k
    case KeyI64(i) => br.repr == AsInteger && i < 0 && KeepsInteger(br, i)
    case KeyU64(u) => br.repr == AsInteger && u < TWO_63 && KeepsInteger(br, u)
    case _ => true
  }

  lemma KeyHome(br: Bridge, k: MapKey)
    ensures Storable(KeyOut(br, k)) && MapKeyOf(KeyOut(br, k)) == k <==> KeyComesHome(br, k)
  {
  }

  /** Keys that are not those of a list or an object. */
  ghost predicate NeedsMap(keys: set<MapKey>) {
    || (exists k :: k in keys && (k.KeyBool? || k.KeyI64? || k == KeyU64(0)))
    || ((exists k :: k in keys && k.KeyU64?) && exists k :: k in keys && k.KeyString?)
  }

  /**
  Values that come home: no bytes, no unsigned numbers, integers only as integers, in a container no null and
  only numbers a table gives back, no empty object, and maps whose keys a table gives back and that cannot be
  taken for a list or an object.
  */
  ghost predicate ComesHome(br: Bridge, v: Value)
    decreases v
  {
    match v
    case I64(_) => br.repr == AsInteger
    case U64(_) => false
    case Bytes(_) => false
    case Array(items) =>
      forall i :: 0 <= i < |items| ==> KeepsIndex(br, i) && !items[i].Null? && KeepsNumber(br, items[i]) && ComesHome(br, items[i])
    case Object(fields) =>
      fields != map[] && forall s :: s in fields ==> !fields[s].Null? && KeepsNumber(br, fields[s]) && ComesHome(br, fields[s])
    case Map(entries) =>
      && NeedsMap(entries.Keys)
      && forall k :: k in entries ==>
           KeyComesHome(br, k) && !entries[k].Null? && KeepsNumber(br, entries[k]) && ComesHome(br, entries[k])
    case _ => true
  }

  /** Reading takes two units of depth for every level that building takes one for. */
  ghost predicate Fits(v: Value, depth: nat)
    decreases v
  {
    depth > 0 && match v
    case Array(items) => depth >= 2 && forall i :: 0 <= i < |items| ==> Fits(items[i], depth - 2)
    case Object(fields) => depth >= 2 && forall s :: s in fields ==> Fits(fields[s], depth - 2)
    case Map(entries) => depth >= 2 && forall k :: k in entries ==> Fits(entries[k], depth - 2)
    case _ => true
  }

  /** Every vector has fewer than 2^63 elements, as in Rust. */
  ghost predicate Addressable(v: Value)
    decreases v
  {
    match v
    case Array(items) => |items| < TWO_63 && forall i :: 0 <= i < |items| ==> Addressable(items[i])
    case Object(fields) => forall s :: s in fields ==> Addressable(fields[s])
    case Map(entries) => forall k :: k in entries ==> Addressable(entries[k])
    case _ => true
  }

  /** A child that comes home, and within the depth. */
  ghost predicate ChildHome(br: Bridge, c: Value, depth: nat) {
    !c.Null? && KeepsNumber(br, c) && ComesHome(br, c) && Fits(c, depth)
  }

  ghost predicate KeysApart(slots: seq<Slot>) {
    forall i, j :: 0 <= i < j < |slots| ==> slots[i].key != slots[j].key
  }

  /** A container comes home exactly when its shape does and all its children do. */
  ghost predicate ShapeHome(br: Bridge, v: Value) {
    match v
    case Array(items) => forall i :: 0 <= i < |items| ==> KeepsIndex(br, i)
    case Object(fields) => fields != map[]
    case Map(entries) => NeedsMap(entries.Keys) && forall k :: k in entries ==> KeyComesHome(br, k)
    case _ => false
  }

  lemma HomeByChild(br: Bridge, v: Value, depth: nat)
    requires Container(v) && depth >= 2
    ensures ComesHome(br, v) && Fits(v, depth)
            <==> ShapeHome(br, v) && forall c :: IsChild(v, c) ==> ChildHome(br, c, depth - 2)
  {
    match v
    case Array(items) => assert forall i :: 0 <= i < |items| ==> IsChild(v, items[i]);
    case Object(fields) => assert forall s :: s in fields ==> IsChild(v, fields[s]);
    case Map(entries) => assert forall k :: k in entries ==> IsChild(v, entries[k]);
  }

  lemma AddressableByChild(v: Value)
    requires Addressable(v)
    ensures forall c :: IsChild(v, c) ==> Addressable(c)
  {
  }

  lemma OnlyContainersList(br: Bridge, v: Value, slots: seq<Slot>)
    requires Lists(br, v, slots)
    ensures Container(v)
  {
  }

  lemma HomeIsChildren(br: Bridge, v: Value, depth: nat, slots: seq<Slot>)
    requires Lists(br, v, slots) && depth >= 2 && Addressable(v)
    ensures ComesHome(br, v) && Fits(v, depth)
            <==> ShapeHome(br, v) && forall i :: 0 <= i < |slots| ==> ChildHome(br, slots[i].value, depth - 2)
    ensures forall i :: 0 <= i < |slots| ==> slots[i].value < v && Addressable(slots[i].value)
  {
    hide Lists, ComesHome, Fits, ShapeHome, ChildHome, IsChild, Addressable;
    OnlyContainersList(br, v, slots);
    SlotsHoldChildren(br, v, slots);
    HomeByChild(br, v, depth);
    AddressableByChild(v);
    if forall i :: 0 <= i < |slots| ==> ChildHome(br, slots[i].value, depth - 2) {
      forall c | IsChild(v, c)
        ensures ChildHome(br, c, depth - 2)
      {
        assert HoldsChild(slots, c);
      }
    }
  }

  /** Keys that a table gives back are stored, and stay apart. */
  lemma HomeKeys(br: Bridge, v: Value, slots: seq<Slot>)
    requires ShapeHome(br, v) && Lists(br, v, slots)
    ensures KeysApart(slots) && forall i :: 0 <= i < |slots| ==> Storable(slots[i].key)
  {
    hide NeedsMap;
    match v
    case Array(items) =>
      assert forall i :: 0 <= i < |items| ==> KeepsIndex(br, i) && slots[i].key == KeyInt(i + 1);
    case Object(_) =>
    case Map(entries) => MapKeysApart(br, entries, slots);
  }

  lemma MapKeysApart(br: Bridge, entries: map<MapKey, Value>, slots: seq<Slot>)
    requires Lists(br, Map(entries), slots) && forall k :: k in entries ==> KeyComesHome(br, k)
    ensures KeysApart(slots) && forall i :: 0 <= i < |slots| ==> Storable(slots[i].key)
  {
    hide KeyOut, KeyComesHome, MapKeyOf;
    var order: seq<MapKey> :| ListsOnce(order, entries.Keys) && |slots| == |order|
      && forall i :: 0 <= i < |order| ==> slots[i] == Slot(KeyOut(br, order[i]), entries[order[i]]);
    forall i | 0 <= i < |order|
      ensures Storable(slots[i].key) && MapKeyOf(slots[i].key) == order[i]
    {
      assert order[i] in entries.Keys;
      KeyHome(br, order[i]);
    }
  }

  // ------------------------------------------------------- a table and its level

  /** `vals` are the values of a table filled from slots. */
  ghost predicate FromSlots(vals: map<LuaKey, Value>, slots: seq<Slot>) {
    && (forall i :: 0 <= i < |slots| ==> slots[i].key in vals && vals[slots[i].key] == slots[i].value)
    && (forall k :: k in vals ==> Storable(k) && HasSlot(slots, k))
  }

  lemma NoOthers(vals: map<LuaKey, Value>)
    requires forall k :: k in vals ==> Storable(k)
    ensures !HasOther(vals.Keys) && !Ambiguous(vals.Keys)
  {
  }

  /** The keys of a list are 1 up to its length. */
  lemma IndexedKeys(slots: seq<Slot>, vals: map<LuaKey, Value>)
    requires |slots| < TWO_63 && FromSlots(vals, slots)
    requires forall i :: 0 <= i < |slots| ==> slots[i].key == KeyInt(i + 1)
    ensures vals.Keys == set i: int | 1 <= i <= |slots| :: KeyInt(i)
  {
    var few := set i: int | 1 <= i <= |slots| :: KeyInt(i);
    forall k | k in vals.Keys
      ensures k in few
    {
      var i :| 0 <= i < |slots| && slots[i].key == k;
    }
    forall k | k in few
      ensures k in vals.Keys
    {
      assert slots[k.index - 1].key == k;
    }
  }

  lemma ArrayLevel(br: Bridge, items: seq<Value>, slots: seq<Slot>, vals: map<LuaKey, Value>)
    requires |items| < TWO_63 && ShapeHome(br, Array(items)) && Lists(br, Array(items), slots) && FromSlots(vals, slots)
    ensures Level(vals, MustMap(vals.Keys)) == Some(Array(items))
  {
    hide Lists, IndexKey, KeepsIndex, HasSlot, Stored, Texts;
    ArraySlots(br, items, slots);
    forall i | 0 <= i < |slots|
      ensures slots[i] == Slot(KeyInt(i + 1), items[i])
    {
      ArraySlot(br, items, slots, i);
      KeptIndex(br, i);
    }
    IndexedKeys(slots, vals);
    IndexKeys(|items|);
    assert OnlyPositive(vals.Keys) && Contiguous(vals.Keys);
    assert Items(vals) == items;
  }

  lemma TextsOnly(fields: map<Str, Value>, vals: map<LuaKey, Value>)
    requires fields != map[]
    requires forall s :: s in fields ==> KeyText(s) in vals && vals[KeyText(s)] == fields[s]
    requires forall k :: k in vals ==> k.KeyText? && k.text in fields
    ensures Level(vals, MustMap(vals.Keys)) == Some(Object(fields))
  {
    hide Stored, Contiguous;
    var some :| some in fields;
    assert KeyText(some) in vals.Keys;
    assert Texts(vals) == fields;
  }

  lemma ObjectLevel(br: Bridge, fields: map<Str, Value>, slots: seq<Slot>, vals: map<LuaKey, Value>)
    requires fields != map[] && Lists(br, Object(fields), slots) && FromSlots(vals, slots)
    ensures Level(vals, MustMap(vals.Keys)) == Some(Object(fields))
  {
    var order: seq<Str> :| ListsOnce(order, fields.Keys) && |slots| == |order|
      && forall i :: 0 <= i < |order| ==> slots[i] == Slot(KeyText(order[i]), fields[order[i]]);
    assert forall i :: 0 <= i < |order| ==> order[i] in fields.Keys;
    forall s | s in fields
      ensures KeyText(s) in vals && vals[KeyText(s)] == fields[s]
    {
      assert s in order;
      var i :| 0 <= i < |order| && order[i] == s;
      assert slots[i].key == KeyText(s);
    }
    forall k | k in vals
      ensures k.KeyText? && k.text in fields
    {
      var i :| 0 <= i < |slots| && slots[i].key == k;
    }
    TextsOnly(fields, vals);
  }

  lemma EntriesHeld(br: Bridge, entries: map<MapKey, Value>, slots: seq<Slot>, vals: map<LuaKey, Value>)
    requires Lists(br, Map(entries), slots) && FromSlots(vals, slots)
    ensures forall k :: k in entries ==> KeyOut(br, k) in vals && vals[KeyOut(br, k)] == entries[k]
  {
    hide KeyOut, HasSlot;
    var order: seq<MapKey> :| ListsOnce(order, entries.Keys) && |slots| == |order|
      && forall i :: 0 <= i < |order| ==> slots[i] == Slot(KeyOut(br, order[i]), entries[order[i]]);
    forall k | k in entries
      ensures KeyOut(br, k) in vals && vals[KeyOut(br, k)] == entries[k]
    {
      assert k in order;
      var i :| 0 <= i < |order| && order[i] == k;
      assert slots[i].key == KeyOut(br, k);
    }
  }

  lemma KeysHome(br: Bridge, entries: map<MapKey, Value>, slots: seq<Slot>, a: LuaKey)
    requires ShapeHome(br, Map(entries)) && Lists(br, Map(entries), slots) && HasSlot(slots, a)
    ensures Storable(a) && MapKeyOf(a) in entries
  {
    hide KeyOut, MapKeyOf, KeyComesHome, NeedsMap;
    var order: seq<MapKey> :| ListsOnce(order, entries.Keys) && |slots| == |order|
      && forall i :: 0 <= i < |order| ==> slots[i] == Slot(KeyOut(br, order[i]), entries[order[i]]);
    var i :| 0 <= i < |slots| && slots[i].key == a;
    assert order[i] in entries.Keys;
    KeyHome(br, order[i]);
  }

  lemma MapLevel(br: Bridge, entries: map<MapKey, Value>, slots: seq<Slot>, vals: map<LuaKey, Value>)
    requires ShapeHome(br, Map(entries)) && Lists(br, Map(entries), slots) && FromSlots(vals, slots)
    ensures Level(vals, MustMap(vals.Keys)) == Some(Map(entries))
  {
    hide Stored, KeyOut, MapKeyOf, KeyComesHome, Lists, HasSlot, MustMap, NeedsMap;
    EntriesHeld(br, entries, slots, vals);
    forall a | a in vals
      ensures Storable(a) && MapKeyOf(a) in entries
    {
      KeysHome(br, entries, slots, a);
    }
    forall k | k in entries
      ensures Storable(KeyOut(br, k)) && MapKeyOf(KeyOut(br, k)) == k
    {
      KeyHome(br, k);
    }
    StoredEntries(br, entries, vals);
    MapIsNeeded(br, entries.Keys, vals.Keys);
  }

  lemma StoredEntries(br: Bridge, entries: map<MapKey, Value>, vals: map<LuaKey, Value>)
    requires forall k :: k in entries ==>
               Storable(KeyOut(br, k)) && KeyOut(br, k) in vals && vals[KeyOut(br, k)] == entries[k] && MapKeyOf(KeyOut(br, k)) == k
    requires forall a :: a in vals ==> Storable(a) && MapKeyOf(a) in entries
    ensures Stored(vals) == entries
  {
    hide KeyOut, MapKeyOf;
    forall mk | mk in Stored(vals)
      ensures mk in entries
    {
      var a :| a in vals && Storable(a) && MapKeyOf(a) == mk;
    }
  }

  /** The map keys need a map exactly when the Lua keys they stand for do. */
  lemma MapIsNeeded(br: Bridge, keys: set<MapKey>, ks: set<LuaKey>)
    requires forall k :: k in keys ==> KeyOut(br, k) in ks && KeyComesHome(br, k)
    requires forall a :: a in ks ==> Storable(a) && MapKeyOf(a) in keys
    ensures NeedsMap(keys) <==> MustMap(ks)
  {
    hide KeyOut, MapKeyOf, NeedsMap, MustMap;
    if NeedsMap(keys) {
      NeedsIsMust(br, keys, ks);
    }
    if MustMap(ks) {
      MustIsNeeds(keys, ks);
    }
  }

  lemma NeedsIsMust(br: Bridge, keys: set<MapKey>, ks: set<LuaKey>)
    requires NeedsMap(keys) && forall k :: k in keys ==> KeyOut(br, k) in ks && KeyComesHome(br, k)
    ensures MustMap(ks)
  {
    hide KeyOut, KeyComesHome;
    if k :| k in keys && (k.KeyBool? || k.KeyI64? || k == KeyU64(0)) {
      OneKind(br, k);
      assert KeyOut(br, k) in ks;
    } else {
      var k, t :| k in keys && t in keys && k.KeyU64? && t.KeyString?;
      OneKind(br, k);
      OneKind(br, t);
      assert KeyOut(br, k) in ks && KeyOut(br, t) in ks;
    }
  }

  lemma MustIsNeeds(keys: set<MapKey>, ks: set<LuaKey>)
    requires MustMap(ks) && forall a :: a in ks ==> Storable(a) && MapKeyOf(a) in keys
    ensures NeedsMap(keys)
  {
    hide MapKeyOf;
    if a :| a in ks && ((a.KeyInt? && a.index < 1) || a.KeyFlag?) {
      SameKind(a);
      assert MapKeyOf(a) in keys;
    } else {
      var a, t :| a in ks && t in ks && a.KeyInt? && a.index >= 1 && t.KeyText?;
      SameKind(a);
      SameKind(t);
      assert MapKeyOf(a) in keys && MapKeyOf(t) in keys;
    }
  }

  lemma OneKind(br: Bridge, k: MapKey)
    requires KeyComesHome(br, k)
    ensures var a := KeyOut(br, k);
            && (k.KeyBool? ==> a.KeyFlag?) && (k.KeyString? ==> a.KeyText?)
            && (k.KeyI64? || k == KeyU64(0) ==> a.KeyInt? && a.index < 1)
            && (k.KeyU64? && k.unsigned > 0 ==> a.KeyInt? && a.index >= 1)
  {
  }

  lemma SameKind(a: LuaKey)
    requires Storable(a)
    ensures var k := MapKeyOf(a);
            && (a.KeyFlag? ==> k.KeyBool?) && (a.KeyText? ==> k.KeyString?)
            && (a.KeyInt? && a.index < 1 ==> k.KeyI64? || k == KeyU64(0))
            && (a.KeyInt? && a.index >= 1 ==> k.KeyU64?)
  {
  }

  lemma LevelIsHome(br: Bridge, v: Value, slots: seq<Slot>, vals: map<LuaKey, Value>)
    requires ShapeHome(br, v) && Addressable(v) && Lists(br, v, slots) && FromSlots(vals, slots)
    ensures Level(vals, MustMap(vals.Keys)) == Some(v)
  {
    hide Level, Lists, FromSlots, MustMap;
    match v
    case Array(items) => ArrayLevel(br, items, slots, vals);
    case Object(fields) => ObjectLevel(br, fields, slots, vals);
    case Map(entries) => MapLevel(br, entries, slots, vals);
  }

  // ------------------------------------------------------------------ coming home

  /** What a built container is made of. */
  lemma BuiltFrom(br: Bridge, v: Value, depth: nat, l: Lua) returns (slots: seq<Slot>, ls: seq<Lua>)
    requires Container(v) && Builds(br, v, depth, Some(l))
    ensures depth > 0 && |slots| == |ls| && Lists(br, v, slots) && Built(br, v, depth - 1, slots, ls)
    ensures l == Table(Filled(br, slots, ls))
  {
    hide Lists, Filled;
    slots, ls :| |slots| == |ls| && Lists(br, v, slots) && Built(br, v, depth - 1, slots, ls)
      && Some(l) == Some(Table(Filled(br, slots, ls)));
  }

  lemma OnlyNullBuildsNil(br: Bridge, v: Value, depth: nat, l: Lua)
    requires Builds(br, v, depth, Some(l))
    ensures l.Nil? <==> v.Null?
  {
    hide BuildsTable;
    if Container(v) {
      TablesAreTables(br, v, depth - 1, l);
    }
  }

  /** However its tables are visited, the Lua value is read as `c`. */
  ghost predicate OnlyReadsAs(repair: Repair, l: Lua, depth: nat, c: Value) {
    forall o :: Converts(repair, l, depth, o) ==> o == Some(c)
  }

  /** A value that comes home is what its Lua form converts to. */
  lemma {:induction false} Returns(repair: Repair, br: Bridge, v: Value, depth: nat, l: Lua, back: nat)
    requires Addressable(v) && Builds(br, v, depth, Some(l)) && ComesHome(br, v) && Fits(v, back)
    ensures OnlyReadsAs(repair, l, back, v)
    decreases v, 1
  {
    if Container(v) {
      TableReturns(repair, br, v, depth, l, back);
    }
  }

  lemma {:induction false} TableReturns(repair: Repair, br: Bridge, v: Value, depth: nat, l: Lua, back: nat)
    requires Container(v) && back >= 2
    requires Addressable(v) && Builds(br, v, depth, Some(l)) && ComesHome(br, v) && Fits(v, back)
    ensures OnlyReadsAs(repair, l, back, v)
    decreases v, 0
  {
    hide Builds, Converts, ConvertsTable, ComesHome, Fits, Addressable, Lists, Filled, ShapeHome, KeysApart, KeepsNumber, ValueHeld;
    var slots, ls := BuiltFrom(br, v, depth, l);
    HomeIsChildren(br, v, back, slots);
    HomeKeys(br, v, slots);
    forall i | 0 <= i < |slots|
      ensures !ls[i].Nil? && ValueHeld(br.numbers, ls[i]) == ls[i]
      ensures OnlyReadsAs(repair, ls[i], back - 2, slots[i].value)
    {
      assert ChildHome(br, slots[i].value, back - 2);
      OnlyNullBuildsNil(br, slots[i].value, depth - 1, ls[i]);
      KeptAsBuilt(br, slots[i].value, depth - 1, ls[i]);
      Returns(repair, br, slots[i].value, depth - 1, ls[i], back - 2);
    }
    forall o | Converts(repair, l, back, o)
      ensures o == Some(v)
    {
      ConvertedTable(repair, l, l.pairs, back, o);
      TableIsHome(repair, br, v, slots, ls, l, l.pairs, back - 2, o);
    }
  }

  lemma ConvertedTable(repair: Repair, l: Lua, pairs: map<LuaKey, Lua>, depth: nat, out: Option<Value>)
    requires l == Table(pairs) && depth >= 2 && Converts(repair, l, depth, out)
    ensures (forall k :: k in pairs ==> pairs[k] < l) && ConvertsTable(repair, l, pairs, depth - 2, out)
  {
    hide ConvertsTable;
  }

  /** Numbers a table gives back are held as they were built. */
  lemma KeptAsBuilt(br: Bridge, c: Value, depth: nat, l: Lua)
    requires Builds(br, c, depth, Some(l)) && KeepsNumber(br, c) && ComesHome(br, c)
    ensures ValueHeld(br.numbers, l) == l
  {
    hide BuildsTable;
    if Container(c) {
      TablesAreTables(br, c, depth - 1, l);
    }
  }

  /** Every pair of a filled table is some slot's, and reads as that slot's value. */
  ghost predicate Reads(repair: Repair, pairs: map<LuaKey, Lua>, slots: seq<Slot>, depth: nat) {
    && (forall k :: k in pairs ==> HasSlot(slots, k))
    && forall i :: 0 <= i < |slots| ==>
         Storable(slots[i].key) && slots[i].key in pairs && OnlyReadsAs(repair, pairs[slots[i].key], depth, slots[i].value)
  }

  lemma FilledReads(br: Bridge, repair: Repair, slots: seq<Slot>, ls: seq<Lua>, depth: nat)
    requires KeysApart(slots) && |slots| == |ls|
    requires forall i :: 0 <= i < |slots| ==>
               && Storable(slots[i].key) && !ls[i].Nil? && ValueHeld(br.numbers, ls[i]) == ls[i]
               && OnlyReadsAs(repair, ls[i], depth, slots[i].value)
    ensures Reads(repair, Filled(br, slots, ls), slots, depth)
  {
    hide Filled, OnlyReadsAs, HasSlot, ValueHeld;
    FilledHolds(br, slots, ls);
    forall i | 0 <= i < |slots|
      ensures slots[i].key in Filled(br, slots, ls) && Filled(br, slots, ls)[slots[i].key] == ls[i]
    {
      assert HoldsSlot(br, Filled(br, slots, ls), slots[i], ls[i]);
    }
  }

  lemma NoPairFails(repair: Repair, pairs: map<LuaKey, Lua>, slots: seq<Slot>, depth: nat, k: LuaKey)
    requires Reads(repair, pairs, slots, depth) && k in pairs
    ensures !Converts(repair, pairs[k], depth, None)
  {
    hide Converts;
    assert HasSlot(slots, k);
  }

  lemma ReadsFromSlots(repair: Repair, l: Lua, pairs: map<LuaKey, Lua>, slots: seq<Slot>, depth: nat,
                       order: seq<LuaKey>, vals: map<LuaKey, Value>)
    requires forall k :: k in pairs ==> pairs[k] < l
    requires Reads(repair, pairs, slots, depth) && Gathered(repair, l, pairs, depth, order, vals)
    ensures FromSlots(vals, slots)
  {
    hide Converts, HasSlot;
    assert forall k :: k in vals ==> k in pairs;
    forall i | 0 <= i < |slots|
      ensures slots[i].key in vals && vals[slots[i].key] == slots[i].value
    {
      assert slots[i].key in vals.Keys;
      assert OnlyReadsAs(repair, pairs[slots[i].key], depth, slots[i].value);
    }
    forall k | k in vals
      ensures Storable(k)
    {
      HasSlotStorable(repair, pairs, slots, depth, k);
    }
  }

  lemma HasSlotStorable(repair: Repair, pairs: map<LuaKey, Lua>, slots: seq<Slot>, depth: nat, k: LuaKey)
    requires Reads(repair, pairs, slots, depth) && k in pairs
    ensures Storable(k)
  {
    hide OnlyReadsAs;
    assert HasSlot(slots, k);
  }

  /** A table filled from home-coming slots converts to the container they are the slots of. */
  lemma TableIsHome(repair: Repair, br: Bridge, v: Value, slots: seq<Slot>, ls: seq<Lua>,
                    l: Lua, pairs: map<LuaKey, Lua>, depth: nat, out: Option<Value>)
    requires ShapeHome(br, v) && Addressable(v) && Lists(br, v, slots) && KeysApart(slots) && |slots| == |ls|
    requires forall i :: 0 <= i < |slots| ==>
               && Storable(slots[i].key) && !ls[i].Nil? && ValueHeld(br.numbers, ls[i]) == ls[i]
               && OnlyReadsAs(repair, ls[i], depth, slots[i].value)
    requires pairs == Filled(br, slots, ls) && forall k :: k in pairs ==> pairs[k] < l
    requires ConvertsTable(repair, l, pairs, depth, out)
    ensures out == Some(v)
  {
    hide Converts, ShapeHome, Addressable, Lists, Level, Folded, MustMap, Ambiguous, Filled, KeysApart, Reads, FromSlots, OnlyReadsAs, ValueHeld;
    FilledReads(br, repair, slots, ls, depth);
    forall k | k in pairs
      ensures !Converts(repair, pairs[k], depth, None)
    {
      NoPairFails(repair, pairs, slots, depth, k);
    }
    var order: seq<LuaKey>, vals: map<LuaKey, Value> :|
      Gathered(repair, l, pairs, depth, order, vals) && out == Folded(order, vals);
    ReadsFromSlots(repair, l, pairs, slots, depth, order, vals);
    SlotsStorable(vals, slots);
    NoOthers(vals);
    OrderDoesNotMatter(order, order, vals);
    LevelIsHome(br, v, slots, vals);
  }

  lemma SlotsStorable(vals: map<LuaKey, Value>, slots: seq<Slot>)
    requires FromSlots(vals, slots)
    ensures forall k :: k in vals ==> Storable(k)
  {
  }

  // --------------------------------------------------------------- and nothing else does

  /** Every slot's value is there. */
  ghost predicate AllSlots(vals: map<LuaKey, Value>, slots: seq<Slot>) {
    forall i :: 0 <= i < |slots| ==> slots[i].key in vals && vals[slots[i].key] == slots[i].value
  }

  lemma ArrayLevelIs(vals: map<LuaKey, Value>, mapped: bool, items: seq<Value>)
    requires Level(vals, mapped) == Some(Array(items))
    ensures Contiguous(vals.Keys) && Items(vals) == items
  {
    hide Contiguous, Stored, Texts;
  }

  lemma ArraySlots(br: Bridge, items: seq<Value>, slots: seq<Slot>)
    requires Lists(br, Array(items), slots)
    ensures |slots| == |items|
  {
  }

  lemma ArraySlot(br: Bridge, items: seq<Value>, slots: seq<Slot>, i: nat)
    requires Lists(br, Array(items), slots) && i < |slots|
    ensures |slots| == |items| && slots[i] == Slot(IndexKey(br, i), items[i])
  {
    hide IndexKey;
  }

  lemma ItemHome(br: Bridge, items: seq<Value>, slots: seq<Slot>, vals: map<LuaKey, Value>, i: nat)
    requires Settles(br.numbers) && i < |items| && Lists(br, Array(items), slots) && i < |slots|
    requires Contiguous(vals.Keys) && Items(vals) == items && forall k :: k in vals ==> HasSlot(slots, k)
    ensures KeepsIndex(br, i) && slots[i].key in vals && vals[slots[i].key] == slots[i].value
  {
    hide Lists, Settles, IndexKey;
    assert Items(vals)[i] == items[i] && KeyInt(i + 1) in vals.Keys;
    assert HasSlot(slots, KeyInt(i + 1));
    var source :| 0 <= source < |slots| && slots[source].key == KeyInt(i + 1);
    ArraySlot(br, items, slots, source);
    ArraySlot(br, items, slots, i);
    IndexSettles(br, source, i + 1);
    KeptIndex(br, i);
  }

  lemma KeptIndex(br: Bridge, i: nat)
    requires KeepsIndex(br, i)
    ensures IndexKey(br, i) == KeyInt(i + 1)
  {
  }

  lemma ArrayShape(br: Bridge, items: seq<Value>, slots: seq<Slot>, vals: map<LuaKey, Value>, mapped: bool)
    requires Settles(br.numbers) && |items| < TWO_63 && Lists(br, Array(items), slots)
    requires Level(vals, mapped) == Some(Array(items)) && forall k :: k in vals ==> HasSlot(slots, k)
    ensures ShapeHome(br, Array(items)) && AllSlots(vals, slots)
  {
    hide Level, Settles, HasSlot, Contiguous, KeepsIndex, IndexKey;
    ArrayLevelIs(vals, mapped, items);
    forall i | 0 <= i < |slots|
      ensures KeepsIndex(br, i) && slots[i].key in vals && vals[slots[i].key] == slots[i].value
    {
      ItemHome(br, items, slots, vals, i);
    }
  }

  /** An index that a table has is one that it gives back. */
  lemma IndexSettles(br: Bridge, source: nat, i: i64)
    requires Settles(br.numbers) && IndexKey(br, source) == KeyInt(i)
    ensures KeepsInteger(br, i)
  {
  }

  lemma ObjectShape(br: Bridge, fields: map<Str, Value>, slots: seq<Slot>, vals: map<LuaKey, Value>, mapped: bool)
    requires Lists(br, Object(fields), slots) && Level(vals, mapped) == Some(Object(fields))
    ensures fields != map[] && AllSlots(vals, slots)
  {
    hide Lists, AllSlots;
    TextsLevel(fields, vals, mapped);
    FieldsInSlots(br, fields, slots, vals);
  }

  lemma TextsLevel(fields: map<Str, Value>, vals: map<LuaKey, Value>, mapped: bool)
    requires Level(vals, mapped) == Some(Object(fields))
    ensures fields != map[] && fields == Texts(vals)
  {
    hide Stored, Contiguous;
    var k :| k in vals.Keys && k.KeyText?;
    assert k.text in Texts(vals);
  }

  lemma FieldsInSlots(br: Bridge, fields: map<Str, Value>, slots: seq<Slot>, vals: map<LuaKey, Value>)
    requires Lists(br, Object(fields), slots) && fields == Texts(vals)
    ensures AllSlots(vals, slots)
  {
    var order: seq<Str> :| ListsOnce(order, fields.Keys) && |slots| == |order|
      && forall i :: 0 <= i < |order| ==> slots[i] == Slot(KeyText(order[i]), fields[order[i]]);
    assert forall i :: 0 <= i < |order| ==> order[i] in fields.Keys;
  }

  lemma KeyFromOut(br: Bridge, source: MapKey, k: MapKey)
    requires Settles(br.numbers) && Storable(KeyOut(br, source)) && k == MapKeyOf(KeyOut(br, source))
    ensures KeyComesHome(br, k) && KeyOut(br, k) == KeyOut(br, source)
  {
  }

  /** A map read back holds no key but those that come home, each with its own value. */
  lemma EntryHome(br: Bridge, entries: map<MapKey, Value>, slots: seq<Slot>, vals: map<LuaKey, Value>, k: MapKey)
    requires Settles(br.numbers) && Lists(br, Map(entries), slots) && (forall a :: a in vals ==> HasSlot(slots, a))
    requires entries == Stored(vals) && k in entries
    ensures KeyComesHome(br, k) && KeyOut(br, k) in vals && vals[KeyOut(br, k)] == entries[k]
  {
    hide KeyOut, MapKeyOf, KeyComesHome, Stored;
    var a :| a in vals && Storable(a) && MapKeyOf(a) == k;
    var source := SlotSource(br, entries, slots, a);
    KeyFromOut(br, source, k);
  }

  lemma SlotSource(br: Bridge, entries: map<MapKey, Value>, slots: seq<Slot>, a: LuaKey) returns (source: MapKey)
    requires Lists(br, Map(entries), slots) && HasSlot(slots, a)
    ensures source in entries && KeyOut(br, source) == a
  {
    hide KeyOut;
    var order: seq<MapKey> :| ListsOnce(order, entries.Keys) && |slots| == |order|
      && forall i :: 0 <= i < |order| ==> slots[i] == Slot(KeyOut(br, order[i]), entries[order[i]]);
    var i :| 0 <= i < |slots| && slots[i].key == a;
    assert order[i] in entries.Keys;
    source := order[i];
  }

  lemma MapShape(br: Bridge, entries: map<MapKey, Value>, slots: seq<Slot>, vals: map<LuaKey, Value>)
    requires Settles(br.numbers) && Lists(br, Map(entries), slots) && (forall k :: k in vals ==> Storable(k) && HasSlot(slots, k))
    requires MustMap(vals.Keys) && entries == Stored(vals)
    ensures ShapeHome(br, Map(entries)) && AllSlots(vals, slots)
  {
    hide KeyOut, MapKeyOf, KeyComesHome, NeedsMap, MustMap, Stored, HasSlot, Lists, AllSlots, ShapeHome;
    forall k | k in entries
      ensures KeyComesHome(br, k) && KeyOut(br, k) in vals && vals[KeyOut(br, k)] == entries[k]
    {
      EntryHome(br, entries, slots, vals, k);
    }
    EntriesInSlots(br, entries, slots, vals);
    MapShapeHome(br, entries, vals);
  }

  lemma MapShapeHome(br: Bridge, entries: map<MapKey, Value>, vals: map<LuaKey, Value>)
    requires MustMap(vals.Keys) && forall a :: a in vals ==> Storable(a) && MapKeyOf(a) in entries
    requires forall k :: k in entries ==> KeyComesHome(br, k) && KeyOut(br, k) in vals
    ensures ShapeHome(br, Map(entries))
  {
    hide KeyOut, MapKeyOf, KeyComesHome, NeedsMap, MustMap;
    MapIsNeeded(br, entries.Keys, vals.Keys);
  }

  lemma EntriesInSlots(br: Bridge, entries: map<MapKey, Value>, slots: seq<Slot>, vals: map<LuaKey, Value>)
    requires Lists(br, Map(entries), slots)
    requires forall k :: k in entries ==> KeyOut(br, k) in vals && vals[KeyOut(br, k)] == entries[k]
    ensures AllSlots(vals, slots)
  {
    hide KeyOut;
    var order: seq<MapKey> :| ListsOnce(order, entries.Keys) && |slots| == |order|
      && forall i :: 0 <= i < |order| ==> slots[i] == Slot(KeyOut(br, order[i]), entries[order[i]]);
    assert forall i :: 0 <= i < |order| ==> order[i] in entries.Keys;
  }

  /** A map whose own keys fill the table, and that is read back, has no key of an unsupported type in the table. */
  lemma NoKeyLost(br: Bridge, entries: map<MapKey, Value>, slots: seq<Slot>, vals: map<LuaKey, Value>, mapped: bool)
    requires Settles(br.numbers) && Lists(br, Map(entries), slots) && (forall k :: k in vals ==> HasSlot(slots, k))
    requires Level(vals, mapped) == Some(Map(entries))
    ensures forall k :: k in vals ==> Storable(k)
  {
    hide KeyOut, KeyComesHome, MapKeyOf, Stored, Lists, Texts, Contiguous, HasSlot, MustMap, Settles;
    forall k | k in vals && !Storable(k)
      ensures false
    {
      var source := SlotSource(br, entries, slots, k);
      assert entries == Stored(vals);
      EntryHome(br, entries, slots, vals, source);
      KeyHome(br, source);
      assert false;
    }
  }

  /** Without keys of unsupported types a map comes only of keys that must make one. */
  lemma LevelMaps(vals: map<LuaKey, Value>, entries: map<MapKey, Value>, mapped: bool)
    requires (forall k :: k in vals ==> Storable(k)) && Level(vals, mapped) == Some(Map(entries))
    requires (MustMap(vals.Keys) ==> mapped) && (mapped ==> MustMap(vals.Keys) || Ambiguous(vals.Keys))
    ensures MustMap(vals.Keys) && entries == Stored(vals)
  {
    hide Stored, Texts, Contiguous;
    NoOthers(vals);
  }

  lemma LevelShape(br: Bridge, v: Value, slots: seq<Slot>, vals: map<LuaKey, Value>, mapped: bool)
    requires Settles(br.numbers) && Addressable(v) && Lists(br, v, slots) && Level(vals, mapped) == Some(v)
    requires (MustMap(vals.Keys) ==> mapped) && (mapped ==> MustMap(vals.Keys) || Ambiguous(vals.Keys))
    requires forall k :: k in vals ==> HasSlot(slots, k)
    ensures ShapeHome(br, v) && AllSlots(vals, slots)
  {
    hide Level, Lists, AllSlots, MustMap, Ambiguous, Settles;
    OnlyContainersList(br, v, slots);
    match v
    case Array(items) => ArrayShape(br, items, slots, vals, mapped);
    case Object(fields) => ObjectShape(br, fields, slots, vals, mapped);
    case Map(entries) =>
      NoKeyLost(br, entries, slots, vals, mapped);
      LevelMaps(vals, entries, mapped);
      MapShape(br, entries, slots, vals);
  }

  /** A value that is what its Lua form may convert to comes home. */
  lemma {:induction false} ReturnsOnly(repair: Repair, br: Bridge, v: Value, depth: nat, l: Lua, back: nat)
    requires Settles(br.numbers) && Addressable(v) && Builds(br, v, depth, Some(l)) && Converts(repair, l, back, Some(v))
    ensures ComesHome(br, v) && Fits(v, back)
    decreases v, 1
  {
    if Container(v) {
      TableReturnsOnly(repair, br, v, depth, l, back);
    }
  }

  lemma {:induction false} TableReturnsOnly(repair: Repair, br: Bridge, v: Value, depth: nat, l: Lua, back: nat)
    requires Settles(br.numbers) && Container(v) && Addressable(v)
    requires Builds(br, v, depth, Some(l)) && Converts(repair, l, back, Some(v))
    ensures ComesHome(br, v) && Fits(v, back)
    decreases v, 0
  {
    hide Builds, Converts, ConvertsTable, ComesHome, Fits, Addressable, Lists, Filled, ShapeHome, KeysApart, Settles, KeepsNumber, ValueHeld;
    var slots, ls := BuiltFrom(br, v, depth, l);
    TablesTakeTwo(repair, l, back, v);
    HomeIsChildren(br, v, back, slots);
    ConvertedTable(repair, l, l.pairs, back, Some(v));
    FilledFromSlots(br, slots, ls);
    var vals := ReadBack(repair, br, v, slots, l, l.pairs, back - 2);
    HomeKeys(br, v, slots);
    AssignedAreHeld(br, slots, ls, vals);
    forall i | 0 <= i < |slots|
      ensures ChildHome(br, slots[i].value, back - 2)
    {
      OnlyNullBuildsNil(br, slots[i].value, depth - 1, ls[i]);
      HeldAsBuilt(repair, br, slots[i].value, depth - 1, ls[i], back - 2);
      ReturnsOnly(repair, br, slots[i].value, depth - 1, ls[i], back - 2);
    }
  }

  /** A number read back as itself was held as it was built. */
  lemma HeldAsBuilt(repair: Repair, br: Bridge, c: Value, depth: nat, l: Lua, back: nat)
    requires Builds(br, c, depth, Some(l)) && Converts(repair, ValueHeld(br.numbers, l), back, Some(c))
    ensures KeepsNumber(br, c) && ValueHeld(br.numbers, l) == l
  {
    hide BuildsTable, ConvertsTable;
    if Container(c) {
      TablesAreTables(br, c, depth - 1, l);
    }
  }

  lemma TablesTakeTwo(repair: Repair, l: Lua, depth: nat, v: Value)
    requires l.Table? && Converts(repair, l, depth, Some(v))
    ensures depth >= 2
  {
    hide ConvertsTable;
  }

  lemma AssignedAreHeld(br: Bridge, slots: seq<Slot>, ls: seq<Lua>, vals: map<LuaKey, Value>)
    requires KeysApart(slots) && |slots| == |ls| && AllSlots(vals, slots) && vals.Keys == Filled(br, slots, ls).Keys
    ensures forall i :: 0 <= i < |slots| ==>
              && !ls[i].Nil? && slots[i].key in Filled(br, slots, ls)
              && Filled(br, slots, ls)[slots[i].key] == ValueHeld(br.numbers, ls[i])
  {
    hide Filled, ValueHeld;
    FilledHolds(br, slots, ls);
    forall i | 0 <= i < |slots|
      ensures HoldsSlot(br, Filled(br, slots, ls), slots[i], ls[i]) && slots[i].key in vals.Keys
    {
    }
  }

  /** What the pairs were read as, when the table was read as the container it was built from. */
  lemma ReadBack(repair: Repair, br: Bridge, v: Value, slots: seq<Slot>, l: Lua, pairs: map<LuaKey, Lua>, depth: nat)
    returns (vals: map<LuaKey, Value>)
    requires Settles(br.numbers) && forall k :: k in pairs ==> pairs[k] < l && HasSlot(slots, k)
    requires Addressable(v) && Lists(br, v, slots) && ConvertsTable(repair, l, pairs, depth, Some(v))
    ensures vals.Keys == pairs.Keys && AllSlots(vals, slots) && ShapeHome(br, v)
    ensures forall k :: k in pairs ==> Converts(repair, pairs[k], depth, Some(vals[k]))
  {
    hide Converts, ShapeHome, Addressable, Lists, Level, Folded, MustMap, Ambiguous, AllSlots, Settles;
    var order: seq<LuaKey>;
    order, vals :| Gathered(repair, l, pairs, depth, order, vals) && Some(v) == Folded(order, vals);
    forall k | k in vals
      ensures HasSlot(slots, k)
    {
      assert k in pairs;
      assert HasSlot(slots, k);
    }
    FoldedIsLevel(order, vals);
    LevelShape(br, v, slots, vals, Passed(order, vals).value.entries.Some?);
  }

  /**
  A value built into Lua and read back is the original, in any orders and however the state holds numbers, if
  and only if it comes home and is nested no deeper than reading allows.
  */
  lemma HostRoundTrips(repair: Repair, br: Bridge, v: Value, depth: nat, l: Lua, back: nat, out: Option<Value>)
    requires Settles(br.numbers) && Addressable(v) && Builds(br, v, depth, Some(l)) && Converts(repair, l, back, out)
    ensures out == Some(v) <==> ComesHome(br, v) && Fits(v, back)
  {
    hide Builds, Converts, ComesHome, Fits, Addressable, Settles;
    if ComesHome(br, v) && Fits(v, back) {
      Returns(repair, br, v, depth, l, back);
      assert OnlyReadsAs(repair, l, back, v);
    }
    if out == Some(v) {
      ReturnsOnly(repair, br, v, depth, l, back);
    }
  }

  /** The 64 bits of the double 2.0. */
  const TWO_POINT_ZERO: u64 := 0x4000_0000_0000_0000

  /** An object holding 2.0 comes back holding the integer 2, where a state reads integral doubles as integers. */
  lemma IntegralDoubleWitness(repair: Repair, br: Bridge, x: Str)
    requires br.numbers.ofDouble(TWO_POINT_ZERO) == HeldInteger(2)
    ensures Builds(br, Object(map[x := F64(TWO_POINT_ZERO)]), DEPTH, Some(Table(map[KeyText(x) := Integer(2)])))
    ensures Converts(repair, Table(map[KeyText(x) := Integer(2)]), DEPTH, Some(Object(map[x := I64(2)])))
    ensures !ComesHome(br, Object(map[x := F64(TWO_POINT_ZERO)]))
  {
    OneFieldBuilds(br, x);
    OneFieldConverts(repair, x);
    var fields := map[x := F64(TWO_POINT_ZERO)];
    assert fields[x] == F64(TWO_POINT_ZERO);
  }

  lemma OneFieldBuilds(br: Bridge, x: Str)
    requires br.numbers.ofDouble(TWO_POINT_ZERO) == HeldInteger(2)
    ensures Builds(br, Object(map[x := F64(TWO_POINT_ZERO)]), DEPTH, Some(Table(map[KeyText(x) := Integer(2)])))
  {
    var fields := map[x := F64(TWO_POINT_ZERO)];
    var v := Object(fields);
    FieldsListed(br, fields, [x]);
    var slots, ls := FieldSlots(fields, [x]), [Lua.Number(TWO_POINT_ZERO)];
    assert slots == [Slot(KeyText(x), F64(TWO_POINT_ZERO))];
    assert fields[x] < v;
    assert Built(br, v, DEPTH - 1, slots, ls);
    assert slots[..0] == [] && ls[..0] == [];
    assert Filled(br, slots, ls) == map[KeyText(x) := Integer(2)];
    AllSlotsBuilt(br, v, DEPTH - 1, slots, ls);
  }

  lemma OneFieldConverts(repair: Repair, x: Str)
    ensures Converts(repair, Table(map[KeyText(x) := Integer(2)]), DEPTH, Some(Object(map[x := I64(2)])))
  {
    var pairs := map[KeyText(x) := Integer(2)];
    var l := Table(pairs);
    var vals: map<LuaKey, Value> := map[KeyText(x) := I64(2)];
    assert vals.Keys == pairs.Keys == {KeyText(x)};
    assert pairs[KeyText(x)] < l;
    assert Gathered(repair, l, pairs, DEPTH - 2, [KeyText(x)], vals);
    FoldedIsLevel([KeyText(x)], vals);
    TextsOnly(map[x := I64(2)], vals);
    OrderDoesNotMatter([KeyText(x)], [KeyText(x)], vals);
    TableConverts(repair, l, pairs, DEPTH, Some(Object(map[x := I64(2)])));
  }

  /** Two keys the state rounds to one integer become one key, so no map with both ever comes back. */
  lemma WideKeysWitness(repair: Repair, br: Bridge, entries: map<MapKey, Value>, depth: nat, l: Lua,
                        back: nat, out: Option<Value>)
    requires br.repr == AsInteger && Settles(br.numbers) && Addressable(Map(entries))
    requires br.numbers.ofInteger(0x20_0000_0000_0001) == br.numbers.ofInteger(0x20_0000_0000_0000) == HeldInteger(0x20_0000_0000_0000)
    requires KeyU64(0x20_0000_0000_0000) in entries && KeyU64(0x20_0000_0000_0001) in entries
    requires Builds(br, Map(entries), depth, Some(l)) && Converts(repair, l, back, out)
    ensures KeyOut(br, KeyU64(0x20_0000_0000_0001)) == KeyOut(br, KeyU64(0x20_0000_0000_0000))
    ensures out != Some(Map(entries))
  {
    hide Builds, Converts, Addressable, Settles, Fits, NeedsMap;
    assert !KeyComesHome(br, KeyU64(0x20_0000_0000_0001));
    HostRoundTrips(repair, br, Map(entries), depth, l, back, out);
  }

  /** There are states of every kind the witnesses speak of. */
  lemma SomeStates() returns (exact: Numbers, doubles: Numbers)
    ensures Settles(exact) && forall i, f {:trigger exact.ofInteger(i), exact.ofDouble(f)} ::
              exact.ofInteger(i) == HeldInteger(i) && exact.ofDouble(f) == HeldNumber(f)
    ensures Settles(doubles) && doubles.ofDouble(TWO_POINT_ZERO) == HeldInteger(2)
    ensures doubles.ofInteger(0x20_0000_0000_0001) == doubles.ofInteger(0x20_0000_0000_0000) == HeldInteger(0x20_0000_0000_0000)
  {
    exact := Numbers((i: i64) => HeldInteger(i), (f: u64) => HeldNumber(f));
    doubles := Numbers((i: i64) => HeldInteger(if i == 0x20_0000_0000_0001 then 0x20_0000_0000_0000 else i),
                       (f: u64) => if f == TWO_POINT_ZERO then HeldInteger(2) else HeldNumber(f));
  }
}
