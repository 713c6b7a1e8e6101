/** What a script finds in the Lua value a host value becomes, whatever order the host's maps were visited in. */
module LuaForms {
  import opened Wrappers
  import opened Words
  import opened Values
  import opened Coercion
  import opened Sets
  import opened LuaTables
  import opened LuaBridge
  import opened LuaRoundTrip
  import opened HostRoundTrip

  /** Where a container holds a value. */
  datatype Place = AtIndex(index: nat) | AtName(name: Str) | AtKey(key: MapKey)

  ghost predicate HeldAt(v: Value, p: Place, c: Value) {
    match v
    case Array(items) => p.AtIndex? && p.index < |items| && items[p.index] == c
    case Object(fields) => p.AtName? && p.name in fields && fields[p.name] == c
    case Map(entries) => p.AtKey? && p.key in entries && entries[p.key] == c
    case _ => false
  }

  /** An index counts from 1, names are text, integer keys are integers or their decimal text. */
  ghost predicate FoundUnder(br: Bridge, p: Place, k: LuaKey) {
    match p
    case AtIndex(i) => i + 1 < 0x8000_0000_0000_0000 && k == KeyHeld(br.numbers, KeyInt(i + 1))
    case AtName(s) => k == KeyText(s)
    case AtKey(KeyBool(b)) => k == KeyFlag(b)
    case AtKey(KeyString(s)) => k == KeyText(s)
    case AtKey(KeyI64(i)) =>
      if br.repr == AsInteger then k == KeyHeld(br.numbers, KeyInt(i)) else k.KeyText? && DecimalOf(k.text, i)
    case AtKey(KeyU64(u)) =>
      if br.repr == AsInteger && u < 0x8000_0000_0000_0000 then k == KeyHeld(br.numbers, KeyInt(u))
      else k.KeyText? && DecimalOf(k.text, u)
  }

  /** Scalars are themselves; integers, where they are text or too large for Lua, their decimal text; bytes are kept. */
  ghost predicate ScalarFound(br: Bridge, v: Value, l: Lua) {
    match v
    case Null => l == Nil
    case Bool(b) => l == Boolean(b)
    case I64(i) => if br.repr == AsInteger then l == Integer(i) else l.Text? && DecimalOf(l.bytes, i)
    case U64(u) =>
      if br.repr == AsInteger && u < 0x8000_0000_0000_0000 then l == Integer(u) else l.Text? && DecimalOf(l.bytes, u)
    case F64(f) => l == Lua.Number(f)
    case String(s) => l == Text(s)
    case Bytes(b) => l == Text(b)
    case _ => false
  }

  /** A pair of the table holds some value of the container, in the form the state holds it. */
  ghost predicate PairFound(br: Bridge, v: Value, k: LuaKey, held: Lua)
    decreases v, 0
  {
    exists p, c, l: Lua :: HeldAt(v, p, c) && c < v && FoundUnder(br, p, k) && !l.Nil? && Found(br, c, l) && held == ValueHeld(br.numbers, l)
  }

  /** No other value of the container goes under the key. */
  ghost predicate Alone(br: Bridge, v: Value, p: Place, k: LuaKey) {
    forall q, d :: HeldAt(v, q, d) && FoundUnder(br, q, k) ==> q == p
  }

  ghost predicate Found(br: Bridge, v: Value, l: Lua)
    decreases v, 1
  {
    if !Container(v) then ScalarFound(br, v, l)
    else
      && l.Table?
      && (forall k :: k in l.pairs ==> PairFound(br, v, k, l.pairs[k]))
      && forall p, c, k :: HeldAt(v, p, c) && !c.Null? && FoundUnder(br, p, k) && Alone(br, v, p, k) ==> k in l.pairs
  }

  lemma ScalarIsFound(br: Bridge, v: Value, depth: nat, l: Lua)
    requires !Container(v) && Builds(br, v, depth, Some(l))
    ensures Found(br, v, l)
  {
    hide BuildsTable, DecimalOf, ShowInt, ShowNat;
    match v
    case I64(i) => ShownIsDecimal(i);
    case U64(u) => ShownNatIsDecimal(u);
    case _ =>
  }

  lemma KeyIsFound(br: Bridge, k: MapKey)
    ensures FoundUnder(br, AtKey(k), KeyOut(br, k))
  {
    hide DecimalOf, ShowInt, ShowNat;
    match k
    case KeyI64(i) => ShownIsDecimal(i);
    case KeyU64(u) => ShownNatIsDecimal(u);
    case _ =>
  }

  /** Every slot of a container holds a value of it, under a key it is found under. */
  ghost predicate SlotPlaced(br: Bridge, v: Value, p: Place, slot: Slot) {
    HeldAt(v, p, slot.value) && FoundUnder(br, p, slot.key)
  }

  /** Every slot has its place, every place its slot. */
  ghost predicate AllPlaced(br: Bridge, v: Value, slots: seq<Slot>, places: seq<Place>) {
    && |places| == |slots|
    && (forall i :: 0 <= i < |slots| ==> SlotPlaced(br, v, places[i], slots[i]))
    && (forall i, j :: 0 <= i < j < |places| ==> places[i] != places[j])
    && forall p, c :: HeldAt(v, p, c) ==> p in places
  }

  lemma SlotsArePlaced(br: Bridge, v: Value, slots: seq<Slot>) returns (places: seq<Place>)
    requires Addressable(v) && Lists(br, v, slots)
    ensures AllPlaced(br, v, slots, places)
  {
    assert Container(v);
    hide Lists, AllPlaced;
    match v
    case Array(items) => places := ItemsArePlaced(br, v, items, slots);
    case Object(fields) => places := FieldsArePlaced(br, v, fields, slots);
    case Map(entries) => places := EntriesArePlaced(br, v, entries, slots);
  }

  lemma ItemsArePlaced(br: Bridge, v: Value, items: seq<Value>, slots: seq<Slot>) returns (places: seq<Place>)
    requires v == Array(items) && |items| < TWO_63 && Lists(br, v, slots)
    ensures AllPlaced(br, v, slots, places)
  {
    places := seq(|items|, (i: nat) => AtIndex(i));
    forall p, c | HeldAt(v, p, c)
      ensures p in places
    {
      assert places[p.index] == p;
    }
  }

  lemma FieldsArePlaced(br: Bridge, v: Value, fields: map<Str, Value>, slots: seq<Slot>) returns (places: seq<Place>)
    requires v == Object(fields) && Lists(br, v, slots)
    ensures AllPlaced(br, v, slots, places)
  {
    hide HeldAt, FoundUnder, SlotPlaced;
    var order: seq<Str> :| ListsOnce(order, fields.Keys) && |slots| == |order|
      && forall i :: 0 <= i < |order| ==> slots[i] == Slot(KeyText(order[i]), fields[order[i]]);
    hide Lists;
    places := seq(|order|, i requires 0 <= i < |order| => AtName(order[i]));
    forall i | 0 <= i < |slots|
      ensures SlotPlaced(br, v, places[i], slots[i])
    {
      assert order[i] in fields.Keys;
      FieldPlaced(br, fields, order[i]);
    }
    EveryNamePlaced(v, order, places);
  }

  lemma FieldPlaced(br: Bridge, fields: map<Str, Value>, name: Str)
    requires name in fields
    ensures SlotPlaced(br, Object(fields), AtName(name), Slot(KeyText(name), fields[name]))
  {
  }

  lemma EveryNamePlaced(v: Value, order: seq<Str>, places: seq<Place>)
    requires v.Object? && ListsOnce(order, v.fields.Keys) && |places| == |order|
    requires forall i :: 0 <= i < |order| ==> places[i] == AtName(order[i])
    ensures forall p, c :: HeldAt(v, p, c) ==> p in places
  {
    forall p, c | HeldAt(v, p, c)
      ensures p in places
    {
      assert p.name in order;
      var i :| 0 <= i < |order| && order[i] == p.name;
      assert places[i] == p;
    }
  }

  lemma EveryKeyPlaced(v: Value, order: seq<MapKey>, places: seq<Place>)
    requires v.Map? && ListsOnce(order, v.entries.Keys) && |places| == |order|
    requires forall i :: 0 <= i < |order| ==> places[i] == AtKey(order[i])
    ensures forall p, c :: HeldAt(v, p, c) ==> p in places
  {
    forall p, c | HeldAt(v, p, c)
      ensures p in places
    {
      assert p.key in order;
      var i :| 0 <= i < |order| && order[i] == p.key;
      assert places[i] == p;
    }
  }

  lemma EntryPlaced(br: Bridge, entries: map<MapKey, Value>, k: MapKey)
    requires k in entries
    ensures SlotPlaced(br, Map(entries), AtKey(k), Slot(KeyOut(br, k), entries[k]))
  {
    hide KeyOut, FoundUnder;
    KeyIsFound(br, k);
  }

  lemma EntriesArePlaced(br: Bridge, v: Value, entries: map<MapKey, Value>, slots: seq<Slot>) returns (places: seq<Place>)
    requires v == Map(entries) && Lists(br, v, slots)
    ensures AllPlaced(br, v, slots, places)
  {
    hide KeyOut, FoundUnder, HeldAt, SlotPlaced;
    var order: seq<MapKey> :| ListsOnce(order, entries.Keys) && |slots| == |order|
      && forall i :: 0 <= i < |order| ==> slots[i] == Slot(KeyOut(br, order[i]), entries[order[i]]);
    hide Lists;
    places := seq(|order|, i requires 0 <= i < |order| => AtKey(order[i]));
    forall i | 0 <= i < |slots|
      ensures SlotPlaced(br, v, places[i], slots[i])
    {
      assert order[i] in entries.Keys;
      EntryPlaced(br, entries, order[i]);
    }
    EveryKeyPlaced(v, order, places);
  }

  /** What a table holds under a key was assigned by a slot of that key, and was not nil. */
  lemma {:induction false} FilledFrom(br: Bridge, slots: seq<Slot>, ls: seq<Lua>, k: LuaKey) returns (i: nat)
    requires |slots| == |ls| && k in Filled(br, slots, ls)
    ensures i < |slots| && slots[i].key == k && !ls[i].Nil? && Filled(br, slots, ls)[k] == ValueHeld(br.numbers, ls[i])
    decreases |slots|
  {
    hide ValueHeld;
    var last := |slots| - 1;
    if slots[last].key == k {
      i := last;
    } else {
      i := FilledFrom(br, slots[..last], ls[..last], k);
    }
  }

  /** A slot whose key no other slot has leaves its value, unless it is nil. */
  lemma {:induction false} AloneStays(br: Bridge, slots: seq<Slot>, ls: seq<Lua>, i: nat)
    requires |slots| == |ls| && i < |slots| && !ls[i].Nil?
    requires forall j :: 0 <= j < |slots| && j != i ==> slots[j].key != slots[i].key
    ensures slots[i].key in Filled(br, slots, ls)
    decreases |slots|
  {
    hide ValueHeld;
    var last := |slots| - 1;
    if i < last {
      AloneStays(br, slots[..last], ls[..last], i);
    }
  }

  lemma PlacedAddressable(br: Bridge, v: Value, p: Place, slot: Slot)
    requires Addressable(v) && SlotPlaced(br, v, p, slot)
    ensures Addressable(slot.value)
  {
    hide FoundUnder;
  }

  lemma OnlyNullIsNil(br: Bridge, c: Value, l: Lua)
    requires Found(br, c, l)
    ensures l.Nil? ==> c.Null?
  {
  }

  lemma BuiltSlots(br: Bridge, v: Value, depth: nat, l: Lua) returns (slots: seq<Slot>, ls: seq<Lua>)
    requires Container(v) && Builds(br, v, depth, Some(l))
    ensures |slots| == |ls| && Lists(br, v, slots) && depth > 0 && l == Table(Filled(br, slots, ls))
    ensures forall i :: 0 <= i < |slots| ==> slots[i].value < v && Builds(br, slots[i].value, depth - 1, Some(ls[i]))
  {
    assert depth > 0 && BuildsTable(br, v, depth - 1, Some(l));
    hide Builds, Lists, Filled;
    slots, ls :| |slots| == |ls| && Lists(br, v, slots) && Built(br, v, depth - 1, slots, ls) && Some(l) == Some(Table(Filled(br, slots, ls)));
  }

  /** Whatever `value_to_lua` makes of a value, a script finds the value in it. */
  lemma {:induction false} BuiltIsFound(br: Bridge, v: Value, depth: nat, l: Lua)
    requires Addressable(v) && Builds(br, v, depth, Some(l))
    ensures Found(br, v, l)
    decreases v, 1
  {
    hide *;
    if !Container(v) {
      ScalarIsFound(br, v, depth, l);
    } else {
      var slots, ls := BuiltSlots(br, v, depth, l);
      var places := SlotsArePlaced(br, v, slots);
      SlotsAreFound(br, v, depth - 1, slots, ls, places);
      TableIsFound(br, v, slots, ls, places);
    }
  }

  lemma {:induction false} SlotsAreFound(br: Bridge, v: Value, depth: nat, slots: seq<Slot>, ls: seq<Lua>, places: seq<Place>)
    requires Addressable(v) && |slots| == |ls| && AllPlaced(br, v, slots, places)
    requires forall i :: 0 <= i < |slots| ==> slots[i].value < v && Builds(br, slots[i].value, depth, Some(ls[i]))
    ensures forall i :: 0 <= i < |slots| ==> Found(br, slots[i].value, ls[i])
    decreases v, 0
  {
    hide Builds, Found, Addressable, SlotPlaced, HeldAt;
    forall i | 0 <= i < |slots|
      ensures Found(br, slots[i].value, ls[i])
    {
      PlacedAddressable(br, v, places[i], slots[i]);
      BuiltIsFound(br, slots[i].value, depth, ls[i]);
    }
  }

  lemma TableIsFound(br: Bridge, v: Value, slots: seq<Slot>, ls: seq<Lua>, places: seq<Place>)
    requires Container(v) && |slots| == |ls| && AllPlaced(br, v, slots, places)
    requires forall i :: 0 <= i < |slots| ==> slots[i].value < v && Found(br, slots[i].value, ls[i])
    ensures Found(br, v, Table(Filled(br, slots, ls)))
  {
    hide HeldAt, FoundUnder, Filled, ScalarFound;
    var t := Filled(br, slots, ls);
    forall k | k in t
      ensures PairFound(br, v, k, t[k])
    {
      var i := FilledFrom(br, slots, ls, k);
      assert SlotPlaced(br, v, places[i], slots[i]) && Found(br, slots[i].value, ls[i]);
    }
    forall p, c, k | HeldAt(v, p, c) && !c.Null? && FoundUnder(br, p, k) && Alone(br, v, p, k)
      ensures k in t
    {
      PlaceIsKept(br, v, slots, ls, places, p, c, k);
    }
  }

  lemma PlaceIsKept(br: Bridge, v: Value, slots: seq<Slot>, ls: seq<Lua>, places: seq<Place>, p: Place, c: Value, k: LuaKey)
    requires |places| == |slots| == |ls|
    requires forall i :: 0 <= i < |slots| ==> SlotPlaced(br, v, places[i], slots[i]) && Found(br, slots[i].value, ls[i])
    requires forall i, j :: 0 <= i < j < |places| ==> places[i] != places[j]
    requires p in places && HeldAt(v, p, c) && !c.Null? && FoundUnder(br, p, k) && Alone(br, v, p, k)
    ensures k in Filled(br, slots, ls)
  {
    hide Found, Filled;
    var i :| 0 <= i < |places| && places[i] == p;
    assert SlotPlaced(br, v, places[i], slots[i]);
    assert slots[i].value == c;
    FoundUnderOnce(br, p, k, slots[i].key);
    OnlyNullIsNil(br, c, ls[i]);
    forall j | 0 <= j < |slots| && j != i
      ensures slots[j].key != k
    {
      assert SlotPlaced(br, v, places[j], slots[j]);
    }
    AloneStays(br, slots, ls, i);
  }

  /** A place has one key. */
  lemma FoundUnderOnce(br: Bridge, p: Place, a: LuaKey, b: LuaKey)
    requires FoundUnder(br, p, a) && FoundUnder(br, p, b)
    ensures a == b
  {
    hide DecimalOf;
    if p.AtKey? && a.KeyText? && b.KeyText? {
      match p.key
      case KeyI64(i) => DecimalIsUnique(a.text, b.text, i);
      case KeyU64(u) => DecimalIsUnique(a.text, b.text, u);
      case _ =>
    }
  }
}
