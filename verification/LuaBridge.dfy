/**
Values between Lua and the host: `lua_to_value` and `value_to_lua`. A table is visited in its own
unspecified order, so what either may return is a relation, true of every order of every table.
*/
module LuaBridge {
  import opened Wrappers
  import opened Words
  import opened Values
  import opened Sets
  import opened LuaTables

  /** A Lua value; a string is any bytes, and `Opaque` is a function, thread or userdata. */
  datatype Lua =
    | Nil
    | Boolean(flag: bool)
    | Integer(signed: i64)
    | Number(bits: u64)
    | Text(bytes: seq<byte>)
    | Table(pairs: map<LuaKey, Lua>)
    | Opaque(id: nat)

  /** Replaces malformed text, as `to_string_lossy` does. */
  type Repair = seq<byte> -> Str

  function TextOf(repair: Repair, s: seq<byte>): Str {
    if ValidUtf8(s) then s else repair(s)
  }

  const DEPTH: nat := 64

  // ------------------------------------------------------------------ Lua to value

  /** `lua_to_value_inner` may return `out` (nothing being an error) within `depth`. */
  ghost predicate Converts(repair: Repair, v: Lua, depth: nat, out: Option<Value>)
    decreases v, 2
  {
    if depth == 0 then out == None
    else match v
      case Nil => out == Some(Null)
      case Boolean(b) => out == Some(Bool(b))
      case Integer(i) => out == Some(I64(i))
      case Number(f) => out == Some(F64(f))
      case Text(s) => out == Some(String(TextOf(repair, s)))
      case Table(pairs) => if depth == 1 then out == None else ConvertsTable(repair, v, pairs, depth - 2, out)
      case Opaque(_) => out == None
  }

  /** A table's pairs are converted within `depth` and collected in some order. */
  ghost predicate ConvertsTable(repair: Repair, parent: Lua, pairs: map<LuaKey, Lua>, depth: nat, out: Option<Value>)
    requires forall k :: k in pairs ==> pairs[k] < parent
    decreases parent, 1
  {
    || (out == None && exists k :: k in pairs && Converts(repair, pairs[k], depth, None))
    || exists order: seq<LuaKey>, vals: map<LuaKey, Value> ::
         Gathered(repair, parent, pairs, depth, order, vals) && out == Folded(order, vals)
  }

  /** `vals` are what the pairs may be converted to, and `order` lists their keys. */
  ghost predicate Gathered(repair: Repair, parent: Lua, pairs: map<LuaKey, Lua>, depth: nat,
                           order: seq<LuaKey>, vals: map<LuaKey, Value>)
    requires forall k :: k in pairs ==> pairs[k] < parent
    decreases parent, 0
  {
    && vals.Keys == pairs.Keys && ListsOnce(order, vals.Keys)
    && forall k :: k in pairs ==> Converts(repair, pairs[k], depth, Some(vals[k]))
  }

  /** A pass in progress: the pairs visited so far, in their order, and what it has made of them. */
  ghost predicate Visited(repair: Repair, pairs: map<LuaKey, Lua>, depth: nat,
                          order: seq<LuaKey>, vals: map<LuaKey, Value>, todo: set<LuaKey>, pass: Pass) {
    && vals.Keys == pairs.Keys - todo && todo <= pairs.Keys
    && ListsOnce(order, vals.Keys)
    && (forall k :: k in vals ==> Converts(repair, pairs[k], depth, Some(vals[k])))
    && Passed(order, vals) == Some(pass)
  }

  method LuaToValue(repair: Repair, v: Lua) returns (out: Option<Value>)
    ensures Converts(repair, v, 64, out)
  {
    out := LuaToValueInner(repair, v, DEPTH);
  }

  method LuaToValueInner(repair: Repair, v: Lua, depth: nat) returns (out: Option<Value>)
    ensures Converts(repair, v, depth, out)
    decreases v, 1
  {
    if depth == 0 {
      return None;
    }
    match v {
      case Nil => return Some(Null);
      case Boolean(b) => return Some(Bool(b));
      case Integer(i) => return Some(I64(i));
      case Number(f) => return Some(F64(f));
      case Text(s) => return Some(String(TextOf(repair, s)));
      case Table(pairs) =>
        if depth == 1 {
          return None;
        }
        out := TableToValue(repair, v, pairs, depth - 1);
      case Opaque(_) => return None;
    }
  }

  method TableToValue(repair: Repair, parent: Lua, pairs: map<LuaKey, Lua>, depth: nat) returns (out: Option<Value>)
    requires depth > 0 && forall k :: k in pairs ==> pairs[k] < parent
    ensures ConvertsTable(repair, parent, pairs, depth - 1, out)
    decreases parent, 0
  {
    hide Converts, ConvertsTable, Visited, Step, Finish;
    var pass := FRESH;
    var todo := pairs.Keys;
    ghost var order: seq<LuaKey> := [];
    ghost var vals: map<LuaKey, Value> := map[];
    VisitNone(repair, pairs, depth - 1);
    while todo != {}
      invariant todo <= pairs.Keys
      invariant Visited(repair, pairs, depth - 1, order, vals, todo, pass) && Sized(pass)
      decreases |todo|
    {
      var k :| k in todo;
      ghost var rest := todo;
      todo := todo - {k};
      assert rest == todo + {k};
      var converted := LuaToValueInner(repair, pairs[k], depth - 1);
      if converted.None? {
        OneFails(repair, parent, pairs, depth - 1, k);
        return None;
      }
      VisitOne(repair, pairs, depth - 1, order, vals, todo, k, converted.value, pass);
      var step := Step(pass, k, converted.value);
      order, vals := order + [k], vals[k := converted.value];
      pass := step.value;
    }
    out := Finish(pass);
    VisitedAll(repair, parent, pairs, depth - 1, order, vals, pass);
  }

  lemma VisitNone(repair: Repair, pairs: map<LuaKey, Lua>, depth: nat)
    ensures Visited(repair, pairs, depth, [], map[], pairs.Keys, FRESH)
  {
  }

  /** Visiting one more pair continues the pass; it never fails there. */
  lemma VisitOne(repair: Repair, pairs: map<LuaKey, Lua>, depth: nat, order: seq<LuaKey>, vals: map<LuaKey, Value>,
                 todo: set<LuaKey>, k: LuaKey, v: Value, pass: Pass)
    requires Visited(repair, pairs, depth, order, vals, todo + {k}, pass) && k in pairs && k !in todo && Sized(pass)
    requires Converts(repair, pairs[k], depth, Some(v))
    ensures Step(pass, k, v).Some?
    ensures Visited(repair, pairs, depth, order + [k], vals[k := v], todo, Step(pass, k, v).value)
  {
    hide Converts, Step, Passed, ListsOnce;
    assert k !in vals;
    PassOneMore(order, vals, k, v);
    assert vals[k := v].Keys == vals.Keys + {k};
    assert vals.Keys == pairs.Keys - (todo + {k});
    assert vals[k := v].Keys == pairs.Keys - todo;
  }

  lemma VisitedAll(repair: Repair, parent: Lua, pairs: map<LuaKey, Lua>, depth: nat,
                   order: seq<LuaKey>, vals: map<LuaKey, Value>, pass: Pass)
    requires forall k :: k in pairs ==> pairs[k] < parent
    requires Visited(repair, pairs, depth, order, vals, {}, pass)
    ensures ConvertsTable(repair, parent, pairs, depth, Finish(pass))
  {
    hide Converts, Finish;
    assert Gathered(repair, parent, pairs, depth, order, vals);
    assert Folded(order, vals) == Finish(pass);
  }

  lemma OneFails(repair: Repair, parent: Lua, pairs: map<LuaKey, Lua>, depth: nat, k: LuaKey)
    requires forall k :: k in pairs ==> pairs[k] < parent
    requires k in pairs && Converts(repair, pairs[k], depth, None)
    ensures ConvertsTable(repair, parent, pairs, depth, None)
  {
    hide Converts;
  }

  // ------------------------------------------------------- what can go wrong, exactly

  /** The conversion fails, in every order. */
  ghost predicate Fails(v: Lua, depth: nat)
    decreases v
  {
    || depth == 0
    || match v
       case Opaque(_) => true
       case Table(pairs) =>
         depth == 1
         || (exists k :: k in pairs && Fails(pairs[k], depth - 2))
         || (OnlyPositive(pairs.Keys) && !Contiguous(pairs.Keys))
       case _ => false
  }

  /** No table inside has keys whose order matters, leaving out what fails or is dropped anyway. */
  ghost predicate Determined(v: Lua, depth: nat)
    decreases v
  {
    Fails(v, depth)
    || (v.Table? ==>
          && !Ambiguous(v.pairs.Keys)
          && (Kept(v.pairs.Keys) ==> forall k :: k in v.pairs && Storable(k) ==> Determined(v.pairs[k], depth - 2)))
  }

  /** A level fails only as a list with gaps. */
  lemma LevelFails(m: map<LuaKey, Value>, mapped: bool)
    requires mapped ==> MustMap(m.Keys) || Ambiguous(m.Keys)
    ensures Level(m, mapped).None? <==> OnlyPositive(m.Keys) && !Contiguous(m.Keys)
  {
  }

  lemma FoldFails(order: seq<LuaKey>, vals: map<LuaKey, Value>)
    requires ListsOnce(order, vals.Keys)
    ensures Folded(order, vals).None? <==> OnlyPositive(vals.Keys) && !Contiguous(vals.Keys)
  {
    hide Level, Folded;
    FoldedIsLevel(order, vals);
    LevelFails(vals, Passed(order, vals).value.entries.Some?);
  }

  /** Failure never depends on the order: a conversion fails exactly when `Fails`. */
  lemma {:induction false} FailsExactly(repair: Repair, v: Lua, depth: nat, out: Option<Value>)
    requires Converts(repair, v, depth, out)
    ensures out.None? <==> Fails(v, depth)
    decreases v, 1
  {
    if v.Table? && depth >= 2 {
      TableFailsExactly(repair, v, v.pairs, depth - 2, out);
    }
  }

  lemma {:induction false} TableFailsExactly(repair: Repair, v: Lua, pairs: map<LuaKey, Lua>, depth: nat, out: Option<Value>)
    requires forall k :: k in pairs ==> pairs[k] < v
    requires ConvertsTable(repair, v, pairs, depth, out)
    ensures out.None? <==>
            (exists k :: k in pairs && Fails(pairs[k], depth)) || (OnlyPositive(pairs.Keys) && !Contiguous(pairs.Keys))
    decreases v, 0
  {
    hide Contiguous, OnlyPositive, Folded, Converts, Fails;
    if out == None && exists k :: k in pairs && Converts(repair, pairs[k], depth, None) {
      var k :| k in pairs && Converts(repair, pairs[k], depth, None);
      FailsExactly(repair, pairs[k], depth, None);
    } else {
      var order: seq<LuaKey>, vals: map<LuaKey, Value> :|
        Gathered(repair, v, pairs, depth, order, vals) && out == Folded(order, vals);
      FoldFails(order, vals);
      forall k | k in pairs
        ensures !Fails(pairs[k], depth)
      {
        FailsExactly(repair, pairs[k], depth, Some(vals[k]));
      }
    }
  }

  // -------------------------------------------------- when the order matters, exactly

  lemma {:induction false} SomeOutcome(repair: Repair, v: Lua, depth: nat) returns (out: Option<Value>)
    ensures Converts(repair, v, depth, out)
    decreases v, 1
  {
    hide ConvertsTable;
    if depth == 0 || v.Opaque? || (v.Table? && depth == 1) {
      out := None;
    } else {
      match v {
        case Nil => out := Some(Null);
        case Boolean(b) => out := Some(Bool(b));
        case Integer(i) => out := Some(I64(i));
        case Number(f) => out := Some(F64(f));
        case Text(s) => out := Some(String(TextOf(repair, s)));
        case Table(pairs) =>
          out := SomeTableOutcome(repair, v, pairs, depth - 2);
      }
    }
  }

  lemma {:induction false} SomeTableOutcome(repair: Repair, v: Lua, pairs: map<LuaKey, Lua>, depth: nat) returns (out: Option<Value>)
    requires forall k :: k in pairs ==> pairs[k] < v
    ensures ConvertsTable(repair, v, pairs, depth, out)
    decreases v, 0, 1
  {
    hide Converts, Fails;
    if k :| k in pairs && Fails(pairs[k], depth) {
      var o := SomeOutcome(repair, pairs[k], depth);
      FailsExactly(repair, pairs[k], depth, o);
      OneFails(repair, v, pairs, depth, k);
      out := None;
    } else {
      var vals := SomeValues(repair, v, pairs, depth);
      var order := SomeList(vals.Keys);
      out := SomeTable(repair, v, pairs, depth, order, vals);
    }
  }

  lemma SomeTable(repair: Repair, v: Lua, pairs: map<LuaKey, Lua>, depth: nat, order: seq<LuaKey>, vals: map<LuaKey, Value>)
    returns (out: Option<Value>)
    requires forall k :: k in pairs ==> pairs[k] < v
    requires Gathered(repair, v, pairs, depth, order, vals)
    ensures ConvertsTable(repair, v, pairs, depth, out)
  {
    out := Folded(order, vals);
  }

  lemma {:induction false} SomeValues(repair: Repair, parent: Lua, pairs: map<LuaKey, Lua>, depth: nat)
    returns (vals: map<LuaKey, Value>)
    requires forall k :: k in pairs ==> pairs[k] < parent && !Fails(pairs[k], depth)
    ensures vals.Keys == pairs.Keys && forall k :: k in pairs ==> Converts(repair, pairs[k], depth, Some(vals[k]))
    decreases parent, 0, 0
  {
    hide Converts, Fails;
    forall k | k in pairs
      ensures exists x :: Converts(repair, pairs[k], depth, Some(x))
    {
      var o := SomeOutcome(repair, pairs[k], depth);
      FailsExactly(repair, pairs[k], depth, o);
      assert o == Some(o.value);
    }
    vals := map k | k in pairs :: (var x :| Converts(repair, pairs[k], depth, Some(x)); x);
  }

  /** A determined tree has one outcome, whatever orders its tables are visited in. */
  lemma {:induction false} DeterminedIsUnique(repair: Repair, v: Lua, depth: nat, one: Option<Value>, two: Option<Value>)
    requires Determined(v, depth) && Converts(repair, v, depth, one) && Converts(repair, v, depth, two)
    ensures one == two
    decreases v, 1
  {
    FailsExactly(repair, v, depth, one);
    FailsExactly(repair, v, depth, two);
    if !Fails(v, depth) && v.Table? {
      TableIsUnique(repair, v, v.pairs, depth - 2, one, two);
    }
  }

  lemma {:induction false} TableIsUnique(repair: Repair, v: Lua, pairs: map<LuaKey, Lua>, depth: nat,
                                         one: Option<Value>, two: Option<Value>)
    requires forall k :: k in pairs ==> pairs[k] < v && !Fails(pairs[k], depth)
    requires !Ambiguous(pairs.Keys)
    requires Kept(pairs.Keys) ==> forall k :: k in pairs && Storable(k) ==> Determined(pairs[k], depth)
    requires ConvertsTable(repair, v, pairs, depth, one) && ConvertsTable(repair, v, pairs, depth, two)
    ensures one == two
    decreases v, 0
  {
    hide Determined, Converts, ConvertsTable, Fails, Level, Folded, Ambiguous, Kept, MustMap;
    var order1, vals1 := GatheredFrom(repair, v, pairs, depth, one);
    var order2, vals2 := GatheredFrom(repair, v, pairs, depth, two);
    if Kept(pairs.Keys) {
      forall k | k in pairs && Storable(k)
        ensures vals1[k] == vals2[k]
      {
        DeterminedIsUnique(repair, pairs[k], depth, Some(vals1[k]), Some(vals2[k]));
      }
    }
    LevelsAgree(vals1, vals2);
    OrderDoesNotMatter(order1, order1, vals1);
    OrderDoesNotMatter(order2, order2, vals2);
  }

  lemma GatheredFrom(repair: Repair, v: Lua, pairs: map<LuaKey, Lua>, depth: nat, out: Option<Value>)
    returns (order: seq<LuaKey>, vals: map<LuaKey, Value>)
    requires forall k :: k in pairs ==> pairs[k] < v && !Fails(pairs[k], depth)
    requires ConvertsTable(repair, v, pairs, depth, out)
    ensures Gathered(repair, v, pairs, depth, order, vals) && out == Folded(order, vals)
  {
    hide Converts, Fails, Folded;
    if k :| k in pairs && Converts(repair, pairs[k], depth, None) {
      FailsExactly(repair, pairs[k], depth, None);
    }
    order, vals :| Gathered(repair, v, pairs, depth, order, vals) && out == Folded(order, vals);
  }

  /** Any other tree has two. */
  lemma {:induction false} UndeterminedHasTwo(repair: Repair, v: Lua, depth: nat)
    returns (one: Option<Value>, two: Option<Value>)
    requires !Determined(v, depth)
    ensures Converts(repair, v, depth, one) && Converts(repair, v, depth, two) && one != two
    decreases v
  {
    hide Determined, Converts, ConvertsTable, Fails, Ambiguous, Kept, OnlyPositive, Contiguous;
    UndeterminedTable(v, depth);
    var pairs := v.pairs;
    if Ambiguous(pairs.Keys) {
      one, two := AmbiguousOutcomes(repair, v, pairs, depth - 2);
    } else {
      var k :| k in pairs && Storable(k) && !Determined(pairs[k], depth - 2);
      var x, y := UndeterminedHasTwo(repair, pairs[k], depth - 2);
      one, two := TwoOutcomes(repair, v, pairs, depth - 2, k, x, y);
    }
    TableConverts(repair, v, v.pairs, depth, one);
    TableConverts(repair, v, v.pairs, depth, two);
  }

  /** What is left when a tree is not determined. */
  lemma UndeterminedTable(v: Lua, depth: nat)
    requires !Determined(v, depth)
    ensures v.Table? && depth >= 2
    ensures forall k :: k in v.pairs ==> v.pairs[k] < v && !Fails(v.pairs[k], depth - 2)
    ensures !(OnlyPositive(v.pairs.Keys) && !Contiguous(v.pairs.Keys))
    ensures !Ambiguous(v.pairs.Keys) ==>
              Kept(v.pairs.Keys) && exists k :: k in v.pairs && Storable(k) && !Determined(v.pairs[k], depth - 2)
  {
    hide OnlyPositive, Contiguous, Ambiguous, Kept;
  }

  lemma TableConverts(repair: Repair, v: Lua, pairs: map<LuaKey, Lua>, depth: nat, out: Option<Value>)
    requires v == Table(pairs) && depth >= 2 && forall k :: k in pairs ==> pairs[k] < v
    requires ConvertsTable(repair, v, pairs, depth - 2, out)
    ensures Converts(repair, v, depth, out)
  {
    hide ConvertsTable;
  }

  lemma AmbiguousOutcomes(repair: Repair, parent: Lua, pairs: map<LuaKey, Lua>, depth: nat)
    returns (one: Option<Value>, two: Option<Value>)
    requires forall k :: k in pairs ==> pairs[k] < parent && !Fails(pairs[k], depth)
    requires Ambiguous(pairs.Keys)
    ensures ConvertsTable(repair, parent, pairs, depth, one) && ConvertsTable(repair, parent, pairs, depth, two)
    ensures one != two
  {
    hide Converts, Fails, Folded, Ambiguous;
    var vals := SomeValues(repair, parent, pairs, depth);
    var lossy, full := AmbiguousOrders(vals);
    one, two := Folded(lossy, vals), Folded(full, vals);
    assert Gathered(repair, parent, pairs, depth, lossy, vals);
    assert Gathered(repair, parent, pairs, depth, full, vals);
  }

  lemma TwoOutcomes(repair: Repair, parent: Lua, pairs: map<LuaKey, Lua>, depth: nat,
                    k: LuaKey, x: Option<Value>, y: Option<Value>) returns (one: Option<Value>, two: Option<Value>)
    requires forall k :: k in pairs ==> pairs[k] < parent && !Fails(pairs[k], depth)
    requires k in pairs && Storable(k) && Kept(pairs.Keys) && !Ambiguous(pairs.Keys)
    requires !(OnlyPositive(pairs.Keys) && !Contiguous(pairs.Keys))
    requires Converts(repair, pairs[k], depth, x) && Converts(repair, pairs[k], depth, y) && x != y
    ensures ConvertsTable(repair, parent, pairs, depth, one) && ConvertsTable(repair, parent, pairs, depth, two)
    ensures one != two
  {
    hide Converts, Fails, Level, Folded, Contiguous, OnlyPositive, Ambiguous, Kept;
    FailsExactly(repair, pairs[k], depth, x);
    FailsExactly(repair, pairs[k], depth, y);
    var vals := SomeValues(repair, parent, pairs, depth);
    var a, b := vals[k := x.value], vals[k := y.value];
    assert a.Keys == b.Keys == pairs.Keys;
    var order := SomeList(pairs.Keys);
    one, two := Folded(order, a), Folded(order, b);
    assert Gathered(repair, parent, pairs, depth, order, a) && Gathered(repair, parent, pairs, depth, order, b);
    OrderDoesNotMatter(order, order, a);
    OrderDoesNotMatter(order, order, b);
    FoldFails(order, vals);
    OrderDoesNotMatter(order, order, vals);
    LevelsDiffer(vals, k, x.value, y.value);
  }

  /** The outcome of a conversion does not depend on any iteration order, if and only if the tree is determined. */
  lemma OneOutcomeIffDetermined(repair: Repair, v: Lua, depth: nat)
    ensures (forall one, two :: Converts(repair, v, depth, one) && Converts(repair, v, depth, two) ==> one == two)
            <==> Determined(v, depth)
  {
    hide Converts, Determined;
    if Determined(v, depth) {
      forall one, two | Converts(repair, v, depth, one) && Converts(repair, v, depth, two)
        ensures one == two
      {
        DeterminedIsUnique(repair, v, depth, one, two);
      }
    } else {
      var one, two := UndeterminedHasTwo(repair, v, depth);
      assert Converts(repair, v, depth, one) && Converts(repair, v, depth, two);
    }
  }

  /** Every tree with integer, text or boolean keys is determined. */
  ghost predicate StorableKeys(v: Lua)
    decreases v
  {
    v.Table? ==> forall k :: k in v.pairs ==> Storable(k) && StorableKeys(v.pairs[k])
  }

  lemma {:induction false} StorableIsDetermined(v: Lua, depth: nat)
    requires StorableKeys(v)
    ensures Determined(v, depth)
    decreases v
  {
    if v.Table? && !Fails(v, depth) {
      assert !HasOther(v.pairs.Keys);
      forall k | k in v.pairs
        ensures Determined(v.pairs[k], depth - 2)
      {
        StorableIsDetermined(v.pairs[k], depth - 2);
      }
    }
  }
}
