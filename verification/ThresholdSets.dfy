/** Exporting threshold sets to a YAML map, and importing them back. */
module ThresholdSets {
  import opened Wrappers
  import opened Strings
  import opened Thresholds

  datatype ThresholdSet = ThresholdSet(key: MetricKey, expressions: seq<string>)

  /** A single expression is written without a list. */
  datatype Exprs = One(expression: string) | Many(expressions: seq<string>)

  datatype ImportError = BadKey(error: KeyError) | EmptyList

  function ExprsOf(s: ThresholdSet): Exprs {
    if |s.expressions| == 1 then One(s.expressions[0]) else Many(s.expressions)
  }

  /** A later set under the same printed key replaces an earlier one. */
  function Exported(sets: seq<ThresholdSet>): map<string, Exprs> {
    if sets == [] then map[]
    else
      var last := sets[|sets| - 1];
      Exported(sets[..|sets| - 1])[Render(last.key) := ExprsOf(last)]
  }

  function ImportOne(key: string, exprs: Exprs): Result<ThresholdSet, ImportError> {
    match ParseKey(key)
    case Err(e) => Err(BadKey(e))
    case Ok(k) =>
      var expressions := match exprs { case One(s) => [s] case Many(v) => v };
      if expressions == [] then Err(EmptyList) else Ok(ThresholdSet(k, expressions))
  }

  function Imported(order: seq<string>, raw: map<string, Exprs>): Result<seq<ThresholdSet>, ImportError>
    requires forall k :: k in order ==> k in raw
  {
    if order == [] then Ok([])
    else
      var last := |order| - 1;
      var front :- Imported(order[..last], raw);
      var one :- ImportOne(order[last], raw[order[last]]);
      Ok(front + [one])
  }

  // -------------------------------------------------------------------------- loops

  method RenderThresholds(sets: seq<ThresholdSet>) returns (out: map<string, Exprs>)
    ensures out == Exported(sets)
  {
    out := map[];
    for i := 0 to |sets|
      invariant out == Exported(sets[..i])
    {
      assert sets[..i + 1][..i] == sets[..i];
      var v := if |sets[i].expressions| == 1 then One(sets[i].expressions[0]) else Many(sets[i].expressions);
      out := out[Render(sets[i].key) := v];
    }
    assert sets[..|sets|] == sets;
  }

  method ParseThresholdsMap(raw: map<string, Exprs>) returns (r: Result<seq<ThresholdSet>, ImportError>)
    ensures exists order :: InKeyOrder(order, raw.Keys) && r == Imported(order, raw)
  {
    var order := KeysInOrder(raw.Keys);
    var out: seq<ThresholdSet> := [];
    for i := 0 to |order|
      invariant Imported(order[..i], raw) == Ok(out)
    {
      assert order[..i + 1][..i] == order[..i];
      StopsAtError(order, raw, i);
      match ParseKey(order[i]) {
        case Err(e) => return Err(BadKey(e));
        case Ok(key) =>
          var expressions := match raw[order[i]] { case One(s) => [s] case Many(v) => v };
          if expressions == [] {
            return Err(EmptyList);
          }
          out := out + [ThresholdSet(key, expressions)];
      }
    }
    assert order[..|order|] == order;
    r := Ok(out);
  }

  lemma {:induction false} StopsAtError(order: seq<string>, raw: map<string, Exprs>, n: nat)
    requires n < |order| && forall k :: k in order ==> k in raw
    ensures Imported(order[..n + 1], raw).Err? ==> Imported(order, raw) == Imported(order[..n + 1], raw)
    decreases |order|
  {
    if n + 1 == |order| {
      assert order[..n + 1] == order;
    } else {
      var front := order[..|order| - 1];
      StopsAtError(front, raw, n);
      assert front[..n + 1] == order[..n + 1];
    }
  }

  // ------------------------------------------------------------------- what survives

  function PrintedKeys(sets: seq<ThresholdSet>): (keys: seq<string>)
    ensures |keys| == |sets| && forall i :: 0 <= i < |sets| ==> keys[i] == Render(sets[i].key)
  {
    seq(|sets|, i requires 0 <= i < |sets| => Render(sets[i].key))
  }

  ghost predicate Distinct<T>(s: seq<T>) {
    forall i, j :: 0 <= i < j < |s| ==> s[i] != s[j]
  }

  /** Sets that an export can keep: canonical keys, all different, each with an expression. */
  ghost predicate Exportable(sets: seq<ThresholdSet>) {
    && (forall i :: 0 <= i < |sets| ==> Canonical(sets[i].key) && sets[i].expressions != [])
    && (forall i, j :: 0 <= i < j < |sets| ==> sets[i].key != sets[j].key)
  }

  lemma {:induction false} ExportedSize(sets: seq<ThresholdSet>)
    ensures |Exported(sets)| <= |sets|
    ensures forall k :: k in Exported(sets) <==> k in PrintedKeys(sets)
    ensures |Exported(sets)| == |sets| ==> Distinct(PrintedKeys(sets))
    decreases |sets|
  {
    hide Render, ExprsOf;
    if sets != [] {
      var last := |sets| - 1;
      ExportedSize(sets[..last]);
      assert PrintedKeys(sets) == PrintedKeys(sets[..last]) + [Render(sets[last].key)];
    }
  }

  lemma {:induction false} ExportedHolds(sets: seq<ThresholdSet>, i: nat)
    requires i < |sets| && Distinct(PrintedKeys(sets))
    ensures Render(sets[i].key) in Exported(sets) && Exported(sets)[Render(sets[i].key)] == ExprsOf(sets[i])
    decreases |sets|
  {
    var last := |sets| - 1;
    if i < last {
      assert PrintedKeys(sets)[i] != PrintedKeys(sets)[last];
      assert PrintedKeys(sets[..last]) == PrintedKeys(sets)[..last];
      ExportedHolds(sets[..last], i);
    }
  }

  /** The last set under a printed key is the one exported: a single expression by itself, none or several as a list. */
  lemma {:induction false} ExportSays(sets: seq<ThresholdSet>, i: nat)
    requires i < |sets| && forall j :: i < j < |sets| ==> Render(sets[j].key) != Render(sets[i].key)
    ensures Render(sets[i].key) in Exported(sets)
    ensures Exported(sets)[Render(sets[i].key)] ==
            if |sets[i].expressions| == 1 then One(sets[i].expressions[0]) else Many(sets[i].expressions)
    decreases |sets|
  {
    hide Render;
    var last := |sets| - 1;
    if i < last {
      assert Render(sets[last].key) != Render(sets[i].key);
      ExportSays(sets[..last], i);
    }
  }

  /** Every set imported is canonical, has an expression, and there is one for each key. */
  lemma {:induction false} ImportedIsSound(order: seq<string>, raw: map<string, Exprs>)
    requires (forall k :: k in order ==> k in raw) && Imported(order, raw).Ok?
    ensures var sets := Imported(order, raw).value;
            && |sets| == |order|
            && forall i :: 0 <= i < |sets| ==>
                 ImportOne(order[i], raw[order[i]]) == Ok(sets[i]) && Canonical(sets[i].key) && sets[i].expressions != []
    decreases |order|
  {
    hide ParseKey, Canonical;
    if order != [] {
      var last := |order| - 1;
      ImportedIsSound(order[..last], raw);
      ParsedIsCanonical(order[last]);
    }
  }

  lemma {:induction false} ImportedIsOk(order: seq<string>, raw: map<string, Exprs>)
    requires forall k :: k in order ==> k in raw && ImportOne(k, raw[k]).Ok?
    ensures Imported(order, raw).Ok?
    decreases |order|
  {
    if order != [] {
      ImportedIsOk(order[..|order| - 1], raw);
    }
  }

  /** Two lists of the same keys, each once, hold them the same number of times. */
  lemma {:induction false} ListedOnce(order: seq<string>, keys: set<string>)
    requires Distinct(order) && forall k :: k in order <==> k in keys
    ensures multiset(order) == multiset(keys) && |order| == |keys|
    decreases |order|
  {
    if order == [] {
      assert keys == {};
    } else {
      var last := |order| - 1;
      assert order == order[..last] + [order[last]];
      ListedOnce(order[..last], keys - {order[last]});
      assert keys == (keys - {order[last]}) + {order[last]};
    }
  }

  function Looked(order: seq<string>, f: map<string, ThresholdSet>): (r: seq<ThresholdSet>)
    requires forall k :: k in order ==> k in f
    ensures |r| == |order| && forall i :: 0 <= i < |order| ==> r[i] == f[order[i]]
  {
    seq(|order|, i requires 0 <= i < |order| => f[order[i]])
  }

  lemma Without<T>(s: seq<T>, i: nat)
    requires i < |s|
    ensures multiset(s[..i] + s[i + 1..]) == multiset(s) - multiset{s[i]}
  {
    assert s == s[..i] + [s[i]] + s[i + 1..];
  }

  lemma LookedWithout(s: seq<string>, i: nat, f: map<string, ThresholdSet>)
    requires i < |s| && forall k :: k in s ==> k in f
    ensures forall k :: k in s[..i] + s[i + 1..] ==> k in f
    ensures multiset(Looked(s[..i] + s[i + 1..], f)) == multiset(Looked(s, f)) - multiset{f[s[i]]}
    ensures f[s[i]] in multiset(Looked(s, f))
  {
    var whole := Looked(s, f);
    Without(whole, i);
    assert Looked(s[..i] + s[i + 1..], f) == whole[..i] + whole[i + 1..];
    assert whole[i] in whole;
  }

  lemma {:induction false} LookedPermutes(a: seq<string>, b: seq<string>, f: map<string, ThresholdSet>)
    requires (forall k :: k in a ==> k in f) && (forall k :: k in b ==> k in f) && multiset(a) == multiset(b)
    ensures multiset(Looked(a, f)) == multiset(Looked(b, f))
    decreases |a|
  {
    hide Looked;
    if a == [] {
      assert |multiset(b)| == 0;
      assert b == [];
    } else {
      assert a[0] in multiset(b);
      var i :| 0 <= i < |b| && b[i] == a[0];
      var fewer, rest := a[..0] + a[1..], b[..i] + b[i + 1..];
      Without(a, 0);
      Without(b, i);
      assert multiset(fewer) == multiset(a) - multiset{a[0]} == multiset(b) - multiset{a[0]} == multiset(rest);
      LookedWithout(a, 0, f);
      LookedWithout(b, i, f);
      LookedPermutes(fewer, rest, f);
      SameWithout(multiset(Looked(a, f)), multiset(Looked(b, f)), f[a[0]]);
    }
  }

  lemma SameWithout<T>(m: multiset<T>, n: multiset<T>, x: T)
    requires x in m && x in n && m - multiset{x} == n - multiset{x}
    ensures m == n
  {
    assert m == m - multiset{x} + multiset{x};
    assert n == n - multiset{x} + multiset{x};
  }

  /** An exportable set is what its printed key imports as. */
  lemma ExportableImports(sets: seq<ThresholdSet>, i: nat)
    requires Exportable(sets) && i < |sets|
    ensures Distinct(PrintedKeys(sets))
    ensures Render(sets[i].key) in Exported(sets)
    ensures ImportOne(Render(sets[i].key), Exported(sets)[Render(sets[i].key)]) == Ok(sets[i])
  {
    hide ParseKey, Render, Canonical, Exported, PrintedKeys;
    PrintsApart(sets);
    ExportedHolds(sets, i);
    ParseRender(sets[i].key);
    var expressions := sets[i].expressions;
    assert |expressions| == 1 ==> [expressions[0]] == expressions;
  }

  lemma PrintsApart(sets: seq<ThresholdSet>)
    requires Exportable(sets)
    ensures Distinct(PrintedKeys(sets))
  {
    forall i, j | 0 <= i < j < |sets|
      ensures PrintedKeys(sets)[i] != PrintedKeys(sets)[j]
    {
      if Render(sets[i].key) == Render(sets[j].key) {
        RenderIsInjective(sets[i].key, sets[j].key);
      }
    }
  }

  lemma OrderIsDistinct(order: seq<string>, keys: set<string>)
    requires InKeyOrder(order, keys)
    ensures Distinct(order)
  {
    forall i, j | 0 <= i < j < |order|
      ensures order[i] != order[j]
    {
      BeforeIsTotal(order[i], order[i]);
    }
  }

  lemma LookedIsSets(sets: seq<ThresholdSet>, f: map<string, ThresholdSet>)
    requires Exportable(sets) && f.Keys == Exported(sets).Keys
    requires forall k :: k in f ==> ImportOne(k, Exported(sets)[k]) == Ok(f[k])
    requires forall k :: k in PrintedKeys(sets) ==> k in f
    ensures Looked(PrintedKeys(sets), f) == sets
  {
    hide ImportOne, Exportable, Exported, Render;
    forall i | 0 <= i < |sets|
      ensures Looked(PrintedKeys(sets), f)[i] == sets[i]
    {
      ExportableImports(sets, i);
    }
  }

  lemma PrintedImports(sets: seq<ThresholdSet>, k: string)
    requires Exportable(sets) && k in Exported(sets)
    ensures ImportOne(k, Exported(sets)[k]).Ok?
  {
    hide ImportOne, Exportable, Exported, Render;
    ExportedSize(sets);
    var i :| 0 <= i < |sets| && PrintedKeys(sets)[i] == k;
    ExportableImports(sets, i);
  }

  lemma ExportImportKeeps(sets: seq<ThresholdSet>, order: seq<string>)
    requires Exportable(sets) && InKeyOrder(order, Exported(sets).Keys)
    ensures Imported(order, Exported(sets)).Ok? && multiset(Imported(order, Exported(sets)).value) == multiset(sets)
  {
    hide ImportOne, Exportable, Exported, Imported, Render, PrintedKeys;
    var raw := Exported(sets);
    forall k | k in raw
      ensures ImportOne(k, raw[k]).Ok?
    {
      PrintedImports(sets, k);
    }
    ImportedIsOk(order, raw);
    ImportedIsSound(order, raw);
    var f := map k | k in raw :: ImportOne(k, raw[k]).value;
    SameKeys(sets, order);
    LookedPermutes(order, PrintedKeys(sets), f);
    assert Imported(order, raw).value == Looked(order, f);
    LookedIsSets(sets, f);
  }

  /** The map's keys are the printed keys, in another order. */
  lemma SameKeys(sets: seq<ThresholdSet>, order: seq<string>)
    requires Exportable(sets) && InKeyOrder(order, Exported(sets).Keys)
    ensures multiset(order) == multiset(PrintedKeys(sets)) && forall k :: k in PrintedKeys(sets) ==> k in Exported(sets)
  {
    hide Exportable, Exported, Render, PrintedKeys;
    PrintsApart(sets);
    ExportedSize(sets);
    OrderIsDistinct(order, Exported(sets).Keys);
    ListedOnce(order, Exported(sets).Keys);
    ListedOnce(PrintedKeys(sets), Exported(sets).Keys);
  }

  /**
  Exporting and importing loses and changes no threshold set if and only if the keys are canonical and
  all different and every set has an expression.
  */
  lemma ExportImport(sets: seq<ThresholdSet>, order: seq<string>)
    requires InKeyOrder(order, Exported(sets).Keys)
    ensures Imported(order, Exported(sets)).Ok? && multiset(Imported(order, Exported(sets)).value) == multiset(sets)
            <==> Exportable(sets)
  {
    if Exportable(sets) {
      ExportImportKeeps(sets, order);
    }
    var raw := Exported(sets);
    if Imported(order, raw).Ok? && multiset(Imported(order, raw).value) == multiset(sets) {
      var back := Imported(order, raw).value;
      ImportedIsSound(order, raw);
      OrderIsDistinct(order, raw.Keys);
      ListedOnce(order, raw.Keys);
      assert |back| == |multiset(back)| == |multiset(sets)| == |sets|;
      ExportedSize(sets);
      assert |raw| == |raw.Keys|;
      forall i | 0 <= i < |sets|
        ensures Canonical(sets[i].key) && sets[i].expressions != []
      {
        assert sets[i] in multiset(back);
      }
      forall i, j | 0 <= i < j < |sets|
        ensures sets[i].key != sets[j].key
      {
        assert PrintedKeys(sets)[i] != PrintedKeys(sets)[j];
      }
    }
  }
}
