/** Finite sets: sizes, and lists of their elements in any order. */
module Sets {

  lemma {:induction false} SubsetSize<T>(a: set<T>, b: set<T>)
    requires a <= b
    ensures |a| <= |b| && (|a| == |b| ==> a == b)
    decreases b
  {
    if b != {} {
      var x :| x in b;
      SubsetSize(a - {x}, b - {x});
      if x in a {
        assert a == (a - {x}) + {x} && b == (b - {x}) + {x};
      } else {
        assert a - {x} == a;
      }
    }
  }

  /** `order` lists the elements, each once. */
  ghost predicate ListsOnce<T(!new)>(order: seq<T>, s: set<T>) {
    && (forall x :: x in order <==> x in s)
    && (forall i, j :: 0 <= i < j < |order| ==> order[i] != order[j])
  }

  lemma ListOneMore<T(!new)>(order: seq<T>, s: set<T>, todo: set<T>, x: T)
    requires ListsOnce(order, s - todo) && x in todo && todo <= s
    ensures ListsOnce(order + [x], s - (todo - {x}))
  {
    assert forall i :: 0 <= i < |order| ==> order[i] in s - todo;
  }

  lemma {:induction false} SomeList<T(!new)>(s: set<T>) returns (order: seq<T>)
    ensures ListsOnce(order, s)
    decreases s
  {
    if s == {} {
      order := [];
    } else {
      var x :| x in s;
      var rest := SomeList(s - {x});
      ListOneMore(rest, s, {x}, x);
      assert s - ({x} - {x}) == s;
      order := rest + [x];
    }
  }

  lemma ListsAppend<T(!new)>(a: seq<T>, s: set<T>, b: seq<T>, t: set<T>)
    requires ListsOnce(a, s) && ListsOnce(b, t) && s !! t
    ensures ListsOnce(a + b, s + t)
  {
    assert forall i :: 0 <= i < |a| ==> a[i] in s;
    assert forall i :: 0 <= i < |b| ==> b[i] in t;
  }

  /** Without one of its elements a list lists the rest. */
  lemma ListsRest<T(!new)>(order: seq<T>, s: set<T>, i: nat)
    requires ListsOnce(order, s) && i < |order|
    ensures ListsOnce(order[..i] + order[i + 1..], s - {order[i]})
  {
    var rest := order[..i] + order[i + 1..];
    forall x | x in s - {order[i]}
      ensures x in rest
    {
      var n :| 0 <= n < |order| && order[n] == x;
      assert n < i ==> rest[n] == x;
      assert n > i ==> rest[n - 1] == x;
    }
  }
}
