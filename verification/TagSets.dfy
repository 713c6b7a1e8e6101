/** Interned names, and tag sets of them: look-up by binary search, projection and group keys. */
module TagSets {
  import opened Words
  import opened Wrappers

  // ------------------------------------------------------------------------ interner

  /** Every name has one number, and the number's place holds the name. */
  ghost predicate Agree(ids: map<string, u32>, names: seq<string>) {
    && |names| <= TWO_32
    && (forall s :: s in ids ==> ids[s] < |names| && names[ids[s]] == s)
    && (forall i :: 0 <= i < |names| ==> names[i] in ids && ids[names[i]] == i)
  }

  class Interner {
    var ids: map<string, u32>
    var names: seq<string>

    constructor ()
      ensures ids == map[] && names == [] && Agree(ids, names)
    {
      ids, names := map[], [];
    }

    /** The name's number, a new one for a new name. Numbers given out before stay. */
    method GetOrIntern(s: string) returns (id: u32)
      modifies this
      ensures s in ids && id == ids[s] && old(names) <= names
      ensures s in old(ids) ==> ids == old(ids) && names == old(names)
      ensures s !in old(ids) ==> ids == old(ids)[s := |old(names)| % TWO_32] && names == old(names) + [s]
      ensures old(Agree(ids, names)) && |names| <= TWO_32 ==> Agree(ids, names)
    {
      if s in ids {
        return ids[s];
      }
      id := |names| % TWO_32;
      names := names + [s];
      ids := ids[s := id];
    }

    method Resolve(id: u32) returns (s: Option<string>)
      ensures s == if id < |names| then Some(names[id]) else None
      ensures Agree(ids, names) ==> forall n :: n in ids ==> (ids[n] == id <==> s == Some(n))
    {
      s := if id < |names| then Some(names[id]) else None;
    }
  }

  /** Different names have different numbers. */
  lemma InternerIsInjective(ids: map<string, u32>, names: seq<string>, a: string, b: string)
    requires Agree(ids, names) && a in ids && b in ids
    ensures ids[a] == ids[b] <==> a == b
  {
    assert names[ids[a]] == a && names[ids[b]] == b;
  }

  // ------------------------------------------------------------------------ tag sets

  type TagId = (u32, u32)
  type TagSet = seq<TagId>

  predicate AtMost(a: TagId, b: TagId) {
    a.0 < b.0 || (a.0 == b.0 && a.1 <= b.1)
  }

  predicate SortedTags(t: TagSet) {
    forall i, j :: 0 <= i < j < |t| ==> AtMost(t[i], t[j])
  }

  /** The first value under a key. */
  function Lookup(t: TagSet, k: u32): Option<u32> {
    if t == [] then None else if t[0].0 == k then Some(t[0].1) else Lookup(t[1..], k)
  }

  lemma {:induction false} LookupAt(t: TagSet, k: u32, i: nat)
    requires i <= |t| && (forall j :: 0 <= j < i ==> t[j].0 != k)
    requires i < |t| ==> t[i].0 == k || forall j :: i < j < |t| ==> t[j].0 != k
    ensures Lookup(t, k) == if i < |t| && t[i].0 == k then Some(t[i].1) else None
    decreases |t|
  {
    if i > 0 {
      LookupAt(t[1..], k, i - 1);
    } else if t != [] && t[0].0 != k {
      LookupNone(t, k);
    }
  }

  lemma {:induction false} LookupNone(t: TagSet, k: u32)
    requires forall j :: 0 <= j < |t| ==> t[j].0 != k
    ensures Lookup(t, k) == None
    decreases |t|
  {
    if t != [] {
      LookupNone(t[1..], k);
    }
  }

  /** Binary search; on a sorted set it finds the first value under the key. */
  method Get(t: TagSet, k: u32) returns (v: Option<u32>)
    ensures SortedTags(t) ==> v == Lookup(t, k)
  {
    var lo, hi := 0, |t|;
    while lo < hi
      invariant 0 <= lo <= hi <= |t|
      invariant SortedTags(t) ==> forall j :: 0 <= j < lo ==> t[j].0 < k
      invariant SortedTags(t) ==> forall j :: hi <= j < |t| ==> t[j].0 >= k
    {
      var mid := (lo + hi) / 2;
      if t[mid].0 < k {
        lo := mid + 1;
      } else {
        hi := mid;
      }
    }
    v := if lo < |t| && t[lo].0 == k then Some(t[lo].1) else None;
    if SortedTags(t) {
      LookupAt(t, k, lo);
    }
  }

  /** The tags under the given keys, in the order of the keys. */
  function Projected(t: TagSet, keys: seq<u32>): TagSet {
    if keys == [] then []
    else
      var last := keys[|keys| - 1];
      Projected(t, keys[..|keys| - 1]) + (if Lookup(t, last).Some? then [(last, Lookup(t, last).value)] else [])
  }

  method Project(t: TagSet, keys: seq<u32>) returns (out: TagSet)
    ensures SortedTags(t) ==> out == Projected(t, keys)
  {
    out := [];
    for i := 0 to |keys|
      invariant SortedTags(t) ==> out == Projected(t, keys[..i])
    {
      assert keys[..i + 1][..i] == keys[..i];
      var v := Get(t, keys[i]);
      if v.Some? {
        out := out + [(keys[i], v.value)];
      }
    }
    assert keys[..|keys|] == keys;
  }

  // ---------------------------------------------------------------------- group keys

  predicate Increasing(keys: seq<u32>) {
    forall i, j :: 0 <= i < j < |keys| ==> keys[i] < keys[j]
  }

  /** Into a strictly increasing list, unless it is there. */
  function InsertKey(k: u32, keys: seq<u32>): seq<u32> {
    if keys == [] || k < keys[0] then [k] + keys
    else if k == keys[0] then keys
    else [keys[0]] + InsertKey(k, keys[1..])
  }

  /** Sorted, without repetition. */
  function GroupKeys(keys: seq<u32>): seq<u32> {
    if keys == [] then [] else InsertKey(keys[0], GroupKeys(keys[1..]))
  }

  lemma {:induction false} InsertKeyIncreases(k: u32, keys: seq<u32>)
    requires Increasing(keys)
    ensures Increasing(InsertKey(k, keys)) && forall x :: x in InsertKey(k, keys) <==> x == k || x in keys
    decreases |keys|
  {
    if keys != [] && k > keys[0] {
      InsertKeyIncreases(k, keys[1..]);
      var rest := InsertKey(k, keys[1..]);
      assert keys == [keys[0]] + keys[1..];
      forall i | 0 <= i < |rest|
        ensures keys[0] < rest[i]
      {
        assert rest[i] in rest;
      }
    }
  }

  lemma {:induction false} GroupKeysIncrease(keys: seq<u32>)
    ensures Increasing(GroupKeys(keys)) && forall x :: x in GroupKeys(keys) <==> x in keys
    decreases |keys|
  {
    if keys != [] {
      GroupKeysIncrease(keys[1..]);
      assert keys == [keys[0]] + keys[1..];
      InsertKeyIncreases(keys[0], GroupKeys(keys[1..]));
    }
  }

  lemma {:induction false} ProjectedKeys(t: TagSet, keys: seq<u32>)
    ensures forall i :: 0 <= i < |Projected(t, keys)| ==> Projected(t, keys)[i].0 in keys
    decreases |keys|
  {
    if keys != [] {
      ProjectedKeys(t, keys[..|keys| - 1]);
      assert forall k :: k in keys[..|keys| - 1] ==> k in keys;
    }
  }

  /** Two tag sets have the same projection exactly when they agree on every key. */
  lemma {:induction false} SameGroup(t: TagSet, u: TagSet, keys: seq<u32>)
    requires Increasing(keys)
    ensures Projected(t, keys) == Projected(u, keys) <==> forall k :: k in keys ==> Lookup(t, k) == Lookup(u, k)
    decreases |keys|
  {
    if keys != [] {
      var front, last := keys[..|keys| - 1], keys[|keys| - 1];
      SameGroup(t, u, front);
      ProjectedKeys(t, front);
      ProjectedKeys(u, front);
      var p, q := Projected(t, keys), Projected(u, keys);
      assert keys == front + [last];
      assert last in keys && forall k :: k in keys <==> k in front || k == last;
      if p == q {
        LastTag(t, keys);
        LastTag(u, keys);
        assert Lookup(t, last) == Lookup(u, last);
        assert Projected(t, front) == if Lookup(t, last).Some? then p[..|p| - 1] else p;
        assert Projected(u, front) == if Lookup(u, last).Some? then q[..|q| - 1] else q;
      }
    }
  }

  /** A projection ends with the last key's tag exactly when that key has a value. */
  lemma LastTag(t: TagSet, keys: seq<u32>)
    requires Increasing(keys) && keys != []
    ensures var p, last := Projected(t, keys), keys[|keys| - 1];
            Lookup(t, last) == if p != [] && p[|p| - 1].0 == last then Some(p[|p| - 1].1) else None
  {
    var front, last := keys[..|keys| - 1], keys[|keys| - 1];
    ProjectedKeys(t, front);
    if Lookup(t, last).None? {
      var p := Projected(t, keys);
      assert p == Projected(t, front);
      if p != [] {
        assert p[|p| - 1].0 in front;
        assert last !in front;
      }
    }
  }

  // -------------------------------------------------------------------- named tag sets

  /** Into a sorted set. */
  function InsertTag(x: TagId, t: TagSet): TagSet {
    if t == [] || AtMost(x, t[0]) then [x] + t else [t[0]] + InsertTag(x, t[1..])
  }

  function SortTags(t: TagSet): TagSet {
    if t == [] then [] else InsertTag(t[0], SortTags(t[1..]))
  }

  lemma {:induction false} InsertTagSorts(x: TagId, t: TagSet)
    requires SortedTags(t)
    ensures SortedTags(InsertTag(x, t)) && multiset(InsertTag(x, t)) == multiset{x} + multiset(t)
    decreases |t|
  {
    if t != [] && !AtMost(x, t[0]) {
      InsertTagSorts(x, t[1..]);
      assert t == [t[0]] + t[1..];
      var rest := InsertTag(x, t[1..]);
      forall i | 0 <= i < |rest|
        ensures AtMost(t[0], rest[i])
      {
        assert rest[i] in multiset(rest);
        assert rest[i] == x || rest[i] in t[1..];
      }
    }
  }

  lemma {:induction false} SortTagsSorts(t: TagSet)
    ensures SortedTags(SortTags(t)) && multiset(SortTags(t)) == multiset(t)
    decreases |t|
  {
    if t != [] {
      SortTagsSorts(t[1..]);
      assert t == [t[0]] + t[1..];
      InsertTagSorts(t[0], SortTags(t[1..]));
    }
  }

  /** The numbers of named tags, when every name is interned. */
  function Numbered(ids: map<string, u32>, tags: seq<(string, string)>): (t: TagSet)
    requires forall i :: 0 <= i < |tags| ==> tags[i].0 in ids && tags[i].1 in ids
    ensures |t| == |tags| && forall i :: 0 <= i < |tags| ==> t[i] == (ids[tags[i].0], ids[tags[i].1])
  {
    seq(|tags|, i requires 0 <= i < |tags| => (ids[tags[i].0], ids[tags[i].1]))
  }

  /** `resolve_tags`: interns every key and value and sorts by number. */
  method ResolveTags(interner: Interner, tags: seq<(string, string)>) returns (t: TagSet)
    modifies interner
    ensures old(interner.names) <= interner.names
    ensures old(Agree(interner.ids, interner.names)) && |interner.names| <= TWO_32 ==>
              && Agree(interner.ids, interner.names)
              && (forall i :: 0 <= i < |tags| ==> tags[i].0 in interner.ids && tags[i].1 in interner.ids)
              && t == SortTags(Numbered(interner.ids, tags))
    ensures SortedTags(t)
  {
    var numbered: TagSet := [];
    for i := 0 to |tags|
      invariant |numbered| == i && old(interner.names) <= interner.names
      invariant old(Agree(interner.ids, interner.names)) && |interner.names| <= TWO_32 ==>
                  && Agree(interner.ids, interner.names)
                  && forall j :: 0 <= j < i ==>
                       && tags[j].0 in interner.ids && tags[j].1 in interner.ids
                       && numbered[j] == (interner.ids[tags[j].0], interner.ids[tags[j].1])
    {
      var k := interner.GetOrIntern(tags[i].0);
      var v := interner.GetOrIntern(tags[i].1);
      numbered := numbered + [(k, v)];
    }
    t := SortTags(numbered);
    SortTagsSorts(numbered);
    if old(Agree(interner.ids, interner.names)) && |interner.names| <= TWO_32 {
      assert numbered == Numbered(interner.ids, tags);
    }
  }

  /** In a resolved set of tags with different keys, a key's value is the one it was given. */
  lemma ResolvedLookup(ids: map<string, u32>, names: seq<string>, tags: seq<(string, string)>, i: nat)
    requires Agree(ids, names) && i < |tags|
    requires forall j :: 0 <= j < |tags| ==> tags[j].0 in ids && tags[j].1 in ids
    requires forall j, k :: 0 <= j < k < |tags| ==> tags[j].0 != tags[k].0
    ensures Lookup(SortTags(Numbered(ids, tags)), ids[tags[i].0]) == Some(ids[tags[i].1])
  {
    var numbered := Numbered(ids, tags);
    var t := SortTags(numbered);
    SortTagsSorts(numbered);
    assert numbered[i] in multiset(t);
    var n :| 0 <= n < |t| && t[n] == numbered[i];
    forall j | 0 <= j < n
      ensures t[j].0 != t[n].0
    {
      if t[j].0 == t[n].0 {
        assert t[j] in multiset(numbered);
        var m :| 0 <= m < |tags| && numbered[m] == t[j];
        InternerIsInjective(ids, names, tags[m].0, tags[i].0);
        assert m == i;
        TwiceInSorted(t, numbered, j, n, i);
      }
    }
    LookupAt(t, ids[tags[i].0], n);
  }

  /** The value listed under a key, of tags with different keys. */
  function TextOf(tags: seq<(string, string)>, k: string): Option<string> {
    if tags == [] then None else if tags[0].0 == k then Some(tags[0].1) else TextOf(tags[1..], k)
  }

  lemma {:induction false} TextIsListed(tags: seq<(string, string)>, k: string)
    ensures match TextOf(tags, k)
            case Some(v) => exists i :: 0 <= i < |tags| && tags[i] == (k, v)
            case None => forall i :: 0 <= i < |tags| ==> tags[i].0 != k
    decreases |tags|
  {
    if tags != [] && tags[0].0 != k {
      TextIsListed(tags[1..], k);
      if TextOf(tags[1..], k).Some? {
        var i :| 0 <= i < |tags[1..]| && tags[1..][i] == (k, TextOf(tags[1..], k).value);
        assert tags[i + 1] == (k, TextOf(tags, k).value);
      }
    }
  }

  /** In a resolved set of tags with different keys, looking a key up finds the text listed under it, or nothing. */
  lemma ResolvedText(ids: map<string, u32>, names: seq<string>, tags: seq<(string, string)>, k: string)
    requires Agree(ids, names) && k in ids
    requires forall j :: 0 <= j < |tags| ==> tags[j].0 in ids && tags[j].1 in ids
    requires forall i, j :: 0 <= i < j < |tags| ==> tags[i].0 != tags[j].0
    ensures match TextOf(tags, k)
            case Some(v) => v in ids && Lookup(SortTags(Numbered(ids, tags)), ids[k]) == Some(ids[v])
            case None => Lookup(SortTags(Numbered(ids, tags)), ids[k]) == None
  {
    TextIsListed(tags, k);
    if TextOf(tags, k).Some? {
      var i :| 0 <= i < |tags| && tags[i] == (k, TextOf(tags, k).value);
      ResolvedLookup(ids, names, tags, i);
    } else {
      var numbered := Numbered(ids, tags);
      var t := SortTags(numbered);
      SortTagsSorts(numbered);
      forall j | 0 <= j < |t|
        ensures t[j].0 != ids[k]
      {
        assert t[j] in multiset(numbered);
        var m :| 0 <= m < |tags| && numbered[m] == t[j];
        InternerIsInjective(ids, names, tags[m].0, k);
      }
      LookupNone(t, ids[k]);
    }
  }

  /** A tag listed once is listed once after sorting. */
  lemma TwiceInSorted(t: TagSet, numbered: TagSet, j: nat, n: nat, i: nat)
    requires multiset(t) == multiset(numbered) && j < n < |t| && i < |numbered| && t[j] == t[n] == numbered[i]
    ensures exists m :: 0 <= m < |numbered| && m != i && numbered[m] == numbered[i]
  {
    var x := numbered[i];
    assert t == t[..n] + [t[n]] + t[n + 1..];
    assert t[..n][j] == x;
    assert multiset(t)[x] >= 2 by {
      assert x in multiset(t[..n]);
    }
    assert numbered == numbered[..i] + [x] + numbered[i + 1..];
    if x in multiset(numbered[..i]) {
      var m :| 0 <= m < i && numbered[..i][m] == x;
      assert numbered[m] == x;
    } else {
      assert x in multiset(numbered[i + 1..]);
      var m :| 0 <= m < |numbered[i + 1..]| && numbered[i + 1..][m] == x;
      assert numbered[i + 1 + m] == x;
    }
  }
}
