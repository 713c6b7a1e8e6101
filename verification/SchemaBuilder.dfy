/** Building a method's field metadata from the descriptor pool: a memoised depth-first walk that rejects recursion. */
module SchemaBuilder {
  import opened Wrappers
  import opened Words
  import opened Values
  import opened Schema
  import opened Sets

  datatype FieldDesc = FieldDesc(name: Str, number: u32, kind: ProtoKind, isMap: bool, isList: bool)

  /** The descriptor pool: the fields of every message type, by full name. */
  type Pool = map<Str, seq<FieldDesc>>

  datatype BuildError = Recursive(name: Str) | MapNotMessage | MissingMapKey | MissingMapValue

  const KEY: seq<byte> := [0x6B, 0x65, 0x79]
  const VALUE: seq<byte> := [0x76, 0x61, 0x6C, 0x75, 0x65]

  /** What a descriptor pool guarantees: known types, names and numbers unique in a message, sound enums. */
  ghost predicate ValidPool(pool: Pool) {
    forall n :: n in pool ==> ValidFields(pool, pool[n])
  }

  ghost predicate ValidFields(pool: Pool, fields: seq<FieldDesc>) {
    && (forall i, j :: 0 <= i < j < |fields| ==> fields[i].name != fields[j].name && fields[i].number != fields[j].number)
    && (forall i :: 0 <= i < |fields| ==> ValidKind(pool, fields[i].kind))
  }

  ghost predicate ValidKind(pool: Pool, kind: ProtoKind) {
    match kind
    case ProtoPrim(_) => true
    case ProtoEnum(e) => GoodEnum(e)
    case ProtoMessage(n) => n in pool
  }

  function FindField(fields: seq<FieldDesc>, name: seq<byte>): (f: Option<FieldDesc>)
    ensures f.Some? ==> f.value in fields && f.value.name == name
    ensures f.None? ==> forall g :: g in fields ==> g.name != name
  {
    if fields == [] then None
    else if fields[0].name == name then Some(fields[0])
    else FindField(fields[1..], name)
  }

  lemma NamesAreUnique(pool: Pool, n: Str, a: FieldDesc, b: FieldDesc)
    requires ValidPool(pool) && n in pool && a in pool[n] && b in pool[n] && a.name == b.name
    ensures a == b
  {
    assert ValidFields(pool, pool[n]);
  }

  // ----------------------------------------------------- the plain unfolding

  /** `meta` is the metadata of message `n` with every nested type written out in full. */
  ghost predicate Unfolds(pool: Pool, n: Str, meta: Meta)
    requires ValidPool(pool)
    decreases meta, 2
  {
    n in pool && UnfoldsUpTo(pool, pool[n], |pool[n]|, meta)
  }

  /** The tables hold the first `count` fields and nothing else. */
  ghost predicate UnfoldsUpTo(pool: Pool, fields: seq<FieldDesc>, count: nat, meta: Meta)
    requires ValidPool(pool) && ValidFields(pool, fields) && count <= |fields|
    decreases meta, 1
  {
    && (forall i :: 0 <= i < count ==> FieldUnfolds(pool, fields[i], meta))
    && NothingElse(fields, count, meta)
  }

  /** Both tables hold field `f` with its unfolded shape; number 0 is left out of the by-number table. */
  ghost predicate FieldUnfolds(pool: Pool, f: FieldDesc, meta: Meta)
    requires ValidPool(pool) && ValidKind(pool, f.kind)
    decreases meta, 0
  {
    && f.name in meta.byName
    && meta.byName[f.name].number == f.number
    && (f.number != 0 ==> f.number in meta.byNumber && meta.byNumber[f.number] == (f.name, meta.byName[f.name].shape))
    && UnfoldsShape(pool, f, meta.byName[f.name].shape)
  }

  ghost predicate NothingElse(fields: seq<FieldDesc>, count: nat, meta: Meta)
    requires count <= |fields|
  {
    && (forall name :: name in meta.byName ==> exists i :: 0 <= i < count && fields[i].name == name)
    && (forall n :: n in meta.byNumber ==> n != 0 && exists i :: 0 <= i < count && fields[i].number == n)
  }

  /** A map's keys have the kind of its entry's "key", its values the unfolded kind of its "value". */
  ghost predicate UnfoldsShape(pool: Pool, f: FieldDesc, shape: Shape)
    requires ValidPool(pool) && ValidKind(pool, f.kind)
    decreases shape, 0
  {
    if f.isMap then
      && f.kind.ProtoMessage? && shape.MapOf?
      && (exists key :: key in pool[f.kind.name] && key.name == [0x6B, 0x65, 0x79] && shape.keyKind == key.kind)
      && (exists value :: value in pool[f.kind.name] && value.name == [0x76, 0x61, 0x6C, 0x75, 0x65]
                          && UnfoldsKind(pool, value.kind, shape.kind))
    else (if f.isList then shape.List? else shape.Single?) && UnfoldsKind(pool, f.kind, shape.kind)
  }

  ghost predicate UnfoldsKind(pool: Pool, k: ProtoKind, kind: Kind)
    requires ValidPool(pool)
    decreases kind
  {
    match k
    case ProtoPrim(p) => kind == Plain(p)
    case ProtoEnum(e) => kind == Enum(e)
    case ProtoMessage(n) => kind.Message? && Unfolds(pool, n, kind.meta)
  }

  lemma FieldValid(pool: Pool, n: Str, i: nat)
    requires ValidPool(pool) && n in pool && i < |pool[n]|
    ensures ValidFields(pool, pool[n]) && ValidKind(pool, pool[n][i].kind)
  {
  }

  /** The kind whose unfolding the values of a field have. */
  lemma ValueKind(pool: Pool, f: FieldDesc, shape: Shape) returns (k: ProtoKind)
    requires ValidPool(pool) && ValidKind(pool, f.kind) && UnfoldsShape(pool, f, shape)
    ensures ValidKind(pool, k) && UnfoldsKind(pool, k, shape.kind)
    ensures forall other :: UnfoldsShape(pool, f, other) ==>
              UnfoldsKind(pool, k, other.kind) && (shape.MapOf? ==> other.MapOf? && other.keyKind == shape.keyKind)
    ensures forall b :: Leads(pool, f, b) <==> k == ProtoMessage(b)
  {
    hide Unfolds;
    if f.isMap {
      var n := f.kind.name;
      var key :| key in pool[n] && key.name == [0x6B, 0x65, 0x79] && shape.keyKind == key.kind;
      var value :| value in pool[n] && value.name == [0x76, 0x61, 0x6C, 0x75, 0x65] && UnfoldsKind(pool, value.kind, shape.kind);
      k := value.kind;
      assert ValidFields(pool, pool[n]);
      forall g | g in pool[n]
        ensures (g.name == key.name ==> g == key) && (g.name == value.name ==> g == value)
      {
        if g.name == key.name {
          NamesAreUnique(pool, n, g, key);
        }
        if g.name == value.name {
          NamesAreUnique(pool, n, g, value);
        }
      }
    } else {
      k := f.kind;
    }
  }

  /** Building field `f` calls for the metadata of type `b`. */
  ghost predicate Leads(pool: Pool, f: FieldDesc, b: Str)
    requires f.kind.ProtoMessage? ==> f.kind.name in pool
  {
    if f.isMap then
      f.kind.ProtoMessage?
      && exists value :: value in pool[f.kind.name] && value.name == [0x76, 0x61, 0x6C, 0x75, 0x65] && value.kind == ProtoMessage(b)
    else f.kind == ProtoMessage(b)
  }

  /** A message has at most one unfolding. */
  lemma {:induction false} UnfoldsOnce(pool: Pool, n: Str, a: Meta, b: Meta)
    requires ValidPool(pool) && Unfolds(pool, n, a) && Unfolds(pool, n, b)
    ensures a == b
    decreases a, 1
  {
    hide UnfoldsShape, ValidPool;
    var fields := pool[n];
    forall i | 0 <= i < |fields|
      ensures SameEntry(fields[i], a, b)
    {
      FieldValid(pool, n, i);
      assert FieldUnfolds(pool, fields[i], a) && FieldUnfolds(pool, fields[i], b);
      ShapeOnce(pool, fields[i], a.byName[fields[i].name].shape, b.byName[fields[i].name].shape);
    }
    SameTables(fields, a, b);
  }

  ghost predicate SameEntry(f: FieldDesc, a: Meta, b: Meta) {
    && f.name in a.byName && f.name in b.byName && a.byName[f.name] == b.byName[f.name]
    && (f.number != 0 ==> f.number in a.byNumber && f.number in b.byNumber && a.byNumber[f.number] == b.byNumber[f.number])
  }

  lemma SameTables(fields: seq<FieldDesc>, a: Meta, b: Meta)
    requires forall i :: 0 <= i < |fields| ==> SameEntry(fields[i], a, b)
    requires NothingElse(fields, |fields|, a) && NothingElse(fields, |fields|, b)
    ensures a == b
  {
    assert forall name :: name in a.byName ==> name in b.byName && a.byName[name] == b.byName[name];
    assert a.byName == b.byName;
    assert forall n :: n in a.byNumber ==> n in b.byNumber && a.byNumber[n] == b.byNumber[n];
    assert a.byNumber == b.byNumber;
  }

  lemma {:induction false} ShapeOnce(pool: Pool, f: FieldDesc, a: Shape, b: Shape)
    requires ValidPool(pool) && ValidKind(pool, f.kind) && UnfoldsShape(pool, f, a) && UnfoldsShape(pool, f, b)
    ensures a == b
    decreases a, 1
  {
    hide Unfolds, ValidPool;
    var k := ValueKind(pool, f, a);
    if a.kind.Message? {
      UnfoldsOnce(pool, k.name, a.kind.meta, b.kind.meta);
    }
  }

  /** Built metadata is what the codec needs: its two tables agree at every level. */
  lemma {:induction false} UnfoldingIsGood(pool: Pool, n: Str, meta: Meta)
    requires ValidPool(pool) && Unfolds(pool, n, meta)
    ensures GoodMeta(meta)
    decreases meta, 1
  {
    hide UnfoldsShape, ValidPool, GoodShape;
    var fields := pool[n];
    forall name | name in meta.byName
      ensures GoodShape(meta.byName[name].shape)
      ensures var k := meta.byName[name].number;
              k != 0 ==> k in meta.byNumber && meta.byNumber[k] == (name, meta.byName[name].shape)
    {
      var i :| 0 <= i < |fields| && fields[i].name == name;
      FieldValid(pool, n, i);
      assert FieldUnfolds(pool, fields[i], meta);
      UnfoldedShapeIsGood(pool, fields[i], meta.byName[name].shape);
    }
    forall k | k in meta.byNumber
      ensures k != 0 && meta.byNumber[k].0 in meta.byName && meta.byName[meta.byNumber[k].0] == InputField(k, meta.byNumber[k].1)
    {
      var i :| 0 <= i < |fields| && fields[i].number == k;
      FieldValid(pool, n, i);
      assert FieldUnfolds(pool, fields[i], meta);
    }
  }

  lemma {:induction false} UnfoldedShapeIsGood(pool: Pool, f: FieldDesc, shape: Shape)
    requires ValidPool(pool) && ValidKind(pool, f.kind) && UnfoldsShape(pool, f, shape)
    ensures GoodShape(shape)
    decreases shape
  {
    hide Unfolds, UnfoldsShape, ValidPool, Leads;
    var k := ValueKind(pool, f, shape);
    if shape.kind.Message? {
      UnfoldingIsGood(pool, k.name, shape.kind.meta);
    }
  }

  // ------------------------------------------------------------------- cycles

  ghost predicate Edge(pool: Pool, a: Str, b: Str)
    requires ValidPool(pool)
  {
    a in pool && exists i :: 0 <= i < |pool[a]| && Leads(pool, pool[a][i], b)
  }

  /** A walk along the "has a field of type" relation. */
  ghost predicate Walk(pool: Pool, p: seq<Str>)
    requires ValidPool(pool)
  {
    |p| > 0 && forall i :: 0 <= i < |p| - 1 ==> Edge(pool, p[i], p[i + 1])
  }

  /** Some walk from `root` comes back to `n`, having been through it. */
  ghost predicate CycleThrough(pool: Pool, root: Str, n: Str)
    requires ValidPool(pool)
  {
    exists p, i :: Walk(pool, p) && p[0] == root && 0 <= i < |p| - 1 && p[i] == p[|p| - 1] == n
  }

  ghost predicate CycleFrom(pool: Pool, root: Str)
    requires ValidPool(pool)
  {
    exists n :: CycleThrough(pool, root, n)
  }

  /** Some walk from `root` ends at a type with a map field whose descriptor is malformed, as the error says. */
  ghost predicate BadMapFrom(pool: Pool, root: Str, e: BuildError)
    requires ValidPool(pool)
  {
    exists p :: Walk(pool, p) && p[0] == root && HasBadMap(pool, p[|p| - 1], e)
  }

  ghost predicate HasBadMap(pool: Pool, n: Str, e: BuildError)
    requires ValidPool(pool)
  {
    n in pool && exists i :: 0 <= i < |pool[n]| && BadMap(pool, pool[n][i], e)
  }

  /** A map that is not of messages, or whose entry has no "key" or, having one, no "value". */
  ghost predicate BadMap(pool: Pool, f: FieldDesc, e: BuildError)
    requires f.kind.ProtoMessage? ==> f.kind.name in pool
  {
    f.isMap &&
    match e
    case MapNotMessage => !f.kind.ProtoMessage?
    case MissingMapKey => f.kind.ProtoMessage? && forall g :: g in pool[f.kind.name] ==> g.name != [0x6B, 0x65, 0x79]
    case MissingMapValue =>
      f.kind.ProtoMessage?
      && (exists g :: g in pool[f.kind.name] && g.name == [0x6B, 0x65, 0x79])
      && forall g :: g in pool[f.kind.name] ==> g.name != [0x76, 0x61, 0x6C, 0x75, 0x65]
    case Recursive(_) => false
  }

  /** Following one field leads to a strictly smaller unfolding. */
  lemma EdgeShrinks(pool: Pool, a: Str, b: Str, meta: Meta) returns (next: Meta)
    requires ValidPool(pool) && Edge(pool, a, b) && Unfolds(pool, a, meta)
    ensures Unfolds(pool, b, next) && next < meta
  {
    var i :| 0 <= i < |pool[a]| && Leads(pool, pool[a][i], b);
    var f := pool[a][i];
    assert FieldUnfolds(pool, f, meta);
    var shape := meta.byName[f.name].shape;
    FollowShape(pool, f, b, shape);
    next := shape.kind.meta;
  }

  lemma FollowShape(pool: Pool, f: FieldDesc, b: Str, shape: Shape)
    requires ValidPool(pool) && ValidKind(pool, f.kind) && UnfoldsShape(pool, f, shape) && Leads(pool, f, b)
    ensures shape.kind.Message? && Unfolds(pool, b, shape.kind.meta)
  {
    hide Unfolds, UnfoldsShape, Leads;
    var k := ValueKind(pool, f, shape);
  }

  /** Along a walk unfoldings get strictly smaller. */
  lemma {:induction false} WalkShrinks(pool: Pool, p: seq<Str>, meta: Meta) returns (last: Meta)
    requires ValidPool(pool) && Walk(pool, p) && Unfolds(pool, p[0], meta)
    ensures Unfolds(pool, p[|p| - 1], last)
    ensures if |p| == 1 then last == meta else last < meta
    decreases |p|
  {
    hide ValidPool, Unfolds, Edge;
    if |p| == 1 {
      return meta;
    }
    var next := EdgeShrinks(pool, p[0], p[1], meta);
    WalkPart(pool, p, 1);
    last := WalkShrinks(pool, p[1..], next);
  }

  lemma WalkPart(pool: Pool, p: seq<Str>, i: nat)
    requires ValidPool(pool) && Walk(pool, p) && i < |p|
    ensures Walk(pool, p[..i + 1]) && Walk(pool, p[i..])
  {
    hide Edge;
    forall j | 0 <= j < |p[i..]| - 1 ensures Edge(pool, p[i..][j], p[i..][j + 1]) {
      assert Edge(pool, p[i + j], p[i + j + 1]);
    }
  }

  /** A walk cannot come back to a type it has been through: the unfolding would be smaller than itself. */
  lemma NoComingBack(pool: Pool, p: seq<Str>, i: nat, meta: Meta)
    requires ValidPool(pool) && Walk(pool, p) && Unfolds(pool, p[0], meta) && i < |p| - 1
    ensures p[i] != p[|p| - 1]
  {
    hide ValidPool, Unfolds, Edge;
    WalkPart(pool, p, i);
    assert p[..i + 1][0] == p[0] && p[..i + 1][i] == p[i] == p[i..][0];
    var mid := WalkShrinks(pool, p[..i + 1], meta);
    var last := WalkShrinks(pool, p[i..], mid);
    if p[i] == p[|p| - 1] {
      UnfoldsOnce(pool, p[i], mid, last);
    }
  }

  /** A type from which a cycle or a malformed map can be reached has no unfolding. */
  lemma UnfoldingHasNoDefect(pool: Pool, root: Str, meta: Meta)
    requires ValidPool(pool) && Unfolds(pool, root, meta)
    ensures !Defective(pool, root)
  {
    hide CycleThrough, BadMapFrom;
    if n :| CycleThrough(pool, root, n) {
      NoCycle(pool, root, meta, n);
    }
    if e :| BadMapFrom(pool, root, e) {
      NoBadMapBelow(pool, root, meta, e);
    }
  }

  lemma NoCycle(pool: Pool, root: Str, meta: Meta, n: Str)
    requires ValidPool(pool) && Unfolds(pool, root, meta)
    ensures !CycleThrough(pool, root, n)
  {
    hide ValidPool, Unfolds, Edge;
    if CycleThrough(pool, root, n) {
      var p, i :| Walk(pool, p) && p[0] == root && 0 <= i < |p| - 1 && p[i] == p[|p| - 1] == n;
      hide Walk;
      NoComingBack(pool, p, i, meta);
    }
  }

  lemma NoBadMapBelow(pool: Pool, root: Str, meta: Meta, e: BuildError)
    requires ValidPool(pool) && Unfolds(pool, root, meta)
    ensures !BadMapFrom(pool, root, e)
  {
    hide ValidPool, Unfolds, Edge, HasBadMap;
    if BadMapFrom(pool, root, e) {
      var p :| Walk(pool, p) && p[0] == root && HasBadMap(pool, p[|p| - 1], e);
      var last := WalkShrinks(pool, p, meta);
      NoBadMap(pool, p[|p| - 1], last, e);
    }
  }

  lemma NoBadMap(pool: Pool, n: Str, meta: Meta, e: BuildError)
    requires ValidPool(pool) && Unfolds(pool, n, meta)
    ensures !HasBadMap(pool, n, e)
  {
    hide UnfoldsKind;
    forall i | 0 <= i < |pool[n]| ensures !BadMap(pool, pool[n][i], e) {
      var f := pool[n][i];
      assert FieldUnfolds(pool, f, meta);
      assert UnfoldsShape(pool, f, meta.byName[f.name].shape);
    }
  }

  ghost predicate Defective(pool: Pool, root: Str)
    requires ValidPool(pool)
  {
    CycleFrom(pool, root) || exists e :: BadMapFrom(pool, root, e)
  }

  // -------------------------------------------------------------- the builder

  /** The cache and the in-progress set the recursive builders share. */
  class BuildState {
    var cache: map<Str, Meta>
    var inProgress: set<Str>

    constructor ()
      ensures cache == map[] && inProgress == {}
    {
      cache, inProgress := map[], {};
    }

    /** Cached metadata is the plain unfolding. */
    ghost predicate Sound(pool: Pool)
      requires ValidPool(pool)
      reads this
    {
      forall n :: n in cache ==> Unfolds(pool, n, cache[n])
    }

    /** The types in progress are those on the walk below the method's own message. */
    ghost predicate On(pool: Pool, walk: seq<Str>)
      requires ValidPool(pool)
      reads this
    {
      && Walk(pool, walk)
      && (forall n :: n in inProgress <==> exists i :: 1 <= i < |walk| && walk[i] == n)
      && inProgress <= pool.Keys
    }
  }

  /** What an error means: the defect it names can be reached from the walk's first type. */
  ghost predicate Explains(pool: Pool, root: Str, e: BuildError)
    requires ValidPool(pool)
  {
    if e.Recursive? then CycleThrough(pool, root, e.name) else BadMapFrom(pool, root, e)
  }

  method BuildKind(pool: Pool, kind: ProtoKind, st: BuildState, ghost walk: seq<Str>) returns (r: Result<Kind, BuildError>)
    requires ValidPool(pool) && ValidKind(pool, kind) && st.Sound(pool) && st.On(pool, walk)
    requires kind.ProtoMessage? ==> Edge(pool, walk[|walk| - 1], kind.name)
    modifies st
    ensures st.Sound(pool)
    ensures r.Ok? ==> st.inProgress == old(st.inProgress) && UnfoldsKind(pool, kind, r.value)
    ensures r.Err? ==> Explains(pool, walk[0], r.error)
    decreases |pool.Keys - st.inProgress|, 1
  {
    match kind {
      case ProtoPrim(p) =>
        r := Ok(Plain(p));
      case ProtoEnum(e) =>
        r := Ok(Enum(e));
      case ProtoMessage(n) =>
        var meta :- BuildMessageMeta(pool, n, st, walk);
        r := Ok(Message(meta));
    }
  }

  method BuildMessageMeta(pool: Pool, n: Str, st: BuildState, ghost walk: seq<Str>) returns (r: Result<Meta, BuildError>)
    requires ValidPool(pool) && n in pool && st.Sound(pool) && st.On(pool, walk)
    requires Edge(pool, walk[|walk| - 1], n)
    modifies st
    ensures st.Sound(pool)
    ensures r.Ok? ==> st.inProgress == old(st.inProgress) && Unfolds(pool, n, r.value)
    ensures r.Err? ==> Explains(pool, walk[0], r.error)
    decreases |pool.Keys - st.inProgress|, 0
  {
    hide Edge, UnfoldsUpTo, UnfoldsShape, ValidPool, ValidFields, ValidKind, Walk, CycleThrough, BadMapFrom;
    if n in st.cache {
      return Ok(st.cache[n]);
    }
    ghost var longer := walk + [n];
    ghost var before := st.inProgress;
    WalkExtends(pool, walk, n);
    if n in st.inProgress {
      ComesBack(pool, walk, n);
      return Err(Recursive(n));
    }
    SmallerSet(pool.Keys - (st.inProgress + {n}), pool.Keys - st.inProgress, n);
    st.inProgress := st.inProgress + {n};
    StillOn(pool, walk, n, before, st.inProgress);
    var tables := BuildTables(pool, n, st, longer);
    if tables.Err? {
      return tables;
    }
    st.cache := st.cache[n := tables.value];
    st.inProgress := st.inProgress - {n};
    assert st.inProgress == before;
    r := tables;
  }

  /** The field loop of `BuildMessageMeta`, filling both tables. */
  method BuildTables(pool: Pool, n: Str, st: BuildState, ghost walk: seq<Str>) returns (r: Result<Meta, BuildError>)
    requires ValidPool(pool) && n in pool && st.Sound(pool) && st.On(pool, walk) && walk[|walk| - 1] == n
    modifies st
    ensures st.Sound(pool)
    ensures r.Ok? ==> st.inProgress == old(st.inProgress) && Unfolds(pool, n, r.value)
    ensures r.Err? ==> Explains(pool, walk[0], r.error)
    decreases |pool.Keys - st.inProgress|, 3
  {
    hide Edge, UnfoldsUpTo, UnfoldsShape, ValidPool, ValidFields, ValidKind, CycleThrough, BadMapFrom;
    var fields := pool[n];
    var byName: map<Str, InputField> := map[];
    var byNumber: map<u32, (Str, Shape)> := map[];
    FieldsValid(pool, n);
    NoFieldsYet(pool, fields);
    for i := 0 to |fields|
      invariant st.Sound(pool) && st.inProgress == old(st.inProgress) && st.On(pool, walk)
      invariant UnfoldsUpTo(pool, fields, i, Meta(byName, byNumber))
    {
      var f := fields[i];
      var shape :- BuildShape(pool, f, st, walk, i);
      UnfoldsOneMore(pool, n, i, Meta(byName, byNumber), shape);
      if f.number != 0 {
        byNumber := byNumber[f.number := (f.name, shape)];
      }
      byName := byName[f.name := InputField(f.number, shape)];
    }
    r := Ok(Meta(byName, byNumber));
  }

  method BuildShape(pool: Pool, f: FieldDesc, st: BuildState, ghost walk: seq<Str>, ghost at: nat)
    returns (r: Result<Shape, BuildError>)
    requires ValidPool(pool) && st.Sound(pool) && st.On(pool, walk)
    requires walk[|walk| - 1] in pool && at < |pool[walk[|walk| - 1]]| && f == pool[walk[|walk| - 1]][at]
    modifies st
    ensures st.Sound(pool)
    ensures r.Ok? ==> st.inProgress == old(st.inProgress) && UnfoldsShape(pool, f, r.value)
    ensures r.Err? ==> Explains(pool, walk[0], r.error)
    decreases |pool.Keys - st.inProgress|, 2
  {
    if f.isMap {
      assert forall e :: BadMap(pool, f, e) ==> BadMapFrom(pool, walk[0], e);
      if !f.kind.ProtoMessage? {
        return Err(MapNotMessage);
      }
      var key := FindField(pool[f.kind.name], KEY);
      if key.None? {
        return Err(MissingMapKey);
      }
      var value := FindField(pool[f.kind.name], VALUE);
      if value.None? {
        return Err(MissingMapValue);
      }
      assert ValidFields(pool, pool[f.kind.name]);
      var kind :- BuildKind(pool, value.value.kind, st, walk);
      return Ok(MapOf(key.value.kind, kind));
    }
    var kind :- BuildKind(pool, f.kind, st, walk);
    r := Ok(if f.isList then List(kind) else Single(kind));
  }

  lemma WalkExtends(pool: Pool, walk: seq<Str>, n: Str)
    requires ValidPool(pool) && Walk(pool, walk) && Edge(pool, walk[|walk| - 1], n)
    ensures Walk(pool, walk + [n])
  {
    hide Edge;
    var longer := walk + [n];
    forall i | 0 <= i < |longer| - 1 ensures Edge(pool, longer[i], longer[i + 1]) {
      if i < |walk| - 1 {
        assert Edge(pool, walk[i], walk[i + 1]);
      }
    }
  }

  lemma ComesBack(pool: Pool, walk: seq<Str>, n: Str)
    requires ValidPool(pool) && Walk(pool, walk) && Walk(pool, walk + [n])
    requires exists i :: 1 <= i < |walk| && walk[i] == n
    ensures CycleThrough(pool, walk[0], n)
  {
    hide Edge;
    var i :| 1 <= i < |walk| && walk[i] == n;
    var longer := walk + [n];
    assert Walk(pool, longer) && longer[0] == walk[0] && longer[i] == longer[|longer| - 1];
  }

  lemma StillOn(pool: Pool, walk: seq<Str>, n: Str, before: set<Str>, after: set<Str>)
    requires ValidPool(pool) && Walk(pool, walk) && n in pool && after == before + {n}
    requires forall m :: m in before <==> exists i :: 1 <= i < |walk| && walk[i] == m
    ensures forall m :: m in after <==> exists i :: 1 <= i < |walk + [n]| && (walk + [n])[i] == m
  {
    hide Edge;
    var longer := walk + [n];
    forall m
      ensures m in after <==> exists i :: 1 <= i < |longer| && longer[i] == m
    {
      if m in before {
        var i :| 1 <= i < |walk| && walk[i] == m;
        assert longer[i] == m;
      }
      if m == n {
        assert longer[|walk|] == m;
      }
      if i :| 1 <= i < |longer| && longer[i] == m && i < |walk| {
        assert walk[i] == m;
      }
    }
  }

  lemma SmallerSet<T>(a: set<T>, b: set<T>, x: T)
    requires a <= b && x in b && x !in a
    ensures |a| < |b|
  {
    assert a <= b - {x};
    SubsetSize(a, b - {x});
  }

  lemma FieldsValid(pool: Pool, n: Str)
    requires ValidPool(pool) && n in pool
    ensures ValidFields(pool, pool[n])
  {
  }

  lemma NoFieldsYet(pool: Pool, fields: seq<FieldDesc>)
    requires ValidPool(pool) && ValidFields(pool, fields)
    ensures UnfoldsUpTo(pool, fields, 0, Meta(map[], map[]))
  {
  }

  /** The two tables with field `f` put in. */
  function Enter(meta: Meta, f: FieldDesc, shape: Shape): Meta {
    Meta(meta.byName[f.name := InputField(f.number, shape)],
         if f.number != 0 then meta.byNumber[f.number := (f.name, shape)] else meta.byNumber)
  }

  lemma EnterKeeps(pool: Pool, f: FieldDesc, meta: Meta, g: FieldDesc, shape: Shape)
    requires ValidPool(pool) && ValidKind(pool, f.kind)
    requires f.name != g.name && f.number != g.number && FieldUnfolds(pool, f, meta)
    ensures FieldUnfolds(pool, f, Enter(meta, g, shape))
  {
    hide UnfoldsShape, ValidPool;
  }

  lemma EnterPuts(pool: Pool, meta: Meta, g: FieldDesc, shape: Shape)
    requires ValidPool(pool) && ValidKind(pool, g.kind) && UnfoldsShape(pool, g, shape)
    ensures FieldUnfolds(pool, g, Enter(meta, g, shape))
  {
    hide UnfoldsShape, ValidPool;
  }

  lemma EnterNothingElse(fields: seq<FieldDesc>, i: nat, meta: Meta, shape: Shape)
    requires i < |fields| && NothingElse(fields, i, meta)
    ensures NothingElse(fields, i + 1, Enter(meta, fields[i], shape))
  {
    var next := Enter(meta, fields[i], shape);
    forall name | name in next.byName ensures exists j :: 0 <= j < i + 1 && fields[j].name == name {
      if name == fields[i].name {
        assert fields[i].name == name;
      } else {
        var j :| 0 <= j < i && fields[j].name == name;
      }
    }
    forall n | n in next.byNumber ensures n != 0 && exists j :: 0 <= j < i + 1 && fields[j].number == n {
      if n == fields[i].number {
        assert fields[i].number == n;
      } else {
        var j :| 0 <= j < i && fields[j].number == n;
      }
    }
  }

  /** One more field entered into both tables. */
  lemma UnfoldsOneMore(pool: Pool, n: Str, i: nat, meta: Meta, shape: Shape)
    requires ValidPool(pool) && n in pool && i < |pool[n]| && UnfoldsUpTo(pool, pool[n], i, meta)
    requires UnfoldsShape(pool, pool[n][i], shape)
    ensures UnfoldsUpTo(pool, pool[n], i + 1, Enter(meta, pool[n][i], shape))
  {
    hide UnfoldsShape, Enter, FieldUnfolds, NothingElse, ValidKind;
    var fields := pool[n];
    FieldsValid(pool, n);
    forall j | 0 <= j < i + 1
      ensures FieldUnfolds(pool, fields[j], Enter(meta, fields[i], shape))
    {
      if j < i {
        EnterKeeps(pool, fields[j], meta, fields[i], shape);
      } else {
        EnterPuts(pool, meta, fields[i], shape);
      }
    }
    EnterNothingElse(fields, i, meta, shape);
  }

  // --------------------------------------------------------------- the method

  datatype OutputField = OutputField(number: u32, name: Str, shape: Shape)

  datatype GrpcMethod = GrpcMethod(
    inputFields: map<Str, InputField>,
    outputFields: seq<OutputField>,
    outputIndex: map<u32, nat>
  )

  ghost predicate IndexesInto(index: map<u32, nat>, fields: seq<OutputField>) {
    forall n :: n in index ==> index[n] < |fields|
  }

  /** The by-number table the method-level decoder looks fields up in: through the index, then the list. */
  ghost function OutputTable(index: map<u32, nat>, fields: seq<OutputField>): map<u32, (Str, Shape)>
    requires IndexesInto(index, fields)
  {
    map n | n in index :: (fields[index[n]].name, fields[index[n]].shape)
  }

  lemma ExplainedIsDefective(pool: Pool, root: Str, e: BuildError)
    requires ValidPool(pool) && Explains(pool, root, e)
    ensures Defective(pool, root)
  {
    hide CycleThrough, BadMapFrom;
  }

  /** Every field of the request type is there, under its name, with its number and its shape; no other is. */
  ghost predicate DescribesInputs(pool: Pool, fields: seq<FieldDesc>, inputs: map<Str, InputField>)
    requires ValidPool(pool) && ValidFields(pool, fields)
  {
    && (forall i :: 0 <= i < |fields| ==>
          fields[i].name in inputs && inputs[fields[i].name].number == fields[i].number
          && UnfoldsShape(pool, fields[i], inputs[fields[i].name].shape))
    && (forall name :: name in inputs ==> exists i :: 0 <= i < |fields| && fields[i].name == name)
  }

  /** The fields of the reply type are listed in order, with their numbers, names and shapes. */
  ghost predicate DescribesOutputs(pool: Pool, fields: seq<FieldDesc>, outputs: seq<OutputField>)
    requires ValidPool(pool) && ValidFields(pool, fields)
  {
    |outputs| == |fields| && forall i :: 0 <= i < |fields| ==>
      outputs[i].number == fields[i].number && outputs[i].name == fields[i].name && UnfoldsShape(pool, fields[i], outputs[i].shape)
  }

  lemma UnfoldingDescribes(pool: Pool, n: Str, meta: Meta)
    requires ValidPool(pool) && n in pool && ValidFields(pool, pool[n]) && Unfolds(pool, n, meta)
    ensures DescribesInputs(pool, pool[n], meta.byName)
  {
    hide UnfoldsShape, ValidPool;
    var fields := pool[n];
    forall i | 0 <= i < |fields|
      ensures fields[i].name in meta.byName && meta.byName[fields[i].name].number == fields[i].number
              && UnfoldsShape(pool, fields[i], meta.byName[fields[i].name].shape)
    {
      assert FieldUnfolds(pool, fields[i], meta);
    }
  }

  /** The method's own messages are walked field by field, with one cache for input and output. */
  method BuildMethod(pool: Pool, input: Str, output: Str)
    returns (r: Result<GrpcMethod, BuildError>, ghost inMeta: Meta, ghost outMeta: Meta)
    requires ValidPool(pool) && input in pool && output in pool
    ensures r.Ok? <==> !Defective(pool, input) && !Defective(pool, output)
    ensures r.Err? ==> Explains(pool, input, r.error) || Explains(pool, output, r.error)
    ensures r.Ok? ==> Unfolds(pool, input, inMeta) && r.value.inputFields == inMeta.byName
    ensures r.Ok? ==> Unfolds(pool, output, outMeta) && IndexesInto(r.value.outputIndex, r.value.outputFields)
                      && OutputTable(r.value.outputIndex, r.value.outputFields) == outMeta.byNumber
    ensures r.Ok? ==> DescribesInputs(pool, pool[input], r.value.inputFields)
    ensures r.Ok? ==> DescribesOutputs(pool, pool[output], r.value.outputFields)
  {
    hide ValidPool, Unfolds, Explains, Defective, OutputTable, UnfoldsShape, ValidFields;
    FieldsValid(pool, input);
    FieldsValid(pool, output);
    inMeta, outMeta := Meta(map[], map[]), Meta(map[], map[]);
    var st := new BuildState();
    var inputs;
    inputs, inMeta := BuildInput(pool, input, st);
    if inputs.Err? {
      ExplainedIsDefective(pool, input, inputs.error);
      return Err(inputs.error), inMeta, outMeta;
    }
    var outputs;
    outputs, outMeta := BuildOutput(pool, output, st);
    if outputs.Err? {
      ExplainedIsDefective(pool, output, outputs.error);
      return Err(outputs.error), inMeta, outMeta;
    }
    var index := IndexByNumber(outputs.value, outMeta.byNumber);
    UnfoldingHasNoDefect(pool, input, inMeta);
    UnfoldingHasNoDefect(pool, output, outMeta);
    UnfoldingDescribes(pool, input, inMeta);
    r := Ok(GrpcMethod(inputs.value, outputs.value, index));
  }

  method BuildInput(pool: Pool, n: Str, st: BuildState)
    returns (r: Result<map<Str, InputField>, BuildError>, ghost meta: Meta)
    requires ValidPool(pool) && n in pool && st.Sound(pool) && st.inProgress == {}
    modifies st
    ensures st.Sound(pool)
    ensures r.Ok? ==> st.inProgress == {} && Unfolds(pool, n, meta) && r.value == meta.byName
    ensures r.Err? ==> Explains(pool, n, r.error)
  {
    hide ValidPool, UnfoldsUpTo, UnfoldsShape, Edge;
    var fields := pool[n];
    var byName: map<Str, InputField> := map[];
    meta := Meta(map[], map[]);
    FieldsValid(pool, n);
    NoFieldsYet(pool, fields);
    for i := 0 to |fields|
      invariant st.Sound(pool) && st.inProgress == {} && st.On(pool, [n])
      invariant UnfoldsUpTo(pool, fields, i, meta) && byName == meta.byName
    {
      var f := fields[i];
      var shape := BuildShape(pool, f, st, [n], i);
      if shape.Err? {
        return Err(shape.error), meta;
      }
      UnfoldsOneMore(pool, n, i, meta, shape.value);
      meta := Enter(meta, f, shape.value);
      byName := byName[f.name := InputField(f.number, shape.value)];
    }
    r := Ok(byName);
  }

  /** The output fields are listed in order, with the shapes the unfolding has. */
  ghost predicate Lists(fields: seq<FieldDesc>, count: nat, outputs: seq<OutputField>, meta: Meta)
    requires count <= |fields|
  {
    |outputs| == count && forall j :: 0 <= j < count ==>
      && outputs[j].number == fields[j].number && outputs[j].name == fields[j].name
      && fields[j].name in meta.byName && meta.byName[fields[j].name].shape == outputs[j].shape
  }

  method BuildOutput(pool: Pool, n: Str, st: BuildState) returns (r: Result<seq<OutputField>, BuildError>, ghost meta: Meta)
    requires ValidPool(pool) && n in pool && st.Sound(pool) && st.inProgress == {}
    modifies st
    ensures st.Sound(pool)
    ensures r.Ok? ==> Unfolds(pool, n, meta) && Tabulates(r.value, meta.byNumber)
    ensures r.Ok? ==> ValidFields(pool, pool[n]) && DescribesOutputs(pool, pool[n], r.value)
    ensures r.Err? ==> Explains(pool, n, r.error)
  {
    hide ValidPool, ValidFields, UnfoldsUpTo, UnfoldsShape, Edge, Tabulates;
    var fields := pool[n];
    var outputs: seq<OutputField> := [];
    meta := Meta(map[], map[]);
    FieldsValid(pool, n);
    NoFieldsYet(pool, fields);
    for i := 0 to |fields|
      invariant st.Sound(pool) && st.inProgress == {} && st.On(pool, [n])
      invariant UnfoldsUpTo(pool, fields, i, meta) && Lists(fields, i, outputs, meta)
    {
      var f := fields[i];
      var shape := BuildShape(pool, f, st, [n], i);
      if shape.Err? {
        return Err(shape.error), meta;
      }
      UnfoldsOneMore(pool, n, i, meta, shape.value);
      meta := Enter(meta, f, shape.value);
      outputs := outputs + [OutputField(f.number, f.name, shape.value)];
    }
    ListsTabulate(pool, n, outputs, meta);
    ListsDescribe(pool, n, outputs, meta);
    r := Ok(outputs);
  }

  /** Distinct numbers, each non-zero one with its field's table row. */
  ghost predicate Tabulates(outputs: seq<OutputField>, byNumber: map<u32, (Str, Shape)>) {
    && (forall i, j :: 0 <= i < j < |outputs| ==> outputs[i].number != outputs[j].number)
    && (forall i :: 0 <= i < |outputs| && outputs[i].number != 0 ==>
          outputs[i].number in byNumber && byNumber[outputs[i].number] == (outputs[i].name, outputs[i].shape))
    && (forall n :: n in byNumber ==> n != 0 && exists i :: 0 <= i < |outputs| && outputs[i].number == n)
  }

  lemma ListsDescribe(pool: Pool, n: Str, outputs: seq<OutputField>, meta: Meta)
    requires ValidPool(pool) && Unfolds(pool, n, meta) && ValidFields(pool, pool[n]) && Lists(pool[n], |pool[n]|, outputs, meta)
    ensures DescribesOutputs(pool, pool[n], outputs)
  {
    hide UnfoldsShape, ValidPool, ValidFields;
    UnfoldingDescribes(pool, n, meta);
  }

  lemma ListsTabulate(pool: Pool, n: Str, outputs: seq<OutputField>, meta: Meta)
    requires ValidPool(pool) && Unfolds(pool, n, meta) && Lists(pool[n], |pool[n]|, outputs, meta)
    ensures Tabulates(outputs, meta.byNumber)
  {
    hide UnfoldsShape;
    var fields := pool[n];
    forall i | 0 <= i < |outputs| && outputs[i].number != 0
      ensures outputs[i].number in meta.byNumber && meta.byNumber[outputs[i].number] == (outputs[i].name, outputs[i].shape)
    {
      assert FieldUnfolds(pool, fields[i], meta);
    }
    forall k | k in meta.byNumber ensures k != 0 && exists i :: 0 <= i < |outputs| && outputs[i].number == k {
      var i :| 0 <= i < |fields| && fields[i].number == k;
      assert outputs[i].number == k;
    }
  }

  method IndexByNumber(outputs: seq<OutputField>, ghost byNumber: map<u32, (Str, Shape)>) returns (index: map<u32, nat>)
    requires Tabulates(outputs, byNumber)
    ensures IndexesInto(index, outputs) && OutputTable(index, outputs) == byNumber
  {
    index := map[];
    for i := 0 to |outputs|
      invariant forall n :: n in index ==> n != 0 && index[n] < i && outputs[index[n]].number == n
      invariant forall j :: 0 <= j < i && outputs[j].number != 0 ==>
                  outputs[j].number in index && index[outputs[j].number] == j
    {
      if outputs[i].number != 0 {
        index := index[outputs[i].number := i];
      }
    }
    assert OutputTable(index, outputs).Keys == byNumber.Keys;
    assert OutputTable(index, outputs) == byNumber;
  }
}
