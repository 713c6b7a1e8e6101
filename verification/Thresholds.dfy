/** Threshold metric keys such as `name{k=v,...}`: parser, printer, and the export and import of threshold sets. */
module Thresholds {
  import opened Wrappers
  import opened Strings

  type Tag = (string, string)

  datatype KeyError =
    | EmptyKey | MissingName | MissingBrace | MissingEquals | EmptyPair | UnsupportedCharacter | DuplicateTag | EmptySelector

  /** A metric name with its tag selector. */
  datatype MetricKey = MetricKey(metric: string, tags: seq<Tag>)

  // ----------------------------------------------------------------------- parsing

  predicate Simple(s: string) {
    forall c :: c in s ==> !Whitespace(c) && c != '{' && c != '}' && c != ',' && c != '='
  }

  predicate HasKey(tags: seq<Tag>, k: string) {
    exists i :: 0 <= i < |tags| && tags[i].0 == k
  }

  /** One `k=v` of a selector; a blank part is skipped. */
  function AddPart(tags: seq<Tag>, raw: string): Result<seq<Tag>, KeyError> {
    var part := Trim(raw);
    if part == "" then Ok(tags)
    else
      var i := Find(part, '=');
      if i == |part| then Err(MissingEquals)
      else
        var k, v := Trim(part[..i]), Trim(part[i + 1..]);
        if k == "" || v == "" then Err(EmptyPair)
        else if !Simple(k) || !Simple(v) then Err(UnsupportedCharacter)
        else if HasKey(tags, k) then Err(DuplicateTag)
        else Ok(tags + [(k, v)])
  }

  function AddParts(parts: seq<string>): Result<seq<Tag>, KeyError> {
    if parts == [] then Ok([])
    else
      var tags :- AddParts(parts[..|parts| - 1]);
      AddPart(tags, parts[|parts| - 1])
  }

  predicate TagBefore(a: Tag, b: Tag) {
    Before(a.0, b.0) || (a.0 == b.0 && Before(a.1, b.1))
  }

  function Insert(t: Tag, tags: seq<Tag>): seq<Tag> {
    if tags == [] || !TagBefore(tags[0], t) then [t] + tags else [tags[0]] + Insert(t, tags[1..])
  }

  /** The tags by key, then value. */
  function Sort(tags: seq<Tag>): seq<Tag> {
    if tags == [] then [] else Insert(tags[0], Sort(tags[1..]))
  }

  function ParseKey(raw: string): Result<MetricKey, KeyError> {
    var key := Trim(raw);
    if key == "" then Err(EmptyKey)
    else
      var i := Find(key, '{');
      if i == |key| then Ok(MetricKey(key, []))
      else
        var name, rest := Trim(key[..i]), key[i + 1..];
        if name == "" then Err(MissingName)
        else if rest == "" || rest[|rest| - 1] != '}' then Err(MissingBrace)
        else
          var tags :- AddParts(Split(rest[..|rest| - 1], ','));
          if tags == [] then Err(EmptySelector) else Ok(MetricKey(name, Sort(tags)))
  }

  method ParseThresholdMetricKey(raw: string) returns (r: Result<MetricKey, KeyError>)
    ensures r == ParseKey(raw)
  {
    hide AddPart, Trim, Find, Split, Sort;
    var key := Trim(raw);
    if key == "" {
      return Err(EmptyKey);
    }
    var at := Find(key, '{');
    if at == |key| {
      return Ok(MetricKey(key, []));
    }
    var name := Trim(key[..at]);
    if name == "" {
      return Err(MissingName);
    }
    var rest := key[at + 1..];
    if rest == "" || rest[|rest| - 1] != '}' {
      return Err(MissingBrace);
    }
    var parts := Split(rest[..|rest| - 1], ',');
    var tags: seq<Tag> := [];
    for n := 0 to |parts|
      invariant AddParts(parts[..n]) == Ok(tags)
    {
      assert parts[..n + 1][..n] == parts[..n];
      StopsAtError(parts, n);
      var added := AddSelectorPart(tags, parts[n]);
      if added.Err? {
        return Err(added.error);
      }
      tags := added.value;
    }
    assert parts[..|parts|] == parts;
    if tags == [] {
      return Err(EmptySelector);
    }
    r := Ok(MetricKey(name, Sort(tags)));
  }

  /** The loop's body: one part of a selector. */
  method AddSelectorPart(tags: seq<Tag>, raw: string) returns (r: Result<seq<Tag>, KeyError>)
    ensures r == AddPart(tags, raw)
  {
    hide Trim, Find, Simple, HasKey;
    var part := Trim(raw);
    if part == "" {
      return Ok(tags);
    }
    var i := Find(part, '=');
    if i == |part| {
      return Err(MissingEquals);
    }
    var k, v := Trim(part[..i]), Trim(part[i + 1..]);
    if k == "" || v == "" {
      return Err(EmptyPair);
    }
    if !Simple(k) || !Simple(v) {
      return Err(UnsupportedCharacter);
    }
    if HasKey(tags, k) {
      return Err(DuplicateTag);
    }
    r := Ok(tags + [(k, v)]);
  }

  /** The first error of a list is its result. */
  lemma {:induction false} StopsAtError(parts: seq<string>, n: nat)
    requires n < |parts|
    ensures AddParts(parts[..n + 1]).Err? ==> AddParts(parts) == AddParts(parts[..n + 1])
    decreases |parts|
  {
    if n + 1 == |parts| {
      assert parts[..n + 1] == parts;
    } else {
      var front := parts[..|parts| - 1];
      StopsAtError(front, n);
      assert front[..n + 1] == parts[..n + 1];
    }
  }

  // -------------------------------------------------------------- canonical results

  predicate StrictlySorted(tags: seq<Tag>) {
    forall i, j :: 0 <= i < j < |tags| ==> Before(tags[i].0, tags[j].0)
  }

  predicate SimpleTag(t: Tag) {
    t.0 != "" && t.1 != "" && Simple(t.0) && Simple(t.1)
  }

  predicate DistinctKeys(tags: seq<Tag>) {
    forall i, j :: 0 <= i < j < |tags| ==> tags[i].0 != tags[j].0
  }

  /** A trimmed non-empty name without `{`, and simple tags in strict order of their keys. */
  predicate Canonical(k: MetricKey) {
    && k.metric != "" && Trimmed(k.metric) && '{' !in k.metric
    && (forall i :: 0 <= i < |k.tags| ==> SimpleTag(k.tags[i]))
    && StrictlySorted(k.tags)
  }

  lemma {:induction false} InsertSorts(t: Tag, tags: seq<Tag>)
    requires StrictlySorted(tags) && !HasKey(tags, t.0)
    ensures StrictlySorted(Insert(t, tags)) && multiset(Insert(t, tags)) == multiset{t} + multiset(tags)
    decreases |tags|
  {
    hide Before;
    if tags != [] {
      assert tags == [tags[0]] + tags[1..];
      BeforeIsTotal(tags[0].0, t.0);
      assert tags[0].0 != t.0;
      if TagBefore(tags[0], t) {
        InsertSorts(t, tags[1..]);
        var rest := Insert(t, tags[1..]);
        forall i | 0 <= i < |rest|
          ensures Before(tags[0].0, rest[i].0)
        {
          assert rest[i] in multiset(rest);
        }
      } else {
        forall i | 0 < i < |tags|
          ensures Before(t.0, tags[i].0)
        {
          BeforeIsTransitive(t.0, tags[0].0, tags[i].0);
        }
      }
    }
  }

  lemma {:induction false} SortSorts(tags: seq<Tag>)
    requires DistinctKeys(tags)
    ensures StrictlySorted(Sort(tags)) && multiset(Sort(tags)) == multiset(tags)
    decreases |tags|
  {
    if tags != [] {
      SortSorts(tags[1..]);
      assert tags == [tags[0]] + tags[1..];
      forall i | 0 <= i < |Sort(tags[1..])|
        ensures Sort(tags[1..])[i].0 != tags[0].0
      {
        assert Sort(tags[1..])[i] in multiset(tags[1..]);
      }
      InsertSorts(tags[0], Sort(tags[1..]));
    }
  }

  lemma {:induction false} SortKeepsSorted(tags: seq<Tag>)
    requires StrictlySorted(tags)
    ensures Sort(tags) == tags
    decreases |tags|
  {
    if tags != [] {
      SortKeepsSorted(tags[1..]);
      assert tags == [tags[0]] + tags[1..];
      if |tags| > 1 {
        BeforeIsTotal(tags[0].0, tags[1].0);
      }
    }
  }

  lemma {:induction false} AddedAreSimple(parts: seq<string>)
    requires AddParts(parts).Ok?
    ensures DistinctKeys(AddParts(parts).value)
    ensures forall i :: 0 <= i < |AddParts(parts).value| ==> SimpleTag(AddParts(parts).value[i])
    decreases |parts|
  {
    if parts != [] {
      AddedAreSimple(parts[..|parts| - 1]);
    }
  }

  /** Whatever parses is canonical. */
  lemma ParsedIsCanonical(raw: string)
    requires ParseKey(raw).Ok?
    ensures Canonical(ParseKey(raw).value)
  {
    hide Find, Split, Trim, AddParts, Sort, Simple, DistinctKeys;
    var key := Trim(raw);
    TrimTrims(raw);
    var i := Find(key, '{');
    if i == |key| {
      FindNone(key, '{');
    } else {
      TrimTrims(key[..i]);
      var parts := Split(key[i + 1..|key| - 1], ',');
      assert key[i + 1..][..|key[i + 1..]| - 1] == key[i + 1..|key| - 1];
      AddedAreSimple(parts);
      var tags := AddParts(parts).value;
      SortSorts(tags);
      forall n | 0 <= n < |Sort(tags)|
        ensures SimpleTag(Sort(tags)[n])
      {
        assert Sort(tags)[n] in multiset(tags);
      }
    }
  }

  // ---------------------------------------------------------------------- rendering

  function RenderTag(t: Tag): string {
    t.0 + "=" + t.1
  }

  function RenderTags(tags: seq<Tag>): (parts: seq<string>)
    ensures |parts| == |tags|
    ensures forall i :: 0 <= i < |tags| ==> parts[i] == RenderTag(tags[i])
  {
    seq(|tags|, i requires 0 <= i < |tags| => RenderTag(tags[i]))
  }

  /** `render_metric_key` */
  function Render(k: MetricKey): string {
    if k.tags == [] then k.metric else k.metric + "{" + Join(RenderTags(k.tags), ',') + "}"
  }

  lemma PartParses(tags: seq<Tag>, t: Tag)
    requires SimpleTag(t) && !HasKey(tags, t.0)
    ensures AddPart(tags, RenderTag(t)) == Ok(tags + [t])
  {
    var part := RenderTag(t);
    assert part == t.0 + ['='] + t.1;
    assert part[0] == t.0[0] && part[|part| - 1] == t.1[|t.1| - 1];
    TrimTrims(part);
    FindFirst(t.0, '=', t.1);
    assert part[..|t.0|] == t.0 && part[|t.0| + 1..] == t.1;
    TrimTrims(t.0);
    TrimTrims(t.1);
  }

  lemma {:induction false} PartsParse(tags: seq<Tag>)
    requires StrictlySorted(tags) && forall i :: 0 <= i < |tags| ==> SimpleTag(tags[i])
    ensures AddParts(RenderTags(tags)) == Ok(tags)
    decreases |tags|
  {
    if tags != [] {
      var last := |tags| - 1;
      PartsParse(tags[..last]);
      assert RenderTags(tags)[..last] == RenderTags(tags[..last]);
      if HasKey(tags[..last], tags[last].0) {
        BeforeIsTotal(tags[last].0, tags[last].0);
        assert false;
      }
      PartParses(tags[..last], tags[last]);
      assert tags[..last] + [tags[last]] == tags;
    }
  }

  lemma CommaFree(t: Tag)
    requires SimpleTag(t)
    ensures ',' !in RenderTag(t)
  {
  }

  /** A key with a selector is read back piece by piece. */
  lemma SelectorParses(k: MetricKey)
    requires Canonical(k) && k.tags != []
    ensures ParseKey(Render(k)) == Ok(k)
  {
    hide Find, Split, Trim, Join, Sort, AddParts, StrictlySorted, Simple;
    var selector := Join(RenderTags(k.tags), ',');
    var key := Render(k);
    assert key == k.metric + ['{'] + (selector + "}");
    assert key[0] == k.metric[0];
    TrimTrims(key);
    TrimTrims(k.metric);
    FindFirst(k.metric, '{', selector + "}");
    assert key[..|k.metric|] == k.metric;
    assert key[|k.metric| + 1..] == selector + "}";
    assert (selector + "}")[..|selector|] == selector;
    SelectorSplits(k.tags);
    PartsParse(k.tags);
    SortKeepsSorted(k.tags);
  }

  lemma SelectorSplits(tags: seq<Tag>)
    requires tags != [] && forall i :: 0 <= i < |tags| ==> SimpleTag(tags[i])
    ensures Split(Join(RenderTags(tags), ','), ',') == RenderTags(tags)
  {
    forall i | 0 <= i < |tags|
      ensures ',' !in RenderTags(tags)[i]
    {
      CommaFree(tags[i]);
    }
    SplitJoin(RenderTags(tags), ',');
  }

  /** A key survives printing and parsing if and only if it is canonical. */
  lemma ParseRender(k: MetricKey)
    ensures ParseKey(Render(k)) == Ok(k) <==> Canonical(k)
  {
    hide Split, Join, Sort, AddParts, StrictlySorted, Simple;
    if ParseKey(Render(k)) == Ok(k) {
      ParsedIsCanonical(Render(k));
    }
    if Canonical(k) {
      if k.tags == [] {
        TrimTrims(k.metric);
        FindNone(k.metric, '{');
      } else {
        SelectorParses(k);
      }
    }
  }

  /** Different canonical keys print differently. */
  lemma RenderIsInjective(a: MetricKey, b: MetricKey)
    requires Canonical(a) && Canonical(b) && Render(a) == Render(b)
    ensures a == b
  {
    ParseRender(a);
    ParseRender(b);
  }
}
