/** Which texts are threshold metric keys, and what they say: the parser's language, stated without the parser. */
module ThresholdGrammar {
  import opened Wrappers
  import opened Strings
  import opened Thresholds

  predicate Blank(s: string) {
    forall c :: c in s ==> c in " \t\n\r\U{000B}\U{000C}\U{0085}\U{00A0}\U{1680}\U{2000}\U{2001}\U{2002}\U{2003}\U{2004}\U{2005}\U{2006}\U{2007}\U{2008}\U{2009}\U{200A}\U{2028}\U{2029}\U{202F}\U{205F}\U{3000}"
  }

  /** `t` with blanks around it, and none of its own at its ends. */
  ghost predicate Padded(s: string, t: string) {
    && (exists a, b :: Blank(a) && Blank(b) && s == a + t + b)
    && (t != "" ==> !Blank([t[0]]) && !Blank([t[|t| - 1]]))
  }

  /** A key or value of a tag: not empty, without blanks and without the characters of the grammar. */
  predicate Word(s: string) {
    s != "" && forall c :: c in s ==> c !in "{},=" && !Blank([c])
  }

  /** A part of a selector is blank, or a word, an equals sign and a word, padded. */
  ghost predicate Says(part: string, said: Option<Tag>) {
    match said
    case None => Blank(part)
    case Some((k, v)) => Word(k) && Word(v) && exists l, r :: part == l + "=" + r && Padded(l, k) && Padded(r, v)
  }

  function Present(said: seq<Option<Tag>>): seq<Tag> {
    if said == [] then []
    else Present(said[..|said| - 1]) + match said[|said| - 1] { case None => [] case Some(t) => [t] }
  }

  ghost predicate AllSay(parts: seq<string>, said: seq<Option<Tag>>) {
    |parts| == |said| && forall i :: 0 <= i < |parts| ==> ',' !in parts[i] && Says(parts[i], said[i])
  }

  /** The tags said, in the order of their keys, no key twice. */
  ghost predicate Orders(tags: seq<Tag>, said: seq<Tag>) {
    && (forall i, j :: 0 <= i < j < |said| ==> said[i].0 != said[j].0)
    && (forall i, j :: 0 <= i < j < |tags| ==> Before(tags[i].0, tags[j].0))
    && multiset(tags) == multiset(said)
  }

  ghost predicate Selects(key: string, k: MetricKey, name: string, parts: seq<string>, said: seq<Option<Tag>>) {
    && parts != [] && key == name + "{" + Join(parts, ',') + "}" && '{' !in name
    && Padded(name, k.metric) && k.metric != "" && AllSay(parts, said) && Orders(k.tags, Present(said))
  }

  /** The text of a key: a name, and behind it perhaps a selector in braces with at least one tag. */
  ghost predicate Spells(raw: string, k: MetricKey) {
    exists key :: Padded(raw, key) && key != "" &&
      if k.tags == [] then key == k.metric && '{' !in key
      else exists name, parts, said :: Selects(key, k, name, parts, said)
  }

  // -------------------------------------------------------------------- trimming

  lemma BlankIsWhitespace(s: string)
    ensures Blank(s) <==> forall c :: c in s ==> Whitespace(c)
  {
    forall c: char
      ensures Whitespace(c) <==> Blank([c])
    {
      OneBlank(c);
    }
    if Blank(s) {
      forall c | c in s
        ensures Whitespace(c)
      {
        assert Blank([c]);
      }
    } else {
      var c :| c in s && !Blank([c]);
    }
  }

  lemma OneBlank(c: char)
    ensures Whitespace(c) <==> Blank([c])
  {
    assert c in [c];
  }

  lemma {:induction false} TrimStartSplits(s: string) returns (a: string)
    ensures s == a + TrimStart(s) && forall c :: c in a ==> Whitespace(c)
    decreases |s|
  {
    a := "";
    if s != "" && Whitespace(s[0]) {
      var more := TrimStartSplits(s[1..]);
      a := [s[0]] + more;
    }
  }

  lemma {:induction false} TrimEndSplits(s: string) returns (b: string)
    ensures s == TrimEnd(s) + b && forall c :: c in b ==> Whitespace(c)
    decreases |s|
  {
    b := "";
    if s != "" && Whitespace(s[|s| - 1]) {
      var more := TrimEndSplits(s[..|s| - 1]);
      b := more + [s[|s| - 1]];
      assert s == s[..|s| - 1] + [s[|s| - 1]];
    }
  }

  lemma {:induction false} TrimStartPadded(a: string, t: string)
    requires forall c :: c in a ==> Whitespace(c)
    ensures TrimStart(a + t) == TrimStart(t)
    decreases |a|
  {
    if a == "" {
      assert a + t == t;
    } else {
      assert (a + t)[1..] == a[1..] + t;
      TrimStartPadded(a[1..], t);
    }
  }

  lemma {:induction false} TrimEndPadded(t: string, b: string)
    requires forall c :: c in b ==> Whitespace(c)
    ensures TrimEnd(t + b) == TrimEnd(t)
    decreases |b|
  {
    if b == "" {
      assert t + b == t;
    } else {
      assert (t + b)[..|t + b| - 1] == t + b[..|b| - 1];
      TrimEndPadded(t, b[..|b| - 1]);
    }
  }

  /** Trimming takes off exactly the padding. */
  lemma TrimIsPadded(s: string, t: string)
    ensures Trim(s) == t <==> Padded(s, t)
  {
    hide Blank;
    if Trim(s) == t {
      var a := TrimStartSplits(s);
      var b := TrimEndSplits(TrimStart(s));
      BlankIsWhitespace(a);
      BlankIsWhitespace(b);
      assert s == a + t + b;
      TrimTrims(s);
      if t != "" {
        OneBlank(t[0]);
        OneBlank(t[|t| - 1]);
      }
    }
    if Padded(s, t) {
      var a, b :| Blank(a) && Blank(b) && s == a + t + b;
      BlankIsWhitespace(a);
      BlankIsWhitespace(b);
      PaddingTrims(a, t, b);
    }
  }

  lemma PaddingTrims(a: string, t: string, b: string)
    requires (forall c :: c in a ==> Whitespace(c)) && (forall c :: c in b ==> Whitespace(c))
    requires t != "" ==> !Blank([t[0]]) && !Blank([t[|t| - 1]])
    ensures Trim(a + t + b) == t
  {
    hide Blank;
    assert a + t + b == a + (t + b);
    TrimStartPadded(a, t + b);
    if t == "" {
      assert t + b == b == b + "";
      TrimStartPadded(b, "");
    } else {
      OneBlank(t[0]);
      OneBlank(t[|t| - 1]);
      assert TrimStart(t + b) == t + b;
      TrimEndPadded(t, b);
    }
  }

  lemma PaddedKeeps(s: string, t: string, c: char)
    requires Padded(s, t) && !Blank([c])
    ensures c in s <==> c in t
  {
    var a, b :| Blank(a) && Blank(b) && s == a + t + b;
  }

  // ------------------------------------------------------------------- the parts

  lemma WordIsSimple(s: string)
    ensures Word(s) <==> s != "" && Simple(s)
  {
    hide Blank;
    forall c: char
      ensures Whitespace(c) <==> Blank([c])
    {
      OneBlank(c);
    }
  }

  lemma BlankPart(raw: string)
    ensures Blank(raw) <==> Trim(raw) == ""
  {
    TrimIsPadded(raw, "");
    if Blank(raw) {
      assert raw == raw + "" + "" && Blank("");
    }
    if Padded(raw, "") {
      var a, b :| Blank(a) && Blank(b) && raw == a + "" + b;
    }
  }

  /** A part adds what it says, and is an error if it says nothing the grammar knows or a key that is there. */
  lemma PartAdds(tags: seq<Tag>, raw: string, t: Tag)
    ensures AddPart(tags, raw) == Ok(tags) <==> Says(raw, None)
    ensures AddPart(tags, raw) == Ok(tags + [t]) <==> Says(raw, Some(t)) && !HasKey(tags, t.0)
  {
    hide Trim, Find, Simple, Blank, Padded, HasKey, Word;
    BlankPart(raw);
    assert AddPart(tags, raw).Ok? && Trim(raw) != "" ==> |AddPart(tags, raw).value| == |tags| + 1;
    if AddPart(tags, raw) == Ok(tags + [t]) {
      PartFound(tags, raw, t);
    }
    if Says(raw, Some(t)) && !HasKey(tags, t.0) {
      PartAdded(tags, raw, t);
    }
  }

  lemma Padding(s: string, t: string) returns (a: string, b: string)
    requires Padded(s, t)
    ensures Blank(a) && Blank(b) && s == a + t + b
  {
    a, b :| Blank(a) && Blank(b) && s == a + t + b;
  }

  lemma SaysTag(part: string, t: Tag, l: string, r: string)
    requires Word(t.0) && Word(t.1) && part == l + "=" + r && Padded(l, t.0) && Padded(r, t.1)
    ensures Says(part, Some(t))
  {
    hide Padded, Word;
  }

  lemma CutAround(a: string, part: string, b: string, i: nat)
    requires i < |part| && part[i] == '='
    ensures a + part + b == (a + part[..i] + "") + "=" + ("" + part[i + 1..] + b)
  {
    assert part == part[..i] + "=" + part[i + 1..];
  }

  lemma AddedTag(tags: seq<Tag>, raw: string, t: Tag)
    requires AddPart(tags, raw) == Ok(tags + [t])
    ensures var part := Trim(raw);
            var i := Find(part, '=');
            && part != "" && i < |part| && t == (Trim(part[..i]), Trim(part[i + 1..]))
            && t.0 != "" && t.1 != "" && Simple(t.0) && Simple(t.1) && !HasKey(tags, t.0)
  {
    hide Trim, Find, Simple, HasKey;
    var part := Trim(raw);
    assert tags + [t] != tags;
    var i := Find(part, '=');
    var added := (Trim(part[..i]), Trim(part[i + 1..]));
    assert (tags + [added])[|tags|] == added && (tags + [t])[|tags|] == t;
  }

  lemma PartFound(tags: seq<Tag>, raw: string, t: Tag)
    requires AddPart(tags, raw) == Ok(tags + [t])
    ensures Says(raw, Some(t)) && !HasKey(tags, t.0)
  {
    hide Trim, Simple, Blank, HasKey, Word, Padded, AddPart, Says;
    AddedTag(tags, raw, t);
    var part := Trim(raw);
    var i := Find(part, '=');
    WordIsSimple(t.0);
    WordIsSimple(t.1);
    TrimIsPadded(raw, part);
    var a, b := Padding(raw, part);
    TrimIsPadded(part[..i], t.0);
    TrimIsPadded(part[i + 1..], t.1);
    NothingIsBlank();
    WiderPadding(a, part[..i], t.0, "");
    WiderPadding("", part[i + 1..], t.1, b);
    CutAround(a, part, b, i);
    SaysTag(raw, t, a + part[..i] + "", "" + part[i + 1..] + b);
  }

  lemma NothingIsBlank()
    ensures Blank("")
  {
  }

  lemma WiderPadding(a: string, s: string, t: string, b: string)
    requires Padded(s, t) && Blank(a) && Blank(b)
    ensures Padded(a + s + b, t)
  {
    var c, d :| Blank(c) && Blank(d) && s == c + t + d;
    assert a + s + b == (a + c) + t + (d + b);
    assert Blank(a + c) && Blank(d + b);
  }

  lemma WordPadded(w: string, a: string, b: string)
    requires Word(w) && Blank(a) && Blank(b)
    ensures Padded(a + w + b, w)
  {
    assert w[0] in w && w[|w| - 1] in w;
  }

  /** Between the outer paddings a part is already trimmed. */
  lemma PartTrims(a: string, k: string, b: string, c: string, v: string, d: string)
    requires Word(k) && Word(v) && Blank(a) && Blank(d)
    ensures Trim(a + k + b + "=" + c + v + d) == k + b + "=" + c + v
  {
    var part := k + b + "=" + c + v;
    assert part[0] == k[0] && part[|part| - 1] == v[|v| - 1];
    assert k[0] in k && v[|v| - 1] in v;
    assert a + k + b + "=" + c + v + d == a + part + d;
    hide Blank, Word;
    assert Padded(a + part + d, part);
    TrimIsPadded(a + part + d, part);
  }

  lemma PartAdded(tags: seq<Tag>, raw: string, t: Tag)
    requires Says(raw, Some(t)) && !HasKey(tags, t.0)
    ensures AddPart(tags, raw) == Ok(tags + [t])
  {
    var (k, v) := t;
    var l, r :| raw == l + "=" + r && Padded(l, k) && Padded(r, v);
    hide Simple, HasKey, Trim, Find, Padded, Blank, Word, Says;
    var a, b := Padding(l, k);
    var c, d := Padding(r, v);
    WordIsSimple(k);
    WordIsSimple(v);
    SixPieces(a, k, b, c, v, d);
    PartTrims(a, k, b, c, v, d);
    EqualsOnce(k, b, c, v);
    PiecesTrim(k, b, c, v);
    assert Trim(raw) == k + b + "=" + c + v;
    PiecesAdd(tags, raw, t, k + b, c + v);
  }

  lemma SixPieces(a: string, k: string, b: string, c: string, v: string, d: string)
    ensures (a + k + b) + "=" + (c + v + d) == a + k + b + "=" + c + v + d
  {
  }

  lemma PiecesTrim(k: string, b: string, c: string, v: string)
    requires Word(k) && Word(v) && Blank(b) && Blank(c)
    ensures Trim(k + b) == k && Trim(c + v) == v
  {
    hide Blank, Word, Trim, Padded;
    NothingIsBlank();
    WordPadded(k, "", b);
    WordPadded(v, c, "");
    assert "" + k + b == k + b && c + v + "" == c + v;
    TrimIsPadded(k + b, k);
    TrimIsPadded(c + v, v);
  }

  lemma PiecesAdd(tags: seq<Tag>, raw: string, t: Tag, l: string, r: string)
    requires var part := Trim(raw);
             && Find(part, '=') == |l| < |part| && part[..|l|] == l && part[|l| + 1..] == r && Trim(l) == t.0 && Trim(r) == t.1
    requires t.0 != "" && t.1 != "" && Simple(t.0) && Simple(t.1) && !HasKey(tags, t.0)
    ensures AddPart(tags, raw) == Ok(tags + [t])
  {
    hide Trim, Find, Simple, HasKey;
  }

  lemma EqualsOnce(k: string, b: string, c: string, v: string)
    requires Word(k) && Blank(b)
    ensures var part := k + b + "=" + c + v;
            && Find(part, '=') == |k + b| < |part| && part[..|k + b|] == k + b && part[|k + b| + 1..] == c + v
  {
    assert '=' !in k + b;
    FindFirst(k + b, '=', c + v);
    assert k + b + "=" + c + v == (k + b) + ['='] + (c + v);
  }

  lemma AddsOneAtMost(tags: seq<Tag>, raw: string)
    requires AddPart(tags, raw).Ok?
    ensures Trim(raw) == "" ==> AddPart(tags, raw).value == tags
    ensures Trim(raw) != "" ==> exists t :: AddPart(tags, raw).value == tags + [t]
  {
    hide Trim, Find, Simple, HasKey;
  }

  /** What an accepted list of parts says. */
  lemma {:induction false} PartsSay(parts: seq<string>) returns (said: seq<Option<Tag>>)
    requires AddParts(parts).Ok?
    ensures |said| == |parts| && Present(said) == AddParts(parts).value
    ensures forall i :: 0 <= i < |parts| ==> Says(parts[i], said[i])
    ensures forall i, j :: 0 <= i < j < |Present(said)| ==> Present(said)[i].0 != Present(said)[j].0
    decreases |parts|
  {
    hide AddPart, Says;
    if parts == [] {
      return [];
    }
    var last := |parts| - 1;
    var front := PartsSay(parts[..last]);
    var tags := AddParts(parts[..last]).value;
    AddsOneAtMost(tags, parts[last]);
    var one: Option<Tag> := None;
    if Trim(parts[last]) == "" {
      PartAdds(tags, parts[last], ("", ""));
    } else {
      var t :| AddPart(tags, parts[last]).value == tags + [t];
      PartAdds(tags, parts[last], t);
      one := Some(t);
    }
    said := front + [one];
    assert said[..last] == front;
    assert forall i :: 0 <= i < last ==> parts[..last][i] == parts[i] && said[i] == front[i];
    hide HasKey;
    assert Present(said) == tags + (match one { case None => [] case Some(t) => [t] });
  }

  /** Parts that say tags with different keys are accepted. */
  lemma {:induction false} SaidIsAdded(parts: seq<string>, said: seq<Option<Tag>>)
    requires |said| == |parts| && forall i :: 0 <= i < |parts| ==> Says(parts[i], said[i])
    requires forall i, j :: 0 <= i < j < |Present(said)| ==> Present(said)[i].0 != Present(said)[j].0
    ensures AddParts(parts) == Ok(Present(said))
    decreases |parts|
  {
    hide AddPart, Says;
    if parts != [] {
      var last := |parts| - 1;
      var tags := Present(said[..last]);
      assert forall i :: 0 <= i < |tags| ==> Present(said)[i] == tags[i];
      SaidIsAdded(parts[..last], said[..last]);
      match said[last]
      case None =>
        assert Present(said) == tags + [] == tags;
        PartAdds(tags, parts[last], ("", ""));
      case Some(t) =>
        assert Present(said) == tags + [t] && Present(said)[|tags|] == t;
        PartAdds(tags, parts[last], t);
    }
  }

  // -------------------------------------------------------------------- the key

  lemma {:induction false} JoinSplit(s: string, c: char)
    ensures Join(Split(s, c), c) == s && forall i :: 0 <= i < |Split(s, c)| ==> c !in Split(s, c)[i]
    decreases |s|
  {
    var i := Find(s, c);
    if i < |s| {
      JoinSplit(s[i + 1..], c);
      var rest := Split(s[i + 1..], c);
      assert Split(s, c)[1..] == rest;
      assert s == s[..i] + [c] + s[i + 1..];
    }
  }

  lemma FirstIsFirst(a: seq<Tag>, b: seq<Tag>)
    requires StrictlySorted(a) && StrictlySorted(b) && multiset(a) == multiset(b) && a != [] && b != []
    ensures a[0] == b[0]
  {
    hide Before;
    assert a[0] in multiset(b) && b[0] in multiset(a);
    var i :| 0 <= i < |b| && b[i] == a[0];
    var j :| 0 <= j < |a| && a[j] == b[0];
    BeforeIsTotal(a[0].0, b[0].0);
  }

  /** Two orderings of the same tags are the same. */
  lemma {:induction false} OrderedOnce(a: seq<Tag>, b: seq<Tag>)
    requires StrictlySorted(a) && StrictlySorted(b) && multiset(a) == multiset(b)
    ensures a == b
    decreases |a|
  {
    hide Before;
    assert |a| == |multiset(a)| == |multiset(b)| == |b|;
    if a != [] {
      FirstIsFirst(a, b);
      assert a == [a[0]] + a[1..] && b == [b[0]] + b[1..];
      assert multiset(a[1..]) == multiset(a) - multiset{a[0]} == multiset(b) - multiset{b[0]} == multiset(b[1..]);
      OrderedOnce(a[1..], b[1..]);
    }
  }

  lemma OrdersIsSort(tags: seq<Tag>, said: seq<Tag>)
    requires DistinctKeys(said)
    ensures Orders(tags, said) <==> tags == Sort(said)
  {
    SortSorts(said);
    if Orders(tags, said) {
      OrderedOnce(tags, Sort(said));
    }
  }

  lemma BraceCut(key: string, i: nat, rest: string)
    requires i < |key| && key[i] == '{' && rest == key[i + 1..] && rest != "" && rest[|rest| - 1] == '}'
    ensures key == key[..i] + "{" + rest[..|rest| - 1] + "}"
  {
    assert rest == rest[..|rest| - 1] + "}" && key == key[..i] + "{" + rest;
  }

  /** What the parser found in a key with a brace. */
  lemma SelectorParts(key: string, k: MetricKey, i: nat, rest: string)
    requires Trim(key) == key && key != "" && ParseKey(key) == Ok(k)
    requires i == Find(key, '{') < |key| && rest == key[i + 1..]
    ensures rest != "" && rest[|rest| - 1] == '}' && Trim(key[..i]) == k.metric && k.metric != ""
    ensures var added := AddParts(Split(rest[..|rest| - 1], ',')); added.Ok? && added.value != [] && k.tags == Sort(added.value)
  {
    hide Trim, Find, Split, AddParts, Sort;
  }

  lemma SelectorFound(key: string, k: MetricKey) returns (name: string, parts: seq<string>, said: seq<Option<Tag>>)
    requires Trim(key) == key && key != "" && ParseKey(key) == Ok(k) && '{' in key
    ensures Selects(key, k, name, parts, said) && k.tags != []
  {
    hide Trim, Find, Split, AddParts, Sort, Padded, Says, Join, Blank, ParseKey, Orders;
    FindNone(key, '{');
    var i := Find(key, '{');
    var rest := key[i + 1..];
    SelectorParts(key, k, i, rest);
    var inner := rest[..|rest| - 1];
    name, parts := key[..i], Split(inner, ',');
    BraceCut(key, i, rest);
    JoinSplit(inner, ',');
    said := PartsSay(parts);
    TrimIsPadded(name, k.metric);
    OrdersIsSort(k.tags, Present(said));
    SortSorts(Present(said));
    assert |k.tags| == |multiset(k.tags)| == |multiset(Present(said))| == |Present(said)|;
  }

  lemma SelectorReads(key: string, k: MetricKey, name: string, parts: seq<string>, said: seq<Option<Tag>>)
    requires Trim(key) == key && key != "" && Selects(key, k, name, parts, said) && k.tags != []
    ensures ParseKey(key) == Ok(k)
  {
    hide Trim, Find, Split, AddParts, Sort, Padded, Says, Join, Blank;
    var inner := Join(parts, ',');
    assert key == name + ['{'] + (inner + "}");
    FindFirst(name, '{', inner + "}");
    assert key[..|name|] == name && key[|name| + 1..] == inner + "}";
    assert (inner + "}")[..|inner|] == inner;
    SplitJoin(parts, ',');
    SaidIsAdded(parts, said);
    TrimIsPadded(name, k.metric);
    OrdersIsSort(k.tags, Present(said));
    assert |k.tags| == |multiset(k.tags)| == |multiset(Present(said))| == |Present(said)|;
  }

  lemma TrimTwice(raw: string)
    ensures Trim(Trim(raw)) == Trim(raw)
    ensures ParseKey(raw) == ParseKey(Trim(raw))
  {
    hide Trim;
    TrimTrims(raw);
    TrimTrims(Trim(raw));
  }

  /** A text is read as a key if and only if it spells that key. */
  lemma ParsesWhatIsSpelled(raw: string, k: MetricKey)
    ensures ParseKey(raw) == Ok(k) <==> Spells(raw, k)
  {
    hide Trim, Padded, Selects, ParseKey;
    TrimTwice(raw);
    var key := Trim(raw);
    TrimIsPadded(raw, key);
    if ParseKey(raw) == Ok(k) {
      NamesAlone(key);
      if '{' in key {
        var name, parts, said := SelectorFound(key, k);
      }
    }
    if Spells(raw, k) {
      var spelled :| Padded(raw, spelled) && spelled != "" &&
        if k.tags == [] then spelled == k.metric && '{' !in spelled
        else exists name, parts, said :: Selects(spelled, k, name, parts, said);
      TrimIsPadded(raw, spelled);
      NamesAlone(key);
      if k.tags != [] {
        var name, parts, said :| Selects(key, k, name, parts, said);
        SelectorReads(key, k, name, parts, said);
      }
    }
  }

  lemma NamesAlone(key: string)
    requires Trim(key) == key
    ensures key == "" ==> ParseKey(key).Err?
    ensures key != "" && '{' !in key ==> ParseKey(key) == Ok(MetricKey(key, []))
  {
    hide Trim, Find;
    FindNone(key, '{');
  }

  // ------------------------------------------------------------------- the errors

  /** The two sides of the first equals sign. */
  ghost predicate Sides(raw: string, l: string, r: string) {
    raw == l + "=" + r && '=' !in l
  }

  /** What an error says of the part it is reported for. */
  ghost predicate PartWrong(tags: seq<Tag>, raw: string, e: KeyError) {
    !Blank(raw) &&
    match e
    case MissingEquals => '=' !in raw
    case EmptyPair => exists l, r :: Sides(raw, l, r) && (Blank(l) || Blank(r))
    case UnsupportedCharacter => exists l, r :: Sides(raw, l, r) && !Blank(l) && !Blank(r) && !(Word(Trim(l)) && Word(Trim(r)))
    case DuplicateTag => exists l, r :: Sides(raw, l, r) && exists i :: 0 <= i < |tags| && tags[i].0 == Trim(l)
    case _ => false
  }

  /** Cutting a trimmed part or the part itself at its first equals sign gives the same sides, trimmed. */
  lemma SidesTrim(raw: string) returns (l: string, r: string)
    requires '=' in Trim(raw)
    ensures var part := Trim(raw);
            var i := Find(part, '=');
            Sides(raw, l, r) && i < |part| && Trim(l) == Trim(part[..i]) && Trim(r) == Trim(part[i + 1..])
  {
    hide Trim, Blank, Padded;
    var part := Trim(raw);
    FindNone(part, '=');
    var i := Find(part, '=');
    TrimIsPadded(raw, part);
    var a, b := Padding(raw, part);
    CutAround(a, part, b, i);
    l, r := a + part[..i] + "", "" + part[i + 1..] + b;
    NothingIsBlank();
    TrimIsPadded(part[..i], Trim(part[..i]));
    TrimIsPadded(part[i + 1..], Trim(part[i + 1..]));
    WiderPadding(a, part[..i], Trim(part[..i]), "");
    WiderPadding("", part[i + 1..], Trim(part[i + 1..]), b);
    TrimIsPadded(l, Trim(part[..i]));
    TrimIsPadded(r, Trim(part[i + 1..]));
    BlankHasNoEquals(a);
  }

  lemma BlankHasNoEquals(a: string)
    requires Blank(a)
    ensures '=' !in a
  {
  }

  lemma PartErrors(tags: seq<Tag>, raw: string)
    requires AddPart(tags, raw).Err?
    ensures PartWrong(tags, raw, AddPart(tags, raw).error)
  {
    hide Trim, Simple, Blank, Padded, Word;
    BlankPart(raw);
    var part := Trim(raw);
    FindNone(part, '=');
    TrimIsPadded(raw, part);
    if '=' !in part {
      EqualsNotBlank();
      PaddedKeeps(raw, part, '=');
    } else {
      var l, r := SidesTrim(raw);
      BlankPart(l);
      BlankPart(r);
      WordIsSimple(Trim(l));
      WordIsSimple(Trim(r));
    }
  }

  lemma EqualsNotBlank()
    ensures !Blank(['='])
  {
    OneBlank('=');
  }

  /** A selector's error is that of its first part that is wrong. */
  lemma {:induction false} FirstWrongPart(parts: seq<string>) returns (n: nat)
    requires AddParts(parts).Err?
    ensures n < |parts| && AddParts(parts[..n]).Ok? && PartWrong(AddParts(parts[..n]).value, parts[n], AddParts(parts).error)
    decreases |parts|
  {
    hide AddPart, PartWrong;
    var last := |parts| - 1;
    if AddParts(parts[..last]).Err? {
      n := FirstWrongPart(parts[..last]);
      assert parts[..last][..n] == parts[..n];
    } else {
      n := last;
      PartErrors(AddParts(parts[..last]).value, parts[last]);
    }
  }

  /** What an error says of the text. */
  ghost predicate Wrong(raw: string, e: KeyError) {
    match e
    case EmptyKey => Blank(raw)
    case MissingName => exists name, rest :: Padded(raw, name + "{" + rest) && Blank(name)
    case MissingBrace => exists name, rest :: Padded(raw, name + "{" + rest) && '{' !in name && (rest == "" || rest[|rest| - 1] != '}')
    case EmptySelector =>
      exists name, parts :: Padded(raw, name + "{" + Join(parts, ',') + "}") && forall i :: 0 <= i < |parts| ==> Blank(parts[i])
    case _ =>
      exists name, parts, n :: Padded(raw, name + "{" + Join(parts, ',') + "}") && WrongAt(parts, n, e)
  }

  /** The parts before are in order, this one is not. */
  ghost predicate WrongAt(parts: seq<string>, n: nat, e: KeyError) {
    n < |parts| && AddParts(parts[..n]).Ok? && PartWrong(AddParts(parts[..n]).value, parts[n], e)
  }

  lemma NothingSaid(parts: seq<string>)
    requires AddParts(parts) == Ok([])
    ensures forall i :: 0 <= i < |parts| ==> Blank(parts[i])
  {
    hide AddParts, Blank;
    var said := PartsSay(parts);
    NothingPresent(said);
  }

  lemma {:induction false} NothingPresent(said: seq<Option<Tag>>)
    requires Present(said) == []
    ensures forall i :: 0 <= i < |said| ==> said[i] == None
    decreases |said|
  {
    if said != [] {
      NothingPresent(said[..|said| - 1]);
      assert forall i :: 0 <= i < |said| - 1 ==> said[..|said| - 1][i] == said[i];
    }
  }

  /** Every error is reported for what it says. */
  lemma ErrorsSayWhatIsWrong(raw: string)
    requires ParseKey(raw).Err?
    ensures Wrong(raw, ParseKey(raw).error)
  {
    hide Trim, Find, Split, AddParts, Sort, Padded, Join, Blank, WrongAt;
    BlankPart(raw);
    var key := Trim(raw);
    TrimIsPadded(raw, key);
    if key != "" {
      FindNone(key, '{');
      var i := Find(key, '{');
      var name, rest := key[..i], key[i + 1..];
      assert key == name + "{" + rest;
      BlankPart(name);
      if Trim(name) != "" && rest != "" && rest[|rest| - 1] == '}' {
        var inner := rest[..|rest| - 1];
        var parts := Split(inner, ',');
        BraceCut(key, i, rest);
        JoinSplit(inner, ',');
        SelectorErrors(raw, name, parts);
      }
    }
  }

  lemma SelectorErrors(raw: string, name: string, parts: seq<string>)
    requires Padded(raw, name + "{" + Join(parts, ',') + "}") && (AddParts(parts).Err? || AddParts(parts).value == [])
    ensures Wrong(raw, if AddParts(parts).Err? then AddParts(parts).error else EmptySelector)
  {
    hide Padded, Join, Blank, AddParts;
    if AddParts(parts).Err? {
      var n := FirstWrongPart(parts);
      assert WrongAt(parts, n, AddParts(parts).error);
    } else {
      NothingSaid(parts);
    }
  }
}
