/** `canonicalJson` of scripts/public-profile-backfill-types.ts, the text under
    every digest of the two backfills. Strings are sequences of UTF-16 code units. */
module CanonicalJson {
  import opened Outcomes

  type Unit = u: int | 0 <= u < 0x1_0000
  type Text = seq<Unit>

  const QUOTE: Unit := 34
  const PLUS: Unit := 43
  const COMMA: Unit := 44
  const MINUS: Unit := 45
  const DOT: Unit := 46
  const COLON: Unit := 58
  const LEFT_BRACKET: Unit := 91
  const BACKSLASH: Unit := 92
  const RIGHT_BRACKET: Unit := 93
  const LETTER_E: Unit := 101
  const LETTER_U: Unit := 117
  const LEFT_BRACE: Unit := 123
  const RIGHT_BRACE: Unit := 125
  const NULL_TEXT: Text := [110, 117, 108, 108]
  const TRUE_TEXT: Text := [116, 114, 117, 101]
  const FALSE_TEXT: Text := [102, 97, 108, 115, 101]

  predicate NumeralUnit(u: Unit) {
    48 <= u <= 57 || u == PLUS || u == MINUS || u == DOT || u == LETTER_E
  }

  /** A finite number, identified by the text JSON.stringify gives it. */
  type Numeral = t: Text | t != [] && forall i | 0 <= i < |t| :: NumeralUnit(t[i]) witness [48]

  datatype Json =
    | Null
    | Bool(b: bool)
    | Num(numeral: Numeral)
    | NonFinite
    | Str(units: Text)
    | Arr(items: seq<Json>)
    | Obj(fields: seq<Field>)
    | Undefined
    | Unsupported  // functions, symbols and big integers

  datatype Field = Field(key: Text, value: Json)

  // ----------------------------------------------------------------- strings

  predicate High(u: Unit) { 0xD800 <= u < 0xDC00 }

  predicate Low(u: Unit) { 0xDC00 <= u < 0xE000 }

  function HexDigit(d: int): (u: Unit)
    requires 0 <= d < 16
    ensures HexValue(u) == Some(d)
  {
    if d < 10 then 48 + d else 87 + d
  }

  function HexValue(u: Unit): Option<int> {
    if 48 <= u <= 57 then Some(u - 48) else if 97 <= u <= 102 then Some(u - 87) else None
  }

  function EscapeUnit(u: Unit): Text {
    if u == 8 then [BACKSLASH, 98]
    else if u == 9 then [BACKSLASH, 116]
    else if u == 10 then [BACKSLASH, 110]
    else if u == 12 then [BACKSLASH, 102]
    else if u == 13 then [BACKSLASH, 114]
    else if u == QUOTE || u == BACKSLASH then [BACKSLASH, u]
    else if u < 32 || High(u) || Low(u) then
      [BACKSLASH, LETTER_U, HexDigit(u / 4096), HexDigit(u / 256 % 16), HexDigit(u / 16 % 16), HexDigit(u % 16)]
    else [u]
  }

  /** Well-formed JSON.stringify: a surrogate pair is kept, a lone surrogate is escaped. */
  function Escape(s: Text): Text {
    if s == [] then []
    else if |s| > 1 && High(s[0]) && Low(s[1]) then [s[0], s[1]] + Escape(s[2..])
    else EscapeUnit(s[0]) + Escape(s[1..])
  }

  function Quote(s: Text): Text {
    [QUOTE] + Escape(s) + [QUOTE]
  }

  /** The string-reading half of RFC 8259, section 7: the units up to the closing quote, and what follows it. */
  function Unescape(t: Text): Option<(Text, Text)>
    decreases |t|
  {
    if t == [] then None
    else if t[0] == QUOTE then Some(([], t[1..]))
    else
      var step := UnescapeUnit(t);
      if step.None? then None
      else
        var more := Unescape(t[step.value.1..]);
        if more.None? then None else Some(([step.value.0] + more.value.0, more.value.1))
  }

  function UnescapeUnit(t: Text): (r: Option<(Unit, nat)>)
    requires t != []
    ensures r.Some? ==> 1 <= r.value.1 <= |t|
  {
    if t[0] != BACKSLASH then Some((t[0], 1))
    else if |t| < 2 then None
    else if t[1] == 98 then Some((8, 2))
    else if t[1] == 116 then Some((9, 2))
    else if t[1] == 110 then Some((10, 2))
    else if t[1] == 102 then Some((12, 2))
    else if t[1] == 114 then Some((13, 2))
    else if t[1] == QUOTE || t[1] == BACKSLASH then Some((t[1], 2))
    else if t[1] == LETTER_U && |t| >= 6 then
      var (a, b, c, d) := (HexValue(t[2]), HexValue(t[3]), HexValue(t[4]), HexValue(t[5]));
      if a.Some? && b.Some? && c.Some? && d.Some? then
        Some((a.value * 4096 + b.value * 256 + c.value * 16 + d.value, 6))
      else None
    else None
  }

  lemma HexRoundTrip(u: Unit)
    ensures u / 4096 * 4096 + u / 256 % 16 * 256 + u / 16 % 16 * 16 + u % 16 == u
  {
    assert u == u / 16 * 16 + u % 16;
    assert u / 16 == u / 256 * 16 + u / 16 % 16;
    assert u / 256 == u / 4096 * 16 + u / 256 % 16;
  }

  lemma UnitRoundTrip(u: Unit, rest: Text)
    ensures EscapeUnit(u) != [] && EscapeUnit(u)[0] != QUOTE
    ensures UnescapeUnit(EscapeUnit(u) + rest) == Some((u, |EscapeUnit(u)|))
  {
    HexRoundTrip(u);
    var t := EscapeUnit(u) + rest;
    assert forall i | 0 <= i < |EscapeUnit(u)| :: t[i] == EscapeUnit(u)[i];
  }

  lemma UnescapeStep(head: Text, u: Unit, tail: Text, s: Text, rest: Text)
    requires head != [] && head[0] != QUOTE
    requires UnescapeUnit(head + tail) == Some((u, |head|))
    requires Unescape(tail) == Some((s, rest))
    ensures Unescape(head + tail) == Some(([u] + s, rest))
  {
    assert (head + tail)[|head|..] == tail;
  }

  /** The quoted text t reads as s, with `rest` left over. */
  ghost predicate Reads(t: Text, s: Text, rest: Text) {
    Unescape(t) == Some((s, rest))
  }

  lemma Associative<T>(a: seq<T>, b: seq<T>, c: seq<T>)
    ensures a + b + c == a + (b + c)
  {
  }

  lemma LiteralStep(u: Unit, tail: Text, s: Text, rest: Text)
    requires u != QUOTE && u != BACKSLASH && Reads(tail, s, rest)
    ensures Reads([u] + tail, [u] + s, rest)
  {
    UnescapeStep([u], u, tail, s, rest);
  }

  lemma PairRoundTrip(s: Text, close: Text, rest: Text)
    requires |s| > 1 && High(s[0]) && Low(s[1])
    requires Reads(Escape(s[2..]) + close, s[2..], rest)
    ensures Reads(Escape(s) + close, s, rest)
  {
    var tail := Escape(s[2..]) + close;
    LiteralStep(s[1], tail, s[2..], rest);
    LiteralStep(s[0], [s[1]] + tail, [s[1]] + s[2..], rest);
    assert [s[0]] + ([s[1]] + tail) == [s[0], s[1]] + tail;
    Associative([s[0], s[1]], Escape(s[2..]), close);
    assert [s[0]] + ([s[1]] + s[2..]) == s;
  }

  lemma SingleRoundTrip(s: Text, close: Text, rest: Text)
    requires s != [] && !(|s| > 1 && High(s[0]) && Low(s[1]))
    requires Reads(Escape(s[1..]) + close, s[1..], rest)
    ensures Reads(Escape(s) + close, s, rest)
  {
    var tail := Escape(s[1..]) + close;
    UnitRoundTrip(s[0], tail);
    UnescapeStep(EscapeUnit(s[0]), s[0], tail, s[1..], rest);
    Associative(EscapeUnit(s[0]), Escape(s[1..]), close);
    assert [s[0]] + s[1..] == s;
  }

  /** Reading a quoted string gives back the string and what followed it. */
  lemma {:induction false} StringRoundTrip(s: Text, close: Text)
    requires close != [] && close[0] == QUOTE
    ensures Reads(Escape(s) + close, s, close[1..])
    decreases |s|
  {
    if s == [] {
      assert Escape(s) + close == close;
    } else if |s| > 1 && High(s[0]) && Low(s[1]) {
      StringRoundTrip(s[2..], close);
      PairRoundTrip(s, close, close[1..]);
    } else {
      StringRoundTrip(s[1..], close);
      SingleRoundTrip(s, close, close[1..]);
    }
  }

  lemma Unwrap(open: Unit, inner: Text, close: Unit, rest: Text)
    ensures ([open] + inner + [close] + rest)[1..] == inner + ([close] + rest)
  {
  }

  lemma DropFirst(u: Unit, t: Text)
    ensures ([u] + t)[1..] == t
  {
  }

  lemma CancelQuoted(a: Text, b: Text, ra: Text, rb: Text)
    requires Quote(a) + ra == Quote(b) + rb
    ensures a == b && ra == rb
  {
    Unwrap(QUOTE, Escape(a), QUOTE, ra);
    Unwrap(QUOTE, Escape(b), QUOTE, rb);
    StringRoundTrip(a, [QUOTE] + ra);
    StringRoundTrip(b, [QUOTE] + rb);
    DropFirst(QUOTE, ra);
    DropFirst(QUOTE, rb);
  }

  // ------------------------------------------------------------------ values

  /** The comparison `localeCompare` is used as: a strict total order on keys. */
  ghost predicate StrictTotal<K(!new)>(less: (K, K) -> bool) {
    && (forall a, b :: !(less(a, b) && less(b, a)))
    && (forall a, b, c :: less(a, b) && less(b, c) ==> less(a, c))
    && (forall a, b :: a != b ==> less(a, b) || less(b, a))
  }

  function Defined(fields: seq<Field>): (r: seq<Field>)
    ensures forall f | f in r :: f in fields && f.value != Undefined
    ensures forall f | f in fields && f.value != Undefined :: f in r
  {
    if fields == [] then []
    else if fields[0].value == Undefined then Defined(fields[1..])
    else [fields[0]] + Defined(fields[1..])
  }

  function Insert(f: Field, fields: seq<Field>, less: (Text, Text) -> bool): (r: seq<Field>)
    ensures forall g :: g in r <==> g == f || g in fields
  {
    if fields == [] || less(f.key, fields[0].key) then [f] + fields
    else
      assert forall g :: g in fields <==> g == fields[0] || g in fields[1..];
      [fields[0]] + Insert(f, fields[1..], less)
  }

  function Sort(fields: seq<Field>, less: (Text, Text) -> bool): (r: seq<Field>)
    ensures forall g :: g in r <==> g in fields
  {
    if fields == [] then []
    else
      assert forall g :: g in fields <==> g == fields[0] || g in fields[1..];
      Insert(fields[0], Sort(fields[1..], less), less)
  }

  function Canonical(v: Json, less: (Text, Text) -> bool): Result<Text>
    decreases v, 1, 0
  {
    match v
    case Null => Success(NULL_TEXT)
    case Bool(b) => Success(if b then TRUE_TEXT else FALSE_TEXT)
    case Num(numeral) => Success(numeral)
    case NonFinite => Failure("Cannot canonicalize a non-finite number")
    case Str(units) => Success(Quote(units))
    case Arr(items) =>
      var inner :- Items(items, v, less);
      Success([LEFT_BRACKET] + inner + [RIGHT_BRACKET])
    case Obj(fields) =>
      var inner :- Members(Entries(v, less), v, less);
      Success([LEFT_BRACE] + inner + [RIGHT_BRACE])
    case Undefined => Failure("Cannot canonicalize undefined")
    case Unsupported => Failure("Cannot canonicalize this type")
  }

  function Items(items: seq<Json>, ghost within: Json, less: (Text, Text) -> bool): Result<Text>
    requires forall i | 0 <= i < |items| :: items[i] < within
    decreases within, 0, |items|
  {
    if items == [] then Success([])
    else
      var first :- Canonical(items[0], less);
      if |items| == 1 then Success(first)
      else
        var rest :- Items(items[1..], within, less);
        Success(first + [COMMA] + rest)
  }

  function Members(fields: seq<Field>, ghost within: Json, less: (Text, Text) -> bool): Result<Text>
    requires forall i | 0 <= i < |fields| :: fields[i].value < within
    decreases within, 0, |fields|
  {
    if fields == [] then Success([])
    else
      var value :- Canonical(fields[0].value, less);
      var first := Quote(fields[0].key) + [COLON] + value;
      if |fields| == 1 then Success(first)
      else
        var rest :- Members(fields[1..], within, less);
        Success(first + [COMMA] + rest)
  }

  lemma ValuesAreSmaller(v: Json)
    requires v.Obj?
    ensures forall f | f in v.fields :: f.value < v
  {
    forall f | f in v.fields ensures f.value < v {
      var i :| 0 <= i < |v.fields| && v.fields[i] == f;
      assert v.fields[i] == f;
    }
  }

  predicate UniqueKeys(fields: seq<Field>) {
    forall i, j | 0 <= i < j < |fields| :: fields[i].key != fields[j].key
  }

  /** What every JavaScript object guarantees: one entry per key, at every depth. */
  predicate WellFormed(v: Json) {
    match v
    case Arr(items) => forall i | 0 <= i < |items| :: WellFormed(items[i])
    case Obj(fields) => UniqueKeys(fields) && forall i | 0 <= i < |fields| :: WellFormed(fields[i].value)
    case _ => true
  }

  function Find(fields: seq<Field>, key: Text): (v: Json)
    ensures v != Undefined ==> Field(key, v) in fields
  {
    if fields == [] then Undefined
    else if fields[0].key == key then fields[0].value
    else Find(fields[1..], key)
  }

  /** The property of an object, undefined when it has none. */
  function Lookup(v: Json, key: Text): (r: Json)
    requires v.Obj?
    ensures r != Undefined ==> r < v && Field(key, r) in v.fields
  {
    ValuesAreSmaller(v);
    Find(v.fields, key)
  }

  /** Equal up to the order of keys and to fields that are undefined. */
  ghost predicate Same(a: Json, b: Json)
    decreases a
  {
    if a.Arr? && b.Arr? then
      |a.items| == |b.items| && forall i | 0 <= i < |a.items| :: Same(a.items[i], b.items[i])
    else if a.Obj? && b.Obj? then
      forall key ::
        && (Lookup(a, key) == Undefined <==> Lookup(b, key) == Undefined)
        && (Lookup(a, key) != Undefined ==> Same(Lookup(a, key), Lookup(b, key)))
    else a == b
  }

  // ------------------------------------------------------- sorting by key

  ghost predicate SortedByKey(fields: seq<Field>, less: (Text, Text) -> bool) {
    forall i, j | 0 <= i < j < |fields| :: less(fields[i].key, fields[j].key)
  }

  ghost function Keys(fields: seq<Field>): set<Text> {
    set f | f in fields :: f.key
  }

  lemma {:induction false} InsertSorts(f: Field, fields: seq<Field>, less: (Text, Text) -> bool)
    requires StrictTotal(less) && SortedByKey(fields, less) && f.key !in Keys(fields)
    ensures SortedByKey(Insert(f, fields, less), less)
  {
    if fields != [] {
      assert fields[0] in fields && fields[0].key in Keys(fields);
      if !less(f.key, fields[0].key) {
        assert forall g | g in fields[1..] :: g in fields;
        InsertSorts(f, fields[1..], less);
        assert forall g | g in Insert(f, fields[1..], less) :: less(fields[0].key, g.key);
      }
    }
  }

  lemma {:induction false} SortSorts(fields: seq<Field>, less: (Text, Text) -> bool)
    requires StrictTotal(less) && UniqueKeys(fields)
    ensures SortedByKey(Sort(fields, less), less)
  {
    if fields != [] {
      SortSorts(fields[1..], less);
      InsertSorts(fields[0], Sort(fields[1..], less), less);
    }
  }

  lemma {:induction false} DefinedIsUnique(fields: seq<Field>)
    requires UniqueKeys(fields)
    ensures UniqueKeys(Defined(fields))
  {
    if fields != [] {
      DefinedIsUnique(fields[1..]);
    }
  }

  /** A set of keys has one sorted enumeration. */
  lemma {:induction false} SortedKeysAgree(fs: seq<Field>, gs: seq<Field>, less: (Text, Text) -> bool)
    requires StrictTotal(less) && SortedByKey(fs, less) && SortedByKey(gs, less) && Keys(fs) == Keys(gs)
    ensures |fs| == |gs| && forall i | 0 <= i < |fs| :: fs[i].key == gs[i].key
  {
    if fs == [] {
      assert gs != [] ==> gs[0].key in Keys(gs);
    } else {
      assert fs[0].key in Keys(fs);
      assert gs != [];
      assert gs[0].key in Keys(gs);
      assert fs[0].key == gs[0].key;
      KeysOfTail(fs, less);
      KeysOfTail(gs, less);
      SortedKeysAgree(fs[1..], gs[1..], less);
      forall i | 0 <= i < |fs| ensures fs[i].key == gs[i].key {
        if i > 0 { assert fs[i] == fs[1..][i - 1] && gs[i] == gs[1..][i - 1]; }
      }
    }
  }

  lemma KeysOfTail(fs: seq<Field>, less: (Text, Text) -> bool)
    requires StrictTotal(less) && fs != [] && SortedByKey(fs, less)
    ensures Keys(fs[1..]) == Keys(fs) - {fs[0].key}
  {
    forall f | f in fs[1..] ensures f in fs && f.key != fs[0].key {
      var i :| 0 <= i < |fs[1..]| && fs[1..][i] == f;
      assert less(fs[0].key, fs[i + 1].key);
    }
    assert forall f | f in fs :: f == fs[0] || f in fs[1..];
  }

  /** The entries of an object in the order they are written. */
  function Entries(v: Json, less: (Text, Text) -> bool): (r: seq<Field>)
    requires v.Obj?
    ensures forall f :: f in r <==> f in v.fields && f.value != Undefined
    ensures forall i | 0 <= i < |r| :: r[i].value < v
  {
    ValuesAreSmaller(v);
    Sort(Defined(v.fields), less)
  }

  lemma EntriesAreSorted(v: Json, less: (Text, Text) -> bool)
    requires StrictTotal(less) && v.Obj? && UniqueKeys(v.fields)
    ensures SortedByKey(Entries(v, less), less)
  {
    DefinedIsUnique(v.fields);
    SortSorts(Defined(v.fields), less);
  }

  lemma {:induction false} FindFindsField(fields: seq<Field>, f: Field)
    requires UniqueKeys(fields) && f in fields
    ensures Find(fields, f.key) == f.value
  {
    if fields[0] != f {
      assert f in fields[1..];
      FindFindsField(fields[1..], f);
    }
  }

  ghost predicate Aligned(fs: seq<Field>, gs: seq<Field>) {
    |fs| == |gs| && forall i | 0 <= i < |fs| :: fs[i].key == gs[i].key && Same(fs[i].value, gs[i].value)
  }

  /** Two objects are the same exactly when their written entries are, one by one. */
  lemma SameByEntries(a: Json, b: Json, less: (Text, Text) -> bool)
    requires StrictTotal(less) && a.Obj? && b.Obj? && UniqueKeys(a.fields) && UniqueKeys(b.fields)
    ensures Same(a, b) <==> Aligned(Entries(a, less), Entries(b, less))
  {
    var fs, gs := Entries(a, less), Entries(b, less);
    forall f | f in fs ensures Lookup(a, f.key) == f.value { FindFindsField(a.fields, f); }
    forall g | g in gs ensures Lookup(b, g.key) == g.value { FindFindsField(b.fields, g); }
    if Aligned(fs, gs) {
      AlignedIsSame(a, b, less);
    }
    if Same(a, b) {
      SameIsAligned(a, b, less);
    }
  }

  lemma AlignedIsSame(a: Json, b: Json, less: (Text, Text) -> bool)
    requires a.Obj? && b.Obj? && Aligned(Entries(a, less), Entries(b, less))
    requires forall f | f in Entries(a, less) :: Lookup(a, f.key) == f.value
    requires forall g | g in Entries(b, less) :: Lookup(b, g.key) == g.value
    ensures Same(a, b)
  {
    var fs, gs := Entries(a, less), Entries(b, less);
    forall key ensures
      && (Lookup(a, key) == Undefined <==> Lookup(b, key) == Undefined)
      && (Lookup(a, key) != Undefined ==> Same(Lookup(a, key), Lookup(b, key)))
    {
      if Lookup(a, key) != Undefined {
        EntryOfKey(a, key, less);
        var i :| 0 <= i < |fs| && fs[i] == Field(key, Lookup(a, key));
        assert gs[i] in gs;
      }
      if Lookup(b, key) != Undefined {
        EntryOfKey(b, key, less);
        var i :| 0 <= i < |gs| && gs[i] == Field(key, Lookup(b, key));
        assert fs[i] in fs;
      }
    }
  }

  lemma EntryOfKey(v: Json, key: Text, less: (Text, Text) -> bool)
    requires v.Obj? && Lookup(v, key) != Undefined
    ensures Field(key, Lookup(v, key)) in Entries(v, less)
  {
  }

  lemma SameIsAligned(a: Json, b: Json, less: (Text, Text) -> bool)
    requires StrictTotal(less) && a.Obj? && b.Obj? && UniqueKeys(a.fields) && UniqueKeys(b.fields) && Same(a, b)
    requires forall f | f in Entries(a, less) :: Lookup(a, f.key) == f.value
    requires forall g | g in Entries(b, less) :: Lookup(b, g.key) == g.value
    ensures Aligned(Entries(a, less), Entries(b, less))
  {
    var fs, gs := Entries(a, less), Entries(b, less);
    forall f | f in fs ensures f.key in Keys(gs) {
      assert Lookup(b, f.key) != Undefined;
      assert Field(f.key, Lookup(b, f.key)) in gs;
    }
    forall g | g in gs ensures g.key in Keys(fs) {
      assert Lookup(a, g.key) != Undefined;
      assert Field(g.key, Lookup(a, g.key)) in fs;
    }
    assert Keys(fs) == Keys(gs);
    EntriesAreSorted(a, less);
    EntriesAreSorted(b, less);
    SortedKeysAgree(fs, gs, less);
    forall i | 0 <= i < |fs| ensures Same(fs[i].value, gs[i].value) {
      assert fs[i] in fs && gs[i] in gs;
    }
  }

  // ------------------------------------------------------------- injectivity

  predicate Delimited(rest: Text) {
    rest == [] || rest[0] == COMMA || rest[0] == RIGHT_BRACKET || rest[0] == RIGHT_BRACE
  }

  /** The first unit of a text tells the kind of its value. */
  predicate Leads(u: Unit, v: Json) {
    match v
    case Null => u == 110
    case Bool(b) => u == if b then 116 else 102
    case Num(_) => NumeralUnit(u)
    case Str(_) => u == QUOTE
    case Arr(_) => u == LEFT_BRACKET
    case Obj(_) => u == LEFT_BRACE
    case _ => false
  }

  lemma TextLeads(v: Json, less: (Text, Text) -> bool)
    requires Canonical(v, less).Success?
    ensures Canonical(v, less).value != [] && Leads(Canonical(v, less).value[0], v)
  {
  }

  function NumeralRun(t: Text): nat {
    if t == [] || !NumeralUnit(t[0]) then 0 else 1 + NumeralRun(t[1..])
  }

  lemma {:induction false} NumeralEnds(a: Text, rest: Text)
    requires (forall i | 0 <= i < |a| :: NumeralUnit(a[i])) && Delimited(rest)
    ensures NumeralRun(a + rest) == |a|
  {
    if a == [] {
      assert a + rest == rest;
    } else {
      assert (a + rest)[1..] == a[1..] + rest;
      NumeralEnds(a[1..], rest);
    }
  }

  lemma CancelNumeral(a: Numeral, b: Numeral, ra: Text, rb: Text)
    requires a + ra == b + rb && Delimited(ra) && Delimited(rb)
    ensures a == b && ra == rb
  {
    NumeralEnds(a, ra);
    NumeralEnds(b, rb);
    CancelEqualLength(a, b, ra, rb);
  }

  lemma CancelEqualLength<T>(a: seq<T>, b: seq<T>, ra: seq<T>, rb: seq<T>)
    requires a + ra == b + rb && |a| == |b|
    ensures a == b && ra == rb
  {
    assert a == (a + ra)[..|a|] && b == (b + rb)[..|b|];
    assert ra == (a + ra)[|a|..] && rb == (b + rb)[|b|..];
  }

  /** A text is read back by what it says alone: equal texts, each followed by a
      delimiter, come from the same value and leave the same rest. */
  lemma {:induction false} Cancel(a: Json, b: Json, ra: Text, rb: Text, less: (Text, Text) -> bool)
    requires StrictTotal(less) && WellFormed(a) && WellFormed(b)
    requires Canonical(a, less).Success? && Canonical(b, less).Success?
    requires Delimited(ra) && Delimited(rb)
    requires Canonical(a, less).value + ra == Canonical(b, less).value + rb
    ensures Same(a, b) && ra == rb
    decreases a, 1, 0
  {
    var ta, tb := Canonical(a, less).value, Canonical(b, less).value;
    TextLeads(a, less);
    TextLeads(b, less);
    assert ta[0] == (ta + ra)[0] && tb[0] == (tb + rb)[0];
    match a
    case Num(numeral) => CancelNumeral(numeral, b.numeral, ra, rb);
    case Str(units) => CancelQuoted(units, b.units, ra, rb);
    case Arr(items) =>
      var (xs, ys) := (Items(items, a, less).value, Items(b.items, b, less).value);
      Unwrap(LEFT_BRACKET, xs, RIGHT_BRACKET, ra);
      Unwrap(LEFT_BRACKET, ys, RIGHT_BRACKET, rb);
      CancelItems(items, b.items, a, b, ra, rb, less);
    case Obj(fields) =>
      var (fs, gs) := (Entries(a, less), Entries(b, less));
      Unwrap(LEFT_BRACE, Members(fs, a, less).value, RIGHT_BRACE, ra);
      Unwrap(LEFT_BRACE, Members(gs, b, less).value, RIGHT_BRACE, rb);
      forall f | f in fs ensures WellFormed(f.value) { var i :| 0 <= i < |fields| && fields[i] == f; }
      forall g | g in gs ensures WellFormed(g.value) { var i :| 0 <= i < |b.fields| && b.fields[i] == g; }
      CancelMembers(fs, gs, a, b, ra, rb, less);
      SameByEntries(a, b, less);
    case _ =>
      CancelEqualLength(ta, tb, ra, rb);
  }

  lemma ItemsLead(xs: seq<Json>, within: Json, after: Text, less: (Text, Text) -> bool)
    requires forall i | 0 <= i < |xs| :: xs[i] < within
    requires Items(xs, within, less).Success? && after != [] && after[0] == RIGHT_BRACKET
    ensures (Items(xs, within, less).value + after)[0] == RIGHT_BRACKET <==> xs == []
  {
    if xs != [] { TextLeads(xs[0], less); }
  }

  lemma MembersLead(fs: seq<Field>, within: Json, after: Text, less: (Text, Text) -> bool)
    requires forall i | 0 <= i < |fs| :: fs[i].value < within
    requires Members(fs, within, less).Success? && after != [] && after[0] == RIGHT_BRACE
    ensures (Members(fs, within, less).value + after)[0] == RIGHT_BRACE <==> fs == []
  {
  }

  lemma {:induction false} CancelItems(xs: seq<Json>, ys: seq<Json>, a: Json, b: Json, ra: Text, rb: Text,
                                       less: (Text, Text) -> bool)
    requires StrictTotal(less)
    requires forall i | 0 <= i < |xs| :: xs[i] < a && WellFormed(xs[i])
    requires forall i | 0 <= i < |ys| :: ys[i] < b && WellFormed(ys[i])
    requires Items(xs, a, less).Success? && Items(ys, b, less).Success?
    requires Items(xs, a, less).value + ([RIGHT_BRACKET] + ra) == Items(ys, b, less).value + ([RIGHT_BRACKET] + rb)
    ensures |xs| == |ys| && (forall i | 0 <= i < |xs| :: Same(xs[i], ys[i])) && ra == rb
    decreases a, 0, |xs|
  {
    var (la, lb) := ([RIGHT_BRACKET] + ra, [RIGHT_BRACKET] + rb);
    ItemsLead(xs, a, la, less);
    ItemsLead(ys, b, lb, less);
    if xs == [] || ys == [] {
      assert la == [] + la && lb == [] + lb;
      assert ra == la[1..] && rb == lb[1..];
    } else {
      var (ta, tb) := (ItemsTail(xs, a, la, less), ItemsTail(ys, b, lb, less));
      Cancel(xs[0], ys[0], ta, tb, less);
      if |xs| == 1 || |ys| == 1 {
        assert ra == la[1..] && rb == lb[1..];
      } else {
        assert ta[1..] == Items(xs[1..], a, less).value + la && tb[1..] == Items(ys[1..], b, less).value + lb;
        CancelItems(xs[1..], ys[1..], a, b, ra, rb, less);
        assert forall i | 1 <= i < |xs| :: xs[i] == xs[1..][i - 1] && ys[i] == ys[1..][i - 1];
      }
    }
  }

  /** What follows the first element of an array in its text. */
  function ItemsTail(xs: seq<Json>, within: Json, after: Text, less: (Text, Text) -> bool): (r: Text)
    requires xs != [] && forall i | 0 <= i < |xs| :: xs[i] < within
    requires Items(xs, within, less).Success?
    requires after != [] && Delimited(after)
    ensures Delimited(r)
    ensures Items(xs, within, less).value + after == Canonical(xs[0], less).value + r
  {
    if |xs| == 1 then after
    else
      Associative(Canonical(xs[0], less).value, [COMMA] + Items(xs[1..], within, less).value, after);
      Associative(Canonical(xs[0], less).value, [COMMA], Items(xs[1..], within, less).value);
      Associative([COMMA], Items(xs[1..], within, less).value, after);
      [COMMA] + (Items(xs[1..], within, less).value + after)
  }

  lemma CancelKey(a: Text, b: Text, ra: Text, rb: Text)
    requires Quote(a) + ([COLON] + ra) == Quote(b) + ([COLON] + rb)
    ensures a == b && ra == rb
  {
    CancelQuoted(a, b, [COLON] + ra, [COLON] + rb);
    DropFirst(COLON, ra);
    DropFirst(COLON, rb);
  }

  lemma AlignedAddsHead(fs: seq<Field>, gs: seq<Field>)
    requires fs != [] && gs != [] && fs[0].key == gs[0].key && Same(fs[0].value, gs[0].value)
    requires Aligned(fs[1..], gs[1..])
    ensures Aligned(fs, gs)
  {
    assert fs == [fs[0]] + fs[1..] && gs == [gs[0]] + gs[1..];
  }

  lemma {:induction false} CancelFirstMember(fs: seq<Field>, gs: seq<Field>, a: Json, b: Json, la: Text, lb: Text,
                                             less: (Text, Text) -> bool)
    requires StrictTotal(less) && fs != [] && gs != []
    requires forall i | 0 <= i < |fs| :: fs[i].value < a && WellFormed(fs[i].value)
    requires forall i | 0 <= i < |gs| :: gs[i].value < b && WellFormed(gs[i].value)
    requires Members(fs, a, less).Success? && Members(gs, b, less).Success?
    requires la != [] && Delimited(la) && lb != [] && Delimited(lb)
    requires Members(fs, a, less).value + la == Members(gs, b, less).value + lb
    ensures fs[0].key == gs[0].key && Same(fs[0].value, gs[0].value)
    ensures MembersTail(fs, a, la, less) == MembersTail(gs, b, lb, less)
    decreases a, 0, 0
  {
    var (ta, tb) := (MembersTail(fs, a, la, less), MembersTail(gs, b, lb, less));
    CancelKey(fs[0].key, gs[0].key, Canonical(fs[0].value, less).value + ta, Canonical(gs[0].value, less).value + tb);
    Cancel(fs[0].value, gs[0].value, ta, tb, less);
  }

  lemma {:induction false} CancelMembers(fs: seq<Field>, gs: seq<Field>, a: Json, b: Json, ra: Text, rb: Text,
                                         less: (Text, Text) -> bool)
    requires StrictTotal(less)
    requires forall i | 0 <= i < |fs| :: fs[i].value < a && WellFormed(fs[i].value)
    requires forall i | 0 <= i < |gs| :: gs[i].value < b && WellFormed(gs[i].value)
    requires Members(fs, a, less).Success? && Members(gs, b, less).Success?
    requires Members(fs, a, less).value + ([RIGHT_BRACE] + ra) == Members(gs, b, less).value + ([RIGHT_BRACE] + rb)
    ensures Aligned(fs, gs) && ra == rb
    decreases a, 0, |fs|
  {
    var (la, lb) := ([RIGHT_BRACE] + ra, [RIGHT_BRACE] + rb);
    MembersLead(fs, a, la, less);
    MembersLead(gs, b, lb, less);
    if fs == [] || gs == [] {
      assert la == [] + la && lb == [] + lb;
      assert ra == la[1..] && rb == lb[1..];
    } else {
      CancelFirstMember(fs, gs, a, b, la, lb, less);
      if |fs| == 1 || |gs| == 1 {
        DropFirst(RIGHT_BRACE, ra);
        DropFirst(RIGHT_BRACE, rb);
      } else {
        DropFirst(COMMA, Members(fs[1..], a, less).value + la);
        DropFirst(COMMA, Members(gs[1..], b, less).value + lb);
        CancelMembers(fs[1..], gs[1..], a, b, ra, rb, less);
        AlignedAddsHead(fs, gs);
      }
    }
  }

  /** What follows the first value of an object in its text. */
  function MembersTail(fs: seq<Field>, within: Json, after: Text, less: (Text, Text) -> bool): (r: Text)
    requires fs != [] && forall i | 0 <= i < |fs| :: fs[i].value < within
    requires Members(fs, within, less).Success?
    requires after != [] && Delimited(after)
    ensures Delimited(r)
    ensures r == if |fs| == 1 then after else [COMMA] + (Members(fs[1..], within, less).value + after)
    ensures Members(fs, within, less).value + after ==
            Quote(fs[0].key) + ([COLON] + (Canonical(fs[0].value, less).value + r))
  {
    var first := Quote(fs[0].key) + [COLON] + Canonical(fs[0].value, less).value;
    var r := if |fs| == 1 then after else [COMMA] + (Members(fs[1..], within, less).value + after);
    assert Members(fs, within, less).value + after == first + r by {
      if |fs| > 1 {
        var rest := Members(fs[1..], within, less).value;
        Associative(first + [COMMA], rest, after);
        Associative(first, [COMMA], rest + after);
      }
    }
    Associative(Quote(fs[0].key) + [COLON], Canonical(fs[0].value, less).value, r);
    Associative(Quote(fs[0].key), [COLON], Canonical(fs[0].value, less).value + r);
    r
  }

  /** Same values have the same outcome: equal texts, or the same refusal. */
  lemma {:induction false} SameText(a: Json, b: Json, less: (Text, Text) -> bool)
    requires StrictTotal(less) && WellFormed(a) && WellFormed(b) && Same(a, b)
    ensures Canonical(a, less) == Canonical(b, less)
    decreases a, 1, 0
  {
    if a.Arr? {
      SameItems(a.items, b.items, a, b, less);
    } else if a.Obj? {
      SameByEntries(a, b, less);
      var (fs, gs) := (Entries(a, less), Entries(b, less));
      forall f | f in fs ensures WellFormed(f.value) { var i :| 0 <= i < |a.fields| && a.fields[i] == f; }
      forall g | g in gs ensures WellFormed(g.value) { var i :| 0 <= i < |b.fields| && b.fields[i] == g; }
      SameMembers(fs, gs, a, b, less);
    }
  }

  lemma {:induction false} SameItems(xs: seq<Json>, ys: seq<Json>, a: Json, b: Json, less: (Text, Text) -> bool)
    requires StrictTotal(less) && |xs| == |ys|
    requires forall i | 0 <= i < |xs| ::
               xs[i] < a && WellFormed(xs[i]) && ys[i] < b && WellFormed(ys[i]) && Same(xs[i], ys[i])
    ensures Items(xs, a, less) == Items(ys, b, less)
    decreases a, 0, |xs|
  {
    if xs != [] {
      SameText(xs[0], ys[0], less);
      SameItems(xs[1..], ys[1..], a, b, less);
    }
  }

  lemma {:induction false} SameMembers(fs: seq<Field>, gs: seq<Field>, a: Json, b: Json, less: (Text, Text) -> bool)
    requires StrictTotal(less) && Aligned(fs, gs)
    requires forall i | 0 <= i < |fs| ::
               fs[i].value < a && WellFormed(fs[i].value) && gs[i].value < b && WellFormed(gs[i].value)
    ensures Members(fs, a, less) == Members(gs, b, less)
    decreases a, 0, |fs|
  {
    if fs != [] {
      SameText(fs[0].value, gs[0].value, less);
      SameMembers(fs[1..], gs[1..], a, b, less);
    }
  }

  /** `canonicalJson` is injective up to key order and dropped undefined fields,
      and insensitive to both: equal texts if and only if the same value. */
  lemma CanonicalExactly(a: Json, b: Json, less: (Text, Text) -> bool)
    requires StrictTotal(less) && WellFormed(a) && WellFormed(b)
    requires Canonical(a, less).Success? && Canonical(b, less).Success?
    ensures Canonical(a, less).value == Canonical(b, less).value <==> Same(a, b)
  {
    if Canonical(a, less).value == Canonical(b, less).value {
      Cancel(a, b, [], [], less);
    }
    if Same(a, b) {
      SameText(a, b, less);
    }
  }
}
