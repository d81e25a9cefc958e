/** The page cursor of scripts/public-post-slug-backfill-planner.ts: what is a valid
    cursor, its order, and its text, a prefix and the base64url form (RFC 4648, section 5,
    without padding) of a small JSON object. */
module SlugCursor {
  import opened Outcomes

  type Byte = b: int | 0 <= b < 256

  datatype Cursor = Cursor(createdAt: string, postId: string)

  // ---- Valid cursors ----------------------------------------------------------------

  predicate Digit(c: char) { '0' <= c <= '9' }

  predicate Alphanumeric(c: char) { Digit(c) || 'a' <= c <= 'z' || 'A' <= c <= 'Z' }

  predicate IdChar(c: char) { Alphanumeric(c) || c == '.' || c == '_' || c == ':' || c == '-' }

  predicate ValidPostId(s: string) {
    1 <= |s| <= 512 && Alphanumeric(s[0]) && forall i | 0 <= i < |s| :: IdChar(s[i])
  }

  /** The shape of a timestamp, `0` standing for any digit. */
  const TIMESTAMP := "0000-00-00T00:00:00.000000Z"

  predicate HasShape(s: string, shape: string) {
    |s| == |shape| && forall i | 0 <= i < |s| :: if shape[i] == '0' then Digit(s[i]) else s[i] == shape[i]
  }

  /** The number a text's digits form, separators skipped. */
  function Number(s: string): nat {
    if s == [] then 0
    else
      var c := s[|s| - 1];
      if Digit(c) then 10 * Number(s[..|s| - 1]) + (c - '0') as nat else Number(s[..|s| - 1])
  }

  predicate LeapYear(year: nat) {
    year % 4 == 0 && (year % 100 != 0 || year % 400 == 0)
  }

  function DaysIn(year: nat, month: nat): nat {
    if month == 2 then (if LeapYear(year) then 29 else 28)
    else if month in {4, 6, 9, 11} then 30
    else 31
  }

  /** A calendar date and a time of day, to the microsecond. */
  predicate ValidTimestamp(s: string) {
    && HasShape(s, TIMESTAMP)
    && 1 <= Number(s[5..7]) <= 12
    && 1 <= Number(s[8..10]) <= DaysIn(Number(s[0..4]), Number(s[5..7]))
    && Number(s[11..13]) <= 23 && Number(s[14..16]) <= 59 && Number(s[17..19]) <= 59
  }

  predicate ValidCursor(c: Cursor) {
    ValidTimestamp(c.createdAt) && ValidPostId(c.postId)
  }

  // ---- The order of cursors ---------------------------------------------------------

  /** Lexicographic order, a proper prefix first: negative, zero or positive. */
  function Compare(left: string, right: string): int {
    if left == [] then (if right == [] then 0 else -1)
    else if right == [] then 1
    else if left[0] != right[0] then (if left[0] < right[0] then -1 else 1)
    else Compare(left[1..], right[1..])
  }

  lemma {:induction false} CompareDropsPrefix(left: string, right: string, k: nat)
    requires k <= |left| && k <= |right| && left[..k] == right[..k]
    ensures Compare(left, right) == Compare(left[k..], right[k..])
  {
    if k > 0 {
      assert left[0] == left[..k][0] == right[..k][0] == right[0];
      assert left[1..][..k - 1] == left[..k][1..] == right[1..][..k - 1];
      CompareDropsPrefix(left[1..], right[1..], k - 1);
      assert left[1..][k - 1..] == left[k..] && right[1..][k - 1..] == right[k..];
    }
  }

  function Sign(n: int): int {
    if n < 0 then -1 else if n > 0 then 1 else 0
  }

  /** `compareTextBytewise`: the first difference decides, and then the lengths. */
  method CompareTextBytewise(left: string, right: string) returns (r: int)
    ensures r == Compare(left, right)
  {
    var length := if |left| < |right| then |left| else |right|;
    for index := 0 to length
      invariant left[..index] == right[..index]
    {
      CompareDropsPrefix(left, right, index);
      if left[index] != right[index] {
        return if left[index] < right[index] then -1 else 1;
      }
    }
    CompareDropsPrefix(left, right, length);
    r := Sign(|left| - |right|);
  }

  lemma {:induction false} CompareIsAntisymmetric(a: string, b: string)
    ensures Compare(a, b) == -Compare(b, a)
    ensures Compare(a, b) == 0 <==> a == b
  {
    if a != [] && b != [] && a[0] == b[0] {
      CompareIsAntisymmetric(a[1..], b[1..]);
      assert a == [a[0]] + a[1..] && b == [b[0]] + b[1..];
    }
  }

  lemma {:induction false} CompareIsTransitive(a: string, b: string, c: string)
    requires Compare(a, b) <= 0 && Compare(b, c) <= 0
    ensures Compare(a, c) <= 0
    ensures Compare(a, c) == 0 ==> Compare(a, b) == 0
  {
    if a != [] && b != [] && c != [] && a[0] == b[0] == c[0] {
      CompareIsTransitive(a[1..], b[1..], c[1..]);
    }
  }

  function CompareCursor(left: Cursor, right: Cursor): int {
    var times := Compare(left.createdAt, right.createdAt);
    if times != 0 then times else Compare(left.postId, right.postId)
  }

  predicate Before(left: Cursor, right: Cursor) {
    CompareCursor(left, right) < 0
  }

  /** The order of cursors is a strict total order. */
  lemma BeforeIsTotal(a: Cursor, b: Cursor)
    ensures !(Before(a, b) && Before(b, a)) && !Before(a, a)
    ensures a != b ==> Before(a, b) || Before(b, a)
    ensures CompareCursor(a, b) <= 0 <==> Before(a, b) || a == b
  {
    CompareIsAntisymmetric(a.createdAt, b.createdAt);
    CompareIsAntisymmetric(a.postId, b.postId);
    CompareIsAntisymmetric(a.createdAt, a.createdAt);
    CompareIsAntisymmetric(a.postId, a.postId);
  }

  lemma BeforeIsTransitive(a: Cursor, b: Cursor, c: Cursor)
    requires Before(a, b) && Before(b, c)
    ensures Before(a, c)
  {
    CompareIsTransitive(a.createdAt, b.createdAt, c.createdAt);
    CompareIsAntisymmetric(a.createdAt, b.createdAt);
    CompareIsAntisymmetric(b.createdAt, c.createdAt);
    if a.createdAt == b.createdAt == c.createdAt {
      CompareIsTransitive(a.postId, b.postId, c.postId);
    }
  }

  // ---- Timestamps compare as the instants they name ---------------------------------

  lemma {:induction false} CompareGrows(a: string, b: string, c: char, d: char)
    requires |a| == |b|
    ensures Compare(a + [c], b + [d]) == if Compare(a, b) != 0 then Compare(a, b) else Compare([c], [d])
  {
    if a == [] {
      assert a + [c] == [c] && b + [d] == [d];
    } else {
      assert (a + [c])[1..] == a[1..] + [c] && (b + [d])[1..] == b[1..] + [d];
      CompareGrows(a[1..], b[1..], c, d);
    }
  }

  /** Texts of one shape compare as the numbers they spell. */
  lemma {:induction false} FixedWidthOrder(a: string, b: string, shape: string)
    requires HasShape(a, shape) && HasShape(b, shape)
    ensures Sign(Compare(a, b)) == Sign(Number(a) - Number(b))
  {
    if a != [] {
      var n := |a| - 1;
      SplitLast(a);
      SplitLast(b);
      FixedWidthOrder(a[..n], b[..n], shape[..n]);
      CompareGrows(a[..n], b[..n], a[n], b[n]);
    }
  }

  lemma {:induction false} CompareSplits(a: string, b: string, k: nat)
    requires k <= |a| == |b|
    ensures Compare(a, b) == if Compare(a[..k], b[..k]) != 0 then Compare(a[..k], b[..k]) else Compare(a[k..], b[k..])
  {
    if k > 0 && a[0] == b[0] {
      assert a[..k][1..] == a[1..][..k - 1] && b[..k][1..] == b[1..][..k - 1];
      CompareSplits(a[1..], b[1..], k - 1);
    }
  }

  /** The days of a year before a month; a year has the days before a thirteenth one. */
  function DaysBeforeMonth(year: nat, month: nat): nat {
    if month <= 1 then 0 else DaysBeforeMonth(year, month - 1) + DaysIn(year, month - 1)
  }

  function DaysBeforeYear(year: nat): nat {
    if year == 0 then 0 else DaysBeforeYear(year - 1) + DaysBeforeMonth(year - 1, 13)
  }

  /** The day of a date text, counted from the first of the year 0. */
  function DayOf(date: string): int
    requires |date| >= 10
  {
    var year, month := Number(date[0..4]), Number(date[5..7]);
    DaysBeforeYear(year) + DaysBeforeMonth(year, month) + Number(date[8..10]) - 1
  }

  /** The microseconds of a time text, counted from midnight. */
  function TimeOf(time: string): nat
    requires |time| >= 15
  {
    ((Number(time[0..2]) * 60 + Number(time[3..5])) * 60 + Number(time[6..8])) * 1_000_000 + Number(time[9..15])
  }

  const DAY_MICROSECONDS := 86_400_000_000

  /** The instant a timestamp names, in microseconds. */
  function Instant(s: string): int
    requires |s| == |TIMESTAMP|
  {
    DayOf(s[..11]) * DAY_MICROSECONDS + TimeOf(s[11..])
  }

  /** Whatever decides first decides. */
  function Then(first: int, second: int): int {
    if first != 0 then first else second
  }

  /** A field of a text, compared as a number. */
  function Field(a: string, b: string, from: nat, to: nat): int
    requires from <= to <= |a| == |b|
  {
    Sign(Number(a[from..to]) - Number(b[from..to]))
  }

  /** The first field and the separator after it, and then the rest. */
  lemma FieldFirst(a: string, b: string, shape: string, width: nat)
    requires HasShape(a, shape) && HasShape(b, shape) && width < |shape| && shape[width] != '0'
    ensures HasShape(a[width + 1..], shape[width + 1..]) && HasShape(b[width + 1..], shape[width + 1..])
    ensures Sign(Compare(a, b)) == Then(Field(a, b, 0, width), Sign(Compare(a[width + 1..], b[width + 1..])))
  {
    var x, y := a[..width], b[..width];
    CompareSplits(a, b, width);
    FixedWidthOrder(x, y, shape[..width]);
    assert a[0..width] == x && b[0..width] == y;
    assert a[width..] == [a[width]] + a[width + 1..] && b[width..] == [b[width]] + b[width + 1..];
  }

  function Pow10(n: nat): nat {
    if n == 0 then 1 else 10 * Pow10(n - 1)
  }

  lemma {:induction false} NumberIsSmall(s: string)
    ensures Number(s) < Pow10(|s|)
  {
    if s != [] {
      NumberIsSmall(s[..|s| - 1]);
    }
  }

  lemma MicrosecondsAreSmall(s: string)
    requires |s| == 6
    ensures Number(s) < 1_000_000
  {
    NumberIsSmall(s);
    assert Pow10(6) == 10 * (10 * (10 * (10 * (10 * (10 * Pow10(0))))));
  }

  /** Time of day is ordered as hours, then minutes, then seconds, then microseconds. */
  lemma TimeFields(h: nat, m: nat, s: nat, u: nat, h': nat, m': nat, s': nat, u': nat)
    requires m < 60 && s < 60 && u < 1_000_000 && m' < 60 && s' < 60 && u' < 1_000_000
    ensures Sign((((h * 60 + m) * 60 + s) * 1_000_000 + u) - (((h' * 60 + m') * 60 + s') * 1_000_000 + u'))
         == Then(Sign(h - h'), Then(Sign(m - m'), Then(Sign(s - s'), Sign(u - u'))))
  {
  }

  predicate ValidTime(time: string) {
    && HasShape(time, TIME)
    && Number(time[0..2]) <= 23 && Number(time[3..5]) <= 59 && Number(time[6..8]) <= 59
  }

  const TIME := "00:00:00.000000Z"
  const DATE := "0000-00-00T"

  lemma TimesOfDay(a: string, b: string)
    requires ValidTime(a) && ValidTime(b)
    ensures Sign(Compare(a, b)) == Sign(TimeOf(a) - TimeOf(b))
  {
    assert |a| == |b| == |TIME| == 16;
    hide Number, HasShape, Compare;
    FieldFirst(a, b, TIME, 2);
    FieldFirst(a[3..], b[3..], TIME[3..], 2);
    FieldFirst(a[6..], b[6..], TIME[6..], 2);
    FieldFirst(a[9..], b[9..], TIME[9..], 6);
    NothingLeft(a[9..][7..], b[9..][7..]);
    MicrosecondsAreSmall(a[9..15]);
    MicrosecondsAreSmall(b[9..15]);
    Slices(a);
    Slices(b);
    TimeFields(Number(a[0..2]), Number(a[3..5]), Number(a[6..8]), Number(a[9..15]),
      Number(b[0..2]), Number(b[3..5]), Number(b[6..8]), Number(b[9..15]));
  }

  lemma NothingLeft(a: string, b: string)
    requires |a| == |b| == 0
    ensures Compare(a, b) == 0
  {
  }

  lemma Slices(s: string)
    requires |s| == 16
    ensures s[3..][0..2] == s[3..5] && s[6..][0..2] == s[6..8] && s[9..][0..6] == s[9..15]
    ensures s[3..][3..] == s[6..] && s[6..][3..] == s[9..]
  {
  }

  lemma TimeIsShort(time: string)
    requires ValidTime(time)
    ensures TimeOf(time) < DAY_MICROSECONDS
  {
    hide Number;
    MicrosecondsAreSmall(time[9..15]);
  }

  lemma {:induction false} MonthsAddUp(year: nat, month: nat, later: nat)
    requires 1 <= month < later <= 13
    ensures DaysBeforeMonth(year, month) + DaysIn(year, month) <= DaysBeforeMonth(year, later)
  {
    if month + 1 < later {
      MonthsAddUp(year, month, later - 1);
    }
  }

  lemma {:induction false} YearsAddUp(year: nat, later: nat)
    requires year < later
    ensures DaysBeforeYear(year) + DaysBeforeMonth(year, 13) <= DaysBeforeYear(later)
  {
    if year + 1 < later {
      YearsAddUp(year, later - 1);
    }
  }

  predicate ValidDate(date: string) {
    && HasShape(date, DATE)
    && 1 <= Number(date[5..7]) <= 12
    && 1 <= Number(date[8..10]) <= DaysIn(Number(date[0..4]), Number(date[5..7]))
  }

  /** The days of the calendar come in the order of year, then month, then day. */
  lemma DaysInOrder(y: nat, m: nat, d: nat, y': nat, m': nat, d': nat)
    requires 1 <= m <= 12 && 1 <= d <= DaysIn(y, m) && 1 <= m' <= 12 && 1 <= d' <= DaysIn(y', m')
    ensures Sign((DaysBeforeYear(y) + DaysBeforeMonth(y, m) + d) - (DaysBeforeYear(y') + DaysBeforeMonth(y', m') + d'))
         == Then(Sign(y - y'), Then(Sign(m - m'), Sign(d - d')))
  {
    hide DaysIn, DaysBeforeYear, DaysBeforeMonth;
    MonthsAddUp(y, m, 13);
    MonthsAddUp(y', m', 13);
    if y < y' {
      YearsAddUp(y, y');
    } else if y' < y {
      YearsAddUp(y', y);
    } else if m < m' {
      MonthsAddUp(y, m, m');
    } else if m' < m {
      MonthsAddUp(y, m', m);
    }
  }

  lemma DatesInOrder(a: string, b: string)
    requires ValidDate(a) && ValidDate(b)
    ensures Sign(Compare(a, b)) == Sign(DayOf(a) - DayOf(b))
  {
    assert |a| == |b| == |DATE| == 11;
    hide Number, HasShape, Compare, DaysIn, DaysBeforeYear, DaysBeforeMonth;
    FieldFirst(a, b, DATE, 4);
    FieldFirst(a[5..], b[5..], DATE[5..], 2);
    FieldFirst(a[8..], b[8..], DATE[8..], 2);
    NothingLeft(a[8..][3..], b[8..][3..]);
    DateSlices(a);
    DateSlices(b);
    DaysInOrder(Number(a[0..4]), Number(a[5..7]), Number(a[8..10]),
      Number(b[0..4]), Number(b[5..7]), Number(b[8..10]));
  }

  lemma DateSlices(s: string)
    requires |s| == 11
    ensures s[5..][0..2] == s[5..7] && s[8..][0..2] == s[8..10] && s[5..][3..] == s[8..]
  {
  }

  lemma TimestampParts(s: string)
    requires ValidTimestamp(s)
    ensures ValidDate(s[..11]) && ValidTime(s[11..]) && |s| == |TIMESTAMP|
  {
    var date, time := s[..11], s[11..];
    assert date[0..4] == s[0..4] && date[5..7] == s[5..7] && date[8..10] == s[8..10];
    assert time[0..2] == s[11..13] && time[3..5] == s[14..16] && time[6..8] == s[17..19];
  }

  /** So the planner's order by text is the database's order by time. */
  lemma TimestampsCompareAsInstants(a: string, b: string)
    requires ValidTimestamp(a) && ValidTimestamp(b)
    ensures |a| == |b| == |TIMESTAMP|
    ensures Sign(Compare(a, b)) == Sign(Instant(a) - Instant(b))
  {
    hide ValidTimestamp, ValidDate, ValidTime, TimeOf, DayOf;
    TimestampParts(a);
    TimestampParts(b);
    CompareSplits(a, b, 11);
    DatesInOrder(a[..11], b[..11]);
    TimesOfDay(a[11..], b[11..]);
    TimeIsShort(a[11..]);
    TimeIsShort(b[11..]);
  }

  // ---- base64url --------------------------------------------------------------------

  type Sextet = n: int | 0 <= n < 64

  function Symbol(n: Sextet): char {
    if n < 26 then ('A' as int + n) as char
    else if n < 52 then ('a' as int + n - 26) as char
    else if n < 62 then ('0' as int + n - 52) as char
    else if n == 62 then '-'
    else '_'
  }

  function SextetOf(c: char): Option<Sextet> {
    if 'A' <= c <= 'Z' then Some(c as int - 'A' as int)
    else if 'a' <= c <= 'z' then Some(c as int - 'a' as int + 26)
    else if '0' <= c <= '9' then Some(c as int - '0' as int + 52)
    else if c == '-' then Some(62)
    else if c == '_' then Some(63)
    else None
  }

  lemma SymbolsAreSextets(n: Sextet, c: char)
    ensures SextetOf(Symbol(n)) == Some(n)
    ensures SextetOf(c) == Some(n) ==> Symbol(n) == c
  {
  }

  function Symbols(x: seq<Sextet>): string {
    if x == [] then [] else [Symbol(x[0])] + Symbols(x[1..])
  }

  function Sextet0(a: Byte): Sextet { a / 4 }

  function Sextet1(a: Byte, b: Byte): Sextet { a % 4 * 16 + b / 16 }

  function Sextet2(b: Byte, c: Byte): Sextet { b % 16 * 4 + c / 64 }

  function Sextet3(c: Byte): Sextet { c % 64 }

  /** Three bytes are four sextets; one or two bytes left over are two or three. */
  function Split(b: seq<Byte>): seq<Sextet> {
    if |b| == 0 then []
    else if |b| == 1 then [Sextet0(b[0]), Sextet1(b[0], 0)]
    else if |b| == 2 then [Sextet0(b[0]), Sextet1(b[0], b[1]), Sextet2(b[1], 0)]
    else [Sextet0(b[0]), Sextet1(b[0], b[1]), Sextet2(b[1], b[2]), Sextet3(b[2])] + Split(b[3..])
  }

  function Encode(b: seq<Byte>): string {
    Symbols(Split(b))
  }

  function Sextets(s: string): Option<seq<Sextet>> {
    if s == [] then Some([])
    else
      var first, rest := SextetOf(s[0]), Sextets(s[1..]);
      if first.None? || rest.None? then None else Some([first.value] + rest.value)
  }

  function Byte0(a: int, b: int): Byte
    requires 0 <= a < 64 && 0 <= b < 64
  {
    a * 4 + b / 16
  }

  function Byte1(a: int, b: int): Byte
    requires 0 <= a < 64 && 0 <= b < 64
  {
    a % 16 * 16 + b / 4
  }

  function Byte2(a: int, b: int): Byte
    requires 0 <= a < 64 && 0 <= b < 64
  {
    a % 4 * 64 + b
  }

  /** Four sextets are three bytes; two or three left over are one or two bytes, their
      spare bits dropped; one left over is an error. */
  function Bytes(x: seq<Sextet>): Option<seq<Byte>> {
    if |x| == 0 then Some([])
    else if |x| == 1 then None
    else if |x| == 2 then Some([Byte0(x[0], x[1])])
    else if |x| == 3 then Some([Byte0(x[0], x[1]), Byte1(x[1], x[2])])
    else
      var rest := Bytes(x[4..]);
      if rest.None? then None
      else Some([Byte0(x[0], x[1]), Byte1(x[1], x[2]), Byte2(x[2], x[3])] + rest.value)
  }

  function Decode(s: string): Option<seq<Byte>> {
    var x := Sextets(s);
    if x.None? then None else Bytes(x.value)
  }

  /** The bits of three bytes, spread over four sextets and put together again. */
  lemma BitsOfBytes(a: Byte, b: Byte, c: Byte)
    ensures Byte0(Sextet0(a), Sextet1(a, b)) == a
    ensures Byte1(Sextet1(a, b), Sextet2(b, c)) == b
    ensures Byte2(Sextet2(b, c), Sextet3(c)) == c
  {
  }

  lemma BytesOfFour(x0: Sextet, x1: Sextet, x2: Sextet, x3: Sextet, rest: seq<Sextet>)
    requires Bytes(rest).Some?
    ensures Bytes([x0, x1, x2, x3] + rest) == Some([Byte0(x0, x1), Byte1(x1, x2), Byte2(x2, x3)] + Bytes(rest).value)
  {
    assert ([x0, x1, x2, x3] + rest)[4..] == rest;
  }

  lemma BytesOfThree(a: Byte, b: Byte, c: Byte, rest: seq<Byte>)
    requires Bytes(Split(rest)) == Some(rest)
    ensures Bytes([Sextet0(a), Sextet1(a, b), Sextet2(b, c), Sextet3(c)] + Split(rest)) == Some([a, b, c] + rest)
  {
    hide Byte0, Byte1, Byte2, Sextet0, Sextet1, Sextet2, Sextet3, Bytes;
    BytesOfFour(Sextet0(a), Sextet1(a, b), Sextet2(b, c), Sextet3(c), Split(rest));
    BitsOfBytes(a, b, c);
  }

  /** The spare bits of the last sextet do not matter. */
  lemma BytesOfFew(a: Byte, b: Byte, c: Byte)
    ensures Bytes([Sextet0(a), Sextet1(a, b)]) == Some([a])
    ensures Bytes([Sextet0(a), Sextet1(a, b), Sextet2(b, c)]) == Some([a, b])
  {
    hide Byte0, Byte1, Sextet0, Sextet1, Sextet2;
    BitsOfBytes(a, b, c);
  }

  lemma {:induction false} BytesOfSplit(b: seq<Byte>)
    ensures Bytes(Split(b)) == Some(b)
  {
    if |b| == 0 {
    } else if |b| == 1 {
      BytesOfFew(b[0], 0, 0);
      assert b == [b[0]];
    } else if |b| == 2 {
      BytesOfFew(b[0], b[1], 0);
      assert b == [b[0], b[1]];
    } else {
      BytesOfSplit(b[3..]);
      BytesOfThree(b[0], b[1], b[2], b[3..]);
      assert b == [b[0], b[1], b[2]] + b[3..];
    }
  }

  lemma {:induction false} SextetsOfSymbols(x: seq<Sextet>)
    ensures Sextets(Symbols(x)) == Some(x)
  {
    if x != [] {
      SymbolsAreSextets(x[0], Symbol(x[0]));
      SextetsOfSymbols(x[1..]);
      assert x == [x[0]] + x[1..];
    }
  }

  /** Decoding undoes encoding, for every sequence of bytes. */
  lemma DecodeUndoesEncode(b: seq<Byte>)
    ensures Decode(Encode(b)) == Some(b)
  {
    SextetsOfSymbols(Split(b));
    BytesOfSplit(b);
  }

  lemma {:induction false} EncodedLength(b: seq<Byte>)
    ensures |Encode(b)| == (4 * |b| + 2) / 3
  {
    SymbolCount(Split(b));
    SextetCount(b);
  }

  lemma {:induction false} SymbolCount(x: seq<Sextet>)
    ensures |Symbols(x)| == |x|
  {
    if x != [] {
      SymbolCount(x[1..]);
    }
  }

  lemma {:induction false} SextetCount(b: seq<Byte>)
    ensures |Split(b)| == (4 * |b| + 2) / 3
  {
    if |b| >= 3 {
      SextetCount(b[3..]);
    }
  }

  // ---- The cursor's text ------------------------------------------------------------

  const PREFIX := "ppsb1."
  const LENGTH_LIMIT: nat := 1024
  const VERSION := 1

  /** The UTF-8 bytes of a text of ASCII characters. */
  function Utf8(s: string): (b: seq<Byte>)
    requires forall i | 0 <= i < |s| :: s[i] < 128 as char
    ensures |b| == |s|
  {
    seq(|s|, i requires 0 <= i < |s| => s[i] as int)
  }

  function PayloadText(c: Cursor): string {
    "{\"v\":1,\"t\":\"" + c.createdAt + "\",\"p\":\"" + c.postId + "\"}"
  }

  lemma PayloadIsAscii(c: Cursor)
    requires ValidCursor(c)
    ensures forall i | 0 <= i < |PayloadText(c)| :: PayloadText(c)[i] < 128 as char
    ensures |PayloadText(c)| == 48 + |c.postId|
  {
    var a, m, z := "{\"v\":1,\"t\":\"", "\",\"p\":\"", "\"}";
    assert forall i | 0 <= i < |a| :: a[i] < 128 as char;
    assert forall i | 0 <= i < |c.createdAt| :: c.createdAt[i] < 128 as char;
    assert forall i | 0 <= i < |m| :: m[i] < 128 as char;
    assert forall i | 0 <= i < |z| :: z[i] < 128 as char;
  }

  function Payload(c: Cursor): seq<Byte>
    requires ValidCursor(c)
  {
    PayloadIsAscii(c);
    Utf8(PayloadText(c))
  }

  /** An object with exactly the fields v, t and p, the last two of them strings. */
  datatype Fields = Fields(v: int, t: string, p: string)

  /** UTF-8 decoding followed by JSON parsing, nothing standing for bytes that are not a
      text, texts that are not JSON, and values that are not such an object. */
  type Parser = seq<Byte> -> Option<Fields>

  /** A parser reads back what a cursor's payload says; of all else nothing is assumed. */
  ghost predicate ReadsBack(parse: Parser) {
    forall c :: ValidCursor(c) ==> parse(Payload(c)) == Some(Fields(VERSION, c.createdAt, c.postId))
  }

  function EncodeCursor(c: Cursor): Result<string> {
    if !ValidCursor(c) then Failure("backfill cursor has invalid version, timestamp, or post id")
    else
      var encoded := PREFIX + Encode(Payload(c));
      if |encoded| > LENGTH_LIMIT then Failure("backfill cursor is too long") else Success(encoded)
  }

  function DecodeCursor(parse: Parser, value: string): Result<Cursor> {
    if |value| > LENGTH_LIMIT || !(PREFIX <= value) then Failure("backfill cursor has an invalid prefix or length")
    else
      var bytes := Decode(value[|PREFIX|..]);
      if bytes.None? then Failure("backfill cursor is not valid UTF-8 base64url")
      else
        var fields := parse(bytes.value);
        if fields.None? || fields.value.v != VERSION then Failure("backfill cursor has an invalid payload")
        else
          var c := Cursor(fields.value.t, fields.value.p);
          var encoded :- EncodeCursor(c);
          if encoded != value then Failure("backfill cursor is not canonical") else Success(c)
  }

  /** A valid cursor's text is at most 753 characters, so the length check never fails. */
  lemma CursorTextIsShort(c: Cursor)
    requires ValidCursor(c)
    ensures EncodeCursor(c).Success? && |EncodeCursor(c).value| <= 753
  {
    PayloadIsAscii(c);
    EncodedLength(Payload(c));
  }

  lemma DecodesEncoded(parse: Parser, c: Cursor)
    requires ReadsBack(parse) && ValidCursor(c)
    ensures DecodeCursor(parse, PREFIX + Encode(Payload(c))) == Success(c)
  {
    CursorTextIsShort(c);
    DecodeUndoesEncode(Payload(c));
    var text := PREFIX + Encode(Payload(c));
    assert text[|PREFIX|..] == Encode(Payload(c));
  }

  /** Decoding accepts exactly the texts of valid cursors, each as its cursor, whatever
      the parser makes of other bytes. */
  lemma DecodesExactly(parse: Parser, value: string, c: Cursor)
    requires ReadsBack(parse)
    ensures DecodeCursor(parse, value) == Success(c) <==> EncodeCursor(c) == Success(value)
  {
    if EncodeCursor(c) == Success(value) {
      DecodesEncoded(parse, c);
    }
  }
}
