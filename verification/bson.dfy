/**
 * The values a stored document holds once pymongo hands it back: strings,
 * booleans, naive datetimes, ObjectIds, lists of strings and None, together
 * with the two string conversions the service relies on, `datetime.isoformat()`
 * and `str(ObjectId)`.
 */
module Bson {

  // ---------------------------------------------------------------------------
  // datetime
  // ---------------------------------------------------------------------------

  /** A naive `datetime`: calendar fields, no time zone. */
  datatype DateTime = DateTime(year: nat, month: nat, day: nat,
                               hour: nat, minute: nat, second: nat, microsecond: nat)

  predicate IsLeapYear(year: nat) {
    year % 4 == 0 && (year % 100 != 0 || year % 400 == 0)
  }

  function DaysInMonth(year: nat, month: nat): nat {
    if month == 2 then (if IsLeapYear(year) then 29 else 28)
    else if month == 4 || month == 6 || month == 9 || month == 11 then 30
    else 31
  }

  /** The ranges Python's `datetime` constructor enforces. */
  predicate InRange(t: DateTime) {
    && 1 <= t.year <= 9999
    && 1 <= t.month <= 12
    && 1 <= t.day <= DaysInMonth(t.year, t.month)
    && t.hour < 24 && t.minute < 60 && t.second < 60
    && t.microsecond < 1000000
  }

  type Timestamp = t: DateTime | InRange(t) witness DateTime(1970, 1, 1, 0, 0, 0, 0)

  /** Python orders datetimes field by field, most significant first. */
  predicate Before(a: Timestamp, b: Timestamp) {
    || a.year < b.year
    || (a.year == b.year && a.month < b.month)
    || (a.year == b.year && a.month == b.month && a.day < b.day)
    || (a.year == b.year && a.month == b.month && a.day == b.day && a.hour < b.hour)
    || (a.year == b.year && a.month == b.month && a.day == b.day && a.hour == b.hour
        && a.minute < b.minute)
    || (a.year == b.year && a.month == b.month && a.day == b.day && a.hour == b.hour
        && a.minute == b.minute && a.second < b.second)
    || (a.year == b.year && a.month == b.month && a.day == b.day && a.hour == b.hour
        && a.minute == b.minute && a.second == b.second && a.microsecond < b.microsecond)
  }

  // Mixed-radix prefixes of a timestamp, most significant field first.
  function YearMonth(t: Timestamp): int { t.year * 13 + t.month }
  function Date(t: Timestamp): int { YearMonth(t) * 32 + t.day }
  function Hours(t: Timestamp): int { Date(t) * 24 + t.hour }
  function Minutes(t: Timestamp): int { Hours(t) * 60 + t.minute }
  function Seconds(t: Timestamp): int { Minutes(t) * 60 + t.second }

  /** The instant as one integer; the sort key used for ordering posts. */
  function Ordinal(t: Timestamp): int { Seconds(t) * 1000000 + t.microsecond }

  /** One mixed-radix step keeps both order and equality of the (high, low) pair. */
  lemma MixedRadixStep(x: int, a: int, y: int, b: int, base: int)
    requires 0 <= a < base && 0 <= b < base
    ensures x * base + a < y * base + b <==> x < y || (x == y && a < b)
    ensures x * base + a == y * base + b <==> x == y && a == b
  {
    if x < y {
      LowerPlaceOutweighs(x, a, y, b, base);
    } else if y < x {
      LowerPlaceOutweighs(y, b, x, a, base);
    }
  }

  lemma LowerPlaceOutweighs(x: int, a: int, y: int, b: int, base: int)
    requires 0 <= a < base && 0 <= b < base && x < y
    ensures x * base + a < y * base + b
  {
    var k := y - x - 1;
    assert k * base >= 0;
    calc {
      y * base;
    ==  { assert y == x + 1 + k; }
      (x + 1 + k) * base;
    ==
      x * base + base + k * base;
    }
  }

  /** Comparing ordinals is comparing the datetimes the way Python does. */
  lemma OrdinalOrder(a: Timestamp, b: Timestamp)
    ensures Ordinal(a) < Ordinal(b) <==> Before(a, b)
    ensures Ordinal(a) == Ordinal(b) <==> a == b
  {
    MixedRadixStep(a.year, a.month, b.year, b.month, 13);
    MixedRadixStep(YearMonth(a), a.day, YearMonth(b), b.day, 32);
    MixedRadixStep(Date(a), a.hour, Date(b), b.hour, 24);
    MixedRadixStep(Hours(a), a.minute, Hours(b), b.minute, 60);
    MixedRadixStep(Minutes(a), a.second, Minutes(b), b.second, 60);
    MixedRadixStep(Seconds(a), a.microsecond, Seconds(b), b.microsecond, 1000000);
  }

  /**
   * A BSON datetime counts whole milliseconds, so a datetime that goes into
   * the store comes back without its sub-millisecond part.
   */
  function ToMillis(t: Timestamp): (r: Timestamp)
    ensures r.microsecond % 1000 == 0
    ensures r.microsecond <= t.microsecond < r.microsecond + 1000
    ensures r.(microsecond := t.microsecond) == t
  {
    t.(microsecond := t.microsecond / 1000 * 1000)
  }

  /** Storing keeps a datetime exactly when it already falls on a millisecond. */
  lemma ToMillisKeeps(t: Timestamp)
    ensures ToMillis(t) == t <==> t.microsecond % 1000 == 0
  {
    if ToMillis(t) == t {
      assert t.microsecond == ToMillis(t).microsecond;
    }
  }

  /**
   * Storing never reverses the order of two datetimes, but it can make two
   * different ones equal.
   */
  lemma ToMillisMonotone(a: Timestamp, b: Timestamp)
    ensures Before(ToMillis(a), ToMillis(b)) ==> Before(a, b)
  {
  }

  /**
   * Some distinct datetimes read back from the store as the same one, for
   * instance 12:00:00.000900 and 12:00:00.000950 on the same day.
   */
  lemma ToMillisTies()
    ensures var a, b := DateTime(2024, 1, 1, 12, 0, 0, 900), DateTime(2024, 1, 1, 12, 0, 0, 950);
      && InRange(a) && InRange(b) && Before(a, b) && ToMillis(a) == ToMillis(b)
  {
  }

  // ---------------------------------------------------------------------------
  // Digits
  // ---------------------------------------------------------------------------

  function Zeros(n: nat): (s: string)
    ensures |s| == n && forall i :: 0 <= i < n ==> s[i] == '0'
  {
    if n == 0 then [] else Zeros(n - 1) + ['0']
  }

  function DigitChar(d: nat): char
    requires d < 10
  {
    ('0' as int + d) as char
  }

  /** The shortest decimal spelling of `n`, as `str(n)` gives it. */
  function Decimal(n: nat): (s: string)
    ensures 1 <= |s|
  {
    if n < 10 then [DigitChar(n)] else Decimal(n / 10) + [DigitChar(n % 10)]
  }

  function Pow10(k: nat): nat {
    if k == 0 then 1 else 10 * Pow10(k - 1)
  }

  lemma {:induction false} DecimalFits(n: nat, width: nat)
    ensures 1 <= width && n < Pow10(width) ==> |Decimal(n)| <= width
  {
    if 1 <= width && n < Pow10(width) && n >= 10 {
      assert width >= 2;
      DecimalFits(n / 10, width - 1);
    }
  }

  /** `n` in decimal, zero-filled on the left to at least `width` digits (`%0*d`). */
  function Padded(n: nat, width: nat): (s: string)
    ensures 1 <= width && n < Pow10(width) ==> |s| == width
  {
    DecimalFits(n, width);
    var d := Decimal(n);
    if |d| < width then Zeros(width - |d|) + d else d
  }

  /**
   * `t.isoformat(sep)`: YYYY-MM-DD, the separator, HH:MM:SS, and `.ffffff`
   * only when the microseconds are not zero.
   */
  function IsoFormatSep(t: Timestamp, sep: char): (r: string)
    ensures |r| == if t.microsecond == 0 then 19 else 26
    ensures r[4] == '-' && r[7] == '-' && r[10] == sep && r[13] == ':' && r[16] == ':'
  {
    Padded(t.year, 4) + "-" + Padded(t.month, 2) + "-" + Padded(t.day, 2)
    + [sep] + Padded(t.hour, 2) + ":" + Padded(t.minute, 2) + ":" + Padded(t.second, 2)
    + (if t.microsecond == 0 then "" else "." + Padded(t.microsecond, 6))
  }

  /** `t.isoformat()`. */
  function IsoFormat(t: Timestamp): string {
    IsoFormatSep(t, 'T')
  }

  // ---------------------------------------------------------------------------
  // ObjectId
  // ---------------------------------------------------------------------------

  /** The store hands out identifiers from a counter; an ObjectId is its value. */
  type ObjectId = nat

  function HexDigit(d: nat): char
    requires d < 16
  {
    if d < 10 then ('0' as int + d) as char else ('a' as int + d - 10) as char
  }

  function HexValue(c: char): int {
    if '0' <= c <= '9' then c as int - '0' as int else c as int - 'a' as int + 10
  }

  function Hex(n: nat): (s: string)
    ensures 1 <= |s|
  {
    if n < 16 then [HexDigit(n)] else Hex(n / 16) + [HexDigit(n % 16)]
  }

  /** `str(oid)`: lower-case hexadecimal, zero-filled to 24 digits. */
  function IdString(id: ObjectId): (s: string)
    ensures 24 <= |s|
  {
    var h := Hex(id);
    if |h| < 24 then Zeros(24 - |h|) + h else h
  }

  /** `ObjectId(s)`: reads a hexadecimal string back, most significant digit first. */
  function ParseHex(s: string): int {
    if s == [] then 0 else ParseHex(s[..|s| - 1]) * 16 + HexValue(s[|s| - 1])
  }

  lemma {:induction false} ParseHexOfHex(n: nat)
    ensures ParseHex(Hex(n)) == n
  {
    var s := Hex(n);
    if n >= 16 {
      assert s[..|s| - 1] == Hex(n / 16);
      ParseHexOfHex(n / 16);
    }
  }

  lemma {:induction false} ParseHexSkipsZeros(m: nat, s: string)
    ensures ParseHex(Zeros(m) + s) == ParseHex(s)
  {
    if s == [] {
      assert Zeros(m) + s == Zeros(m);
      ParseZeros(m);
    } else {
      var t := Zeros(m) + s;
      assert t[..|t| - 1] == Zeros(m) + s[..|s| - 1];
      ParseHexSkipsZeros(m, s[..|s| - 1]);
    }
  }

  lemma {:induction false} ParseZeros(m: nat)
    ensures ParseHex(Zeros(m)) == 0
  {
    if m > 0 {
      assert Zeros(m)[..m - 1] == Zeros(m - 1);
      ParseZeros(m - 1);
    }
  }

  /** The string form of an identifier reads back as that identifier. */
  lemma IdStringRoundTrip(id: ObjectId)
    ensures ParseHex(IdString(id)) == id
  {
    var h := Hex(id);
    ParseHexOfHex(id);
    if |h| < 24 {
      ParseHexSkipsZeros(24 - |h|, h);
    }
  }

  /** Distinct identifiers have distinct string forms. */
  lemma IdStringInjective(a: ObjectId, b: ObjectId)
    ensures IdString(a) == IdString(b) <==> a == b
  {
    IdStringRoundTrip(a);
    IdStringRoundTrip(b);
  }

  // ---------------------------------------------------------------------------
  // Document values
  // ---------------------------------------------------------------------------

  datatype Value =
    | StrVal(s: string)
    | BoolVal(b: bool)
    | DateVal(t: Timestamp)
    | OidVal(id: ObjectId)
    | ListVal(items: seq<string>)
    | NoneVal

  /** A document as a Python dict: field name to value. */
  type Document = map<string, Value>

  /** Python's `str(v)`. */
  function PyStr(v: Value): string {
    match v
    case StrVal(s) => s
    case BoolVal(b) => if b then "True" else "False"
    case DateVal(t) => IsoFormatSep(t, ' ')
    case OidVal(id) => IdString(id)
    case ListVal(items) => "[" + QuotedList(items) + "]"
    case NoneVal => "None"
  }

  function QuotedList(items: seq<string>): string {
    if items == [] then ""
    else if |items| == 1 then "'" + items[0] + "'"
    else "'" + items[0] + "', " + QuotedList(items[1..])
  }
}
