/** The parts of SQLite the handlers depend on: how `sqlite3` binds a
    Python value to a `?` parameter, and how a stored value compares with a
    text parameter under the default BINARY collation. */
module Sql {

  import opened Wrappers
  import opened JsonValues

  const MinInt64: int := -0x8000_0000_0000_0000
  const MaxInt64: int := 0x7FFF_FFFF_FFFF_FFFF

  /** SQLite's storage classes, less BLOB (nothing here binds bytes). */
  datatype SqlValue = SqlNull | SqlInteger(i: int) | SqlReal(r: real) | SqlText(s: string)

  /** Binding of one parameter by `sqlite3`: `None` is NULL, `bool` and
      `int` are INTEGER, `float` is REAL, `str` is TEXT. An `int` outside
      64 bits raises `OverflowError`, and a `list` or `dict` is an
      unsupported type; both are `None` here (the statement never runs). */
  function Adapt(v: Json): (r: Option<SqlValue>)
    ensures r.None? <==> v.JArray? || v.JObject? || (v.JInt? && !(MinInt64 <= v.i <= MaxInt64))
    ensures r == Some(SqlNull) <==> v == JNull
    ensures r.Some? && IsNumber(v) ==> (r.value.SqlInteger? || r.value.SqlReal?) && SqlNumeric(r.value) == NumericValue(v)
    ensures r.Some? && v.JString? ==> r.value == SqlText(v.s)
  {
    match v
    case JNull => Some(SqlNull)
    case JBool(b) => Some(SqlInteger(if b then 1 else 0))
    case JInt(i) => if MinInt64 <= i <= MaxInt64 then Some(SqlInteger(i)) else None
    case JFloat(r) => Some(SqlReal(r))
    case JString(s) => Some(SqlText(s))
    case JArray(_) => None
    case JObject(_) => None
  }

  /** The value an INTEGER or REAL takes in a REAL-affinity column. */
  function SqlNumeric(v: SqlValue): real
    requires v.SqlInteger? || v.SqlReal?
  {
    if v.SqlInteger? then v.i as real else v.r
  }

  /** The decimal digits of a natural number, most significant first, as
      SQLite writes an INTEGER it converts to TEXT. */
  function Digits(n: nat): (s: string)
    ensures |s| > 0
    ensures AllDigits(s)
  {
    if n < 10 then [DigitChar(n)] else Digits(n / 10) + [DigitChar(n % 10)]
  }

  function DigitChar(d: nat): (c: char)
    requires d < 10
    ensures '0' <= c <= '9'
    ensures c as int - '0' as int == d
  {
    ('0' as int + d) as char
  }

  predicate AllDigits(s: string)
  {
    forall k :: 0 <= k < |s| ==> '0' <= s[k] <= '9'
  }

  /** The number a string of decimal digits denotes. */
  function DigitsValue(s: string): nat
    requires AllDigits(s)
  {
    if s == [] then 0
    else DigitsValue(s[..|s| - 1]) * 10 + (s[|s| - 1] as int - '0' as int)
  }

  lemma {:induction false} DigitsRoundTrip(n: nat)
    ensures DigitsValue(Digits(n)) == n
  {
    if n >= 10 {
      DigitsRoundTrip(n / 10);
      var s := Digits(n);
      assert s[..|s| - 1] == Digits(n / 10);
    }
  }

  /** The text of an INTEGER: its digits, after a `-` when it is negative. */
  function DecimalText(i: int): (s: string)
    ensures |s| > 0
    ensures s[0] == '-' <==> i < 0
  {
    if i < 0 then "-" + Digits(-i) else Digits(i)
  }

  /** Reading back an integer written in decimal, with an optional `-`. */
  function ReadDecimal(s: string): int
    requires |s| > 0
    requires AllDigits(if s[0] == '-' then s[1..] else s)
  {
    if s[0] == '-' then -(DigitsValue(s[1..]) as int) else DigitsValue(s)
  }

  /** The text a TEXT column stores for an INTEGER reads back as that
      INTEGER, so no two integers are stored as the same text. */
  lemma DecimalTextRoundTrip(i: int)
    ensures ReadDecimal(DecimalText(i)) == i
  {
    var s := DecimalText(i);
    if i < 0 {
      assert s[1..] == Digits(-i);
      DigitsRoundTrip(-i);
    } else {
      DigitsRoundTrip(i);
    }
  }

  /** What a column with TEXT affinity stores for a bound value: an INTEGER
      becomes its decimal text; NULL, TEXT and REAL are kept (the text form
      of a REAL is not modelled). */
  function TextAffinity(v: SqlValue): (r: SqlValue)
    ensures !r.SqlInteger?
    ensures r == SqlNull <==> v == SqlNull
    ensures v.SqlInteger? ==> r == SqlText(DecimalText(v.i))
    ensures !v.SqlInteger? ==> r == v
  {
    if v.SqlInteger? then SqlText(DecimalText(v.i)) else v
  }

  /** BINARY collation: `memcmp` on UTF-8, which orders strings as the
      lexicographic order of their code points; a proper prefix comes first. */
  predicate TextLe(a: string, b: string)
  {
    if |a| == 0 then true
    else if |b| == 0 then false
    else if a[0] != b[0] then a[0] < b[0]
    else TextLe(a[1..], b[1..])
  }

  lemma {:induction false} TextLeReflexive(a: string)
    ensures TextLe(a, a)
  {
    if |a| != 0 { TextLeReflexive(a[1..]); }
  }

  lemma {:induction false} TextLeAntisymmetric(a: string, b: string)
    requires TextLe(a, b) && TextLe(b, a)
    ensures a == b
  {
    if |a| != 0 && |b| != 0 {
      TextLeAntisymmetric(a[1..], b[1..]);
      assert a == [a[0]] + a[1..] && b == [b[0]] + b[1..];
    }
  }

  lemma {:induction false} TextLeTransitive(a: string, b: string, c: string)
    requires TextLe(a, b) && TextLe(b, c)
    ensures TextLe(a, c)
  {
    if |a| != 0 && |b| != 0 && |c| != 0 && a[0] == b[0] == c[0] {
      TextLeTransitive(a[1..], b[1..], c[1..]);
    }
  }

  lemma {:induction false} TextLeTotal(a: string, b: string)
    ensures TextLe(a, b) || TextLe(b, a)
  {
    if |a| != 0 && |b| != 0 && a[0] == b[0] {
      TextLeTotal(a[1..], b[1..]);
    }
  }

  /** `v >= bound` for a TEXT parameter `bound`: NULL compares as unknown
      (the row is not selected) and every INTEGER or REAL sorts before every
      TEXT. */
  predicate AtLeast(v: SqlValue, bound: string)
  {
    match v
    case SqlNull => false
    case SqlInteger(_) => false
    case SqlReal(_) => false
    case SqlText(s) => TextLe(bound, s)
  }

  /** `v <= bound` for a TEXT parameter `bound`, by the same rules. */
  predicate AtMost(v: SqlValue, bound: string)
  {
    match v
    case SqlNull => false
    case SqlInteger(_) => true
    case SqlReal(_) => true
    case SqlText(s) => TextLe(s, bound)
  }

  /** A number sent where a date belongs is stored as its digits and then
      compared as text: `5` is stored as '5', which is after '2024-01-01'
      and so after '2024-12-31' too. */
  lemma NumberComparedAsText()
    ensures TextAffinity(SqlInteger(5)) == SqlText("5")
    ensures AtLeast(TextAffinity(SqlInteger(5)), "2024-01-01")
    ensures !AtMost(TextAffinity(SqlInteger(5)), "2024-12-31")
  {
    assert Digits(5) == "5";
  }

}
