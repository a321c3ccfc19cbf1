// CalculateDisplaySize and CreateColumnArrayBufferPtr: how large a character buffer a column gets,
// and that the texts it is made for fit.
module DisplaySize {
  import opened Decimal
  import opened ColumnValue
  import opened Options
  import Timestamp

  datatype SqlType =
    | SQL_CHAR | SQL_WCHAR | SQL_VARCHAR | SQL_WVARCHAR
    | SQL_NUMERIC | SQL_DECIMAL
    | SQL_BIT | SQL_TINYINT | SQL_SMALLINT | SQL_INTEGER | SQL_BIGINT
    | SQL_REAL | SQL_FLOAT | SQL_DOUBLE
    | SQL_BINARY | SQL_VARBINARY | SQL_LONGVARBINARY
    | SQL_TYPE_DATE | SQL_DATE | SQL_TYPE_TIME | SQL_TIME | SQL_TYPE_TIMESTAMP | SQL_TIMESTAMP
    | SQL_GUID
    | OtherSqlType(code: int)

  /** A size, or why there is none. Overflow stands for the undefined overflow of 32-bit arithmetic. */
  datatype Size = Size(n: int) | AssertionFailed | NotSupported | Overflow

  const INT_MAX: int := 0x7fff_ffff

  function Int32(n: int): Size {
    if n <= INT_MAX then Size(n) else Overflow
  }

  function CalculateDisplaySize(sqlType: SqlType, columnSize: int, numPrecRadix: int, decimalDigits: int): Size {
    match sqlType
    case SQL_CHAR | SQL_WCHAR | SQL_VARCHAR | SQL_WVARCHAR =>
      if columnSize == SQL_NO_TOTAL || columnSize <= 0 then AssertionFailed else Int32(columnSize + 1)
    case SQL_NUMERIC | SQL_DECIMAL =>
      if numPrecRadix != 10 || columnSize <= 0 then AssertionFailed else Int32(columnSize + 2 + 1)
    case SQL_BIT => Size(1 + 1)
    case SQL_TINYINT => Size(4 + 1)
    case SQL_SMALLINT => Size(6 + 1)
    case SQL_INTEGER => Size(11 + 1)
    case SQL_BIGINT => Size(20 + 1)
    case SQL_REAL => Size(14 + 1)
    case SQL_FLOAT | SQL_DOUBLE => Size(24 + 1)
    case SQL_BINARY | SQL_VARBINARY | SQL_LONGVARBINARY =>
      var bytes := if columnSize == SQL_NO_TOTAL then SQL_NO_TOTAL_BUFFER_LENGTH else columnSize;
      if bytes <= 0 then AssertionFailed else Int32(bytes * 2 + 1)
    case SQL_TYPE_DATE | SQL_DATE => Size(11 + 1)
    case SQL_TYPE_TIME | SQL_TIME =>
      if decimalDigits < 0 then AssertionFailed else Size(if decimalDigits == 0 then 8 + 1 else 9 + decimalDigits + 1)
    case SQL_TYPE_TIMESTAMP | SQL_TIMESTAMP =>
      if decimalDigits < 0 then AssertionFailed else Size(if decimalDigits == 0 then 19 + 1 else 20 + decimalDigits + 1)
    case SQL_GUID => Size(36 + 1)
    case OtherSqlType(_) => NotSupported
  }

  /** What the catalog reports of a column; a field that is NULL is None. */
  datatype ColumnInfo = ColumnInfo(sqlType: SqlType, columnSize: Option<int>, numPrecRadix: Option<int>, decimalDigits: Option<int>)

  function OrZero(o: Option<int>): int {
    match o case Some(v) => v case None => 0
  }

  /** The number of elements CreateColumnArrayBufferPtr asks for when the column becomes SQL_C_CHAR. */
  function CharSize(info: ColumnInfo): Size {
    CalculateDisplaySize(info.sqlType, OrZero(info.columnSize), OrZero(info.numPrecRadix), OrZero(info.decimalDigits))
  }

  /** A buffer of n elements that can take the text and give it back. */
  ghost predicate Holds(n: int, text: string) {
    forall c: Content | |c.data| == n ::
      var (c', r) := AfterSetString(c, text);
      r == Ok && GetString(c') == Read(text)
  }

  lemma HoldsIff(n: int, text: string)
    requires text != "" && NUL !in text
    ensures n >= 0 ==> (Holds(n, text) <==> |text| + 1 <= n)
  {
    if n >= 0 {
      forall c: Content | |c.data| == n ensures var (c', r) := AfterSetString(c, text);
                                                r == Ok && GetString(c') == Read(text) <==> |text| + 1 <= n
      {
        SetGetRoundTrip(c, text);
      }
      var d := Content(Zeros(n), 0);
      SetGetRoundTrip(d, text);
    }
  }

  // ---- integers

  /** The values of the integer types, signed and unsigned. */
  predicate InRange(t: SqlType, i: int) {
    (t == SQL_BIT ==> 0 <= i < 2) && (t == SQL_TINYINT ==> -0x80 <= i < 0x100)
    && (t == SQL_SMALLINT ==> -0x8000 <= i < 0x1_0000)
    && (t == SQL_INTEGER ==> -0x8000_0000 <= i < 0x1_0000_0000)
    && (t == SQL_BIGINT ==> -0x8000_0000_0000_0000 <= i < 0x1_0000_0000_0000_0000)
  }

  predicate IsIntegerType(t: SqlType) {
    t == SQL_BIT || t == SQL_TINYINT || t == SQL_SMALLINT || t == SQL_INTEGER || t == SQL_BIGINT
  }

  /** Digits a magnitude of the type can need; the sign comes on top for negative values. */
  function MaxDigits(t: SqlType, negative: bool): nat {
    match t
    case SQL_BIT => 1
    case SQL_TINYINT => 3
    case SQL_SMALLINT => 5
    case SQL_INTEGER => 10
    case _ => if negative then 19 else 20
  }

  lemma PowerTable()
    ensures Pow10(0) == 1 && Pow10(1) == 10 && Pow10(2) == 100 && Pow10(3) == 1000
    ensures Pow10(4) == 10000 && Pow10(5) == 100000
    ensures Pow10(9) == 1_000_000_000 && Pow10(10) == 10_000_000_000
    ensures Pow10(18) == 1_000_000_000_000_000_000
    ensures Pow10(19) == 10_000_000_000_000_000_000 && Pow10(20) == 100_000_000_000_000_000_000
  {
    Timestamp.Powers();
    PowerSum(1, 4);
    PowerSum(4, 5);
    PowerSum(5, 5);
    PowerSum(9, 9);
    PowerSum(9, 10);
    PowerSum(10, 10);
  }

  lemma {:induction false} PowerSum(a: nat, b: nat)
    ensures Pow10(a + b) == Pow10(a) * Pow10(b)
  {
    if a > 0 { PowerSum(a - 1, b); }
  }

  lemma NoNul(i: int)
    ensures NUL !in IntText(i) && IntText(i) != ""
  {
    DigitsRoundTrip(if i < 0 then -i else i);
  }

  /** Every value of an integer type fits the buffer made for its text and is read back from it: a sign
      exactly for negative values, and the digits of the magnitude. */
  lemma IntegerTextFits(t: SqlType, i: int)
    requires IsIntegerType(t) && InRange(t, i)
    ensures CalculateDisplaySize(t, 0, 0, 0).Size?
    ensures Holds(CalculateDisplaySize(t, 0, 0, 0).n, IntText(i))
    ensures IntText(i) != "" && (IntText(i)[0] == '-' <==> i < 0) && ValueOf(if i < 0 then IntText(i)[1..] else IntText(i)) == Magnitude(i)
  {
    hide Holds, Digits, Pow10, ValueOf;
    IntTextMeans(i);
    PowerTable();
    DigitsLength(if i < 0 then -i else i, MaxDigits(t, i < 0));
    NoNul(i);
    HoldsIff(CalculateDisplaySize(t, 0, 0, 0).n, IntText(i));
  }

  function LongestValue(t: SqlType): int {
    match t
    case SQL_BIT => 0
    case SQL_TINYINT => -0x80
    case SQL_SMALLINT => -0x8000
    case SQL_INTEGER => -0x8000_0000
    case _ => -0x8000_0000_0000_0000
  }

  lemma LongestText(t: SqlType)
    requires IsIntegerType(t)
    ensures |IntText(LongestValue(t))| + 1 >= CalculateDisplaySize(t, 0, 0, 0).n
  {
    hide Digits, Pow10;
    PowerTable();
    NoNul(LongestValue(t));
    if t != SQL_BIT {
      DigitsLength(-LongestValue(t), MaxDigits(t, true) - 1);
    }
  }

  /** The sizes are tight: one element less could not hold the text of the type's longest value. */
  lemma IntegerSizeTight(t: SqlType, n: nat)
    requires IsIntegerType(t)
    requires n < CalculateDisplaySize(t, 0, 0, 0).n
    ensures InRange(t, LongestValue(t)) && !Holds(n, IntText(LongestValue(t)))
  {
    hide Holds, IntText;
    var i := LongestValue(t);
    LongestText(t);
    NoNul(i);
    HoldsIff(n, IntText(i));
  }

  // ---- DECIMAL(p, s)

  /** What is left of a number without its last s digits. */
  function WithoutLast(m: nat, s: nat): nat {
    if s == 0 then m else WithoutLast(m / 10, s - 1)
  }

  function Magnitude(v: int): nat { if v < 0 then -v else v }

  /** The text of a value whose unscaled digits are v: at least one digit before the point, and s
      after it when s > 0. */
  function DecimalText(v: int, s: nat): string {
    (if v < 0 then "-" else "") + Digits(WithoutLast(Magnitude(v), s))
    + (if s > 0 then "." + FixedDigits(Magnitude(v), s) else "")
  }

  /** The digits before and after the point together are the unscaled value. */
  lemma {:induction false} DecimalTextValue(m: nat, s: nat)
    ensures ValueOf(Digits(WithoutLast(m, s)) + FixedDigits(m, s)) == m
  {
    if s == 0 {
      DigitsRoundTrip(m);
      assert Digits(m) + "" == Digits(m);
    } else {
      DecimalTextValue(m / 10, s - 1);
      AppendDigit(Digits(WithoutLast(m / 10, s - 1)), FixedDigits(m / 10, s - 1), m % 10);
    }
  }

  /** The text of a decimal: a sign exactly for negative values; without it and without the point it is a
      text of the unscaled value. */
  lemma DecimalTextMeans(v: int, s: nat)
    ensures var text := DecimalText(v, s);
            && text != "" && (text[0] == '-' <==> v < 0)
            && exists whole: string, fraction: string {:trigger whole + fraction} :: |fraction| == s && ValueOf(whole + fraction) == Magnitude(v)
                 && text == (if v < 0 then "-" else "") + whole + if s > 0 then "." + fraction else ""
  {
    var whole, fraction := Digits(WithoutLast(Magnitude(v), s)), FixedDigits(Magnitude(v), s);
    DecimalTextValue(Magnitude(v), s);
    DigitsRoundTrip(WithoutLast(Magnitude(v), s));
    assert whole[0] in whole;
    hide Digits, FixedDigits, ValueOf, WithoutLast;
    assert ValueOf(whole + fraction) == Magnitude(v);
    assert DecimalText(v, s) == (if v < 0 then "-" else "") + whole + if s > 0 then "." + fraction else "";
  }

  lemma AppendDigit(a: string, b: string, d: nat)
    requires d < 10
    ensures ValueOf(a + (b + [Digit(d)])) == 10 * ValueOf(a + b) + d
  {
    assert a + (b + [Digit(d)]) == (a + b) + [Digit(d)];
    ValueOfAppend(a + b, Digit(d));
    DigitValueOfDigit(d);
  }

  lemma DecimalTextNoNul(v: int, s: nat)
    ensures NUL !in DecimalText(v, s) && DecimalText(v, s) != ""
  {
    DigitsRoundTrip(WithoutLast(Magnitude(v), s));
    LastDigitsAreDigits(Magnitude(v), s);
  }

  lemma LastDigitsAreDigits(m: nat, s: nat)
    ensures NUL !in FixedDigits(m, s)
  {
    FixedDigitsRoundTrip(m, s);
  }

  predicate HasPrecision(v: int, p: nat) {
    Magnitude(v) < Pow10(p)
  }

  lemma {:induction false} WithoutLastBound(m: nat, p: nat, s: nat)
    requires m < Pow10(p) && s <= p
    ensures WithoutLast(m, s) < Pow10(p - s)
  {
    if s > 0 {
      WithoutLastBound(m / 10, p - 1, s - 1);
    }
  }

  lemma DecimalTextLength(v: int, p: nat, s: nat)
    requires HasPrecision(v, p) && s < p
    ensures |DecimalText(v, s)| <= p + 2
  {
    WithoutLastBound(Magnitude(v), p, s);
    DigitsLength(WithoutLast(Magnitude(v), s), p - s);
  }

  /** The buffer made for a DECIMAL(p, s) column takes every value of it exactly when some digit
      stands before the point, that is, when s < p; for s = p each negative value is one too long. */
  lemma DecimalTextFitsIff(t: SqlType, p: nat, s: nat)
    requires t == SQL_NUMERIC || t == SQL_DECIMAL
    requires 0 < p <= INT_MAX - 3 && s <= p
    ensures CalculateDisplaySize(t, p, 10, s).Size?
    ensures (forall v | HasPrecision(v, p) :: Holds(CalculateDisplaySize(t, p, 10, s).n, DecimalText(v, s))) <==> s < p
  {
    var n := CalculateDisplaySize(t, p, 10, s).n;
    if s < p {
      forall v | HasPrecision(v, p) ensures Holds(n, DecimalText(v, s)) {
        DecimalTextLength(v, p, s);
        DecimalTextNoNul(v, s);
        HoldsIff(n, DecimalText(v, s));
      }
    } else {
      assert Pow10(p) == 10 * Pow10(p - 1);
      DecimalTextNoNul(-1, s);
      WithoutLastBound(1, s, s);
      assert |DecimalText(-1, s)| == 3 + p;
      HoldsIff(n, DecimalText(-1, s));
      assert HasPrecision(-1, p) && !Holds(n, DecimalText(-1, s));
    }
  }

  // ---- dates, times and timestamps

  /** A text of this length, without terminator, needs exactly one element more. */
  lemma NeedsOneMore(text: string, length: nat, n: nat)
    requires |text| == length > 0 && NUL !in text
    ensures Holds(n, text) <==> n > length
  {
    hide Holds;
    HoldsIff(n, text);
  }

  /** yyyy-mm-dd; a year before year 0 or after 9999 takes a place more. */
  function DateText(year: int, month: nat, day: nat): string {
    Padded(year, 4) + "-" + FixedDigits(month, 2) + "-" + FixedDigits(day, 2)
  }

  /** hh:mm:ss, and with decimals a point and so many digits. */
  function TimeText(hour: nat, minute: nat, second: nat, fraction: nat, decimals: nat): string {
    FixedDigits(hour, 2) + ":" + FixedDigits(minute, 2) + ":" + FixedDigits(second, 2) + Decimals(fraction, decimals)
  }

  function Decimals(fraction: nat, decimals: nat): string {
    if decimals == 0 then "" else "." + FixedDigits(fraction, decimals)
  }

  lemma DecimalsShape(fraction: nat, decimals: nat)
    ensures |Decimals(fraction, decimals)| == (if decimals == 0 then 0 else decimals + 1) && NUL !in Decimals(fraction, decimals)
  {
    LastDigitsAreDigits(fraction, decimals);
  }

  lemma YearShape(year: int)
    ensures |Padded(year, 4)| >= 4 && NUL !in Padded(year, 4)
    ensures |Padded(year, 4)| <= 5 <==> -10_000 < year < 100_000
  {
    PowerTable();
    hide Digits, Pow10, Zeros;
    var m: nat := if year < 0 then -year else year;
    DigitsLength(m, 4);
    DigitsLength(m, 5);
    DigitsRoundTrip(m);
    NoNulInZeros(4);
    NoNulInZeros(3);
    NoNulInZeros(2);
    NoNulInZeros(1);
  }

  lemma {:induction false} NoNulInZeros(k: nat)
    ensures NUL !in Zeros(k)
  {
    if k > 0 { NoNulInZeros(k - 1); }
  }

  /** A date column takes the dates of all years of up to four digits, and those of five digits after
      year 0, and no others. */
  lemma DateTextFitsIff(t: SqlType, year: int, month: nat, day: nat)
    requires t == SQL_TYPE_DATE || t == SQL_DATE
    ensures CalculateDisplaySize(t, 0, 0, 0).Size?
    ensures Holds(CalculateDisplaySize(t, 0, 0, 0).n, DateText(year, month, day)) <==> -10_000 < year < 100_000
  {
    hide Holds, FixedDigits, Padded;
    YearShape(year);
    LastDigitsAreDigits(month, 2);
    LastDigitsAreDigits(day, 2);
    NeedsOneMore(DateText(year, month, day), |Padded(year, 4)| + 6, CalculateDisplaySize(t, 0, 0, 0).n);
  }

  /** The buffer of a time column takes the text of every time with so many decimals, and none smaller does. */
  lemma TimeTextNeeds(t: SqlType, hour: nat, minute: nat, second: nat, fraction: nat, decimals: nat, n: nat)
    requires t == SQL_TYPE_TIME || t == SQL_TIME
    ensures CalculateDisplaySize(t, 0, 0, decimals).Size?
    ensures Holds(n, TimeText(hour, minute, second, fraction, decimals)) <==> n >= CalculateDisplaySize(t, 0, 0, decimals).n
  {
    hide Holds, FixedDigits, Decimals;
    LastDigitsAreDigits(hour, 2);
    LastDigitsAreDigits(minute, 2);
    LastDigitsAreDigits(second, 2);
    DecimalsShape(fraction, decimals);
    NeedsOneMore(TimeText(hour, minute, second, fraction, decimals), 8 + |Decimals(fraction, decimals)|, n);
  }

  /** The text of a timestamp with decimals. */
  function TimestampText(ts: Timestamp.SqlTimestamp, decimals: nat): string {
    Timestamp.TimestampToSqlString(ts) + Decimals(ts.fraction, decimals)
  }

  /** The same of timestamps. */
  lemma TimestampTextNeeds(t: SqlType, ts: Timestamp.SqlTimestamp, decimals: nat, n: nat)
    requires (t == SQL_TYPE_TIMESTAMP || t == SQL_TIMESTAMP) && ts.Printable()
    ensures CalculateDisplaySize(t, 0, 0, decimals).Size?
    ensures Holds(n, TimestampText(ts, decimals)) <==> n >= CalculateDisplaySize(t, 0, 0, decimals).n
  {
    hide Holds, Decimals, Timestamp.TimestampToSqlString;
    Timestamp.TextShape(ts);
    DecimalsShape(ts.fraction, decimals);
    NeedsOneMore(TimestampText(ts, decimals), 19 + |Decimals(ts.fraction, decimals)|, n);
  }

  // ---- floating point

  /** A sign, d significant digits with a point after the first, and an exponent with sign and w digits. */
  function ScientificText(negative: bool, digits: nat, d: nat, negativeExponent: bool, exponent: nat, w: nat): string
    requires d > 0
  {
    (if negative then "-" else "") + FixedDigits(digits, d)[..1] + (if d > 1 then "." + FixedDigits(digits, d)[1..] else "")
    + "E" + (if negativeExponent then "-" else "+") + FixedDigits(exponent, w)
  }

  lemma ScientificShape(negative: bool, digits: nat, d: nat, negativeExponent: bool, exponent: nat, w: nat)
    requires d > 0
    ensures var text := ScientificText(negative, digits, d, negativeExponent, exponent, w);
            |text| == (if negative then 1 else 0) + d + (if d > 1 then 1 else 0) + 2 + w && NUL !in text
  {
    LastDigitsAreDigits(digits, d);
    LastDigitsAreDigits(exponent, w);
    hide FixedDigits;
  }

  /** The digits that the exponent of the type can need. */
  function ExponentDigits(t: SqlType): nat { if t == SQL_REAL then 2 else 3 }

  predicate IsFloatType(t: SqlType) {
    t == SQL_REAL || t == SQL_FLOAT || t == SQL_DOUBLE
  }

  ghost predicate AllScientificFit(n: nat, d: nat, w: nat)
    requires d > 0
  {
    forall negative, digits: nat, negativeExponent, exponent: nat ::
      Holds(n, ScientificText(negative, digits, d, negativeExponent, exponent, w))
  }

  /** A DOUBLE column takes all texts of up to 17 significant digits, which tell any two values apart; a REAL
      column those of up to 8, which is one less than its values can need. */
  lemma FloatTextFitsIff(t: SqlType, d: nat)
    requires IsFloatType(t) && d > 0
    ensures CalculateDisplaySize(t, 0, 0, 0).Size? && CalculateDisplaySize(t, 0, 0, 0).n > 0
    ensures AllScientificFit(CalculateDisplaySize(t, 0, 0, 0).n, d, ExponentDigits(t)) <==> d <= if t == SQL_REAL then 8 else 17
  {
    hide Holds, ScientificText;
    var n, w := CalculateDisplaySize(t, 0, 0, 0).n, ExponentDigits(t);
    forall negative, digits: nat, negativeExponent, exponent: nat
      ensures Holds(n, ScientificText(negative, digits, d, negativeExponent, exponent, w))
         <==> (if negative then 1 else 0) + d + (if d > 1 then 1 else 0) + 2 + w < n
    {
      ScientificShape(negative, digits, d, negativeExponent, exponent, w);
      NeedsOneMore(ScientificText(negative, digits, d, negativeExponent, exponent, w),
                   (if negative then 1 else 0) + d + (if d > 1 then 1 else 0) + 2 + w, n);
    }
    assert Holds(n, ScientificText(true, 0, d, false, 0, w)) <==> 1 + d + (if d > 1 then 1 else 0) + 2 + w < n;
  }

  // ---- bytes

  function HexDigit(d: nat): char
    requires d < 16
  {
    "0123456789ABCDEF"[d]
  }

  /** Two hexadecimal digits for each byte. */
  function HexText(bytes: seq<bv8>): (s: string)
    ensures |s| == 2 * |bytes| && NUL !in s
  {
    if bytes == [] then ""
    else [HexDigit((bytes[0] / 16) as nat), HexDigit((bytes[0] % 16) as nat)] + HexText(bytes[1..])
  }

  /** The bytes that a binary column is made for. */
  function ByteCount(columnSize: int): int {
    if columnSize == -4 then 65536 else columnSize
  }

  predicate IsBinaryType(t: SqlType) {
    t == SQL_BINARY || t == SQL_VARBINARY || t == SQL_LONGVARBINARY
  }

  /** A binary column takes the texts of exactly as many bytes as it has, or of 65536 where it cannot say. */
  lemma BinaryTextFitsIff(t: SqlType, columnSize: int, bytes: seq<bv8>)
    requires IsBinaryType(t) && 0 < ByteCount(columnSize) && 2 * ByteCount(columnSize) < INT_MAX && bytes != []
    ensures CalculateDisplaySize(t, columnSize, 0, 0).Size?
    ensures Holds(CalculateDisplaySize(t, columnSize, 0, 0).n, HexText(bytes)) <==> |bytes| <= ByteCount(columnSize)
  {
    hide Holds, HexText;
    NeedsOneMore(HexText(bytes), 2 * |bytes|, CalculateDisplaySize(t, columnSize, 0, 0).n);
  }

  /** Sixteen bytes in groups of 4, 2, 2, 2 and 6. */
  function GuidText(bytes: seq<bv8>): string
    requires |bytes| == 16
  {
    HexText(bytes[..4]) + "-" + HexText(bytes[4..6]) + "-" + HexText(bytes[6..8]) + "-" + HexText(bytes[8..10]) + "-" + HexText(bytes[10..])
  }

  lemma GuidTextNeeds(bytes: seq<bv8>, n: nat)
    requires |bytes| == 16
    ensures CalculateDisplaySize(SQL_GUID, 0, 0, 0).Size?
    ensures Holds(n, GuidText(bytes)) <==> n >= CalculateDisplaySize(SQL_GUID, 0, 0, 0).n
  {
    hide Holds, HexText;
    NeedsOneMore(GuidText(bytes), 36, n);
  }

  // ---- characters

  /** A character column of size n takes exactly the texts of up to n characters. */
  lemma CharTextFitsIff(t: SqlType, n: nat, text: string)
    requires t == SQL_CHAR || t == SQL_WCHAR || t == SQL_VARCHAR || t == SQL_WVARCHAR
    requires 0 < n < INT_MAX && text != "" && NUL !in text
    ensures CalculateDisplaySize(t, n, 0, 0).Size?
    ensures Holds(CalculateDisplaySize(t, n, 0, 0).n, text) <==> |text| <= n
  {
    HoldsIff(n + 1, text);
  }

  // ---- the buffer that a column gets

  predicate IsCharType(t: SqlType) {
    t == SQL_CHAR || t == SQL_WCHAR || t == SQL_VARCHAR || t == SQL_WVARCHAR
  }

  ghost predicate IsIntegerText(info: ColumnInfo, text: string) {
    IsIntegerType(info.sqlType) && exists i :: InRange(info.sqlType, i) && text == IntText(i)
  }

  ghost predicate IsDecimalText(info: ColumnInfo, text: string) {
    && (info.sqlType == SQL_DECIMAL || info.sqlType == SQL_NUMERIC)
    && info.columnSize.Some? && 0 < info.columnSize.value <= INT_MAX - 3 && info.numPrecRadix == Some(10)
    && 0 <= OrZero(info.decimalDigits) < info.columnSize.value
    && exists v :: HasPrecision(v, info.columnSize.value) && text == DecimalText(v, OrZero(info.decimalDigits))
  }

  ghost predicate IsDateText(info: ColumnInfo, text: string) {
    && (info.sqlType == SQL_TYPE_DATE || info.sqlType == SQL_DATE)
    && exists year, month: nat, day: nat :: -10_000 < year < 100_000 && text == DateText(year, month, day)
  }

  ghost predicate IsTimeText(info: ColumnInfo, text: string) {
    && (info.sqlType == SQL_TYPE_TIME || info.sqlType == SQL_TIME) && OrZero(info.decimalDigits) >= 0
    && exists hour: nat, minute: nat, second: nat, fraction: nat ::
         text == TimeText(hour, minute, second, fraction, OrZero(info.decimalDigits))
  }

  ghost predicate IsTimestampText(info: ColumnInfo, text: string) {
    && (info.sqlType == SQL_TYPE_TIMESTAMP || info.sqlType == SQL_TIMESTAMP) && OrZero(info.decimalDigits) >= 0
    && exists ts: Timestamp.SqlTimestamp :: ts.Printable() && text == TimestampText(ts, OrZero(info.decimalDigits))
  }

  ghost predicate IsFloatText(info: ColumnInfo, text: string) {
    && IsFloatType(info.sqlType)
    && exists negative, digits: nat, d: nat, negativeExponent, exponent: nat ::
         0 < d <= (if info.sqlType == SQL_REAL then 8 else 17)
         && text == ScientificText(negative, digits, d, negativeExponent, exponent, ExponentDigits(info.sqlType))
  }

  ghost predicate IsBinaryText(info: ColumnInfo, text: string) {
    && IsBinaryType(info.sqlType) && info.columnSize.Some? && 2 * ByteCount(info.columnSize.value) < INT_MAX
    && exists bytes :: 0 < |bytes| <= ByteCount(info.columnSize.value) && text == HexText(bytes)
  }

  ghost predicate IsGuidText(info: ColumnInfo, text: string) {
    info.sqlType == SQL_GUID && exists bytes :: |bytes| == 16 && text == GuidText(bytes)
  }

  predicate IsCharText(info: ColumnInfo, text: string) {
    && IsCharType(info.sqlType) && info.columnSize.Some? && 0 < info.columnSize.value < INT_MAX
    && 0 < |text| <= info.columnSize.value && NUL !in text
  }

  /** The text is that of a value such a column can hold: an integer of its range; a decimal of p digits, s
      of them after the point, where s < p (DecimalTextFitsIff says why); a date, a time or a timestamp with
      the column's decimals; a floating point number of up to 8 or 17 digits (FloatTextFitsIff); as many
      bytes or characters as the column has; or a GUID. */
  ghost predicate IsColumnText(info: ColumnInfo, text: string) {
    || IsIntegerText(info, text) || IsDecimalText(info, text) || IsDateText(info, text) || IsTimeText(info, text)
    || IsTimestampText(info, text) || IsFloatText(info, text) || IsBinaryText(info, text) || IsGuidText(info, text)
    || IsCharText(info, text)
  }

  lemma IntegerColumn(info: ColumnInfo, text: string)
    requires IsIntegerText(info, text)
    ensures CharSize(info).Size? && Holds(CharSize(info).n, text)
  {
    hide Holds, IntText, InRange;
    var i :| InRange(info.sqlType, i) && text == IntText(i);
    IntegerTextFits(info.sqlType, i);
  }

  lemma DecimalColumn(info: ColumnInfo, text: string)
    requires IsDecimalText(info, text)
    ensures CharSize(info).Size? && Holds(CharSize(info).n, text)
  {
    hide Holds, DecimalText, HasPrecision;
    var p, s := info.columnSize.value, OrZero(info.decimalDigits);
    var v :| HasPrecision(v, p) && text == DecimalText(v, s);
    DecimalTextFitsIff(info.sqlType, p, s);
  }

  lemma TimestampColumn(info: ColumnInfo, text: string)
    requires IsTimestampText(info, text)
    ensures CharSize(info).Size? && Holds(CharSize(info).n, text)
  {
    hide Holds, TimestampText;
    var decimals := OrZero(info.decimalDigits);
    var ts: Timestamp.SqlTimestamp :| ts.Printable() && text == TimestampText(ts, decimals);
    TimestampTextNeeds(info.sqlType, ts, decimals, CharSize(info).n);
  }

  lemma DateColumn(info: ColumnInfo, text: string)
    requires IsDateText(info, text)
    ensures CharSize(info).Size? && Holds(CharSize(info).n, text)
  {
    hide Holds, DateText;
    var year, month: nat, day: nat :| -10_000 < year < 100_000 && text == DateText(year, month, day);
    DateTextFitsIff(info.sqlType, year, month, day);
  }

  lemma TimeColumn(info: ColumnInfo, text: string)
    requires IsTimeText(info, text)
    ensures CharSize(info).Size? && Holds(CharSize(info).n, text)
  {
    hide Holds, TimeText;
    var decimals := OrZero(info.decimalDigits);
    var hour: nat, minute: nat, second: nat, fraction: nat :| text == TimeText(hour, minute, second, fraction, decimals);
    TimeTextNeeds(info.sqlType, hour, minute, second, fraction, decimals, CharSize(info).n);
  }

  lemma FloatColumn(info: ColumnInfo, text: string)
    requires IsFloatText(info, text)
    ensures CharSize(info).Size? && Holds(CharSize(info).n, text)
  {
    hide Holds, ScientificText;
    var w := ExponentDigits(info.sqlType);
    var negative, digits: nat, d: nat, negativeExponent, exponent: nat :|
      0 < d <= (if info.sqlType == SQL_REAL then 8 else 17) && text == ScientificText(negative, digits, d, negativeExponent, exponent, w);
    FloatTextFitsIff(info.sqlType, d);
    assert Holds(CharSize(info).n, ScientificText(negative, digits, d, negativeExponent, exponent, w));
  }

  lemma BinaryColumn(info: ColumnInfo, text: string)
    requires IsBinaryText(info, text)
    ensures CharSize(info).Size? && Holds(CharSize(info).n, text)
  {
    hide Holds, HexText;
    var bytes :| 0 < |bytes| <= ByteCount(info.columnSize.value) && text == HexText(bytes);
    BinaryTextFitsIff(info.sqlType, info.columnSize.value, bytes);
  }

  lemma GuidColumn(info: ColumnInfo, text: string)
    requires IsGuidText(info, text)
    ensures CharSize(info).Size? && Holds(CharSize(info).n, text)
  {
    hide Holds, GuidText;
    var bytes :| |bytes| == 16 && text == GuidText(bytes);
    GuidTextNeeds(bytes, CharSize(info).n);
  }

  lemma CharColumn(info: ColumnInfo, text: string)
    requires IsCharText(info, text)
    ensures CharSize(info).Size? && Holds(CharSize(info).n, text)
  {
    hide Holds;
    CharTextFitsIff(info.sqlType, info.columnSize.value, text);
  }

  lemma ColumnTextFits(info: ColumnInfo, text: string)
    requires IsColumnText(info, text)
    ensures CharSize(info).Size? && Holds(CharSize(info).n, text)
  {
    hide Holds, CharSize, IsIntegerText, IsDecimalText, IsDateText, IsTimeText, IsTimestampText, IsFloatText, IsBinaryText, IsGuidText, IsCharText;
    if IsIntegerText(info, text) {
      IntegerColumn(info, text);
    } else if IsDecimalText(info, text) {
      DecimalColumn(info, text);
    } else if IsDateText(info, text) {
      DateColumn(info, text);
    } else if IsTimeText(info, text) {
      TimeColumn(info, text);
    } else if IsTimestampText(info, text) {
      TimestampColumn(info, text);
    } else if IsFloatText(info, text) {
      FloatColumn(info, text);
    } else if IsBinaryText(info, text) {
      BinaryColumn(info, text);
    } else if IsGuidText(info, text) {
      GuidColumn(info, text);
    } else {
      CharColumn(info, text);
    }
  }

  /** Which columns get a buffer: those of a known type, where the catalog says what the size is made of. */
  lemma SizeDefinedIff(info: ColumnInfo)
    ensures CharSize(info).Size? <==>
              && !info.sqlType.OtherSqlType?
              && (IsCharType(info.sqlType) ==> info.columnSize.Some? && 0 < info.columnSize.value < INT_MAX)
              && (info.sqlType == SQL_NUMERIC || info.sqlType == SQL_DECIMAL ==>
                    info.numPrecRadix == Some(10) && info.columnSize.Some? && 0 < info.columnSize.value <= INT_MAX - 3)
              && (IsBinaryType(info.sqlType) ==>
                    info.columnSize.Some? && 0 < ByteCount(info.columnSize.value) && 2 * ByteCount(info.columnSize.value) < INT_MAX)
              && (info.sqlType == SQL_TYPE_TIME || info.sqlType == SQL_TIME || info.sqlType == SQL_TYPE_TIMESTAMP || info.sqlType == SQL_TIMESTAMP ==>
                    info.decimalDigits.Some? ==> info.decimalDigits.value >= 0)
  {
  }

  lemma SizeIsPositive(info: ColumnInfo)
    ensures CharSize(info).Size? ==> CharSize(info).n > 0
  {
  }

  /** CreateColumnArrayBufferPtr for SQL_C_CHAR: no buffer exactly when there is no size. */
  method CreateCharBuffer(info: ColumnInfo) returns (r: Option<CharColumnBuffer>)
    ensures r.Some? <==> CharSize(info).Size?
    ensures r.Some? ==> fresh(r.value) && fresh(r.value.buffer) && r.value.View().IsNull() && r.value.buffer.Length == CharSize(info).n
  {
    hide CharSize;
    SizeIsPositive(info);
    match CharSize(info) {
      case Size(n) => r := CharColumnBuffer.Create(n);
      case _ => r := None;
    }
  }

  /** The buffer made for a column takes the text of every value of the column and gives it back; and of
      other texts exactly those without terminator that leave room for one. */
  method StoreAndRead(info: ColumnInfo, text: string) returns (r: Option<Reading>)
    requires text != ""
    ensures r.None? <==> !CharSize(info).Size?
    ensures IsColumnText(info, text) ==> r == Some(Read(text))
    ensures r.Some? ==> (r.value == Read(text) <==> NUL !in text && |text| < CharSize(info).n)
  {
    var b := CreateCharBuffer(info);
    if IsColumnText(info, text) { ColumnTextFits(info, text); }
    hide CharSize, IsColumnText, AfterSetString, GetString;
    if b.None? { return None; }
    SetGetRoundTrip(b.value.View(), text);
    var outcome := b.value.SetString(text);
    var reading := b.value.ReadString();
    r := Some(reading);
  }
}
