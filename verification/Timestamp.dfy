// SqlStructHelper: the text of a timestamp and the equality of timestamps.
module Timestamp {
  import opened Decimal

  /** SQL_TIMESTAMP_STRUCT. Its 16-bit fields need no bound here: nothing is computed from them. */
  datatype SqlTimestamp = SqlTimestamp(year: int, month: nat, day: nat, hour: nat, minute: nat, second: nat, fraction: nat) {
    /** A four-digit year and two-digit fields. */
    predicate Printable() {
      0 <= year < 10000 && month < 100 && day < 100 && hour < 100 && minute < 100 && second < 100
    }
  }

  /** TimestampToSqlString without the fraction: "%04d-%02d-%02d %02d:%02d:%02d". */
  function TimestampToSqlString(ts: SqlTimestamp): string {
    Padded(ts.year, 4) + ("-" + (Padded(ts.month, 2) + ("-" + (Padded(ts.day, 2) + (" " +
    (Padded(ts.hour, 2) + (":" + (Padded(ts.minute, 2) + (":" + Padded(ts.second, 2))))))))))
  }

  function IsTimestampEqual(a: SqlTimestamp, b: SqlTimestamp): bool {
    a.hour == b.hour && a.minute == b.minute && a.second == b.second && a.fraction == b.fraction
    && a.day == b.day && a.month == b.month && a.year == b.year
  }

  /** Field by field, from the year down: a comes before b. */
  predicate Earlier(a: SqlTimestamp, b: SqlTimestamp) {
    a.year < b.year || (a.year == b.year && (
    a.month < b.month || (a.month == b.month && (
    a.day < b.day || (a.day == b.day && (
    a.hour < b.hour || (a.hour == b.hour && (
    a.minute < b.minute || (a.minute == b.minute && a.second < b.second)))))))))
  }

  /** Reads a 19-character text back. */
  function Parse(s: string): SqlTimestamp
    requires |s| == 19
  {
    SqlTimestamp(ValueOf(s[0..4]), ValueOf(s[5..7]), ValueOf(s[8..10]),
                 ValueOf(s[11..13]), ValueOf(s[14..16]), ValueOf(s[17..19]), 0)
  }

  lemma Powers()
    ensures Pow10(1) == 10 && Pow10(2) == 100 && Pow10(3) == 1000 && Pow10(4) == 10000
  {
    assert Pow10(1) == 10 * Pow10(0);
    assert Pow10(2) == 10 * Pow10(1);
    assert Pow10(3) == 10 * Pow10(2);
    assert Pow10(4) == 10 * Pow10(3);
  }

  /** The text has 19 characters exactly for years -999..9999 and two-digit fields; it is never
      shorter. */
  lemma TextLength(ts: SqlTimestamp)
    ensures |TimestampToSqlString(ts)| >= 19
    ensures |TimestampToSqlString(ts)| == 19
       <==> -1000 < ts.year < 10000 && ts.month < 100 && ts.day < 100 && ts.hour < 100 && ts.minute < 100 && ts.second < 100
  {
    Powers();
    PaddedLength(ts.year, 4);
    PaddedLength(ts.month, 2);
    PaddedLength(ts.day, 2);
    PaddedLength(ts.hour, 2);
    PaddedLength(ts.minute, 2);
    PaddedLength(ts.second, 2);
  }

  /** The text has the 19 characters of a four-digit year without sign exactly if the timestamp is printable. */
  lemma PrintableIff(ts: SqlTimestamp)
    ensures ts.Printable() <==> |TimestampToSqlString(ts)| == 19 && TimestampToSqlString(ts)[0] != '-'
  {
    TextLength(ts);
    PaddedMeans(ts.year, 4);
    hide Padded;
  }

  /** A printable timestamp is read back from its text, the fraction apart. */
  lemma ParseText(ts: SqlTimestamp)
    requires ts.Printable()
    ensures |TimestampToSqlString(ts)| == 19
    ensures Parse(TimestampToSqlString(ts)) == ts.(fraction := 0)
  {
    hide Padded, AllDigits, ValueOf;
    TextLength(ts);
    FieldText(ts.year, 4);
    FieldText(ts.month, 2);
    FieldText(ts.day, 2);
    FieldText(ts.hour, 2);
    FieldText(ts.minute, 2);
    FieldText(ts.second, 2);
    Slices(Padded(ts.year, 4), Padded(ts.month, 2), Padded(ts.day, 2),
           Padded(ts.hour, 2), Padded(ts.minute, 2), Padded(ts.second, 2));
  }

  predicate AllDigits(s: string) {
    forall c <- s :: '0' <= c <= '9'
  }

  /** The text of a printable timestamp is yyyy-mm-dd hh:mm:ss: digits, and these separators between them. */
  lemma TextLayout(ts: SqlTimestamp)
    requires ts.Printable()
    ensures var t := TimestampToSqlString(ts);
            && |t| == 19 && t[4] == '-' && t[7] == '-' && t[10] == ' ' && t[13] == ':' && t[16] == ':'
            && AllDigits(t[0..4]) && AllDigits(t[5..7]) && AllDigits(t[8..10])
            && AllDigits(t[11..13]) && AllDigits(t[14..16]) && AllDigits(t[17..19])
  {
    hide Padded, AllDigits, ValueOf;
    FieldText(ts.year, 4);
    FieldText(ts.month, 2);
    FieldText(ts.day, 2);
    FieldText(ts.hour, 2);
    FieldText(ts.minute, 2);
    FieldText(ts.second, 2);
    Slices(Padded(ts.year, 4), Padded(ts.month, 2), Padded(ts.day, 2),
           Padded(ts.hour, 2), Padded(ts.minute, 2), Padded(ts.second, 2));
  }

  /** The text of six fields, cut apart again. */
  lemma Slices(y: string, mo: string, d: string, h: string, mi: string, s: string)
    requires |y| == 4 && |mo| == 2 && |d| == 2 && |h| == 2 && |mi| == 2 && |s| == 2
    ensures var t := y + ("-" + (mo + ("-" + (d + (" " + (h + (":" + (mi + (":" + s)))))))));
            |t| == 19 && t[0..4] == y && t[5..7] == mo && t[8..10] == d
            && t[11..13] == h && t[14..16] == mi && t[17..19] == s
            && t[4] == '-' && t[7] == '-' && t[10] == ' ' && t[13] == ':' && t[16] == ':'
  {
    var r4 := mi + (":" + s);
    var r3 := h + (":" + r4);
    var r2 := d + (" " + r3);
    var r1 := mo + ("-" + r2);
    var t := y + ("-" + r1);
    Peel(t, 0, y, "-", r1);
    Peel(t, 5, mo, "-", r2);
    Peel(t, 8, d, " ", r3);
    Peel(t, 11, h, ":", r4);
    Peel(t, 14, mi, ":", s);
  }

  /** One field, the separator after it, and the rest. */
  lemma Peel(t: string, at: nat, field: string, sep: string, rest: string)
    requires |sep| == 1 && at <= |t| && t[at..] == field + (sep + rest)
    ensures at + |field| + 1 <= |t| && t[at..at + |field|] == field && t[at + |field| + 1..] == rest && t[at + |field|] == sep[0]
  {
    var u := t[at..];
    assert u[..|field|] == field;
    assert u[|field| + 1..] == rest;
    assert t[at + |field| + 1..] == u[|field| + 1..];
  }

  /** 19 characters, none of them a terminator. */
  lemma TextShape(ts: SqlTimestamp)
    requires ts.Printable()
    ensures |TimestampToSqlString(ts)| == 19 && '\0' !in TimestampToSqlString(ts)
  {
    TextLength(ts);
    FieldText(ts.year, 4);
    FieldText(ts.month, 2);
    FieldText(ts.day, 2);
    FieldText(ts.hour, 2);
    FieldText(ts.minute, 2);
    FieldText(ts.second, 2);
  }

  lemma FieldText(n: nat, w: nat)
    requires w == 2 || w == 4
    requires n < (if w == 2 then 100 else 10000)
    ensures |Padded(n, w)| == w && ValueOf(Padded(n, w)) == n && '\0' !in Padded(n, w)
    ensures AllDigits(Padded(n, w))
  {
    Powers();
    PaddedIsFixed(n, w);
    FixedDigitsRoundTrip(n, w);
  }

  /** One field and the separator after it, compared before the rest. */
  lemma FieldOrder(m: nat, n: nat, w: nat, sep: string, x: string, y: string)
    requires w == 2 || w == 4
    requires m < (if w == 2 then 100 else 10000) && n < (if w == 2 then 100 else 10000)
    ensures LexLess(Padded(m, w) + (sep + x), Padded(n, w) + (sep + y)) <==> m < n || (m == n && LexLess(x, y))
  {
    Powers();
    PaddedIsFixed(m, w);
    PaddedIsFixed(n, w);
    FixedDigitsOrder(m, n, w);
    LexConcat(FixedDigits(m, w), FixedDigits(n, w), sep + x, sep + y);
    SameHead(sep, x, y);
  }

  lemma SameHead(sep: string, x: string, y: string)
    ensures LexLess(sep + x, sep + y) <==> LexLess(x, y)
  {
    LexConcat(sep, sep, x, y);
    NotLess(sep);
  }

  lemma {:induction false} NotLess(s: string)
    ensures !LexLess(s, s)
  {
    if s != "" { NotLess(s[1..]); }
  }

  /** The texts of printable timestamps are ordered as the timestamps are. */
  lemma TextOrder(a: SqlTimestamp, b: SqlTimestamp)
    requires a.Printable() && b.Printable()
    ensures LexLess(TimestampToSqlString(a), TimestampToSqlString(b)) <==> Earlier(a, b)
  {
    Powers();
    PaddedIsFixed(a.second, 2);
    PaddedIsFixed(b.second, 2);
    FixedDigitsOrder(a.second, b.second, 2);
    var a0, b0 := Padded(a.second, 2), Padded(b.second, 2);
    FieldOrder(a.minute, b.minute, 2, ":", a0, b0);
    var a1, b1 := Padded(a.minute, 2) + (":" + a0), Padded(b.minute, 2) + (":" + b0);
    FieldOrder(a.hour, b.hour, 2, ":", a1, b1);
    var a2, b2 := Padded(a.hour, 2) + (":" + a1), Padded(b.hour, 2) + (":" + b1);
    FieldOrder(a.day, b.day, 2, " ", a2, b2);
    var a3, b3 := Padded(a.day, 2) + (" " + a2), Padded(b.day, 2) + (" " + b2);
    FieldOrder(a.month, b.month, 2, "-", a3, b3);
    var a4, b4 := Padded(a.month, 2) + ("-" + a3), Padded(b.month, 2) + ("-" + b3);
    FieldOrder(a.year, b.year, 4, "-", a4, b4);
  }

  /** Timestamps are equal exactly when all fields are, the fraction included. */
  lemma EqualIff(a: SqlTimestamp, b: SqlTimestamp)
    ensures IsTimestampEqual(a, b) <==> a == b
  {
  }

  /** Printable timestamps have the same text exactly when they are equal up to the fraction. */
  lemma TextDistinguishes(a: SqlTimestamp, b: SqlTimestamp)
    requires a.Printable() && b.Printable()
    ensures TimestampToSqlString(a) == TimestampToSqlString(b) <==> IsTimestampEqual(a, b.(fraction := a.fraction))
  {
    ParseText(a);
    ParseText(b);
  }
}
