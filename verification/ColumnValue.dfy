// The value half of ColumnBuffer<SQLCHAR, SQL_C_CHAR>: the element buffer and its length indicator.
module ColumnValue {
  import opened Options

  const SQL_NULL_DATA: int := -1
  const SQL_NTS: int := -3
  const SQL_NO_TOTAL: int := -4
  const SQL_NO_TOTAL_BUFFER_LENGTH: int := 65536

  const NUL: char := '\0'

  datatype Outcome = Ok | ValueTooLong | NoSpaceForTerminator
  /** GetString: a buffer set to NULL throws; without a terminator the source reads past the end. */
  datatype Reading = Read(value: string) | NullValue | Overread

  /** What a buffer holds: its elements and its length indicator. */
  datatype Content = Content(data: string, cb: int) {
    predicate IsNull() { cb == SQL_NULL_DATA }
  }

  predicate EndsWithNul(value: string) {
    value != "" && value[|value| - 1] == NUL
  }

  /** What SetValue(value, cb) makes of a buffer. A value that does not fit leaves the buffer alone; one that only misses
      its terminator has been written by the time the call throws. */
  function AfterSetValue(c: Content, value: string, cb: int): (Content, Outcome) {
    var written := value + c.data[if |value| <= |c.data| then |value| else |c.data|..];
    if |value| > |c.data| then (c, ValueTooLong)
    else if cb != SQL_NTS || EndsWithNul(value) then (Content(written, cb), Ok)
    else if |value| == |c.data| then (Content(written, c.cb), NoSpaceForTerminator)
    else (Content(value + [NUL] + c.data[|value| + 1..], cb), Ok)
  }

  function AfterSetString(c: Content, s: string): (Content, Outcome) {
    AfterSetValue(c, s, SQL_NTS)
  }

  /** The text up to the first terminator. */
  function UpToNul(data: string): (r: string)
    ensures r <= data && NUL !in r
    ensures NUL in data ==> |r| < |data| && data[|r|] == NUL
  {
    if data == "" || data[0] == NUL then "" else [data[0]] + UpToNul(data[1..])
  }

  function GetString(c: Content): Reading {
    if c.IsNull() then NullValue
    else if NUL in c.data then Read(UpToNul(c.data)) else Overread
  }

  lemma {:induction false} UpToFirstNul(a: string, rest: string)
    requires NUL !in a
    ensures UpToNul(a + [NUL] + rest) == a
  {
    if a != "" {
      assert (a + [NUL] + rest)[1..] == a[1..] + [NUL] + rest;
      UpToFirstNul(a[1..], rest);
    }
  }

  /** What is read is the text up to the first terminator, unless the length indicator says NULL; where
      there is no terminator, reading goes past the end. */
  lemma ReadingMeans(c: Content, text: string)
    ensures GetString(c) == Read(text)
       <==> c.cb != -1 && |text| < |c.data| && c.data[..|text|] == text && '\0' !in text && c.data[|text|] == '\0'
    ensures GetString(c) == NullValue <==> c.cb == -1
    ensures GetString(c) == Overread <==> c.cb != -1 && '\0' !in c.data
  {
    if |text| < |c.data| && c.data[..|text|] == text && NUL !in text && c.data[|text|] == NUL {
      assert c.data == text + [NUL] + c.data[|text| + 1..];
      UpToFirstNul(text, c.data[|text| + 1..]);
    }
  }

  /** A value that is too long changes nothing. Otherwise its elements are written from the first on; behind
      them a terminator where the indicator is SQL_NTS and the value has none; and nothing else. Only a
      terminator for which there is no room leaves the indicator as it was. */
  lemma SetValueMeans(c: Content, value: string, cb: int)
    requires cb == SQL_NTS ==> value != ""
    ensures var (c', r) := AfterSetValue(c, value, cb);
            var terminates := cb == -3 && value[|value| - 1] != '\0';
            && (r == ValueTooLong <==> |value| > |c.data|) && (r == ValueTooLong ==> c' == c)
            && (r == NoSpaceForTerminator <==> |value| == |c.data| && terminates)
            && (r != ValueTooLong ==>
                  && |c'.data| == |c.data| && c'.data[..|value|] == value
                  && (forall k | |value| <= k < |c.data| ::
                        c'.data[k] == if terminates && k == |value| then '\0' else c.data[k])
                  && c'.cb == if r == Ok then cb else c.cb)
  {
  }

  /** A value comes back exactly when it holds no terminator, leaves room for one, the length indicator
      does not say NULL, and a terminator follows: one that is written for SQL_NTS, or one that was there. */
  lemma SetValueReadsIff(c: Content, value: string, cb: int)
    requires cb == SQL_NTS ==> value != ""
    ensures (var (c', r) := AfterSetValue(c, value, cb); r == Ok && GetString(c') == Read(value))
       <==> cb != -1 && '\0' !in value && |value| < |c.data| && (cb == -3 || c.data[|value|] == '\0')
    ensures var (c', r) := AfterSetValue(c, value, cb);
            r == Ok ==> (GetString(c') == NullValue <==> cb == -1)
  {
    var (c', r) := AfterSetValue(c, value, cb);
    SetValueMeans(c, value, cb);
    ReadingMeans(c', value);
    hide AfterSetValue, GetString;
  }

  /** Writing a non-empty string and reading it back works exactly when the string holds no NUL and
      leaves room for one, whatever the buffer held before. */
  lemma SetGetRoundTrip(c: Content, s: string)
    requires s != ""
    ensures var (c', r) := AfterSetString(c, s);
            r == Ok && GetString(c') == Read(s) <==> NUL !in s && |s| < |c.data|
  {
    SetValueReadsIff(c, s, SQL_NTS);
    hide AfterSetValue, GetString;
  }

  class CharColumnBuffer {
    const buffer: array<char>
    var cb: int

    ghost function View(): Content
      reads this, buffer
    {
      Content(buffer[..], cb)
    }

    constructor (nrOfElements: nat)
      requires nrOfElements > 0
      ensures fresh(buffer) && buffer.Length == nrOfElements && View().IsNull()
    {
      buffer := new char[nrOfElements](_ => NUL);
      cb := SQL_NULL_DATA;
    }

    /** Create: the size SQL_NO_TOTAL stands for a fixed fallback; a size that is not positive is refused. */
    static method Create(nrOfElements: int) returns (r: Option<CharColumnBuffer>)
      ensures r.None? <==> nrOfElements <= 0 && nrOfElements != SQL_NO_TOTAL
      ensures r.Some? ==> fresh(r.value) && fresh(r.value.buffer) && r.value.View().IsNull()
      ensures r.Some? ==> r.value.buffer.Length == if nrOfElements == SQL_NO_TOTAL then SQL_NO_TOTAL_BUFFER_LENGTH else nrOfElements
    {
      var n := if nrOfElements == SQL_NO_TOTAL then SQL_NO_TOTAL_BUFFER_LENGTH else nrOfElements;
      if n <= 0 { return None; }
      var b := new CharColumnBuffer(n);
      r := Some(b);
    }

    method SetValue(value: string, cb: int) returns (r: Outcome)
      // value.back() of an empty vector is undefined
      requires cb == SQL_NTS ==> value != ""
      modifies this, buffer
      ensures (View(), r) == AfterSetValue(old(View()), value, cb)
    {
      if |value| > buffer.Length { return ValueTooLong; }
      ghost var was := buffer[..];
      var index := 0;
      while index < |value|
        invariant index <= |value|
        invariant this.cb == old(this.cb)
        invariant forall k | 0 <= k < index :: buffer[k] == value[k]
        invariant forall k | index <= k < buffer.Length :: buffer[k] == was[k]
      {
        buffer[index] := value[index];
        index := index + 1;
      }
      assert buffer[..] == value + was[index..];
      if cb == SQL_NTS && value[|value| - 1] != NUL {
        if index >= buffer.Length { return NoSpaceForTerminator; }
        buffer[index] := NUL;
        assert buffer[..] == value + [NUL] + was[index + 1..];
      }
      this.cb := cb;
      r := Ok;
    }

    /** GetString: the text that std::string takes from the elements. */
    method ReadString() returns (r: Reading)
      ensures r == GetString(View())
    {
      if cb == SQL_NULL_DATA { return NullValue; }
      var i := 0;
      while i < buffer.Length && buffer[i] != NUL
        invariant i <= buffer.Length && NUL !in buffer[..i]
      {
        i := i + 1;
      }
      if i == buffer.Length {
        assert buffer[..] == buffer[..i];
        return Overread;
      }
      UpToFirstNul(buffer[..i], buffer[i + 1..]);
      assert buffer[..] == buffer[..i] + [NUL] + buffer[i + 1..];
      r := Read(buffer[..i]);
    }

    method SetString(s: string) returns (r: Outcome)
      requires s != ""
      modifies this, buffer
      ensures (View(), r) == AfterSetString(old(View()), s)
    {
      r := SetValue(s, SQL_NTS);
    }
  }
}
