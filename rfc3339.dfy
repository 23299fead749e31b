/**
 * The timestamp that SaveAccount puts into a backup file name
 * (kp.go:219): Go's `time.Time.Format(time.RFC3339)`, which writes the
 * date-time production of section 5.6 of RFC 3339 with whole seconds,
 * "Z" for a zero offset and "+hh:mm" or "-hh:mm" otherwise.
 */
module Rfc3339 {

  /** A wall-clock reading with its offset from UTC in minutes. */
  datatype DateTime = DateTime(year: int, month: int, day: int,
                               hour: int, minute: int, second: int, offset: int)
  {
    /** The ranges the four-digit and two-digit fields can hold. */
    predicate Valid()
    {
      && 0 <= year <= 9999
      && 1 <= month <= 12
      && 1 <= day <= 31
      && 0 <= hour < 24
      && 0 <= minute < 60
      && 0 <= second < 60
      && -24 * 60 < offset < 24 * 60
    }
  }

  predicate IsDigit(c: char)
  {
    '0' <= c <= '9'
  }

  /** The value of a decimal digit character. */
  function DigitValue(c: char): int
  {
    c as int - '0' as int
  }

  function Digit(d: int): (c: char)
    requires 0 <= d < 10
    ensures IsDigit(c)
    ensures DigitValue(c) == d
  {
    (48 + d) as char
  }

  /** Two decimal digits, zero-padded. */
  function Pad2(n: int): (s: string)
    requires 0 <= n < 100
    ensures |s| == 2 && IsDigit(s[0]) && IsDigit(s[1])
    ensures DigitValue(s[0]) * 10 + DigitValue(s[1]) == n
  {
    [Digit(n / 10), Digit(n % 10)]
  }

  /** Four decimal digits, zero-padded: the hundreds, then the rest. */
  function Pad4(n: int): (s: string)
    requires 0 <= n < 10000
    ensures |s| == 4 && forall i :: 0 <= i < 4 ==> IsDigit(s[i])
    ensures DigitValue(s[0]) * 1000 + DigitValue(s[1]) * 100 + DigitValue(s[2]) * 10 + DigitValue(s[3]) == n
  {
    var hi, lo := Pad2(n / 100), Pad2(n % 100);
    assert (hi + lo)[2..] == lo;
    hi + lo
  }

  /** The zone suffix: "Z" for UTC, otherwise the sign and the offset as hh:mm. */
  function Zone(offset: int): (s: string)
    requires -24 * 60 < offset < 24 * 60
    ensures offset == 0 ==> s == "Z"
    ensures '/' !in s
    ensures offset != 0 ==> |s| == 6 && s[0] == (if offset < 0 then '-' else '+') && s[3] == ':'
    ensures offset != 0 ==> forall i :: i in {1, 2, 4, 5} ==> IsDigit(s[i])
    ensures offset != 0 ==> var m := if offset < 0 then -offset else offset;
      && DigitValue(s[1]) * 10 + DigitValue(s[2]) == m / 60
      && DigitValue(s[4]) * 10 + DigitValue(s[5]) == m % 60
  {
    if offset == 0 then "Z"
    else
      var m := if offset < 0 then -offset else offset;
      [if offset < 0 then '-' else '+'] + Pad2(m / 60) + ":" + Pad2(m % 60)
  }

  /** The full-date part, YYYY-MM-DD. */
  function Date(t: DateTime): (s: string)
    requires t.Valid()
    ensures |s| == 10 && s[4] == '-' && s[7] == '-'
    ensures '/' !in s
  {
    Pad4(t.year) + "-" + Pad2(t.month) + "-" + Pad2(t.day)
  }

  /** The partial-time part, hh:mm:ss. */
  function Time(t: DateTime): (s: string)
    requires t.Valid()
    ensures |s| == 8 && s[2] == ':' && s[5] == ':'
    ensures '/' !in s
  {
    Pad2(t.hour) + ":" + Pad2(t.minute) + ":" + Pad2(t.second)
  }

  /** `t.Format(time.RFC3339)`. */
  function Format(t: DateTime): (s: string)
    requires t.Valid()
    ensures |s| == if t.offset == 0 then 20 else 25
    ensures s[10] == 'T'
    ensures '/' !in s
    ensures s[..10] == Date(t) && s[11..19] == Time(t) && s[19..] == Zone(t.offset)
  {
    var dt := Date(t) + "T" + Time(t);
    assert dt[..10] == Date(t) && dt[10..] == "T" + Time(t);
    dt + Zone(t.offset)
  }

  lemma Pad2Injective(a: int, b: int)
    requires 0 <= a < 100 && 0 <= b < 100
    requires Pad2(a) == Pad2(b)
    ensures a == b
  {
    var s := Pad2(a);
    assert s[0] == Pad2(b)[0] && s[1] == Pad2(b)[1];
  }

  lemma Pad4Injective(a: int, b: int)
    requires 0 <= a < 10000 && 0 <= b < 10000
    requires Pad4(a) == Pad4(b)
    ensures a == b
  {
    assert Pad4(a)[..2] == Pad2(a / 100) && Pad4(b)[..2] == Pad2(b / 100);
    assert Pad4(a)[2..] == Pad2(a % 100) && Pad4(b)[2..] == Pad2(b % 100);
    Pad2Injective(a / 100, b / 100);
    Pad2Injective(a % 100, b % 100);
  }

  lemma ZoneInjective(a: int, b: int)
    requires -24 * 60 < a < 24 * 60 && -24 * 60 < b < 24 * 60
    requires Zone(a) == Zone(b)
    ensures a == b
  {
    if a != 0 && b != 0 {
      var ma := if a < 0 then -a else a;
      var mb := if b < 0 then -b else b;
      var s := Zone(a);
      assert s[0] == Zone(b)[0];
      assert s[1..3] == Pad2(ma / 60) && Zone(b)[1..3] == Pad2(mb / 60);
      assert s[4..6] == Pad2(ma % 60) && Zone(b)[4..6] == Pad2(mb % 60);
      Pad2Injective(ma / 60, mb / 60);
      Pad2Injective(ma % 60, mb % 60);
    }
  }

  /** Where the year, month and day sit in the date text. */
  lemma DateFields(t: DateTime)
    requires t.Valid()
    ensures Date(t)[..4] == Pad4(t.year) && Date(t)[5..7] == Pad2(t.month) && Date(t)[8..] == Pad2(t.day)
  {
    var y, m := Pad4(t.year) + "-", Pad2(t.month) + "-";
    assert Date(t) == y + m + Pad2(t.day);
    assert (y + m + Pad2(t.day))[5..7] == m[..2];
  }

  lemma DateInjective(t: DateTime, u: DateTime)
    requires t.Valid() && u.Valid()
    requires Date(t) == Date(u)
    ensures t.year == u.year && t.month == u.month && t.day == u.day
  {
    DateFields(t);
    DateFields(u);
    Pad4Injective(t.year, u.year);
    Pad2Injective(t.month, u.month);
    Pad2Injective(t.day, u.day);
  }

  /** Where the hour, minute and second sit in the time text. */
  lemma TimeFields(t: DateTime)
    requires t.Valid()
    ensures Time(t)[..2] == Pad2(t.hour) && Time(t)[3..5] == Pad2(t.minute) && Time(t)[6..] == Pad2(t.second)
  {
    var h, m := Pad2(t.hour) + ":", Pad2(t.minute) + ":";
    assert Time(t) == h + m + Pad2(t.second);
    assert (h + m + Pad2(t.second))[3..5] == m[..2];
  }

  lemma TimeInjective(t: DateTime, u: DateTime)
    requires t.Valid() && u.Valid()
    requires Time(t) == Time(u)
    ensures t.hour == u.hour && t.minute == u.minute && t.second == u.second
  {
    TimeFields(t);
    TimeFields(u);
    Pad2Injective(t.hour, u.hour);
    Pad2Injective(t.minute, u.minute);
    Pad2Injective(t.second, u.second);
  }

  /**
   * Two readings format to the same text only if they are the same reading:
   * the timestamp, and so the backup name, changes whenever any field does.
   */
  lemma FormatInjective(t: DateTime, u: DateTime)
    requires t.Valid() && u.Valid()
    requires Format(t) == Format(u)
    ensures t == u
  {
    var s, r := Format(t), Format(u);
    assert s[..10] == Date(t) && r[..10] == Date(u);
    assert s[11..19] == Time(t) && r[11..19] == Time(u);
    assert s[19..] == Zone(t.offset) && r[19..] == Zone(u.offset);
    DateInjective(t, u);
    TimeInjective(t, u);
    ZoneInjective(t.offset, u.offset);
  }
}
