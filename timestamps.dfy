/**
 * The timestamp key of `FileService.sort_csv_by_time`: `datetime.strptime(value, fmt)`
 * for its default format `%m/%d/%Y %H:%M:%S`, modelled as a partial function to a
 * (year, month, day, hour, minute, second) record, and the order `datetime` values
 * compare by, which is the lexicographic order of that record.
 */
module Timestamps {
  import opened Text
  import opened Wrappers

  datatype Timestamp = Timestamp(year: nat, month: nat, day: nat, hour: nat, minute: nat, second: nat)

  predicate IsLeap(year: nat)
  {
    year % 4 == 0 && (year % 100 != 0 || year % 400 == 0)
  }

  function DaysInMonth(year: nat, month: nat): nat
  {
    if month == 2 then (if IsLeap(year) then 29 else 28)
    else if month == 4 || month == 6 || month == 9 || month == 11 then 30
    else 31
  }

  /** The dates and times `datetime` can represent: year 1 to 9999, a real day of the month, second 0 to 59. */
  predicate Valid(t: Timestamp)
  {
    && 1 <= t.year <= 9999
    && 1 <= t.month <= 12
    && 1 <= t.day <= DaysInMonth(t.year, t.month)
    && t.hour <= 23 && t.minute <= 59 && t.second <= 59
  }

  predicate IsDigit(c: char)
  {
    '0' <= c <= '9'
  }

  predicate AllDigits(s: string)
  {
    forall i :: 0 <= i < |s| ==> IsDigit(s[i])
  }

  function DigitValue(c: char): nat
    requires IsDigit(c)
  {
    (c as int - '0' as int) as nat
  }

  /** The decimal value of a string of digits. */
  function DecimalValue(s: string): nat
    requires AllDigits(s)
  {
    if s == [] then 0 else 10 * DecimalValue(s[..|s| - 1]) + DigitValue(s[|s| - 1])
  }

  /** A numeric directive: between `minLen` and `maxLen` decimal digits. */
  function Number(s: string, minLen: nat, maxLen: nat): Option<nat>
  {
    if minLen <= |s| <= maxLen && AllDigits(s) then Some(DecimalValue(s)) else None
  }

  /** The `%d` directive: one or two digits, or a space followed by one non-zero digit. */
  function DayNumber(s: string): Option<nat>
  {
    if |s| == 2 && s[0] == ' ' && '1' <= s[1] <= '9' then Some(DigitValue(s[1])) else Number(s, 1, 2)
  }

  /** Index of the last white-space character of `s`, or -1 when there is none. */
  function LastSpace(s: string): (i: int)
    ensures -1 <= i < |s|
    ensures i >= 0 ==> IsSpace(s[i])
    ensures forall k :: i < k < |s| ==> !IsSpace(s[k])
  {
    if s == [] then -1 else if IsSpace(s[|s| - 1]) then |s| - 1 else LastSpace(s[..|s| - 1])
  }

  /**
   * `strptime(s, "%m/%d/%Y %H:%M:%S")`. The space of the format matches any non-empty run
   * of white space; the time fields hold none, so the run is the one that ends at the last
   * white-space character. Month, hour, minute and second take one or two digits, the day
   * also a space and one digit, the year exactly four digits; `/` and `:` must appear as
   * written, nothing may follow the seconds, and the fields must form a date and time that
   * `datetime` accepts.
   */
  function ParseTime(s: string): (r: Option<Timestamp>)
    ensures r.Some? ==> Valid(r.value)
  {
    var k := LastSpace(s);
    if k < 0 then None
    else
      var date, time := Split(RStrip(s[..k + 1]), '/'), Split(s[k + 1..], ':');
      if |date| != 3 || |time| != 3 then None
      else FromFields(date, time)
  }

  /** The timestamp named by the three date fields (month, day, year) and three time fields. */
  function FromFields(date: seq<string>, time: seq<string>): (r: Option<Timestamp>)
    requires |date| == 3 && |time| == 3
    ensures r.Some? ==> Valid(r.value)
  {
    var month, day, year := Number(date[0], 1, 2), DayNumber(date[1]), Number(date[2], 4, 4);
    var hour, minute, second := Number(time[0], 1, 2), Number(time[1], 1, 2), Number(time[2], 1, 2);
    if month.None? || day.None? || year.None? || hour.None? || minute.None? || second.None? then None
    else
      var t := Timestamp(year.value, month.value, day.value, hour.value, minute.value, second.value);
      if Valid(t) then Some(t) else None
  }

  /** `a <= b` on `datetime` values: lexicographic on (year, month, day, hour, minute, second). */
  predicate NotAfter(a: Timestamp, b: Timestamp)
  {
    if a.year != b.year then a.year < b.year
    else if a.month != b.month then a.month < b.month
    else if a.day != b.day then a.day < b.day
    else if a.hour != b.hour then a.hour < b.hour
    else if a.minute != b.minute then a.minute < b.minute
    else a.second <= b.second
  }

  lemma {:induction false} NotAfterTotal(a: Timestamp, b: Timestamp)
    ensures NotAfter(a, b) || NotAfter(b, a)
  {
  }

  lemma {:induction false} NotAfterTransitive(a: Timestamp, b: Timestamp, c: Timestamp)
    requires NotAfter(a, b) && NotAfter(b, c)
    ensures NotAfter(a, c)
  {
  }

  lemma {:induction false} NotAfterAntisymmetric(a: Timestamp, b: Timestamp)
    requires NotAfter(a, b) && NotAfter(b, a)
    ensures a == b
  {
  }

  // ---------------------------------------------------------------------------
  // Writing a timestamp in the format, and the round trip through the parser

  function Digit(n: nat): char
    requires n < 10
  {
    ('0' as int + n) as char
  }

  /** `n` written with exactly `width` digits, zero-padded. */
  function Padded(n: nat, width: nat): (s: string)
    ensures |s| == width && AllDigits(s)
  {
    if width == 0 then "" else Padded(n / 10, width - 1) + [Digit(n % 10)]
  }

  function Power10(k: nat): (p: nat)
    ensures p >= 1
  {
    if k == 0 then 1 else 10 * Power10(k - 1)
  }

  /** A number below 10^width is read back from its zero-padded digits. */
  lemma {:induction false} PaddedValue(n: nat, width: nat)
    requires n < Power10(width)
    ensures DecimalValue(Padded(n, width)) == n
  {
    if width > 0 {
      var s := Padded(n, width);
      var q, d := n / 10, n % 10;
      assert s[..|s| - 1] == Padded(q, width - 1);
      assert DigitValue(s[|s| - 1]) == d;
      DivideByTen(n, Power10(width - 1));
      PaddedValue(q, width - 1);
    }
  }

  lemma {:induction false} DivideByTen(n: nat, p: nat)
    requires n < 10 * p
    ensures n / 10 < p && n == 10 * (n / 10) + n % 10
  {
  }

  /** `t.strftime("%m/%d/%Y %H:%M:%S")`, zero-padded. */
  function Format(t: Timestamp): string
  {
    JoinWith(DateFields(t), '/') + " " + JoinWith(TimeFields(t), ':')
  }

  lemma {:induction false} DigitsAvoid(s: string, c: char)
    requires AllDigits(s) && !IsDigit(c)
    ensures c !in s
  {
  }

  lemma {:induction false} NumberOfPadded(n: nat, width: nat, minLen: nat)
    requires n < Power10(width) && minLen <= width
    ensures Number(Padded(n, width), minLen, width) == Some(n)
  {
    PaddedValue(n, width);
  }

  lemma {:induction false} JoinThree(parts: seq<string>, sep: char)
    requires |parts| == 3
    ensures JoinWith(parts, sep) == parts[0] + [sep] + parts[1] + [sep] + parts[2]
  {
    assert parts[..2][..1] == [parts[0]];
  }

  function DateFields(t: Timestamp): seq<string>
  {
    [Padded(t.month, 2), Padded(t.day, 2), Padded(t.year, 4)]
  }

  function TimeFields(t: Timestamp): seq<string>
  {
    [Padded(t.hour, 2), Padded(t.minute, 2), Padded(t.second, 2)]
  }

  /** No character of `s` is white space. */
  predicate NoSpace(s: string)
  {
    forall k :: 0 <= k < |s| ==> !IsSpace(s[k])
  }

  /** Three digit fields joined by a separator that is not white space hold no white space. */
  lemma {:induction false} JoinedDigitsNoSpace(parts: seq<string>, sep: char)
    requires |parts| == 3 && !IsSpace(sep)
    requires forall i :: 0 <= i < 3 ==> AllDigits(parts[i])
    ensures NoSpace(JoinWith(parts, sep))
  {
    JoinThree(parts, sep);
    var j := JoinWith(parts, sep);
    forall k | 0 <= k < |j| ensures !IsSpace(j[k]) {
      assert IsDigit(j[k]) || j[k] == sep;
    }
  }

  /** When nothing after a white-space character is white space, it is the last one. */
  lemma {:induction false} LastSpaceBefore(a: string, b: string)
    requires a != [] && IsSpace(a[|a| - 1]) && NoSpace(b)
    ensures LastSpace(a + b) == |a| - 1
    decreases |b|
  {
    if b == [] {
      assert a + b == a;
    } else {
      var ab := a + b;
      assert ab[..|ab| - 1] == a + b[..|b| - 1];
      assert ab[|ab| - 1] == b[|b| - 1];
      LastSpaceBefore(a, b[..|b| - 1]);
    }
  }

  /** `rstrip()` removes exactly a run of white space that follows a non-space. */
  lemma {:induction false} RStripRun(a: string, w: string)
    requires a != [] && !IsSpace(a[|a| - 1])
    requires forall k :: 0 <= k < |w| ==> IsSpace(w[k])
    ensures RStrip(a + w) == a
  {
    var s := a + w;
    var r := RStrip(s);
    assert forall i :: |a| <= i < |s| ==> IsSpace(s[i]) by {
      forall i | |a| <= i < |s| ensures IsSpace(s[i]) {
        assert s[i] == w[i - |a|];
      }
    }
    assert |r| <= |a|;
    assert s[|a| - 1] == a[|a| - 1];
    assert |r| >= |a|;
    assert s[..|a|] == a;
  }

  /** The date fields with the day written as a space and one digit, which `%d` also reads. */
  function SpacedDateFields(t: Timestamp): seq<string>
    requires 1 <= t.day <= 9
  {
    [Padded(t.month, 2), [' ', Digit(t.day)], Padded(t.year, 4)]
  }

  /** Date fields that `%m/%d/%Y` reads as the date of `t`. */
  predicate DateOf(t: Timestamp, ds: seq<string>)
  {
    ds == DateFields(t) || (1 <= t.day <= 9 && ds == SpacedDateFields(t))
  }

  lemma {:induction false} SplitFields(t: Timestamp, ds: seq<string>)
    requires DateOf(t, ds)
    ensures Split(JoinWith(ds, '/'), '/') == ds
    ensures Split(JoinWith(TimeFields(t), ':'), ':') == TimeFields(t)
  {
    var ts := TimeFields(t);
    forall i | 0 <= i < 3 ensures '/' !in ds[i] && ':' !in ts[i] {
      if i != 1 || ds == DateFields(t) {
        DigitsAvoid(ds[i], '/');
      }
      DigitsAvoid(ts[i], ':');
    }
    SplitJoin(ds, '/');
    SplitJoin(ts, ':');
  }

  lemma {:induction false} FieldsOfValid(t: Timestamp, ds: seq<string>)
    requires Valid(t) && DateOf(t, ds)
    ensures FromFields(ds, TimeFields(t)) == Some(t)
  {
    assert Power10(2) == 100;
    assert Power10(4) == 10000 by { assert Power10(3) == 1000; }
    NumberOfPadded(t.month, 2, 1);
    NumberOfPadded(t.day, 2, 1);
    NumberOfPadded(t.year, 4, 4);
    NumberOfPadded(t.hour, 2, 1);
    NumberOfPadded(t.minute, 2, 1);
    NumberOfPadded(t.second, 2, 1);
  }

  /**
   * A valid timestamp is read back from its date fields (the day zero-padded or
   * space-padded) and its time fields, separated by any non-empty run of white space.
   */
  lemma {:induction false} ParseSpaced(t: Timestamp, ds: seq<string>, w: string)
    requires Valid(t) && DateOf(t, ds) && w != []
    requires forall k :: 0 <= k < |w| ==> IsSpace(w[k])
    ensures ParseTime(JoinWith(ds, '/') + w + JoinWith(TimeFields(t), ':')) == Some(t)
  {
    var date, time := JoinWith(ds, '/'), JoinWith(TimeFields(t), ':');
    var s := date + w + time;
    JoinThree(ds, '/');
    assert date[|date| - 1] == ds[2][|ds[2]| - 1];
    JoinedDigitsNoSpace(TimeFields(t), ':');
    assert s == (date + w) + time;
    LastSpaceBefore(date + w, time);
    var k := |date| + |w| - 1;
    assert s[..k + 1] == date + w;
    assert s[k + 1..] == time;
    RStripRun(date, w);
    SplitFields(t, ds);
    FieldsOfValid(t, ds);
  }

  /** Every valid timestamp is read back from its formatted text. */
  lemma {:induction false} ParseFormat(t: Timestamp)
    requires Valid(t)
    ensures ParseTime(Format(t)) == Some(t)
  {
    ParseSpaced(t, DateFields(t), " ");
  }
}
