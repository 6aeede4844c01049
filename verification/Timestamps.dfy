/** `util.FormatTimeZ` prints instants as fixed-width UTC timestamps with second
    resolution (sections 5.1 and 5.6 of RFC 3339). Recurring jobs sort by these strings
    and delete from the front, so string order has to be order in time. */
module Timestamps {
  import opened Strings

  datatype Timestamp = Timestamp(year: nat, month: nat, day: nat, hour: nat, minute: nat, second: nat)

  predicate IsLeap(y: nat) {
    y % 4 == 0 && (y % 100 != 0 || y % 400 == 0)
  }

  function DaysInMonth(y: nat, m: nat): nat {
    if m == 2 then (if IsLeap(y) then 29 else 28)
    else if m == 4 || m == 6 || m == 9 || m == 11 then 30
    else 31
  }

  predicate Valid(t: Timestamp) {
    && t.year <= 9999
    && 1 <= t.month <= 12
    && 1 <= t.day <= DaysInMonth(t.year, t.month)
    && t.hour < 24 && t.minute < 60 && t.second < 60
  }

  /** Days from the start of year `y` to the start of its month `m`. */
  function DaysBeforeMonth(y: nat, m: nat): nat
    requires m >= 1
  {
    if m == 1 then 0 else DaysBeforeMonth(y, m - 1) + DaysInMonth(y, m - 1)
  }

  function DaysBeforeYear(y: nat): nat {
    if y == 0 then 0 else DaysBeforeYear(y - 1) + DaysBeforeMonth(y - 1, 13)
  }

  /** Seconds elapsed since the start of year 0: the instant a timestamp denotes. */
  function Instant(t: Timestamp): nat
    requires Valid(t)
  {
    var days := DaysBeforeYear(t.year) + DaysBeforeMonth(t.year, t.month) + (t.day - 1);
    ((days * 24 + t.hour) * 60 + t.minute) * 60 + t.second
  }

  /** `n` in decimal, padded with zeros to `w` digits. */
  function Digits(n: nat, w: nat): (s: string)
    ensures |s| == w
  {
    if w == 0 then "" else Digits(n / 10, w - 1) + ['0' + (n % 10) as char]
  }

  function FormatTimeZ(t: Timestamp): string {
    Digits(t.year, 4) + ("-" + (Digits(t.month, 2) + ("-" + (Digits(t.day, 2) + ("T" +
    (Digits(t.hour, 2) + (":" + (Digits(t.minute, 2) + (":" + (Digits(t.second, 2) + "Z"))))))))))
  }

  function Pow10(w: nat): nat {
    if w == 0 then 1 else 10 * Pow10(w - 1)
  }

  /** On numbers of the same width, string order is numeric order. */
  lemma {:induction false} DigitsOrdered(n: nat, m: nat, w: nat)
    requires n < Pow10(w) && m < Pow10(w)
    ensures LexLess(Digits(n, w), Digits(m, w)) <==> n < m
    ensures Digits(n, w) == Digits(m, w) <==> n == m
  {
    if w > 0 {
      DigitsOrdered(n / 10, m / 10, w - 1);
      var a, b := ['0' + (n % 10) as char], ['0' + (m % 10) as char];
      LexBlocks(Digits(n / 10, w - 1), a, Digits(m / 10, w - 1), b);
      assert Digits(n, w)[..w - 1] == Digits(n / 10, w - 1) && Digits(m, w)[..w - 1] == Digits(m / 10, w - 1);
      assert Digits(n, w)[w - 1] == a[0] && Digits(m, w)[w - 1] == b[0];
      assert LexLess(a, b) <==> n % 10 < m % 10;
    }
  }

  /** Field-by-field comparison, most significant field first. */
  predicate FieldsLess(t: Timestamp, u: Timestamp) {
    || t.year < u.year
    || (t.year == u.year &&
        (|| t.month < u.month
         || (t.month == u.month &&
             (|| t.day < u.day
              || (t.day == u.day &&
                  (|| t.hour < u.hour
                   || (t.hour == u.hour &&
                       (|| t.minute < u.minute
                        || (t.minute == u.minute && t.second < u.second)))))))))
  }

  /** One field of the format: two digits and the separator that follows them. */
  lemma FieldStep(n: nat, m: nat, w: nat, sep: string, rest: string, rest': string)
    requires n < Pow10(w) && m < Pow10(w)
    ensures LexLess(Digits(n, w) + (sep + rest), Digits(m, w) + (sep + rest'))
       <==> n < m || (n == m && LexLess(rest, rest'))
  {
    DigitsOrdered(n, m, w);
    LexBlocks(Digits(n, w), sep + rest, Digits(m, w), sep + rest');
    LexBlocks(sep, rest, sep, rest');
    LexTotal(sep, sep);
  }

  lemma StringOrderIsFieldOrder(t: Timestamp, u: Timestamp)
    requires Valid(t) && Valid(u)
    ensures LexLess(FormatTimeZ(t), FormatTimeZ(u)) <==> FieldsLess(t, u)
  {
    assert Pow10(2) == 100 && Pow10(4) == 10000 by { assert Pow10(1) == 10 && Pow10(3) == 1000; }
    var s0, s1 := Digits(t.second, 2) + "Z", Digits(u.second, 2) + "Z";
    FieldStep(t.second, u.second, 2, "Z", "", "");
    assert "Z" + "" == "Z";
    var n0, n1 := Digits(t.minute, 2) + (":" + s0), Digits(u.minute, 2) + (":" + s1);
    FieldStep(t.minute, u.minute, 2, ":", s0, s1);
    var h0, h1 := Digits(t.hour, 2) + (":" + n0), Digits(u.hour, 2) + (":" + n1);
    FieldStep(t.hour, u.hour, 2, ":", n0, n1);
    var d0, d1 := Digits(t.day, 2) + ("T" + h0), Digits(u.day, 2) + ("T" + h1);
    FieldStep(t.day, u.day, 2, "T", h0, h1);
    var m0, m1 := Digits(t.month, 2) + ("-" + d0), Digits(u.month, 2) + ("-" + d1);
    FieldStep(t.month, u.month, 2, "-", d0, d1);
    FieldStep(t.year, u.year, 4, "-", m0, m1);
  }

  lemma {:induction false} MonthsAccumulate(y: nat, m: nat, m': nat)
    requires 1 <= m < m'
    ensures DaysBeforeMonth(y, m) + DaysInMonth(y, m) <= DaysBeforeMonth(y, m')
  {
    if m + 1 < m' {
      MonthsAccumulate(y, m, m' - 1);
    }
  }

  lemma {:induction false} YearsAccumulate(y: nat, y': nat)
    requires y < y'
    ensures DaysBeforeYear(y) + DaysBeforeMonth(y, 13) <= DaysBeforeYear(y')
  {
    if y + 1 < y' {
      YearsAccumulate(y, y' - 1);
    }
  }

  lemma FieldOrderIsTimeOrder(t: Timestamp, u: Timestamp)
    requires Valid(t) && Valid(u) && FieldsLess(t, u)
    ensures Instant(t) < Instant(u)
  {
    MonthsAccumulate(t.year, t.month, 13);
    if t.year < u.year {
      YearsAccumulate(t.year, u.year);
    } else if t.month < u.month {
      MonthsAccumulate(t.year, t.month, u.month);
    }
  }

  /** Sorting by the formatted string is sorting by instant, for every pair of timestamps
      the manager can print. */
  lemma StringOrderIsChronological(t: Timestamp, u: Timestamp)
    requires Valid(t) && Valid(u)
    ensures LexLess(FormatTimeZ(t), FormatTimeZ(u)) <==> Instant(t) < Instant(u)
    ensures FormatTimeZ(t) == FormatTimeZ(u) <==> Instant(t) == Instant(u)
  {
    StringOrderIsFieldOrder(t, u);
    StringOrderIsFieldOrder(u, t);
    LexTotal(FormatTimeZ(t), FormatTimeZ(u));
    if FieldsLess(t, u) {
      FieldOrderIsTimeOrder(t, u);
    } else if FieldsLess(u, t) {
      FieldOrderIsTimeOrder(u, t);
    }
  }
}
