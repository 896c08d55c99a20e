/**
 Calendar dates and their month bucket: `df['date'].dt.to_period('M').astype(str)`
 turns a date into the label "YYYY-MM". The label is what pandas groups and sorts
 the revenue trend by, so its string order must be the calendar order.
 */
module Periods {
  import opened Text

  /** A parsed date. Only the year and the month reach the model's outputs. */
  datatype Date = Date(year: nat, month: nat, day: nat)

  /** A date `pd.to_datetime` can produce, as far as the month label needs: a four-digit year and a month of 1 to 12. */
  predicate ValidDate(d: Date) {
    d.year <= 9999 && 1 <= d.month <= 12 && 1 <= d.day <= 31
  }

  function Pow10(w: nat): (p: nat)
    ensures p >= 1
  {
    if w == 0 then 1 else 10 * Pow10(w - 1)
  }

  function DigitChar(n: nat): char
    requires n < 10
  {
    ('0' as int + n) as char
  }

  lemma DivBelow(n: nat, p: nat)
    requires p >= 1 && n < 10 * p
    ensures n / p < 10
  {
  }

  lemma MulMonotone(p: nat, a: nat, b: nat)
    requires a <= b
    ensures p * a <= p * b
  {
  }

  /** Two numbers written in base `p` by one leading digit and a remainder compare digit first. */
  lemma PlaceOrder(p: nat, qn: nat, rn: nat, qm: nat, rm: nat)
    requires rn < p && rm < p
    ensures p * qn + rn < p * qm + rm <==> qn < qm || (qn == qm && rn < rm)
  {
    if qn < qm {
      MulMonotone(p, qn + 1, qm);
    } else if qm < qn {
      MulMonotone(p, qm + 1, qn);
    }
  }

  /** `n` written with exactly `w` decimal digits, zero-padded on the left. */
  function Digits(n: nat, w: nat): (s: string)
    requires n < Pow10(w)
    ensures |s| == w
    decreases w
  {
    if w == 0 then []
    else
      var p := Pow10(w - 1);
      DivBelow(n, p);
      [DigitChar(n / p)] + Digits(n % p, w - 1)
  }

  /** A `w`-digit numeral is its leading digit followed by the numeral of the rest. */
  lemma DigitsHead(n: nat, w: nat) returns (q: nat, r: nat)
    requires w > 0 && n < Pow10(w)
    ensures q < 10 && r < Pow10(w - 1) && n == Pow10(w - 1) * q + r
    ensures Digits(n, w) == [DigitChar(q)] + Digits(r, w - 1)
  {
    var p := Pow10(w - 1);
    DivBelow(n, p);
    q, r := n / p, n % p;
  }

  /** Splits two `w`-digit numerals into their leading digits and the rest. */
  lemma DigitsSplit(n: nat, m: nat, w: nat) returns (qn: nat, rn: nat, qm: nat, rm: nat)
    requires w > 0 && n < Pow10(w) && m < Pow10(w)
    ensures qn < 10 && qm < 10 && rn < Pow10(w - 1) && rm < Pow10(w - 1)
    ensures Digits(n, w) == [DigitChar(qn)] + Digits(rn, w - 1)
    ensures Digits(m, w) == [DigitChar(qm)] + Digits(rm, w - 1)
    ensures n < m <==> qn < qm || (qn == qm && rn < rm)
  {
    qn, rn := DigitsHead(n, w);
    qm, rm := DigitsHead(m, w);
    PlaceOrder(Pow10(w - 1), qn, rn, qm, rm);
  }

  lemma DigitCons(x: nat, a: string, y: nat, b: string)
    requires x < 10 && y < 10
    ensures Less([DigitChar(x)] + a, [DigitChar(y)] + b) <==> x < y || (x == y && Less(a, b))
  {
    LessCons(DigitChar(x), a, DigitChar(y), b);
  }

  /** Zero-padded numerals of one width compare as strings exactly as the numbers compare. */
  lemma {:induction false} DigitsLess(n: nat, m: nat, w: nat)
    requires n < Pow10(w) && m < Pow10(w)
    ensures Less(Digits(n, w), Digits(m, w)) <==> n < m
    decreases w
  {
    if w > 0 {
      var qn, rn, qm, rm := DigitsSplit(n, m, w);
      DigitsLess(rn, rm, w - 1);
      DigitCons(qn, Digits(rn, w - 1), qm, Digits(rm, w - 1));
    } else {
      LessIrreflexive([]);
    }
  }

  /** The month label "YYYY-MM" of a date. */
  function Period(d: Date): (s: string)
    requires ValidDate(d)
    ensures |s| == 7 && s[4] == '-'
  {
    Digits(d.year, 4) + "-" + Digits(d.month, 2)
  }

  /** The calendar order of the months of two dates. */
  predicate MonthBefore(d: Date, e: Date) {
    d.year < e.year || (d.year == e.year && d.month < e.month)
  }

  /** Ascending label order is chronological order: sorting the groups by label sorts them by month. */
  lemma PeriodOrder(d: Date, e: Date)
    requires ValidDate(d) && ValidDate(e)
    ensures Less(Period(d), Period(e)) <==> MonthBefore(d, e)
  {
    var yd, ye := Digits(d.year, 4), Digits(e.year, 4);
    var md, me := Digits(d.month, 2), Digits(e.month, 2);
    assert Period(d) == yd + ("-" + md) && Period(e) == ye + ("-" + me);
    LessConcat(yd, "-" + md, ye, "-" + me);
    LessConcat("-", md, "-", me);
    LessIrreflexive("-");
    DigitsLess(d.year, e.year, 4);
    DigitsLess(e.year, d.year, 4);
    DigitsLess(d.month, e.month, 2);
    LessIrreflexive(yd);
  }

  /** Two dates share a label exactly when they fall in the same calendar month. */
  lemma PeriodSame(d: Date, e: Date)
    requires ValidDate(d) && ValidDate(e)
    ensures Period(d) == Period(e) <==> d.year == e.year && d.month == e.month
  {
    if Period(d) == Period(e) {
      LessIrreflexive(Period(d));
      PeriodOrder(d, e);
      PeriodOrder(e, d);
    }
  }

}
