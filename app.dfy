/**
 * The application service: task ids of the form `YYMMDDHHmm-<random UUID>`.
 * The clock and the random UUID are inputs; what is modelled is how the
 * timestamp prefix is rendered and joined to the random part.
 */
module AppService {
  import opened Text

  /** The fields of `new Date()` that the prefix uses, as `Date`'s getters return them. */
  datatype DateFields = DateFields(fullYear: nat, month: nat, date: nat, hours: nat, minutes: nat) {
    /** `getMonth()` is 0-based; `getDate()` is 1-based. */
    predicate Valid() {
      month < 12 && 1 <= date <= 31 && hours < 24 && minutes < 60
    }
  }

  /** `date.getFullYear().toString().slice(-2)`: the last two characters of the year. */
  function YearField(fullYear: nat): (s: string)
    ensures fullYear >= 10 ==> |s| == 2 && IsDigits(s) && DigitsValue(s) == fullYear % 100
    ensures fullYear < 10 ==> s == NatToString(fullYear)
  {
    var y := NatToString(fullYear);
    if |y| >= 2 then
      YearFieldValue(fullYear);
      y[|y| - 2..]
    else y
  }

  /** The last character of `String(n)` is the digit `n % 10`. */
  lemma LastDigit(n: nat)
    ensures NatToString(n)[|NatToString(n)| - 1] == DigitChar(n % 10)
  {
  }

  lemma YearFieldValue(fullYear: nat)
    requires fullYear >= 10
    ensures var y := NatToString(fullYear);
      DigitsValue(y[|y| - 2..]) == fullYear % 100
  {
    var y := NatToString(fullYear);
    var t := y[|y| - 2..];
    assert y[..|y| - 1] == NatToString(fullYear / 10);
    LastDigit(fullYear / 10);
    assert t[0] == DigitChar(fullYear / 10 % 10) && t[1] == DigitChar(fullYear % 10);
    TwoDigitsValue(t);
    LastTwoDigits(fullYear);
  }

  /** The last two decimal digits of `n`, as a number. */
  lemma LastTwoDigits(n: nat)
    ensures n % 100 == 10 * (n / 10 % 10) + n % 10
  {
    var a, b := n / 10, n % 10;
    var c, d := a / 10, a % 10;
    assert n == 10 * a + b;
    assert a == 10 * c + d;
    assert n == 100 * c + (10 * d + b) && 0 <= 10 * d + b < 100;
  }

  /** `getYYDDMMHHMM`: year, month (1-based), day, hours and minutes, two characters each. */
  function TimestampPrefix(d: DateFields): (r: string)
    requires d.Valid()
    ensures d.fullYear >= 10 ==> |r| == 10 && IsDigits(r)
    ensures |r| >= 9 && r[|r| - 2..] == PadTwo(d.minutes) && DigitsValue(r[|r| - 2..]) == d.minutes
  {
    YearField(d.fullYear) + PadTwo(d.month + 1) + PadTwo(d.date) + PadTwo(d.hours) + PadTwo(d.minutes)
  }

  /** `generateUUID`: the timestamp prefix, a dash, then the random UUID. */
  function GenerateUuid(d: DateFields, randomUuid: string): (id: string)
    requires d.Valid()
    ensures var p := TimestampPrefix(d);
      && |id| == |p| + 1 + |randomUuid|
      && id[..|p|] == p && id[|p|] == '-' && id[|p| + 1..] == randomUuid
  {
    TimestampPrefix(d) + "-" + randomUuid
  }

  // ---------------------------------------------------------------------------
  // Properties

  /** For a year of at least two digits, the prefix is ten decimal digits, read
      in the order YYMMDDHHmm: year mod 100, month 1..12, day, hours, minutes. */
  lemma PrefixFields(d: DateFields)
    requires d.Valid() && d.fullYear >= 10
    ensures var p := TimestampPrefix(d);
      && |p| == 10 && IsDigits(p)
      && DigitsValue(p[0..2]) == d.fullYear % 100
      && DigitsValue(p[2..4]) == d.month + 1 && 1 <= DigitsValue(p[2..4]) <= 12
      && DigitsValue(p[4..6]) == d.date
      && DigitsValue(p[6..8]) == d.hours
      && DigitsValue(p[8..10]) == d.minutes
  {
    var y, mo, da, h, mi := YearField(d.fullYear), PadTwo(d.month + 1), PadTwo(d.date), PadTwo(d.hours), PadTwo(d.minutes);
    FiveFields(y, mo, da, h, mi);
  }

  /** Five two-digit fields side by side: ten digits, each field at its own offset. */
  lemma FiveFields(y: string, mo: string, da: string, h: string, mi: string)
    requires |y| == 2 && |mo| == 2 && |da| == 2 && |h| == 2 && |mi| == 2
    requires IsDigits(y) && IsDigits(mo) && IsDigits(da) && IsDigits(h) && IsDigits(mi)
    ensures var p := y + mo + da + h + mi;
      && |p| == 10 && IsDigits(p)
      && p[0..2] == y && p[2..4] == mo && p[4..6] == da && p[6..8] == h && p[8..10] == mi
  {
    var p := y + mo + da + h + mi;
    assert p[0..2] == y && p[2..4] == mo && p[4..6] == da && p[6..8] == h && p[8..10] == mi;
    forall i | 0 <= i < 10
      ensures IsDigit(p[i])
    {
      var k := i / 2 * 2;
      assert p[i] == p[k..k + 2][i - k];
    }
  }

  /** For a year of at least two digits, a task id's eleventh character is the
      dash, and the id splits there into the prefix and the random UUID. */
  lemma TaskIdShape(d: DateFields, randomUuid: string)
    requires d.Valid() && d.fullYear >= 10
    ensures var id := GenerateUuid(d, randomUuid);
      && |id| == 11 + |randomUuid|
      && id[10] == '-' && id[..10] == TimestampPrefix(d) && id[11..] == randomUuid
  {
    PrefixFields(d);
  }

  /** Appending two digits multiplies the value so far by 100. */
  lemma AppendTwoDigits(a: string, b: string)
    requires IsDigits(a) && IsDigits(b) && |b| == 2
    ensures IsDigits(a + b)
    ensures DigitsValue(a + b) == DigitsValue(a) * 100 + DigitsValue(b)
  {
    var s := a + b;
    var a1 := a + b[..1];
    assert s[..|s| - 1] == a1 && s[|s| - 1] == b[1];
    assert a1[..|a1| - 1] == a && a1[|a1| - 1] == b[0];
    var x, d0, d1 := DigitsValue(a), b[0] as int - '0' as int, b[1] as int - '0' as int;
    assert DigitsValue(s) == (x * 10 + d0) * 10 + d1;
    TwoDigitsValue(b);
  }

  /** The time a prefix denotes within its century, as one number. */
  function Minutes(d: DateFields): nat {
    (((d.fullYear % 100 * 100 + (d.month + 1)) * 100 + d.date) * 100 + d.hours) * 100 + d.minutes
  }

  /** Read as a number, the prefix is the timestamp packed two digits per field. */
  lemma {:induction false} PrefixValue(d: DateFields)
    requires d.Valid() && d.fullYear >= 10
    ensures IsDigits(TimestampPrefix(d)) && DigitsValue(TimestampPrefix(d)) == Minutes(d)
  {
    var y, mo, da, h, mi := YearField(d.fullYear), PadTwo(d.month + 1), PadTwo(d.date), PadTwo(d.hours), PadTwo(d.minutes);
    AppendTwoDigits(y, mo);
    AppendTwoDigits(y + mo, da);
    AppendTwoDigits(y + mo + da, h);
    AppendTwoDigits(y + mo + da + h, mi);
  }

  /** Comparing two-digit-packed numbers compares the higher part first. */
  lemma PackedOrder(a1: nat, x1: nat, a2: nat, x2: nat)
    requires x1 < 100 && x2 < 100
    ensures a1 * 100 + x1 < a2 * 100 + x2 <==> a1 < a2 || (a1 == a2 && x1 < x2)
    ensures a1 * 100 + x1 == a2 * 100 + x2 <==> a1 == a2 && x1 == x2
  {
    if a1 < a2 {
      assert a1 * 100 + x1 < (a1 + 1) * 100 <= a2 * 100 + x2;
    } else if a2 < a1 {
      assert a2 * 100 + x2 < (a2 + 1) * 100 <= a1 * 100 + x1;
    }
  }

  /** Chronological order within a century, field by field from the year down. */
  predicate Earlier(d1: DateFields, d2: DateFields) {
    var y1, y2 := d1.fullYear % 100, d2.fullYear % 100;
    || y1 < y2
    || (y1 == y2 && d1.month < d2.month)
    || (y1 == y2 && d1.month == d2.month && d1.date < d2.date)
    || (y1 == y2 && d1.month == d2.month && d1.date == d2.date && d1.hours < d2.hours)
    || (y1 == y2 && d1.month == d2.month && d1.date == d2.date && d1.hours == d2.hours && d1.minutes < d2.minutes)
  }

  /** Within a century, ordering task ids by their numeric prefix orders them by
      creation minute. */
  lemma PrefixOrder(d1: DateFields, d2: DateFields)
    requires d1.Valid() && d1.fullYear >= 10
    requires d2.Valid() && d2.fullYear >= 10
    ensures IsDigits(TimestampPrefix(d1)) && IsDigits(TimestampPrefix(d2))
    ensures DigitsValue(TimestampPrefix(d1)) < DigitsValue(TimestampPrefix(d2)) <==> Earlier(d1, d2)
  {
    PrefixValue(d1);
    PrefixValue(d2);
    PackedOrder(d1.fullYear % 100, d1.month + 1, d2.fullYear % 100, d2.month + 1);
    var a1, a2 := d1.fullYear % 100 * 100 + (d1.month + 1), d2.fullYear % 100 * 100 + (d2.month + 1);
    PackedOrder(a1, d1.date, a2, d2.date);
    var b1, b2 := a1 * 100 + d1.date, a2 * 100 + d2.date;
    PackedOrder(b1, d1.hours, b2, d2.hours);
    PackedOrder(b1 * 100 + d1.hours, d1.minutes, b2 * 100 + d2.hours, d2.minutes);
  }

  /** Two task ids share a prefix exactly when they were made in the same minute
      (years compared modulo 100). */
  lemma PrefixSameMinute(d1: DateFields, d2: DateFields)
    requires d1.Valid() && d1.fullYear >= 10
    requires d2.Valid() && d2.fullYear >= 10
    ensures TimestampPrefix(d1) == TimestampPrefix(d2)
        <==> d1.fullYear % 100 == d2.fullYear % 100 && d1.month == d2.month && d1.date == d2.date
             && d1.hours == d2.hours && d1.minutes == d2.minutes
  {
    if d1.fullYear % 100 == d2.fullYear % 100 && d1.month == d2.month && d1.date == d2.date
       && d1.hours == d2.hours && d1.minutes == d2.minutes
    {
      DigitsValueInjective(YearField(d1.fullYear), YearField(d2.fullYear));
    }
    if TimestampPrefix(d1) == TimestampPrefix(d2) {
      PrefixFields(d1);
      PrefixFields(d2);
    }
  }
}
