/** Timestamps as text: what `to_rfc3339` prints for UTC, and how SQLite compares it byte by byte. */
module Timestamps {
  import opened Numbers

  // ---- Calendar ----

  datatype DateTime = DateTime(year: nat, month: nat, day: nat, hour: nat, minute: nat, second: nat, nano: nat)

  predicate IsLeap(year: int) {
    year % 4 == 0 && (year % 100 != 0 || year % 400 == 0)
  }

  function DaysInMonth(year: nat, month: nat): nat {
    if month == 2 then (if IsLeap(year) then 29 else 28)
    else if month == 4 || month == 6 || month == 9 || month == 11 then 30
    else 31
  }

  /** A UTC instant of a four-digit year. */
  predicate Valid(t: DateTime) {
    && t.year <= 9999 && 1 <= t.month <= 12 && 1 <= t.day <= DaysInMonth(t.year, t.month)
    && t.hour < 24 && t.minute < 60 && t.second < 60 && t.nano < 1_000_000_000
  }

  /** Days from the start of year 0 to the start of a year. */
  function DaysBeforeYear(year: nat): nat {
    if year == 0 then 0 else DaysBeforeYear(year - 1) + (if IsLeap(year - 1) then 366 else 365)
  }

  function DaysBeforeMonth(year: nat, month: nat): nat {
    if month <= 1 then 0 else DaysBeforeMonth(year, month - 1) + DaysInMonth(year, month - 1)
  }

  function Days(t: DateTime): int {
    DaysBeforeYear(t.year) + DaysBeforeMonth(t.year, t.month) + t.day - 1
  }

  function Seconds(t: DateTime): int {
    ((Days(t) * 24 + t.hour) * 60 + t.minute) * 60 + t.second
  }

  /** Nanoseconds since the start of year 0. */
  function Instant(t: DateTime): int {
    Seconds(t) * 1_000_000_000 + t.nano
  }

  // ---- Text ----

  /** Fixed-width decimal. */
  function Digits(n: nat, width: nat): string {
    if width == 0 then "" else Digits(n / 10, width - 1) + [Digit(n % 10)]
  }

  function DateText(t: DateTime): string {
    Digits(t.year, 4) + "-" + (Digits(t.month, 2) + "-" + Digits(t.day, 2))
  }

  function TimeText(t: DateTime): string {
    Digits(t.hour, 2) + ":" + (Digits(t.minute, 2) + ":" + Digits(t.second, 2))
  }

  function Prefix(t: DateTime): string {
    DateText(t) + "T" + TimeText(t)
  }

  /** No fraction, or as many of 3, 6 and 9 digits as it takes. */
  function Fraction(nano: nat): string {
    if nano == 0 then ""
    else if nano % 1_000_000 == 0 then "." + Digits(nano / 1_000_000, 3)
    else if nano % 1_000 == 0 then "." + Digits(nano / 1_000, 6)
    else "." + Digits(nano, 9)
  }

  const UTC := "+00:00"

  function Rfc3339(t: DateTime): string {
    Prefix(t) + (Fraction(t.nano) + UTC)
  }

  /** Byte-wise comparison, as SQLite does it for text. */
  predicate Less(a: string, b: string)
    decreases |a|
  {
    b != [] && (a == [] || a[0] < b[0] || (a[0] == b[0] && Less(a[1..], b[1..])))
  }

  // ---- Comparing text piece by piece ----

  lemma {:induction false} LessConcat(p: string, q: string, a: string, b: string)
    requires |p| == |q|
    ensures Less(p + a, q + b) <==> Less(p, q) || (p == q && Less(a, b))
    decreases |p|
  {
    if p == [] {
      assert p + a == a && q + b == b;
    } else {
      assert (p + a)[1..] == p[1..] + a && (q + b)[1..] == q[1..] + b;
      LessConcat(p[1..], q[1..], a, b);
      assert p == [p[0]] + p[1..] && q == [q[0]] + q[1..];
    }
  }

  lemma {:induction false} LessIrreflexive(a: string)
    ensures !Less(a, a)
    decreases |a|
  {
    if a != [] {
      LessIrreflexive(a[1..]);
    }
  }

  function Pow10(width: nat): nat {
    if width == 0 then 1 else 10 * Pow10(width - 1)
  }

  lemma {:induction false} DigitsLength(n: nat, width: nat)
    ensures |Digits(n, width)| == width
  {
    if width > 0 {
      DigitsLength(n / 10, width - 1);
    }
  }

  lemma {:induction false} DigitsOrder(m: nat, n: nat, width: nat)
    requires m < Pow10(width) && n < Pow10(width)
    ensures |Digits(m, width)| == |Digits(n, width)| == width
    ensures Less(Digits(m, width), Digits(n, width)) <==> m < n
    ensures Digits(m, width) == Digits(n, width) <==> m == n
  {
    DigitsLength(m, width);
    DigitsLength(n, width);
    if width > 0 {
      DigitsLength(m / 10, width - 1);
      DigitsLength(n / 10, width - 1);
      DigitsOrder(m / 10, n / 10, width - 1);
      hide Less;
      LastDigitOrder(Digits(m / 10, width - 1), Digits(n / 10, width - 1), m % 10, n % 10);
    }
  }

  lemma OneDigitOrder(c: nat, d: nat)
    requires c < 10 && d < 10
    ensures Less([Digit(c)], [Digit(d)]) <==> c < d
    ensures Digit(c) == Digit(d) <==> c == d
  {
    var (a, b) := ([Digit(c)], [Digit(d)]);
    assert a[1..] == b[1..] == "";
  }

  lemma {:induction false} LastDigitOrder(p: string, q: string, c: nat, d: nat)
    requires |p| == |q| && c < 10 && d < 10
    ensures Less(p + [Digit(c)], q + [Digit(d)]) <==> Less(p, q) || (p == q && c < d)
    ensures p + [Digit(c)] == q + [Digit(d)] <==> p == q && c == d
  {
    LessConcat(p, q, [Digit(c)], [Digit(d)]);
    OneDigitOrder(c, d);
    hide Less, Digit;
    var (s, t) := (p + [Digit(c)], q + [Digit(d)]);
    assert s[..|p|] == p && t[..|q|] == q && s[|p|] == Digit(c) && t[|q|] == Digit(d);
  }

  // ---- Chronological order is the lexicographic order of the fields ----

  lemma {:induction false} YearsAreLong(y: nat, z: nat)
    requires y < z
    ensures DaysBeforeYear(y) + (if IsLeap(y) then 366 else 365) <= DaysBeforeYear(z)
  {
    if y < z - 1 {
      YearsAreLong(y, z - 1);
    }
  }

  lemma {:induction false} MonthsAreLong(year: nat, m: nat, n: nat)
    requires 1 <= m < n
    ensures DaysBeforeMonth(year, m) + DaysInMonth(year, m) <= DaysBeforeMonth(year, n)
  {
    if m < n - 1 {
      MonthsAreLong(year, m, n - 1);
    }
  }

  /** A date lies within its year. */
  lemma DateWithinYear(t: DateTime)
    requires Valid(t)
    ensures DaysBeforeYear(t.year) <= Days(t) < DaysBeforeYear(t.year) + (if IsLeap(t.year) then 366 else 365)
  {
    var y := t.year;
    assert DaysBeforeMonth(y, 13) == (if IsLeap(y) then 366 else 365) by {
      assert DaysBeforeMonth(y, 1) == 0 && DaysBeforeMonth(y, 2) == 31;
      assert DaysBeforeMonth(y, 3) == 31 + DaysInMonth(y, 2);
      assert DaysBeforeMonth(y, 5) == DaysBeforeMonth(y, 3) + 61;
      assert DaysBeforeMonth(y, 7) == DaysBeforeMonth(y, 5) + 61;
      assert DaysBeforeMonth(y, 9) == DaysBeforeMonth(y, 7) + 62;
      assert DaysBeforeMonth(y, 11) == DaysBeforeMonth(y, 9) + 61;
      assert DaysBeforeMonth(y, 13) == DaysBeforeMonth(y, 11) + 61;
    }
    MonthsAreLong(y, t.month, 13);
  }

  predicate DateBefore(s: DateTime, t: DateTime) {
    s.year < t.year || (s.year == t.year && (s.month < t.month || (s.month == t.month && s.day < t.day)))
  }

  predicate TimeBefore(s: DateTime, t: DateTime) {
    s.hour < t.hour || (s.hour == t.hour && (s.minute < t.minute || (s.minute == t.minute && s.second < t.second)))
  }

  predicate SameDate(s: DateTime, t: DateTime) {
    s.year == t.year && s.month == t.month && s.day == t.day
  }

  predicate SameTime(s: DateTime, t: DateTime) {
    s.hour == t.hour && s.minute == t.minute && s.second == t.second
  }

  lemma EarlierDate(s: DateTime, t: DateTime)
    requires Valid(s) && Valid(t) && DateBefore(s, t)
    ensures Days(s) < Days(t)
  {
    if s.year < t.year {
      DateWithinYear(s);
      DateWithinYear(t);
      YearsAreLong(s.year, t.year);
    } else if s.month < t.month {
      MonthsAreLong(s.year, s.month, t.month);
    }
  }

  lemma DateOrder(s: DateTime, t: DateTime)
    requires Valid(s) && Valid(t)
    ensures Days(s) < Days(t) <==> DateBefore(s, t)
    ensures Days(s) == Days(t) <==> SameDate(s, t)
  {
    if DateBefore(s, t) {
      EarlierDate(s, t);
    } else if DateBefore(t, s) {
      EarlierDate(t, s);
    }
  }

  predicate SecondBefore(s: DateTime, t: DateTime) {
    DateBefore(s, t) || (SameDate(s, t) && TimeBefore(s, t))
  }

  lemma InstantOrder(s: DateTime, t: DateTime)
    requires Valid(s) && Valid(t)
    ensures Instant(s) < Instant(t) <==>
            SecondBefore(s, t) || (SameDate(s, t) && SameTime(s, t) && s.nano < t.nano)
  {
    DateOrder(s, t);
    hide Days;
    assert Seconds(s) < Seconds(t) <==> SecondBefore(s, t);
    assert Seconds(s) == Seconds(t) <==> SameDate(s, t) && SameTime(s, t);
  }

  // ---- The text of the seconds ----

  lemma LessStep(p: string, q: string, c: string, a: string, b: string)
    requires |p| == |q|
    ensures Less(p + c + a, q + c + b) <==> Less(p, q) || (p == q && Less(a, b))
    ensures p + c + a == q + c + b <==> p == q && a == b
  {
    assert p + c + a == p + (c + a) && q + c + b == q + (c + b);
    assert (p + c + a)[..|p|] == p && (q + c + b)[..|q|] == q;
    assert (p + c + a)[|p| + |c|..] == a && (q + c + b)[|q| + |c|..] == b;
    LessConcat(p, q, c + a, c + b);
    LessConcat(c, c, a, b);
    LessIrreflexive(c);
  }

  lemma DateTextOrder(s: DateTime, t: DateTime)
    requires Valid(s) && Valid(t)
    ensures |DateText(s)| == |DateText(t)|
    ensures Less(DateText(s), DateText(t)) <==> DateBefore(s, t)
    ensures DateText(s) == DateText(t) <==> SameDate(s, t)
  {
    assert Pow10(4) == 10_000 && Pow10(2) == 100;
    DigitsOrder(s.year, t.year, 4);
    DigitsOrder(s.month, t.month, 2);
    DigitsOrder(s.day, t.day, 2);
    hide Digits, Less;
    var (y, m, d) := (Digits(s.year, 4), Digits(s.month, 2), Digits(s.day, 2));
    var (y', m', d') := (Digits(t.year, 4), Digits(t.month, 2), Digits(t.day, 2));
    LessStep(y, y', "-", m + "-" + d, m' + "-" + d');
    LessStep(m, m', "-", d, d');
  }

  lemma TimeTextOrder(s: DateTime, t: DateTime)
    requires Valid(s) && Valid(t)
    ensures |TimeText(s)| == |TimeText(t)|
    ensures Less(TimeText(s), TimeText(t)) <==> TimeBefore(s, t)
    ensures TimeText(s) == TimeText(t) <==> SameTime(s, t)
  {
    assert Pow10(2) == 100;
    DigitsOrder(s.hour, t.hour, 2);
    DigitsOrder(s.minute, t.minute, 2);
    DigitsOrder(s.second, t.second, 2);
    hide Digits, Less;
    var (h, m, c) := (Digits(s.hour, 2), Digits(s.minute, 2), Digits(s.second, 2));
    var (h', m', c') := (Digits(t.hour, 2), Digits(t.minute, 2), Digits(t.second, 2));
    LessStep(h, h', ":", m + ":" + c, m' + ":" + c');
    LessStep(m, m', ":", c, c');
  }

  lemma PrefixOrder(s: DateTime, t: DateTime)
    requires Valid(s) && Valid(t)
    ensures |Prefix(s)| == |Prefix(t)|
    ensures Less(Prefix(s), Prefix(t)) <==> SecondBefore(s, t)
    ensures Prefix(s) == Prefix(t) <==> SameDate(s, t) && SameTime(s, t)
  {
    DateTextOrder(s, t);
    TimeTextOrder(s, t);
    hide DateText, TimeText, Less, DateBefore, TimeBefore, SameDate, SameTime;
    LessStep(DateText(s), DateText(t), "T", TimeText(s), TimeText(t));
  }

  // ---- The fraction ----

  lemma Ten(a: nat, b: nat)
    requires b < 10
    ensures (a * 10 + b) / 10 == a && (a * 10 + b) % 10 == b
  {}

  lemma Hundred(a: nat, b: nat)
    requires b < 100
    ensures (a * 100 + b) / 100 == a
  {}

  lemma Thousand(a: nat, b: nat)
    requires b < 1_000
    ensures (a * 1_000 + b) / 1_000 == a && (a * 1_000 + b) % 1_000 == b
  {}

  lemma LastThree(n: nat)
    ensures n / 10 / 10 / 10 == n / 1000 && n / 10 / 10 == n / 100
    ensures var m := n % 1000;
            m / 100 % 10 == n / 100 % 10 && m / 10 % 10 == n / 10 % 10 && m % 10 == n % 10 && m / 1000 == 0
  {
    var (u, d) := (n / 10, n % 10);
    var (v, c) := (u / 10, u % 10);
    var (a, b) := (v / 10, v % 10);
    assert v == a * 10 + b && u == v * 10 + c && n == u * 10 + d;
    var m := b * 100 + (c * 10 + d);
    Thousand(a, m);
    Hundred(v, c * 10 + d);
    Hundred(b, c * 10 + d);
    Ten(b * 10 + c, d);
    Ten(b, c);
    Ten(0, b);
    assert n == a * 1_000 + m && n == v * 100 + (c * 10 + d) && m == (b * 10 + c) * 10 + d;
    assert n / 1_000 == a && n % 1_000 == m && n / 100 == v && m / 100 == b && m / 10 == b * 10 + c;
  }

  lemma LastDigit(n: nat, width: nat)
    ensures Digits(n, width + 1) == Digits(n / 10, width) + [Digit(n % 10)]
  {}

  lemma LastThreeDigits(n: nat, width: nat)
    ensures Digits(n, width + 3)
         == Digits(n / 1000, width) + [Digit(n / 100 % 10)] + [Digit(n / 10 % 10)] + [Digit(n % 10)]
  {
    LastThree(n);
    LastDigit(n / 100, width);
    LastDigit(n / 10, width + 1);
    LastDigit(n, width + 2);
    hide Digits, Digit;
  }

  lemma Append3(p: string, a: string, b: string, c: string)
    ensures p + a + b + c == p + ("" + a + b + c)
  {}

  lemma NoDigits(n: nat)
    ensures Digits(n, 0) == ""
  {}

  lemma DigitsSplit(n: nat, width: nat)
    ensures Digits(n, width + 3) == Digits(n / 1000, width) + Digits(n % 1000, 3)
  {
    LastThree(n);
    LastThreeDigits(n, width);
    LastThreeDigits(n % 1000, 0);
    NoDigits(n % 1000 / 1000);
    hide Digits, Digit;
    Append3(Digits(n / 1000, width), [Digit(n / 100 % 10)], [Digit(n / 10 % 10)], [Digit(n % 10)]);
  }

  lemma NineDigits(nano: nat)
    ensures Digits(nano / 1_000, 6) == Digits(nano / 1_000_000, 3) + Digits(nano / 1_000 % 1_000, 3)
    ensures Digits(nano, 9)
         == Digits(nano / 1_000_000, 3) + Digits(nano / 1_000 % 1_000, 3) + Digits(nano % 1_000, 3)
  {
    DigitsSplit(nano / 1_000, 3);
    DigitsSplit(nano, 6);
    GroupsOfThree(nano);
  }

  function Scale(groups: nat): nat
    requires groups <= 3
  {
    match groups
    case 0 => 1
    case 1 => 1_000
    case 2 => 1_000_000
    case _ => 1_000_000_000
  }

  /** What follows the point: three digits at a time until only zeros are left. */
  function Tail(n: nat, groups: nat): string
    requires groups <= 3 && n < Scale(groups)
    decreases groups
  {
    if n == 0 then UTC
    else Digits(n / Scale(groups - 1), 3) + Tail(n % Scale(groups - 1), groups - 1)
  }

  lemma TailStep(n: nat, groups: nat)
    requires 0 < groups <= 3 && n < Scale(groups)
    ensures Tail(n, groups) == if n == 0 then UTC
                               else Digits(n / Scale(groups - 1), 3) + Tail(n % Scale(groups - 1), groups - 1)
  {}

  lemma Million(a: nat, b: nat)
    requires b < 1_000_000
    ensures (a * 1_000_000 + b) / 1_000_000 == a && (a * 1_000_000 + b) % 1_000_000 == b
  {}

  lemma GroupsOfThree(nano: nat)
    ensures var rest := nano % 1_000_000;
            rest / 1_000 == nano / 1_000 % 1_000 && rest % 1_000 == nano % 1_000
            && nano / 1_000 / 1_000 == nano / 1_000_000
  {
    var u := nano / 1_000;
    var (a, b, c) := (u / 1_000, u % 1_000, nano % 1_000);
    assert u == a * 1_000 + b && nano == u * 1_000 + c;
    assert nano == a * 1_000_000 + (b * 1_000 + c);
    Million(a, b * 1_000 + c);
    Thousand(b, c);
  }

  lemma {:induction false} TailInThree(nano: nat)
    requires 0 < nano < 1_000_000_000
    ensures Tail(nano, 3) ==
              Digits(nano / 1_000_000, 3)
              + (if nano % 1_000_000 == 0 then UTC
                 else Digits(nano / 1_000 % 1_000, 3)
                      + (if nano % 1_000 == 0 then UTC else Digits(nano % 1_000, 3) + UTC))
  {
    TailStep(nano, 3);
    TailStep(nano % 1_000_000, 2);
    TailStep(nano % 1_000, 1);
    assert Tail(0, 0) == UTC;
    GroupsOfThree(nano);
    hide Digits, Tail;
    assert nano % 1_000 / 1 == nano % 1_000 && nano % 1_000 % 1 == 0;
  }

  lemma {:induction false} FractionIsTail(nano: nat)
    requires 0 < nano < 1_000_000_000
    ensures Fraction(nano) + UTC == "." + Tail(nano, 3)
  {
    NineDigits(nano);
    TailInThree(nano);
    hide Digits, Tail;
    Regroup(Digits(nano / 1_000_000, 3), Digits(nano / 1_000 % 1_000, 3), Digits(nano % 1_000, 3));
  }

  lemma Regroup(ms: string, us: string, ns: string)
    ensures "." + (ms + us + ns) + UTC == "." + (ms + (us + (ns + UTC)))
    ensures "." + (ms + us) + UTC == "." + (ms + (us + UTC))
    ensures "." + ms + UTC == "." + (ms + UTC)
  {}

  /** Groups of three digits that differ decide; equal ones leave it to the rest. */
  lemma GroupOrder(a: nat, b: nat, s: string, t: string)
    requires a < 1_000 && b < 1_000
    ensures Less(Digits(a, 3) + s, Digits(b, 3) + t) <==> a < b || (a == b && Less(s, t))
  {
    assert Pow10(3) == 1000;
    DigitsOrder(a, b, 3);
    hide Less, Digits;
    LessConcat(Digits(a, 3), Digits(b, 3), s, t);
  }

  /** The offset alone sorts before any digits. */
  lemma OffsetFirst(n: nat, rest: string)
    ensures Less(UTC, Digits(n, 3) + rest) && !Less(Digits(n, 3) + rest, UTC)
  {
    StartsWithDigit(n);
    hide Digits;
    assert (Digits(n, 3) + rest)[0] == Digits(n, 3)[0];
  }

  lemma ScaleStep(m: nat, n: nat, groups: nat)
    requires 0 < groups <= 3 && m < Scale(groups) && n < Scale(groups)
    ensures var d := Scale(groups - 1);
            && m / d < 1_000 && n / d < 1_000 && m % d < d && n % d < d
            && (m < n <==> m / d < n / d || (m / d == n / d && m % d < n % d))
  {
    var d := Scale(groups - 1);
    match groups
    case 1 => assert d == 1;
    case 2 => assert d == 1_000;
    case _ => assert d == 1_000_000;
  }

  lemma {:induction false} TailOrder(m: nat, n: nat, groups: nat)
    requires groups <= 3 && m < Scale(groups) && n < Scale(groups)
    ensures Less(Tail(m, groups), Tail(n, groups)) <==> m < n
    decreases groups
  {
    LessIrreflexive(UTC);
    if groups > 0 {
      ScaleStep(m, n, groups);
      TailStep(m, groups);
      TailStep(n, groups);
      var d := Scale(groups - 1);
      if m != 0 && n != 0 {
        TailOrder(m % d, n % d, groups - 1);
        hide Less, Tail, Digits, Scale;
        GroupOrder(m / d, n / d, Tail(m % d, groups - 1), Tail(n % d, groups - 1));
      } else if m != 0 || n != 0 {
        hide Less, Tail, Digits, Scale;
        OffsetFirst(m / d, Tail(m % d, groups - 1));
        OffsetFirst(n / d, Tail(n % d, groups - 1));
      }
    }
  }

  /** '+' sorts before every digit. */
  lemma StartsWithDigit(n: nat)
    ensures |Digits(n, 3)| == 3 && UTC[0] < Digits(n, 3)[0]
  {
    DigitsLength(n, 3);
    assert Digits(n, 3) == Digits(n / 10, 2) + [Digit(n % 10)];
    assert Digits(n / 10, 2) == Digits(n / 100, 1) + [Digit(n / 10 % 10)];
    assert Digits(n / 100, 1) == Digits(n / 1000, 0) + [Digit(n / 100 % 10)];
  }

  lemma FractionOrder(m: nat, n: nat)
    requires m < 1_000_000_000 && n < 1_000_000_000
    ensures Less(Fraction(m) + UTC, Fraction(n) + UTC) <==> m < n
  {
    LessIrreflexive(UTC);
    assert Fraction(0) + UTC == UTC;
    if m > 0 { FractionIsTail(m); }
    if n > 0 { FractionIsTail(n); }
    if m > 0 && n > 0 {
      TailOrder(m, n, 3);
      LessConcat(".", ".", Tail(m, 3), Tail(n, 3));
      LessIrreflexive(".");
    }
  }

  /** Text order is time order: byte-wise comparison of the printed timestamps agrees with the instants. */
  lemma TextOrderIsTimeOrder(s: DateTime, t: DateTime)
    requires Valid(s) && Valid(t)
    ensures Less(Rfc3339(s), Rfc3339(t)) <==> Instant(s) < Instant(t)
  {
    PrefixOrder(s, t);
    FractionOrder(s.nano, t.nano);
    InstantOrder(s, t);
    hide Prefix, Fraction, Less, Instant;
    LessConcat(Prefix(s), Prefix(t), Fraction(s.nano) + UTC, Fraction(t.nano) + UTC);
  }

  // ---- The calendar and the text themselves ----

  /** The Gregorian count of days, in closed form. */
  lemma {:induction false} DaysBeforeYearIs(year: nat)
    ensures DaysBeforeYear(year) == 365 * year + (year + 3) / 4 - (year + 99) / 100 + (year + 399) / 400
  {
    if year > 0 {
      DaysBeforeYearIs(year - 1);
      LeapCount(year - 1);
    }
  }

  lemma By4(year: nat)
    ensures (year + 4) / 4 == (year + 3) / 4 + (if year % 4 == 0 then 1 else 0)
  {}

  lemma By100(year: nat)
    ensures (year + 100) / 100 == (year + 99) / 100 + (if year % 100 == 0 then 1 else 0)
  {}

  lemma By400(year: nat)
    ensures (year + 400) / 400 == (year + 399) / 400 + (if year % 400 == 0 then 1 else 0)
  {}

  lemma LeapCount(year: nat)
    ensures (year + 4) / 4 - (year + 100) / 100 + (year + 400) / 400
         == (year + 3) / 4 - (year + 99) / 100 + (year + 399) / 400 + (if IsLeap(year) then 1 else 0)
  {
    By4(year);
    By100(year);
    By400(year);
    CenturiesAreFourths(year);
  }

  lemma CenturiesAreFourths(year: nat)
    ensures year % 400 == 0 ==> year % 100 == 0
    ensures year % 100 == 0 ==> year % 4 == 0
  {
    if year % 400 == 0 {
      assert year == 100 * (4 * (year / 400));
    }
    if year % 100 == 0 {
      assert year == 4 * (25 * (year / 100));
    }
  }

  /** The day after: one more, over the ends of months and years. */
  lemma NextDay(t: DateTime, u: DateTime)
    requires Valid(t) && Valid(u)
    requires if t.day < DaysInMonth(t.year, t.month) then u.year == t.year && u.month == t.month && u.day == t.day + 1
             else if t.month < 12 then u.year == t.year && u.month == t.month + 1 && u.day == 1
             else u.year == t.year + 1 && u.month == 1 && u.day == 1
    ensures Days(u) == Days(t) + 1
  {
    if u.year == t.year + 1 {
      DateWithinYear(t);
      YearLength(t.year);
    }
  }

  lemma YearLength(year: nat)
    ensures DaysBeforeMonth(year, 12) + 31 == if IsLeap(year) then 366 else 365
  {
    assert DaysBeforeMonth(year, 1) == 0 && DaysBeforeMonth(year, 2) == 31;
    assert DaysBeforeMonth(year, 3) == 31 + DaysInMonth(year, 2);
    assert DaysBeforeMonth(year, 5) == DaysBeforeMonth(year, 3) + 61;
    assert DaysBeforeMonth(year, 7) == DaysBeforeMonth(year, 5) + 61;
    assert DaysBeforeMonth(year, 9) == DaysBeforeMonth(year, 7) + 62;
    assert DaysBeforeMonth(year, 11) == DaysBeforeMonth(year, 9) + 61;
    assert DaysBeforeMonth(year, 12) == DaysBeforeMonth(year, 11) + 30;
  }

  /** Where the text has what: the date, the letter T, the time, the fraction, and the offset. */
  lemma TextIs(t: DateTime)
    requires Valid(t)
    ensures Rfc3339(t) ==
            Digits(t.year, 4) + "-" + Digits(t.month, 2) + "-" + Digits(t.day, 2) + "T"
            + Digits(t.hour, 2) + ":" + Digits(t.minute, 2) + ":" + Digits(t.second, 2) + Fraction(t.nano) + "+00:00"
    ensures Fraction(t.nano) ==
            if t.nano == 0 then ""
            else if t.nano % 1_000_000 == 0 then "." + Digits(t.nano / 1_000_000, 3)
            else if t.nano % 1_000 == 0 then "." + Digits(t.nano / 1_000, 6)
            else "." + Digits(t.nano, 9)
  {
    hide Digits;
    var (y, m, d) := (Digits(t.year, 4), Digits(t.month, 2), Digits(t.day, 2));
    var (h, n, c) := (Digits(t.hour, 2), Digits(t.minute, 2), Digits(t.second, 2));
    assert y + "-" + (m + "-" + d) == y + "-" + m + "-" + d;
    assert h + ":" + (n + ":" + c) == h + ":" + n + ":" + c;
    assert Prefix(t) == y + "-" + m + "-" + d + "T" + h + ":" + n + ":" + c;
  }
}
