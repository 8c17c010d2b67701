/** Civil dates of the usage statistics: `day_from_unix` and `range_cutoff_day`.

    The source turns a Unix timestamp into a `YYYY-MM-DD` text with Hinnant's closed formula and
    then filters rows by comparing those texts.  Here the formula is proved equal to counting days
    one at a time from 1970-01-01 with the month lengths and the leap rule of section 5.7 and
    Appendix C of RFC 3339, and comparing the texts is proved to be comparing the days. */
module Calendar {
  import opened Arithmetic
  import opened Wrappers
  import opened Text

  datatype Date = Date(year: int, month: int, day: int)

  const EPOCH := Date(1970, 1, 1)

  // ---- The reference: a calendar that only knows how to step by one day ----

  predicate Leap(y: int) {
    y % 4 == 0 && (y % 100 != 0 || y % 400 == 0)
  }

  function MonthLength(y: int, m: int): int {
    if m == 2 then (if Leap(y) then 29 else 28)
    else if m == 4 || m == 6 || m == 9 || m == 11 then 30
    else 31
  }

  predicate ValidDate(t: Date) {
    1 <= t.month <= 12 && 1 <= t.day <= MonthLength(t.year, t.month)
  }

  function NextDay(t: Date): Date {
    if t.day < MonthLength(t.year, t.month) then Date(t.year, t.month, t.day + 1)
    else if t.month < 12 then Date(t.year, t.month + 1, 1)
    else Date(t.year + 1, 1, 1)
  }

  function PreviousDay(t: Date): Date {
    if t.day > 1 then Date(t.year, t.month, t.day - 1)
    else if t.month > 1 then Date(t.year, t.month - 1, MonthLength(t.year, t.month - 1))
    else Date(t.year - 1, 12, 31)
  }

  /** The date `n` days after (or `-n` days before) the epoch, one step at a time. */
  function StepFromEpoch(n: int): Date
    decreases if n < 0 then -n else n
  {
    if n == 0 then EPOCH
    else if n > 0 then NextDay(StepFromEpoch(n - 1))
    else PreviousDay(StepFromEpoch(n + 1))
  }

  // ---- The source's closed formula ----

  /** A day inside a year that starts on the first of March. */
  datatype MarchDay = MarchDay(year: int, dayOfYear: int)

  function YearOfEra(doe: int): int {
    (doe - doe / 1460 + doe / 36524 - doe / 146096) / 365
  }

  function YearStart(yoe: int): int { 365 * yoe + yoe / 4 - yoe / 100 }

  function InEra(era: int, doe: int): MarchDay {
    var yoe := YearOfEra(doe);
    MarchDay(yoe + era * 400, doe - YearStart(yoe))
  }

  /** `z` counts days from 0000-03-01; `div_euclid` and `rem_euclid` are Dafny's own operators. */
  function ToMarchDay(z: int): MarchDay {
    InEra(z / 146097, z % 146097)
  }

  function ToCivil(t: MarchDay): Date {
    var mp := (5 * t.dayOfYear + 2) / 153;
    var d := t.dayOfYear - (153 * mp + 2) / 5 + 1;
    var m := if mp < 10 then mp + 3 else mp - 9;
    Date(if m <= 2 then t.year + 1 else t.year, m, d)
  }

  /** The date that `day_from_unix` formats. */
  function CivilFromUnix(secs: int): Date {
    ToCivil(ToMarchDay(secs / 86400 + 719468))
  }

  // ---- The formula advances exactly like the reference ----

  function MarchYearLength(y: int): int { if Leap(y + 1) then 366 else 365 }

  function NextMarchDay(t: MarchDay): MarchDay {
    if t.dayOfYear + 1 < MarchYearLength(t.year) then MarchDay(t.year, t.dayOfYear + 1) else MarchDay(t.year + 1, 0)
  }

  /** Within an era, `c` centuries, `q` four-year cycles and `w` days give the year by plain digits. */
  lemma YearOfEraFormula(c: int, q: int, w: int)
    requires 0 <= c < 4 && 0 <= q <= 24 && 0 <= w < 1461 && 1461 * q + w < 36524
    ensures YearOfEra(36524 * c + 1461 * q + w) == 100 * c + 4 * q + (if w < 1460 then w / 365 else 3)
  {
    var doe := 36524 * c + 1461 * q + w;
    Quotient(doe, 36524, c);
    Quotient(doe, 146096, 0);
    var e := if 24 * c + q + w >= 1460 then 1 else 0;
    Quotient(doe, 1460, 25 * c + q + e);
    var s := if w < 1460 then w / 365 else 3;
    Quotient(doe - doe / 1460 + doe / 36524 - doe / 146096, 365, 100 * c + 4 * q + s);
  }

  lemma YearStartFormula(c: int, q: int, s: int)
    requires 0 <= q && 0 <= c && 0 <= s < 4 && 4 * q + s < 100
    ensures YearStart(100 * c + 4 * q + s) == 36524 * c + 1461 * q + 365 * s
  {
    Quotient(100 * c + 4 * q + s, 4, 25 * c + q);
    Quotient(100 * c + 4 * q + s, 100, c);
  }

  /** Day `w` of cycle q of century c lies in the year those digits give. */
  lemma YearStartAround(c: int, q: int, w: int, s: int)
    requires 0 <= c < 4 && 0 <= q <= 24 && 0 <= w < 1461 && 1461 * q + w < 36524
    requires s == if w < 1460 then w / 365 else 3
    ensures YearStart(100 * c + 4 * q + s) <= 36524 * c + 1461 * q + w
    ensures 100 * c + 4 * q + s < 399 ==> 36524 * c + 1461 * q + w < YearStart(100 * c + 4 * q + s + 1)
  {
    YearStartFormula(c, q, s);
    if s < 3 && 4 * q + s < 99 { YearStartFormula(c, q, s + 1); }
    else if 4 * q + s < 99 { YearStartFormula(c, q + 1, 0); }
    else { YearStartFormula(c + 1, 0, 0); }
  }

  lemma LastDayOfEra()
    ensures YearOfEra(146096) == 399 && YearStart(399) <= 146096
  {
  }

  /** The closed formula picks the year whose day interval contains `doe`. */
  lemma YearBounds(doe: int)
    requires 0 <= doe < 146097
    ensures 0 <= YearOfEra(doe) < 400
    ensures YearStart(YearOfEra(doe)) <= doe
    ensures YearOfEra(doe) < 399 ==> doe < YearStart(YearOfEra(doe) + 1)
  {
    if doe < 146096 {
      var c := doe / 36524;
      var r := doe % 36524;
      var q := r / 1461;
      var w := r % 1461;
      YearOfEraFormula(c, q, w);
      YearStartAround(c, q, w, if w < 1460 then w / 365 else 3);
    } else {
      LastDayOfEra();
    }
  }

  lemma YearStartStep(yoe: int)
    requires 0 <= yoe < 400
    ensures YearStart(yoe + 1) == YearStart(yoe) + (if yoe < 399 then MarchYearLength(yoe) else 365)
  {
  }

  lemma YearStartMonotone(a: int, b: int)
    requires 0 <= a < b <= 400
    ensures YearStart(a) < YearStart(b)
  {
  }

  lemma SameRemainder(a: int, b: int, m: int, k: int)
    requires m > 0 && a == b + k * m
    ensures a % m == b % m
  {
    var q := b / m;
    assert b == q * m + b % m;
    assert (q + k) * m == q * m + k * m && (q + k + 1) * m == q * m + k * m + m;
    Quotient(a, m, q + k);
    assert a == (a / m) * m + a % m;
  }

  lemma LeapPeriod(y: int, era: int)
    ensures Leap(y + 400 * era) == Leap(y)
  {
    SameRemainder(y + 400 * era, y, 4, 100 * era);
    SameRemainder(y + 400 * era, y, 100, 4 * era);
    SameRemainder(y + 400 * era, y, 400, era);
  }

  lemma NextYearOfEra(doe: int)
    requires 0 <= doe < 146096
    ensures var yoe := YearOfEra(doe);
            YearOfEra(doe + 1) == if doe + 1 < YearStart(yoe + 1) || yoe == 399 then yoe else yoe + 1
  {
    YearBounds(doe);
    YearBounds(doe + 1);
    var yoe, next := YearOfEra(doe), YearOfEra(doe + 1);
    if next < yoe { if next + 1 < yoe { YearStartMonotone(next + 1, yoe); } }
    if next > yoe + 1 { YearStartMonotone(yoe + 1, next); }
    if next == yoe + 1 && yoe < 399 { YearStartStep(yoe); }
  }

  lemma EraBounds(era: int, doe: int)
    requires 0 <= doe < 146097
    ensures var yoe := YearOfEra(doe);
            && 0 <= doe - YearStart(yoe) < MarchYearLength(yoe + era * 400)
            && (doe - YearStart(yoe) + 1 < MarchYearLength(yoe + era * 400) <==>
                (doe < 146096 && YearOfEra(doe + 1) == yoe))
            && (doe < 146096 && YearOfEra(doe + 1) != yoe ==>
                YearOfEra(doe + 1) == yoe + 1 && YearStart(yoe + 1) == doe + 1)
            && (doe == 146096 ==> yoe == 399)
  {
    YearBounds(doe);
    var yoe := YearOfEra(doe);
    YearStartStep(yoe);
    LeapPeriod(yoe + 1, era);
    if doe < 146096 { NextYearOfEra(doe); }
  }

  lemma EraStep(era: int, doe: int)
    requires 0 <= doe < 146097
    ensures 0 <= InEra(era, doe).dayOfYear < MarchYearLength(InEra(era, doe).year)
    ensures NextMarchDay(InEra(era, doe)) == if doe < 146096 then InEra(era, doe + 1) else InEra(era + 1, 0)
  {
    EraBounds(era, doe);
  }

  lemma NextInEra(z: int)
    ensures if z % 146097 < 146096 then (z + 1) / 146097 == z / 146097 && (z + 1) % 146097 == z % 146097 + 1
            else (z + 1) / 146097 == z / 146097 + 1 && (z + 1) % 146097 == 0
  {
  }

  lemma CivilStep(t: MarchDay)
    requires 0 <= t.dayOfYear < MarchYearLength(t.year)
    ensures ValidDate(ToCivil(t))
    ensures ToCivil(NextMarchDay(t)) == NextDay(ToCivil(t))
  {
  }

  lemma CivilSuccessor(z: int)
    ensures ValidDate(ToCivil(ToMarchDay(z)))
    ensures ToCivil(ToMarchDay(z + 1)) == NextDay(ToCivil(ToMarchDay(z)))
  {
    NextInEra(z);
    EraStep(z / 146097, z % 146097);
    CivilStep(InEra(z / 146097, z % 146097));
  }

  lemma PreviousUndoesNext(t: Date)
    requires ValidDate(t)
    ensures PreviousDay(NextDay(t)) == t
  {
  }

  /** The formula's date for the n-th day after the epoch. */
  function CivilOfDay(n: int): Date { ToCivil(ToMarchDay(n + 719468)) }

  lemma CivilOfDaySteps(n: int)
    ensures CivilOfDay(n + 1) == NextDay(CivilOfDay(n)) && PreviousDay(CivilOfDay(n + 1)) == CivilOfDay(n)
  {
    CivilSuccessor(n + 719468);
    PreviousUndoesNext(CivilOfDay(n));
  }

  lemma EpochYear()
    ensures InEra(4, 135080) == MarchDay(1969, 306)
  {
  }

  lemma EpochIsDayZero()
    ensures CivilOfDay(0) == EPOCH
  {
    Quotient(719468, 146097, 4);
    EpochYear();
    assert ToMarchDay(719468) == MarchDay(1969, 306);
  }

  /** One day further and one day back, for any numbering of days. */
  predicate StepsAt(civil: int -> Date, k: int) {
    civil(k + 1) == NextDay(civil(k)) && PreviousDay(civil(k + 1)) == civil(k)
  }

  lemma {:induction false} SteppingIsUnique(civil: int -> Date, n: int)
    requires civil(0) == EPOCH && forall k :: StepsAt(civil, k)
    ensures civil(n) == StepFromEpoch(n)
    decreases if n < 0 then -n else n
  {
    if n > 0 {
      SteppingIsUnique(civil, n - 1);
      assert StepsAt(civil, n - 1);
    } else if n < 0 {
      SteppingIsUnique(civil, n + 1);
      assert StepsAt(civil, n);
    }
  }

  lemma FormulaSteps(k: int)
    ensures StepsAt(CivilOfDay, k)
  {
    CivilOfDaySteps(k);
  }

  lemma FormulaCountsDays(n: int)
    ensures CivilOfDay(n) == StepFromEpoch(n)
  {
    EpochIsDayZero();
    forall k ensures StepsAt(CivilOfDay, k) { FormulaSteps(k); }
    SteppingIsUnique(CivilOfDay, n);
  }

  /** For every second, before or after the epoch, the formula gives the date that stepping day by
      day gives. */
  lemma UnixDateIsSteppedDate(secs: int)
    ensures CivilFromUnix(secs) == StepFromEpoch(secs / 86400)
    ensures ValidDate(CivilFromUnix(secs))
  {
    FormulaCountsDays(secs / 86400);
    CivilSuccessor(secs / 86400 + 719468);
  }

  // ---- The printed day ----

  function Digit(n: int): char
    requires 0 <= n < 10
  {
    '0' + n as char
  }

  function Decimal(n: nat): string
  {
    if n < 10 then [Digit(n)] else Decimal(n / 10) + [Digit(n % 10)]
  }

  function Zeros(n: int): string
  {
    if n <= 0 then "" else "0" + Zeros(n - 1)
  }

  /** Rust's `{n:0width}`: the sign counts towards the width. */
  function Padded(n: int, width: int): string {
    if n >= 0 then Zeros(width - |Decimal(n)|) + Decimal(n)
    else "-" + Zeros(width - 1 - |Decimal(-n)|) + Decimal(-n)
  }

  function Format(t: Date): string {
    Padded(t.year, 4) + "-" + Padded(t.month, 2) + "-" + Padded(t.day, 2)
  }

  function DayFromUnix(secs: int): string { Format(CivilFromUnix(secs)) }

  /** Exactly `width` decimal digits. */
  function Fixed(n: nat, width: nat): string {
    if width == 0 then "" else Fixed(n / 10, width - 1) + [Digit(n % 10)]
  }

  function Power10(w: nat): nat { if w == 0 then 1 else 10 * Power10(w - 1) }

  lemma {:induction false} FixedLength(n: nat, w: nat)
    ensures |Fixed(n, w)| == w
  {
    if w > 0 { FixedLength(n / 10, w - 1); }
  }

  lemma {:induction false} FixedOfZero(w: nat)
    ensures Fixed(0, w) == Zeros(w)
    ensures w > 0 ==> Zeros(w) == Zeros(w - 1) + "0"
  {
    if w > 0 { FixedOfZero(w - 1); }
  }

  lemma {:induction false} PaddedIsFixed(n: nat, w: nat)
    requires n < Power10(w) && w > 0
    ensures Padded(n, w) == Fixed(n, w)
  {
    if n < 10 {
      FixedOfZero(w - 1);
    } else {
      PaddedIsFixed(n / 10, w - 1);
      assert |Decimal(n)| == |Decimal(n / 10)| + 1;
      assert Zeros(w - |Decimal(n)|) + (Decimal(n / 10) + [Digit(n % 10)])
          == (Zeros(w - |Decimal(n)|) + Decimal(n / 10)) + [Digit(n % 10)];
    }
  }

  lemma {:induction false} FixedOrder(a: nat, b: nat, w: nat)
    requires a < b < Power10(w)
    ensures Less(Fixed(a, w), Fixed(b, w))
  {
    FixedLength(a / 10, w - 1);
    FixedLength(b / 10, w - 1);
    if a / 10 < b / 10 {
      FixedOrder(a / 10, b / 10, w - 1);
      LessExtends(Fixed(a / 10, w - 1), Fixed(b / 10, w - 1), [Digit(a % 10)], [Digit(b % 10)]);
    } else {
      LessAfterPrefix(Fixed(a / 10, w - 1), [Digit(a % 10)], [Digit(b % 10)]);
    }
  }

  predicate Earlier(a: Date, b: Date) {
    a.year < b.year || (a.year == b.year && (a.month < b.month || (a.month == b.month && a.day < b.day)))
  }

  predicate FourDigitYear(t: Date) { 0 <= t.year <= 9999 }

  function FixedFormat(t: Date): string
    requires FourDigitYear(t) && ValidDate(t)
  {
    Fixed(t.year, 4) + ("-" + (Fixed(t.month, 2) + ("-" + Fixed(t.day, 2))))
  }

  lemma PowersOfTen()
    ensures Power10(2) == 100 && Power10(4) == 10000
  {
  }

  lemma ConcatRight(a: string, b: string, c: string)
    ensures a + "-" + b + "-" + c == a + ("-" + (b + ("-" + c)))
  {
  }

  lemma FormatIsFixed(t: Date)
    requires FourDigitYear(t) && ValidDate(t)
    ensures Format(t) == FixedFormat(t)
  {
    PowersOfTen();
    PaddedIsFixed(t.year, 4);
    PaddedIsFixed(t.month, 2);
    PaddedIsFixed(t.day, 2);
    ConcatRight(Fixed(t.year, 4), Fixed(t.month, 2), Fixed(t.day, 2));
  }

  /** What decimal digits read as; -1 if something else stands among them. */
  function Reading(s: string): int {
    if s == "" then 0
    else
      var before, last := Reading(s[..|s| - 1]), s[|s| - 1] as int - 48;
      if before < 0 || last < 0 || last > 9 then -1 else 10 * before + last
  }

  lemma {:induction false} FixedReads(n: nat, w: nat)
    requires n < Power10(w)
    ensures |Fixed(n, w)| == w && Reading(Fixed(n, w)) == n
  {
    if w > 0 {
      FixedReads(n / 10, w - 1);
      assert Fixed(n, w)[..w - 1] == Fixed(n / 10, w - 1);
    }
  }

  /** The text of a day is its year, month and day as YYYY-MM-DD. */
  lemma FormatReads(t: Date)
    requires FourDigitYear(t) && ValidDate(t)
    ensures var s := Format(t);
            && |s| == 10 && s[4] == '-' && s[7] == '-'
            && Reading(s[..4]) == t.year && Reading(s[5..7]) == t.month && Reading(s[8..]) == t.day
  {
    FormatIsFixed(t);
    PowersOfTen();
    FixedReads(t.year, 4);
    FixedReads(t.month, 2);
    FixedReads(t.day, 2);
    var s := Format(t);
    assert s[..4] == Fixed(t.year, 4) && s[5..7] == Fixed(t.month, 2) && s[8..] == Fixed(t.day, 2);
  }

  lemma EarlierReadsLess(a: Date, b: Date)
    requires FourDigitYear(a) && FourDigitYear(b) && ValidDate(a) && ValidDate(b)
    requires Earlier(a, b)
    ensures Less(Format(a), Format(b))
  {
    FormatIsFixed(a);
    FormatIsFixed(b);
    PowersOfTen();
    var da, db := Fixed(a.day, 2), Fixed(b.day, 2);
    var ma, mb := Fixed(a.month, 2), Fixed(b.month, 2);
    var ya, yb := Fixed(a.year, 4), Fixed(b.year, 4);
    FixedLength(a.year, 4);
    FixedLength(b.year, 4);
    FixedLength(a.month, 2);
    FixedLength(b.month, 2);
    if a.year < b.year {
      FixedOrder(a.year, b.year, 4);
      LessExtends(ya, yb, "-" + (ma + ("-" + da)), "-" + (mb + ("-" + db)));
    } else {
      LessAfterPrefix(ya, "-" + (ma + ("-" + da)), "-" + (mb + ("-" + db)));
      LessAfterPrefix("-", ma + ("-" + da), mb + ("-" + db));
      if a.month < b.month {
        FixedOrder(a.month, b.month, 2);
        LessExtends(ma, mb, "-" + da, "-" + db);
      } else {
        FixedOrder(a.day, b.day, 2);
        LessAfterPrefix(ma, "-" + da, "-" + db);
        LessAfterPrefix("-", da, db);
      }
    }
  }

  lemma SteppedSuccessor(n: int)
    ensures ValidDate(StepFromEpoch(n))
    ensures StepFromEpoch(n + 1) == NextDay(StepFromEpoch(n))
  {
    FormulaCountsDays(n);
    FormulaCountsDays(n + 1);
    CivilSuccessor(n + 719468);
  }

  lemma NextIsLater(a: Date, t: Date)
    requires ValidDate(t)
    ensures Earlier(t, NextDay(t))
    ensures Earlier(a, t) ==> Earlier(a, NextDay(t))
  {
  }

  lemma {:induction false} LaterIsLater(m: int, n: int)
    requires m < n
    ensures Earlier(StepFromEpoch(m), StepFromEpoch(n))
    decreases n - m
  {
    SteppedSuccessor(n - 1);
    NextIsLater(StepFromEpoch(m), StepFromEpoch(n - 1));
    if m < n - 1 { LaterIsLater(m, n - 1); }
  }

  lemma SteppedTextOrder(m: int, n: int)
    requires FourDigitYear(StepFromEpoch(m)) && FourDigitYear(StepFromEpoch(n))
    ensures Less(Format(StepFromEpoch(m)), Format(StepFromEpoch(n))) <==> m < n
    ensures Format(StepFromEpoch(m)) == Format(StepFromEpoch(n)) <==> m == n
  {
    SteppedSuccessor(m);
    SteppedSuccessor(n);
    var s, t := Format(StepFromEpoch(m)), Format(StepFromEpoch(n));
    LessIrreflexive(s);
    if m < n {
      LaterIsLater(m, n);
      EarlierReadsLess(StepFromEpoch(m), StepFromEpoch(n));
    } else if n < m {
      LaterIsLater(n, m);
      EarlierReadsLess(StepFromEpoch(n), StepFromEpoch(m));
      if Less(s, t) { LessTransitive(s, t, s); }
    }
  }

  /** Between the years 0000 and 9999 the texts of two days compare exactly as the days do. */
  lemma TextOrderIsDayOrder(s: int, t: int)
    requires FourDigitYear(CivilFromUnix(s)) && FourDigitYear(CivilFromUnix(t))
    ensures Less(DayFromUnix(s), DayFromUnix(t)) <==> s / 86400 < t / 86400
    ensures DayFromUnix(s) == DayFromUnix(t) <==> s / 86400 == t / 86400
  {
    UnixDateIsSteppedDate(s);
    UnixDateIsSteppedDate(t);
    SteppedTextOrder(s / 86400, t / 86400);
  }

  /** Outside those years the order breaks: the first day of 10000 reads before the last of 9999. */
  lemma TextOrderNeedsFourDigits()
    ensures Earlier(Date(9999, 12, 31), Date(10000, 1, 1))
    ensures Less(Format(Date(10000, 1, 1)), Format(Date(9999, 12, 31)))
  {
    assert Decimal(10000) == "10000" by {
      assert Decimal(1) == "1";
      assert Decimal(10) == "10";
      assert Decimal(100) == "100";
      assert Decimal(1000) == "1000";
    }
    assert Decimal(9999) == "9999" by {
      assert Decimal(99) == "99";
      assert Decimal(999) == "999";
    }
  }

  // ---- The range cutoff ----

  /** Rust's `/` on `i64`, which truncates towards zero. */
  function TruncatingDivide(a: int, b: int): int
    requires b > 0
  {
    if a >= 0 then a / b else -((-a) / b)
  }

  function RangeDays(range: string): int {
    if range == "7d" then 7 else if range == "30d" then 30 else 0
  }

  function RangeCutoffSecs(range: string, nowMs: int): int {
    TruncatingDivide(nowMs, 1000) - RangeDays(range) * 86400
  }

  function RangeCutoffDay(range: string, nowMs: int): Option<string> {
    if range == "7d" || range == "30d" then Some(DayFromUnix(RangeCutoffSecs(range, nowMs))) else None
  }

  predicate BeforeCutoff(day: string, cutoff: Option<string>) {
    cutoff.Some? && Less(day, cutoff.value)
  }

  lemma TruncatesTowardsZero(a: int, b: int)
    requires b > 0
    ensures a >= 0 ==> TruncatingDivide(a, b) * b <= a < TruncatingDivide(a, b) * b + b
    ensures a <= 0 ==> TruncatingDivide(a, b) * b - b < a <= TruncatingDivide(a, b) * b
  {
  }

  /** The text filter drops exactly the days more than 7, or 30, days before today, and for any other range
      none. */
  lemma CutoffIsExact(range: string, nowMs: int, s: int)
    requires FourDigitYear(CivilFromUnix(s)) && FourDigitYear(CivilFromUnix(RangeCutoffSecs(range, nowMs)))
    ensures var day, today := s / 86400, TruncatingDivide(nowMs, 1000) / 86400;
            BeforeCutoff(DayFromUnix(s), RangeCutoffDay(range, nowMs)) <==>
              (range == "7d" && day < today - 7) || (range == "30d" && day < today - 30)
    ensures range != "7d" && range != "30d" ==> RangeCutoffDay(range, nowMs) == None
  {
    TextOrderIsDayOrder(s, RangeCutoffSecs(range, nowMs));
  }
}
