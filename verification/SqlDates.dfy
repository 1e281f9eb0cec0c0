/** Gregorian day arithmetic and the ISO timestamp reader of the SQL module. */
module SqlDates {
  // ---- days_from_civil, with C's arithmetic --------------------------------------------------------

  /** Conversion to a 32-bit unsigned integer. */
  function U32(n: int): nat {
    n % 0x1_0000_0000
  }

  /** C's division, towards zero. */
  function TruncDiv(a: int, b: int): int
    requires b > 0
  {
    if a >= 0 then a / b else -(-a / b)
  }

  function DaysFromCivil(year: int, m: nat, d: nat): int {
    var y := year - if m <= 2 then 1 else 0;
    var era := TruncDiv(if y >= 0 then y else y - 399, 400);
    var yoe := U32(y - era * 400);
    var mp := U32(m + U32(if m > 2 then -3 else 9));
    var doy := U32(U32(U32(153 * mp) + 2) / 5 + d - 1);
    var doe := U32(yoe * 365 + yoe / 4 - yoe / 100 + doy);
    era * 146097 + doe - 719468
  }

  // ---- the calendar, independently -------------------------------------------------------------------

  datatype Date = Date(y: int, m: nat, d: nat)

  predicate IsLeap(y: int) {
    y % 4 == 0 && (y % 100 != 0 || y % 400 == 0)
  }

  function DaysInMonth(y: int, m: nat): nat
    requires 1 <= m <= 12
  {
    if m == 2 then (if IsLeap(y) then 29 else 28)
    else if m == 4 || m == 6 || m == 9 || m == 11 then 30
    else 31
  }

  predicate ValidDate(t: Date) {
    1 <= t.m <= 12 && 1 <= t.d <= DaysInMonth(t.y, t.m)
  }

  function NextDay(t: Date): (r: Date)
    requires ValidDate(t)
    ensures ValidDate(r)
  {
    if t.d < DaysInMonth(t.y, t.m) then Date(t.y, t.m, t.d + 1)
    else if t.m < 12 then Date(t.y, t.m + 1, 1)
    else Date(t.y + 1, 1, 1)
  }

  function PreviousDay(t: Date): (r: Date)
    requires ValidDate(t)
    ensures ValidDate(r) && NextDay(r) == t
  {
    if t.d > 1 then Date(t.y, t.m, t.d - 1)
    else if t.m > 1 then Date(t.y, t.m - 1, DaysInMonth(t.y, t.m - 1))
    else Date(t.y - 1, 12, 31)
  }

  function Days(t: Date): int {
    DaysFromCivil(t.y, t.m, t.d)
  }

  // ---- the formula without C's conversions --------------------------------------------------------------

  function MonthStart(m: nat): int
    requires 1 <= m <= 12
  {
    (153 * (if m > 2 then m - 3 else m + 9) + 2) / 5
  }

  /** Day number of 1 March of year `z`, shifted by the formula's epoch. */
  function YearStart(z: int): int {
    z / 400 * 146097 + z % 400 * 365 + z % 400 / 4 - z % 400 / 100
  }

  lemma FloorEra(y: int)
    ensures TruncDiv(if y >= 0 then y else y - 399, 400) == y / 400
  {
    if y < 0 {
      var q, r := y / 400, y % 400;
      assert 399 - y == 400 * (-q) + (399 - r);
      assert (399 - y) / 400 == -q;
    }
  }

  lemma SmallUnsigned(n: int)
    requires 0 <= n < 0x1_0000_0000
    ensures U32(n) == n
  {
  }

  /** Subtracting three from an unsigned month by adding its wrapped negative. */
  lemma ShiftedMonth(m: nat)
    requires 1 <= m <= 12
    ensures U32(m + U32(if m > 2 then -3 else 9)) == if m > 2 then m - 3 else m + 9
  {
    if m > 2 {
      assert U32(-3) == 0xFFFF_FFFD;
      assert m + 0xFFFF_FFFD == 0x1_0000_0000 + (m - 3);
    }
  }

  lemma DaysFormula(t: Date)
    requires ValidDate(t)
    ensures Days(t) == YearStart(t.y - if t.m <= 2 then 1 else 0) + MonthStart(t.m) + t.d - 1 - 719468
  {
    hide U32, TruncDiv;
    var y := t.y - if t.m <= 2 then 1 else 0;
    FloorEra(y);
    var yoe := y - y / 400 * 400;
    assert yoe == y % 400;
    SmallUnsigned(yoe);
    ShiftedMonth(t.m);
    var mp := if t.m > 2 then t.m - 3 else t.m + 9;
    SmallUnsigned(153 * mp);
    SmallUnsigned(153 * mp + 2);
    var doy := (153 * mp + 2) / 5 + t.d - 1;
    SmallUnsigned(doy);
    SmallUnsigned(yoe * 365 + yoe / 4 - yoe / 100 + doy);
  }

  lemma EraSplit(e: int, r: int)
    requires 0 <= r < 400
    ensures (400 * e + r) / 400 == e && (400 * e + r) % 400 == r
  {
  }

  lemma Mod4(k: int, r: int)
    ensures (4 * k + r) % 4 == r % 4
  {
  }

  lemma Mod100(k: int, r: int)
    ensures (100 * k + r) % 100 == r % 100
  {
  }

  lemma Mod400(k: int, r: int)
    ensures (400 * k + r) % 400 == r % 400
  {
  }

  lemma LeapInEra(e: int, r: int)
    ensures IsLeap(400 * e + r) <==> IsLeap(r)
  {
    var y := 400 * e + r;
    assert y % 4 == r % 4 by {
      Mod4(100 * e, r);
      assert 4 * (100 * e) + r == y;
    }
    assert y % 100 == r % 100 by {
      Mod100(4 * e, r);
      assert 100 * (4 * e) + r == y;
    }
    assert y % 400 == r % 400 by { Mod400(e, r); }
  }

  lemma NextQuotient4(r: nat)
    ensures (r + 1) / 4 == r / 4 + if (r + 1) % 4 == 0 then 1 else 0
  {
  }

  lemma NextQuotient100(r: nat)
    ensures (r + 1) / 100 == r / 100 + if (r + 1) % 100 == 0 then 1 else 0
    ensures (r + 1) % 100 == 0 ==> (r + 1) % 4 == 0
  {
    if (r + 1) % 100 == 0 {
      Mod4(25 * ((r + 1) / 100), 0);
    }
  }

  lemma YearInEra(r: int)
    requires 0 <= r < 400
    ensures r < 399 ==>
              (r + 1) * 365 + (r + 1) / 4 - (r + 1) / 100 ==
              r * 365 + r / 4 - r / 100 + if IsLeap(r + 1) then 366 else 365
    ensures r == 399 ==> 146097 == r * 365 + r / 4 - r / 100 + 366 && IsLeap(r + 1)
  {
    if r < 399 {
      NextQuotient4(r);
      NextQuotient100(r);
    }
  }

  lemma YearLength(z: int)
    ensures YearStart(z + 1) == YearStart(z) + if IsLeap(z + 1) then 366 else 365
  {
    hide IsLeap;
    var e, r := z / 400, z % 400;
    YearInEra(r);
    LeapInEra(e, r + 1);
    if r == 399 {
      EraSplit(e + 1, 0);
    } else {
      EraSplit(e, r + 1);
    }
  }

  lemma MonthLength(y: int, m: nat)
    requires 1 <= m <= 12 && m != 2
    ensures m < 12 ==> MonthStart(m + 1) == MonthStart(m) + DaysInMonth(y, m)
    ensures m == 12 ==> MonthStart(1) == MonthStart(12) + 31
  {
  }

  /** The count goes up by exactly one from each date to its successor, in any year. */
  lemma NextDayIsNext(t: Date)
    requires ValidDate(t)
    ensures Days(NextDay(t)) == Days(t) + 1
  {
    hide YearStart, Days;
    DaysFormula(t);
    DaysFormula(NextDay(t));
    if t.m == 2 {
      YearLength(t.y - 1);
      assert MonthStart(2) == 337 && MonthStart(3) == 0;
    } else {
      hide MonthStart;
      MonthLength(t.y, t.m);
    }
  }

  lemma Epoch()
    ensures Days(Date(1970, 1, 1)) == 0
  {
    hide Days;
    DaysFormula(Date(1970, 1, 1));
  }

  /** The date `n` days after 1 January 1970, counted one by one. */
  function DateOfDay(n: int): (t: Date)
    ensures ValidDate(t)
    decreases if n < 0 then -n else n
  {
    if n == 0 then Date(1970, 1, 1)
    else if n > 0 then NextDay(DateOfDay(n - 1))
    else PreviousDay(DateOfDay(n + 1))
  }

  /** Every day number is that of the date found by counting. */
  lemma {:induction false} DayCount(n: int)
    ensures Days(DateOfDay(n)) == n
    decreases if n < 0 then -n else n
  {
    hide Days;
    Epoch();
    if n > 0 {
      DayCount(n - 1);
      NextDayIsNext(DateOfDay(n - 1));
    } else if n < 0 {
      DayCount(n + 1);
      NextDayIsNext(DateOfDay(n));
    }
  }

  predicate Before(a: Date, b: Date) {
    a.y < b.y || (a.y == b.y && (a.m < b.m || (a.m == b.m && a.d < b.d)))
  }

  lemma {:induction false} YearsGrow(z: int, k: nat)
    ensures YearStart(z + k) >= YearStart(z) + 365 * k
    decreases k
  {
    if k > 0 {
      YearsGrow(z, k - 1);
      YearLength(z + k - 1);
    }
  }

  /** Later dates have larger counts, and so different dates different ones. */
  lemma DaysOrdered(a: Date, b: Date)
    requires ValidDate(a) && ValidDate(b)
    ensures Before(a, b) <==> Days(a) < Days(b)
    ensures a == b <==> Days(a) == Days(b)
  {
    if Before(a, b) { EarlierIsLess(a, b); }
    if Before(b, a) { EarlierIsLess(b, a); }
  }

  lemma EarlierIsLess(a: Date, b: Date)
    requires ValidDate(a) && ValidDate(b) && Before(a, b)
    ensures Days(a) < Days(b)
  {
    hide Days, YearStart;
    DaysFormula(a);
    DaysFormula(b);
    var za, zb := a.y - (if a.m <= 2 then 1 else 0), b.y - (if b.m <= 2 then 1 else 0);
    MonthBounds(a.y, a.m);
    MonthBounds(b.y, b.m);
    if za < zb {
      YearsGrow(za + 1, zb - za - 1);
      YearLength(za);
    } else if a.m != b.m || a.y != b.y {
      MonthsGrow(a.y, a.m, b.m);
    }
  }

  lemma MonthBounds(y: int, m: nat)
    requires 1 <= m <= 12
    ensures 0 <= MonthStart(m)
    ensures MonthStart(m) + DaysInMonth(y, m) <= 365 + (if m == 2 && IsLeap(y) then 1 else 0)
  {
  }

  /** Months of one March-to-February year. */
  lemma MonthsGrow(y: int, m: nat, n: nat)
    requires 1 <= m <= 12 && 1 <= n <= 12 && (if m > 2 then m - 3 else m + 9) < (if n > 2 then n - 3 else n + 9)
    ensures MonthStart(m) + DaysInMonth(y, m) <= MonthStart(n)
  {
  }

  /** The formula and counting days are inverse to each other. */
  lemma DateOfDaysIsDate(t: Date)
    requires ValidDate(t)
    ensures DateOfDay(Days(t)) == t
  {
    hide Days;
    DayCount(Days(t));
    DaysOrdered(DateOfDay(Days(t)), t);
  }

  // ---- the reader ------------------------------------------------------------------------------------------

  /** A character of a zero-terminated string, as a number relative to '0'. */
  function Num(s: string, i: nat): int {
    (if i < |s| then s[i] as int else 0) - '0' as int
  }

  predicate IsChar(s: string, i: nat, c: char) {
    i < |s| && s[i] == c
  }

  predicate IsDigit(s: string, i: nat) {
    i < |s| && '0' <= s[i] <= '9'
  }

  function Two(s: string, i: nat): int {
    Num(s, i) * 10 + Num(s, i + 1)
  }

  /** What the fraction digits from position `p` on add, when `i` of them have been read. */
  function Fraction(s: string, p: nat, i: nat): (int, nat)
    decreases |s| - p
  {
    if !IsDigit(s, p) then (0, p)
    else
      var (rest, q) := Fraction(s, p + 1, i + 1);
      ((if i < 3 then Num(s, p) * (if i == 0 then 100 else if i == 1 then 10 else 1) else 0) + rest, q)
  }

  function DatePart(s: string): int {
    DaysFromCivil(Num(s, 0) * 1000 + Num(s, 1) * 100 + Num(s, 2) * 10 + Num(s, 3), U32(Two(s, 5)), U32(Two(s, 8)))
    * 86400000
  }

  /** The time of day, if there is one, and where it ends. */
  function TimePart(s: string): (int, nat) {
    if IsChar(s, 10, 'T') || IsChar(s, 10, ' ') then
      var seconds := if IsChar(s, 16, ':') then Two(s, 17) else 0;
      var p := if IsChar(s, 16, ':') then 19 else 16;
      var ms := ((Two(s, 11) * 60 + Two(s, 14)) * 60 + seconds) * 1000;
      if IsChar(s, p, '.') then
        var (fraction, q) := Fraction(s, p + 1, 0);
        (ms + fraction, q)
      else (ms, p)
    else (0, 10)
  }

  function ZonePart(s: string, p: nat): int {
    if IsChar(s, p, '+') || IsChar(s, p, '-') then
      var minutes := if IsChar(s, p + 3, ':') then Two(s, p + 4) else Two(s, p + 3);
      (if IsChar(s, p, '+') then 1 else -1) * (Two(s, p + 1) * 60 + minutes) * 60000
    else 0
  }

  function IsoMs(s: string): int {
    var (time, p) := TimePart(s);
    DatePart(s) + time - ZonePart(s, p)
  }

  method IsoToMs(s: string) returns (ms: int)
    ensures ms == IsoMs(s)
  {
    hide DaysFromCivil, U32, Num, Two;
    var year := Num(s, 0) * 1000 + Num(s, 1) * 100 + Num(s, 2) * 10 + Num(s, 3);
    var month, day := Two(s, 5), Two(s, 8);
    ms := DaysFromCivil(year, U32(month), U32(day)) * 86400000;
    var p: nat := 10;
    if IsChar(s, p, 'T') || IsChar(s, p, ' ') {
      p := p + 1;
      var hour, minute := Two(s, p), Two(s, p + 3);
      p := p + 5;
      var second := 0;
      if IsChar(s, p, ':') {
        second := Two(s, p + 1);
        p := p + 3;
      }
      ms := ms + ((hour * 60 + minute) * 60 + second) * 1000;
      if IsChar(s, p, '.') {
        p := p + 1;
        ghost var total := ms + Fraction(s, p, 0).0;
        ghost var end := Fraction(s, p, 0).1;
        var w, i: nat := 100, 0;
        while IsDigit(s, p)
          invariant i < 3 ==> w == if i == 0 then 100 else if i == 1 then 10 else 1
          invariant total == ms + Fraction(s, p, i).0 && end == Fraction(s, p, i).1
          decreases |s| - p
        {
          if i < 3 {
            ms := ms + Num(s, p) * w;
            w := w / 10;
          }
          p := p + 1;
          i := i + 1;
        }
      }
    }
    if IsChar(s, p, '+') || IsChar(s, p, '-') {
      var sign := if IsChar(s, p, '+') then 1 else -1;
      p := p + 1;
      var oh := Two(s, p);
      var om := if IsChar(s, p + 2, ':') then Two(s, p + 3) else Two(s, p + 2);
      ms := ms - sign * (oh * 60 + om) * 60000;
    }
  }

  // ---- printing in the format of RFC 3339, section 5.6 ---------------------------------------------------------

  datatype Zone = Unsaid | Zulu | Offset(ahead: bool, hours: nat, minutes: nat)

  /** A timestamp in its printed parts; `fraction` are the digits after the point, if any. */
  datatype Stamp = Stamp(date: Date, hour: nat, minute: nat, second: nat, fraction: seq<nat>, zone: Zone)

  /** Ways to print one: whether there is a time of day, a blank rather than a `T` before it, seconds in it, and a
      colon in the offset. */
  datatype Style = Style(timed: bool, blank: bool, seconds: bool, colon: bool)

  /** That of the standard. */
  const RFC := Style(true, false, true, true)

  predicate ValidStamp(t: Stamp) {
    && ValidDate(t.date) && 0 <= t.date.y <= 9999
    && t.hour < 24 && t.minute < 60 && t.second < 60
    && (forall i :: 0 <= i < |t.fraction| ==> t.fraction[i] < 10)
    && (t.zone.Offset? ==> t.zone.hours < 24 && t.zone.minutes < 60)
  }

  function DigitChar(d: nat): char
    requires d < 10
  {
    ('0' as int + d) as char
  }

  function TwoDigits(n: nat): string
    requires n < 100
  {
    [DigitChar(n / 10), DigitChar(n % 10)]
  }

  function Digits(ds: seq<nat>): string
    requires forall i :: 0 <= i < |ds| ==> ds[i] < 10
  {
    if ds == [] then [] else [DigitChar(ds[0])] + Digits(ds[1..])
  }

  function PrintZone(z: Zone, colon: bool): string
    requires z.Offset? ==> z.hours < 24 && z.minutes < 60
  {
    match z
    case Unsaid => ""
    case Zulu => "Z"
    case Offset(ahead, hours, minutes) =>
      (if ahead then "+" else "-") + TwoDigits(hours) + (if colon then ":" else "") + TwoDigits(minutes)
  }

  function PrintDate(d: Date): string
    requires ValidDate(d) && 0 <= d.y <= 9999
  {
    TwoDigits(d.y / 100) + TwoDigits(d.y % 100) + "-" + TwoDigits(d.m) + "-" + TwoDigits(d.d)
  }

  function PrintClock(t: Stamp, style: Style): string
    requires ValidStamp(t)
  {
    (if style.blank then " " else "T") + TwoDigits(t.hour) + ":" + TwoDigits(t.minute)
    + if style.seconds then ":" + TwoDigits(t.second) else ""
  }

  function PrintFraction(ds: seq<nat>): string
    requires forall i :: 0 <= i < |ds| ==> ds[i] < 10
  {
    if ds == [] then "" else "." + Digits(ds)
  }

  function PrintAs(t: Stamp, style: Style): string
    requires ValidStamp(t)
  {
    PrintDate(t.date) + (if style.timed then PrintClock(t, style) + PrintFraction(t.fraction) else "")
    + PrintZone(t.zone, style.colon)
  }

  function Print(t: Stamp): string
    requires ValidStamp(t)
  {
    PrintAs(t, RFC)
  }

  /** The milliseconds a fraction stands for: digits beyond the third are dropped. */
  function FractionMs(ds: seq<nat>): nat {
    (if |ds| > 0 then ds[0] * 100 else 0) + (if |ds| > 1 then ds[1] * 10 else 0) + (if |ds| > 2 then ds[2] else 0)
  }

  function OffsetMs(z: Zone): int {
    match z
    case Offset(ahead, hours, minutes) => (if ahead then 1 else -1) * (hours * 60 + minutes) * 60000
    case _ => 0
  }

  /** The time of day in milliseconds, as far as it is printed. */
  function ClockMs(t: Stamp, style: Style): int {
    if !style.timed then 0
    else ((t.hour * 60 + t.minute) * 60 + if style.seconds then t.second else 0) * 1000 + FractionMs(t.fraction)
  }

  /** The instant a timestamp names when it is printed so. */
  function InstantAs(t: Stamp, style: Style): int
    requires ValidStamp(t)
  {
    Days(t.date) * 86400000 + ClockMs(t, style) - OffsetMs(t.zone)
  }

  /** The instant a timestamp names. */
  function Instant(t: Stamp): int
    requires ValidStamp(t)
  {
    InstantAs(t, RFC)
  }

  // ---- reading back what was printed ---------------------------------------------------------------------------

  lemma TwoAt(s: string, i: nat, n: nat)
    requires n < 100 && i + 2 <= |s| && s[i] == TwoDigits(n)[0] && s[i + 1] == TwoDigits(n)[1]
    ensures Two(s, i) == n
  {
  }

  lemma DateReads(d: Date, s: string)
    requires ValidDate(d) && 0 <= d.y <= 9999 && PrintDate(d) <= s
    ensures |PrintDate(d)| == 10
    ensures Num(s, 0) * 1000 + Num(s, 1) * 100 + Num(s, 2) * 10 + Num(s, 3) == d.y
    ensures Two(s, 5) == d.m && Two(s, 8) == d.d
  {
    var p := PrintDate(d);
    assert p[..10] == s[..10];
    TwoAt(s, 0, d.y / 100);
    TwoAt(s, 2, d.y % 100);
    TwoAt(s, 5, d.m);
    TwoAt(s, 8, d.d);
    assert Two(s, 0) == Num(s, 0) * 10 + Num(s, 1) && Two(s, 2) == Num(s, 2) * 10 + Num(s, 3);
  }

  lemma ClockReads(t: Stamp, style: Style, s: string)
    requires ValidStamp(t) && |s| >= 10 && PrintClock(t, style) <= s[10..]
    ensures |PrintClock(t, style)| == if style.seconds then 9 else 6
    ensures IsChar(s, 10, 'T') || IsChar(s, 10, ' ')
    ensures Two(s, 11) == t.hour && Two(s, 14) == t.minute
    ensures style.seconds ==> IsChar(s, 16, ':') && Two(s, 17) == t.second
  {
    var c, z := PrintClock(t, style), s[10..];
    assert forall k :: 0 <= k < |c| ==> s[10 + k] == z[k] == c[k];
    assert s[10] == c[0] && s[11] == c[1] && s[12] == c[2] && s[14] == c[4] && s[15] == c[5];
    TwoAt(s, 11, t.hour);
    TwoAt(s, 14, t.minute);
    if style.seconds {
      assert s[16] == c[6] && s[17] == c[7] && s[18] == c[8];
      TwoAt(s, 17, t.second);
    }
  }

  /** What the digits from the `i`-th on stand for. */
  function FractionFrom(ds: seq<nat>, i: nat): nat {
    (if i <= 0 < |ds| then ds[0] * 100 else 0) + (if i <= 1 < |ds| then ds[1] * 10 else 0)
    + (if i <= 2 < |ds| then ds[2] else 0)
  }

  lemma {:induction false} DigitsIndexed(ds: seq<nat>, i: nat)
    requires (forall j :: 0 <= j < |ds| ==> ds[j] < 10) && i < |ds|
    ensures |Digits(ds)| == |ds| && Digits(ds)[i] == DigitChar(ds[i])
  {
    if |ds| == 1 {
      assert Digits(ds[1..]) == [];
    } else if i > 0 {
      DigitsIndexed(ds[1..], i - 1);
    } else {
      DigitsIndexed(ds[1..], 0);
    }
  }

  lemma {:induction false} FractionReads(s: string, p: nat, ds: seq<nat>, i: nat)
    requires i <= |ds| && (forall j :: 0 <= j < |ds| ==> ds[j] < 10) && p + |ds| <= |s|
    requires forall j :: 0 <= j < |ds| ==> s[p + j] == DigitChar(ds[j])
    requires !IsDigit(s, p + |ds|)
    ensures Fraction(s, p + i, i) == (FractionFrom(ds, i), p + |ds|)
    decreases |ds| - i
  {
    if i < |ds| {
      assert s[p + i] == DigitChar(ds[i]);
      FractionReads(s, p, ds, i + 1);
    }
  }

  lemma ZoneReads(s: string, p: nat, z: Zone, colon: bool)
    requires z.Offset? ==> z.hours < 24 && z.minutes < 60
    requires p <= |s| && s[p..] == PrintZone(z, colon)
    ensures ZonePart(s, p) == OffsetMs(z) && !IsDigit(s, p)
    ensures !IsChar(s, p, '.') && !IsChar(s, p, ':') && !IsChar(s, p, 'T') && !IsChar(s, p, ' ')
  {
    var z' := s[p..];
    assert forall j :: 0 <= j < |z'| ==> s[p + j] == z'[j];
    match z
    case Unsaid =>
    case Zulu => assert s[p] == z'[0] == 'Z';
    case Offset(ahead, hours, minutes) =>
      assert s[p] == z'[0] && s[p + 1] == z'[1] && s[p + 2] == z'[2] && s[p + 3] == z'[3] && s[p + 4] == z'[4];
      TwoAt(s, p + 1, hours);
      if colon {
        assert s[p + 5] == z'[5];
        TwoAt(s, p + 4, minutes);
      } else {
        TwoAt(s, p + 3, minutes);
      }
  }

  /** The characters of a tail made of three parts. */
  lemma PartsAt(s: string, p: nat, f: string, zone: string)
    requires p <= |s| && s[p..] == "." + f + zone
    ensures p + 1 + |f| <= |s| && s[p] == '.'
    ensures forall j :: 0 <= j < |f| ==> s[p + 1 + j] == f[j]
    ensures s[p + 1 + |f|..] == zone
  {
    var tail := "." + f + zone;
    assert s[p] == tail[0];
    forall j | 0 <= j < |f| ensures s[p + 1 + j] == f[j] {
      assert s[p + 1 + j] == tail[1 + j];
    }
    assert s[p + 1 + |f|..] == tail[1 + |f|..];
  }

  lemma DigitsReads(s: string, p: nat, ds: seq<nat>)
    requires ds != [] && forall j :: 0 <= j < |ds| ==> ds[j] < 10
    requires p + |Digits(ds)| <= |s| && forall j :: 0 <= j < |Digits(ds)| ==> s[p + j] == Digits(ds)[j]
    requires !IsDigit(s, p + |Digits(ds)|)
    ensures Fraction(s, p, 0) == (FractionFrom(ds, 0), p + |Digits(ds)|)
  {
    DigitsIndexed(ds, 0);
    forall j | 0 <= j < |ds| ensures s[p + j] == DigitChar(ds[j]) {
      DigitsIndexed(ds, j);
    }
    FractionReads(s, p, ds, 0);
  }

  /** From position `p` on a fraction and the zone. */
  lemma FractionAndZone(s: string, p: nat, ds: seq<nat>, z: Zone, colon: bool)
    requires ds != [] && forall j :: 0 <= j < |ds| ==> ds[j] < 10
    requires z.Offset? ==> z.hours < 24 && z.minutes < 60
    requires p <= |s| && s[p..] == "." + Digits(ds) + PrintZone(z, colon)
    ensures !IsChar(s, p, ':') && IsChar(s, p, '.')
    ensures Fraction(s, p + 1, 0) == (FractionFrom(ds, 0), p + 1 + |Digits(ds)|)
    ensures ZonePart(s, p + 1 + |Digits(ds)|) == OffsetMs(z)
  {
    hide PrintZone, ZonePart, OffsetMs, Fraction, FractionFrom, Digits, IsDigit;
    PartsAt(s, p, Digits(ds), PrintZone(z, colon));
    ZoneReads(s, p + 1 + |Digits(ds)|, z, colon);
    DigitsReads(s, p + 1, ds);
  }

  lemma Cut(s: string, i: nat, a: string, b: string)
    requires i <= |s| && s[i..] == a + b
    ensures a <= s[i..] && i + |a| <= |s| && s[i + |a|..] == b
  {
    assert s[i + |a|..] == (a + b)[|a|..];
  }

  /** The time of day and the zone. */
  lemma TimeReads(t: Stamp, style: Style, s: string, tail: string)
    requires ValidStamp(t) && |s| >= 10 && s[10..] == PrintClock(t, style) + tail
    requires var zone := PrintZone(t.zone, style.colon);
             tail == if t.fraction == [] then zone else "." + Digits(t.fraction) + zone
    requires style.timed
    ensures TimePart(s).0 == ClockMs(t, style) && ZonePart(s, TimePart(s).1) == OffsetMs(t.zone)
  {
    assert FractionMs(t.fraction) == FractionFrom(t.fraction, 0) && (t.fraction == [] ==> FractionMs([]) == 0);
    hide PrintClock, PrintZone, OffsetMs, ZonePart, Fraction, FractionMs, FractionFrom, Digits, Two, IsDigit;
    var clock := PrintClock(t, style);
    Cut(s, 10, clock, tail);
    ClockReads(t, style, s);
    if t.fraction == [] {
      ZoneReads(s, 10 + |clock|, t.zone, style.colon);
    } else {
      FractionAndZone(s, 10 + |clock|, t.fraction, t.zone, style.colon);
    }
  }

  lemma PrintedParts(t: Stamp, style: Style)
    requires ValidStamp(t)
    ensures var s, zone := PrintAs(t, style), PrintZone(t.zone, style.colon);
            var tail := if t.fraction == [] then zone else "." + Digits(t.fraction) + zone;
            s == PrintDate(t.date) + if style.timed then PrintClock(t, style) + tail else zone
  {
    hide PrintDate, PrintClock, PrintZone, Digits;
  }

  /** Reading a printed timestamp gives the instant it names, in every style, whatever the zone and however many
      digits the fraction has; digits beyond the third are dropped. */
  lemma PrintThenRead(t: Stamp, style: Style)
    requires ValidStamp(t)
    ensures IsoMs(PrintAs(t, style)) == InstantAs(t, style)
  {
    hide DaysFromCivil, PrintAs, PrintDate, PrintClock, PrintZone, OffsetMs, ZonePart, TimePart, ClockMs, Digits;
    var s, d := PrintAs(t, style), PrintDate(t.date);
    var zone := PrintZone(t.zone, style.colon);
    var tail := if t.fraction == [] then zone else "." + Digits(t.fraction) + zone;
    var rest := if style.timed then PrintClock(t, style) + tail else zone;
    PrintedParts(t, style);
    assert d <= s && s[|d|..] == rest;
    DateReads(t.date, s);
    SmallUnsigned(t.date.m);
    SmallUnsigned(t.date.d);
    assert Days(t.date) == DaysFromCivil(t.date.y, t.date.m, t.date.d);
    if style.timed {
      TimeReads(t, style, s, tail);
    } else {
      ZoneReads(s, 10, t.zone, style.colon);
      NoTime(t, style, s);
    }
  }

  lemma NoTime(t: Stamp, style: Style, s: string)
    requires !style.timed && !IsChar(s, 10, 'T') && !IsChar(s, 10, ' ')
    ensures TimePart(s) == (0, 10) && ClockMs(t, style) == 0
  {
  }

  // ---- instants ------------------------------------------------------------------------------------------------

  const DAY_MS := 86400000

  /** An instant as a local time `offset` minutes ahead of UTC, printed with three fraction digits. */
  function StampOf(instant: int, offset: int): Stamp
    requires -1440 < offset < 1440
  {
    var local := instant + offset * 60000;
    var ms := local % DAY_MS;
    var size := if offset < 0 then -offset else offset;
    Stamp(DateOfDay(local / DAY_MS), ms / 3600000, ms / 60000 % 60, ms / 1000 % 60,
          [ms / 100 % 10, ms / 10 % 10, ms % 10],
          if offset == 0 then Zulu else Offset(offset > 0, size / 60, size % 60))
  }

  lemma ClockParts(ms: nat)
    requires ms < DAY_MS
    ensures ms / 3600000 < 24
    ensures ((ms / 3600000 * 60 + ms / 60000 % 60) * 60 + ms / 1000 % 60) * 1000
            + (ms / 100 % 10 * 100 + ms / 10 % 10 * 10 + ms % 10) == ms
  {
    var h, mi, se := ms / 3600000, ms / 60000, ms / 1000;
    assert se / 60 == mi && mi / 60 == h;
    assert ms / 10 / 10 == ms / 100 && ms / 100 / 10 == se;
  }

  /** Any instant whose local year has four digits, printed in any offset, reads back as that instant; so printings
      of one instant in different offsets agree. */
  lemma InstantRoundTrip(instant: int, offset: int)
    requires -1440 < offset < 1440 && 0 <= StampOf(instant, offset).date.y <= 9999
    ensures ValidStamp(StampOf(instant, offset))
    ensures IsoMs(Print(StampOf(instant, offset))) == instant
  {
    hide Days, DateOfDay, IsoMs, PrintAs;
    var local := instant + offset * 60000;
    var t := StampOf(instant, offset);
    DayCount(local / DAY_MS);
    ClockParts(local % DAY_MS);
    PrintThenRead(t, RFC);
    var size := if offset < 0 then -offset else offset;
    assert size / 60 * 60 + size % 60 == size;
    assert local / DAY_MS * DAY_MS + local % DAY_MS == local;
  }
}
