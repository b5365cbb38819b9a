/** Local calendar arithmetic on millisecond timestamps.  The host's time zone is a
    fixed offset east of UTC, so a local day is exactly 86,400,000 ms long. */
module LocalTime {
  import opened Common

  const HOUR: int := 3_600_000
  const DAY: int := 86_400_000

  datatype Zone = Zone(offset: int)

  /** `t` is the first millisecond of a local day. */
  predicate IsMidnight(z: Zone, t: int)
  {
    (t + z.offset) % DAY == 0
  }

  /** `new Date(d.getFullYear(), d.getMonth(), d.getDate())`: the local midnight
      that starts the day containing `t`. */
  function LocalMidnight(z: Zone, t: int): (m: int)
    ensures m <= t < m + DAY
    ensures IsMidnight(z, m)
  {
    t - (t + z.offset) % DAY
  }

  /** `d.getHours()` */
  function LocalHour(z: Zone, t: int): (h: int)
    ensures 0 <= h < 24
    ensures LocalMidnight(z, t) + h * HOUR <= t < LocalMidnight(z, t) + (h + 1) * HOUR
  {
    ((t + z.offset) % DAY) / HOUR
  }

  /** `d.getDay()`: 0 for Sunday through 6 for Saturday (1 January 1970 was a
      Thursday). */
  function Weekday(z: Zone, t: int): (d: int)
    ensures 0 <= d < 7
  {
    ((t + z.offset) / DAY + 4) % 7
  }

  /** Every instant of a local day has that day's midnight. */
  lemma MidnightOfDay(z: Zone, m: int, t: int)
    requires IsMidnight(z, m) && m <= t < m + DAY
    ensures LocalMidnight(z, t) == m
  {
    var q := (t + z.offset) / DAY;
    assert (m + z.offset) / DAY == q;
  }

  /** `setDate(getDate() + k)` on a local midnight moves it exactly `k` days and
      shifts the weekday by `k`. */
  lemma ShiftDays(z: Zone, m: int, k: int)
    requires IsMidnight(z, m)
    ensures IsMidnight(z, m + k * DAY)
    ensures LocalMidnight(z, m + k * DAY) == m + k * DAY
    ensures Weekday(z, m + k * DAY) == (Weekday(z, m) + k) % 7
  {
    var q := (m + z.offset) / DAY;
    assert m + z.offset == q * DAY;
    assert m + k * DAY + z.offset == (q + k) * DAY;
    assert (m + k * DAY + z.offset) / DAY == q + k;
    assert (m + k * DAY + z.offset) % DAY == 0;
  }

  /** The weekday of any instant is the weekday of its midnight. */
  lemma WeekdayOfMidnight(z: Zone, t: int)
    ensures Weekday(z, LocalMidnight(z, t)) == Weekday(z, t)
  {
    var m := LocalMidnight(z, t);
    assert (m + z.offset) / DAY == (t + z.offset) / DAY;
  }

  /** Moving any instant by `k` whole days moves its midnight by `k` days and its
      weekday by `k`. */
  lemma ShiftInstant(z: Zone, t: int, k: int)
    ensures LocalMidnight(z, t + k * DAY) == LocalMidnight(z, t) + k * DAY
    ensures Weekday(z, t + k * DAY) == (Weekday(z, t) + k) % 7
  {
    var m := LocalMidnight(z, t);
    ShiftDays(z, m, k);
    MidnightOfDay(z, m + k * DAY, t + k * DAY);
    WeekdayOfMidnight(z, t);
    WeekdayOfMidnight(z, t + k * DAY);
  }

  /** `d.toISOString().split('T')[0]`: the UTC calendar day of `t`, numbered from
      1 January 1970. */
  function UtcDay(t: int): int
  {
    t / DAY
  }

  /** `d.getUTCDay()` for an instant of UTC day `n`: 0 for Sunday through 6 for
      Saturday. */
  function UtcWeekday(n: int): (w: int)
    ensures 0 <= w < 7
  {
    (n + 4) % 7
  }

  /** Moving `k` days on moves the UTC weekday by `k`. */
  lemma UtcWeekdayShift(n: int, k: int)
    ensures UtcWeekday(n + k) == (UtcWeekday(n) + k) % 7
  {
    var q := (n + 4) / 7;
    assert n + 4 == q * 7 + UtcWeekday(n);
    assert n + k + 4 == q * 7 + (UtcWeekday(n) + k);
  }

  /** Whole-day shifts move the UTC calendar day by the same amount. */
  lemma UtcDayShift(t: int, k: int)
    ensures UtcDay(t + k * DAY) == UtcDay(t) + k
  {
    var q := t / DAY;
    var r := t % DAY;
    assert t == q * DAY + r;
    assert t + k * DAY == (q + k) * DAY + r;
  }

  // ---------------------------------------------------------------------------
  // `toISOString`

  const MINUTE: int := 60_000

  /** `d.getUTCHours()` and `d.getUTCMinutes()` */
  function UtcHour(t: int): (h: int)
    ensures 0 <= h < 24
  {
    (t % DAY) / HOUR
  }

  function UtcMinute(t: int): (m: int)
    ensures 0 <= m < 60
  {
    (t % HOUR) / MINUTE
  }

  /** A date of the proleptic Gregorian calendar. */
  datatype Civil = Civil(year: int, month: int, day: int)

  predicate IsLeapYear(y: int)
  {
    y % 4 == 0 && (y % 100 != 0 || y % 400 == 0)
  }

  function YearLength(y: int): int
  {
    if IsLeapYear(y) then 366 else 365
  }

  function DaysInMonth(y: int, m: int): int
  {
    if m == 2 then (if IsLeapYear(y) then 29 else 28)
    else if m == 4 || m == 6 || m == 9 || m == 11 then 30
    else 31
  }

  /** The days of year `y` from the start of month `m` to the end of the year. */
  function DaysFromMonth(y: int, m: int): int
    requires 1 <= m <= 13
    decreases 13 - m
  {
    if m == 13 then 0 else DaysInMonth(y, m) + DaysFromMonth(y, m + 1)
  }

  lemma MonthsFillYear(y: int)
    ensures DaysFromMonth(y, 1) == YearLength(y)
  {
    assert DaysFromMonth(y, 12) == 31;
    assert DaysFromMonth(y, 8) == 31 + 30 + 31 + 30 + 31;
    assert DaysFromMonth(y, 4) == 30 + 31 + 30 + 31 + DaysFromMonth(y, 8);
  }

  /** The year holding day `n` of a count that starts on 1 January of year `y`,
      and the index of the day within that year (the largest year whose start
      is not after the day). */
  function YearAndDay(n: int, y: int): (r: (int, int))
    ensures 0 <= r.1 < YearLength(r.0)
    decreases if n < 0 then 1 else 0, if n < 0 then -n else n
  {
    if n < 0 then YearAndDay(n + YearLength(y - 1), y - 1)
    else if n < YearLength(y) then (y, n)
    else YearAndDay(n - YearLength(y), y + 1)
  }

  /** The month holding day `d` of year `y`, counted from the start of month
      `m`, and the day of that month. */
  function MonthAndDay(y: int, d: int, m: int): (r: (int, int))
    requires 1 <= m <= 12 && 0 <= d < DaysFromMonth(y, m)
    ensures m <= r.0 <= 12 && 1 <= r.1 <= DaysInMonth(y, r.0)
    decreases 12 - m
  {
    if d < DaysInMonth(y, m) then (m, d + 1)
    else MonthAndDay(y, d - DaysInMonth(y, m), m + 1)
  }

  /** The proleptic Gregorian date of a UTC day number (days since 1 January
      1970), found by counting whole years and then whole months. */
  function CivilFromDays(n: int): (c: Civil)
    ensures 1 <= c.month <= 12 && 1 <= c.day <= DaysInMonth(c.year, c.month)
  {
    var (y, d) := YearAndDay(n, 1970);
    MonthsFillYear(y);
    var (m, day) := MonthAndDay(y, d, 1);
    Civil(y, m, day)
  }

  /** Day 0 is 1 January 1970, and day 31 is 1 February 1970. */
  lemma CivilEpoch()
    ensures CivilFromDays(0) == Civil(1970, 1, 1)
    ensures CivilFromDays(31) == Civil(1970, 2, 1)
  {
    MonthsFillYear(1970);
  }

  function Pow10(w: nat): (p: nat)
    ensures p >= 1
  {
    if w == 0 then 1 else 10 * Pow10(w - 1)
  }

  /** `String(n).padStart(w, '0')` for `n` below 10^w: exactly `w` digits whose
      value is `n`. */
  function Padded(n: nat, w: nat): (r: string)
    ensures |r| == w
    ensures forall i :: 0 <= i < |r| ==> IsDigit(r[i])
    ensures n < Pow10(w) ==> DigitsValue(r) == n
  {
    if w == 0 then []
    else
      var p := Padded(n / 10, w - 1);
      var r := p + [DigitChar(n % 10)];
      assert r[..|r| - 1] == p;
      r
  }

  /** The year of `toISOString`: four digits for years 0 through 9999, and a
      sign with six digits outside that range. */
  function YearText(y: int): (r: string)
    ensures 0 <= y <= 9999 ==> |r| == 4
    ensures |r| >= 4
  {
    if 0 <= y <= 9999 then Padded(y, 4)
    else if y < 0 then "-" + Padded(-y, 6)
    else "+" + Padded(y, 6)
  }

  /** `d.toISOString()` up to the minutes: `YYYY-MM-DDTHH:mm` in UTC. */
  function IsoHead(t: int): (r: string)
    ensures |r| >= 16
  {
    DayMinuteText(CivilFromDays(UtcDay(t)), UtcHour(t), UtcMinute(t))
  }

  function DayMinuteText(c: Civil, hour: nat, minute: nat): (r: string)
    requires 1 <= c.month <= 12 && 1 <= c.day <= 31
    ensures |r| >= 16
  {
    var pieces := DayMinutePieces(c, hour, minute);
    ConcatNine(pieces);
    Concat(pieces)
  }

  /** The fields and separators of `YYYY-MM-DDTHH:mm`, in order. */
  function DayMinutePieces(c: Civil, hour: nat, minute: nat): (ps: seq<string>)
    requires 1 <= c.month <= 12 && 1 <= c.day <= 31
    ensures |ps| == 9 && |ps[0]| >= 4
    ensures forall i :: 1 <= i < 9 ==> |ps[i]| == (if i % 2 == 0 then 2 else 1)
  {
    [YearText(c.year), "-", Padded(c.month, 2), "-", Padded(c.day, 2),
     "T", Padded(hour, 2), ":", Padded(minute, 2)]
  }

  /** The rest of `toISOString`: `:ss.sssZ`. */
  function IsoTail(t: int): (r: string)
    ensures |r| == 8
  {
    var pieces := [":", Padded((t % MINUTE) / 1000, 2), ".", Padded(t % 1000, 3), "Z"];
    ConcatStep(pieces, 4);
    ConcatStep(pieces, 3);
    ConcatStep(pieces, 2);
    ConcatStep(pieces, 1);
    ConcatStep(pieces, 0);
    Concat(pieces)
  }

  /** Texts laid end to end. */
  function Concat(pieces: seq<string>): string
  {
    if pieces == [] then "" else pieces[0] + Concat(pieces[1..])
  }

  lemma ConcatStep(pieces: seq<string>, k: nat)
    requires k < |pieces|
    ensures Concat(pieces[k..]) == pieces[k] + Concat(pieces[k + 1..])
  {
    assert pieces[k..][1..] == pieces[k + 1..];
  }

  /** Nine pieces laid end to end, spelled out. */
  lemma ConcatNine(ps: seq<string>)
    requires |ps| == 9
    ensures Concat(ps) == ps[0] + (ps[1] + (ps[2] + (ps[3] + (ps[4] + (ps[5] + (ps[6] + (ps[7] + ps[8])))))))
  {
    assert ps[9..] == [];
    ConcatStep(ps, 8);
    assert Concat(ps[8..]) == ps[8];
    ConcatStep(ps, 7);
    assert Concat(ps[7..]) == ps[7] + ps[8];
    ConcatStep(ps, 6);
    assert Concat(ps[6..]) == ps[6] + (ps[7] + ps[8]);
    ConcatStep(ps, 5);
    assert Concat(ps[5..]) == ps[5] + (ps[6] + (ps[7] + ps[8]));
    ConcatStep(ps, 4);
    assert Concat(ps[4..]) == ps[4] + (ps[5] + (ps[6] + (ps[7] + ps[8])));
    ConcatStep(ps, 3);
    assert Concat(ps[3..]) == ps[3] + (ps[4] + (ps[5] + (ps[6] + (ps[7] + ps[8]))));
    ConcatStep(ps, 2);
    assert Concat(ps[2..]) == ps[2] + (ps[3] + (ps[4] + (ps[5] + (ps[6] + (ps[7] + ps[8])))));
    ConcatStep(ps, 1);
    ConcatStep(ps, 0);
    assert ps[0..] == ps;
  }

  /** `d.toISOString()`: `YYYY-MM-DDTHH:mm:ss.sssZ` in UTC. */
  function IsoText(t: int): (r: string)
    ensures |r| >= 24
  {
    IsoHead(t) + IsoTail(t)
  }

  /** `d.toISOString().slice(0, 16)`, the text a `datetime-local` input takes. */
  function IsoMinuteText(t: int): (r: string)
    ensures |r| == 16
  {
    IsoText(t)[..16]
  }

  /** For the years 0 through 9999 the minute text is `YYYY-MM-DDTHH:mm`: its
      fields read back with `parseInt` as the UTC date, hour and minute of `t`. */
  lemma IsoMinuteFields(t: int)
    ensures var c := CivilFromDays(UtcDay(t));
      var r := IsoMinuteText(t);
      0 <= c.year <= 9999 ==>
        r[4] == '-' && r[7] == '-' && r[10] == 'T' && r[13] == ':'
        && ParseInt(r[..4]) == Some(c.year)
        && ParseInt(r[5..7]) == Some(c.month)
        && ParseInt(r[8..10]) == Some(c.day)
        && ParseInt(r[11..13]) == Some(UtcHour(t))
        && ParseInt(r[14..16]) == Some(UtcMinute(t))
  {
    var c := CivilFromDays(UtcDay(t));
    if 0 <= c.year <= 9999 {
      IsoMinuteIsHead(t);
      DayMinuteFields(c, UtcHour(t), UtcMinute(t));
    }
  }

  lemma DayMinuteFields(c: Civil, hour: nat, minute: nat)
    requires 1 <= c.month <= 12 && 1 <= c.day <= 31
    requires hour < 24 && minute < 60
    ensures var r := DayMinuteText(c, hour, minute);
      0 <= c.year <= 9999 ==>
        r[..16] == r
        && r[4] == '-' && r[7] == '-' && r[10] == 'T' && r[13] == ':'
        && ParseInt(r[..4]) == Some(c.year)
        && ParseInt(r[5..7]) == Some(c.month)
        && ParseInt(r[8..10]) == Some(c.day)
        && ParseInt(r[11..13]) == Some(hour)
        && ParseInt(r[14..16]) == Some(minute)
  {
    if 0 <= c.year <= 9999 {
      var y, mo, d := Padded(c.year, 4), Padded(c.month, 2), Padded(c.day, 2);
      var h, mi := Padded(hour, 2), Padded(minute, 2);
      ConcatNine(DayMinutePieces(c, hour, minute));
      HeadPieces(y, mo, d, h, mi);
      assert Pow10(2) == 100 && Pow10(4) == 10000;
      PaddedParse(c.year, 4);
      PaddedParse(c.month, 2);
      PaddedParse(c.day, 2);
      PaddedParse(hour, 2);
      PaddedParse(minute, 2);
    }
  }

  lemma IsoMinuteIsHead(t: int)
    ensures IsoMinuteText(t) == IsoHead(t)[..16]
  {
    PrefixOfConcat(IsoHead(t), IsoTail(t), 16);
  }

  lemma PrefixOfConcat(a: string, b: string, k: nat)
    requires k <= |a|
    ensures (a + b)[..k] == a[..k]
  {
  }

  lemma PaddedParse(n: nat, w: nat)
    requires 1 <= w && n < Pow10(w)
    ensures ParseInt(Padded(n, w)) == Some(n)
  {
    UnsignedDigitsParse(Padded(n, w));
  }

  /** Where each field sits in `YYYY-MM-DDTHH:mm`. */
  lemma HeadPieces(y: string, mo: string, d: string, h: string, mi: string)
    requires |y| == 4 && |mo| == 2 && |d| == 2 && |h| == 2 && |mi| == 2
    ensures var r := y + ("-" + (mo + ("-" + (d + ("T" + (h + (":" + mi)))))));
      |r| == 16 && r[..16] == r
      && r[4] == '-' && r[7] == '-' && r[10] == 'T' && r[13] == ':'
      && r[..4] == y && r[5..7] == mo && r[8..10] == d && r[11..13] == h && r[14..16] == mi
  {
  }

  /** The minute text drops the seconds and milliseconds. */
  lemma IsoMinuteDropsSeconds(t: int)
    ensures IsoMinuteText(t - t % MINUTE) == IsoMinuteText(t)
  {
    var u := t - t % MINUTE;
    TruncationKeepsMinute(t);
    IsoMinuteIsHead(u);
    IsoMinuteIsHead(t);
  }

  lemma TruncationKeepsMinute(t: int)
    ensures var u := t - t % MINUTE;
      UtcDay(u) == UtcDay(t) && UtcHour(u) == UtcHour(t) && UtcMinute(u) == UtcMinute(t)
  {
    var s := t % MINUTE;
    var q := t / MINUTE;
    var a, b := q / 1440, q % 1440;
    var c, e := b / 60, b % 60;
    assert t == a * DAY + c * HOUR + e * MINUTE + s;
    TimeFields(t, a, c, e, s);
    TimeFields(t - s, a, c, e, 0);
  }

  /** The UTC day, hour and minute of `a` days, `c` hours, `e` minutes and
      `s` milliseconds after the epoch. */
  lemma TimeFields(t: int, a: int, c: int, e: int, s: int)
    requires 0 <= c < 24 && 0 <= e < 60 && 0 <= s < MINUTE
    requires t == a * DAY + c * HOUR + e * MINUTE + s
    ensures UtcDay(t) == a && UtcHour(t) == c && UtcMinute(t) == e
  {
    var m := e * MINUTE + s;
    var h := c * HOUR + m;
    WholeUnits(t, a, h, DAY);
    WholeUnits(h, c, m, HOUR);
    WholeUnits(t, a * 24 + c, m, HOUR);
    WholeUnits(m, e, s, MINUTE);
  }

  /** `q` whole units of `d` and a remainder `r` below `d`: `/` and `%` give them back. */
  lemma WholeUnits(n: int, q: int, r: int, d: int)
    requires d == DAY || d == HOUR || d == MINUTE
    requires n == q * d + r && 0 <= r < d
    ensures n / d == q && n % d == r
  {
    if d == DAY {
      assert n == q * DAY + r;
    } else if d == HOUR {
      assert n == q * HOUR + r;
    } else {
      assert n == q * MINUTE + r;
    }
  }

  /** On a host a whole number of hours east of UTC, and less than a day, the
      local hour is the UTC hour moved by the offset, and never equal to it. */
  lemma LocalHourIsShiftedUtcHour(z: Zone, t: int)
    requires 0 < z.offset < DAY && z.offset % HOUR == 0
    ensures LocalHour(z, t) == (UtcHour(t) + z.offset / HOUR) % 24
    ensures LocalHour(z, t) != UtcHour(t)
  {
    var k := z.offset / HOUR;
    var h := UtcHour(t);
    var r := t % HOUR;
    assert t % DAY == h * HOUR + r;
    assert t == (t / DAY) * DAY + h * HOUR + r;
    assert t + z.offset == (t / DAY) * DAY + (h + k) * HOUR + r;
    var w := (h + k) % 24;
    assert (h + k) == ((h + k) / 24) * 24 + w;
    assert t + z.offset == (t / DAY + (h + k) / 24) * DAY + w * HOUR + r;
    assert (t + z.offset) % DAY == w * HOUR + r;
  }
}
