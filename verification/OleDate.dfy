/** The OLE Automation DATE as text: days since 1899-12-30, the fraction measured forward from
    midnight, rendered as the extended date and time of ISO 8601 without a zone. DATEs are exact
    rationals here. */
module OleDate {
  import opened Calendar

  datatype Problem = BadShape | NotNumeric | OutOfRange | NoSuchTime | NoSuchDate
  datatype Parsed = Ok(date: real) | Err(problem: Problem)

  const OLE_EPOCH_UNIX_DAYS := -25569

  // --- decimal fields -------------------------------------------------------------------------

  function Digit(n: nat): char
    requires n < 10
  {
    '0' + n as char
  }

  predicate IsDigit(c: char) {
    '0' <= c <= '9'
  }

  predicate AllDigits(s: string) {
    forall c <- s :: IsDigit(c)
  }

  /** Decimal digits, padded with zeros to at least `w` characters. */
  function Padded(n: nat, w: nat): string
    decreases n, w
  {
    if n < 10 && w <= 1 then [Digit(n)]
    else Padded(n / 10, if w > 0 then w - 1 else 0) + [Digit(n % 10)]
  }

  /** The same with a sign, which counts towards the width. */
  function Signed(n: int, w: nat): string {
    if n < 0 then "-" + Padded(-n, if w > 0 then w - 1 else 0) else Padded(n, w)
  }

  function Value(s: string): nat
    requires AllDigits(s)
  {
    if s == "" then 0
    else
      var last := s[|s| - 1];
      assert IsDigit(last);
      10 * Value(s[..|s| - 1]) + (last as int - '0' as int)
  }

  function Pow10(w: nat): nat {
    if w == 0 then 1 else 10 * Pow10(w - 1)
  }

  lemma {:induction false} ReadsPadded(n: nat, w: nat)
    requires w >= 1 && n < Pow10(w)
    ensures |Padded(n, w)| == w && AllDigits(Padded(n, w)) && Value(Padded(n, w)) == n
    decreases w
  {
    if w > 1 {
      ReadsPadded(n / 10, w - 1);
      assert Padded(n, w)[..w - 1] == Padded(n / 10, w - 1);
    }
  }

  lemma {:induction false} PadsRead(s: string)
    requires s != "" && AllDigits(s)
    ensures Padded(Value(s), |s|) == s && Value(s) < Pow10(|s|)
    decreases |s|
  {
    var front := s[..|s| - 1];
    assert IsDigit(s[|s| - 1]);
    if front != "" {
      PadsRead(front);
      assert Value(s) / 10 == Value(front);
      assert s == front + [s[|s| - 1]];
    }
  }

  // --- rendering and parsing ------------------------------------------------------------------

  function Trunc(x: real): int {
    if x >= 0.0 then x.Floor else -(-x).Floor
  }

  function Abs(x: real): real {
    if x >= 0.0 then x else -x
  }

  function Join(y: string, m: string, d: string, h: string, mi: string, s: string): string {
    y + "-" + m + "-" + d + "T" + h + ":" + mi + ":" + s
  }

  /** A date and a second of its day, as text. */
  function Render(c: Civil, secs: int): string
    requires 1 <= c.m && 1 <= c.d && 0 <= secs
  {
    Join(Signed(c.y, 4), Padded(c.m, 2), Padded(c.d, 2),
      Padded(secs / 3600, 2), Padded(secs % 3600 / 60, 2), Padded(secs % 60, 2))
  }

  /** The day and the second that a DATE is rendered as: the second is rounded, half away from
      zero, and a full day of seconds carries. */
  function DayAndSecond(x: real): (int, int) {
    var days := Trunc(x);
    var secs := (Abs(x - days as real) * 86400.0 + 0.5).Floor;
    if secs >= 86400 then (days + 1, secs - 86400) else (days, secs)
  }

  lemma SecondInRange(x: real)
    ensures 0 <= DayAndSecond(x).1 < 86400
  {
    var f := Abs(x - Trunc(x) as real);
    assert 0.0 <= f < 1.0;
    assert 0.0 <= f * 86400.0 < 86400.0;
  }

  function Format(x: real): string {
    var (days, secs) := DayAndSecond(x);
    var c := CivilFromDays(days + OLE_EPOCH_UNIX_DAYS);
    assert 1 <= c.m && 1 <= c.d by { AlwaysADate(days + OLE_EPOCH_UNIX_DAYS); }
    assert 0 <= secs by { SecondInRange(x); }
    Render(c, secs)
  }

  predicate WellShaped(s: string) {
    |s| == 19 && s[4] == '-' && s[7] == '-' && s[10] == 'T' && s[13] == ':' && s[16] == ':'
  }

  /** Only the year may carry a sign, and only a minus. */
  predicate YearField(s: string) {
    |s| == 4 && (IsDigit(s[0]) || s[0] == '-') && AllDigits(s[1..])
  }

  function YearValue(s: string): int
    requires YearField(s)
  {
    if s[0] == '-' then -(Value(s[1..]) as int)
    else assert AllDigits(s); Value(s)
  }

  /** The DATE of second `secs` of day `oleDays`: before the epoch the fraction is subtracted. */
  function DateOf(oleDays: int, secs: int): real {
    var frac := secs as real / 86400.0;
    if oleDays < 0 then oleDays as real - frac else oleDays as real + frac
  }

  predicate NumericFields(s: string)
    requires |s| == 19
  {
    && YearField(s[0..4]) && AllDigits(s[5..7]) && AllDigits(s[8..10])
    && AllDigits(s[11..13]) && AllDigits(s[14..16]) && AllDigits(s[17..19])
  }

  datatype Stamp = Stamp(c: Civil, hour: int, minute: int, second: int)

  function Read(s: string): Stamp
    requires |s| == 19 && NumericFields(s)
  {
    Stamp(
      Civil(YearValue(s[0..4]), Value(s[5..7]), Value(s[8..10])),
      Value(s[11..13]), Value(s[14..16]), Value(s[17..19]))
  }

  function Check(t: Stamp): Parsed {
    if !(1 <= t.c.m <= 12) || !(1 <= t.c.d <= 31) then Err(OutOfRange)
    else if !(0 <= t.hour < 24 && 0 <= t.minute < 60 && 0 <= t.second < 60) then Err(NoSuchTime)
    else if CivilFromDays(DaysFromCivil(t.c)) != t.c then Err(NoSuchDate)
    else Ok(DateOf(DaysFromCivil(t.c) - OLE_EPOCH_UNIX_DAYS, t.hour * 3600 + t.minute * 60 + t.second))
  }

  function Parse(s: string): Parsed {
    if !WellShaped(s) then Err(BadShape)
    else if !NumericFields(s) then Err(NotNumeric)
    else Check(Read(s))
  }

  // --- a DATE on a whole second ---------------------------------------------------------------

  lemma SplitDate(oleDays: int, secs: int)
    requires 0 <= secs < 86400
    ensures DayAndSecond(DateOf(oleDays, secs)) == (oleDays, secs)
  {
    var frac := secs as real / 86400.0;
    assert 0.0 <= frac < 1.0 && frac * 86400.0 == secs as real;
    var x := DateOf(oleDays, secs);
    if oleDays < 0 {
      assert -x == (-oleDays) as real + frac && (-x).Floor == -oleDays;
    } else {
      assert x.Floor == oleDays;
    }
    assert Trunc(x) == oleDays && Abs(x - oleDays as real) == frac;
  }

  lemma FormatDate(c: Civil, secs: int)
    requires IsDate(c) && 0 <= secs < 86400
    ensures Format(DateOf(DaysFromCivil(c) - OLE_EPOCH_UNIX_DAYS, secs)) == Render(c, secs)
  {
    SplitDate(DaysFromCivil(c) - OLE_EPOCH_UNIX_DAYS, secs);
    CivilOfDays(c);
  }

  lemma Joined(y: string, m: string, d: string, h: string, mi: string, s: string)
    requires |y| == 4 && |m| == |d| == |h| == |mi| == |s| == 2
    ensures var t := Join(y, m, d, h, mi, s);
      && WellShaped(t) && t[0..4] == y && t[5..7] == m && t[8..10] == d
      && t[11..13] == h && t[14..16] == mi && t[17..19] == s
  {
    var t := Join(y, m, d, h, mi, s);
    var date := y + "-" + m + "-" + d;
    assert |date| == 10 && date[0..4] == y && date[5..7] == m && date[8..10] == d && date[4] == date[7] == '-';
    var clock := h + ":" + mi + ":" + s;
    assert |clock| == 8 && clock[0..2] == h && clock[3..5] == mi && clock[6..8] == s && clock[2] == clock[5] == ':';
    assert t == date + "T" + clock;
    Shifted(date + "T", clock);
    assert t[..10] == date && t[10] == 'T';
    assert t[0..4] == date[0..4] && t[5..7] == date[5..7] && t[8..10] == date[8..10];
  }

  lemma Shifted(front: string, back: string)
    requires |front| == 11 && |back| == 8
    ensures var t := front + back;
      && t[11..13] == back[0..2] && t[14..16] == back[3..5] && t[17..19] == back[6..8]
      && t[13] == back[2] && t[16] == back[5]
  {
  }

  lemma Rejoined(t: string)
    requires WellShaped(t)
    ensures t == Join(t[0..4], t[5..7], t[8..10], t[11..13], t[14..16], t[17..19])
  {
  }

  lemma YearReads(y: int)
    requires -999 <= y <= 9999
    ensures YearField(Signed(y, 4)) && YearValue(Signed(y, 4)) == y && |Signed(y, 4)| == 4
  {
    assert Pow10(3) == 1000 && Pow10(4) == 10000;
    if y < 0 {
      ReadsPadded(-y, 3);
      assert Signed(y, 4)[1..] == Padded(-y, 3);
    } else {
      ReadsPadded(y, 4);
    }
  }

  lemma TwoDigits(n: int)
    requires 0 <= n < 100
    ensures |Padded(n, 2)| == 2 && AllDigits(Padded(n, 2)) && Value(Padded(n, 2)) == n
  {
    assert Pow10(2) == 100;
    ReadsPadded(n, 2);
  }

  lemma ReadRendered(c: Civil, secs: int)
    requires IsDate(c) && -999 <= c.y <= 9999 && 0 <= secs < 86400
    ensures var s := Render(c, secs);
      WellShaped(s) && NumericFields(s) && Read(s) == Stamp(c, secs / 3600, secs % 3600 / 60, secs % 60)
  {
    YearReads(c.y);
    TwoDigits(c.m);
    TwoDigits(c.d);
    TwoDigits(secs / 3600);
    TwoDigits(secs % 3600 / 60);
    TwoDigits(secs % 60);
    Joined(Signed(c.y, 4), Padded(c.m, 2), Padded(c.d, 2),
      Padded(secs / 3600, 2), Padded(secs % 3600 / 60, 2), Padded(secs % 60, 2));
  }

  lemma ClockParts(secs: int)
    requires 0 <= secs < 86400
    ensures 0 <= secs / 3600 < 24 && 0 <= secs % 3600 / 60 < 60 && 0 <= secs % 60 < 60
    ensures secs / 3600 * 3600 + secs % 3600 / 60 * 60 + secs % 60 == secs
  {
  }

  lemma CheckSecond(c: Civil, secs: int)
    requires IsDate(c) && 0 <= secs < 86400
    ensures Check(Stamp(c, secs / 3600, secs % 3600 / 60, secs % 60))
      == Ok(DateOf(DaysFromCivil(c) - OLE_EPOCH_UNIX_DAYS, secs))
  {
    CivilOfDays(c);
    ClockParts(secs);
  }

  lemma CivilRoundTrip(c: Civil, secs: int)
    requires IsDate(c) && -999 <= c.y <= 9999 && 0 <= secs < 86400
    ensures var x := DateOf(DaysFromCivil(c) - OLE_EPOCH_UNIX_DAYS, secs);
      Format(x) == Render(c, secs) && Parse(Format(x)) == Ok(x)
  {
    FormatDate(c, secs);
    ReadRendered(c, secs);
    CheckSecond(c, secs);
  }

  // --- counted from the epoch -----------------------------------------------------------------

  /** The day `n` days after 1899-12-30, one calendar day at a time. */
  function DayAt(n: int): Civil
    decreases if n >= 0 then n else -n
  {
    if n == 0 then Civil(1899, 12, 30) else if n > 0 then NextDay(DayAt(n - 1)) else PreviousDay(DayAt(n + 1))
  }

  lemma EpochIsDayAtZero()
    ensures CivilFromDays(OLE_EPOCH_UNIX_DAYS) == Civil(1899, 12, 30)
  {
    CivilOfDays(Civil(1899, 12, 30));
  }

  lemma {:induction false} DayAtIsCivil(n: int)
    ensures DayAt(n) == CivilFromDays(n + OLE_EPOCH_UNIX_DAYS) && IsDate(DayAt(n))
    decreases if n >= 0 then n else -n
  {
    hide CivilFromDays, NextDay, PreviousDay, IsDate;
    var k := n + OLE_EPOCH_UNIX_DAYS;
    DaysOfCivil(k);
    if n == 0 {
      EpochIsDayAtZero();
    } else if n > 0 {
      DayAtIsCivil(n - 1);
      DaysOfCivil(k - 1);
    } else {
      DayAtIsCivil(n + 1);
      NextThenPrevious(CivilFromDays(k));
    }
  }

  /** Every second of every day of the years -999 to 9999, counted from 1899-12-30 in either direction:
      a whole number is midnight, the fraction is the time of day and is measured away from zero; the
      DATE is written as that day and second, and comes back from the text. */
  lemma DateRoundTrip(n: int, secs: int)
    requires 0 <= secs < 86400 && -999 <= DayAt(n).y <= 9999
    ensures IsDate(DayAt(n))
    ensures var frac := secs as real / 86400.0; var x := if n < 0 then n as real - frac else n as real + frac;
      Format(x) == Render(DayAt(n), secs) && Parse(Format(x)) == Ok(x)
  {
    hide DayAt, Format, Parse, Render, IsDate, CivilFromDays, DaysFromCivil;
    DayAtIsCivil(n);
    DaysOfCivil(n + OLE_EPOCH_UNIX_DAYS);
    CivilRoundTrip(DayAt(n), secs);
  }

  /** The text, character by character: which day and second it says. */
  lemma TextSays(c: Civil, secs: int)
    requires IsDate(c) && -999 <= c.y <= 9999 && 0 <= secs < 86400
    ensures var s := Render(c, secs);
      && |s| == 19 && s[4] == '-' && s[7] == '-' && s[10] == 'T' && s[13] == ':' && s[16] == ':'
      && NumericFields(s) && YearValue(s[0..4]) == c.y && Value(s[5..7]) == c.m && Value(s[8..10]) == c.d
      && Value(s[11..13]) * 3600 + Value(s[14..16]) * 60 + Value(s[17..19]) == secs
      && Value(s[14..16]) < 60 && Value(s[17..19]) < 60
  {
    ReadRendered(c, secs);
    ClockParts(secs);
  }

  /** DATE 0.0 is midnight of 1899-12-30, both ways. */
  lemma EpochText()
    ensures Format(0.0) == "1899-12-30T00:00:00" && Parse("1899-12-30T00:00:00") == Ok(0.0)
  {
    hide Format, Parse, Render;
    DateRoundTrip(0, 0);
    EpochRendered();
  }

  lemma EpochRendered()
    ensures Render(Civil(1899, 12, 30), 0) == "1899-12-30T00:00:00"
  {
    hide Padded;
    EpochDigits();
  }

  lemma EpochDigits()
    ensures Padded(1899, 4) == "1899" && Padded(12, 2) == "12" && Padded(30, 2) == "30" && Padded(0, 2) == "00"
  {
    assert Padded(1, 1) == "1" && Padded(18, 2) == "18" && Padded(189, 3) == "189";
    assert Padded(3, 1) == "3" && Padded(0, 1) == "0";
  }

  // --- texts ----------------------------------------------------------------------------------

  lemma YearRewrites(s: string)
    requires YearField(s)
    ensures -999 <= YearValue(s) <= 9999
    ensures Signed(YearValue(s), 4) == s <==> s != "-000"
  {
    assert Pow10(3) == 1000 && Pow10(4) == 10000;
    if s[0] == '-' {
      PadsRead(s[1..]);
      assert s == "-" + s[1..];
      ReadsPadded(0, 4);
      assert Padded(0, 3) == "000" by { assert Padded(0, 2) == "00" && Padded(0, 1) == "0"; }
      assert Padded(0, 4)[0] == '0';
    } else {
      PadsRead(s);
    }
  }

  predicate InRange(t: Stamp) {
    IsDate(t.c) && -999 <= t.c.y <= 9999 && 0 <= t.hour < 24 && 0 <= t.minute < 60 && 0 <= t.second < 60
  }

  function SecondOf(t: Stamp): int {
    t.hour * 3600 + t.minute * 60 + t.second
  }

  lemma AcceptedIsInRange(s: string)
    requires Parse(s).Ok?
    ensures InRange(Read(s))
    ensures Parse(s).date == DateOf(DaysFromCivil(Read(s).c) - OLE_EPOCH_UNIX_DAYS, SecondOf(Read(s)))
  {
    RoundTripAcceptsDates(Read(s).c);
    YearRewrites(s[0..4]);
  }

  lemma FieldsRewrite(s: string)
    requires WellShaped(s) && NumericFields(s) && InRange(Read(s))
    ensures var t := Read(s);
      Render(t.c, SecondOf(t)) == Join(Signed(t.c.y, 4), s[5..7], s[8..10], s[11..13], s[14..16], s[17..19])
  {
    var t := Read(s);
    assert SecondOf(t) / 3600 == t.hour && SecondOf(t) % 3600 / 60 == t.minute && SecondOf(t) % 60 == t.second;
    PadsRead(s[5..7]);
    PadsRead(s[8..10]);
    PadsRead(s[11..13]);
    PadsRead(s[14..16]);
    PadsRead(s[17..19]);
  }

  lemma RenderRewrites(s: string)
    requires WellShaped(s) && NumericFields(s) && InRange(Read(s))
    ensures Render(Read(s).c, SecondOf(Read(s))) == s <==> s[..4] != "-000"
  {
    var y := Signed(Read(s).c.y, 4);
    FieldsRewrite(s);
    YearRewrites(s[0..4]);
    YearReads(Read(s).c.y);
    Rejoined(s);
    Joined(y, s[5..7], s[8..10], s[11..13], s[14..16], s[17..19]);
    assert s[0..4] == s[..4];
  }

  lemma AcceptedStamp(s: string) returns (t: Stamp, x: real)
    requires Parse(s).Ok?
    ensures x == Parse(s).date == DateOf(DaysFromCivil(t.c) - OLE_EPOCH_UNIX_DAYS, SecondOf(t))
    ensures IsDate(t.c) && 0 <= SecondOf(t) < 86400
    ensures Render(t.c, SecondOf(t)) == s <==> s[..4] != "-000"
  {
    t, x := Read(s), Parse(s).date;
    AcceptedIsInRange(s);
    RenderRewrites(s);
  }

  lemma FormatsBack(t: Stamp, x: real, s: string)
    requires x == DateOf(DaysFromCivil(t.c) - OLE_EPOCH_UNIX_DAYS, SecondOf(t))
    requires IsDate(t.c) && 0 <= SecondOf(t) < 86400
    ensures Format(x) == s <==> Render(t.c, SecondOf(t)) == s
  {
    FormatDate(t.c, SecondOf(t));
  }

  /** Every accepted text reformats to itself, except when its year is written `-000`. */
  lemma TextRoundTrip(s: string)
    ensures Parse(s).Ok? ==> |s| == 19 && (Format(Parse(s).date) == s <==> s[..4] != "-000")
  {
    if Parse(s).Ok? {
      var t, x := AcceptedStamp(s);
      FormatsBack(t, x, s);
    }
  }

  lemma StampReparses(t: Stamp, x: real)
    requires InRange(t) && x == DateOf(DaysFromCivil(t.c) - OLE_EPOCH_UNIX_DAYS, SecondOf(t))
    ensures Parse(Format(x)) == Ok(x)
  {
    CivilRoundTrip(t.c, SecondOf(t));
  }

  lemma AcceptedInstant(s: string) returns (t: Stamp)
    requires Parse(s).Ok?
    ensures InRange(t) && Parse(s).date == DateOf(DaysFromCivil(t.c) - OLE_EPOCH_UNIX_DAYS, SecondOf(t)) && |s| == 19
  {
    t := Read(s);
    AcceptedIsInRange(s);
  }

  /** And in every case, what it reformats to parses to the same DATE. */
  lemma Reparses(s: string)
    ensures Parse(s).Ok? ==> Parse(Format(Parse(s).date)) == Parse(s)
  {
    if Parse(s).Ok? {
      var t := AcceptedInstant(s);
      StampReparses(t, Parse(s).date);
    }
  }

  ghost predicate IsRendering(s: string, c: Civil, secs: int) {
    IsDate(c) && -999 <= c.y <= 9999 && 0 <= secs < 86400 && s == Render(c, secs)
  }

  /** The other spelling of the year 0 is read like the usual one. */
  function Respelled(s: string): string {
    if |s| >= 4 && s[..4] == "-000" then "0000" + s[4..] else s
  }

  lemma RespelledParses(s: string)
    ensures Parse(Respelled(s)) == Parse(s)
  {
    if Respelled(s) != s {
      var t := Respelled(s);
      assert forall i | 4 <= i < |s| :: t[i] == s[i];
      if |s| == 19 {
        SameFields(s, t);
      }
    }
  }

  lemma SameFields(s: string, t: string)
    requires |s| == |t| == 19 && s[0..4] == "-000" && t[0..4] == "0000" && forall i | 4 <= i < 19 :: t[i] == s[i]
    ensures Parse(t) == Parse(s)
  {
    assert t[5..7] == s[5..7] && t[8..10] == s[8..10] && t[11..13] == s[11..13];
    assert t[14..16] == s[14..16] && t[17..19] == s[17..19];
    ZeroYears();
    assert WellShaped(s) <==> WellShaped(t);
    if WellShaped(s) && NumericFields(s) {
      assert Read(t) == Read(s);
    }
  }

  lemma ZeroYears()
    ensures YearField("-000") && YearField("0000") && YearValue("-000") == YearValue("0000") == 0
  {
    assert "-000"[1..] == "000" && "000"[..2] == "00" && "00"[..1] == "0" && "0"[..0] == "" && "0000"[..3] == "000";
    assert Value("0") == 0;
    assert Value("00") == 0;
    assert Value("000") == 0;
  }

  /** The accepted texts are exactly the renderings of the seconds of the dates of those years, and the
      same with the year 0 spelled the other way. */
  lemma AcceptsExactly(s: string)
    ensures Parse(s).Ok? <==> exists c, secs :: IsRendering(Respelled(s), c, secs)
  {
    var r := Respelled(s);
    RespelledParses(s);
    if Parse(r).Ok? {
      AcceptedIsInRange(r);
      RenderRewrites(r);
      assert IsRendering(r, Read(r).c, SecondOf(Read(r)));
    }
    if exists c, secs :: IsRendering(r, c, secs) {
      var c, secs :| IsRendering(r, c, secs);
      ReadRendered(c, secs);
      CheckSecond(c, secs);
    }
  }

  /** And why a text is refused: by its shape, then by what is no number, then by month or day, then by the
      clock, and last by the calendar. */
  lemma RefusedBecause(s: string)
    ensures Parse(s) == Err(BadShape) <==>
      !(|s| == 19 && s[4] == s[7] == '-' && s[10] == 'T' && s[13] == s[16] == ':')
    ensures WellShaped(s) ==> (Parse(s) == Err(NotNumeric) <==> !NumericFields(s))
    ensures WellShaped(s) && NumericFields(s) ==>
      var (y, m, d) := (YearValue(s[0..4]), Value(s[5..7]), Value(s[8..10]));
      var clock := Value(s[11..13]) < 24 && Value(s[14..16]) < 60 && Value(s[17..19]) < 60;
      var days := 1 <= m <= 12 && 1 <= d <= 31;
      && (Parse(s) == Err(OutOfRange) <==> !days)
      && (Parse(s) == Err(NoSuchTime) <==> days && !clock)
      && (Parse(s) == Err(NoSuchDate) <==> days && clock && d > MonthLength(y, m))
  {
    if WellShaped(s) && NumericFields(s) && 1 <= Read(s).c.m <= 12 && 1 <= Read(s).c.d <= 31 {
      hide CivilFromDays, DaysFromCivil;
      RoundTripAcceptsDates(Read(s).c);
    }
  }

  // --- any DATE -------------------------------------------------------------------------------

  /** The time a DATE stands for, in seconds since the OLE epoch. */
  function Instant(x: real): real {
    Trunc(x) as real * 86400.0 + Abs(x - Trunc(x) as real) * 86400.0
  }

  /** Whatever the DATE, also before the epoch and also across midnight, what is rendered is the
      second nearest to the time it stands for, and the later of two that are as near. */
  lemma RendersNearestSecond(x: real)
    ensures var (days, secs) := DayAndSecond(x);
      && 0 <= secs < 86400
      && -0.5 <= Instant(x) - (days * 86400 + secs) as real < 0.5
      && IsDate(DayAt(days)) && Format(x) == Render(DayAt(days), secs)
  {
    hide DayAt, CivilFromDays, IsDate, Render;
    var (days, secs) := DayAndSecond(x);
    SecondInRange(x);
    FormatsDay(x);
  }

  lemma FormatsDay(x: real)
    ensures DayAndSecond(x).1 >= 0 && IsDate(DayAt(DayAndSecond(x).0))
    ensures Format(x) == Render(DayAt(DayAndSecond(x).0), DayAndSecond(x).1)
  {
    hide DayAt, CivilFromDays, DayAndSecond;
    SecondInRange(x);
    DayAtIsCivil(DayAndSecond(x).0);
  }
}
