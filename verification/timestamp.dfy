/** `format_timestamp`: parse an ISO-8601 UTC time written as
    `YYYY-MM-DDTHH:MM:SS.fffZ` and render it as `DD Month YYYY - hh:mm AM UTC`.
    Only the fixed-width form of the input is modelled; Python's strptime
    also takes unpadded fields. */
module Timestamp {
  import opened Exceptions
  import Text

  datatype DateTime = DateTime(
    year: nat, month: nat, day: nat,
    hour: nat, minute: nat, second: nat, microsecond: nat)

  predicate IsLeapYear(y: nat) {
    y % 4 == 0 && (y % 100 != 0 || y % 400 == 0)
  }

  function DaysInMonth(y: nat, m: nat): nat
    requires 1 <= m <= 12
  {
    if m == 2 then (if IsLeapYear(y) then 29 else 28)
    else if m == 4 || m == 6 || m == 9 || m == 11 then 30
    else 31
  }

  /** The values `datetime` accepts: years 1 to 9999, real calendar days,
      no leap second. */
  predicate Valid(dt: DateTime) {
    && 1 <= dt.year <= 9999
    && 1 <= dt.month <= 12
    && 1 <= dt.day <= DaysInMonth(dt.year, dt.month)
    && dt.hour < 24 && dt.minute < 60 && dt.second < 60
    && dt.microsecond < 1000000
  }

  /** The layout of `%Y-%m-%dT%H:%M:%S.%fZ` with every field at full width:
      four-digit year, two-digit month, day, hour, minute and second, one
      to six fraction digits. strptime matches the literal `T` and `Z`
      without regard to case. */
  predicate IsoLayout(ts: string) {
    && 22 <= |ts| <= 27
    && FieldDigits(ts)
    && ts[4] == '-' && ts[7] == '-' && (ts[10] == 'T' || ts[10] == 't')
    && ts[13] == ':' && ts[16] == ':' && ts[19] == '.'
    && (ts[|ts| - 1] == 'Z' || ts[|ts| - 1] == 'z')
  }

  /** Every numeric field of the layout, fraction included, is made of
      digits. */
  predicate FieldDigits(ts: string)
    requires |ts| >= 21
  {
    && Text.AllDigits(ts[0..4]) && Text.AllDigits(ts[5..7])
    && Text.AllDigits(ts[8..10]) && Text.AllDigits(ts[11..13])
    && Text.AllDigits(ts[14..16]) && Text.AllDigits(ts[17..19])
    && Text.AllDigits(ts[20..|ts| - 1])
  }

  /** `datetime.strptime(ts, "%Y-%m-%dT%H:%M:%S.%fZ")`: ValueError when the
      text does not fit the layout or names no real instant. The fraction
      is scaled to microseconds as `%f` does (`.5` is 500000). */
  function ParseIso(ts: string): (r: Result<DateTime>)
    ensures r.Ok? ==> Valid(r.value) && IsoLayout(ts)
    ensures r.Err? ==> r.error == ValueError
  {
    if !IsoLayout(ts) then Err(ValueError)
    else
      var dt := IsoFields(ts);
      if Valid(dt) then Ok(dt) else Err(ValueError)
  }

  /** The field values of text in the ISO layout, before range checks. */
  function IsoFields(ts: string): DateTime
    requires 21 <= |ts| <= 27 && FieldDigits(ts)
  {
    var fraction := ts[20..|ts| - 1];
    DateTime(
      Text.Value(ts[0..4]), Text.Value(ts[5..7]), Text.Value(ts[8..10]),
      Text.Value(ts[11..13]), Text.Value(ts[14..16]), Text.Value(ts[17..19]),
      Text.Value(fraction) * Text.Pow10(6 - |fraction|))
  }

  const MonthNames: seq<string> := [
    "January", "February", "March", "April", "May", "June",
    "July", "August", "September", "October", "November", "December"]

  /** `%B` in the C locale. */
  function MonthName(m: nat): string
    requires 1 <= m <= 12
  {
    MonthNames[m - 1]
  }

  /** `%I`: the hour on a 12-hour clock, where midnight and noon are 12. */
  function Hour12(h: nat): nat
    requires h < 24
  {
    if h % 12 == 0 then 12 else h % 12
  }

  /** `%p` in the C locale. */
  function Meridiem(h: nat): string
    requires h < 24
  {
    if h < 12 then "AM" else "PM"
  }

  /** `dt.strftime("%d %B %Y - %I:%M %p UTC")`, as its space-separated
      pieces joined with single spaces. */
  function Display(dt: DateTime): string
    requires Valid(dt)
  {
    Text.Join(DisplayPieces(dt), ' ')
  }

  function DisplayPieces(dt: DateTime): seq<string>
    requires Valid(dt)
  {
    [ Text.Pad(dt.day, 2),
      MonthName(dt.month),
      Text.Pad(dt.year, 4),
      "-",
      Text.Pad(Hour12(dt.hour), 2) + ":" + Text.Pad(dt.minute, 2),
      Meridiem(dt.hour),
      "UTC" ]
  }

  /** `format_timestamp(ts)`: the display text, or the ValueError strptime
      raises. */
  function FormatTimestamp(ts: string): (r: Result<string>)
    ensures r.Ok? <==> ParseIso(ts).Ok?
    ensures r.Err? ==> r.error == ValueError
    ensures r.Ok? ==> ParseDisplay(r.value) == Ok(ShownMinute(ParseIso(ts).value))
  {
    var dt :- ParseIso(ts);
    DisplayReadBack(dt);
    Ok(Display(dt))
  }

  /** Reads a 12-hour clock reading back as an hour of the day. */
  function Hour24(h12: nat, meridiem: string): nat {
    if meridiem == "AM" then (if h12 == 12 then 0 else h12)
    else (if h12 == 12 then 12 else h12 + 12)
  }

  /** Midnight is 12 AM, morning hours keep their number with AM, noon is
      12 PM, and afternoon hours lose twelve and take PM. */
  lemma ClockHours(h: nat)
    requires h < 24
    ensures 1 <= Hour12(h) <= 12
    ensures h == 0 ==> Hour12(h) == 12 && Meridiem(h) == "AM"
    ensures 1 <= h <= 11 ==> Hour12(h) == h && Meridiem(h) == "AM"
    ensures h == 12 ==> Hour12(h) == 12 && Meridiem(h) == "PM"
    ensures 13 <= h ==> Hour12(h) == h - 12 && Meridiem(h) == "PM"
  {
  }

  /** The 12-hour reading loses nothing: it determines the hour of the day. */
  lemma ClockRoundTrip(h: nat)
    requires h < 24
    ensures Hour24(Hour12(h), Meridiem(h)) == h
  {
  }

  /** The canonical text of a millisecond-precision instant in the layout
      `format_timestamp` expects: `YYYY-MM-DDTHH:MM:SS.fffZ`. */
  function RenderIso(dt: DateTime): (ts: string)
    ensures |ts| == 24
  {
    RenderDate(dt) + RenderTime(dt)
  }

  /** `YYYY-MM-DDT` */
  function RenderDate(dt: DateTime): (s: string)
    ensures |s| == 11
    ensures s[0..4] == Text.Pad(dt.year, 4) && s[4] == '-'
    ensures s[5..7] == Text.Pad(dt.month, 2) && s[7] == '-'
    ensures s[8..10] == Text.Pad(dt.day, 2) && s[10] == 'T'
  {
    var y, m, d := Text.Pad(dt.year, 4), Text.Pad(dt.month, 2), Text.Pad(dt.day, 2);
    var s := y + "-" + m + "-" + d + "T";
    assert s[0..4] == y;
    assert s[5..7] == m;
    assert s[8..10] == d;
    s
  }

  /** `HH:MM:SS.fffZ` */
  function RenderTime(dt: DateTime): (s: string)
    ensures |s| == 13
    ensures s[0..2] == Text.Pad(dt.hour, 2) && s[2] == ':'
    ensures s[3..5] == Text.Pad(dt.minute, 2) && s[5] == ':'
    ensures s[6..8] == Text.Pad(dt.second, 2) && s[8] == '.'
    ensures s[9..12] == Text.Pad(dt.microsecond / 1000, 3) && s[12] == 'Z'
  {
    var h, mi, se := Text.Pad(dt.hour, 2), Text.Pad(dt.minute, 2), Text.Pad(dt.second, 2);
    var f := Text.Pad(dt.microsecond / 1000, 3);
    var s := h + ":" + mi + ":" + se + "." + f + "Z";
    assert s[0..2] == h;
    assert s[3..5] == mi;
    assert s[6..8] == se;
    assert s[9..12] == f;
    s
  }

  /** Where each field sits in the canonical text. */
  lemma RenderedFields(dt: DateTime)
    ensures var ts := RenderIso(dt);
      && IsoLayout(ts)
      && ts[0..4] == Text.Pad(dt.year, 4)
      && ts[5..7] == Text.Pad(dt.month, 2)
      && ts[8..10] == Text.Pad(dt.day, 2)
      && ts[11..13] == Text.Pad(dt.hour, 2)
      && ts[14..16] == Text.Pad(dt.minute, 2)
      && ts[17..19] == Text.Pad(dt.second, 2)
      && ts[20..23] == Text.Pad(dt.microsecond / 1000, 3)
  {
    var ts := RenderIso(dt);
    var date, time := RenderDate(dt), RenderTime(dt);
    assert ts[0..4] == date[0..4];
    assert ts[5..7] == date[5..7];
    assert ts[8..10] == date[8..10];
    assert ts[11..13] == time[0..2];
    assert ts[14..16] == time[3..5];
    assert ts[17..19] == time[6..8];
    assert ts[20..23] == time[9..12];
  }

  /** Zero-padded fields read back as the numbers they pad. */
  lemma PaddedFieldValues(ts: string, dt: DateTime)
    requires |ts| == 24
    requires dt.year < 10000 && dt.month < 100 && dt.day < 100
    requires dt.hour < 100 && dt.minute < 100 && dt.second < 100
    requires dt.microsecond < 1000000 && dt.microsecond % 1000 == 0
    requires ts[0..4] == Text.Pad(dt.year, 4)
    requires ts[5..7] == Text.Pad(dt.month, 2)
    requires ts[8..10] == Text.Pad(dt.day, 2)
    requires ts[11..13] == Text.Pad(dt.hour, 2)
    requires ts[14..16] == Text.Pad(dt.minute, 2)
    requires ts[17..19] == Text.Pad(dt.second, 2)
    requires ts[20..23] == Text.Pad(dt.microsecond / 1000, 3)
    ensures FieldDigits(ts) && IsoFields(ts) == dt
  {
    assert Text.Pow10(2) == 100 && Text.Pow10(4) == 10000;
    SliceValue(ts, 0, 4, dt.year);
    SliceValue(ts, 5, 7, dt.month);
    SliceValue(ts, 8, 10, dt.day);
    SliceValue(ts, 11, 13, dt.hour);
    SliceValue(ts, 14, 16, dt.minute);
    SliceValue(ts, 17, 19, dt.second);
    FractionValue(ts, dt.microsecond);
  }

  /** A three-digit fraction is read as that many milliseconds. */
  lemma FractionValue(ts: string, micro: nat)
    requires |ts| == 24
    requires micro < 1000000 && micro % 1000 == 0
    requires ts[20..23] == Text.Pad(micro / 1000, 3)
    ensures Text.AllDigits(ts[20..|ts| - 1])
    ensures Text.Value(ts[20..|ts| - 1]) * Text.Pow10(6 - (|ts| - 1 - 20)) == micro
  {
    assert Text.Pow10(3) == 1000;
    SliceValue(ts, 20, 23, micro / 1000);
    assert ts[20..|ts| - 1] == ts[20..23];
    assert (micro / 1000) * 1000 == micro;
  }

  lemma SliceValue(ts: string, i: nat, j: nat, n: nat)
    requires i <= j <= |ts|
    requires ts[i..j] == Text.Pad(n, j - i)
    requires n < Text.Pow10(j - i)
    ensures Text.AllDigits(ts[i..j]) && Text.Value(ts[i..j]) == n
  {
    Text.ValuePad(n, j - i);
  }

  /** Parsing the canonical text of a valid millisecond instant gives the
      instant back. */
  lemma IsoRoundTrip(dt: DateTime)
    requires Valid(dt)
    requires dt.microsecond % 1000 == 0
    ensures ParseIso(RenderIso(dt)) == Ok(dt)
  {
    RenderedFields(dt);
    PaddedFieldValues(RenderIso(dt), dt);
  }

  /** The number of the month with the given `%B` name, or 0 for none. */
  function MonthNumber(name: string): (m: nat)
    ensures m <= 12
    ensures m >= 1 ==> MonthName(m) == name
  {
    MonthFrom(name, 0)
  }

  function MonthFrom(name: string, i: nat): (m: nat)
    requires i <= 12
    ensures m <= 12
    ensures m >= 1 ==> MonthNames[m - 1] == name
    decreases 12 - i
  {
    if i == 12 then 0
    else if MonthNames[i] == name then i + 1
    else MonthFrom(name, i + 1)
  }

  lemma {:induction false} MonthNumberOfName(m: nat)
    requires 1 <= m <= 12
    ensures MonthNumber(MonthName(m)) == m
  {
    assert forall i, j :: 0 <= i < j < 12 ==> MonthNames[i] != MonthNames[j];
    MonthFromFinds(MonthName(m), m - 1, 0);
  }

  lemma {:induction false} MonthFromFinds(name: string, k: nat, i: nat)
    requires i <= k < 12
    requires MonthNames[k] == name
    requires forall j :: 0 <= j < k ==> MonthNames[j] != name
    ensures MonthFrom(name, i) == k + 1
    decreases 12 - i
  {
    if i < k {
      MonthFromFinds(name, k, i + 1);
    }
  }

  /** The minute of the day a display shows: seconds and the fraction are
      not part of it. */
  datatype Wall = Wall(year: nat, month: nat, day: nat, hour: nat, minute: nat)

  function ShownMinute(dt: DateTime): Wall {
    Wall(dt.year, dt.month, dt.day, dt.hour, dt.minute)
  }

  /** Reads a display `DD Month YYYY - hh:mm AM UTC` back: the inverse of
      `Display` on the minutes it shows. */
  function ParseDisplay(s: string): Result<Wall> {
    var parts := Text.Split(s, ' ');
    if |parts| != 7 then Err(ValueError)
    else
      var day, month, year, clock := parts[0], MonthNumber(parts[1]), parts[2], parts[4];
      if && |day| == 2 && Text.AllDigits(day)
         && month != 0
         && |year| == 4 && Text.AllDigits(year)
         && parts[3] == "-"
         && |clock| == 5 && Text.AllDigits(clock[0..2]) && clock[2] == ':' && Text.AllDigits(clock[3..5])
         && (parts[5] == "AM" || parts[5] == "PM")
         && parts[6] == "UTC"
      then
        Ok(Wall(Text.Value(year), month, Text.Value(day),
                Hour24(Text.Value(clock[0..2]), parts[5]), Text.Value(clock[3..5])))
      else Err(ValueError)
  }

  lemma PiecesHaveNoSpace(dt: DateTime)
    requires Valid(dt)
    ensures forall i :: 0 <= i < 7 ==> ' ' !in DisplayPieces(dt)[i]
  {
    var p := DisplayPieces(dt);
    assert forall i :: 0 <= i < 12 ==> ' ' !in MonthNames[i];
    assert forall i :: 0 <= i < |p[4]| ==> p[4][i] == ':' || Text.IsDigit(p[4][i]);
  }

  /** The display determines the year, month, day, hour and minute of the
      instant it was made from. */
  lemma DisplayReadBack(dt: DateTime)
    requires Valid(dt)
    ensures ParseDisplay(Display(dt)) == Ok(ShownMinute(dt))
  {
    var pieces := DisplayPieces(dt);
    PiecesHaveNoSpace(dt);
    Text.SplitJoin(pieces, ' ');
    var clock := pieces[4];
    assert clock[0..2] == Text.Pad(Hour12(dt.hour), 2);
    assert clock[3..5] == Text.Pad(dt.minute, 2);
    Text.ValuePad(dt.day, 2);
    Text.ValuePad(dt.year, 4);
    Text.ValuePad(Hour12(dt.hour), 2);
    Text.ValuePad(dt.minute, 2);
    MonthNumberOfName(dt.month);
    ClockRoundTrip(dt.hour);
  }

  /** `format_timestamp` on the canonical text of a valid instant succeeds,
      and its answer reads back as that instant's minute. */
  lemma FormatShowsInstant(dt: DateTime)
    requires Valid(dt)
    requires dt.microsecond % 1000 == 0
    ensures FormatTimestamp(RenderIso(dt)).Ok?
    ensures ParseDisplay(FormatTimestamp(RenderIso(dt)).value) == Ok(ShownMinute(dt))
  {
    IsoRoundTrip(dt);
    DisplayReadBack(dt);
  }

  /** The display is the strftime pattern filled in: zero-padded day, full
      month name, four-digit year, zero-padded 12-hour clock and AM/PM. */
  lemma DisplayLayout(dt: DateTime)
    requires Valid(dt)
    ensures Display(dt) ==
      Text.Pad(dt.day, 2) + " " + MonthName(dt.month) + " " + Text.Pad(dt.year, 4) + " - "
      + Text.Pad(Hour12(dt.hour), 2) + ":" + Text.Pad(dt.minute, 2) + " " + Meridiem(dt.hour) + " UTC"
  {
    var p := DisplayPieces(dt);
    JoinSeven(p, ' ');
  }

  /** Joining seven pieces puts one separator between each neighbouring pair. */
  lemma JoinSeven(p: seq<string>, sep: char)
    requires |p| == 7
    ensures Text.Join(p, sep) ==
      p[0] + [sep] + p[1] + [sep] + p[2] + [sep] + p[3] + [sep] + p[4] + [sep] + p[5] + [sep] + p[6]
  {
    var j6 := Text.Join(p[6..], sep);
    assert j6 == p[6];
    var j5 := Text.Join(p[5..], sep);
    assert p[5..][1..] == p[6..];
    assert j5 == p[5] + [sep] + j6;
    var j4 := Text.Join(p[4..], sep);
    assert p[4..][1..] == p[5..];
    assert j4 == p[4] + [sep] + j5;
    var j3 := Text.Join(p[3..], sep);
    assert p[3..][1..] == p[4..];
    assert j3 == p[3] + [sep] + j4;
    var j2 := Text.Join(p[2..], sep);
    assert p[2..][1..] == p[3..];
    assert j2 == p[2] + [sep] + j3;
    var j1 := Text.Join(p[1..], sep);
    assert p[1..][1..] == p[2..];
    assert j1 == p[1] + [sep] + j2;
    assert Text.Join(p, sep) == p[0] + [sep] + j1;
  }

  /** The converse of `IsoRoundTrip`: canonical text (upper-case `T` and
      `Z`, three fraction digits) that `format_timestamp` accepts names a
      millisecond instant whose canonical rendering is that very text, and
      the answer is the display of that instant. */
  lemma CanonicalTextRoundTrip(ts: string)
    requires |ts| == 24 && ts[10] == 'T' && ts[23] == 'Z'
    ensures FormatTimestamp(ts).Ok? <==> ParseIso(ts).Ok?
    ensures FormatTimestamp(ts).Ok? ==>
      && ParseIso(ts).value.microsecond % 1000 == 0
      && RenderIso(ParseIso(ts).value) == ts
      && FormatTimestamp(ts) == Ok(Display(ParseIso(ts).value))
  {
    if ParseIso(ts).Ok? {
      var dt := ParseIso(ts).value;
      assert dt == IsoFields(ts);
      FieldsRendered(ts);
    }
  }

  /** Text in the layout at millisecond width is the canonical rendering of
      its own fields. */
  lemma FieldsRendered(ts: string)
    requires IsoLayout(ts) && |ts| == 24 && ts[10] == 'T' && ts[23] == 'Z'
    ensures IsoFields(ts).microsecond % 1000 == 0
    ensures RenderIso(IsoFields(ts)) == ts
  {
    var dt := IsoFields(ts);
    assert ts[20..|ts| - 1] == ts[20..23];
    assert Text.Pow10(3) == 1000;
    DateRendered(ts, dt);
    TimeRendered(ts, dt);
    assert ts == ts[..11] + ts[11..];
  }

  lemma DateRendered(ts: string, dt: DateTime)
    requires |ts| == 24 && ts[4] == '-' && ts[7] == '-' && ts[10] == 'T'
    requires Text.AllDigits(ts[0..4]) && Text.AllDigits(ts[5..7]) && Text.AllDigits(ts[8..10])
    requires dt.year == Text.Value(ts[0..4]) && dt.month == Text.Value(ts[5..7])
    requires dt.day == Text.Value(ts[8..10])
    ensures RenderDate(dt) == ts[..11]
  {
    Text.PadValue(ts[0..4]);
    Text.PadValue(ts[5..7]);
    Text.PadValue(ts[8..10]);
    var date := RenderDate(dt);
    forall i | 0 <= i < 11 ensures date[i] == ts[i] {
      if i < 4 { assert date[i] == date[0..4][i]; }
      else if 4 < i < 7 { assert date[i] == date[5..7][i - 5]; }
      else if 7 < i < 10 { assert date[i] == date[8..10][i - 8]; }
    }
  }

  lemma TimeRendered(ts: string, dt: DateTime)
    requires |ts| == 24 && ts[13] == ':' && ts[16] == ':' && ts[19] == '.' && ts[23] == 'Z'
    requires Text.AllDigits(ts[11..13]) && Text.AllDigits(ts[14..16])
    requires Text.AllDigits(ts[17..19]) && Text.AllDigits(ts[20..23])
    requires dt.hour == Text.Value(ts[11..13]) && dt.minute == Text.Value(ts[14..16])
    requires dt.second == Text.Value(ts[17..19])
    requires dt.microsecond == Text.Value(ts[20..23]) * 1000
    ensures dt.microsecond % 1000 == 0
    ensures RenderTime(dt) == ts[11..]
  {
    Text.PadValue(ts[11..13]);
    Text.PadValue(ts[14..16]);
    Text.PadValue(ts[17..19]);
    Text.PadValue(ts[20..23]);
    assert dt.microsecond / 1000 == Text.Value(ts[20..23]);
    var time := RenderTime(dt);
    forall i | 0 <= i < 13 ensures time[i] == ts[11 + i] {
      if i < 2 { assert time[i] == time[0..2][i]; }
      else if 2 < i < 5 { assert time[i] == time[3..5][i - 3]; }
      else if 5 < i < 8 { assert time[i] == time[6..8][i - 6]; }
      else if 8 < i < 12 { assert time[i] == time[9..12][i - 9]; }
    }
  }
}
