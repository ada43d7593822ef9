/** `datetime` values as records of integers, `isoformat()` and `strptime` with the pattern `%Y-%m-%dT%H:%M:%S.%f`. */
module Timestamps {
  import opened Outcomes
  import opened Numerals
  import opened Texts

  datatype Timestamp = Timestamp(year: nat, month: nat, day: nat, hour: nat, minute: nat, second: nat, micro: nat)

  /** Gregorian leap years: every fourth year, except centuries not divisible by 400. */
  predicate IsLeap(year: int)
  {
    year % 4 == 0 && (year % 100 != 0 || year % 400 == 0)
  }

  /** The number of days in a month of a year. */
  function DaysIn(year: int, month: int): (n: int)
    ensures 28 <= n <= 31
    ensures n == 29 <==> month == 2 && IsLeap(year)
  {
    if month == 2 then (if IsLeap(year) then 29 else 28)
    else if month == 4 || month == 6 || month == 9 || month == 11 then 30
    else 31
  }

  /** The field ranges a `datetime` accepts, the day within the length of its month. */
  predicate ValidStamp(t: Timestamp)
  {
    && 1 <= t.year <= 9999 && 1 <= t.month <= 12 && 1 <= t.day <= DaysIn(t.year, t.month)
    && t.hour < 24 && t.minute < 60 && t.second < 60 && t.micro < 1000000
  }

  /** Chronological order of two instants: lexicographic on the fields. */
  predicate Before(a: Timestamp, b: Timestamp)
  {
    if a.year != b.year then a.year < b.year
    else if a.month != b.month then a.month < b.month
    else if a.day != b.day then a.day < b.day
    else if a.hour != b.hour then a.hour < b.hour
    else if a.minute != b.minute then a.minute < b.minute
    else if a.second != b.second then a.second < b.second
    else a.micro < b.micro
  }

  /** `Before` is a strict total order. */
  lemma BeforeOrder(a: Timestamp, b: Timestamp, c: Timestamp)
    ensures !Before(a, a)
    ensures Before(a, b) && Before(b, c) ==> Before(a, c)
    ensures a != b ==> Before(a, b) || Before(b, a)
  {
  }

  /** `t.isoformat()`: the fraction is left out when the microsecond is zero. */
  function IsoFormat(t: Timestamp): string
  {
    Pad(t.year, 4, 10) + "-" + Pad(t.month, 2, 10) + "-" + Pad(t.day, 2, 10) + "T"
    + Pad(t.hour, 2, 10) + ":" + Pad(t.minute, 2, 10) + ":" + Pad(t.second, 2, 10)
    + (if t.micro != 0 then "." + Pad(t.micro, 6, 10) else "")
  }

  /** The first position at or after `i` that holds `x` or `y`, or `|s|` when there is none. */
  function NextIn(s: string, i: nat, x: char, y: char): (j: nat)
    requires i <= |s|
    ensures i <= j <= |s|
    ensures j < |s| ==> s[j] == x || s[j] == y
    ensures forall k :: i <= k < j ==> s[k] != x && s[k] != y
    decreases |s| - i
  {
    if i == |s| || s[i] == x || s[i] == y then i else NextIn(s, i + 1, x, y)
  }

  lemma {:induction false} NextInAt(s: string, i: nat, x: char, y: char, j: nat)
    requires i <= j < |s| && (s[j] == x || s[j] == y)
    requires forall k :: i <= k < j ==> s[k] != x && s[k] != y
    ensures NextIn(s, i, x, y) == j
    decreases j - i
  {
    if i < j {
      NextInAt(s, i + 1, x, y, j);
    }
  }

  predicate IsDecimal(c: char)
  {
    '0' <= c <= '9'
  }

  /** The value of a two-character field whose characters are decimal digits. */
  function Two(c: string): nat
    requires |c| == 2 && IsDecimal(c[0]) && IsDecimal(c[1])
  {
    10 * DigitValue(c[0]) + DigitValue(c[1])
  }

  /** `%m` matches `1[0-2]|0[1-9]|[1-9]`. */
  function MonthField(c: string): (r: Option<nat>)
    ensures r.Some? ==> 1 <= |c| <= 2 && 1 <= r.value <= 12
  {
    if |c| == 1 && '1' <= c[0] <= '9' then Some(DigitValue(c[0]))
    else if |c| == 2 && ((c[0] == '1' && '0' <= c[1] <= '2') || (c[0] == '0' && '1' <= c[1] <= '9')) then Some(Two(c))
    else None
  }

  /** `%d` matches `3[0-1]|[1-2]\d|0[1-9]|[1-9]| [1-9]`: a blank may stand in for the leading zero. */
  function DayField(c: string): (r: Option<nat>)
    ensures r.Some? ==> 1 <= |c| <= 2 && 1 <= r.value <= 31
  {
    if |c| == 1 && '1' <= c[0] <= '9' then Some(DigitValue(c[0]))
    else if |c| == 2 && c[0] == ' ' && '1' <= c[1] <= '9' then Some(DigitValue(c[1]))
    else if |c| == 2 && ((c[0] == '3' && '0' <= c[1] <= '1') || ('1' <= c[0] <= '2' && IsDecimal(c[1]))
                         || (c[0] == '0' && '1' <= c[1] <= '9')) then Some(Two(c))
    else None
  }

  /** `%H` matches `2[0-3]|[0-1]\d|\d`. */
  function HourField(c: string): (r: Option<nat>)
    ensures r.Some? ==> 1 <= |c| <= 2 && r.value < 24
  {
    if |c| == 1 && IsDecimal(c[0]) then Some(DigitValue(c[0]))
    else if |c| == 2 && ((c[0] == '2' && '0' <= c[1] <= '3') || ('0' <= c[0] <= '1' && IsDecimal(c[1]))) then Some(Two(c))
    else None
  }

  /** `%M` matches `[0-5]\d|\d`. */
  function MinuteField(c: string): (r: Option<nat>)
    ensures r.Some? ==> 1 <= |c| <= 2 && r.value < 60
  {
    if |c| == 1 && IsDecimal(c[0]) then Some(DigitValue(c[0]))
    else if |c| == 2 && '0' <= c[0] <= '5' && IsDecimal(c[1]) then Some(Two(c))
    else None
  }

  /** `%S` matches `6[0-1]|[0-5]\d|\d`; 60 and 61 are read here and refused by `datetime` afterwards. */
  function SecondField(c: string): (r: Option<nat>)
    ensures r.Some? ==> 1 <= |c| <= 2 && r.value < 62
  {
    if |c| == 1 && IsDecimal(c[0]) then Some(DigitValue(c[0]))
    else if |c| == 2 && ((c[0] == '6' && '0' <= c[1] <= '1') || ('0' <= c[0] <= '5' && IsDecimal(c[1]))) then Some(Two(c))
    else None
  }

  /** Where the separators after the year stand: before the day, the hour, the minute, the second and the fraction. */
  datatype Cuts = Cuts(a: nat, b: nat, c: nat, d: nat, e: nat)

  /**
   * Each field runs up to the next separator, since no field character is one: `-`, then `T` or
   * `t` (the pattern is matched ignoring case), `:`, `:` and `.`. None when a separator is missing.
   */
  function Separators(s: string): (r: Option<Cuts>)
    requires 5 <= |s|
    ensures r.Some? ==> 5 <= r.value.a < r.value.b < r.value.c < r.value.d < r.value.e < |s|
    ensures r.Some? ==> s[r.value.e] == '.'
  {
    var a := NextIn(s, 5, '-', '-');
    var b := NextAfter(s, a, 'T', 't');
    var c := NextAfter(s, b, ':', ':');
    var d := NextAfter(s, c, ':', ':');
    var e := NextAfter(s, d, '.', '.');
    if e == |s| then None else Some(Cuts(a, b, c, d, e))
  }

  /** The next `x` or `y` after position `i`; `|s|` when `i` is already the end. */
  function NextAfter(s: string, i: nat, x: char, y: char): (j: nat)
    requires i <= |s|
    ensures i <= j <= |s| && (i < |s| ==> i < j)
    ensures j < |s| ==> s[j] == x || s[j] == y
  {
    if i < |s| then NextIn(s, i + 1, x, y) else |s|
  }

  /** The fields between the separators, each by its own alternation, then the fraction `[0-9]{1,6}` up to the end. */
  function ReadFields(s: string, k: Cuts): (r: Result<Timestamp>)
    requires 5 <= k.a < k.b < k.c < k.d < k.e < |s|
    requires AllDigits(s[..4], 10)
    ensures r.Ok? ==> ValidStamp(r.value)
    ensures r.Err? ==> r.error == ValueError
    ensures r.Ok? ==> k.e + 1 < |s| <= k.e + 7
    ensures r.Ok? ==> 6 <= k.a <= 7 && k.a + 2 <= k.b <= k.a + 3 && k.b + 2 <= k.c <= k.b + 3
    ensures r.Ok? ==> k.c + 2 <= k.d <= k.c + 3 && k.d + 2 <= k.e <= k.d + 3
  {
    var mo, dd, hh, mi, ss := MonthField(s[5..k.a]), DayField(s[k.a + 1..k.b]), HourField(s[k.b + 1..k.c]),
                              MinuteField(s[k.c + 1..k.d]), SecondField(s[k.d + 1..k.e]);
    var frac := s[k.e + 1..];
    if mo.None? || dd.None? || hh.None? || mi.None? || ss.None? || !(1 <= |frac| <= 6 && AllDigits(frac, 10)) then
      Err(ValueError)
    else
      var t := Timestamp(ValueOf(s[..4], 10), mo.value, dd.value, hh.value, mi.value, ss.value,
                         ValueOf(frac, 10) * Pow(10, 6 - |frac|));
      if ValidStamp(t) then Ok(t) else Err(ValueError)
  }

  /**
   * `datetime.strptime(s, "%Y-%m-%dT%H:%M:%S.%f")`. The format compiles to one regular
   * expression: four year digits, then one or two characters for each other field as its
   * alternation allows, then one to six fraction digits (the leading digits of the microsecond),
   * with nothing left over. A mismatch, or a field `datetime` refuses, raises `ValueError`.
   */
  function StrpTime(s: string): (r: Result<Timestamp>)
    ensures r.Ok? ==> ValidStamp(r.value)
    ensures r.Err? ==> r.error == ValueError
    ensures r.Ok? ==> 16 <= |s| <= 26
  {
    if |s| < 5 || !AllDigits(s[..4], 10) || s[4] != '-' then Err(ValueError)
    else
      match Separators(s)
      case None => Err(ValueError)
      case Some(k) => ReadFields(s, k)
  }

  /** The number four decimal digits denote. */
  lemma FourDigits(p: string)
    requires |p| == 4 && AllDigits(p, 10)
    ensures ValueOf(p, 10) == 1000 * DigitValue(p[0]) + 100 * DigitValue(p[1]) + 10 * DigitValue(p[2]) + DigitValue(p[3])
  {
    assert p[..0] == [] && p[..4] == p;
    PrefixValue(p, 0);
    PrefixValue(p, 1);
    PrefixValue(p, 2);
    PrefixValue(p, 3);
  }

  /** One more digit of a numeral: the value of the longer prefix. */
  lemma PrefixValue(p: string, k: nat)
    requires k < |p| && AllDigits(p, 10)
    ensures AllDigits(p[..k], 10) && AllDigits(p[..k + 1], 10)
    ensures ValueOf(p[..k + 1], 10) == ValueOf(p[..k], 10) * 10 + DigitValue(p[k])
  {
    assert p[..k + 1] == p[..k] + [p[k]];
    Snoc(p[..k], p[k], 10);
  }

  /** The separators stand at the cuts when nothing before each one is a separator of its kind. */
  lemma {:induction false} SeparatorsAt(s: string, k: Cuts)
    requires 5 <= k.a < k.b < k.c < k.d < k.e < |s|
    requires s[k.a] == '-' && (s[k.b] == 'T' || s[k.b] == 't') && s[k.c] == ':' && s[k.d] == ':' && s[k.e] == '.'
    requires forall i :: 5 <= i < k.a ==> s[i] != '-'
    requires forall i :: k.a < i < k.b ==> s[i] != 'T' && s[i] != 't'
    requires forall i :: k.b < i < k.c ==> s[i] != ':'
    requires forall i :: k.c < i < k.d ==> s[i] != ':'
    requires forall i :: k.d < i < k.e ==> s[i] != '.'
    ensures Separators(s) == Some(k)
  {
    NextInAt(s, 5, '-', '-', k.a);
    NextInAt(s, k.a + 1, 'T', 't', k.b);
    NextInAt(s, k.b + 1, ':', ':', k.c);
    NextInAt(s, k.c + 1, ':', ':', k.d);
    NextInAt(s, k.d + 1, '.', '.', k.e);
    assert NextAfter(s, k.a, 'T', 't') == k.b;
    assert NextAfter(s, k.b, ':', ':') == k.c;
    assert NextAfter(s, k.c, ':', ':') == k.d;
    assert NextAfter(s, k.d, '.', '.') == k.e;
  }

  /** A string with the year and the separators in place is read field by field. */
  lemma {:induction false} StrpTimeVia(s: string, k: Cuts)
    requires 5 <= |s| && AllDigits(s[..4], 10) && s[4] == '-' && Separators(s) == Some(k)
    ensures StrpTime(s) == ReadFields(s, k)
  {
  }

  /** Fields that each pass their alternation, and a fraction of one to six digits, make the instant they denote. */
  lemma {:induction false} ReadFieldsOk(s: string, k: Cuts, t: Timestamp)
    requires 5 <= k.a < k.b < k.c < k.d < k.e < |s| && AllDigits(s[..4], 10)
    requires MonthField(s[5..k.a]) == Some(t.month) && DayField(s[k.a + 1..k.b]) == Some(t.day)
    requires HourField(s[k.b + 1..k.c]) == Some(t.hour) && MinuteField(s[k.c + 1..k.d]) == Some(t.minute)
    requires SecondField(s[k.d + 1..k.e]) == Some(t.second)
    requires 1 <= |s[k.e + 1..]| <= 6 && AllDigits(s[k.e + 1..], 10)
    requires t.year == ValueOf(s[..4], 10) && t.micro == ValueOf(s[k.e + 1..], 10) * Pow(10, 6 - |s[k.e + 1..]|)
    requires ValidStamp(t)
    ensures ReadFields(s, k) == Ok(t)
  {
  }

  /** A month field that fails its alternation fails the whole pattern. */
  lemma {:induction false} ReadFieldsBadMonth(s: string, k: Cuts)
    requires 5 <= k.a < k.b < k.c < k.d < k.e < |s| && AllDigits(s[..4], 10)
    requires MonthField(s[5..k.a]).None?
    ensures ReadFields(s, k) == Err(ValueError)
  {
  }

  /** A seconds field above 59 is refused, whatever the other fields are. */
  lemma {:induction false} ReadFieldsBadSecond(s: string, k: Cuts)
    requires 5 <= k.a < k.b < k.c < k.d < k.e < |s| && AllDigits(s[..4], 10)
    requires SecondField(s[k.d + 1..k.e]).Some? && SecondField(s[k.d + 1..k.e]).value >= 60
    ensures ReadFields(s, k) == Err(ValueError)
  {
  }

  /** A day past the end of its month passes the pattern and is refused by `datetime`. */
  lemma {:induction false} ReadFieldsBadDay(s: string, k: Cuts)
    requires 5 <= k.a < k.b < k.c < k.d < k.e < |s| && AllDigits(s[..4], 10)
    requires MonthField(s[5..k.a]).Some? && DayField(s[k.a + 1..k.b]).Some?
    requires DayField(s[k.a + 1..k.b]).value > DaysIn(ValueOf(s[..4], 10), MonthField(s[5..k.a]).value)
    ensures ReadFields(s, k) == Err(ValueError)
  {
  }

  /** More than six fraction digits leave data over. */
  lemma {:induction false} ReadFieldsLongFraction(s: string, k: Cuts)
    requires 5 <= k.a < k.b < k.c < k.d < k.e < |s| && AllDigits(s[..4], 10)
    requires |s[k.e + 1..]| > 6
    ensures ReadFields(s, k) == Err(ValueError)
  {
  }

  /** One-digit fields and a lower-case `t` are read. */
  lemma StrpTimeOneDigit(s: string)
    requires s == "2017-9-8t1:5:5.1"
    ensures StrpTime(s) == Ok(Timestamp(2017, 9, 8, 1, 5, 5, 100000))
  {
    OneDigitCuts(s);
    OneDigitParts(s);
    ReadFieldsOk(s, Cuts(6, 8, 10, 12, 14), Timestamp(2017, 9, 8, 1, 5, 5, 100000));
  }

  lemma OneDigitCuts(s: string)
    requires s == "2017-9-8t1:5:5.1"
    ensures AllDigits(s[..4], 10) && StrpTime(s) == ReadFields(s, Cuts(6, 8, 10, 12, 14))
  {
    assert s[..4] == "2017";
    SeparatorsAt(s, Cuts(6, 8, 10, 12, 14));
    StrpTimeVia(s, Cuts(6, 8, 10, 12, 14));
  }

  lemma OneDigitParts(s: string)
    requires s == "2017-9-8t1:5:5.1"
    ensures AllDigits(s[..4], 10) && ValueOf(s[..4], 10) == 2017
    ensures MonthField(s[5..6]) == Some(9) && DayField(s[7..8]) == Some(8) && HourField(s[9..10]) == Some(1)
    ensures MinuteField(s[11..12]) == Some(5) && SecondField(s[13..14]) == Some(5)
    ensures 1 <= |s[15..]| <= 6 && AllDigits(s[15..], 10) && ValueOf(s[15..], 10) * Pow(10, 6 - |s[15..]|) == 100000
  {
    assert s[..4] == "2017";
    FourDigits(s[..4]);
    assert MonthField(s[5..6]) == Some(9) by { assert s[5..6] == "9"; }
    assert DayField(s[7..8]) == Some(8) by { assert s[7..8] == "8"; }
    assert HourField(s[9..10]) == Some(1) by { assert s[9..10] == "1"; }
    assert MinuteField(s[11..12]) == Some(5) by { assert s[11..12] == "5"; }
    assert SecondField(s[13..14]) == Some(5) by { assert s[13..14] == "5"; }
    assert ValueOf(s[15..], 10) * Pow(10, 6 - |s[15..]|) == 100000 by {
      assert s[15..] == "1";
      Snoc([], '1', 10);
      assert [] + ['1'] == "1";
      Powers();
    }
  }

  /** A blank-padded day is read. */
  lemma StrpTimeBlankDay(s: string)
    requires s == "2017-09- 8T21:05:54.5"
    ensures StrpTime(s) == Ok(Timestamp(2017, 9, 8, 21, 5, 54, 500000))
  {
    BlankDayCuts(s);
    BlankDayFields(s);
  }

  lemma BlankDayCuts(s: string)
    requires s == "2017-09- 8T21:05:54.5"
    ensures AllDigits(s[..4], 10) && StrpTime(s) == ReadFields(s, Cuts(7, 10, 13, 16, 19))
  {
    assert s[..4] == "2017";
    PaddedCuts(s);
  }

  lemma BlankDayFields(s: string)
    requires s == "2017-09- 8T21:05:54.5"
    ensures AllDigits(s[..4], 10) && ReadFields(s, Cuts(7, 10, 13, 16, 19)) == Ok(Timestamp(2017, 9, 8, 21, 5, 54, 500000))
  {
    BlankDayParts(s);
    ReadFieldsOk(s, Cuts(7, 10, 13, 16, 19), Timestamp(2017, 9, 8, 21, 5, 54, 500000));
  }

  /** Where the separators of a text with two-character fields stand. */
  lemma PaddedCuts(s: string)
    requires |s| >= 21 && s[4] == '-' && s[7] == '-' && s[10] == 'T' && s[13] == ':' && s[16] == ':' && s[19] == '.'
    requires AllDigits(s[..4], 10)
    requires forall i :: 5 <= i < 19 && i != 7 && i != 10 && i != 13 && i != 16 ==> s[i] != '-' && s[i] != 'T' && s[i] != 't' && s[i] != ':' && s[i] != '.'
    ensures StrpTime(s) == ReadFields(s, Cuts(7, 10, 13, 16, 19))
  {
    SeparatorsAt(s, Cuts(7, 10, 13, 16, 19));
    StrpTimeVia(s, Cuts(7, 10, 13, 16, 19));
  }

  lemma BlankDayParts(s: string)
    requires s == "2017-09- 8T21:05:54.5"
    ensures AllDigits(s[..4], 10) && ValueOf(s[..4], 10) == 2017
    ensures MonthField(s[5..7]) == Some(9) && DayField(s[8..10]) == Some(8) && HourField(s[11..13]) == Some(21)
    ensures MinuteField(s[14..16]) == Some(5) && SecondField(s[17..19]) == Some(54)
    ensures 1 <= |s[20..]| <= 6 && AllDigits(s[20..], 10) && ValueOf(s[20..], 10) * Pow(10, 6 - |s[20..]|) == 500000
  {
    BlankDayDate(s);
    BlankDayClock(s);
  }

  lemma BlankDayDate(s: string)
    requires s == "2017-09- 8T21:05:54.5"
    ensures AllDigits(s[..4], 10) && ValueOf(s[..4], 10) == 2017
    ensures MonthField(s[5..7]) == Some(9) && DayField(s[8..10]) == Some(8)
  {
    assert s[..4] == "2017";
    FourDigits(s[..4]);
    assert MonthField(s[5..7]) == Some(9) by { assert s[5..7] == "09"; }
    assert DayField(s[8..10]) == Some(8) by { assert s[8..10] == " 8"; }
  }

  lemma BlankDayClock(s: string)
    requires s == "2017-09- 8T21:05:54.5"
    ensures HourField(s[11..13]) == Some(21) && MinuteField(s[14..16]) == Some(5) && SecondField(s[17..19]) == Some(54)
    ensures 1 <= |s[20..]| <= 6 && AllDigits(s[20..], 10) && ValueOf(s[20..], 10) * Pow(10, 6 - |s[20..]|) == 500000
  {
    assert HourField(s[11..13]) == Some(21) by { assert s[11..13] == "21"; }
    assert MinuteField(s[14..16]) == Some(5) by { assert s[14..16] == "05"; }
    assert SecondField(s[17..19]) == Some(54) by { assert s[17..19] == "54"; }
    assert ValueOf(s[20..], 10) * Pow(10, 6 - |s[20..]|) == 500000 by {
      assert s[20..] == "5";
      Snoc([], '5', 10);
      assert [] + ['5'] == "5";
      Powers();
    }
  }

  /** A month out of range is refused. */
  lemma StrpTimeBadMonth(s: string)
    requires s == "2017-13-28T21:05:54.1"
    ensures StrpTime(s) == Err(ValueError)
  {
    BadMonthCuts(s);
    BadMonthField(s);
    ReadFieldsBadMonth(s, Cuts(7, 10, 13, 16, 19));
  }

  lemma BadMonthCuts(s: string)
    requires s == "2017-13-28T21:05:54.1"
    ensures AllDigits(s[..4], 10) && StrpTime(s) == ReadFields(s, Cuts(7, 10, 13, 16, 19))
  {
    assert s[..4] == "2017";
    PaddedCuts(s);
  }

  lemma BadMonthField(s: string)
    requires s == "2017-13-28T21:05:54.1"
    ensures MonthField(s[5..7]).None?
  {
    assert s[5..7] == "13";
  }

  /** A leap second is read by the pattern and refused by `datetime`. */
  lemma StrpTimeLeapSecond(s: string)
    requires s == "2017-09-28T21:05:60.1"
    ensures StrpTime(s) == Err(ValueError)
  {
    LeapSecondCuts(s);
    LeapSecondField(s);
    ReadFieldsBadSecond(s, Cuts(7, 10, 13, 16, 19));
  }

  lemma LeapSecondCuts(s: string)
    requires s == "2017-09-28T21:05:60.1"
    ensures AllDigits(s[..4], 10) && StrpTime(s) == ReadFields(s, Cuts(7, 10, 13, 16, 19))
  {
    assert s[..4] == "2017";
    PaddedCuts(s);
  }

  lemma LeapSecondField(s: string)
    requires s == "2017-09-28T21:05:60.1"
    ensures SecondField(s[17..19]) == Some(60)
  {
    assert s[17..19] == "60";
  }

  /** The 29th of February of a common year is refused. */
  lemma StrpTimeCommonYear(s: string)
    requires s == "2023-02-29T21:05:54.1"
    ensures StrpTime(s) == Err(ValueError)
  {
    CommonYearCuts(s);
    CommonYearParts(s);
    ReadFieldsBadDay(s, Cuts(7, 10, 13, 16, 19));
  }

  lemma CommonYearCuts(s: string)
    requires s == "2023-02-29T21:05:54.1"
    ensures AllDigits(s[..4], 10) && StrpTime(s) == ReadFields(s, Cuts(7, 10, 13, 16, 19))
  {
    assert s[..4] == "2023";
    PaddedCuts(s);
  }

  lemma CommonYearParts(s: string)
    requires s == "2023-02-29T21:05:54.1"
    ensures AllDigits(s[..4], 10) && ValueOf(s[..4], 10) == 2023
    ensures MonthField(s[5..7]) == Some(2) && DayField(s[8..10]) == Some(29)
  {
    assert s[..4] == "2023";
    FourDigits(s[..4]);
    assert s[5..7] == "02" && s[8..10] == "29";
  }

  /** A seventh fraction digit is data the pattern leaves over. */
  lemma StrpTimeLongFraction(s: string)
    requires s == "2017-09-28T21:05:54.1234567"
    ensures StrpTime(s) == Err(ValueError)
  {
    LongFractionCuts(s);
    ReadFieldsLongFraction(s, Cuts(7, 10, 13, 16, 19));
  }

  lemma LongFractionCuts(s: string)
    requires s == "2017-09-28T21:05:54.1234567"
    ensures AllDigits(s[..4], 10) && StrpTime(s) == ReadFields(s, Cuts(7, 10, 13, 16, 19))
  {
    assert s[..4] == "2017";
    PaddedCuts(s);
  }

  /** Without a fraction the pattern fails. */
  lemma StrpTimeNoFraction(s: string)
    requires s == "2017-09-28T21:05:54"
    ensures StrpTime(s) == Err(ValueError)
  {
    NoDotNoCuts(s);
  }

  /** Without a `.` there is no fraction, and the pattern fails. */
  lemma NoDotNoCuts(s: string)
    requires 5 <= |s| && '.' !in s
    ensures Separators(s).None?
  {
  }

  lemma Powers()
    ensures Pow(10, 0) == 1 && Pow(10, 1) == 10 && Pow(10, 2) == 100 && Pow(10, 4) == 10000
    ensures Pow(10, 5) == 100000 && Pow(10, 6) == 1000000
  {
    assert Pow(10, 1) == 10;
    assert Pow(10, 2) == 100;
    assert Pow(10, 3) == 1000;
    assert Pow(10, 4) == 10000;
    assert Pow(10, 5) == 100000;
  }

  /** Where `isoformat()` puts each field when the microsecond is not zero. */
  lemma IsoLayout(t: Timestamp)
    requires ValidStamp(t) && t.micro != 0
    ensures var s := IsoFormat(t);
      && |s| == 26
      && s[4] == '-' && s[7] == '-' && s[10] == 'T' && s[13] == ':' && s[16] == ':' && s[19] == '.'
      && s[0..4] == Pad(t.year, 4, 10) && s[5..7] == Pad(t.month, 2, 10) && s[8..10] == Pad(t.day, 2, 10)
      && s[11..13] == Pad(t.hour, 2, 10) && s[14..16] == Pad(t.minute, 2, 10)
      && s[17..19] == Pad(t.second, 2, 10) && s[20..] == Pad(t.micro, 6, 10)
  {
    assert t.day <= 31;
    PadWidths(t.year, t.month, t.day, t.hour, t.minute, t.second, t.micro);
    Layout(Pad(t.year, 4, 10), Pad(t.month, 2, 10), Pad(t.day, 2, 10), Pad(t.hour, 2, 10),
           Pad(t.minute, 2, 10), Pad(t.second, 2, 10), Pad(t.micro, 6, 10));
  }

  /** Fields within the ranges of a `datetime` fill their widths exactly. */
  lemma PadWidths(year: nat, month: nat, day: nat, hour: nat, minute: nat, second: nat, micro: nat)
    requires year < 10000 && month < 100 && day < 100 && hour < 100 && minute < 100 && second < 100 && micro < 1000000
    ensures |Pad(year, 4, 10)| == 4 && |Pad(month, 2, 10)| == 2 && |Pad(day, 2, 10)| == 2
    ensures |Pad(hour, 2, 10)| == 2 && |Pad(minute, 2, 10)| == 2 && |Pad(second, 2, 10)| == 2
    ensures |Pad(micro, 6, 10)| == 6
  {
    Powers();
    PadLength(year, 4, 10);
    PadLength(month, 2, 10);
    PadLength(day, 2, 10);
    PadLength(hour, 2, 10);
    PadLength(minute, 2, 10);
    PadLength(second, 2, 10);
    PadLength(micro, 6, 10);
  }

  /** The positions of the pieces of a text laid out as `isoformat()` lays out its fields. */
  lemma Layout(y: string, mo: string, d: string, h: string, mi: string, sc: string, f: string)
    requires |y| == 4 && |mo| == 2 && |d| == 2 && |h| == 2 && |mi| == 2 && |sc| == 2 && |f| == 6
    ensures var s := y + "-" + mo + "-" + d + "T" + h + ":" + mi + ":" + sc + "." + f;
      && |s| == 26
      && s[4] == '-' && s[7] == '-' && s[10] == 'T' && s[13] == ':' && s[16] == ':' && s[19] == '.'
      && s[0..4] == y && s[5..7] == mo && s[8..10] == d
      && s[11..13] == h && s[14..16] == mi && s[17..19] == sc && s[20..] == f
  {
    var left := y + "-" + mo + "-" + d + "T" + h + ":";
    var right := mi + ":" + sc + "." + f;
    assert |left| == 14 && |right| == 12;
    assert left[0..4] == y && left[5..7] == mo && left[8..10] == d && left[11..13] == h;
    assert right[0..2] == mi && right[3..5] == sc && right[6..] == f;
    var s := y + "-" + mo + "-" + d + "T" + h + ":" + mi + ":" + sc + "." + f;
    assert s == left + right;
  }

  /** A two-digit numeral read as a whole is its `Two` value, and its digits are decimal. */
  lemma TwoDigits(p: string, n: nat)
    requires |p| == 2 && AllDigits(p, 10) && ValueOf(p, 10) == n
    ensures IsDecimal(p[0]) && IsDecimal(p[1]) && Two(p) == n
  {
    assert DigitValue(p[0]) < 10 && DigitValue(p[1]) < 10;
    Snoc([], p[0], 10);
    Snoc([p[0]], p[1], 10);
    assert [] + [p[0]] == [p[0]] && [p[0]] + [p[1]] == p;
  }

  /** A zero-padded two-digit field in range passes each field's alternation with its value. */
  lemma PaddedFields(p: string, n: nat)
    requires |p| == 2 && AllDigits(p, 10) && ValueOf(p, 10) == n
    ensures 1 <= n <= 12 ==> MonthField(p) == Some(n)
    ensures 1 <= n <= 31 ==> DayField(p) == Some(n)
    ensures n < 24 ==> HourField(p) == Some(n)
    ensures n < 60 ==> MinuteField(p) == Some(n) && SecondField(p) == Some(n)
  {
    TwoDigits(p, n);
  }

  /** A string laid out as `isoformat()` lays it out has its separators where the layout puts them. */
  lemma LayoutSeparators(s: string)
    requires |s| == 26 && AllDigits(s[0..4], 10) && AllDigits(s[5..7], 10) && AllDigits(s[8..10], 10)
    requires AllDigits(s[11..13], 10) && AllDigits(s[14..16], 10) && AllDigits(s[17..19], 10)
    requires s[4] == '-' && s[7] == '-' && s[10] == 'T' && s[13] == ':' && s[16] == ':' && s[19] == '.'
    ensures Separators(s) == Some(Cuts(7, 10, 13, 16, 19))
  {
    assert DigitValue(s[5]) < 10 && DigitValue(s[6]) < 10 by { assert s[5] == s[5..7][0] && s[6] == s[5..7][1]; }
    assert DigitValue(s[8]) < 10 && DigitValue(s[9]) < 10 by { assert s[8] == s[8..10][0] && s[9] == s[8..10][1]; }
    assert DigitValue(s[11]) < 10 && DigitValue(s[12]) < 10 by { assert s[11] == s[11..13][0] && s[12] == s[11..13][1]; }
    assert DigitValue(s[14]) < 10 && DigitValue(s[15]) < 10 by { assert s[14] == s[14..16][0] && s[15] == s[14..16][1]; }
    assert DigitValue(s[17]) < 10 && DigitValue(s[18]) < 10 by { assert s[17] == s[17..19][0] && s[18] == s[17..19][1]; }
    SeparatorsAt(s, Cuts(7, 10, 13, 16, 19));
  }

  /** The parser reads each field back from a string laid out as `isoformat()` lays it out. */
  lemma StrpTimeReadsLayout(s: string, t: Timestamp)
    requires ValidStamp(t) && t.micro != 0
    requires |s| == 26
    requires s[4] == '-' && s[7] == '-' && s[10] == 'T' && s[13] == ':' && s[16] == ':' && s[19] == '.'
    requires s[0..4] == Pad(t.year, 4, 10) && s[5..7] == Pad(t.month, 2, 10) && s[8..10] == Pad(t.day, 2, 10)
    requires s[11..13] == Pad(t.hour, 2, 10) && s[14..16] == Pad(t.minute, 2, 10)
    requires s[17..19] == Pad(t.second, 2, 10) && s[20..] == Pad(t.micro, 6, 10)
    ensures StrpTime(s) == Ok(t)
  {
    Powers();
    PadRoundTrip(t.year, 4, 10);
    PadRoundTrip(t.month, 2, 10);
    PadRoundTrip(t.day, 2, 10);
    PadRoundTrip(t.hour, 2, 10);
    PadRoundTrip(t.minute, 2, 10);
    PadRoundTrip(t.second, 2, 10);
    PadRoundTrip(t.micro, 6, 10);
    LayoutSeparators(s);
    PaddedFields(s[5..7], t.month);
    PaddedFields(s[8..10], t.day);
    PaddedFields(s[11..13], t.hour);
    PaddedFields(s[14..16], t.minute);
    PaddedFields(s[17..19], t.second);
    assert s[..4] == s[0..4];
    var k := Cuts(7, 10, 13, 16, 19);
    StrpTimeVia(s, k);
    assert |s[20..]| == 6;
    ReadFieldsOk(s, k, t);
  }

  /**
   * Parsing what `isoformat()` wrote gives back the instant, provided the microsecond is not zero
   * (`to_dict` then reconstruction from kwargs).
   */
  lemma IsoRoundTrip(t: Timestamp)
    requires ValidStamp(t) && t.micro != 0
    ensures StrpTime(IsoFormat(t)) == Ok(t)
  {
    IsoLayout(t);
    StrpTimeReadsLayout(IsoFormat(t), t);
  }

  /** With a zero microsecond `isoformat()` has no fraction, and the fixed pattern refuses it. */
  lemma IsoWithoutFractionRefused(t: Timestamp)
    requires ValidStamp(t) && t.micro == 0
    ensures StrpTime(IsoFormat(t)) == Err(ValueError)
  {
    NoDotInPad(t.year, 4);
    NoDotInPad(t.month, 2);
    NoDotInPad(t.day, 2);
    NoDotInPad(t.hour, 2);
    NoDotInPad(t.minute, 2);
    NoDotInPad(t.second, 2);
    var y, mo, d := Pad(t.year, 4, 10), Pad(t.month, 2, 10), Pad(t.day, 2, 10);
    var h, mi, sc := Pad(t.hour, 2, 10), Pad(t.minute, 2, 10), Pad(t.second, 2, 10);
    var s := IsoFormat(t);
    assert s == y + "-" + mo + "-" + d + "T" + h + ":" + mi + ":" + sc;
    assert '.' !in s;
    if 5 <= |s| {
      NoDotNoCuts(s);
    }
  }

  lemma NoDotInPad(n: nat, width: nat)
    ensures '.' !in Pad(n, width, 10)
  {
    PadRoundTrip(n, width, 10);
    NoDotInDigits(Pad(n, width, 10));
  }

  lemma NoDotInDigits(p: string)
    requires AllDigits(p, 10)
    ensures '.' !in p
  {
  }

  /** `repr(t)`: trailing zero microsecond, then trailing zero second, are left out. */
  function DatetimeRepr(t: Timestamp): string
  {
    var fields := [t.year, t.month, t.day, t.hour, t.minute]
      + (if t.micro != 0 then [t.second, t.micro] else if t.second != 0 then [t.second] else []);
    "datetime.datetime(" + Join(seq(|fields|, i requires 0 <= i < |fields| => IntStr(fields[i])), ", ") + ")"
  }
}
