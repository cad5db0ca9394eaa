/**
 * The `DDMMYYYY` calendar-date codec of the server's date utilities:
 * `formatToDDMMYYYY` writes the day and the month zero-padded to two digits and
 * then the year as `String(year)`, with no separators; `parseFromDDMMYYYY`
 * accepts only an 8-character string and reads day, month and year from fixed
 * positions.
 */
module DateUtils {

  import opened Wrappers
  import opened JsText
  import opened Calendar

  /** The text `formatToDDMMYYYY` writes for a valid date. */
  function DDMMYYYY(d: Date): string {
    PadStart(NatToString(d.day), 2, '0') + PadStart(NatToString(d.month), 2, '0') + IntToString(d.year)
  }

  /**
   * `formatToDDMMYYYY(date)`: null for a missing argument (`None`) or a value that is
   * not a real date; otherwise day, month and year run together.
   */
  function FormatToDDMMYYYY(date: Option<CalendarDate>): (r: Option<string>)
    ensures r.None? <==> date.None? || !ValidDate(date.value)
  {
    match date
    case None => None
    case Some(d) => if ValidDate(d) then Some(DDMMYYYY(d)) else None
  }

  /** Where the three fields sit in `day + month + year` when day and month have two digits each. */
  lemma FieldsOfConcat(dd: string, mm: string, yy: string)
    requires |dd| == 2 && |mm| == 2 && AllDigits(dd) && AllDigits(mm)
    ensures var s := dd + mm + yy;
      && |s| == 4 + |yy| && AllDigits(s[..4])
      && s[0..2] == dd && s[2..4] == mm && s[4..] == yy
  {
    var s := dd + mm + yy;
    assert s[..4] == dd + mm;
    assert forall k :: 0 <= k < 4 ==> (dd + mm)[k] == if k < 2 then dd[k] else mm[k - 2];
  }

  /** The layout of a formatted date: two day digits, two month digits, then `String(year)`. */
  lemma FormatLayout(d: Date)
    ensures FormatToDDMMYYYY(Some(d)) == Some(DDMMYYYY(d))
    ensures |DDMMYYYY(d)| == 4 + |IntToString(d.year)|
    ensures AllDigits(DDMMYYYY(d)[..4])
    ensures AllDigits(DDMMYYYY(d)[0..2]) && AllDigits(DDMMYYYY(d)[2..4])
    ensures DigitsValue(DDMMYYYY(d)[0..2]) == d.day
    ensures DigitsValue(DDMMYYYY(d)[2..4]) == d.month
    ensures DDMMYYYY(d)[4..] == IntToString(d.year)
  {
    var dd := PadStart(NatToString(d.day), 2, '0');
    var mm := PadStart(NatToString(d.month), 2, '0');
    PaddedDigits(d.day, 2);
    PaddedDigits(d.month, 2);
    FieldsOfConcat(dd, mm, IntToString(d.year));
  }

  /**
   * A formatted date is 8 characters long exactly when the year has four digits,
   * or is negative with three (the sign takes the fourth place).
   */
  lemma FormatLength(d: Date)
    ensures |FormatToDDMMYYYY(Some(d)).value| == 8 <==>
      (1000 <= d.year <= 9999 || -999 <= d.year <= -100)
  {
    FormatLayout(d);
    var a := if d.year < 0 then -d.year else d.year;
    NatToStringLength(a, 4);
    NatToStringLength(a, 3);
  }

  /**
   * `parseFromDDMMYYYY(s)`: null unless `s` has exactly 8 characters whose three
   * fields (day 0..2, month 2..4, year 4..8) are decimal digits naming a real date.
   */
  function ParseFromDDMMYYYY(s: string): (r: Option<Date>)
    ensures r.Some? <==>
      && |s| == 8 && AllDigits(s)
      && ValidDate(CalendarDate(DigitsValue(s[4..8]), DigitsValue(s[2..4]), DigitsValue(s[0..2])))
    ensures r.Some? ==>
      && r.value.day == DigitsValue(s[0..2])
      && r.value.month == DigitsValue(s[2..4])
      && r.value.year == DigitsValue(s[4..8])
  {
    if |s| != 8 then None
    else
      var day, month, year := s[0..2], s[2..4], s[4..8];
      if !(AllDigits(day) && AllDigits(month) && AllDigits(year)) then None
      else
        var d := CalendarDate(DigitsValue(year), DigitsValue(month), DigitsValue(day));
        if ValidDate(d) then
          assert s == day + month + year;
          Some(d)
        else None
  }

  lemma ParseRejectsWrongLength(s: string)
    requires |s| != 8
    ensures ParseFromDDMMYYYY(s).None?
  {
  }

  /**
   * Round trip: a real date survives formatting and parsing back exactly when its
   * year has four digits. Shorter years format to fewer than 8 characters, longer
   * ones to more, and negative years put a `-` among the year digits.
   */
  lemma RoundTrip(d: Date)
    ensures ParseFromDDMMYYYY(FormatToDDMMYYYY(Some(d)).value) == Some(d) <==>
      1000 <= d.year <= 9999
  {
    var s := FormatToDDMMYYYY(Some(d)).value;
    FormatLayout(d);
    FormatLength(d);
    if 1000 <= d.year <= 9999 {
      DigitsValueOfNatToString(d.year);
      assert AllDigits(s[..4]) && s[..4] == s[0..2] + s[2..4];
      assert s[4..8] == NatToString(d.year);
      assert AllDigits(s[0..2]) && AllDigits(s[2..4]);
    } else if |s| == 8 {
      assert d.year < 0;
      assert s[4..8][0] == '-';
    }
  }

  /**
   * The other direction: a string the parser accepts is reproduced by the formatter,
   * provided its year field has no leading zero (a year such as "0999" is read as
   * 999 and written back with three digits).
   */
  lemma ParseThenFormat(s: string)
    requires ParseFromDDMMYYYY(s).Some?
    requires s[4] != '0'
    ensures FormatToDDMMYYYY(Some(ParseFromDDMMYYYY(s).value)) == Some(s)
  {
    var d := ParseFromDDMMYYYY(s).value;
    TwoDigitsRepad(s[0..2]);
    TwoDigitsRepad(s[2..4]);
    NatToStringOfDigits(s[4..8]);
    assert s == s[0..2] + s[2..4] + s[4..8];
  }
}
