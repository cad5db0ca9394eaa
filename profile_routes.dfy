/**
 * Input handling of the profile routes: the date normaliser applied to the submitted
 * birthday, the guard on the `userId` path parameter of the by-id lookup, and the
 * column map a profile save writes, including the stored name and public path of an
 * uploaded photo.
 */
module ProfileRoutes {

  import opened Wrappers
  import opened JsText
  import opened Calendar

  // ---------------------------------------------------------------------------
  // formatDate
  // ---------------------------------------------------------------------------

  /** `new Date(s)` on a string: the instant it denotes, or None when the result is NaN. */
  type DateParser = string -> Option<Instant>

  /** The year as `toISOString` writes it: four digits, or a sign and six digits outside 0..9999. */
  function IsoYear(y: int): (r: string)
    ensures 0 <= y <= 9999 ==> |r| == 4 && AllDigits(r) && DigitsValue(r) == y
    ensures y < 0 ==> |r| >= 7 && r[0] == '-' && AllDigits(r[1..]) && DigitsValue(r[1..]) == -y
    ensures y > 9999 ==> |r| >= 7 && r[0] == '+' && AllDigits(r[1..]) && DigitsValue(r[1..]) == y
  {
    if 0 <= y <= 9999 then
      assert Pow10(4) == 10000;
      PaddedDigits(y, 4);
      PadStart(NatToString(y), 4, '0')
    else
      var m: nat := if y < 0 then -y else y;
      var digits := PadStart(NatToString(m), 6, '0');
      PaddedAtLeast(m, 6);
      var r := (if y < 0 then "-" else "+") + digits;
      assert r[1..] == digits;
      r
  }

  /**
   * The part of `toISOString()` before the `T`: the year, a dash, the month in two
   * digits, a dash and the day in two digits, of the UTC calendar date.
   */
  function IsoDatePart(d: Date): (r: string)
    ensures var y := IsoYear(d.year);
      && |r| == |y| + 6 && StartsWith(r, y) && r[|y|] == '-' && r[|y| + 3] == '-'
      && AllDigits(r[|y| + 1..|y| + 3]) && DigitsValue(r[|y| + 1..|y| + 3]) == d.month
      && AllDigits(r[|y| + 4..]) && DigitsValue(r[|y| + 4..]) == d.day
  {
    assert Pow10(2) == 100;
    PaddedDigits(d.month, 2);
    PaddedDigits(d.day, 2);
    IsoParts(IsoYear(d.year), PadStart(NatToString(d.month), 2, '0'), PadStart(NatToString(d.day), 2, '0'));
    IsoText(d.year, d.month, d.day)
  }

  /** Where the fields sit in `year-mm-dd` for a year text of any length. */
  lemma IsoParts(yy: string, mm: string, dd: string)
    requires |mm| == 2 && |dd| == 2
    ensures var s := yy + "-" + mm + "-" + dd;
      && |s| == |yy| + 6 && s[..|yy|] == yy && s[|yy|] == '-' && s[|yy| + 3] == '-'
      && s[|yy| + 1..|yy| + 3] == mm && s[|yy| + 4..] == dd
  {
  }

  function IsoText(year: int, month: nat, day: nat): string {
    IsoYear(year) + "-" + PadStart(NatToString(month), 2, '0') + "-" + PadStart(NatToString(day), 2, '0')
  }

  /**
   * `formatDate(dateStr)`: null for a missing or empty string and for a string the
   * engine cannot read as a date; otherwise `toISOString().split('T')[0]`, the UTC
   * calendar date of the instant.
   */
  function FormatDate(dateStr: Option<string>, parse: DateParser, calendarIn: CalendarIn): (r: Option<string>)
    ensures r.None? <==> dateStr.None? || dateStr.value == "" || parse(dateStr.value).None?
    ensures r.Some? ==> r.value == IsoDatePart(calendarIn(parse(dateStr.value).value, "UTC"))
  {
    if dateStr.None? || dateStr.value == "" then None
    else
      match parse(dateStr.value)
      case None => None
      case Some(instant) => Some(IsoDatePart(calendarIn(instant, "UTC")))
  }

  /**
   * `s` is the MySQL date literal `YYYY-MM-DD` of year `y`, month `m` and day `day`:
   * ten characters, dashes at 4 and 7, digit fields that read back as the three
   * numbers, and no `T`.
   */
  predicate IsMySqlDate(s: string, y: int, m: int, day: int) {
    && |s| == 10 && s[4] == '-' && s[7] == '-'
    && AllDigits(s[0..4]) && AllDigits(s[5..7]) && AllDigits(s[8..10])
    && DigitsValue(s[0..4]) == y
    && DigitsValue(s[5..7]) == m
    && DigitsValue(s[8..10]) == day
    && 'T' !in s
  }

  /**
   * For a year from 0 to 9999 the result is the MySQL date literal of the date, so
   * splitting at `T` keeps the whole of it.
   */
  lemma IsoDateFields(d: Date)
    requires 0 <= d.year <= 9999
    ensures IsMySqlDate(IsoDatePart(d), d.year, d.month, d.day)
  {
    IsoTextFields(d.year, d.month, d.day);
  }

  lemma IsoTextFields(y: nat, m: nat, day: nat)
    requires y <= 9999 && m < 100 && day < 100
    ensures IsMySqlDate(IsoText(y, m, day), y, m, day)
  {
    assert Pow10(4) == 10000 && Pow10(2) == 100;
    var yy := PadStart(NatToString(y), 4, '0');
    var mm := PadStart(NatToString(m), 2, '0');
    var dd := PadStart(NatToString(day), 2, '0');
    PaddedDigits(y, 4);
    PaddedDigits(m, 2);
    PaddedDigits(day, 2);
    assert IsoText(y, m, day) == yy + "-" + mm + "-" + dd;
    IsoFieldsOfParts(yy, mm, dd, y, m, day);
  }

  lemma IsoFieldsOfParts(yy: string, mm: string, dd: string, y: nat, m: nat, day: nat)
    requires |yy| == 4 && |mm| == 2 && |dd| == 2
    requires AllDigits(yy) && AllDigits(mm) && AllDigits(dd)
    requires DigitsValue(yy) == y && DigitsValue(mm) == m && DigitsValue(dd) == day
    ensures IsMySqlDate(yy + "-" + mm + "-" + dd, y, m, day)
  {
    IsoFieldsOfConcat(yy, mm, dd);
  }

  lemma IsoFieldsOfConcat(yy: string, mm: string, dd: string)
    requires |yy| == 4 && |mm| == 2 && |dd| == 2
    requires AllDigits(yy) && AllDigits(mm) && AllDigits(dd)
    ensures var s := yy + "-" + mm + "-" + dd;
      && |s| == 10 && s[4] == '-' && s[7] == '-'
      && s[0..4] == yy && s[5..7] == mm && s[8..10] == dd
      && 'T' !in s
  {
    var s := yy + "-" + mm + "-" + dd;
    assert forall k :: 0 <= k < 10 ==> IsDigit(s[k]) || s[k] == '-' by {
      assert forall k :: 0 <= k < 4 ==> s[k] == yy[k];
      assert forall k :: 5 <= k < 7 ==> s[k] == mm[k - 5];
      assert forall k :: 8 <= k < 10 ==> s[k] == dd[k - 8];
    }
  }

  // ---------------------------------------------------------------------------
  // The userId guard of GET /profile/{userId}
  // ---------------------------------------------------------------------------

  datatype LookupOutcome = BadRequest | Lookup(userId: int)

  /** `parseInt(userId, 10)`, answered with 400 when it is NaN or not positive. */
  function CheckUserId(raw: string): (r: LookupOutcome)
    ensures r.Lookup? ==> r.userId > 0 && ParseInt(raw) == Int(r.userId)
    ensures r.BadRequest? <==> ParseInt(raw).NaN? || ParseInt(raw).value <= 0
  {
    match ParseInt(raw)
    case NaN => BadRequest
    case Int(n) => if n <= 0 then BadRequest else Lookup(n)
  }

  /**
   * A path parameter that starts with the decimal form of `n` (and goes on with a
   * non-digit, if at all) looks up user `n` when `n` is positive and is rejected
   * otherwise.
   */
  lemma CheckUserIdOfNumeral(n: int, rest: string)
    requires rest == [] || !IsDigit(rest[0])
    ensures CheckUserId(IntToString(n) + rest) == if n > 0 then Lookup(n) else BadRequest
  {
    ParseIntOfIntToString(n, rest);
  }

  // ---------------------------------------------------------------------------
  // The uploaded photo
  // ---------------------------------------------------------------------------

  /** The text after the last `/` (the whole text when there is none). */
  function LastSegment(p: string): (r: string)
    ensures |r| <= |p| && r == p[|p| - |r|..] && '/' !in r
  {
    if p == [] || p[|p| - 1] == '/' then [] else LastSegment(p[..|p| - 1]) + [p[|p| - 1]]
  }

  function StripTrailingSlashes(p: string): (r: string)
    ensures r == [] || r[|r| - 1] != '/'
  {
    if p != [] && p[|p| - 1] == '/' then StripTrailingSlashes(p[..|p| - 1]) else p
  }

  /** The position of the last `.`. */
  function LastDot(s: string): (r: Option<nat>)
    ensures r.Some? ==> r.value < |s| && s[r.value] == '.' && '.' !in s[r.value + 1..]
    ensures r.None? ==> '.' !in s
  {
    if s == [] then None
    else if s[|s| - 1] == '.' then Some(|s| - 1)
    else
      var r := LastDot(s[..|s| - 1]);
      assert s == s[..|s| - 1] + [s[|s| - 1]];
      r
  }

  /**
   * Node's `path.extname`: from the last `.` of the last path segment to its end;
   * empty when there is no dot, when the dot starts the segment (`.profile`), and
   * for the segment `..`. Trailing slashes are ignored.
   */
  function ExtName(path: string): (e: string)
    ensures e == [] || (e[0] == '.' && '.' !in e[1..] && '/' !in e)
  {
    SegmentExt(LastSegment(StripTrailingSlashes(path)))
  }

  /** The extension of one path segment. */
  function SegmentExt(base: string): (e: string)
    requires '/' !in base
    ensures e == [] || (e[0] == '.' && '.' !in e[1..] && '/' !in e)
  {
    match LastDot(base)
    case None => ""
    case Some(k) =>
      if k == 0 || base == ".." then ""
      else
        assert base[k..][1..] == base[k + 1..];
        assert forall j :: 0 <= j < |base| - k ==> base[k..][j] == base[k + j];
        base[k..]
  }

  /**
   * `e` is the extension of segment `base`: a suffix of it, non-empty exactly when the
   * segment is not `..` and has a dot after its first character.
   */
  predicate IsExtensionOf(e: string, base: string) {
    && |e| <= |base| && e == base[|base| - |e|..]
    && (e != [] <==> base != ".." && exists k :: 0 < k < |base| && base[k] == '.')
  }

  /**
   * Which text the extension is: the extension of the last path segment, trailing
   * slashes ignored. Together with the shape of `ExtName`'s result (a dot, then no
   * further dot) this makes it the segment's text from its last dot.
   */
  lemma ExtNameValue(path: string)
    ensures IsExtensionOf(ExtName(path), LastSegment(StripTrailingSlashes(path)))
  {
    SegmentExtValue(LastSegment(StripTrailingSlashes(path)));
  }

  lemma SegmentExtValue(base: string)
    requires '/' !in base
    ensures IsExtensionOf(SegmentExt(base), base)
  {
    var e := SegmentExt(base);
    var d := LastDot(base);
    if d.Some? {
      var last := d.value;
      NoDotAfter(base, last);
      if e != [] {
        assert base[last] == '.';
      }
    }
  }

  /** No dot comes after the last one. */
  lemma NoDotAfter(s: string, last: nat)
    requires last < |s| && '.' !in s[last + 1..]
    ensures forall j :: last < j < |s| ==> s[j] != '.'
  {
    forall j | last < j < |s|
      ensures s[j] != '.'
    {
      assert s[j] == s[last + 1..][j - last - 1];
    }
  }

  /** A dot with no dot after it is where `LastDot` points. */
  lemma LastDotAt(s: string, k: nat)
    requires k < |s| && s[k] == '.' && '.' !in s[k + 1..]
    ensures LastDot(s) == Some(k)
  {
    var d := LastDot(s);
    assert '.' in s by { assert s[k] in s; }
    NoDotAfter(s, d.value);
    NoDotAfter(s, k);
  }

  /** `path.extname` on typical segments: the text from the last dot. */
  lemma SegmentExtExamples()
    ensures SegmentExt("photo.jpg") == ".jpg"
    ensures SegmentExt("archive.tar.gz") == ".gz"
  {
    SegmentExtAt("photo.jpg", 5);
    SegmentExtAt("archive.tar.gz", 11);
  }

  /** A leading dot or no dot at all gives no extension. */
  lemma SegmentExtEmptyExamples()
    ensures SegmentExt(".profile") == ""
    ensures SegmentExt("README") == ""
  {
    SegmentExtAt(".profile", 0);
    assert '.' !in "README";
  }

  /** The extension of a segment whose last dot is at `k`. */
  lemma SegmentExtAt(base: string, k: nat)
    requires '/' !in base && base != ".."
    requires k < |base| && base[k] == '.' && '.' !in base[k + 1..]
    ensures SegmentExt(base) == if k == 0 then "" else base[k..]
  {
    LastDotAt(base, k);
  }

  /** The name multer stores an upload under: `${user id}-${Date.now()}${extname(original)}`. */
  function StoredFileName(userId: int, now: Instant, originalName: string): (name: string)
    ensures |IntToString(userId)| + 1 + |IntToString(now)| + |ExtName(originalName)| == |name|
    ensures name[|IntToString(userId)|] == '-'
    ensures name[|IntToString(userId)| + 1..|name| - |ExtName(originalName)|] == IntToString(now)
    ensures name[|name| - |ExtName(originalName)|..] == ExtName(originalName)
  {
    var id, stamp, ext := IntToString(userId), IntToString(now), ExtName(originalName);
    SeparatedParts(id, stamp, ext);
    id + ("-" + (stamp + ext))
  }

  /** Where the parts sit in `head-middle` followed by `tail`. */
  lemma SeparatedParts(head: string, middle: string, tail: string)
    ensures var s := head + ("-" + (middle + tail));
      && |s| == |head| + 1 + |middle| + |tail| && s[|head|] == '-'
      && s[|head| + 1..|s| - |tail|] == middle && s[|s| - |tail|..] == tail
  {
    var s := head + ("-" + (middle + tail));
    assert s[|head| + 1..] == middle + tail;
  }

  /** The stored file name begins with the uploader's id, which `parseInt` reads back. */
  lemma StoredFileNameNamesUploader(userId: int, now: Instant, originalName: string)
    ensures StartsWith(StoredFileName(userId, now, originalName), IntToString(userId) + "-")
    ensures ParseInt(StoredFileName(userId, now, originalName)) == Int(userId)
  {
    NumeralThenDash(userId, IntToString(now) + ExtName(originalName));
  }

  /** `<n>-<tail>` starts with `<n>-` and `parseInt` reads it as `n`. */
  lemma NumeralThenDash(n: int, tail: string)
    ensures StartsWith(IntToString(n) + ("-" + tail), IntToString(n) + "-")
    ensures ParseInt(IntToString(n) + ("-" + tail)) == Int(n)
  {
    ParseIntOfIntToString(n, "-" + tail);
    StartsWithAfterSeparator(IntToString(n), tail);
  }

  lemma StartsWithAfterSeparator(head: string, tail: string)
    ensures StartsWith(head + ("-" + tail), head + "-")
  {
    assert head + ("-" + tail) == (head + "-") + tail;
    assert ((head + "-") + tail)[..|head + "-"|] == head + "-";
  }

  /** `process.env.UPLOAD_DIR || 'uploads/'` */
  function UploadDir(configured: Option<string>): (dir: string)
    ensures (configured.None? || configured.value == "") ==> dir == "uploads/"
    ensures (configured.Some? && configured.value != "") ==> dir == configured.value
  {
    if configured.None? || configured.value == "" then "uploads/" else configured.value
  }

  /** An uploaded file as multer reports it: the client's file name and the upload time. */
  datatype Upload = Upload(originalName: string, receivedAt: Instant)

  /** `latest_photo`: the public path of the stored upload, or null without one. */
  function LatestPhoto(userId: int, uploadDir: string, upload: Option<Upload>): (r: Option<string>)
    ensures r.None? <==> upload.None?
    ensures r.Some? ==>
      && StartsWith(r.value, "/aphians/" + uploadDir)
      && r.value[|"/aphians/" + uploadDir|..] == StoredFileName(userId, upload.value.receivedAt, upload.value.originalName)
  {
    match upload
    case None => None
    case Some(u) => Some("/aphians/" + uploadDir + StoredFileName(userId, u.receivedAt, u.originalName))
  }

  // ---------------------------------------------------------------------------
  // profileData
  // ---------------------------------------------------------------------------

  /**
   * A value of the column map. `NotANumber` is what `parseInt` gives for non-numeric
   * text, and `Infinity` what it gives for a digit run too large for a double; the
   * driver writes them as the bare words `NaN` and `Infinity` (or `-Infinity`),
   * which MySQL cannot store.
   */
  datatype SqlValue = Null | Str(s: string) | Num(n: int) | NotANumber | Infinity(negative: bool)

  /**
   * The least magnitude an IEEE 754 double rounds to infinity: 2^1024 - 2^970, halfway
   * between the largest finite double and 2^1024 (a tie goes to the even side, which
   * is infinity).
   */
  const DoubleOverflow: int := 179769313486231580793728971405303415079934132710037826936173778980444968292764750946649017977587207096330286416692887910946555547851940402630657488671505820681908902000708383676273854845817711531764475730270069855571366959622842914819860834936475292719074168444365510704342711559699508093042880177904174497792

  /** A value the driver writes as a literal MySQL accepts. */
  predicate Writable(v: SqlValue) {
    !v.NotANumber? && !v.Infinity?
  }

  type Row = map<string, SqlValue>

  /** The text columns copied from the submitted form. */
  const TextColumns: set<string> := {
    "full_name", "street_address", "city", "state", "zip", "country", "phone_number", "email_id",
    "current_occupation", "company_name", "job_role",
    "social_media_1", "social_media_2", "social_media_3",
    "spouse_name", "child_1_name", "child_2_name", "child_3_name",
    "special_message"}

  const AgeColumns: set<string> := {"child_1_age", "child_2_age", "child_3_age"}

  /** Every column a profile save writes. */
  const ProfileColumns: set<string> := TextColumns + AgeColumns + {"user_id", "birthday", "latest_photo"}

  /** The reminder settings, columns a profile save never writes. */
  const ReminderColumns: set<string> := {"marriage_anniversary", "timezone", "receive_email_reminders"}

  /** A submitted form field; absent keys are `undefined`. */
  function Field(body: map<string, string>, key: string): Option<string> {
    if key in body then Some(body[key]) else None
  }

  /** `value || null` */
  function OrNull(v: Option<string>): (r: SqlValue)
    ensures r == Null <==> v.None? || v.value == ""
    ensures r != Null ==> r == Str(v.value)
  {
    if v.None? || v.value == "" then Null else Str(v.value)
  }

  /** `value ? parseInt(value, 10) : null` */
  function AgeValue(v: Option<string>): SqlValue {
    if v.None? || v.value == "" then Null
    else match ParseInt(v.value)
      case NaN => NotANumber
      case Int(n) => NumberValue(n)
  }

  /** The JavaScript number an integer read by `parseInt` becomes: itself, or an infinity. */
  function NumberValue(n: int): SqlValue {
    if n >= DoubleOverflow then Infinity(false)
    else if n <= -DoubleOverflow then Infinity(true)
    else Num(n)
  }

  /**
   * An age is null when missing or empty, NaN when `parseInt` finds no number, an
   * infinity when the number is past the double range, and otherwise that number.
   */
  lemma AgeValueCases(v: Option<string>)
    ensures AgeValue(v) == Null <==> v.None? || v.value == ""
    ensures AgeValue(v) == NotANumber <==> v.Some? && v.value != "" && ParseInt(v.value).NaN?
    ensures AgeValue(v).Infinity? <==>
      v.Some? && v.value != "" && ParseInt(v.value).Int? &&
      (ParseInt(v.value).value >= DoubleOverflow || ParseInt(v.value).value <= -DoubleOverflow)
    ensures AgeValue(v).Num? ==>
      ParseInt(v.value) == Int(AgeValue(v).n) && -DoubleOverflow < AgeValue(v).n < DoubleOverflow
    ensures !AgeValue(v).Str?
  {
  }

  /**
   * An age written as a decimal numeral (possibly followed by non-digits) is stored as
   * that number, unless it is past the double range.
   */
  lemma AgeValueOfNumeral(n: int, rest: string)
    requires rest == [] || !IsDigit(rest[0])
    ensures AgeValue(Some(IntToString(n) + rest)) ==
      if n >= DoubleOverflow then Infinity(false)
      else if n <= -DoubleOverflow then Infinity(true)
      else Num(n)
  {
    ParseIntOfIntToString(n, rest);
  }

  /** The value a profile save writes to column `k`. */
  function ColumnValue(
    k: string, userId: int, body: map<string, string>, upload: Option<Upload>, uploadDir: string,
    parse: DateParser, calendarIn: CalendarIn): SqlValue
  {
    if k in TextColumns then OrNull(Field(body, k))
    else if k in AgeColumns then AgeValue(Field(body, k))
    else if k == "user_id" then Num(userId)
    else if k == "birthday" then
      match FormatDate(Field(body, "birthday"), parse, calendarIn)
      case None => Null
      case Some(s) => Str(s)
    else
      match LatestPhoto(userId, uploadDir, upload)
      case None => Null
      case Some(s) => Str(s)
  }

  /** The column groups do not overlap. */
  lemma ColumnGroupsDisjoint()
    ensures TextColumns !! AgeColumns
    ensures "user_id" !in TextColumns + AgeColumns
    ensures "birthday" !in TextColumns + AgeColumns
    ensures "latest_photo" !in TextColumns + AgeColumns
    ensures ReminderColumns !! ProfileColumns
  {
  }

  /**
   * The column map of a profile save. `userId` is the session user's id; the body's
   * own `user_id`, if any, plays no part.
   */
  function ProfileData(
    userId: int, body: map<string, string>, upload: Option<Upload>, uploadDir: string,
    parse: DateParser, calendarIn: CalendarIn): (data: Row)
    ensures data.Keys == ProfileColumns
    ensures data["user_id"] == Num(userId)
    ensures forall k :: k in TextColumns ==> data[k] == OrNull(Field(body, k))
    ensures forall k :: k in AgeColumns ==> data[k] == AgeValue(Field(body, k))
    ensures data["birthday"] == match FormatDate(Field(body, "birthday"), parse, calendarIn)
      case None => Null
      case Some(s) => Str(s)
    ensures data["latest_photo"] == match LatestPhoto(userId, uploadDir, upload)
      case None => Null
      case Some(s) => Str(s)
  {
    ColumnGroupsDisjoint();
    map k | k in ProfileColumns :: ColumnValue(k, userId, body, upload, uploadDir, parse, calendarIn)
  }

  /**
   * Only the form fields the handler reads matter: changing or adding any other key,
   * such as `user_id`, `marriage_anniversary`, `timezone` or
   * `receive_email_reminders`, leaves the column map as it was.
   */
  lemma ProfileDataIgnoresOtherFields(
    userId: int, body: map<string, string>, key: string, value: string,
    upload: Option<Upload>, uploadDir: string, parse: DateParser, calendarIn: CalendarIn)
    requires key !in TextColumns && key !in AgeColumns && key != "birthday"
    ensures ProfileData(userId, body[key := value], upload, uploadDir, parse, calendarIn)
         == ProfileData(userId, body, upload, uploadDir, parse, calendarIn)
  {
    forall k | k in ProfileColumns
      ensures ColumnValue(k, userId, body[key := value], upload, uploadDir, parse, calendarIn)
           == ColumnValue(k, userId, body, upload, uploadDir, parse, calendarIn)
    {
      ColumnValueIgnoresOtherFields(k, userId, body, key, value, upload, uploadDir, parse, calendarIn);
    }
  }

  lemma ColumnValueIgnoresOtherFields(
    k: string, userId: int, body: map<string, string>, key: string, value: string,
    upload: Option<Upload>, uploadDir: string, parse: DateParser, calendarIn: CalendarIn)
    requires key !in TextColumns && key !in AgeColumns && key != "birthday"
    ensures ColumnValue(k, userId, body[key := value], upload, uploadDir, parse, calendarIn)
         == ColumnValue(k, userId, body, upload, uploadDir, parse, calendarIn)
  {
    var body' := body[key := value];
    if k in TextColumns || k in AgeColumns {
      assert Field(body', k) == Field(body, k);
    } else {
      assert Field(body', "birthday") == Field(body, "birthday");
    }
  }

  /**
   * Whether the query can be sent as it stands. mysql2 writes a NaN or infinite number
   * unquoted, so `` `child_1_age` = NaN `` reaches MySQL, which rejects it as an unknown
   * column; the handler then answers 500 and nothing is written.
   */
  predicate Storable(data: Row) {
    forall k :: k in data ==> Writable(data[k])
  }

  /**
   * Every age the form gives is empty or starts with a number (after white space and a
   * sign) within the double range.
   */
  predicate AgesReadable(body: map<string, string>) {
    forall k :: k in AgeColumns ==> Writable(AgeValue(Field(body, k)))
  }

  /** A profile's column map can be stored exactly when every submitted age reads as a finite number. */
  lemma StorableIffAgesReadable(
    userId: int, body: map<string, string>, upload: Option<Upload>, uploadDir: string,
    parse: DateParser, calendarIn: CalendarIn)
    ensures Storable(ProfileData(userId, body, upload, uploadDir, parse, calendarIn)) <==> AgesReadable(body)
  {
    var data := ProfileData(userId, body, upload, uploadDir, parse, calendarIn);
    forall k | k in data
      ensures !Writable(data[k]) <==> k in AgeColumns && !Writable(AgeValue(Field(body, k)))
    {
      ColumnValueUnwritable(k, userId, body, upload, uploadDir, parse, calendarIn);
    }
    if !AgesReadable(body) {
      var k :| k in AgeColumns && !Writable(AgeValue(Field(body, k)));
      assert k in ProfileColumns;
    }
  }

  /** Only an age column can hold NaN or an infinity. */
  lemma ColumnValueUnwritable(
    k: string, userId: int, body: map<string, string>, upload: Option<Upload>, uploadDir: string,
    parse: DateParser, calendarIn: CalendarIn)
    ensures !Writable(ColumnValue(k, userId, body, upload, uploadDir, parse, calendarIn))
      <==> k in AgeColumns && !Writable(AgeValue(Field(body, k)))
  {
    ColumnGroupsDisjoint();
  }

  /**
   * `INSERT INTO profiles SET ? ON DUPLICATE KEY UPDATE ?` keyed by `user_id`. A query
   * the database rejects changes nothing. Otherwise an existing row has the written
   * columns replaced and keeps the rest, and a new row starts from the table's column
   * defaults.
   */
  function SaveProfile(table: map<int, Row>, data: Row, defaults: Row): (after: map<int, Row>)
    requires "user_id" in data && data["user_id"].Num?
    ensures !Storable(data) ==> after == table
    ensures Storable(data) ==> after.Keys == table.Keys + {data["user_id"].n}
  {
    if !Storable(data) then table
    else
      var id := data["user_id"].n;
      table[id := if id in table then table[id] + data else defaults + data]
  }

  /**
   * After a save that the database accepts, the user's row holds every written value
   * and keeps every column the save does not write; no other user's row changes.
   */
  lemma SaveProfileEffect(table: map<int, Row>, data: Row, defaults: Row)
    requires "user_id" in data && data["user_id"].Num?
    ensures var id := data["user_id"].n;
      var after := SaveProfile(table, data, defaults);
      Storable(data) ==>
      && id in after
      && (forall k :: k in data ==> k in after[id] && after[id][k] == data[k])
      && (id in table ==> forall k :: k in table[id] && k !in data ==> k in after[id] && after[id][k] == table[id][k])
      && (forall other :: other in table && other != id ==> other in after && after[other] == table[other])
  {
  }

  /**
   * A profile save leaves the user's reminder settings (anniversary, time zone and
   * opt-in flag) as they were.
   */
  lemma SaveKeepsReminderSettings(
    table: map<int, Row>, userId: int, body: map<string, string>, upload: Option<Upload>,
    uploadDir: string, parse: DateParser, calendarIn: CalendarIn, defaults: Row)
    requires userId in table
    ensures var data := ProfileData(userId, body, upload, uploadDir, parse, calendarIn);
      var after := SaveProfile(table, data, defaults);
      && userId in after
      && forall k :: k in ReminderColumns && k in table[userId] ==>
           k in after[userId] && after[userId][k] == table[userId][k]
  {
    var data := ProfileData(userId, body, upload, uploadDir, parse, calendarIn);
    ColumnGroupsDisjoint();
    SaveProfileEffect(table, data, defaults);
  }

  /**
   * `latest_photo` is always written, so saving a profile without choosing a new
   * file replaces a stored photo path with null, unless a non-numeric age makes the
   * whole save fail, in which case the table, photo included, stays as it was.
   */
  lemma SaveWithoutUploadClearsPhoto(
    table: map<int, Row>, userId: int, body: map<string, string>,
    uploadDir: string, parse: DateParser, calendarIn: CalendarIn, defaults: Row)
    ensures var data := ProfileData(userId, body, None, uploadDir, parse, calendarIn);
      var after := SaveProfile(table, data, defaults);
      && (AgesReadable(body) ==>
            userId in after && "latest_photo" in after[userId] && after[userId]["latest_photo"] == Null)
      && (!AgesReadable(body) ==> after == table)
  {
    var data := ProfileData(userId, body, None, uploadDir, parse, calendarIn);
    StorableIffAgesReadable(userId, body, None, uploadDir, parse, calendarIn);
    SaveProfileEffect(table, data, defaults);
  }
}
