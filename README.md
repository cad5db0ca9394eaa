# Aphians profiles and event reminders — a Dafny model

Aphians is a members' directory. Each member keeps a profile with contact details, a
birthday, a marriage anniversary and a photo. A scheduled job emails a reminder for
each opted-in member whose birthday or anniversary falls within the coming week. This
project models the logic of that job, of the date helpers it uses, of the profile
routes' input handling, and of the profile page's photo and ownership decisions. It
then proves properties of that model.

Modules:

- `JsText` holds the JavaScript built-ins the code relies on: `String(n)`, `padStart`,
  `startsWith`, `replace` with a string pattern, `parseInt(s, 10)` and `join`. Each is
  written out with its own contract. `String(n)` and `parseInt` are also proved
  against a digit-decoding reference and against each other.
- `Calendar` holds proleptic Gregorian dates, instants and time-zone names. Reading an
  instant as a calendar date in a zone is a parameter, `CalendarIn`. It stands in for
  moment-timezone and, in the reminder job, for the engine's local-time getters.
- `DateUtils` models `formatToDDMMYYYY` and `parseFromDDMMYYYY`.
- `Reminders` models the reminder job:
  - the SQL prefilter and its parameters;
  - the per-row check in the user's own zone;
  - message composition;
  - `sendEmail`, with a `Mailer` class that records every message handed to the
    transport;
  - `fetchUpcomingReminders` and `processReminders`, as imperative loops proved
    against recursive specification functions.
- `ProfileRoutes` models `formatDate`, the `userId` guard of the by-id lookup,
  `path.extname`, the stored upload name and public path, the `profileData` column
  map, and the upsert that writes it.
- `ProfileView` models `getImageUrl`, `BASE_URL` and `isOwnProfile`.

Behaviour worth knowing:

- **Window.** The job's window is "same month, day from today to today + 7". A date
  early next month is never reported.
- **Zones.**
  - The SQL prefilter compares the stored dates with the server's calendar day.
  - The per-row check compares them with the user's calendar day.
  - The date printed in the email is the stored date read in the server's zone. This
    is because `formatToDDMMYYYY` rebuilds a `Date` and uses local getters.
  - `QueryKeepsDueRowsInServerZone` and `QueryRowsAreDueInServerZone` show that,
    for an opted-in user whose zone is the server's, the two tests agree.
- **Saving a profile.**
  - A save always writes `latest_photo`, so a save without a new file clears the
    stored photo.
  - A child age that is not a number becomes `NaN`, and one whose digit run is past
    the range of a double becomes `Infinity` or `-Infinity`. The driver writes these
    unquoted, MySQL rejects the query, and the whole save fails with nothing written.
  - A save never touches the anniversary, time zone or opt-in columns.
- **Date round trip.** `formatToDDMMYYYY` followed by `parseFromDDMMYYYY` returns the
  same date exactly for four-digit years.

## Model

| member | source | states |
|---|---|---|
| `Reminders.QueryParams` | server/src/routes/reminders.js:69-72 | six parameters: today's month and day on the server and day + 7, the triple repeated for the anniversary column |
| `Reminders.SelectRows` | server/src/routes/reminders.js:60-68 | a row is returned iff it is in the table and passes the WHERE clause; every returned row has `receive_email_reminders = 1`; no more rows than the table |
| `Reminders.UserZone` | server/src/routes/reminders.js:79 | a missing or empty zone is `UTC`; otherwise the stored zone |
| `Reminders.ReminderFor` | server/src/routes/reminders.js:124-132 | no reminder iff the row has no event; otherwise the row's id, name and email, its resolved zone and its events |
| `Reminders.EventsOfProfile` | server/src/routes/reminders.js:84-122 | at most two events, birthday before anniversary; each kind is present iff its date exists and falls in the user-zone window; each date is the server-zone `DDMMYYYY` text |
| `Reminders.RemindersFollowRows` | server/src/routes/reminders.js:76-133 | reminder k comes from row idx[k]; the map is strictly increasing (row order, one per row); every row with an event is represented |
| `Reminders.ProfileEvents` | server/src/routes/reminders.js:84-122 | at most two events, and when there are two the birthday comes first |
| `Reminders.AtMostOneReminderPerRow` | server/src/routes/reminders.js:76-133 | `UpcomingReminders` gives no more reminders than rows |
| `Reminders.RemindersHoldOneOrTwoEvents` | server/src/routes/reminders.js:76-133 | every reminder `UpcomingReminders` builds holds one or two events |
| `Reminders.QueryKeepsDueRowsInServerZone` | server/src/routes/reminders.js:63-67 | for an opted-in user in the server's zone, a row the loop would report passes the SQL prefilter |
| `Reminders.QueryRowsAreDueInServerZone` | server/src/routes/reminders.js:63-67 | conversely, in the server's zone a row the SQL prefilter returns becomes a reminder |
| `Reminders.RowEvents` | server/src/routes/reminders.js:84-122 | the events the loop body collects for a row are exactly the row's specified events |
| `Reminders.FetchUpcomingReminders` | server/src/routes/reminders.js:49-136 | the loop's result equals the recursive specification applied to the query's rows |
| `Reminders.Descriptions` | server/src/routes/reminders.js:156 | one `<type> on <date>` line per event, in order |
| `Reminders.EventMessagesOfReminder` | server/src/routes/reminders.js:156 | one event gives its own line; two are joined by ` and ` |
| `Reminders.BodyLayout` | server/src/routes/reminders.js:158 | `Body`: the greeting naming the person, then the event line, then `.` and the sign-off |
| `Reminders.Subject` | server/src/routes/reminders.js:157 | the subject is `Upcoming Event Reminder: ` followed by the name (or `null`) |
| `Reminders.SenderAddress` | server/src/routes/reminders.js:34 | an unset or empty `EMAIL_FROM` gives the default sender; otherwise the setting |
| `Reminders.OutboxPerReminder` | server/src/routes/reminders.js:154-160 | one message per reminder, k-th to k-th, to the reminder's own address, with its subject and text |
| `Reminders.Mailer.constructor` | server/src/routes/reminders.js:34 | the sender is resolved once; nothing sent yet |
| `Reminders.Mailer.Transmit` | server/src/routes/reminders.js:39 | the message is recorded, and its outcome is whether the transport accepted it |
| `Reminders.Mailer.SendEmail` | server/src/routes/reminders.js:31-46 | exactly one transport attempt with the configured sender; the boolean result is the recorded outcome |
| `Reminders.SendReminder` | server/src/routes/reminders.js:155-160 | one message from the configured sender to the reminder's address, with its subject and text, is handed to the transport; one outcome is added and the earlier ones are kept |
| `Reminders.SendAll` | server/src/routes/reminders.js:154-166 | the messages handed to the transport are the reminders' messages in order, one outcome each, earlier outcomes kept |
| `Reminders.ProcessReminders` | server/src/routes/reminders.js:144-172 | a failed query sends nothing; otherwise every reminder is mailed once, in order, whatever the earlier outcomes, and the earlier outcomes are kept |
| `DateUtils.FormatToDDMMYYYY` | server/src/utils/dateUtils.js:1-9 | null exactly for a missing or invalid date |
| `DateUtils.FormatLayout` | server/src/utils/dateUtils.js:5-8 | two digits of day, two of month, then the year's decimal text; the fields decode back to day and month |
| `DateUtils.FormatLength` | server/src/utils/dateUtils.js:5-8 | the text is 8 long iff the year is 1000..9999 or -999..-100 |
| `DateUtils.ParseFromDDMMYYYY` | server/src/utils/dateUtils.js:11-18 | a date is returned iff the text is 8 digits whose fields form a valid date, and the fields decode to it |
| `DateUtils.ParseRejectsWrongLength` | server/src/utils/dateUtils.js:12 | any length other than 8 gives null |
| `DateUtils.RoundTrip` | server/src/utils/dateUtils.js:1-18 | parsing a formatted date gives it back iff its year has four digits |
| `DateUtils.ParseThenFormat` | server/src/utils/dateUtils.js:1-18 | formatting a parsed string gives the string back when the year does not start with 0 |
| `JsText.PadStart` | server/src/utils/dateUtils.js:5-6 | the length is the larger of the two; the original is the suffix; the rest is fill |
| `JsText.NatToString` | server/src/utils/dateUtils.js:5-6 | `String(n)`: at least one digit, and a leading `0` only for zero |
| `JsText.IntToString` | server/src/utils/dateUtils.js:7-8 | `String(i)`: the digits of a non-negative value, a minus sign before the digits of a negative one |
| `JsText.ParseIntResult` | server/src/routes/profile.routes.js:70 | `ParseInt`: NaN iff no digit follows the leading white space and optional sign; otherwise the value of the digit run, negated after `-` |
| `JsText.Join` | server/src/routes/reminders.js:156 | empty for no parts, the part itself for one, the first part and the separator at the front for more |
| `JsText.JoinSnoc` | server/src/routes/reminders.js:156 | joining one more part appends the separator and that part |
| `JsText.ParseIntOfIntToString` | server/src/routes/profile.routes.js:70 | `parseInt` reads back a decimal numeral followed by a non-digit |
| `JsText.ReplaceFirst` | client/src/components/ProfileView.jsx:45 | unchanged without an occurrence; otherwise the first occurrence is replaced |
| `ProfileRoutes.IsoYear` | server/src/routes/profile.routes.js:46 | four digits reading back as the year for 0..9999; otherwise `-` (negative) or `+` (past 9999), then at least six digits reading back as the year's magnitude |
| `ProfileRoutes.IsoDatePart` | server/src/routes/profile.routes.js:46 | the year text, `-`, two digits reading back as the month, `-`, two digits reading back as the day |
| `ProfileRoutes.FormatDate` | server/src/routes/profile.routes.js:43-47 | null iff the input is missing, empty or not a date; otherwise the UTC `YYYY-MM-DD` |
| `ProfileRoutes.IsoDateFields` | server/src/routes/profile.routes.js:46 | for years 0..9999 the text is a MySQL date literal: ten characters, dashes at 4 and 7, fields that decode to year, month and day, no `T` |
| `ProfileRoutes.CheckUserId` | server/src/routes/profile.routes.js:70-78 | 400 iff `parseInt` is NaN or not positive; a lookup uses the parsed positive id |
| `ProfileRoutes.CheckUserIdOfNumeral` | server/src/routes/profile.routes.js:70-71 | a numeral parameter looks up that user when positive and is rejected otherwise |
| `ProfileRoutes.UploadDir` | server/src/routes/profile.routes.js:19 | an unset or empty `UPLOAD_DIR` is `uploads/` |
| `ProfileRoutes.ExtName` | server/src/routes/profile.routes.js:35 | the extension is empty or a dot followed by text with no dot or slash |
| `ProfileRoutes.ExtNameValue` | server/src/routes/profile.routes.js:35 | the extension is a suffix of the last path segment, non-empty iff the segment is not `..` and has a dot after its first character |
| `ProfileRoutes.SegmentExtExamples` | server/src/routes/profile.routes.js:35 | `photo.jpg` gives `.jpg`, `archive.tar.gz` gives `.gz` |
| `ProfileRoutes.SegmentExtEmptyExamples` | server/src/routes/profile.routes.js:35 | `.profile` and `README` give no extension |
| `ProfileRoutes.StoredFileName` | server/src/routes/profile.routes.js:35 | the stored name is the user id, `-`, `String(Date.now())`, then the original file's extension, each part at its stated position |
| `ProfileRoutes.StoredFileNameNamesUploader` | server/src/routes/profile.routes.js:35 | the stored name starts with `<user id>-`, and `parseInt` reads the user id back |
| `ProfileRoutes.LatestPhoto` | server/src/routes/profile.routes.js:112 | null iff no file; otherwise `/aphians/` + upload dir + stored name |
| `ProfileRoutes.OrNull` | server/src/routes/profile.routes.js:122-140 | null iff the field is missing or empty; otherwise the text |
| `ProfileRoutes.AgeValueCases` | server/src/routes/profile.routes.js:141-143 | `AgeValue`: null iff the field is missing or empty; NaN iff `parseInt` finds no number; an infinity iff the parsed integer's magnitude is at least the least one that rounds to infinity as a double; otherwise the parsed integer |
| `ProfileRoutes.AgeValueOfNumeral` | server/src/routes/profile.routes.js:141-143 | a numeric age is stored as that number, or as an infinity of its sign when past the double range |
| `ProfileRoutes.ProfileData` | server/src/routes/profile.routes.js:120-146 | exactly the profile columns; the session user's id; each text, age, birthday and photo value as above |
| `ProfileRoutes.ProfileDataIgnoresOtherFields` | server/src/routes/profile.routes.js:103-110 | form keys other than the destructured ones, `user_id` included, do not change the column map |
| `ProfileRoutes.StorableIffAgesReadable` | server/src/routes/profile.routes.js:141-143 | the column map holds no NaN and no infinity iff every submitted age is empty or reads as a number within the double range |
| `ProfileRoutes.SaveProfile` | server/src/routes/profile.routes.js:148-154 | a map holding NaN or an infinity makes the query fail and leaves the table as it was; otherwise exactly the user's row is added or kept |
| `ProfileRoutes.SaveProfileEffect` | server/src/routes/profile.routes.js:148-149 | after an accepted save, written columns take the new values; other columns and other users' rows are kept |
| `ProfileRoutes.SaveKeepsReminderSettings` | server/src/routes/profile.routes.js:120-149 | a save leaves the anniversary, time zone and opt-in flag as they were |
| `ProfileRoutes.SaveWithoutUploadClearsPhoto` | server/src/routes/profile.routes.js:141-154 | a save without a file sets `latest_photo` to null when every age is empty or reads as a number within the double range; otherwise the save fails and the table is unchanged |
| `ProfileView.BaseUrl` | client/src/components/ProfileView.jsx:9 | an unset or empty `REACT_APP_BASE_URL` gives the default site |
| `ProfileView.GetImageUrl` | client/src/components/ProfileView.jsx:36-48 | the URL is the placeholder, starts with the base URL, or is the stored value itself; no photo gives the placeholder |
| `ProfileView.ImageUrlCases` | client/src/components/ProfileView.jsx:36-48 | placeholder for no usable photo; base + path for `/aphians/`; base + `/aphians/uploads/` + rest for `/Uploads/`; otherwise unchanged; the two path cases never overlap |
| `ProfileView.StoredPhotoShownFromBase` | client/src/components/ProfileView.jsx:41-43 | a photo path stored by a save is shown from the base URL |
| `ProfileView.IsOwnProfile` | client/src/components/ProfileView.jsx:63 | own profile only with a signed-in user |
| `ProfileView.IsOwnProfileOfNumeral` | client/src/components/ProfileView.jsx:63 | with a numeral parameter, own iff the ids are equal |
| `ProfileView.IsOwnProfileOfNaN` | client/src/components/ProfileView.jsx:63 | a non-numeric parameter is never the viewer's own profile |
| `ProfileView.OwnProfileIsLookedUp` | client/src/components/ProfileView.jsx:63 | a parameter the page takes as the viewer's own is looked up by the server's guard for that id |

## Left out

- **Time zones and the clock.**
  - IANA zone rules, moment-timezone and the engine's local-time getters are the
    abstract `CalendarIn` parameter.
  - `new Date()` is the `Clock`'s `now`.
- **Date strings.** `new Date(string)` in `formatDate` is the abstract `DateParser`
  parameter.
  - In `parseFromDDMMYYYY` the reading is strict: digits only, and a valid Gregorian
    date.
  - V8's lenient readings are not modelled: days up to 31 that roll over, and the
    legacy fallback parser.
  - The model does not limit a `Date` to ±8.64e15 ms.
- **Row order.** The database returns rows in table order in the model; MySQL
  promises no order without `ORDER BY`.
- **Date column decoding.** mysql2 decodes `DATE` columns as local midnight. The SQL
  `MONTH()`/`DAY()` are therefore read in the server's zone.
- **Transport.**
  - Setting up and verifying the Nodemailer transport, `process.exit` on failure,
    `messageId` and the network are left out.
  - Whether a send succeeds is a nondeterministic choice in `Mailer.Transmit`.
- **Scheduling and logging.** The cron schedule, the development-mode run at startup,
  the one-second pause between sends, and all logging are left out.
- **Lookup.** Database queries other than the reminder query and the upsert are left
  out, including the 404 when a lookup finds no profile.
- **Other services.** The other routes, the authentication middleware, the session
  and the creation of the upload directory are not part of this model.
- **Inserting a new row.** It starts from an abstract `defaults` row; the table's
  schema defaults are not part of this model.
- **Form values.** Every form value is a string. multer gives arrays when a field is
  repeated.
- **Non-string photo values.** In `getImageUrl`, every non-string `latest_photo` is
  `None`.
- **User ids.** `currentUser.id` is an integer; an id held as a string, which `===`
  would never match, is not modelled.
- `JsText.ParseInt`: exact for every length of digits. It does not model the loss of
  precision past 2^53.
- `JsText.ReplaceFirst`: the replacement is literal. The `$` patterns of
  `String.prototype.replace` are not interpreted (the only replacement used,
  `/uploads/`, has none).
- `ProfileRoutes.IsoDateFields`: covers years 0..9999 only. For other years
  `toISOString` writes a sign and at least six digits; `IsoYear` states that form
  (sign, then digits reading back as the year's magnitude).
- `ProfileRoutes.SaveProfile` and `ProfileRoutes.SaveWithoutUploadClearsPhoto`: the
  only failures modelled are NaN and infinite ages. Column types and ranges are not
  modelled: an age outside the range of the age column, over-long text, or a
  birthday whose year is outside 0..9999 (written as `+YYYYYY-MM-DD` or
  `-YYYYYY-MM-DD`) may also be rejected, depending on the schema. Other database
  errors (lost connection, constraint failures) are not modelled either. Ages are
  exact integers. Rounding to a double, which loses precision past 2^53, is not
  modelled; only the point where the number becomes infinite is.
- `Reminders.ProcessReminders`: states the number of new outcomes and that the
  earlier ones are kept, not their values. Those are whatever the transport returned.
- `DateUtils.RoundTrip` and `DateUtils.ParseThenFormat` hold for calendar triples.
  In the source, `parseFromDDMMYYYY` builds UTC midnight, and `formatToDDMMYYYY`
  reads local getters. On a server west of UTC the real composition gives the
  previous day. The model's formatter takes a date already read in a zone; the
  reminder job reads it in the server's zone.
