/**
 * The birthday and anniversary reminder job of the server.
 *
 * A run reads the opted-in profiles whose birthday or anniversary falls in the next
 * seven days of the server's current month (the SQL prefilter), then looks at every
 * returned row again in the user's own time zone: an event is recorded when its
 * month is the user's current month and its day lies between today and today + 7.
 * Each row with at least one event becomes one reminder, and every reminder is
 * mailed, once, to the address of the person it is about.
 */
module Reminders {

  import opened Wrappers
  import opened JsText
  import opened Calendar
  import opened DateUtils

  // ---------------------------------------------------------------------------
  // Data
  // ---------------------------------------------------------------------------

  /** A row of the `profiles` table with the columns the reminder query selects. */
  datatype Profile = Profile(
    userId: int,
    fullName: Option<string>,
    emailId: Option<string>,
    birthday: Option<Instant>,
    marriageAnniversary: Option<Instant>,
    timezone: Option<string>,
    receiveEmailReminders: int)

  /**
   * What a run knows about time: the instant it started, the zone the server process
   * runs in (the zone of JavaScript's local `Date` getters and of the DATE values the
   * database driver hands back), and the zone projection of moment-timezone.
   */
  datatype Clock = Clock(now: Instant, serverZone: Zone, calendarIn: CalendarIn)

  datatype EventKind = Birthday | MarriageAnniversary

  /** One upcoming event; `date` is the `DDMMYYYY` text of the stored date, or null. */
  datatype Event = Event(kind: EventKind, date: Option<string>)

  datatype Reminder = Reminder(
    userId: int,
    fullName: Option<string>,
    emailId: Option<string>,
    timezone: Zone,
    events: seq<Event>)

  function KindLabel(k: EventKind): string {
    match k
    case Birthday => "Birthday"
    case MarriageAnniversary => "Marriage Anniversary"
  }

  // ---------------------------------------------------------------------------
  // The SQL prefilter
  // ---------------------------------------------------------------------------

  /** The server's calendar date at the start of the run (`now.getMonth()`, `now.getDate()`). */
  function ServerToday(c: Clock): Date {
    c.calendarIn(c.now, c.serverZone)
  }

  /** The six query parameters: month, first day and last day of the window, once per date column. */
  function QueryParams(c: Clock): (params: seq<int>)
    ensures |params| == 6 && params[..3] == params[3..]
    ensures params[0] == ServerToday(c).month
    ensures params[1] == ServerToday(c).day && params[2] == params[1] + 7
  {
    var t := ServerToday(c);
    [t.month, t.day, t.day + 7, t.month, t.day, t.day + 7]
  }

  /** `MONTH(col) = ? AND DAY(col) BETWEEN ? AND ?` on a DATE column; NULL never matches. */
  predicate ColumnMatches(col: Option<Instant>, month: int, lo: int, hi: int, c: Clock) {
    col.Some? &&
    var stored := c.calendarIn(col.value, c.serverZone);
    stored.month == month && lo <= stored.day <= hi
  }

  /** The WHERE clause of the reminder query. */
  predicate SqlSelects(p: Profile, params: seq<int>, c: Clock)
    requires |params| == 6
  {
    && p.receiveEmailReminders == 1
    && (|| ColumnMatches(p.birthday, params[0], params[1], params[2], c)
        || ColumnMatches(p.marriageAnniversary, params[3], params[4], params[5], c))
  }

  /** The rows the query returns, taken in table order. */
  function SelectRows(table: seq<Profile>, params: seq<int>, c: Clock): (rows: seq<Profile>)
    requires |params| == 6
    ensures |rows| <= |table|
    ensures forall p :: p in rows <==> p in table && SqlSelects(p, params, c)
    ensures forall p :: p in rows ==> p.receiveEmailReminders == 1
  {
    if table == [] then []
    else (if SqlSelects(table[0], params, c) then [table[0]] else []) + SelectRows(table[1..], params, c)
  }

  // ---------------------------------------------------------------------------
  // Per-row decision in the user's zone
  // ---------------------------------------------------------------------------

  /** `timezone || 'UTC'`: a missing or empty zone name means UTC. */
  function UserZone(p: Profile): (z: Zone)
    ensures (p.timezone.None? || p.timezone.value == "") ==> z == "UTC"
    ensures (p.timezone.Some? && p.timezone.value != "") ==> z == p.timezone.value
  {
    if p.timezone.None? || p.timezone.value == "" then "UTC" else p.timezone.value
  }

  /** Same month as today, and a day from today to today + 7; nothing carries into the next month. */
  predicate InWindow(date: Date, today: Date) {
    date.month == today.month && today.day <= date.day <= today.day + 7
  }

  /** The event a date column contributes, if any, judged in zone `zone`. */
  function ColumnEvent(kind: EventKind, col: Option<Instant>, zone: Zone, c: Clock): seq<Event> {
    match col
    case None => []
    case Some(instant) =>
      if InWindow(c.calendarIn(instant, zone), c.calendarIn(c.now, zone))
      then [Event(kind, FormatToDDMMYYYY(Some(c.calendarIn(instant, c.serverZone))))]
      else []
  }

  /** The events list built for one row: the birthday first, then the anniversary. */
  function ProfileEvents(p: Profile, c: Clock): (events: seq<Event>)
    ensures |events| <= 2
    ensures |events| == 2 ==> events[0].kind == Birthday && events[1].kind == MarriageAnniversary
  {
    var zone := UserZone(p);
    ColumnEvent(Birthday, p.birthday, zone, c) + ColumnEvent(MarriageAnniversary, p.marriageAnniversary, zone, c)
  }

  predicate HasKind(events: seq<Event>, kind: EventKind) {
    exists k :: 0 <= k < |events| && events[k].kind == kind
  }

  /** The reminder built for one row: present exactly when the row has an event. */
  function ReminderFor(p: Profile, c: Clock): (r: Option<Reminder>)
    ensures r.None? <==> ProfileEvents(p, c) == []
    ensures r.Some? ==>
      && r.value.userId == p.userId
      && r.value.fullName == p.fullName
      && r.value.emailId == p.emailId
      && r.value.timezone == UserZone(p)
      && r.value.events == ProfileEvents(p, c)
  {
    var events := ProfileEvents(p, c);
    if |events| > 0 then Some(Reminder(p.userId, p.fullName, p.emailId, UserZone(p), events)) else None
  }

  function AsSeq(r: Option<Reminder>): seq<Reminder> {
    if r.Some? then [r.value] else []
  }

  /** The reminders of a run over the returned rows, in row order. */
  function UpcomingReminders(rows: seq<Profile>, c: Clock): seq<Reminder> {
    if rows == [] then []
    else UpcomingReminders(rows[..|rows| - 1], c) + AsSeq(ReminderFor(rows[|rows| - 1], c))
  }

  // ---------------------------------------------------------------------------
  // Properties of the selection
  // ---------------------------------------------------------------------------

  /**
   * The events of one row: at most two, never two of a kind, the birthday before the
   * anniversary; an event of a kind is there exactly when that date is present and,
   * in the user's zone, falls in the window; its date is the stored date written as
   * `DDMMYYYY` in the server's zone.
   */
  lemma EventsOfProfile(p: Profile, c: Clock)
    ensures var events := ProfileEvents(p, c);
      && |events| <= 2
      && (|events| == 2 ==> events[0].kind == Birthday && events[1].kind == MarriageAnniversary)
      && (HasKind(events, Birthday) <==>
            p.birthday.Some? &&
            InWindow(c.calendarIn(p.birthday.value, UserZone(p)), c.calendarIn(c.now, UserZone(p))))
      && (HasKind(events, MarriageAnniversary) <==>
            p.marriageAnniversary.Some? &&
            InWindow(c.calendarIn(p.marriageAnniversary.value, UserZone(p)), c.calendarIn(c.now, UserZone(p))))
      && (forall k :: 0 <= k < |events| && events[k].kind == Birthday ==>
            events[k].date == FormatToDDMMYYYY(Some(c.calendarIn(p.birthday.value, c.serverZone))))
      && (forall k :: 0 <= k < |events| && events[k].kind == MarriageAnniversary ==>
            events[k].date == FormatToDDMMYYYY(Some(c.calendarIn(p.marriageAnniversary.value, c.serverZone))))
  {
    var zone := UserZone(p);
    var b := ColumnEvent(Birthday, p.birthday, zone, c);
    var a := ColumnEvent(MarriageAnniversary, p.marriageAnniversary, zone, c);
    ColumnEventFacts(Birthday, p.birthday, zone, c);
    ColumnEventFacts(MarriageAnniversary, p.marriageAnniversary, zone, c);
    TwoColumns(b, a, Birthday, MarriageAnniversary);
  }

  /** What one date column contributes: nothing, or one event of its kind with the formatted date. */
  lemma ColumnEventFacts(kind: EventKind, col: Option<Instant>, zone: Zone, c: Clock)
    ensures var es := ColumnEvent(kind, col, zone, c);
      && |es| <= 1
      && (|es| == 1 <==> col.Some? && InWindow(c.calendarIn(col.value, zone), c.calendarIn(c.now, zone)))
      && (|es| == 1 ==> es[0] == Event(kind, FormatToDDMMYYYY(Some(c.calendarIn(col.value, c.serverZone)))))
  {
  }

  /** Kinds in the concatenation of two lists of at most one event each. */
  lemma TwoColumns(b: seq<Event>, a: seq<Event>, kb: EventKind, ka: EventKind)
    requires |b| <= 1 && |a| <= 1 && kb != ka
    requires |b| == 1 ==> b[0].kind == kb
    requires |a| == 1 ==> a[0].kind == ka
    ensures var events := b + a;
      && |events| <= 2
      && (|events| == 2 ==> events[0] == b[0] && events[1] == a[0])
      && (HasKind(events, kb) <==> |b| == 1)
      && (HasKind(events, ka) <==> |a| == 1)
      && (forall k :: 0 <= k < |events| && events[k].kind == kb ==> events[k] == b[0])
      && (forall k :: 0 <= k < |events| && events[k].kind == ka ==> events[k] == a[0])
  {
    var events := b + a;
    assert forall k :: 0 <= k < |events| ==> events[k] == if k < |b| then b[k] else a[k - |b|];
    if |b| == 1 {
      assert events[0].kind == kb;
    }
    if |a| == 1 {
      assert events[|b|].kind == ka;
    }
  }

  /** The present values of a list of optional reminders, in order. */
  function Flatten(opts: seq<Option<Reminder>>): seq<Reminder> {
    if opts == [] then [] else Flatten(opts[..|opts| - 1]) + AsSeq(opts[|opts| - 1])
  }

  /** The optional reminder of each row, position by position. */
  function Candidates(rows: seq<Profile>, c: Clock): (opts: seq<Option<Reminder>>)
    ensures |opts| == |rows| && forall i :: 0 <= i < |rows| ==> opts[i] == ReminderFor(rows[i], c)
  {
    Pointwise(rows, p => ReminderFor(p, c))
  }

  function Pointwise(rows: seq<Profile>, f: Profile -> Option<Reminder>): (opts: seq<Option<Reminder>>)
    ensures |opts| == |rows| && forall i :: 0 <= i < |rows| ==> opts[i] == f(rows[i])
  {
    seq(|rows|, i requires 0 <= i < |rows| => f(rows[i]))
  }

  lemma {:induction false} UpcomingIsFlatten(rows: seq<Profile>, c: Clock)
    ensures UpcomingReminders(rows, c) == Flatten(Candidates(rows, c))
  {
    if rows != [] {
      var init := rows[..|rows| - 1];
      UpcomingIsFlatten(init, c);
      assert Candidates(rows, c)[..|rows| - 1] == Candidates(init, c);
    }
  }

  /** `Flatten` keeps the present entries in order and drops only the absent ones. */
  lemma {:induction false} FlattenIndex(opts: seq<Option<Reminder>>) returns (idx: seq<nat>)
    ensures |idx| == |Flatten(opts)|
    ensures forall k :: 0 <= k < |idx| ==> idx[k] < |opts| && opts[idx[k]] == Some(Flatten(opts)[k])
    ensures forall k, l :: 0 <= k < l < |idx| ==> idx[k] < idx[l]
    ensures forall i :: 0 <= i < |opts| && opts[i].Some? ==> exists k :: 0 <= k < |idx| && idx[k] == i
  {
    if opts == [] {
      idx := [];
    } else {
      var n := |opts| - 1;
      var init := opts[..n];
      var prev := FlattenIndex(init);
      assert Flatten(opts) == Flatten(init) + AsSeq(opts[n]);
      if opts[n].Some? {
        idx := prev + [n];
        forall i | 0 <= i < |opts| && opts[i].Some?
          ensures exists k :: 0 <= k < |idx| && idx[k] == i
        {
          if i < n {
            assert init[i] == opts[i];
            var k :| 0 <= k < |prev| && prev[k] == i;
            assert idx[k] == i;
          } else {
            assert idx[|prev|] == i;
          }
        }
      } else {
        idx := prev;
        forall i | 0 <= i < |opts| && opts[i].Some?
          ensures exists k :: 0 <= k < |idx| && idx[k] == i
        {
          assert i < n && init[i] == opts[i];
        }
      }
    }
  }

  /**
   * The reminders come from the rows in row order, one per row at most, and every row
   * with an event is represented: `idx[k]` is the row reminder `k` was built from.
   */
  lemma RemindersFollowRows(rows: seq<Profile>, c: Clock) returns (idx: seq<nat>)
    ensures |idx| == |UpcomingReminders(rows, c)|
    ensures forall k :: 0 <= k < |idx| ==>
      idx[k] < |rows| && ReminderFor(rows[idx[k]], c) == Some(UpcomingReminders(rows, c)[k])
    ensures forall k, l :: 0 <= k < l < |idx| ==> idx[k] < idx[l]
    ensures forall i :: 0 <= i < |rows| && ReminderFor(rows[i], c).Some? ==>
      exists k :: 0 <= k < |idx| && idx[k] == i
  {
    UpcomingIsFlatten(rows, c);
    idx := FlattenIndex(Candidates(rows, c));
  }

  /** At most one reminder per row. */
  lemma {:induction false} AtMostOneReminderPerRow(rows: seq<Profile>, c: Clock)
    ensures |UpcomingReminders(rows, c)| <= |rows|
  {
    if rows != [] {
      AtMostOneReminderPerRow(rows[..|rows| - 1], c);
    }
  }

  /** Every reminder holds one or two events, as the message composition expects. */
  lemma {:induction false} RemindersHoldOneOrTwoEvents(rows: seq<Profile>, c: Clock)
    ensures forall k :: 0 <= k < |UpcomingReminders(rows, c)| ==> 1 <= |UpcomingReminders(rows, c)[k].events| <= 2
  {
    if rows != [] {
      var init := rows[..|rows| - 1];
      RemindersHoldOneOrTwoEvents(init, c);
      var prev := UpcomingReminders(init, c);
      var r := ReminderFor(rows[|rows| - 1], c);
      assert UpcomingReminders(rows, c) == prev + AsSeq(r);
      assert forall k :: 0 <= k < |prev| ==> (prev + AsSeq(r))[k] == prev[k];
    }
  }

  /**
   * When a user's zone is the server's, the SQL prefilter lets through every opted-in
   * row the per-user check would turn into a reminder. (For users in other zones the
   * two tests look at different calendar days, so the query alone may drop a row.)
   */
  lemma QueryKeepsDueRowsInServerZone(p: Profile, c: Clock)
    requires p.receiveEmailReminders == 1
    requires UserZone(p) == c.serverZone
    requires ReminderFor(p, c).Some?
    ensures SqlSelects(p, QueryParams(c), c)
  {
    EventsOfProfile(p, c);
    var events := ProfileEvents(p, c);
    assert HasKind(events, events[0].kind);
  }

  /**
   * The converse: in the server's zone a row the SQL prefilter returns always becomes
   * a reminder, so there the two tests agree.
   */
  lemma QueryRowsAreDueInServerZone(p: Profile, c: Clock)
    requires UserZone(p) == c.serverZone
    requires SqlSelects(p, QueryParams(c), c)
    ensures ReminderFor(p, c).Some?
  {
    EventsOfProfile(p, c);
  }

  // ---------------------------------------------------------------------------
  // Message composition
  // ---------------------------------------------------------------------------

  /** A value inside a template literal: null prints as "null". */
  function Interpolate(v: Option<string>): string {
    v.GetOr("null")
  }

  /** `${event.type} on ${event.date}` */
  function Describe(e: Event): string {
    KindLabel(e.kind) + " on " + Interpolate(e.date)
  }

  function Descriptions(events: seq<Event>): (ds: seq<string>)
    ensures |ds| == |events| && forall k :: 0 <= k < |events| ==> ds[k] == Describe(events[k])
  {
    if events == [] then [] else [Describe(events[0])] + Descriptions(events[1..])
  }

  /** `events.map(...).join(' and ')` */
  function EventMessages(events: seq<Event>): string {
    Join(Descriptions(events), " and ")
  }

  const SubjectPrefix: string := "Upcoming Event Reminder: "

  function Subject(r: Reminder): (s: string)
    ensures StartsWith(s, SubjectPrefix) && s[|SubjectPrefix|..] == Interpolate(r.fullName)
  {
    SubjectPrefix + Interpolate(r.fullName)
  }

  /** The text before the event line: the greeting and the subject's name. */
  function Opening(r: Reminder): string {
    "Hello,\n\nThis is a reminder that " + Interpolate(r.fullName) + " has the following upcoming event(s):\n"
  }

  const Closing: string := ".\n\nBest regards,\nAphians Team"

  function Body(r: Reminder): string {
    Opening(r) + EventMessages(r.events) + Closing
  }

  /** The message text: the greeting naming the subject, the event line, then the sign-off. */
  lemma BodyLayout(r: Reminder)
    ensures var b := Body(r);
      && |b| == |Opening(r)| + |EventMessages(r.events)| + |Closing|
      && StartsWith(b, Opening(r))
      && b[|Opening(r)|..|b| - |Closing|] == EventMessages(r.events)
      && b[|b| - |Closing|..] == Closing
  {
    var o, m := Opening(r), EventMessages(r.events);
    assert (o + m + Closing)[..|o|] == o;
    assert (o + m + Closing)[|o|..|o| + |m|] == m;
  }

  /**
   * The event line lists the events in order, separated by " and ": adding an event
   * at the end appends " and " and its description.
   */
  lemma EventMessagesSnoc(events: seq<Event>, e: Event)
    requires events != []
    ensures EventMessages(events + [e]) == EventMessages(events) + " and " + Describe(e)
  {
    assert Descriptions(events + [e]) == Descriptions(events) + [Describe(e)];
    JoinSnoc(Descriptions(events), Describe(e), " and ");
  }

  /** The event line for the one or two events a reminder can hold. */
  lemma EventMessagesOfReminder(events: seq<Event>)
    requires 1 <= |events| <= 2
    ensures |events| == 1 ==> EventMessages(events) == Describe(events[0])
    ensures |events| == 2 ==> EventMessages(events) == Describe(events[0]) + " and " + Describe(events[1])
  {
    if |events| == 2 {
      assert events == [events[0]] + [events[1]];
      EventMessagesSnoc([events[0]], events[1]);
    }
  }

  // ---------------------------------------------------------------------------
  // Sending
  // ---------------------------------------------------------------------------

  datatype Mail = Mail(from: string, to: Option<string>, subject: string, text: string)

  const DefaultSender: string := "\"Aphians App\" <no-reply@aphians.com>"

  /** `process.env.EMAIL_FROM || default`: an unset or empty setting means the default sender. */
  function SenderAddress(configured: Option<string>): (from: string)
    ensures (configured.None? || configured.value == "") ==> from == DefaultSender
    ensures (configured.Some? && configured.value != "") ==> from == configured.value
  {
    if configured.None? || configured.value == "" then DefaultSender else configured.value
  }

  /** The message a reminder is mailed as: to the subject's own address. */
  function MailFor(r: Reminder, from: string): Mail {
    Mail(from, r.emailId, Subject(r), Body(r))
  }

  /** The messages handed to the transport for a list of reminders, in order. */
  function Outbox(rs: seq<Reminder>, from: string): seq<Mail> {
    Mails(rs, r => MailFor(r, from))
  }

  /** `f` of each reminder, built one reminder at a time as the send loop does. */
  function Mails(rs: seq<Reminder>, f: Reminder -> Mail): seq<Mail> {
    if rs == [] then [] else Mails(rs[..|rs| - 1], f) + [f(rs[|rs| - 1])]
  }

  /** One message per reminder, k-th to k-th, each to that reminder's own address. */
  lemma OutboxPerReminder(rs: seq<Reminder>, from: string)
    ensures |Outbox(rs, from)| == |rs|
    ensures forall k :: 0 <= k < |rs| ==>
      && Outbox(rs, from)[k].to == rs[k].emailId
      && Outbox(rs, from)[k].from == from
      && Outbox(rs, from)[k].subject == Subject(rs[k])
      && Outbox(rs, from)[k].text == Body(rs[k])
  {
    OutboxAt(rs, from);
  }

  lemma OutboxAt(rs: seq<Reminder>, from: string)
    ensures |Outbox(rs, from)| == |rs|
    ensures forall k :: 0 <= k < |rs| ==> Outbox(rs, from)[k] == MailFor(rs[k], from)
  {
    MailsAt(rs, r => MailFor(r, from));
  }

  lemma {:induction false} MailsAt(rs: seq<Reminder>, f: Reminder -> Mail)
    ensures |Mails(rs, f)| == |rs|
    ensures forall k :: 0 <= k < |rs| ==> Mails(rs, f)[k] == f(rs[k])
  {
    if rs != [] {
      var init := rs[..|rs| - 1];
      MailsAt(init, f);
      assert forall k :: 0 <= k < |init| ==> rs[k] == init[k];
    }
  }

  /** One more reminder adds its message at the end. */
  lemma OutboxStep(rs: seq<Reminder>, i: nat, from: string)
    requires i < |rs|
    ensures Outbox(rs[..i + 1], from) == Outbox(rs[..i], from) + [MailFor(rs[i], from)]
  {
    assert rs[..i + 1][..i] == rs[..i];
  }

  /**
   * The mail transport. Every message handed to it is recorded in `attempts`, and
   * whether it was accepted in `outcomes`; whether a given send succeeds is outside
   * the model.
   */
  class Mailer {
    const from: string
    var attempts: seq<Mail>
    var outcomes: seq<bool>

    constructor (configuredFrom: Option<string>)
      ensures from == SenderAddress(configuredFrom)
      ensures attempts == [] && outcomes == []
    {
      from := SenderAddress(configuredFrom);
      attempts := [];
      outcomes := [];
    }

    /** `transporter.sendMail`: either accepts the message or rejects it with an error. */
    method Transmit(m: Mail) returns (failure: Option<string>)
      modifies this
      ensures attempts == old(attempts) + [m]
      ensures outcomes == old(outcomes) + [failure.None?]
    {
      var accepted: bool :| true;
      failure := if accepted then None else Some("transport error");
      attempts := attempts + [m];
      outcomes := outcomes + [accepted];
    }

    /** `sendEmail`: one transport attempt; a rejection becomes `false` instead of an exception. */
    method SendEmail(to: Option<string>, subject: string, text: string) returns (ok: bool)
      modifies this
      ensures attempts == old(attempts) + [Mail(from, to, subject, text)]
      ensures outcomes == old(outcomes) + [ok]
    {
      var failure := Transmit(Mail(from, to, subject, text));
      ok := failure.None?;
    }
  }

  // ---------------------------------------------------------------------------
  // The job
  // ---------------------------------------------------------------------------

  /** One more row adds that row's reminder, if any, at the end. */
  lemma UpcomingRemindersStep(rows: seq<Profile>, i: nat, c: Clock)
    requires i < |rows|
    ensures UpcomingReminders(rows[..i + 1], c) == UpcomingReminders(rows[..i], c) + AsSeq(ReminderFor(rows[i], c))
  {
    assert rows[..i + 1][..i] == rows[..i];
  }

  /** The body of the loop over rows up to the reminder: each date column checked in the user's zone. */
  method RowEvents(profile: Profile, c: Clock) returns (events: seq<Event>)
    ensures events == ProfileEvents(profile, c)
  {
    var userTz := UserZone(profile);
    var today := c.calendarIn(c.now, userTz);
    events := [];
    if profile.birthday.Some? {
      var bday := c.calendarIn(profile.birthday.value, userTz);
      if bday.month == today.month && bday.day >= today.day && bday.day <= today.day + 7 {
        events := events + [Event(Birthday, FormatToDDMMYYYY(Some(c.calendarIn(profile.birthday.value, c.serverZone))))];
      }
    }
    assert events == ColumnEvent(Birthday, profile.birthday, userTz, c);
    if profile.marriageAnniversary.Some? {
      var anni := c.calendarIn(profile.marriageAnniversary.value, userTz);
      if anni.month == today.month && anni.day >= today.day && anni.day <= today.day + 7 {
        events := events + [Event(MarriageAnniversary, FormatToDDMMYYYY(Some(c.calendarIn(profile.marriageAnniversary.value, c.serverZone))))];
      }
    }
  }

  /** `fetchUpcomingReminders`: the query, then one pass over the returned rows. */
  method FetchUpcomingReminders(table: seq<Profile>, c: Clock) returns (reminders: seq<Reminder>)
    ensures reminders == UpcomingReminders(SelectRows(table, QueryParams(c), c), c)
  {
    var rows := SelectRows(table, QueryParams(c), c);
    reminders := [];
    for i := 0 to |rows|
      invariant reminders == UpcomingReminders(rows[..i], c)
    {
      var profile := rows[i];
      var userTz := UserZone(profile);
      var events := RowEvents(profile, c);
      if |events| > 0 {
        reminders := reminders + [Reminder(profile.userId, profile.fullName, profile.emailId, userTz, events)];
      }
      UpcomingRemindersStep(rows, i, c);
    }
    assert rows[..|rows|] == rows;
  }

  /** The body of the send loop: compose one reminder's message and send it. */
  method SendReminder(mailer: Mailer, reminder: Reminder)
    modifies mailer
    ensures mailer.attempts == old(mailer.attempts) + [MailFor(reminder, mailer.from)]
    ensures |mailer.outcomes| == |old(mailer.outcomes)| + 1
    ensures old(mailer.outcomes) <= mailer.outcomes
  {
    var subject := Subject(reminder);
    var text := Body(reminder);
    var emailSent := mailer.SendEmail(reminder.emailId, subject, text);
  }

  /** The send loop: every reminder is mailed once, in order, whatever the earlier outcomes. */
  method SendAll(mailer: Mailer, reminders: seq<Reminder>)
    modifies mailer
    ensures mailer.attempts == old(mailer.attempts) + Outbox(reminders, mailer.from)
    ensures |mailer.outcomes| == |old(mailer.outcomes)| + |reminders|
    ensures old(mailer.outcomes) <= mailer.outcomes
  {
    for i := 0 to |reminders|
      invariant mailer.attempts == old(mailer.attempts) + Outbox(reminders[..i], mailer.from)
      invariant |mailer.outcomes| == |old(mailer.outcomes)| + i
      invariant old(mailer.outcomes) <= mailer.outcomes
    {
      SendReminder(mailer, reminders[i]);
      OutboxStep(reminders, i, mailer.from);
    }
    assert reminders[..|reminders|] == reminders;
  }

  /**
   * `processReminders`: fetch the reminders (`table` is None when the query fails,
   * which ends the run), then mail each one exactly once, in order, whatever the
   * outcome of the earlier sends.
   */
  method ProcessReminders(mailer: Mailer, table: Option<seq<Profile>>, c: Clock)
    modifies mailer
    ensures table.None? ==> mailer.attempts == old(mailer.attempts) && mailer.outcomes == old(mailer.outcomes)
    ensures table.Some? ==>
      var rs := UpcomingReminders(SelectRows(table.value, QueryParams(c), c), c);
      && mailer.attempts == old(mailer.attempts) + Outbox(rs, mailer.from)
      && |mailer.outcomes| == |old(mailer.outcomes)| + |rs|
      && old(mailer.outcomes) <= mailer.outcomes
  {
    if table.None? {
      return;
    }
    var reminders := FetchUpcomingReminders(table.value, c);
    if |reminders| == 0 {
      return;
    }
    SendAll(mailer, reminders);
  }
}
