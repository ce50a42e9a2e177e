/**
 * What the two versions of the email client share: the mails of a page, the
 * list filter behind the favourites/read/unread buttons, the favourite toggle
 * and the date-and-time text shown for each mail.
 */
module Mailbox {
  import opened Wrappers
  import opened Decimal
  import opened OrderedSet
  import Calendar

  type Id = string

  datatype Sender = Sender(name: string, email: string)

  /**
   * One mail of the inbox list as the mail API sends it; `date` is its
   * timestamp. The `Date` getters that turn it into a `LocalTime` for
   * `FormatDateTime` are not part of this model.
   */
  datatype Email = Email(id: Id, from: Sender, subject: string, shortDescription: string, date: int)

  /** `emails.filter(e => ids.has(e.id) == member)`. */
  function WithMembership(emails: seq<Email>, ids: set<Id>, member: bool): (r: seq<Email>)
    ensures |r| <= |emails|
    ensures forall e :: e in r <==> e in emails && (e.id in ids) == member
  {
    if emails == [] then []
    else
      assert emails == [emails[0]] + emails[1..];
      (if (emails[0].id in ids) == member then [emails[0]] else []) + WithMembership(emails[1..], ids, member)
  }

  /**
   * `filterEmails`: the mails to list under the current filter. `"favorites"`
   * keeps the favourite mails, `"read"` the read ones, `"unread"` the others;
   * any other filter value, `"all"` included, lists every mail.
   */
  function FilterEmails(emails: seq<Email>, filter: string, favorites: set<Id>, read: set<Id>): (r: seq<Email>)
    ensures filter == "favorites" ==> forall e :: e in r <==> e in emails && e.id in favorites
    ensures filter == "read" ==> forall e :: e in r <==> e in emails && e.id in read
    ensures filter == "unread" ==> forall e :: e in r <==> e in emails && e.id !in read
    ensures filter !in {"favorites", "read", "unread"} ==> r == emails
  {
    if filter == "favorites" then WithMembership(emails, favorites, true)
    else if filter == "read" then WithMembership(emails, read, true)
    else if filter == "unread" then WithMembership(emails, read, false)
    else emails
  }

  lemma {:induction false} WithMembershipConcat(front: seq<Email>, back: seq<Email>, ids: set<Id>, member: bool)
    ensures WithMembership(front + back, ids, member) == WithMembership(front, ids, member) + WithMembership(back, ids, member)
    decreases |front|
  {
    if front != [] {
      assert (front + back)[1..] == front[1..] + back;
      WithMembershipConcat(front[1..], back, ids, member);
    } else {
      assert front + back == back;
    }
  }

  /** Filtering keeps the list's order: filtering two parts of a list filters each part, in order. */
  lemma FilterEmailsConcat(front: seq<Email>, back: seq<Email>, filter: string, favorites: set<Id>, read: set<Id>)
    ensures FilterEmails(front + back, filter, favorites, read)
         == FilterEmails(front, filter, favorites, read) + FilterEmails(back, filter, favorites, read)
  {
    WithMembershipConcat(front, back, favorites, true);
    WithMembershipConcat(front, back, read, true);
    WithMembershipConcat(front, back, read, false);
  }

  lemma {:induction false} MembershipPartition(emails: seq<Email>, ids: set<Id>)
    ensures multiset(WithMembership(emails, ids, true)) + multiset(WithMembership(emails, ids, false)) == multiset(emails)
  {
    if emails != [] {
      var first, rest := emails[0], emails[1..];
      MembershipPartition(rest, ids);
      var head := [first];
      assert multiset(head) == multiset{first};
      WithMembershipCons(emails, ids, true);
      WithMembershipCons(emails, ids, false);
      assert emails == head + rest;
    }
  }

  /** One step of `WithMembership`, counted as a multiset. */
  lemma WithMembershipCons(emails: seq<Email>, ids: set<Id>, member: bool)
    requires emails != []
    ensures multiset(WithMembership(emails, ids, member))
         == (if (emails[0].id in ids) == member then multiset{emails[0]} else multiset{})
          + multiset(WithMembership(emails[1..], ids, member))
  {
  }

  /**
   * The read and the unread lists split any list of mails: together they hold
   * every mail exactly as often as the list does.
   */
  lemma ReadUnreadPartition(emails: seq<Email>, favorites: set<Id>, read: set<Id>)
    ensures multiset(FilterEmails(emails, "read", favorites, read))
          + multiset(FilterEmails(emails, "unread", favorites, read)) == multiset(emails)
    ensures |FilterEmails(emails, "read", favorites, read)|
          + |FilterEmails(emails, "unread", favorites, read)| == |emails|
  {
    MembershipPartition(emails, read);
    var readList := FilterEmails(emails, "read", favorites, read);
    var unreadList := FilterEmails(emails, "unread", favorites, read);
    assert |multiset(readList) + multiset(unreadList)| == |multiset(emails)|;
  }

  /**
   * The favourites after `toggleFavorite(id)`: `id` is deleted if it was
   * there and added last otherwise; no other id changes.
   */
  function Toggled(favorites: seq<Id>, id: Id): (r: seq<Id>)
    ensures id in r <==> id !in favorites
    ensures forall x :: x != id ==> (x in r <==> x in favorites)
    ensures Distinct(favorites) ==> Distinct(r)
  {
    var r := if id in favorites then Delete(favorites, id) else Add(favorites, id);
    assert forall x :: x in r <==> x in Elements(r);
    assert forall x :: x in favorites <==> x in Elements(favorites);
    r
  }

  /**
   * Toggling twice restores the set of favourites. The list order is restored
   * too when `id` was not a favourite; a favourite `id` moves to the end.
   */
  lemma ToggledTwice(favorites: seq<Id>, id: Id)
    requires Distinct(favorites)
    ensures Elements(Toggled(Toggled(favorites, id), id)) == Elements(favorites)
    ensures id !in favorites ==> Toggled(Toggled(favorites, id), id) == favorites
    ensures id in favorites ==> Toggled(Toggled(favorites, id), id) == Delete(favorites, id) + [id]
  {
    if id !in favorites {
      DeleteLast(favorites, id);
    }
    var twice := Toggled(Toggled(favorites, id), id);
    assert forall x :: x in twice <==> x in favorites;
  }

  /** A local time as the `Date` getters give it; `month0` is `getMonth()`, from 0. */
  datatype LocalTime = LocalTime(year: int, month0: int, day: int, hours: int, minutes: int)

  predicate IsValidTime(t: LocalTime) {
    && 0 <= t.month0 < 12
    && Calendar.IsValid(Calendar.Date(t.year, t.month0 + 1, t.day))
    && 0 <= t.hours < 24
    && 0 <= t.minutes < 60
  }

  /** `hours % 12 || 12`: the hour on a 12-hour clock. */
  function ClockHour(hours: int): (h: nat)
    requires 0 <= hours < 24
    ensures 1 <= h <= 12
    ensures h % 12 == hours % 12
  {
    if hours % 12 == 0 then 12 else hours % 12
  }

  function Meridiem(hours: int): string {
    if hours >= 12 then "PM" else "AM"
  }

  /** Reads a 12-hour clock hour and its `AM`/`PM` back as an hour of the day. */
  function Hours24(clockHour: int, meridiem: string): int {
    clockHour % 12 + (if meridiem == "PM" then 12 else 0)
  }

  /** The 12-hour clock loses nothing: hour and suffix give back the hour of the day. */
  lemma ClockRoundTrip(hours: int)
    requires 0 <= hours < 24
    ensures Hours24(ClockHour(hours), Meridiem(hours)) == hours
  {
  }

  /**
   * `formatDateTime`: `DD/MM/YYYY h:mm AM` or `... PM`. Every field can be
   * read back: the date part is the day, the hour is 1 to 12, the minutes are
   * two digits, the suffix is `PM` exactly from noon on, and hour and suffix
   * give back the hour of the day (so 0 shows as 12 AM and 12 as 12 PM).
   */
  function FormatDateTime(t: LocalTime): (s: string)
    requires IsValidTime(t)
    ensures 1000 <= t.year <= 9999 ==>
              ReadsBackAs(s, Calendar.Date(t.year, t.month0 + 1, t.day), t.minutes, t.hours)
  {
    TimeReadsBack(t);
    Layout(Calendar.DayText(Calendar.Date(t.year, t.month0 + 1, t.day)),
           Show(ClockHour(t.hours)), Pad2(t.minutes), Meridiem(t.hours))
  }

  /** The fields `formatDateTime` lays out read back, for four-digit years. */
  lemma TimeReadsBack(t: LocalTime)
    requires IsValidTime(t)
    ensures var day := Calendar.Date(t.year, t.month0 + 1, t.day);
            1000 <= t.year <= 9999 ==>
              ReadsBackAs(Layout(Calendar.DayText(day), Show(ClockHour(t.hours)), Pad2(t.minutes), Meridiem(t.hours)),
                          day, t.minutes, t.hours)
  {
    if 1000 <= t.year <= 9999 {
      ClockRoundTrip(t.hours);
      PartsReadBack(Calendar.Date(t.year, t.month0 + 1, t.day), ClockHour(t.hours), t.minutes, t.hours);
    }
  }

  /**
   * Midnight is shown as `12:mm AM`: any text that reads back as hour 0, as
   * `FormatDateTime`'s text does, shows the clock hour `12` and the suffix `AM`.
   */
  lemma MidnightIsTwelveAM(r: string, day: Calendar.Date, minutes: int)
    requires ReadsBackAs(r, day, minutes, 0)
    ensures r[11..|r| - 6] == "12" && r[|r| - 2..] == "AM"
  {
    var hour := r[11..|r| - 6];
    assert r[|r| - 2..] == "AM";
    assert Value(hour) % 12 == 0;
    assert Value(hour) == 12;
    assert Show(1) == "1";
    assert Show(12) == Show(1) + [DigitChar(2)];
  }

  /** `${date} ${hour}:${minutes} ${suffix}`. */
  function Layout(date: string, hour: string, minutes: string, suffix: string): string {
    date + " " + hour + ":" + minutes + " " + suffix
  }

  /**
   * `r` is `DD/MM/YYYY h:mm AM` or `... PM` text whose date part parses to
   * `day`, whose clock hour is 1 to 12 written without a leading zero, whose
   * two minute digits read `minutes`, whose suffix is `PM` when `hours` is 12
   * or more and `AM` otherwise, and whose hour and suffix give back `hours`.
   */
  predicate ReadsBackAs(r: string, day: Calendar.Date, minutes: int, hours: int) {
    var n := |r|;
    && 18 <= n <= 19
    && Calendar.ParseDay(r[..10]) == Some(day)
    && r[10] == ' ' && r[n - 6] == ':' && r[n - 3] == ' '
    && IsDigits(r[11..n - 6]) && 1 <= Value(r[11..n - 6]) <= 12
    && Show(Value(r[11..n - 6])) == r[11..n - 6]
    && IsDigits(r[n - 5..n - 3]) && Value(r[n - 5..n - 3]) == minutes
    && r[n - 2..] == (if hours >= 12 then "PM" else "AM")
    && Hours24(Value(r[11..n - 6]), r[n - 2..]) == hours
  }

  lemma PartsReadBack(day: Calendar.Date, h: nat, mins: nat, hours: int)
    requires Calendar.IsValid(day) && 1000 <= day.year <= 9999
    requires 1 <= h <= 12 && mins < 60
    requires Hours24(h, Meridiem(hours)) == hours
    ensures ReadsBackAs(Layout(Calendar.DayText(day), Show(h), Pad2(mins), Meridiem(hours)), day, mins, hours)
  {
    Calendar.ParseDayText(day);
    ShowReads(h);
    Pad2Reads(mins);
    ReadBack(Calendar.DayText(day), Show(h), Pad2(mins), Meridiem(hours), day, h, mins, hours);
  }

  /** The clock hour is written with one or two digits that read back as the hour. */
  lemma ShowReads(h: nat)
    requires 1 <= h <= 12
    ensures 1 <= |Show(h)| <= 2 && IsDigits(Show(h)) && Value(Show(h)) == h
  {
    ValueOfShow(h);
    if h < 10 { ShowLength(h, 1); } else { ShowLength(h, 2); }
  }

  lemma ReadBack(date: string, hour: string, minutes: string, suffix: string,
                 day: Calendar.Date, h: nat, mins: nat, hours: int)
    requires |date| == 10 && Calendar.ParseDay(date) == Some(day)
    requires 1 <= |hour| <= 2 && IsDigits(hour) && Value(hour) == h && 1 <= h <= 12
    requires Show(h) == hour
    requires |minutes| == 2 && IsDigits(minutes) && Value(minutes) == mins
    requires suffix == Meridiem(hours) && Hours24(h, suffix) == hours
    ensures ReadsBackAs(Layout(date, hour, minutes, suffix), day, mins, hours)
  {
    var r := Layout(date, hour, minutes, suffix);
    TimeFields(date, hour, minutes, suffix, r);
  }

  /** Where the fields of a formatted time sit. */
  lemma TimeFields(date: string, hour: string, minutes: string, suffix: string, r: string)
    requires |date| == 10 && 1 <= |hour| <= 2 && |minutes| == 2 && |suffix| == 2
    requires r == Layout(date, hour, minutes, suffix)
    ensures |r| == 17 + |hour|
    ensures r[..10] == date && r[10] == ' ' && r[11..|r| - 6] == hour
    ensures r[|r| - 6] == ':' && r[|r| - 5..|r| - 3] == minutes && r[|r| - 3] == ' '
    ensures r[|r| - 2..] == suffix
  {
  }
}
