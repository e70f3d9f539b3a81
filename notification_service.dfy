/**
 * The notification engine: the texts of the birthday and catch-up
 * notifications, the birthday-on-a-date test with its leap-day rule, the
 * days since a last contact, the trigger time in tomorrow's morning window,
 * and the planner that replaces everything scheduled with tomorrow's
 * notifications. The operating system's schedule is the `scheduled` field
 * of a `Scheduler`; today's date and the random draws are passed in.
 */
module NotificationService {
  import opened Optional
  import opened Strings
  import opened Calendar
  import opened Sequences
  import opened FriendsStore

  /** The party popper ending every birthday title (one code point). */
  const PartyEmoji: string := "\U{1F389}"

  // ---------------------------------------------------------------------------
  // Texts
  // ---------------------------------------------------------------------------

  /** `name.split(' ')[0]`: the text before the first space. */
  function FirstName(name: string): (r: string)
    ensures |r| <= |name| && r == name[..|r|]
    ensures ' ' !in r
    ensures |r| < |name| ==> name[|r|] == ' '
  {
    Split(name, ' ')[0]
  }

  /** The first word of a two-part name is the part before the space. */
  lemma FirstNameOf(first: string, rest: string)
    requires ' ' !in first
    ensures FirstName(first + " " + rest) == first
  {
    SplitFirst(first, ' ', rest);
    assert first + " " + rest == first + [' '] + rest;
  }

  /** A name without a space is its own first name. */
  lemma FirstNameOfSingle(name: string)
    requires ' ' !in name
    ensures FirstName(name) == name
  {
  }

  /**
   * `formatBirthdayTitle`, given the friends' names: empty for nobody, the
   * first names of one or two friends, and for three or more the first two
   * names and how many others. The lemmas below give each form for all names,
   * a first name being the text before the first space (`FirstName`).
   */
  function FormatBirthdayTitle(names: seq<string>): (r: string)
    ensures r == "" <==> names == []
  {
    if |names| == 0 then ""
    else
      var firstName := FirstName(names[0]);
      if |names| == 1 then "It's " + firstName + "'s birthday " + PartyEmoji
      else
        var secondName := FirstName(names[1]);
        if |names| == 2 then "It's " + firstName + " and " + secondName + "'s birthday " + PartyEmoji
        else
          var othersCount := |names| - 2;
          var othersText := if othersCount == 1 then "1 other's" else IntToString(othersCount) + " others'";
          "It's " + firstName + ", " + secondName + " and " + othersText + " birthday " + PartyEmoji
  }

  /** One friend: "It's John's birthday", from the first word of the full name. */
  lemma BirthdayTitleOne(first: string, rest: string)
    requires ' ' !in first
    ensures FormatBirthdayTitle([first + " " + rest]) == "It's " + first + "'s birthday " + PartyEmoji
    ensures FormatBirthdayTitle([first]) == "It's " + first + "'s birthday " + PartyEmoji
  {
    FirstNameOf(first, rest);
  }

  /**
   * Two friends: "It's John and Jane's birthday", from the first word of
   * each name; for "John Doe" and "Jane Smith" that is "John" and "Jane".
   */
  lemma BirthdayTitleTwo(a: string, b: string)
    ensures FormatBirthdayTitle([a, b]) ==
      "It's " + FirstName(a) + " and " + FirstName(b) + "'s birthday " + PartyEmoji
    ensures forall a1, a2, b1, b2 :: ' ' !in a1 && ' ' !in b1 && a == a1 + " " + a2 && b == b1 + " " + b2 ==>
      FormatBirthdayTitle([a, b]) == "It's " + a1 + " and " + b1 + "'s birthday " + PartyEmoji
  {
    forall a1, a2, b1, b2 | ' ' !in a1 && ' ' !in b1 && a == a1 + " " + a2 && b == b1 + " " + b2
      ensures FormatBirthdayTitle([a, b]) == "It's " + a1 + " and " + b1 + "'s birthday " + PartyEmoji
    {
      FirstNameOf(a1, a2);
      FirstNameOf(b1, b2);
    }
  }

  /** Three friends: "It's John, Jane and 1 other's birthday", from the first words of the first two names. */
  lemma BirthdayTitleThree(a: string, b: string, c: string)
    ensures FormatBirthdayTitle([a, b, c]) ==
      "It's " + FirstName(a) + ", " + FirstName(b) + " and 1 other's birthday " + PartyEmoji
  {
    var names := [a, b, c];
    assert |names| == 3 && names[0] == a && names[1] == b;
    assert |names| - 2 == 1;
  }

  /**
   * Four or more friends: the first words of the first two names and the
   * count of the others, "3 others'" for five.
   */
  lemma BirthdayTitleMany(names: seq<string>)
    requires |names| >= 4
    ensures FormatBirthdayTitle(names) ==
      "It's " + FirstName(names[0]) + ", " + FirstName(names[1]) + " and "
        + IntToString(|names| - 2) + " others' birthday " + PartyEmoji
  {
  }

  /** `formatBirthdayBody`. */
  function FormatBirthdayBody(): (r: string)
    ensures r == "Send wishes, make their day!"
  {
    "Send wishes, make their day!"
  }

  /** `formatCatchUpTitle`: the friend's full name after "Catch'up with ". */
  function FormatCatchUpTitle(name: string): (r: string)
    ensures |r| == 14 + |name| && r[..14] == "Catch'up with " && r[14..] == name
  {
    "Catch'up with " + name
  }

  /**
   * `formatCatchUpBody`: "today" for zero days, otherwise the number of days
   * with "day" for one and "days" for any other value, NaN included.
   */
  function FormatCatchUpBody(days: Option<int>): (r: string)
    ensures days == Some(0) ==> r == "You last checked in today"
    ensures days == Some(1) ==> r == "You last checked in 1 day ago"
    ensures days != Some(0) && days != Some(1) ==>
      r == "You last checked in " + NumberToString(days) + " days ago"
  {
    if days == Some(0) then "You last checked in today"
    else
      var dayWord := if days == Some(1) then "day" else "days";
      "You last checked in " + NumberToString(days) + " " + dayWord + " ago"
  }

  lemma CatchUpTextExamples()
    ensures FormatCatchUpTitle("John Doe") == "Catch'up with John Doe"
    ensures FormatCatchUpBody(Some(1)) == "You last checked in 1 day ago"
    ensures FormatCatchUpBody(Some(7)) == "You last checked in 7 days ago"
    ensures FormatCatchUpBody(Some(0)) == "You last checked in today"
    ensures FormatCatchUpBody(None) == "You last checked in NaN days ago"
  {
  }

  // ---------------------------------------------------------------------------
  // Birthdays
  // ---------------------------------------------------------------------------

  /**
   * The month and day a birthday string names: the first two dash-separated
   * fields of a string of at most five characters (`MM-DD`), the second and
   * third of a longer one (`YYYY-MM-DD`). A missing field or one that is not
   * a number is NaN, and the pair is then None.
   */
  function BirthdayFields(birthday: string): (r: Option<(int, int)>)
    ensures r.Some? ==> r.value.0 >= 0 && r.value.1 >= 0
  {
    var parts := Split(birthday, '-');
    var k := if |birthday| <= 5 then 0 else 1;
    if |parts| < k + 2 then None
    else
      match (ParseNumber(parts[k]), ParseNumber(parts[k + 1]))
      case (Some(m), Some(d)) => Some((m, d))
      case _ => None
  }

  /** A short `MM-DD` string names its two fields. */
  lemma MonthDayFields(mm: string, dd: string)
    requires '-' !in mm && '-' !in dd && AllDigits(mm) && AllDigits(dd)
    requires |mm| + |dd| <= 4
    ensures BirthdayFields(mm + "-" + dd) == Some((DigitsValue(mm), DigitsValue(dd)))
  {
    SplitFirst(mm, '-', dd);
    assert mm + "-" + dd == mm + ['-'] + dd;
  }

  /** A `YYYY-MM-DD` string names its last two fields, whatever its year field holds. */
  lemma FullDateFields(yyyy: string, mm: string, dd: string)
    requires '-' !in yyyy && '-' !in mm && '-' !in dd && AllDigits(mm) && AllDigits(dd)
    requires |yyyy| + |mm| + |dd| >= 4
    ensures BirthdayFields(yyyy + "-" + mm + "-" + dd) == Some((DigitsValue(mm), DigitsValue(dd)))
  {
    SplitThree(yyyy, mm, dd);
    var s := yyyy + "-" + mm + "-" + dd;
    assert |s| > 5;
    FieldsAt(s, 1, mm, dd);
  }

  /** A birthday string whose fields at `k` and `k + 1` are the two given digit strings. */
  lemma FieldsAt(birthday: string, k: nat, mm: string, dd: string)
    requires k == (if |birthday| <= 5 then 0 else 1)
    requires |Split(birthday, '-')| >= k + 2
    requires Split(birthday, '-')[k] == mm && Split(birthday, '-')[k + 1] == dd
    requires AllDigits(mm) && AllDigits(dd)
    ensures BirthdayFields(birthday) == Some((DigitsValue(mm), DigitsValue(dd)))
  {
  }

  /** `isLeapYearDate`: the Gregorian rule on the date's year. */
  predicate IsLeapYearDate(date: Date)
    ensures IsLeapYearDate(date) <==> YearLength(date.year) == 366
  {
    IsLeapYear(date.year)
  }

  /**
   * `isBirthdayOnDate`: the birthday's month and day are the date's; a
   * 29 February birthday falls on 29 February in leap years and on
   * 28 February otherwise. No birthday (null, undefined or "") is never.
   */
  predicate IsBirthdayOnDate(birthday: Option<string>, date: Date)
    ensures IsBirthdayOnDate(birthday, date) ==>
      birthday.Some? && birthday.value != "" && BirthdayFields(birthday.value).Some?
  {
    match birthday
    case None => false
    case Some(b) =>
      b != "" &&
      match BirthdayFields(b)
      case None => false
      case Some((m, d)) =>
        if m == 2 && d == 29 then
          var targetDay := if IsLeapYearDate(date) then 29 else 28;
          date.month == 2 && date.day == targetDay
        else date.month == m && date.day == d
  }

  /** `isBirthdayToday`: the same test against today's date. */
  predicate IsBirthdayToday(birthday: Option<string>, today: Date) {
    IsBirthdayOnDate(birthday, today)
  }

  /** The day of year `y` on which a birthday of month `m`, day `d` is celebrated. */
  function CelebrationDay(m: int, d: int, y: int): (date: Date)
    requires ValidDate(Date(2000, m, d))
    ensures ValidDate(date) && date.year == y
  {
    if m == 2 && d == 29 then Date(y, 2, if IsLeapYear(y) then 29 else 28)
    else Date(y, m, d)
  }

  /**
   * A birthday on a day some leap year has is celebrated on exactly one day of
   * every year: its own day, or 28 February for a 29 February birthday in a
   * common year.
   */
  lemma BirthdayOncePerYear(b: string, y: int, date: Date)
    requires BirthdayFields(b).Some? && b != ""
    requires ValidDate(Date(2000, BirthdayFields(b).value.0, BirthdayFields(b).value.1))
    requires ValidDate(date) && date.year == y
    ensures IsBirthdayOnDate(Some(b), date)
      <==> date == CelebrationDay(BirthdayFields(b).value.0, BirthdayFields(b).value.1, y)
  {
  }

  /** A birthday naming no day of any year (month 13, 31 April, ...) is never celebrated. */
  lemma ImpossibleBirthdayNever(b: string, date: Date)
    requires BirthdayFields(b).Some?
    requires !ValidDate(Date(2000, BirthdayFields(b).value.0, BirthdayFields(b).value.1))
    requires ValidDate(date)
    ensures !IsBirthdayOnDate(Some(b), date)
  {
  }

  /** A 29 February birthday is on 29 February in leap years and on 28 February otherwise, never both. */
  lemma LeapDayBirthday(b: string, date: Date)
    requires b != "" && BirthdayFields(b) == Some((2, 29))
    ensures IsLeapYear(date.year) ==> (IsBirthdayOnDate(Some(b), date) <==> date.month == 2 && date.day == 29)
    ensures !IsLeapYear(date.year) ==> (IsBirthdayOnDate(Some(b), date) <==> date.month == 2 && date.day == 28)
  {
  }

  /** The year field of a birthday plays no part: `YYYY-MM-DD` and `MM-DD` fall on the same days. */
  lemma BirthdayYearIgnored(yyyy: string, mm: string, dd: string, date: Date)
    requires '-' !in yyyy && '-' !in mm && '-' !in dd && AllDigits(mm) && AllDigits(dd)
    requires |mm| == 2 && |dd| == 2
    ensures IsBirthdayOnDate(Some(yyyy + "-" + mm + "-" + dd), date) == IsBirthdayOnDate(Some(mm + "-" + dd), date)
  {
    FullDateFields(yyyy, mm, dd);
    MonthDayFields(mm, dd);
  }

  // ---------------------------------------------------------------------------
  // Days and times
  // ---------------------------------------------------------------------------

  /**
   * `getDaysSinceLastContact`: whole days from the contact day to today,
   * both taken at midnight; negative for a day still to come, NaN (None)
   * for a string that is not a date.
   */
  function GetDaysSinceLastContact(lastContactAt: string, today: Date): (r: Option<int>)
    ensures r.Some? <==> ParseIsoDate(lastContactAt).Some?
    ensures r.Some? ==> r.value == DayNumber(today) - DayNumber(ParseIsoDate(lastContactAt).value)
  {
    match ParseIsoDate(lastContactAt)
    case None => None
    case Some(lastContact) => Some(DayNumber(today) - DayNumber(lastContact))
  }

  /** For the key of a day, the difference of day numbers: zero for today, negative for the future. */
  lemma DaysSinceDay(contact: Date, today: Date)
    requires ValidDate(contact) && 0 <= contact.year <= 9999
    ensures GetDaysSinceLastContact(ToIsoDateString(contact), today) == Some(DayNumber(today) - DayNumber(contact))
    ensures contact == today ==> GetDaysSinceLastContact(ToIsoDateString(contact), today) == Some(0)
    ensures DayNumber(contact) > DayNumber(today) ==> GetDaysSinceLastContact(ToIsoDateString(contact), today).value < 0
  {
    IsoDateRoundTrip(contact);
    DaysSinceParsed(ToIsoDateString(contact), contact, today);
  }

  lemma DaysSinceParsed(s: string, contact: Date, today: Date)
    requires ParseIsoDate(s) == Some(contact)
    ensures GetDaysSinceLastContact(s, today) == Some(DayNumber(today) - DayNumber(contact))
  {
  }

  /** A local date and time, the day given by its day number. */
  datatype Trigger = Trigger(dayNumber: int, hour: int, minute: int, second: int, millisecond: int)

  /**
   * Tomorrow at `startHour` and a random minute: `setHours` carries whole
   * days out of an hour outside 0..23. The draw `random` is `Math.random()`.
   */
  function TimeInWindow(today: Date, startHour: int, random: real): (t: Trigger)
    requires ValidDate(today)
    requires 0.0 <= random < 1.0
    ensures 0 <= t.minute < 60 && t.second == 0 && t.millisecond == 0
  {
    Trigger(DayNumber(NextDay(today)) + startHour / 24, startHour % 24, (random * 60.0).Floor, 0, 0)
  }

  /**
   * The trigger is on the hour after `startHour` tomorrow: a whole minute,
   * no seconds; an hour outside 0..23 moves the day.
   */
  lemma TimeInWindowBounds(today: Date, startHour: int, random: real)
    requires ValidDate(today)
    requires 0.0 <= random < 1.0
    ensures var t := TimeInWindow(today, startHour, random);
      && 0 <= t.minute < 60 && t.second == 0 && t.millisecond == 0
      && (0 <= startHour < 24 ==> t.dayNumber == DayNumber(today) + 1 && t.hour == startHour)
      && t.dayNumber * 24 + t.hour == (DayNumber(today) + 1) * 24 + startHour
  {
  }

  /**
   * `getRandomTimeInWindow(startHour, endHour)`. The minute is drawn from the
   * whole hour after `startHour`; `endHour` is not consulted.
   */
  method GetRandomTimeInWindow(today: Date, startHour: int, endHour: int, random: real) returns (t: Trigger)
    requires ValidDate(today)
    requires 0.0 <= random < 1.0
    ensures t == TimeInWindow(today, startHour, random)
  {
    var tomorrow := NextDay(today);
    var randomMinute := (random * 60.0).Floor;
    t := Trigger(DayNumber(tomorrow), 0, 0, 0, 0);
    t := t.(dayNumber := t.dayNumber + startHour / 24, hour := startHour % 24, minute := randomMinute);
  }

  /** Two draws a tenth and nine tenths of the way through the hour land on different minutes. */
  lemma WindowDrawsDiffer(today: Date)
    requires ValidDate(today)
    ensures TimeInWindow(today, 9, 0.1).minute == 6
    ensures TimeInWindow(today, 9, 0.9).minute == 54
  {
  }

  // ---------------------------------------------------------------------------
  // Planning
  // ---------------------------------------------------------------------------

  /** `isFriendDueForCatchUp`: a frequency and a last contact are set, and that many days have passed. */
  predicate IsFriendDueForCatchUp(f: Friend, today: Date)
    ensures IsFriendDueForCatchUp(f, today) ==> f.frequencyDays != 0 && ParseIsoDate(f.lastContactAt).Some?
  {
    f.frequencyDays != 0 && f.lastContactAt != "" &&
    match GetDaysSinceLastContact(f.lastContactAt, today)
    case None => false
    case Some(days) => days >= f.frequencyDays
  }

  /** A friend last seen on `contact` is due exactly when `frequencyDays` days have gone by. */
  lemma DueAfterFrequency(f: Friend, contact: Date, today: Date)
    requires ValidDate(contact) && 0 <= contact.year <= 9999
    requires f.lastContactAt == ToIsoDateString(contact) && f.frequencyDays != 0
    ensures IsFriendDueForCatchUp(f, today) <==> DayNumber(today) - DayNumber(contact) >= f.frequencyDays
  {
    DaysSinceDay(contact, today);
  }

  /** Which friends a notification is about: the `data` of its content. */
  datatype Payload = BirthdayData(friendIds: seq<string>) | CatchUpData(friendId: string)

  /**
   * A notification's content, kept as the values its title, body and data
   * are computed from: the friends with a birthday, or one friend and the
   * days since the last contact.
   */
  datatype NotificationContent =
    | BirthdayContent(friends: seq<Friend>)
    | CatchUpContent(friend: Friend, daysSince: Option<int>)
  {
    function Title(): string {
      match this
      case BirthdayContent(fs) => FormatBirthdayTitle(Names(fs))
      case CatchUpContent(f, _) => FormatCatchUpTitle(f.name)
    }

    function Body(): string {
      match this
      case BirthdayContent(_) => FormatBirthdayBody()
      case CatchUpContent(_, days) => FormatCatchUpBody(days)
    }

    function Data(): Payload {
      match this
      case BirthdayContent(fs) => BirthdayData(Ids(fs))
      case CatchUpContent(f, _) => CatchUpData(f.id)
    }
  }

  datatype ScheduledNotification = ScheduledNotification(content: NotificationContent, trigger: Trigger)

  function Names(fs: seq<Friend>): (r: seq<string>)
    ensures |r| == |fs| && forall i :: 0 <= i < |fs| ==> r[i] == fs[i].name
  {
    Map(fs, (f: Friend) => f.name)
  }

  function Ids(fs: seq<Friend>): (r: seq<string>)
    ensures |r| == |fs| && forall i :: 0 <= i < |fs| ==> r[i] == fs[i].id
  {
    Map(fs, (f: Friend) => f.id)
  }

  /** The content `scheduleCatchUpNotification` gives a friend's notification on `today`. */
  function CatchUpFor(f: Friend, today: Date): NotificationContent {
    CatchUpContent(f, GetDaysSinceLastContact(f.lastContactAt, today))
  }

  /**
   * A friend's catch-up notification is titled with their name, tells how
   * long it has been since the last contact, and carries their id.
   */
  lemma CatchUpForSays(f: Friend, today: Date)
    ensures CatchUpFor(f, today).Title() == FormatCatchUpTitle(f.name)
    ensures CatchUpFor(f, today).Body() == FormatCatchUpBody(GetDaysSinceLastContact(f.lastContactAt, today))
    ensures CatchUpFor(f, today).Data() == CatchUpData(f.id)
  {
  }

  /** The friends whose birthday falls on `tomorrow`, in list order. */
  function BirthdayFriends(friends: seq<Friend>, tomorrow: Date): (r: seq<Friend>)
    ensures |r| <= |friends|
  {
    Filter(friends, (f: Friend) => f.birthday != "" && IsBirthdayOnDate(Some(f.birthday), tomorrow))
  }

  lemma BirthdayFriendsMembers(friends: seq<Friend>, tomorrow: Date)
    ensures forall f {:trigger f in BirthdayFriends(friends, tomorrow)} :: f in BirthdayFriends(friends, tomorrow) <==>
      f in friends && IsBirthdayOnDate(Some(f.birthday), tomorrow)
  {
    FilterMembers(friends, (f: Friend) => f.birthday != "" && IsBirthdayOnDate(Some(f.birthday), tomorrow));
  }

  /**
   * The friends who get a catch-up notification, in list order: no birthday
   * tomorrow, a frequency set, due, and not notified too recently.
   */
  function CatchUpFriends(friends: seq<Friend>, today: Date, birthdayIds: set<string>,
                          shouldSendCatchUp: (string, int) -> bool): (r: seq<Friend>)
    ensures |r| <= |friends|
  {
    Filter(friends, (f: Friend) =>
      f.id !in birthdayIds && f.frequencyDays != 0 && IsFriendDueForCatchUp(f, today)
      && shouldSendCatchUp(f.id, f.frequencyDays))
  }

  lemma CatchUpFriendsMembers(friends: seq<Friend>, today: Date, birthdayIds: set<string>,
                              shouldSendCatchUp: (string, int) -> bool)
    ensures forall f {:trigger f in CatchUpFriends(friends, today, birthdayIds, shouldSendCatchUp)} ::
      f in CatchUpFriends(friends, today, birthdayIds, shouldSendCatchUp) <==>
      (f in friends && f.id !in birthdayIds && IsFriendDueForCatchUp(f, today)
       && shouldSendCatchUp(f.id, f.frequencyDays))
  {
    FilterMembers(friends, (f: Friend) =>
      f.id !in birthdayIds && f.frequencyDays != 0 && IsFriendDueForCatchUp(f, today)
      && shouldSendCatchUp(f.id, f.frequencyDays));
  }

  /** `new Set(fs.map(f => f.id))`. */
  function IdSet(fs: seq<Friend>): (ids: set<string>)
    ensures forall f :: f in fs ==> f.id in ids
    ensures forall id :: id in ids ==> exists f :: f in fs && f.id == id
  {
    set f | f in fs :: f.id
  }

  /** The birthday notification, if one is sent: somebody has a birthday and it is not a repeat. */
  function PlannedBirthday(friends: seq<Friend>, today: Date, sendBirthday: bool): (r: seq<NotificationContent>)
    requires ValidDate(today)
    ensures |r| <= 1
    ensures |r| == 1 <==> sendBirthday && |BirthdayFriends(friends, NextDay(today))| > 0
  {
    var bf := BirthdayFriends(friends, NextDay(today));
    if |bf| > 0 && sendBirthday then [BirthdayContent(bf)] else []
  }

  /** One catch-up notification per friend, in order. */
  function CatchUpContents(fs: seq<Friend>, today: Date): (r: seq<NotificationContent>)
    ensures |r| == |fs|
  {
    if fs == [] then [] else CatchUpContents(fs[..|fs| - 1], today) + [CatchUpFor(fs[|fs| - 1], today)]
  }

  lemma CatchUpContentsStep(fs: seq<Friend>, i: nat, today: Date)
    requires i < |fs|
    ensures CatchUpContents(fs[..i + 1], today) == CatchUpContents(fs[..i], today) + [CatchUpFor(fs[i], today)]
  {
    assert fs[..i + 1][..i] == fs[..i];
  }

  /** The `j`-th catch-up notification is the `j`-th friend's. */
  lemma {:induction false} CatchUpContentsAt(fs: seq<Friend>, today: Date)
    ensures forall j :: 0 <= j < |fs| ==> CatchUpContents(fs, today)[j] == CatchUpFor(fs[j], today)
  {
    if fs != [] {
      var init := fs[..|fs| - 1];
      CatchUpContentsAt(init, today);
      assert CatchUpContents(fs, today) == CatchUpContents(init, today) + [CatchUpFor(fs[|fs| - 1], today)];
      assert forall j :: 0 <= j < |init| ==> fs[j] == init[j];
    }
  }

  function PlannedCatchUps(friends: seq<Friend>, today: Date, shouldSendCatchUp: (string, int) -> bool)
    : (r: seq<NotificationContent>)
    requires ValidDate(today)
    ensures |r| == |CatchUpFriends(friends, today, IdSet(BirthdayFriends(friends, NextDay(today))), shouldSendCatchUp)|
  {
    CatchUpContents(CatchUpFriends(friends, today, IdSet(BirthdayFriends(friends, NextDay(today))), shouldSendCatchUp), today)
  }

  /** Everything `scheduleAllNotifications` leaves scheduled, in the order it is scheduled. */
  function Plan(friends: seq<Friend>, today: Date, sendBirthday: bool, shouldSendCatchUp: (string, int) -> bool)
    : (r: seq<NotificationContent>)
    requires ValidDate(today)
    ensures friends == [] ==> r == []
  {
    if friends == [] then []
    else PlannedBirthday(friends, today, sendBirthday) + PlannedCatchUps(friends, today, shouldSendCatchUp)
  }

  /** Nothing is planned for nobody; any birthday notification comes first and is the only one. */
  lemma PlanOrder(friends: seq<Friend>, today: Date, sendBirthday: bool, shouldSendCatchUp: (string, int) -> bool)
    requires ValidDate(today)
    ensures var plan := Plan(friends, today, sendBirthday, shouldSendCatchUp);
      && (friends == [] ==> plan == [])
      && (forall i :: 0 < i < |plan| ==> plan[i].Data().CatchUpData?)
  {
    if friends != [] {
      var pb := PlannedBirthday(friends, today, sendBirthday);
      CatchUpContentsAt(CatchUpFriends(friends, today, IdSet(BirthdayFriends(friends, NextDay(today))), shouldSendCatchUp), today);
      assert |pb| <= 1;
    }
  }

  /**
   * A birthday notification is planned exactly when somebody's birthday is
   * tomorrow and the birthday notification is not a repeat. It is the
   * notification about the birthday friends: their ids are its data and
   * their names make its title.
   */
  lemma PlanBirthday(friends: seq<Friend>, today: Date, sendBirthday: bool, shouldSendCatchUp: (string, int) -> bool)
    requires ValidDate(today)
    ensures var plan := Plan(friends, today, sendBirthday, shouldSendCatchUp);
      && (|plan| > 0 && plan[0].Data().BirthdayData? <==>
            sendBirthday && exists f :: f in friends && IsBirthdayOnDate(Some(f.birthday), NextDay(today)))
      && (|plan| > 0 && plan[0].Data().BirthdayData? ==>
            var bf := BirthdayFriends(friends, NextDay(today));
            && plan[0] == BirthdayContent(bf)
            && plan[0].Data().friendIds == Ids(bf)
            && plan[0].Title() == FormatBirthdayTitle(Names(bf)))
  {
    var bf := BirthdayFriends(friends, NextDay(today));
    BirthdayFriendsNonEmpty(friends, NextDay(today));
    if friends != [] {
      CatchUpContentsAt(CatchUpFriends(friends, today, IdSet(bf), shouldSendCatchUp), today);
    }
  }

  /**
   * The ids the birthday notification carries are exactly those of the
   * friends whose birthday is tomorrow: all of them, and nobody else's.
   */
  lemma BirthdayIdsExactly(friends: seq<Friend>, tomorrow: Date)
    ensures forall id :: id in Ids(BirthdayFriends(friends, tomorrow)) <==>
      exists f :: f in friends && IsBirthdayOnDate(Some(f.birthday), tomorrow) && f.id == id
  {
    var bf := BirthdayFriends(friends, tomorrow);
    BirthdayFriendsMembers(friends, tomorrow);
    forall id | id in Ids(bf)
      ensures exists f :: f in friends && IsBirthdayOnDate(Some(f.birthday), tomorrow) && f.id == id
    {
      var k :| 0 <= k < |bf| && Ids(bf)[k] == id;
      assert bf[k] in bf;
    }
    forall f | f in friends && IsBirthdayOnDate(Some(f.birthday), tomorrow)
      ensures f.id in Ids(bf)
    {
      IdInIds(bf, f);
    }
  }

  /**
   * The birthday friends are listed in the friends' own order: the `k`-th is
   * the friend at the `k`-th of a strictly increasing run of positions that
   * holds every friend whose birthday is tomorrow.
   */
  lemma BirthdayFriendsInOrder(friends: seq<Friend>, tomorrow: Date) returns (idx: seq<nat>)
    ensures |idx| == |BirthdayFriends(friends, tomorrow)|
    ensures forall k :: 0 <= k < |idx| ==> idx[k] < |friends| && BirthdayFriends(friends, tomorrow)[k] == friends[idx[k]]
    ensures forall k, l :: 0 <= k < l < |idx| ==> idx[k] < idx[l]
    ensures forall i :: 0 <= i < |friends| && IsBirthdayOnDate(Some(friends[i].birthday), tomorrow) ==> i in idx
  {
    var p := (f: Friend) => f.birthday != "" && IsBirthdayOnDate(Some(f.birthday), tomorrow);
    FilterInOrder(friends, p);
    FilterIndicesPass(friends, p);
    FilterIndicesComplete(friends, p);
    idx := FilterIndices(friends, p);
    assert forall i :: 0 <= i < |friends| && IsBirthdayOnDate(Some(friends[i].birthday), tomorrow) ==> p(friends[i]);
  }

  /** Somebody has a birthday tomorrow exactly when the birthday list is not empty. */
  lemma BirthdayFriendsNonEmpty(friends: seq<Friend>, tomorrow: Date)
    ensures |BirthdayFriends(friends, tomorrow)| > 0 <==>
      exists f :: f in friends && IsBirthdayOnDate(Some(f.birthday), tomorrow)
  {
    var bf := BirthdayFriends(friends, tomorrow);
    BirthdayFriendsMembers(friends, tomorrow);
    if |bf| > 0 {
      assert bf[0] in bf;
    }
    forall f | f in friends && IsBirthdayOnDate(Some(f.birthday), tomorrow)
      ensures |bf| > 0
    {
      assert f in bf;
    }
  }

  lemma IdInIds(fs: seq<Friend>, f: Friend)
    requires f in fs
    ensures f.id in Ids(fs)
  {
    var k :| 0 <= k < |fs| && fs[k] == f;
    assert Ids(fs)[k] == f.id;
  }

  /** A birthday friend's identifier is in the set of birthday identifiers. */
  lemma IdsInIdSet(fs: seq<Friend>, id: string)
    requires id in Ids(fs)
    ensures id in IdSet(fs)
  {
    var k :| 0 <= k < |fs| && Ids(fs)[k] == id;
    assert fs[k] in fs;
  }

  /** Nobody named in the birthday notification is sent a catch-up notification too. */
  lemma PlanNoDoubles(friends: seq<Friend>, today: Date, sendBirthday: bool, shouldSendCatchUp: (string, int) -> bool)
    requires ValidDate(today)
    ensures var plan := Plan(friends, today, sendBirthday, shouldSendCatchUp);
      forall j :: 0 < j < |plan| && plan[0].Data().BirthdayData? && plan[j].Data().CatchUpData? ==>
        plan[j].Data().friendId !in plan[0].Data().friendIds
  {
    var plan := Plan(friends, today, sendBirthday, shouldSendCatchUp);
    if |plan| > 0 && plan[0].Data().BirthdayData? {
      PlanBirthdayFirst(friends, today, sendBirthday, shouldSendCatchUp);
      PlanAfterBirthday(friends, today, sendBirthday, shouldSendCatchUp);
      CatchUpIdsOutsideBirthdays(friends, today, shouldSendCatchUp);
    }
  }

  /** After a birthday notification come the catch-up notifications of the catch-up friends, in order. */
  lemma PlanAfterBirthday(friends: seq<Friend>, today: Date, sendBirthday: bool, shouldSendCatchUp: (string, int) -> bool)
    requires ValidDate(today) && friends != [] && |PlannedBirthday(friends, today, sendBirthday)| == 1
    ensures var plan := Plan(friends, today, sendBirthday, shouldSendCatchUp);
      var bf := BirthdayFriends(friends, NextDay(today));
      var cf := CatchUpFriends(friends, today, IdSet(bf), shouldSendCatchUp);
      && plan[0] == BirthdayContent(bf)
      && |plan| == 1 + |cf|
      && forall j :: 0 < j < |plan| ==> plan[j].Data() == CatchUpData(cf[j - 1].id)
  {
    var plan := Plan(friends, today, sendBirthday, shouldSendCatchUp);
    var cf := CatchUpFriends(friends, today, IdSet(BirthdayFriends(friends, NextDay(today))), shouldSendCatchUp);
    PlanCatchUps(friends, today, sendBirthday, shouldSendCatchUp);
    forall j | 0 < j < |plan|
      ensures plan[j].Data() == CatchUpData(cf[j - 1].id)
    {
      assert plan[1 + (j - 1)] == CatchUpFor(cf[j - 1], today);
      CatchUpForSays(cf[j - 1], today);
    }
  }

  /** A plan that opens with a birthday notification holds exactly one. */
  lemma PlanBirthdayFirst(friends: seq<Friend>, today: Date, sendBirthday: bool, shouldSendCatchUp: (string, int) -> bool)
    requires ValidDate(today)
    ensures var plan := Plan(friends, today, sendBirthday, shouldSendCatchUp);
      |plan| > 0 && plan[0].Data().BirthdayData? ==> |PlannedBirthday(friends, today, sendBirthday)| == 1
  {
    if friends != [] {
      var plan := Plan(friends, today, sendBirthday, shouldSendCatchUp);
      var cf := CatchUpFriends(friends, today, IdSet(BirthdayFriends(friends, NextDay(today))), shouldSendCatchUp);
      PlanCatchUps(friends, today, sendBirthday, shouldSendCatchUp);
      if |PlannedBirthday(friends, today, sendBirthday)| == 0 && |plan| > 0 {
        assert plan[0 + 0] == CatchUpFor(cf[0], today);
      }
    }
  }

  /** No catch-up friend carries the id of a birthday friend. */
  lemma CatchUpIdsOutsideBirthdays(friends: seq<Friend>, today: Date, shouldSendCatchUp: (string, int) -> bool)
    requires ValidDate(today)
    ensures var bf := BirthdayFriends(friends, NextDay(today));
      var cf := CatchUpFriends(friends, today, IdSet(bf), shouldSendCatchUp);
      forall k :: 0 <= k < |cf| ==> cf[k].id !in Ids(bf)
  {
    var bf := BirthdayFriends(friends, NextDay(today));
    var cf := CatchUpFriends(friends, today, IdSet(bf), shouldSendCatchUp);
    CatchUpFriendsMembers(friends, today, IdSet(bf), shouldSendCatchUp);
    forall k | 0 <= k < |cf|
      ensures cf[k].id !in Ids(bf)
    {
      assert cf[k] in cf;
      if cf[k].id in Ids(bf) {
        IdsInIdSet(bf, cf[k].id);
      }
    }
  }

  function Contents(ns: seq<ScheduledNotification>): (r: seq<NotificationContent>)
    ensures |r| == |ns|
  {
    if ns == [] then [] else Contents(ns[..|ns| - 1]) + [ns[|ns| - 1].content]
  }

  lemma ContentsAppend(ns: seq<ScheduledNotification>, n: ScheduledNotification)
    ensures Contents(ns + [n]) == Contents(ns) + [n.content]
  {
    assert (ns + [n])[..|ns|] == ns;
  }

  /** The `k`-th notification's trigger is 9 o'clock tomorrow with the minute of the `k`-th draw. */
  ghost predicate TriggersDrawn(ns: seq<ScheduledNotification>, today: Date, random: nat -> real)
    requires ValidDate(today)
    requires forall k :: 0.0 <= random(k) < 1.0
  {
    forall k :: 0 <= k < |ns| ==> ns[k].trigger == TimeInWindow(today, 9, random(k))
  }

  /** No friend sharing the id `id` has a birthday on `tomorrow`. */
  predicate NoBirthdayUnderId(friends: seq<Friend>, id: string, tomorrow: Date) {
    forall g :: g in friends && g.id == id ==> !IsBirthdayOnDate(Some(g.birthday), tomorrow)
  }

  /**
   * The catch-up friends of a run are exactly the friends that no birthday
   * friend shares an id with, that are due, and whose catch-up may be sent.
   */
  lemma CatchUpFriendsOfPlan(friends: seq<Friend>, today: Date, shouldSendCatchUp: (string, int) -> bool)
    requires ValidDate(today)
    ensures var cf := CatchUpFriends(friends, today, IdSet(BirthdayFriends(friends, NextDay(today))), shouldSendCatchUp);
      forall f {:trigger f in cf} :: f in cf <==>
        (f in friends && NoBirthdayUnderId(friends, f.id, NextDay(today)) && IsFriendDueForCatchUp(f, today)
         && shouldSendCatchUp(f.id, f.frequencyDays))
  {
    var tomorrow := NextDay(today);
    var bf := BirthdayFriends(friends, tomorrow);
    CatchUpFriendsMembers(friends, today, IdSet(bf), shouldSendCatchUp);
    BirthdayFriendsMembers(friends, tomorrow);
    forall id
      ensures id in IdSet(bf) <==> !NoBirthdayUnderId(friends, id, tomorrow)
    {
      if id in IdSet(bf) {
        var g :| g in bf && g.id == id;
        assert g in friends && IsBirthdayOnDate(Some(g.birthday), tomorrow);
      }
      if !NoBirthdayUnderId(friends, id, tomorrow) {
        var g :| g in friends && g.id == id && IsBirthdayOnDate(Some(g.birthday), tomorrow);
        assert g in bf;
      }
    }
  }

  /**
   * The catch-up friends keep the friends' own order: the `k`-th is the
   * friend at the `k`-th of a strictly increasing run of positions.
   */
  lemma CatchUpFriendsInOrder(friends: seq<Friend>, today: Date, birthdayIds: set<string>,
                              shouldSendCatchUp: (string, int) -> bool) returns (idx: seq<nat>)
    ensures |idx| == |CatchUpFriends(friends, today, birthdayIds, shouldSendCatchUp)|
    ensures forall k :: 0 <= k < |idx| ==>
      idx[k] < |friends| && CatchUpFriends(friends, today, birthdayIds, shouldSendCatchUp)[k] == friends[idx[k]]
    ensures forall k, l :: 0 <= k < l < |idx| ==> idx[k] < idx[l]
    ensures forall i :: 0 <= i < |friends| ==>
      ((&& friends[i].id !in birthdayIds
        && IsFriendDueForCatchUp(friends[i], today)
        && shouldSendCatchUp(friends[i].id, friends[i].frequencyDays)) ==> i in idx)
  {
    var p := (f: Friend) =>
      f.id !in birthdayIds && f.frequencyDays != 0 && IsFriendDueForCatchUp(f, today)
      && shouldSendCatchUp(f.id, f.frequencyDays);
    FilterInOrder(friends, p);
    FilterIndicesPass(friends, p);
    FilterIndicesComplete(friends, p);
    idx := FilterIndices(friends, p);
  }

  /**
   * After the birthday notification, if any, come the catch-up
   * notifications, one per catch-up friend and in their order.
   */
  lemma PlanCatchUps(friends: seq<Friend>, today: Date, sendBirthday: bool, shouldSendCatchUp: (string, int) -> bool)
    requires ValidDate(today) && friends != []
    ensures var plan := Plan(friends, today, sendBirthday, shouldSendCatchUp);
      var b := |PlannedBirthday(friends, today, sendBirthday)|;
      var cf := CatchUpFriends(friends, today, IdSet(BirthdayFriends(friends, NextDay(today))), shouldSendCatchUp);
      && |plan| == b + |cf|
      && forall j :: 0 <= j < |cf| ==> plan[b + j] == CatchUpFor(cf[j], today)
  {
    var cf := CatchUpFriends(friends, today, IdSet(BirthdayFriends(friends, NextDay(today))), shouldSendCatchUp);
    CatchUpContentsAt(cf, today);
  }

  /**
   * A due friend that no birthday friend shares an id with, and whose
   * catch-up may be sent, gets a catch-up notification after the birthday one.
   */
  lemma DueFriendGetsCatchUp(friends: seq<Friend>, today: Date, sendBirthday: bool,
                             shouldSendCatchUp: (string, int) -> bool, f: Friend)
    requires ValidDate(today) && f in friends
    requires NoBirthdayUnderId(friends, f.id, NextDay(today)) && IsFriendDueForCatchUp(f, today)
    requires shouldSendCatchUp(f.id, f.frequencyDays)
    ensures var plan := Plan(friends, today, sendBirthday, shouldSendCatchUp);
      exists j :: |PlannedBirthday(friends, today, sendBirthday)| <= j < |plan| && plan[j] == CatchUpFor(f, today)
  {
    var cf := CatchUpFriends(friends, today, IdSet(BirthdayFriends(friends, NextDay(today))), shouldSendCatchUp);
    DueFriendIsCatchUpFriend(friends, today, shouldSendCatchUp, f);
    var k :| 0 <= k < |cf| && cf[k] == f;
    PlanCatchUps(friends, today, sendBirthday, shouldSendCatchUp);
    var b := |PlannedBirthday(friends, today, sendBirthday)|;
    assert Plan(friends, today, sendBirthday, shouldSendCatchUp)[b + k] == CatchUpFor(f, today);
  }

  lemma DueFriendIsCatchUpFriend(friends: seq<Friend>, today: Date, shouldSendCatchUp: (string, int) -> bool, f: Friend)
    requires ValidDate(today) && f in friends
    requires NoBirthdayUnderId(friends, f.id, NextDay(today)) && IsFriendDueForCatchUp(f, today)
    requires shouldSendCatchUp(f.id, f.frequencyDays)
    ensures f in CatchUpFriends(friends, today, IdSet(BirthdayFriends(friends, NextDay(today))), shouldSendCatchUp)
  {
    CatchUpFriendsOfPlan(friends, today, shouldSendCatchUp);
  }

  /** A schedule holding the planned birthday notification and then all the planned catch-ups is the plan. */
  lemma ScheduleComplete(ns: seq<ScheduledNotification>, friends: seq<Friend>, today: Date, sendBirthday: bool,
                         shouldSendCatchUp: (string, int) -> bool, random: nat -> real,
                         head: seq<NotificationContent>, cf: seq<Friend>)
    requires ValidDate(today) && friends != []
    requires forall k :: 0.0 <= random(k) < 1.0
    requires head == PlannedBirthday(friends, today, sendBirthday)
    requires cf == CatchUpFriends(friends, today, IdSet(BirthdayFriends(friends, NextDay(today))), shouldSendCatchUp)
    requires Contents(ns) == head + CatchUpContents(cf, today)
    requires TriggersDrawn(ns, today, random)
    ensures Contents(ns) == Plan(friends, today, sendBirthday, shouldSendCatchUp)
    ensures forall k :: 0 <= k < |ns| ==> ns[k].trigger == TimeInWindow(today, 9, random(k))
  {
  }

  lemma TriggersAppend(ns: seq<ScheduledNotification>, n: ScheduledNotification, today: Date, random: nat -> real)
    requires ValidDate(today)
    requires forall k :: 0.0 <= random(k) < 1.0
    requires TriggersDrawn(ns, today, random)
    requires n.trigger == TimeInWindow(today, 9, random(|ns|))
    ensures TriggersDrawn(ns + [n], today, random)
  {
    var after := ns + [n];
    forall k | 0 <= k < |ns|
      ensures after[k].trigger == TimeInWindow(today, 9, random(k))
    {
      assert after[k] == ns[k];
    }
  }

  lemma AppendAssoc<T>(a: seq<T>, b: seq<T>, c: seq<T>)
    ensures (a + b) + c == a + (b + c)
  {
  }

  /** Scheduling the next catch-up notification extends the schedule by the next planned one. */
  lemma CatchUpScheduled(before: seq<ScheduledNotification>, n: ScheduledNotification, after: seq<ScheduledNotification>,
                         head: seq<NotificationContent>,
                         cf: seq<Friend>, i: nat, today: Date, random: nat -> real)
    requires ValidDate(today)
    requires forall k :: 0.0 <= random(k) < 1.0
    requires i < |cf|
    requires Contents(before) == head + CatchUpContents(cf[..i], today)
    requires n.content == CatchUpFor(cf[i], today)
    requires TriggersDrawn(before, today, random)
    requires n.trigger == TimeInWindow(today, 9, random(|before|))
    requires after == before + [n]
    ensures Contents(after) == head + CatchUpContents(cf[..i + 1], today)
    ensures TriggersDrawn(after, today, random)
  {
    TriggersAppend(before, n, today, random);
    ContentsAppend(before, n);
    CatchUpContentsStep(cf, i, today);
    AppendAssoc(head, CatchUpContents(cf[..i], today), [n.content]);
  }

  // ---------------------------------------------------------------------------
  // The service
  // ---------------------------------------------------------------------------

  /** The operating system's list of pending notifications. */
  class Scheduler {
    var scheduled: seq<ScheduledNotification>

    constructor ()
      ensures scheduled == []
    {
      scheduled := [];
    }

    /** `cancelAllScheduled`. */
    method CancelAllScheduled()
      modifies this
      ensures scheduled == []
    {
      scheduled := [];
    }

    /** `scheduleBirthdayNotification`: one notification naming all the friends. */
    method ScheduleBirthdayNotification(friends: seq<Friend>, triggerDate: Trigger)
      modifies this
      ensures scheduled == old(scheduled) + [ScheduledNotification(BirthdayContent(friends), triggerDate)]
    {
      scheduled := scheduled + [ScheduledNotification(BirthdayContent(friends), triggerDate)];
    }

    /** `scheduleCatchUpNotification`: says how many days ago the friend was last seen. */
    method ScheduleCatchUpNotification(friend: Friend, triggerDate: Trigger, today: Date)
      modifies this
      ensures scheduled == old(scheduled) + [ScheduledNotification(CatchUpFor(friend, today), triggerDate)]
    {
      var daysSince := GetDaysSinceLastContact(friend.lastContactAt, today);
      scheduled := scheduled + [ScheduledNotification(CatchUpContent(friend, daysSince), triggerDate)];
    }

    /**
     * The loop of `scheduleAllNotifications` over the catch-up friends: one
     * notification each, in order, each with the next random draw.
     */
    method ScheduleCatchUps(catchUpFriends: seq<Friend>, today: Date, random: nat -> real,
                            ghost head: seq<NotificationContent>)
      requires ValidDate(today)
      requires forall k :: 0.0 <= random(k) < 1.0
      requires |scheduled| == |head| && Contents(scheduled) == head + CatchUpContents(catchUpFriends[..0], today)
      requires TriggersDrawn(scheduled, today, random)
      modifies this
      ensures |scheduled| == |head| + |catchUpFriends|
      ensures Contents(scheduled) == head + CatchUpContents(catchUpFriends, today)
      ensures TriggersDrawn(scheduled, today, random)
    {
      var draws := |scheduled|;
      var i := 0;
      while i < |catchUpFriends|
        invariant 0 <= i <= |catchUpFriends|
        invariant draws == |head| + i == |scheduled|
        invariant Contents(scheduled) == head + CatchUpContents(catchUpFriends[..i], today)
        invariant TriggersDrawn(scheduled, today, random)
      {
        ScheduleNextCatchUp(catchUpFriends, i, today, random(draws), random, head);
        draws := draws + 1;
        i := i + 1;
      }
      assert catchUpFriends[..i] == catchUpFriends;
    }

    /** One turn of the loop: the `i`-th catch-up friend, at the minute the next draw gives. */
    method ScheduleNextCatchUp(catchUpFriends: seq<Friend>, i: nat, today: Date, draw: real,
                               ghost random: nat -> real, ghost head: seq<NotificationContent>)
      requires ValidDate(today) && i < |catchUpFriends|
      requires forall k :: 0.0 <= random(k) < 1.0
      requires draw == random(|scheduled|)
      requires Contents(scheduled) == head + CatchUpContents(catchUpFriends[..i], today)
      requires TriggersDrawn(scheduled, today, random)
      modifies this
      ensures |scheduled| == |old(scheduled)| + 1
      ensures Contents(scheduled) == head + CatchUpContents(catchUpFriends[..i + 1], today)
      ensures TriggersDrawn(scheduled, today, random)
    {
      var catchUpTime := GetRandomTimeInWindow(today, 9, 10, draw);
      ghost var before := scheduled;
      ghost var next := ScheduledNotification(CatchUpFor(catchUpFriends[i], today), catchUpTime);
      ScheduleCatchUpNotification(catchUpFriends[i], catchUpTime, today);
      CatchUpScheduled(before, next, scheduled, head, catchUpFriends, i, today, random);
    }

    /**
     * `scheduleAllNotifications`: cancel everything, then schedule the plan
     * for tomorrow, each notification at 9 o'clock and the minute its own
     * draw gives (the draws are taken in scheduling order).
     */
    method ScheduleAllNotifications(friends: seq<Friend>, today: Date, shouldSendBirthday: bool,
                                    shouldSendCatchUp: (string, int) -> bool, random: nat -> real)
      requires ValidDate(today)
      requires forall k :: 0.0 <= random(k) < 1.0
      modifies this
      ensures Contents(scheduled) == Plan(friends, today, shouldSendBirthday, shouldSendCatchUp)
      ensures forall i :: 0 <= i < |scheduled| ==> scheduled[i].trigger == TimeInWindow(today, 9, random(i))
    {
      CancelAllScheduled();
      if |friends| == 0 {
        return;
      }
      var tomorrow := NextDay(today);
      var birthdayFriends := BirthdayFriends(friends, tomorrow);
      var birthdayFriendIds := IdSet(birthdayFriends);
      var catchUpFriends := CatchUpFriends(friends, today, birthdayFriendIds, shouldSendCatchUp);
      ghost var head := PlannedBirthday(friends, today, shouldSendBirthday);
      if |birthdayFriends| > 0 && shouldSendBirthday {
        var birthdayTime := GetRandomTimeInWindow(today, 9, 10, random(0));
        ScheduleBirthdayNotification(birthdayFriends, birthdayTime);
        ContentsAppend([], ScheduledNotification(BirthdayContent(birthdayFriends), birthdayTime));
      }
      assert catchUpFriends[..0] == [];
      ScheduleCatchUps(catchUpFriends, today, random, head);
      ScheduleComplete(scheduled, friends, today, shouldSendBirthday, shouldSendCatchUp, random,
        head, catchUpFriends);
    }
  }
}
