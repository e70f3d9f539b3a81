/**
 * A friend's card: how many days are left before the next check-in is due,
 * the check-in status those days fall into, the label and colour shown for
 * it, and the card's accessibility label. Today's date is passed in.
 */
module FriendCard {
  import opened Optional
  import opened Strings
  import opened Calendar
  import opened FriendsStore
  import NotificationService

  datatype CheckInStatus = OnTrack | DueSoon | DueToday | Overdue

  /**
   * `getDaysRemaining`: the frequency less the whole days from the last
   * contact (read by `new Date`, taken to midnight) to today's midnight.
   * A last contact that is not a date gives NaN, written None.
   */
  function GetDaysRemaining(lastContactAt: string, frequencyDays: int, today: Date): (r: Option<int>)
    ensures r.Some? <==> ParseIsoDate(lastContactAt).Some?
  {
    match ParseIsoDate(lastContactAt)
    case None => None
    case Some(lastContact) =>
      var daysSinceContact := DayNumber(today) - DayNumber(lastContact);
      Some(frequencyDays - daysSinceContact)
  }

  /**
   * The days remaining are the frequency less the days since the last contact
   * as the notification engine counts them, and the engine finds a friend due
   * exactly when no days remain.
   */
  lemma DaysRemainingMatchesDaysSince(f: Friend, today: Date)
    ensures var since := NotificationService.GetDaysSinceLastContact(f.lastContactAt, today);
      && (GetDaysRemaining(f.lastContactAt, f.frequencyDays, today).Some? <==> since.Some?)
      && (since.Some? ==> GetDaysRemaining(f.lastContactAt, f.frequencyDays, today) == Some(f.frequencyDays - since.value))
    ensures f.frequencyDays != 0 && f.lastContactAt != "" ==>
      (NotificationService.IsFriendDueForCatchUp(f, today) <==>
        GetDaysRemaining(f.lastContactAt, f.frequencyDays, today).Some?
        && GetDaysRemaining(f.lastContactAt, f.frequencyDays, today).value <= 0)
  {
  }

  /** A friend last seen on day `contact` has the frequency less the days since left; negative is overdue. */
  lemma DaysRemainingOfDay(contact: Date, frequencyDays: int, today: Date)
    requires ValidDate(contact) && 0 <= contact.year <= 9999
    ensures GetDaysRemaining(ToIsoDateString(contact), frequencyDays, today)
      == Some(frequencyDays - (DayNumber(today) - DayNumber(contact)))
    ensures contact == today ==> GetDaysRemaining(ToIsoDateString(contact), frequencyDays, today) == Some(frequencyDays)
  {
    IsoDateRoundTrip(contact);
    DaysRemainingParsed(ToIsoDateString(contact), contact, frequencyDays, today);
  }

  lemma DaysRemainingParsed(s: string, contact: Date, frequencyDays: int, today: Date)
    requires ParseIsoDate(s) == Some(contact)
    ensures GetDaysRemaining(s, frequencyDays, today) == Some(frequencyDays - (DayNumber(today) - DayNumber(contact)))
  {
  }

  /**
   * `getCheckInStatus`: below zero is overdue, zero is due today, one to
   * three days is due soon, and anything else (NaN included) is on track.
   * Every number falls in exactly one status.
   */
  function GetCheckInStatus(daysRemaining: Option<int>): (s: CheckInStatus)
    ensures s == Overdue <==> daysRemaining.Some? && daysRemaining.value < 0
    ensures s == DueToday <==> daysRemaining == Some(0)
    ensures s == DueSoon <==> daysRemaining.Some? && 1 <= daysRemaining.value <= 3
    ensures s == OnTrack <==> daysRemaining.None? || daysRemaining.value > 3
  {
    match daysRemaining
    case None => OnTrack
    case Some(d) =>
      if d < 0 then Overdue
      else if d == 0 then DueToday
      else if d <= 3 then DueSoon
      else OnTrack
  }

  /** `Math.abs` on a number that may be NaN. */
  function AbsNumber(x: Option<int>): (r: Option<int>)
    ensures r.None? <==> x.None?
    ensures r.Some? ==> r.value >= 0 && (r.value == x.value || r.value == -x.value)
  {
    match x
    case None => None
    case Some(i) => Some(if i < 0 then -i else i)
  }

  /**
   * `getStatusLabel`: the days overdue counted without sign, "Check in
   * today", or the days left.
   */
  function GetStatusLabel(daysRemaining: Option<int>, status: CheckInStatus): (text: string)
    ensures status == DueToday ==> text == "Check in today"
  {
    if status == Overdue then NumberToString(AbsNumber(daysRemaining)) + " days overdue"
    else if status == DueToday then "Check in today"
    else NumberToString(daysRemaining) + " days"
  }

  /**
   * The label a card shows for `n` days remaining: the days overdue as a
   * positive count, "Check in today" at zero, or the days left; in every
   * case but zero the number in front reads back as `|n|`.
   */
  lemma StatusLabelOf(n: int)
    ensures n < 0 ==> GetStatusLabel(Some(n), GetCheckInStatus(Some(n))) == NatToString(-n) + " days overdue"
    ensures n == 0 ==> GetStatusLabel(Some(n), GetCheckInStatus(Some(n))) == "Check in today"
    ensures n > 0 ==> GetStatusLabel(Some(n), GetCheckInStatus(Some(n))) == NatToString(n) + " days"
    ensures n != 0 ==> var text := GetStatusLabel(Some(n), GetCheckInStatus(Some(n)));
      ParseNumber(Split(text, ' ')[0]) == Some(if n < 0 then -n else n)
  {
    if n != 0 {
      var k: nat := if n < 0 then -n else n;
      var rest := if n < 0 then "days overdue" else "days";
      var digits := NatToString(k);
      var text := GetStatusLabel(Some(n), GetCheckInStatus(Some(n)));
      assert text == digits + " " + rest;
      NatToStringRoundTrip(k);
      NoSpaceInDigits(digits);
      SplitFirst(digits, ' ', rest);
      assert digits + " " + rest == digits + [' '] + rest;
    }
  }

  lemma NoSpaceInDigits(s: string)
    requires AllDigits(s)
    ensures ' ' !in s
  {
    assert forall i :: 0 <= i < |s| ==> s[i] != ' ';
  }

  /** The labels of the card's own examples. */
  lemma StatusLabelExamples()
    ensures GetStatusLabel(Some(-3), GetCheckInStatus(Some(-3))) == "3 days overdue"
    ensures GetStatusLabel(Some(2), GetCheckInStatus(Some(2))) == "2 days"
    ensures GetStatusLabel(Some(25), GetCheckInStatus(Some(25))) == "25 days"
    ensures GetStatusLabel(None, GetCheckInStatus(None)) == "NaN days"
  {
    OverdueLabel(-3, "3");
    OnTrackLabel(2, "2");
    assert NatToString(25) == NatToString(2) + [DigitChar(5)];
    OnTrackLabel(25, "25");
  }

  lemma OverdueLabel(n: int, digits: string)
    requires n < 0 && digits == NatToString(-n)
    ensures GetStatusLabel(Some(n), GetCheckInStatus(Some(n))) == digits + " days overdue"
  {
  }

  lemma OnTrackLabel(n: int, digits: string)
    requires n > 0 && digits == NatToString(n)
    ensures GetStatusLabel(Some(n), GetCheckInStatus(Some(n))) == digits + " days"
  {
  }

  const FeedbackError: string := "#E5484D"
  const Primary: string := "#F28C59"
  const FeedbackSuccess: string := "#0E9F6E"

  /** `getStatusColor`, in the light palette the app's `colors` stands for. */
  function GetStatusColor(status: CheckInStatus): (color: string)
    ensures color == FeedbackError <==> status == Overdue
    ensures color == Primary <==> status == DueToday || status == DueSoon
    ensures color == FeedbackSuccess <==> status == OnTrack
  {
    match status
    case Overdue => FeedbackError
    case DueToday => Primary
    case DueSoon => Primary
    case OnTrack => FeedbackSuccess
  }

  /** The card's accessibility label: the name, a comma and a space, and the status label. */
  function AccessibilityLabel(name: string, statusLabel: string): (text: string)
    ensures |text| == |name| + 2 + |statusLabel|
    ensures text[..|name|] == name && text[|name| + 2..] == statusLabel
  {
    name + ", " + statusLabel
  }

  /** Everything a card shows about a friend. */
  datatype CardView = CardView(daysRemaining: Option<int>, status: CheckInStatus, statusLabel: string,
                               statusColor: string, accessibilityLabel: string)

  /**
   * `FriendCard`: the figures computed for one friend: the days remaining
   * from the friend's own last contact and frequency, the status they fall
   * into, and that status's label and colour.
   */
  function RenderCard(friend: Friend, today: Date): (view: CardView)
    ensures view.daysRemaining == GetDaysRemaining(friend.lastContactAt, friend.frequencyDays, today)
    ensures view.status == GetCheckInStatus(view.daysRemaining)
    ensures view.statusLabel == GetStatusLabel(view.daysRemaining, view.status)
    ensures view.statusColor == GetStatusColor(view.status)
    ensures view.accessibilityLabel == AccessibilityLabel(friend.name, view.statusLabel)
    ensures |view.accessibilityLabel| > |friend.name| && view.accessibilityLabel[..|friend.name|] == friend.name
  {
    var daysRemaining := GetDaysRemaining(friend.lastContactAt, friend.frequencyDays, today);
    var status := GetCheckInStatus(daysRemaining);
    var statusLabel := GetStatusLabel(daysRemaining, status);
    CardView(daysRemaining, status, statusLabel, GetStatusColor(status),
      AccessibilityLabel(friend.name, statusLabel))
  }

  /**
   * The card of a friend last seen on day `contact`: overdue exactly when
   * more days than the frequency have passed, due today exactly when the
   * frequency has just run out, shown in the error colour exactly when
   * overdue; and, for a set frequency, overdue or due today exactly when the
   * notification engine finds the friend due for a catch-up.
   */
  lemma CardOfContactDay(friend: Friend, contact: Date, today: Date)
    requires ValidDate(contact) && 0 <= contact.year <= 9999
    requires friend.lastContactAt == ToIsoDateString(contact)
    ensures var since := DayNumber(today) - DayNumber(contact);
      var view := RenderCard(friend, today);
      && view.daysRemaining == Some(friend.frequencyDays - since)
      && (view.status == Overdue <==> since > friend.frequencyDays)
      && (view.status == DueToday <==> since == friend.frequencyDays)
      && (view.statusColor == FeedbackError <==> since > friend.frequencyDays)
    ensures friend.frequencyDays != 0 ==>
      ((RenderCard(friend, today).status == Overdue || RenderCard(friend, today).status == DueToday)
        <==> NotificationService.IsFriendDueForCatchUp(friend, today))
  {
    DaysRemainingOfDay(contact, friend.frequencyDays, today);
    IsoNotEmpty(contact);
    DaysRemainingMatchesDaysSince(friend, today);
  }

  lemma IsoNotEmpty(d: Date)
    requires ValidDate(d) && 0 <= d.year <= 9999
    ensures ToIsoDateString(d) != ""
  {
    IsoDateRoundTrip(d);
  }

  /** A friend contacted today on a weekly rhythm is on track with "7 days" left. */
  lemma ContactedTodayOnTrack(friend: Friend, today: Date)
    requires ValidDate(today) && 0 <= today.year <= 9999
    requires friend.lastContactAt == ToIsoDateString(today) && friend.frequencyDays == 7
    ensures RenderCard(friend, today).status == OnTrack
    ensures RenderCard(friend, today).statusLabel == "7 days"
    ensures RenderCard(friend, today).accessibilityLabel == friend.name + ", 7 days"
  {
    DaysRemainingOfDay(today, 7, today);
    CardOfSevenDays(friend, today);
  }

  lemma CardOfSevenDays(friend: Friend, today: Date)
    requires GetDaysRemaining(friend.lastContactAt, friend.frequencyDays, today) == Some(7)
    ensures RenderCard(friend, today).status == OnTrack
    ensures RenderCard(friend, today).statusLabel == "7 days"
    ensures RenderCard(friend, today).accessibilityLabel == friend.name + ", 7 days"
  {
    assert NatToString(7) == "7";
  }
}
