/**
 * The notification state store: the day the birthday notification was last
 * sent, the day each friend's catch-up notification was last sent, and the
 * two permission flags. Its predicates decide whether a notification would be
 * a repeat. Today's date is passed in.
 */
module NotificationStateStore {
  import opened Optional
  import opened Calendar

  /** `getTodayDateString`: the day part of `toISOString()`. */
  function TodayDateString(today: Date): (r: string)
    ensures ValidDate(today) && 0 <= today.year <= 9999 ==> ParseIsoDate(r) == Some(today)
  {
    if ValidDate(today) && 0 <= today.year <= 9999 then
      IsoDateRoundTrip(today);
      ToIsoDateString(today)
    else ToIsoDateString(today)
  }

  /**
   * `daysBetween(a, b)`: both strings read by `new Date`, taken to midnight,
   * and subtracted in whole days. A string that is not a date gives NaN,
   * written None.
   */
  function DaysBetween(a: string, b: string): (r: Option<int>)
    ensures r.Some? <==> ParseIsoDate(a).Some? && ParseIsoDate(b).Some?
    ensures r.Some? ==> r.value == DayNumber(ParseIsoDate(b).value) - DayNumber(ParseIsoDate(a).value)
  {
    match (ParseIsoDate(a), ParseIsoDate(b))
    case (Some(d1), Some(d2)) => Some(DayNumber(d2) - DayNumber(d1))
    case _ => None
  }

  /** Swapping the arguments negates the difference; a date is zero days from itself. */
  lemma DaysBetweenAntisymmetric(a: string, b: string)
    ensures DaysBetween(a, b).Some? <==> DaysBetween(b, a).Some?
    ensures DaysBetween(a, b).Some? ==> DaysBetween(a, b).value == -DaysBetween(b, a).value
    ensures ParseIsoDate(a).Some? ==> DaysBetween(a, a) == Some(0)
  {
  }

  /** Between the keys of two days, the difference of their day numbers. */
  lemma DaysBetweenDays(d1: Date, d2: Date)
    requires ValidDate(d1) && 0 <= d1.year <= 9999
    requires ValidDate(d2) && 0 <= d2.year <= 9999
    ensures DaysBetween(TodayDateString(d1), TodayDateString(d2)) == Some(DayNumber(d2) - DayNumber(d1))
  {
    IsoDateRoundTrip(d1);
    IsoDateRoundTrip(d2);
    DaysBetweenParsed(TodayDateString(d1), TodayDateString(d2), d1, d2);
  }

  lemma DaysBetweenParsed(a: string, b: string, d1: Date, d2: Date)
    requires ParseIsoDate(a) == Some(d1) && ParseIsoDate(b) == Some(d2)
    ensures DaysBetween(a, b) == Some(DayNumber(d2) - DayNumber(d1))
  {
  }

  /** The store's initial state, restored by `reset`. */
  datatype State = State(
    lastBirthdayNotificationDate: Option<string>,
    lastCatchUpNotificationDates: map<string, string>,
    hasRequestedPermission: bool,
    pendingPermissionRequest: bool)

  const InitialState: State := State(None, map[], false, false)

  class Store {
    var lastBirthdayNotificationDate: Option<string>
    var lastCatchUpNotificationDates: map<string, string>
    var hasRequestedPermission: bool
    var pendingPermissionRequest: bool

    /** All four fields at once. */
    function Snapshot(): State
      reads this
    {
      State(lastBirthdayNotificationDate, lastCatchUpNotificationDates, hasRequestedPermission, pendingPermissionRequest)
    }

    constructor()
      ensures Snapshot() == InitialState
    {
      lastBirthdayNotificationDate := None;
      lastCatchUpNotificationDates := map[];
      hasRequestedPermission := false;
      pendingPermissionRequest := false;
    }

    /** `setLastBirthdayNotificationDate`; null is allowed. */
    method SetLastBirthdayNotificationDate(date: Option<string>)
      modifies this
      ensures Snapshot() == old(Snapshot()).(lastBirthdayNotificationDate := date)
    {
      lastBirthdayNotificationDate := date;
    }

    /** `setLastCatchUpNotificationDate`: the friend's entry becomes `date`; other entries stay. */
    method SetLastCatchUpNotificationDate(friendId: string, date: string)
      modifies this
      ensures Snapshot() == old(Snapshot()).(lastCatchUpNotificationDates := old(lastCatchUpNotificationDates)[friendId := date])
    {
      lastCatchUpNotificationDates := lastCatchUpNotificationDates[friendId := date];
    }

    /** `clearCatchUpNotificationDate`: drop the friend's entry; an absent one changes nothing. */
    method ClearCatchUpNotificationDate(friendId: string)
      modifies this
      ensures Snapshot() == old(Snapshot()).(lastCatchUpNotificationDates := old(lastCatchUpNotificationDates) - {friendId})
    {
      lastCatchUpNotificationDates := lastCatchUpNotificationDates - {friendId};
    }

    /** `setHasRequestedPermission`. */
    method SetHasRequestedPermission(requested: bool)
      modifies this
      ensures Snapshot() == old(Snapshot()).(hasRequestedPermission := requested)
    {
      hasRequestedPermission := requested;
    }

    /** `setPendingPermissionRequest`. */
    method SetPendingPermissionRequest(pending: bool)
      modifies this
      ensures Snapshot() == old(Snapshot()).(pendingPermissionRequest := pending)
    {
      pendingPermissionRequest := pending;
    }

    /** `reset`: back to the initial state. */
    method Reset()
      modifies this
      ensures Snapshot() == InitialState
    {
      lastBirthdayNotificationDate := None;
      lastCatchUpNotificationDates := map[];
      hasRequestedPermission := false;
      pendingPermissionRequest := false;
    }

    /** `shouldSendBirthdayNotification`: not yet sent today (an empty record counts as never). */
    function ShouldSendBirthdayNotification(today: Date): (r: bool)
      reads this
      ensures r <==> (lastBirthdayNotificationDate !in {None, Some("")}
        ==> lastBirthdayNotificationDate.value != TodayDateString(today))
    {
      match lastBirthdayNotificationDate
      case None => true
      case Some(last) => last == "" || last != TodayDateString(today)
    }

    /**
     * `shouldSendCatchUpNotification`: never notified (or an empty record), or
     * at least `frequencyDays` days since the last notification. A record that
     * is not a date gives NaN days, and NaN is never at least anything.
     */
    function ShouldSendCatchUpNotification(friendId: string, frequencyDays: int, today: Date): (r: bool)
      reads this
      ensures friendId !in lastCatchUpNotificationDates ==> r
      ensures friendId in lastCatchUpNotificationDates && lastCatchUpNotificationDates[friendId] == "" ==> r
      ensures friendId in lastCatchUpNotificationDates && lastCatchUpNotificationDates[friendId] != "" ==>
        (r <==> var days := DaysBetween(lastCatchUpNotificationDates[friendId], TodayDateString(today));
                days.Some? && days.value >= frequencyDays)
    {
      if friendId !in lastCatchUpNotificationDates || lastCatchUpNotificationDates[friendId] == "" then true
      else
        var days := DaysBetween(lastCatchUpNotificationDates[friendId], TodayDateString(today));
        days.Some? && days.value >= frequencyDays
    }

    /** Once today's birthday notification is recorded, another one today would be a repeat. */
    lemma BirthdayNotRepeated(today: Date)
      requires lastBirthdayNotificationDate == Some(TodayDateString(today))
      ensures !ShouldSendBirthdayNotification(today)
    {
    }

    /**
     * A catch-up notification recorded on day `sent` is due again exactly when
     * `frequencyDays` days have passed by `today`.
     */
    lemma CatchUpDueAfterFrequency(friendId: string, frequencyDays: int, sent: Date, today: Date)
      requires ValidDate(sent) && 0 <= sent.year <= 9999
      requires ValidDate(today) && 0 <= today.year <= 9999
      requires friendId in lastCatchUpNotificationDates
      requires lastCatchUpNotificationDates[friendId] == TodayDateString(sent)
      ensures ShouldSendCatchUpNotification(friendId, frequencyDays, today)
        <==> DayNumber(today) - DayNumber(sent) >= frequencyDays
    {
      DaysBetweenDays(sent, today);
    }
  }
}
