/**
 * The add-friend screen: the form filled in for the contact waiting to be
 * added (birthday, last catch-up, check-in frequency, relationship), the
 * encoding of the birthday as the string the notification engine reads,
 * and the save that adds the friend and, for the very first friend, queues
 * the notification-permission request.
 */
module AddFriend {
  import opened Optional
  import opened Strings
  import opened Calendar
  import opened BirthdayWheelPicker
  import FriendsStore
  import NotificationStateStore
  import NotificationService
  import GlassMenu

  // ---------------------------------------------------------------------------
  // Frequency
  // ---------------------------------------------------------------------------

  /** The frequencies the form offers: weekly, bi-weekly, monthly, quarterly, or none (None). */
  predicate IsFrequencyOption(frequency: Option<int>) {
    frequency.None? || frequency.value in {7, 14, 30, 90}
  }

  /** `FREQUENCY_LABELS`. */
  const FrequencyLabels: map<int, string> := map[7 := "Weekly", 14 := "Bi-weekly", 30 := "Monthly", 90 := "Quarterly"]

  /** `FREQUENCY_MENU_ITEMS`: the four labelled frequencies in order, then 'None'. */
  const FrequencyMenuItems: seq<GlassMenu.MenuItem<Option<int>>> := [
    GlassMenu.MenuItem("Weekly", Some(7)),
    GlassMenu.MenuItem("Bi-weekly", Some(14)),
    GlassMenu.MenuItem("Monthly", Some(30)),
    GlassMenu.MenuItem("Quarterly", Some(90)),
    GlassMenu.MenuItem("None", None)
  ]

  /** `frequencyDisplayValue`: the frequency's label, or 'None' when there is no frequency. */
  function FrequencyLabel(frequency: Option<int>): (text: string)
    requires IsFrequencyOption(frequency)
    ensures frequency.None? <==> text == "None"
  {
    if frequency.Some? && frequency.value != 0 then FrequencyLabels[frequency.value] else "None"
  }

  /**
   * The label the form shows for a frequency is the label of the menu item
   * that selects it, and no frequency is offered twice.
   */
  lemma FrequencyMenuAgrees()
    ensures forall i :: 0 <= i < |FrequencyMenuItems| ==>
      IsFrequencyOption(FrequencyMenuItems[i].value)
      && FrequencyLabel(FrequencyMenuItems[i].value) == FrequencyMenuItems[i].labelText
    ensures forall i, j :: 0 <= i < j < |FrequencyMenuItems| ==> FrequencyMenuItems[i].value != FrequencyMenuItems[j].value
  {
    forall i | 0 <= i < |FrequencyMenuItems|
      ensures IsFrequencyOption(FrequencyMenuItems[i].value)
      ensures FrequencyLabel(FrequencyMenuItems[i].value) == FrequencyMenuItems[i].labelText
    {
      if i == 4 {
        assert FrequencyMenuItems[i].value == None;
      } else {
        assert FrequencyMenuItems[i].value.value in FrequencyLabels;
      }
    }
  }

  /** Every frequency the form accepts is offered by the menu. */
  lemma FrequencyMenuComplete(f: Option<int>)
    requires IsFrequencyOption(f)
    ensures exists i :: 0 <= i < |FrequencyMenuItems| && FrequencyMenuItems[i].value == f
  {
    if f == Some(7) { assert FrequencyMenuItems[0].value == f; }
    else if f == Some(14) { assert FrequencyMenuItems[1].value == f; }
    else if f == Some(30) { assert FrequencyMenuItems[2].value == f; }
    else if f == Some(90) { assert FrequencyMenuItems[3].value == f; }
    else { assert FrequencyMenuItems[4].value == f; }
  }

  /** `RELATIONSHIP_MENU_ITEMS`: one item per category, labelled as the store labels it. */
  const RelationshipMenuItems: seq<GlassMenu.MenuItem<FriendsStore.FriendCategory>> := [
    GlassMenu.MenuItem(FriendsStore.RelationshipLabel(FriendsStore.Friendly), FriendsStore.Friendly),
    GlassMenu.MenuItem(FriendsStore.RelationshipLabel(FriendsStore.Family), FriendsStore.Family),
    GlassMenu.MenuItem(FriendsStore.RelationshipLabel(FriendsStore.Work), FriendsStore.Work),
    GlassMenu.MenuItem(FriendsStore.RelationshipLabel(FriendsStore.Partner), FriendsStore.Partner),
    GlassMenu.MenuItem(FriendsStore.RelationshipLabel(FriendsStore.Flirt), FriendsStore.Flirt)
  ]

  /** Every category is offered, under its own label. */
  lemma RelationshipMenuComplete(c: FriendsStore.FriendCategory)
    ensures exists i :: (0 <= i < |RelationshipMenuItems| && RelationshipMenuItems[i].value == c
      && RelationshipMenuItems[i].labelText == FriendsStore.RelationshipLabel(c))
  {
    match c
    case Friendly => assert RelationshipMenuItems[0].value == c;
    case Family => assert RelationshipMenuItems[1].value == c;
    case Work => assert RelationshipMenuItems[2].value == c;
    case Partner => assert RelationshipMenuItems[3].value == c;
    case Flirt => assert RelationshipMenuItems[4].value == c;
  }

  // ---------------------------------------------------------------------------
  // Birthday encoding
  // ---------------------------------------------------------------------------

  /** A year the form uses: one that is present and not zero. */
  predicate HasYear(b: BirthdayValue) {
    b.year.Some? && b.year.value != 0
  }

  /**
   * The birthday as saved: `YYYY-MM-DD` when the birthday has a year and
   * `MM-DD` otherwise, the month counted from 1 and month and day padded to
   * two digits.
   */
  function EncodeBirthday(b: BirthdayValue): (s: string)
    ensures |s| >= 5
  {
    var mm := ZeroPad(b.month + 1, 2);
    var dd := ZeroPad(b.day, 2);
    if HasYear(b) then IntToString(b.year.value) + "-" + mm + "-" + dd
    else mm + "-" + dd
  }

  /**
   * Whatever year it carries, the saved birthday reads back, through the
   * notification engine's parser, as the birthday's month (counted from 1)
   * and day.
   */
  lemma EncodeBirthdayRoundTrip(b: BirthdayValue)
    requires 0 <= b.month <= 11 && 1 <= b.day <= 31
    requires b.year.None? || b.year.value >= 0
    ensures NotificationService.BirthdayFields(EncodeBirthday(b)) == Some((b.month + 1, b.day))
  {
    var mm := ZeroPad(b.month + 1, 2);
    var dd := ZeroPad(b.day, 2);
    ZeroPadLength(b.month + 1, 2);
    ZeroPadLength(b.day, 2);
    ZeroPadRoundTrip(b.month + 1, 2);
    ZeroPadRoundTrip(b.day, 2);
    if HasYear(b) {
      var yyyy := IntToString(b.year.value);
      assert '-' !in yyyy;
      NotificationService.FullDateFields(yyyy, mm, dd);
    } else {
      NotificationService.MonthDayFields(mm, dd);
    }
  }

  /**
   * Without a year the saved birthday is five characters; with a four-digit
   * year it is ten, and is the ISO form of that day.
   */
  lemma EncodeBirthdayLength(b: BirthdayValue)
    requires 0 <= b.month <= 11 && 1 <= b.day <= 31
    ensures !HasYear(b) ==> |EncodeBirthday(b)| == 5
    ensures HasYear(b) && 1000 <= b.year.value <= 9999 ==>
      EncodeBirthday(b) == ToIsoDateString(Date(b.year.value, b.month + 1, b.day)) && |EncodeBirthday(b)| == 10
  {
    if HasYear(b) {
      if 1000 <= b.year.value <= 9999 {
        EncodeWithFourDigitYear(b);
      }
    } else {
      var mm := ZeroPadField(b.month + 1, 2);
      var dd := ZeroPadField(b.day, 2);
      assert EncodeBirthday(b) == mm + "-" + dd;
    }
  }

  lemma EncodeWithFourDigitYear(b: BirthdayValue)
    requires HasYear(b) && 1000 <= b.year.value <= 9999
    requires 0 <= b.month <= 11 && 1 <= b.day <= 31
    ensures EncodeBirthday(b) == ToIsoDateString(Date(b.year.value, b.month + 1, b.day))
    ensures |EncodeBirthday(b)| == 10
  {
    var mm := ZeroPadField(b.month + 1, 2);
    var dd := ZeroPadField(b.day, 2);
    var d := Date(b.year.value, b.month + 1, b.day);
    var yyyy := FourDigitYear(d.year);
    IsoOfFourDigitYear(d, yyyy, mm, dd);
    EncodeOfYear(b, yyyy, mm, dd);
  }

  /** With a year, the saved birthday is the year's digits and the two padded fields. */
  lemma EncodeOfYear(b: BirthdayValue, yyyy: string, mm: string, dd: string)
    requires HasYear(b) && yyyy == IntToString(b.year.value)
    requires mm == ZeroPad(b.month + 1, 2) && dd == ZeroPad(b.day, 2)
    ensures EncodeBirthday(b) == yyyy + "-" + mm + "-" + dd
  {
  }

  /** A year of four digits is written without padding. */
  lemma FourDigitYear(y: int) returns (yyyy: string)
    requires 1000 <= y <= 9999
    ensures yyyy == IntToString(y) && yyyy == ZeroPad(y, 4) && |yyyy| == 4
  {
    NatToStringLength(y);
    yyyy := IntToString(y);
  }

  lemma IsoOfFourDigitYear(d: Date, yyyy: string, mm: string, dd: string)
    requires 1000 <= d.year <= 9999 && yyyy == ZeroPad(d.year, 4)
    requires mm == ZeroPad(d.month, 2) && dd == ZeroPad(d.day, 2)
    ensures ToIsoDateString(d) == yyyy + "-" + mm + "-" + dd
  {
  }

  /** A picked birthday with a four-digit year is saved as an ISO date that names that very day. */
  lemma EncodedBirthdayIsThatDay(b: BirthdayValue)
    requires ValidBirthday(b) && HasYear(b) && 1000 <= b.year.value <= 9999
    ensures ParseIsoDate(EncodeBirthday(b)) == Some(Date(b.year.value, b.month + 1, b.day))
  {
    var d := BirthdayDate(b);
    EncodeWithFourDigitYear(b);
    IsoDateRoundTrip(d);
  }

  /** A picked birthday with a year from 100 on is an existing day of that year. */
  lemma BirthdayDate(b: BirthdayValue) returns (d: Date)
    requires ValidBirthday(b) && HasYear(b) && b.year.value >= 100
    ensures d == Date(b.year.value, b.month + 1, b.day) && ValidDate(d)
  {
    d := Date(b.year.value, b.month + 1, b.day);
    assert JsFullYear(b.year.GetOr(DefaultYear)) == d.year;
  }

  /** A day valid in some year is valid in the leap year 2000. */
  lemma ValidInLeapYear(b: BirthdayValue)
    requires ValidBirthday(b)
    ensures ValidDate(Date(2000, b.month + 1, b.day))
  {
  }

  /**
   * The friend saved with a picked birthday is celebrated on exactly one day
   * of every year: the birthday's own day, or 28 February in a common year
   * for a 29 February birthday.
   */
  lemma SavedBirthdayCelebrated(b: BirthdayValue, date: Date)
    requires ValidBirthday(b) && (b.year.None? || b.year.value >= 0)
    requires ValidDate(date)
    ensures NotificationService.IsBirthdayOnDate(Some(EncodeBirthday(b)), date)
      <==> date == NotificationService.CelebrationDay(b.month + 1, b.day, date.year)
  {
    EncodeBirthdayRoundTrip(b);
    ValidInLeapYear(b);
    NotificationService.BirthdayOncePerYear(EncodeBirthday(b), date.year, date);
  }

  // ---------------------------------------------------------------------------
  // The form
  // ---------------------------------------------------------------------------

  /** The friend the form describes for a contact. */
  function NewFriendOf(contact: FriendsStore.Contact, birthday: BirthdayValue, lastCatchUp: Date,
                       frequency: int, category: FriendsStore.FriendCategory): (nf: FriendsStore.NewFriend)
    ensures nf.name == contact.name && nf.photoUrl == contact.imageUri
    ensures nf.birthday == EncodeBirthday(birthday)
    ensures nf.frequencyDays == frequency && nf.category == category
  {
    FriendsStore.NewFriend(
      contact.name,
      contact.imageUri,
      EncodeBirthday(birthday),
      frequency,
      ToIsoDateString(lastCatchUp),
      category)
  }

  /**
   * The saved last contact is the ISO key of the picked day, and reads back
   * as that day: the friend's check-in countdown starts from it.
   */
  lemma SavedLastContactReadsBack(contact: FriendsStore.Contact, birthday: BirthdayValue, lastCatchUp: Date,
                                  frequency: int, category: FriendsStore.FriendCategory)
    requires ValidDate(lastCatchUp) && 0 <= lastCatchUp.year <= 9999
    ensures ParseIsoDate(NewFriendOf(contact, birthday, lastCatchUp, frequency, category).lastContactAt) == Some(lastCatchUp)
  {
    IsoDateRoundTrip(lastCatchUp);
  }

  class Form {
    var birthday: Option<BirthdayValue>
    var lastCatchUp: Option<Date>
    var frequency: Option<int>
    var category: FriendsStore.FriendCategory

    /** A fresh form: no birthday or last catch-up yet, weekly, filed as a friend. */
    constructor()
      ensures birthday == None && lastCatchUp == None
      ensures frequency == Some(7) && category == FriendsStore.Friendly
    {
      birthday := None;
      lastCatchUp := None;
      frequency := Some(7);
      category := FriendsStore.Friendly;
    }

    /** `isFormValid`: a birthday, a last catch-up and a frequency are all chosen. */
    predicate IsFormValid()
      reads this
    {
      birthday.Some? && lastCatchUp.Some? && frequency.Some?
    }

    /** The birthday of the pending contact, when it has one, fills the birthday field. */
    method PrefillBirthday(pendingContact: Option<FriendsStore.Contact>)
      modifies this
      ensures pendingContact.Some? && pendingContact.value.birthday.Some? ==> birthday == pendingContact.value.birthday
      ensures !(pendingContact.Some? && pendingContact.value.birthday.Some?) ==> birthday == old(birthday)
      ensures lastCatchUp == old(lastCatchUp) && frequency == old(frequency) && category == old(category)
    {
      if pendingContact.Some? && pendingContact.value.birthday.Some? {
        birthday := pendingContact.value.birthday;
      }
    }

    method SetBirthday(value: BirthdayValue)
      modifies this
      ensures birthday == Some(value)
      ensures lastCatchUp == old(lastCatchUp) && frequency == old(frequency) && category == old(category)
    {
      birthday := Some(value);
    }

    /** `handleLastCatchUpConfirm`. */
    method ConfirmLastCatchUp(selectedDate: Date)
      modifies this
      ensures lastCatchUp == Some(selectedDate)
      ensures birthday == old(birthday) && frequency == old(frequency) && category == old(category)
    {
      lastCatchUp := Some(selectedDate);
    }

    method SelectFrequency(value: Option<int>)
      modifies this
      ensures frequency == value
      ensures birthday == old(birthday) && lastCatchUp == old(lastCatchUp) && category == old(category)
    {
      frequency := value;
    }

    method SelectCategory(value: FriendsStore.FriendCategory)
      modifies this
      ensures category == value
      ensures birthday == old(birthday) && lastCatchUp == old(lastCatchUp) && frequency == old(frequency)
    {
      category := value;
    }

    /**
     * `handleSave`: without a pending contact or with the form incomplete,
     * nothing happens. Otherwise the friend is added with a fresh id and
     * creation time; if it is the first friend and permission has never been
     * asked for, the permission request is marked as asked and pending; and
     * the pending contact is cleared.
     */
    method HandleSave(friends: FriendsStore.Store, notifications: NotificationStateStore.Store,
                      freshId: string, now: string)
      modifies friends, notifications
      ensures old(friends.pendingContact).None? || !IsFormValid() ==>
        && friends.friends == old(friends.friends) && friends.pendingContact == old(friends.pendingContact)
        && friends.selectedCategory == old(friends.selectedCategory)
        && notifications.Snapshot() == old(notifications.Snapshot())
      ensures old(friends.pendingContact).Some? && IsFormValid() ==>
        && friends.friends == old(friends.friends) + [FriendsStore.WithIdentity(
             NewFriendOf(old(friends.pendingContact).value, birthday.value, lastCatchUp.value, frequency.value, category),
             freshId, now)]
        && friends.pendingContact == None
        && friends.selectedCategory == old(friends.selectedCategory)
        && notifications.Snapshot() ==
             if |old(friends.friends)| == 0 && !old(notifications.hasRequestedPermission)
             then old(notifications.Snapshot()).(hasRequestedPermission := true, pendingPermissionRequest := true)
             else old(notifications.Snapshot())
    {
      if friends.pendingContact.None? || !IsFormValid() {
        return;
      }
      var contact := friends.pendingContact.value;
      var isFirstFriend := |friends.friends| == 0;
      var hasRequestedPermission := notifications.hasRequestedPermission;
      var newFriend := NewFriendOf(contact, birthday.value, lastCatchUp.value, frequency.value, category);
      friends.AddFriend(newFriend, freshId, now);
      if isFirstFriend && !hasRequestedPermission {
        notifications.SetHasRequestedPermission(true);
        notifications.SetPendingPermissionRequest(true);
      }
      friends.SetPendingContact(None);
    }
  }
}
