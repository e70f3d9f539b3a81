/**
 * The friends store: the list of friends, the contact picked for adding, and
 * the category filter, with the operations that add, remove, look up and
 * log a catch-up with a friend. Identifiers and timestamps that the store
 * draws from the clock and the random generator are passed in.
 */
module FriendsStore {
  import opened Optional
  import opened Strings
  import opened Calendar
  import BirthdayWheelPicker

  /** The relationship a friend is filed under, one constructor per source value: `Friendly` is 'friend' (the name `Friend` is the friend record's), the others are 'family', 'work', 'partner' and 'flirt'. */
  datatype FriendCategory = Friendly | Family | Work | Partner | Flirt

  /** `RELATIONSHIP_LABELS`. */
  function RelationshipLabel(c: FriendCategory): (text: string)
    ensures text in {"Friend", "Family", "Work", "Partner", "Flirt"}
  {
    match c
    case Friendly => "Friend"
    case Family => "Family"
    case Work => "Work"
    case Partner => "Partner"
    case Flirt => "Flirt"
  }

  /** Distinct categories have distinct labels. */
  lemma RelationshipLabelInjective(a: FriendCategory, b: FriendCategory)
    requires RelationshipLabel(a) == RelationshipLabel(b)
    ensures a == b
  {
  }

  /**
   * A friend. `birthday` is `YYYY-MM-DD`, or `MM-DD` when the year is not
   * known; `lastContactAt` is `YYYY-MM-DD`; `createdAt` is a timestamp.
   */
  datatype Friend = Friend(
    id: string,
    name: string,
    photoUrl: Option<string>,
    birthday: string,
    frequencyDays: int,
    lastContactAt: string,
    category: FriendCategory,
    createdAt: string)

  /** A friend as supplied by the add-friend form: everything but `id` and `createdAt`. */
  datatype NewFriend = NewFriend(
    name: string,
    photoUrl: Option<string>,
    birthday: string,
    frequencyDays: int,
    lastContactAt: string,
    category: FriendCategory)

  /** The contact chosen in the device address book, waiting to be added. */
  datatype Contact = Contact(name: string, imageUri: Option<string>, birthday: Option<BirthdayWheelPicker.BirthdayValue>)

  /** The stored friend made from `nf` with the identifier and creation time it is given. */
  function WithIdentity(nf: NewFriend, id: string, createdAt: string): (f: Friend)
    ensures f.id == id && f.createdAt == createdAt
    ensures f.name == nf.name && f.photoUrl == nf.photoUrl && f.birthday == nf.birthday
    ensures f.frequencyDays == nf.frequencyDays && f.lastContactAt == nf.lastContactAt
    ensures f.category == nf.category
  {
    Friend(id, nf.name, nf.photoUrl, nf.birthday, nf.frequencyDays, nf.lastContactAt, nf.category, createdAt)
  }

  // ---------------------------------------------------------------------------
  // Pure views of the list
  // ---------------------------------------------------------------------------

  /** `friends.filter(f => f.id !== id)`. */
  function WithoutId(fs: seq<Friend>, id: string): (r: seq<Friend>)
    ensures |r| <= |fs|
    ensures forall f :: f in r <==> f in fs && f.id != id
  {
    if fs == [] then []
    else if fs[0].id == id then WithoutId(fs[1..], id)
    else [fs[0]] + WithoutId(fs[1..], id)
  }

  /** Removing an identifier nobody has changes nothing. */
  lemma {:induction false} WithoutUnknownId(fs: seq<Friend>, id: string)
    requires forall f :: f in fs ==> f.id != id
    ensures WithoutId(fs, id) == fs
  {
    if fs != [] {
      assert forall f :: f in fs[1..] ==> f in fs;
      WithoutUnknownId(fs[1..], id);
      assert [fs[0]] + fs[1..] == fs;
    }
  }

  /** Removal keeps the order of the friends it keeps: it distributes over concatenation. */
  lemma {:induction false} WithoutIdAppend(a: seq<Friend>, b: seq<Friend>, id: string)
    ensures WithoutId(a + b, id) == WithoutId(a, id) + WithoutId(b, id)
  {
    if a != [] {
      assert (a + b)[1..] == a[1..] + b;
      WithoutIdAppend(a[1..], b, id);
    } else {
      assert a + b == b;
    }
  }

  /** The first friend with the identifier, as `friends.find(f => f.id === id)`. */
  function FindById(fs: seq<Friend>, id: string): (r: Option<Friend>)
    ensures r.None? <==> forall f :: f in fs ==> f.id != id
    ensures r.Some? ==> r.value in fs && r.value.id == id
    ensures r.Some? ==> exists i :: 0 <= i < |fs| && fs[i] == r.value && forall j :: 0 <= j < i ==> fs[j].id != id
  {
    if fs == [] then None
    else if fs[0].id == id then Some(fs[0])
    else
      var r := FindById(fs[1..], id);
      if r.Some? then
        var i :| 0 <= i < |fs[1..]| && fs[1..][i] == r.value && forall j :: 0 <= j < i ==> fs[1..][j].id != id;
        assert fs[i + 1] == r.value;
        r
      else r
  }

  /** Whether some friend's name has the lower-cased form `lowered`. */
  function SomeNameMatches(fs: seq<Friend>, lowered: string): (r: bool)
    ensures r <==> exists i :: 0 <= i < |fs| && ToLower(fs[i].name) == lowered
  {
    if fs == [] then false
    else if ToLower(fs[0].name) == lowered then true
    else
      var r := SomeNameMatches(fs[1..], lowered);
      assert r ==> exists i :: 1 <= i < |fs| && ToLower(fs[i].name) == lowered by {
        if r {
          var i :| 0 <= i < |fs[1..]| && ToLower(fs[1..][i].name) == lowered;
          assert fs[i + 1] == fs[1..][i];
        }
      }
      assert (exists i :: 0 <= i < |fs| && ToLower(fs[i].name) == lowered) ==> r by {
        if exists i :: 0 <= i < |fs| && ToLower(fs[i].name) == lowered {
          var i :| 0 <= i < |fs| && ToLower(fs[i].name) == lowered;
          assert i != 0;
          assert fs[1..][i - 1] == fs[i];
        }
      }
      r
  }

  /** `friends.map(f => f.id === id ? { ...f, lastContactAt: date } : f)`. */
  function SetLastContact(fs: seq<Friend>, id: string, date: string): (r: seq<Friend>)
    ensures |r| == |fs|
    ensures forall i :: 0 <= i < |fs| ==>
      r[i] == if fs[i].id == id then fs[i].(lastContactAt := date) else fs[i]
  {
    seq(|fs|, i requires 0 <= i < |fs| => if fs[i].id == id then fs[i].(lastContactAt := date) else fs[i])
  }

  /** Identifiers are unique, as the store's generated identifiers are meant to be. */
  predicate UniqueIds(fs: seq<Friend>) {
    forall i, j :: 0 <= i < j < |fs| ==> fs[i].id != fs[j].id
  }

  /** Setting the date back to what each matching friend had restores the list. */
  lemma SetLastContactUndo(fs: seq<Friend>, id: string, date: string, prev: string)
    requires forall f :: f in fs && f.id == id ==> f.lastContactAt == prev
    ensures SetLastContact(SetLastContact(fs, id, date), id, prev) == fs
  {
    var r := SetLastContact(SetLastContact(fs, id, date), id, prev);
    forall i | 0 <= i < |fs|
      ensures r[i] == fs[i]
    {
      assert fs[i] in fs;
    }
  }

  /** With unique identifiers, every friend with the identifier is the one `FindById` returns. */
  lemma UniqueMatch(fs: seq<Friend>, id: string)
    requires UniqueIds(fs) && FindById(fs, id).Some?
    ensures forall f :: f in fs && f.id == id ==> f == FindById(fs, id).value
  {
    var g := FindById(fs, id).value;
    var i :| 0 <= i < |fs| && fs[i] == g && forall j :: 0 <= j < i ==> fs[j].id != id;
    forall f | f in fs && f.id == id
      ensures f == g
    {
      var k :| 0 <= k < |fs| && fs[k] == f;
    }
  }

  /** Logging a catch-up and undoing it with the date `logCatchUp` returned gives back the list. */
  lemma LogUndoRoundTrip(fs: seq<Friend>, id: string, today: Date)
    requires UniqueIds(fs) && FindById(fs, id).Some?
    ensures SetLastContact(SetLastContact(fs, id, ToIsoDateString(today)), id, FindById(fs, id).value.lastContactAt) == fs
  {
    UniqueMatch(fs, id);
    SetLastContactUndo(fs, id, ToIsoDateString(today), FindById(fs, id).value.lastContactAt);
  }

  /** Setting the date for an identifier nobody has changes nothing. */
  lemma SetLastContactUnknown(fs: seq<Friend>, id: string, date: string)
    requires forall f :: f in fs ==> f.id != id
    ensures SetLastContact(fs, id, date) == fs
  {
    var r := SetLastContact(fs, id, date);
    forall i | 0 <= i < |fs|
      ensures r[i] == fs[i]
    {
      assert fs[i] in fs;
    }
  }

  // ---------------------------------------------------------------------------
  // The store
  // ---------------------------------------------------------------------------

  class Store {
    var friends: seq<Friend>
    var pendingContact: Option<Contact>
    var selectedCategory: Option<FriendCategory>

    constructor()
      ensures friends == [] && pendingContact == None && selectedCategory == None
    {
      friends := [];
      pendingContact := None;
      selectedCategory := None;
    }

    /** `setPendingContact`; `None` clears it. */
    method SetPendingContact(contact: Option<Contact>)
      modifies this
      ensures pendingContact == contact
      ensures friends == old(friends) && selectedCategory == old(selectedCategory)
    {
      pendingContact := contact;
    }

    /** `addFriend`: append the friend with a fresh identifier and creation time. */
    method AddFriend(newFriend: NewFriend, freshId: string, now: string)
      modifies this
      ensures friends == old(friends) + [WithIdentity(newFriend, freshId, now)]
      ensures pendingContact == old(pendingContact) && selectedCategory == old(selectedCategory)
    {
      friends := friends + [WithIdentity(newFriend, freshId, now)];
    }

    /** `removeFriend`: drop every friend with the identifier. */
    method RemoveFriend(id: string)
      modifies this
      ensures friends == WithoutId(old(friends), id)
      ensures pendingContact == old(pendingContact) && selectedCategory == old(selectedCategory)
    {
      friends := WithoutId(friends, id);
    }

    /** `hasFriend`: a friend with the same name up to case. */
    function HasFriend(name: string): (r: bool)
      reads this
      ensures r <==> exists i :: 0 <= i < |friends| && ToLower(friends[i].name) == ToLower(name)
    {
      SomeNameMatches(friends, ToLower(name))
    }

    /** `getFriendById`. */
    function GetFriendById(id: string): (r: Option<Friend>)
      reads this
      ensures r == FindById(friends, id)
    {
      FindById(friends, id)
    }

    /**
     * `logCatchUp`: for a known friend, record today (the day part of
     * `toISOString()`) as the last contact of
     * every friend with that identifier and return the first one's previous
     * date; for an unknown identifier return undefined (None) and change nothing.
     */
    method LogCatchUp(friendId: string, today: Date) returns (previous: Option<string>)
      modifies this
      ensures FindById(old(friends), friendId).None? ==> previous == None && friends == old(friends)
      ensures FindById(old(friends), friendId).Some? ==>
        previous == Some(FindById(old(friends), friendId).value.lastContactAt)
        && friends == SetLastContact(old(friends), friendId, ToIsoDateString(today))
      ensures pendingContact == old(pendingContact) && selectedCategory == old(selectedCategory)
    {
      var friend := FindById(friends, friendId);
      if friend.None? {
        return None;
      }
      previous := Some(friend.value.lastContactAt);
      friends := SetLastContact(friends, friendId, ToIsoDateString(today));
    }

    /** `undoCatchUp`: put the given date back on every friend with the identifier. */
    method UndoCatchUp(friendId: string, previousLastContactAt: string)
      modifies this
      ensures friends == SetLastContact(old(friends), friendId, previousLastContactAt)
      ensures pendingContact == old(pendingContact) && selectedCategory == old(selectedCategory)
    {
      friends := SetLastContact(friends, friendId, previousLastContactAt);
    }

    /** `setSelectedCategory`; `None` shows every category. */
    method SetSelectedCategory(category: Option<FriendCategory>)
      modifies this
      ensures selectedCategory == category
      ensures friends == old(friends) && pendingContact == old(pendingContact)
    {
      selectedCategory := category;
    }
  }
}
