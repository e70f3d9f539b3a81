/**
 * The friends list: the store's friends ordered by urgency, the most overdue
 * first, or an empty-state message when there are no friends. The ordering
 * is computed on a copy; the store's list is only read.
 */
module FriendsList {
  import opened Optional
  import opened Calendar
  import opened FriendsStore
  import FriendCard

  /**
   * The list's own `getDaysRemaining(friend)`: the frequency less the whole
   * days since the last contact; NaN (None) when the last contact is not a date.
   */
  function DaysRemaining(friend: Friend, today: Date): (r: Option<int>)
    ensures r == FriendCard.GetDaysRemaining(friend.lastContactAt, friend.frequencyDays, today)
  {
    match ParseIsoDate(friend.lastContactAt)
    case None => None
    case Some(lastContact) =>
      var daysSinceContact := DayNumber(today) - DayNumber(lastContact);
      Some(friend.frequencyDays - daysSinceContact)
  }

  /**
   * The urgency order on days remaining: fewer days first. A NaN key makes
   * the comparator of the source inconsistent; the model puts such friends
   * after every friend with a number.
   */
  predicate UrgencyLe(a: Option<int>, b: Option<int>) {
    b.None? || (a.Some? && a.value <= b.value)
  }

  lemma UrgencyTotal(a: Option<int>, b: Option<int>)
    ensures UrgencyLe(a, b) || UrgencyLe(b, a)
  {
  }

  /** Non-decreasing in the key. */
  predicate SortedBy(fs: seq<Friend>, key: Friend -> Option<int>) {
    forall i, j :: 0 <= i < j < |fs| ==> UrgencyLe(key(fs[i]), key(fs[j]))
  }

  /** Put `f` before the first friend whose key is no smaller. */
  function Insert(f: Friend, sorted: seq<Friend>, key: Friend -> Option<int>): (r: seq<Friend>)
    requires SortedBy(sorted, key)
    ensures multiset(r) == multiset(sorted) + multiset{f}
    ensures |r| == |sorted| + 1
    ensures SortedBy(r, key)
  {
    if sorted == [] then [f]
    else if UrgencyLe(key(f), key(sorted[0])) then
      [f] + sorted
    else
      var tail := sorted[1..];
      assert SortedBy(tail, key);
      var rest := Insert(f, tail, key);
      assert sorted == [sorted[0]] + tail;
      HeadBeforeInserted(sorted[0], f, tail, rest, key);
      [sorted[0]] + rest
  }

  /** The head stays first: its key is no larger than any in the rest or the inserted friend's. */
  lemma HeadBeforeInserted(head: Friend, f: Friend, tail: seq<Friend>, rest: seq<Friend>, key: Friend -> Option<int>)
    requires SortedBy([head] + tail, key)
    requires !UrgencyLe(key(f), key(head))
    requires SortedBy(rest, key)
    requires multiset(rest) == multiset(tail) + multiset{f}
    ensures SortedBy([head] + rest, key)
  {
    var r := [head] + rest;
    forall j | 0 < j < |r|
      ensures UrgencyLe(key(head), key(r[j]))
    {
      assert r[j] == rest[j - 1];
      assert rest[j - 1] in multiset(rest);
      if rest[j - 1] != f {
        assert rest[j - 1] in multiset(tail);
        var k :| 0 <= k < |tail| && tail[k] == rest[j - 1];
        assert ([head] + tail)[0] == head && ([head] + tail)[k + 1] == tail[k];
        assert UrgencyLe(key(([head] + tail)[0]), key(([head] + tail)[k + 1]));
      } else {
        UrgencyTotal(key(f), key(head));
        assert UrgencyLe(key(head), key(f));
      }
    }
    forall i, j | 0 < i < j < |r|
      ensures UrgencyLe(key(r[i]), key(r[j]))
    {
      assert r[i] == rest[i - 1] && r[j] == rest[j - 1];
    }
  }

  /** Insertion sort by a key: the same friends, non-decreasing in the key. */
  function SortBy(friends: seq<Friend>, key: Friend -> Option<int>): (r: seq<Friend>)
    ensures multiset(r) == multiset(friends)
    ensures |r| == |friends|
    ensures SortedBy(r, key)
  {
    if friends == [] then []
    else
      var rest := SortBy(friends[1..], key);
      assert friends == [friends[0]] + friends[1..];
      Insert(friends[0], rest, key)
  }

  /** Non-decreasing in days remaining. */
  predicate SortedByUrgency(fs: seq<Friend>, today: Date) {
    SortedBy(fs, (f: Friend) => DaysRemaining(f, today))
  }

  /**
   * `[...friends].sort((a, b) => getDaysRemaining(a) - getDaysRemaining(b))`:
   * the same friends, in urgency order.
   */
  function SortFriendsByUrgency(friends: seq<Friend>, today: Date): (r: seq<Friend>)
    ensures multiset(r) == multiset(friends)
    ensures |r| == |friends|
    ensures SortedByUrgency(r, today)
  {
    SortBy(friends, (f: Friend) => DaysRemaining(f, today))
  }

  /** The list's first friend is the most urgent of all. */
  lemma MostUrgentFirst(friends: seq<Friend>, today: Date, f: Friend)
    requires f in friends
    ensures |SortFriendsByUrgency(friends, today)| > 0
    ensures UrgencyLe(DaysRemaining(SortFriendsByUrgency(friends, today)[0], today), DaysRemaining(f, today))
  {
    var r := SortFriendsByUrgency(friends, today);
    assert f in multiset(friends);
    assert f in multiset(r);
    var k :| 0 <= k < |r| && r[k] == f;
    if k == 0 {
      UrgencyTotal(DaysRemaining(f, today), DaysRemaining(f, today));
    }
  }

  /** What the list shows: the empty state, or the friends in urgency order. */
  datatype ListView = EmptyState | Cards(friends: seq<Friend>)

  /** `FriendsList`: the empty state exactly when there are no friends. */
  function RenderList(friends: seq<Friend>, today: Date): (view: ListView)
    ensures view.EmptyState? <==> friends == []
    ensures view.Cards? ==> multiset(view.friends) == multiset(friends) && SortedByUrgency(view.friends, today)
  {
    var sortedFriends := SortFriendsByUrgency(friends, today);
    if |friends| == 0 then EmptyState else Cards(sortedFriends)
  }

  /** Three friends with keys 25, -3 and 2 come out in the order -3, 2, 25. */
  lemma SortThree(a: Friend, b: Friend, c: Friend, key: Friend -> Option<int>)
    requires key(a) == Some(25) && key(b) == Some(-3) && key(c) == Some(2)
    ensures SortBy([a, b, c], key) == [b, c, a]
  {
    SortThreeUnfold(a, b, c, key);
    InsertLast(a, b, c, key);
  }

  lemma SortThreeUnfold(a: Friend, b: Friend, c: Friend, key: Friend -> Option<int>)
    requires UrgencyLe(key(b), key(c))
    ensures SortBy([a, b, c], key) == Insert(a, [b, c], key)
  {
    SortTwo(b, c, key);
    assert [a, b, c][1..] == [b, c];
  }

  lemma InsertLast(a: Friend, b: Friend, c: Friend, key: Friend -> Option<int>)
    requires key(a) == Some(25) && key(b) == Some(-3) && key(c) == Some(2)
    ensures Insert(a, [b, c], key) == [b, c, a]
  {
    var bc := [b, c];
    InsertAfterHead(a, bc, key);
    assert bc[1..] == [c];
    InsertAfterHead(a, [c], key);
    assert [c][1..] == [];
  }

  lemma SortOne(c: Friend, key: Friend -> Option<int>)
    ensures SortBy([c], key) == [c]
  {
    assert [c][1..] == [];
  }

  lemma SortTwo(b: Friend, c: Friend, key: Friend -> Option<int>)
    requires UrgencyLe(key(b), key(c))
    ensures SortBy([b, c], key) == [b, c]
  {
    SortOne(c, key);
    assert [b, c][1..] == [c];
  }

  /** A friend less urgent than the head of a sorted list goes after it. */
  lemma InsertAfterHead(f: Friend, sorted: seq<Friend>, key: Friend -> Option<int>)
    requires SortedBy(sorted, key) && sorted != [] && !UrgencyLe(key(f), key(sorted[0]))
    ensures SortedBy(sorted[1..], key)
    ensures Insert(f, sorted, key) == [sorted[0]] + Insert(f, sorted[1..], key)
  {
  }

  /** The three friends of the list's own example come out overdue, due soon, on track. */
  lemma UrgencyExample(onTrack: Friend, overdue: Friend, dueSoon: Friend, today: Date)
    requires DaysRemaining(onTrack, today) == Some(25)
    requires DaysRemaining(overdue, today) == Some(-3)
    requires DaysRemaining(dueSoon, today) == Some(2)
    ensures SortFriendsByUrgency([onTrack, overdue, dueSoon], today) == [overdue, dueSoon, onTrack]
  {
    SortThree(onTrack, overdue, dueSoon, (f: Friend) => DaysRemaining(f, today));
  }
}
