/**
 * The journal store: one entry per day, keyed by its `YYYY-MM-DD` date. The
 * identifier and the timestamp an upsert draws from the clock and the random
 * generator are passed in.
 */
module JournalStore {
  import opened Optional

  datatype JournalEntry = JournalEntry(id: string, date: string, content: string, createdAt: string, updatedAt: string)

  /**
   * The entry an upsert stores: the existing one with new content and update
   * time, or a new one created and updated at `now`.
   */
  function UpsertedEntry(existing: Option<JournalEntry>, date: string, content: string, freshId: string, now: string): (e: JournalEntry)
    ensures e.content == content && e.updatedAt == now
    ensures existing.Some? ==>
      e.id == existing.value.id && e.date == existing.value.date && e.createdAt == existing.value.createdAt
    ensures existing.None? ==> e.id == freshId && e.date == date && e.createdAt == now
  {
    match existing
    case Some(prior) => prior.(content := content, updatedAt := now)
    case None => JournalEntry(freshId, date, content, now, now)
  }

  class Store {
    var entries: map<string, JournalEntry>

    constructor()
      ensures entries == map[]
    {
      entries := map[];
    }

    /** `getEntryByDate`: the entry under the key, or undefined (None). */
    function GetEntryByDate(date: string): (r: Option<JournalEntry>)
      reads this
      ensures r.Some? <==> date in entries
      ensures r.Some? ==> r.value == entries[date]
    {
      if date in entries then Some(entries[date]) else None
    }

    /** `hasEntryForDate`: whether the key is present, whatever the content. */
    function HasEntryForDate(date: string): (r: bool)
      reads this
      ensures r <==> GetEntryByDate(date).Some?
    {
      date in entries
    }

    /** `upsertEntry`: create or update the entry of one day; no other day changes. */
    method UpsertEntry(date: string, content: string, freshId: string, now: string)
      modifies this
      ensures entries == old(entries)[date := UpsertedEntry(old(GetEntryByDate(date)), date, content, freshId, now)]
    {
      var existing := GetEntryByDate(date);
      var entry := UpsertedEntry(existing, date, content, freshId, now);
      entries := entries[date := entry];
    }

    /** `deleteEntry`: drop the key; an absent key changes nothing. */
    method DeleteEntry(date: string)
      modifies this
      ensures entries == old(entries) - {date}
    {
      entries := entries - {date};
    }
  }

  /** After an upsert the day holds the new content; every other day is as it was. */
  lemma UpsertFrame(entries: map<string, JournalEntry>, date: string, e: JournalEntry, other: string)
    requires other != date
    ensures date in entries[date := e] && entries[date := e][date] == e
    ensures (other in entries[date := e]) == (other in entries)
    ensures other in entries ==> entries[date := e][other] == entries[other]
  {
  }

  /** After a delete the day is gone; every other day is as it was; deleting twice is deleting once. */
  lemma DeleteFrame(entries: map<string, JournalEntry>, date: string, other: string)
    requires other != date
    ensures date !in entries - {date}
    ensures (other in entries - {date}) == (other in entries)
    ensures other in entries ==> (entries - {date})[other] == entries[other]
    ensures (entries - {date}) - {date} == entries - {date}
    ensures date !in entries ==> entries - {date} == entries
  {
  }

  /** Two upserts of the same day keep the first creation time and identifier. */
  lemma UpsertTwice(date: string, c1: string, c2: string, id1: string, id2: string, t1: string, t2: string)
    ensures var e1 := UpsertedEntry(None, date, c1, id1, t1);
      var e2 := UpsertedEntry(Some(e1), date, c2, id2, t2);
      e2 == JournalEntry(id1, date, c2, t1, t2)
  {
  }
}
