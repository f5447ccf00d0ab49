/**
 * The page component of src/pages/Index.tsx: the entry list with its
 * replace-or-append update keyed by date, the lookup of the entry for the
 * selected date, date navigation by button and by horizontal swipe, and the
 * "quick log" button that records a symptom-free happy day.
 *
 * The page's record type `SymptomEntry` and the `find` / `findIndex` lookups
 * it uses are shared with the components and live in module Entries.
 */
module IndexPage {
  import opened Wrappers
  import opened Entries

  /**
   * `updateEntry`'s state update: the first entry with the same date is
   * replaced in place, otherwise the entry is appended.
   */
  function Upsert(entries: seq<SymptomEntry>, e: SymptomEntry): (r: seq<SymptomEntry>)
    ensures FindIndex(entries, e.date) >= 0 ==> |r| == |entries| && r[FindIndex(entries, e.date)] == e
    ensures FindIndex(entries, e.date) < 0 ==> |r| == |entries| + 1 && r[|entries|] == e
    ensures forall j :: 0 <= j < |entries| && j != FindIndex(entries, e.date) ==> r[j] == entries[j]
  {
    var i := FindIndex(entries, e.date);
    if i >= 0 then entries[i := e] else entries + [e]
  }

  /** A position holding the date, with no earlier one, is what `findIndex` returns. */
  lemma FindIndexIsFirst(entries: seq<SymptomEntry>, date: string, k: int)
    requires 0 <= k < |entries| && entries[k].date == date
    requires forall j :: 0 <= j < k ==> entries[j].date != date
    ensures FindIndex(entries, date) == k
  {
  }

  /** Upsert never changes the date at an existing position. */
  lemma UpsertKeepsDatesAt(entries: seq<SymptomEntry>, e: SymptomEntry, j: int)
    requires 0 <= j < |entries|
    ensures Upsert(entries, e)[j].date == entries[j].date
  {
  }

  /** After the update, looking up the entry's date finds exactly the new entry. */
  lemma UpsertThenFind(entries: seq<SymptomEntry>, e: SymptomEntry)
    ensures Find(Upsert(entries, e), e.date) == Some(e)
  {
    var r := Upsert(entries, e);
    var i := FindIndex(entries, e.date);
    FindMatchesFindIndex(r, e.date);
    if i >= 0 {
      FindIndexIsFirst(r, e.date, i);
    } else {
      FindIndexIsFirst(r, e.date, |entries|);
    }
  }

  /** Lookups of every other date are unaffected by the update. */
  lemma UpsertOtherDate(entries: seq<SymptomEntry>, e: SymptomEntry, date: string)
    requires date != e.date
    ensures Find(Upsert(entries, e), date) == Find(entries, date)
  {
    var r := Upsert(entries, e);
    var i := FindIndex(entries, e.date);
    var k := FindIndex(entries, date);
    FindMatchesFindIndex(entries, date);
    FindMatchesFindIndex(r, date);
    forall j | 0 <= j < |entries| ensures r[j].date == date <==> entries[j].date == date {
      UpsertKeepsDatesAt(entries, e, j);
    }
    if k >= 0 {
      FindIndexIsFirst(r, date, k);
    } else {
      assert forall j :: 0 <= j < |r| ==> r[j].date != date;
    }
  }

  /** The update keeps the one-entry-per-date invariant. */
  lemma UpsertKeepsDistinct(entries: seq<SymptomEntry>, e: SymptomEntry)
    requires DistinctDates(entries)
    ensures DistinctDates(Upsert(entries, e))
  {
    var r := Upsert(entries, e);
    forall j | 0 <= j < |entries| ensures r[j].date == entries[j].date {
      UpsertKeepsDatesAt(entries, e, j);
    }
  }

  /** Last write wins: a second update for the same date replaces the first one's effect. */
  lemma UpsertSameDateOverwrites(entries: seq<SymptomEntry>, e1: SymptomEntry, e2: SymptomEntry)
    requires e1.date == e2.date
    ensures Upsert(Upsert(entries, e1), e2) == Upsert(entries, e2)
  {
    var r1 := Upsert(entries, e1);
    var i := FindIndex(entries, e1.date);
    if i >= 0 {
      forall j | 0 <= j < |entries| ensures r1[j].date == entries[j].date {
        UpsertKeepsDatesAt(entries, e1, j);
      }
      FindIndexIsFirst(r1, e2.date, i);
      assert r1[i := e2] == entries[i := e2];
    } else {
      FindIndexIsFirst(r1, e2.date, |entries|);
      assert r1[|entries| := e2] == entries + [e2];
    }
  }

  /** The entry the quick-log button records for day `day` at clock reading `now`. */
  function QuickEntry(day: int, now: int): (r: SymptomEntry)
    ensures r.date == FormatDay(day) && r.id == FreshId(day, now) && r.timestamp == now
    ensures forall k :: Intensity(r.symptoms, k) == 0
    ensures Total(r.symptoms) == 0 && ValidSymptoms(r.symptoms) && !HasSymptom(r.symptoms)
    ensures r.mood == Some(Happy) && r.notes == "Feeling good today! \U{1F31F}"
  {
    NoSymptomsFacts();
    SymptomEntry(FreshId(day, now), FormatDay(day), NoSymptoms, Some(Happy),
                 "Feeling good today! \U{1F31F}", now)
  }

  datatype Direction = Prev | Next

  /** A swipe moves the date only when the finger travelled more than this many pixels. */
  const SwipeThreshold: int := 50

  /** The page state: the entry list, the selected day and the x position where a touch began. */
  class Journal {
    var entries: seq<SymptomEntry>
    var currentDate: int
    var touchStart: int

    constructor (today: int)
      ensures entries == [] && currentDate == today && touchStart == 0
    {
      entries := [];
      currentDate := today;
      touchStart := 0;
    }

    /** `getTodayEntry`: the first entry dated with the selected day. */
    function TodayEntry(): (r: Option<SymptomEntry>)
      reads this
      ensures r.Some? ==> r.value in entries && r.value.date == FormatDay(currentDate)
      ensures r.Some? ==> r.value == entries[FindIndex(entries, FormatDay(currentDate))]
      ensures r.None? <==> forall j :: 0 <= j < |entries| ==> entries[j].date != FormatDay(currentDate)
    {
      FindMatchesFindIndex(entries, FormatDay(currentDate));
      Find(entries, FormatDay(currentDate))
    }

    /** `updateEntry`: replace the entry with the same date, or append. */
    method UpdateEntry(e: SymptomEntry)
      modifies this`entries
      ensures entries == Upsert(old(entries), e)
      ensures Find(entries, e.date) == Some(e)
      ensures DistinctDates(old(entries)) ==> DistinctDates(entries)
    {
      var i := FindIndex(entries, e.date);
      if i >= 0 {
        entries := entries[i := e];
      } else {
        entries := entries + [e];
      }
      UpsertThenFind(old(entries), e);
      if DistinctDates(old(entries)) {
        UpsertKeepsDistinct(old(entries), e);
      }
    }

    /** `navigateDate`: one day forward or back; the page does not bound it. */
    method NavigateDate(direction: Direction)
      modifies this`currentDate
      ensures currentDate == old(currentDate) + (if direction == Next then 1 else -1)
    {
      if direction == Next {
        currentDate := currentDate + 1;
      } else {
        currentDate := currentDate - 1;
      }
    }

    /** `handleTouchStart`: remember where the touch began. */
    method HandleTouchStart(clientX: int)
      modifies this`touchStart
      ensures touchStart == clientX
    {
      touchStart := clientX;
    }

    /**
     * `handleTouchEnd`: a start position of 0 means "no touch" and is ignored;
     * otherwise a swipe left by more than the threshold goes to the next day,
     * a swipe right by more than it to the previous day. The start is cleared.
     */
    method HandleTouchEnd(clientX: int)
      modifies this`currentDate, this`touchStart
      ensures touchStart == 0
      ensures old(touchStart) == 0 ==> currentDate == old(currentDate)
      ensures old(touchStart) != 0 && old(touchStart) - clientX > SwipeThreshold ==> currentDate == old(currentDate) + 1
      ensures old(touchStart) != 0 && clientX - old(touchStart) > SwipeThreshold ==> currentDate == old(currentDate) - 1
      ensures -SwipeThreshold <= old(touchStart) - clientX <= SwipeThreshold ==> currentDate == old(currentDate)
    {
      if touchStart == 0 {
        return;
      }
      var diff := touchStart - clientX;
      var distance := if diff < 0 then -diff else diff;
      if distance > SwipeThreshold {
        if diff > 0 {
          NavigateDate(Next);
        } else {
          NavigateDate(Prev);
        }
      }
      touchStart := 0;
    }

    /** The quick-log button: record a symptom-free happy day for the selected date. */
    method QuickLog(now: int)
      modifies this`entries
      ensures entries == Upsert(old(entries), QuickEntry(currentDate, now))
      ensures TodayEntry() == Some(QuickEntry(currentDate, now))
    {
      UpdateEntry(QuickEntry(currentDate, now));
    }
  }
}
