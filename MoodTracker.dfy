/**
 * src/components/MoodTracker.tsx. Choosing a mood builds a new entry for the
 * selected date from the stored one (or from zeros and empty notes).
 */
module MoodTracker {
  import opened Wrappers
  import opened Entries

  /** The three moods the buttons offer. */
  const Moods: seq<Mood> := [Sad, Neutral, Happy]

  lemma MoodsAreAllMoods(m: Mood)
    ensures m in Moods
  {
  }

  /** `updateMood`: the entry recorded when `mood` is chosen. */
  function MoodEntry(day: int, entry: Option<SymptomEntry>, mood: Mood, now: int): (r: SymptomEntry)
    ensures r.mood == Some(mood) && r.date == FormatDay(day) && r.timestamp == now
    ensures entry.None? ==> r.id == FreshId(day, now) && r.notes == "" && forall k :: Intensity(r.symptoms, k) == 0
    ensures entry.Some? ==> r.symptoms == entry.value.symptoms && r.notes == entry.value.notes
    ensures entry.Some? && entry.value.id != "" ==> r.id == entry.value.id
    ensures entry.Some? && entry.value.id == "" ==> r.id == FreshId(day, now)
  {
    NoSymptomsFacts();
    SymptomEntry(KeptOrFreshId(day, entry, now), FormatDay(day), CarriedSymptoms(entry), Some(mood), CarriedNotes(entry), now)
  }

  /**
   * Choosing a mood for a day that already has an entry changes nothing but
   * the mood and the timestamp (and the id, when the stored one is empty).
   */
  lemma MoodEntryUpdatesOnlyMood(day: int, e: SymptomEntry, mood: Mood, now: int)
    requires e.date == FormatDay(day)
    ensures e.id != "" ==> MoodEntry(day, Some(e), mood, now) == e.(mood := Some(mood), timestamp := now)
    ensures e.id == "" ==> MoodEntry(day, Some(e), mood, now) == e.(id := FreshId(day, now), mood := Some(mood), timestamp := now)
  {
  }

  /** A mood choice never takes intensities off the 0..3 scale. */
  lemma MoodEntryKeepsValid(day: int, entry: Option<SymptomEntry>, mood: Mood, now: int)
    requires entry.Some? ==> ValidSymptoms(entry.value.symptoms)
    ensures ValidSymptoms(MoodEntry(day, entry, mood, now).symptoms)
  {
    if entry.None? {
      NoSymptomsFacts();
      assert MoodEntry(day, entry, mood, now).symptoms == NoSymptoms;
    }
  }
}
