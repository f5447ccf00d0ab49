/**
 * src/components/SymptomLogger.tsx. The component keeps its own `symptoms`
 * and `notes` state, initialised once from the entry it was first given (or
 * all zeros and empty notes), and on every change builds a new entry for the
 * selected date that it hands to the page's `updateEntry`.
 */
module SymptomLogger {
  import opened Wrappers
  import opened Entries

  /** The intensity levels offered by the buttons. */
  const IntensityLevels: seq<int> := [0, 1, 2, 3]

  /**
   * The record both handlers build: the logger's symptoms and notes, the
   * edited entry's id (or a fresh one) and mood (or none), the formatted
   * date and the clock reading.
   */
  function LoggedEntry(day: int, entry: Option<SymptomEntry>, symptoms: Symptoms, notes: string, now: int): (r: SymptomEntry)
    ensures r.date == FormatDay(day) && r.symptoms == symptoms && r.notes == notes && r.timestamp == now
    ensures r.mood == (if entry.Some? then entry.value.mood else None)
    ensures entry.Some? && entry.value.id != "" ==> r.id == entry.value.id
    ensures entry.None? || entry.value.id == "" ==> r.id == FreshId(day, now)
  {
    SymptomEntry(KeptOrFreshId(day, entry, now), FormatDay(day), symptoms, CarriedMood(entry), notes, now)
  }

  /**
   * Editing the entry already stored for the day, with the logger's state in
   * step with it, changes nothing but the symptoms and the timestamp; an
   * entry without an id gets a fresh one instead.
   */
  lemma LoggedEntryUpdatesOnlySymptoms(day: int, e: SymptomEntry, symptoms: Symptoms, now: int)
    requires e.date == FormatDay(day)
    ensures e.id != "" ==> LoggedEntry(day, Some(e), symptoms, e.notes, now) == e.(symptoms := symptoms, timestamp := now)
    ensures e.id == "" ==> LoggedEntry(day, Some(e), symptoms, e.notes, now) == e.(id := FreshId(day, now), symptoms := symptoms, timestamp := now)
  {
  }

  /**
   * The logger's state is not re-read from the stored entry (it is set once,
   * at mount, and survives a date change or a quick log), so a logger whose
   * notes or other intensities are out of step with the stored entry writes
   * its own over the stored ones.
   */
  lemma StaleLoggerOverwrites(day: int, e: SymptomEntry, symptoms: Symptoms, notes: string, now: int)
    requires notes != e.notes || symptoms != e.symptoms
    ensures LoggedEntry(day, Some(e), symptoms, notes, now) != e.(timestamp := now)
    ensures LoggedEntry(day, Some(e), symptoms, notes, now).notes == notes
    ensures LoggedEntry(day, Some(e), symptoms, notes, now).symptoms == symptoms
  {
  }

  /** With no stored entry the new record has a fresh id and no mood. */
  lemma LoggedEntryForNewDay(day: int, symptoms: Symptoms, notes: string, now: int)
    ensures LoggedEntry(day, None, symptoms, notes, now).id == FreshId(day, now)
    ensures LoggedEntry(day, None, symptoms, notes, now).mood == None
  {
  }

  class Logger {
    var symptoms: Symptoms
    var notes: string

    /** `useState(entry?.notes || '')` and `useState(entry?.symptoms || { all zero })`. */
    constructor (entry: Option<SymptomEntry>)
      ensures symptoms == CarriedSymptoms(entry) && notes == CarriedNotes(entry)
      ensures entry.None? ==> forall k :: Intensity(symptoms, k) == 0
    {
      symptoms := CarriedSymptoms(entry);
      notes := CarriedNotes(entry);
      NoSymptomsFacts();
    }

    /** `updateSymptom`: set one intensity and report the updated entry. */
    method UpdateSymptom(day: int, entry: Option<SymptomEntry>, key: SymptomKey, intensity: int, now: int)
        returns (updated: SymptomEntry)
      modifies this`symptoms
      ensures Intensity(symptoms, key) == intensity
      ensures forall k :: k != key ==> Intensity(symptoms, k) == Intensity(old(symptoms), k)
      ensures updated == LoggedEntry(day, entry, symptoms, notes, now)
      ensures ValidSymptoms(old(symptoms)) && intensity in IntensityLevels ==> ValidSymptoms(updated.symptoms)
    {
      symptoms := WithIntensity(symptoms, key, intensity);
      updated := LoggedEntry(day, entry, symptoms, notes, now);
      if ValidSymptoms(old(symptoms)) && intensity in IntensityLevels {
        WithIntensityKeepsValid(old(symptoms), key, intensity);
      }
    }

    /** `updateNotes`: replace the notes and report the updated entry. */
    method UpdateNotes(day: int, entry: Option<SymptomEntry>, newNotes: string, now: int)
        returns (updated: SymptomEntry)
      modifies this`notes
      ensures notes == newNotes
      ensures updated == LoggedEntry(day, entry, symptoms, newNotes, now)
    {
      notes := newNotes;
      updated := LoggedEntry(day, entry, symptoms, notes, now);
    }
  }
}
