/**
 * The journal's record type (`SymptomEntry` in src/pages/Index.tsx) and the
 * pieces every component shares: intensity access by symptom key, the
 * first-match lookups `entries.find` / `entries.findIndex` by date string,
 * the date format, and the id / mood / notes / symptoms carried over from the
 * entry being edited.
 *
 * Dates are whole day numbers. The `yyyy-MM-dd` format is modelled by
 * FormatDay, an injective rendering of the day number; only its injectivity
 * is relied on.
 */
module Entries {
  import opened Wrappers
  import Text

  datatype Mood = Happy | Neutral | Sad

  /** The six symptom keys, in the order the source's object literals list them. */
  datatype SymptomKey = Fever | Headache | Fatigue | Nausea | Cough | SoreThroat

  const AllKeys: seq<SymptomKey> := [Fever, Headache, Fatigue, Nausea, Cough, SoreThroat]

  datatype Symptoms = Symptoms(fever: int, headache: int, fatigue: int, nausea: int, cough: int, sorethroat: int)

  datatype SymptomEntry = SymptomEntry(
    id: string,
    date: string,
    symptoms: Symptoms,
    mood: Option<Mood>,
    notes: string,
    timestamp: int)

  /** Position of a key in AllKeys. */
  function Ord(k: SymptomKey): (i: nat)
    ensures i < |AllKeys| && AllKeys[i] == k
  {
    match k
    case Fever => 0
    case Headache => 1
    case Fatigue => 2
    case Nausea => 3
    case Cough => 4
    case SoreThroat => 5
  }

  /** Every key appears in AllKeys. */
  lemma AllKeysComplete()
    ensures forall k :: k in AllKeys
  {
    forall k ensures k in AllKeys {
      assert AllKeys[Ord(k)] == k;
    }
  }

  lemma OrdOfAllKeys(i: nat)
    requires i < |AllKeys|
    ensures Ord(AllKeys[i]) == i
  {
  }

  function Intensity(s: Symptoms, k: SymptomKey): int {
    match k
    case Fever => s.fever
    case Headache => s.headache
    case Fatigue => s.fatigue
    case Nausea => s.nausea
    case Cough => s.cough
    case SoreThroat => s.sorethroat
  }

  /** `{ ...symptoms, [key]: value }`: only `key` changes. */
  function WithIntensity(s: Symptoms, key: SymptomKey, value: int): (r: Symptoms)
    ensures Intensity(r, key) == value
    ensures forall k :: k != key ==> Intensity(r, k) == Intensity(s, k)
  {
    match key
    case Fever => s.(fever := value)
    case Headache => s.(headache := value)
    case Fatigue => s.(fatigue := value)
    case Nausea => s.(nausea := value)
    case Cough => s.(cough := value)
    case SoreThroat => s.(sorethroat := value)
  }

  /** The all-zero symptom record the components start from when there is no entry. */
  const NoSymptoms: Symptoms := Symptoms(0, 0, 0, 0, 0, 0)

  /** Sum of the six intensities (the `Object.values(...).reduce` of the source). */
  function Total(s: Symptoms): int {
    s.fever + s.headache + s.fatigue + s.nausea + s.cough + s.sorethroat
  }

  /** `Object.values(symptoms).some(intensity => intensity > 0)`. */
  predicate HasSymptom(s: Symptoms) {
    s.fever > 0 || s.headache > 0 || s.fatigue > 0 || s.nausea > 0 || s.cough > 0 || s.sorethroat > 0
  }

  /** The intensity scale None / Mild / Moderate / Severe is 0..3. */
  predicate ValidIntensity(v: int) {
    0 <= v <= 3
  }

  predicate ValidSymptoms(s: Symptoms) {
    forall k :: ValidIntensity(Intensity(s, k))
  }

  lemma NoSymptomsFacts()
    ensures forall k :: Intensity(NoSymptoms, k) == 0
    ensures ValidSymptoms(NoSymptoms) && Total(NoSymptoms) == 0 && !HasSymptom(NoSymptoms)
  {
  }

  /** HasSymptom holds exactly when some key has a positive intensity. */
  lemma HasSymptomSomeKey(s: Symptoms)
    ensures HasSymptom(s) <==> exists k :: Intensity(s, k) > 0
  {
    if HasSymptom(s) {
      if s.fever > 0 { assert Intensity(s, Fever) > 0; }
      else if s.headache > 0 { assert Intensity(s, Headache) > 0; }
      else if s.fatigue > 0 { assert Intensity(s, Fatigue) > 0; }
      else if s.nausea > 0 { assert Intensity(s, Nausea) > 0; }
      else if s.cough > 0 { assert Intensity(s, Cough) > 0; }
      else { assert Intensity(s, SoreThroat) > 0; }
    }
  }

  /** Intensities on the scale add up to between 0 and 18. */
  lemma ValidSymptomsTotal(s: Symptoms)
    requires ValidSymptoms(s)
    ensures 0 <= Total(s) <= 18
  {
    assert ValidIntensity(Intensity(s, Fever)) && ValidIntensity(Intensity(s, Headache));
    assert ValidIntensity(Intensity(s, Fatigue)) && ValidIntensity(Intensity(s, Nausea));
    assert ValidIntensity(Intensity(s, Cough)) && ValidIntensity(Intensity(s, SoreThroat));
  }

  /** Setting one intensity to a level on the scale keeps every intensity on the scale. */
  lemma WithIntensityKeepsValid(s: Symptoms, key: SymptomKey, value: int)
    requires ValidSymptoms(s) && ValidIntensity(value)
    ensures ValidSymptoms(WithIntensity(s, key, value))
  {
    var r := WithIntensity(s, key, value);
    forall k ensures ValidIntensity(Intensity(r, k)) {
      if k != key { assert Intensity(r, k) == Intensity(s, k); }
    }
  }

  /** `format(date, 'yyyy-MM-dd')` for day number `day`. */
  function FormatDay(day: int): string {
    Text.IntToDecimal(day)
  }

  lemma FormatDayInjective(a: int, b: int)
    ensures FormatDay(a) == FormatDay(b) <==> a == b
  {
    Text.IntToDecimalInjective(a, b);
  }

  /** `entries.findIndex(e => e.date === date)`: the first position with that date, or -1. */
  function FindIndex(entries: seq<SymptomEntry>, date: string): (r: int)
    ensures -1 <= r < |entries|
    ensures r >= 0 ==> entries[r].date == date && forall j :: 0 <= j < r ==> entries[j].date != date
    ensures r < 0 <==> forall j :: 0 <= j < |entries| ==> entries[j].date != date
  {
    if |entries| == 0 then -1
    else if entries[0].date == date then 0
    else
      var j := FindIndex(entries[1..], date);
      if j < 0 then -1 else j + 1
  }

  /** `entries.find(e => e.date === date)`: the first entry with that date, if any. */
  function Find(entries: seq<SymptomEntry>, date: string): Option<SymptomEntry> {
    if |entries| == 0 then None
    else if entries[0].date == date then Some(entries[0])
    else Find(entries[1..], date)
  }

  /** `find` returns the entry at the position `findIndex` reports, and nothing exactly when no entry has the date. */
  lemma {:induction false} FindMatchesFindIndex(entries: seq<SymptomEntry>, date: string)
    ensures Find(entries, date).None? <==> forall j :: 0 <= j < |entries| ==> entries[j].date != date
    ensures Find(entries, date).None? <==> FindIndex(entries, date) < 0
    ensures Find(entries, date).Some? ==> Find(entries, date).value == entries[FindIndex(entries, date)]
  {
    if |entries| > 0 && entries[0].date != date {
      FindMatchesFindIndex(entries[1..], date);
    }
  }

  /** At most one entry per date. */
  predicate DistinctDates(entries: seq<SymptomEntry>) {
    forall i, j :: 0 <= i < j < |entries| ==> entries[i].date != entries[j].date
  }

  /** With distinct dates, `find` returns exactly the member of the list carrying that date. */
  lemma FindDistinct(entries: seq<SymptomEntry>, date: string, e: SymptomEntry)
    requires DistinctDates(entries)
    ensures Find(entries, date) == Some(e) <==> e in entries && e.date == date
  {
    FindMatchesFindIndex(entries, date);
    if e in entries && e.date == date {
      var i :| 0 <= i < |entries| && entries[i] == e;
      assert FindIndex(entries, date) >= 0;
    }
  }

  /** `entry?.id || \`${format(date, 'yyyy-MM-dd')}-${Date.now()}\``: a non-empty id is kept. */
  function KeptOrFreshId(day: int, entry: Option<SymptomEntry>, now: int): string {
    if entry.Some? && entry.value.id != "" then entry.value.id else FreshId(day, now)
  }

  /** A new id: the formatted date, a dash, and the clock reading in milliseconds. */
  function FreshId(day: int, now: int): (id: string)
    ensures |id| > |FormatDay(day)| && id[..|FormatDay(day)|] == FormatDay(day)
    ensures id[|FormatDay(day)|] == '-'
    ensures Text.ParseInt(id[|FormatDay(day)| + 1..]) == Some(now)
  {
    var id := FormatDay(day) + "-" + Text.IntToDecimal(now);
    assert id[|FormatDay(day)| + 1..] == Text.IntToDecimal(now);
    Text.IntRoundTrip(now);
    id
  }

  /** `entry?.mood || null`: the edited entry's mood, or no mood. */
  function CarriedMood(entry: Option<SymptomEntry>): Option<Mood> {
    if entry.Some? then entry.value.mood else None
  }

  /** `entry?.symptoms || { all zero }`. */
  function CarriedSymptoms(entry: Option<SymptomEntry>): Symptoms {
    if entry.Some? then entry.value.symptoms else NoSymptoms
  }

  /** `entry?.notes || ''`. */
  function CarriedNotes(entry: Option<SymptomEntry>): string {
    if entry.Some? then entry.value.notes else ""
  }
}
