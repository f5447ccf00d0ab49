/**
 * src/components/ExportData.tsx: the health summary (symptom-free days,
 * per-symptom frequency, most common symptom) and the two export formats,
 * CSV text and the JSON wrapper record. Both exports refuse an empty list.
 */
module ExportData {
  import opened Wrappers
  import opened Entries
  import Text

  // ---------------------------------------------------------------------
  // Symptom days and frequencies
  // ---------------------------------------------------------------------

  /** `getTotalSymptomDays`: how many entries have some intensity above 0. */
  function SymptomDays(entries: seq<SymptomEntry>): (n: nat)
    ensures n <= |entries|
  {
    if |entries| == 0 then 0
    else SymptomDays(entries[..|entries| - 1]) + (if HasSymptom(entries[|entries| - 1].symptoms) then 1 else 0)
  }

  /** The "Symptom-Free Days" figure, `entries.length - getTotalSymptomDays()`. */
  function SymptomFreeDays(entries: seq<SymptomEntry>): (n: int)
    ensures 0 <= n <= |entries|
  {
    |entries| - SymptomDays(entries)
  }

  /** How many entries have every intensity exactly 0. */
  function ZeroDays(entries: seq<SymptomEntry>): nat {
    if |entries| == 0 then 0
    else ZeroDays(entries[..|entries| - 1]) + (if entries[|entries| - 1].symptoms == NoSymptoms then 1 else 0)
  }

  predicate ValidEntries(entries: seq<SymptomEntry>) {
    forall i :: 0 <= i < |entries| ==> ValidSymptoms(entries[i].symptoms)
  }

  /** On the 0..3 scale, the symptom-free figure counts exactly the all-zero entries. */
  lemma {:induction false} SymptomFreeDaysAreZeroDays(entries: seq<SymptomEntry>)
    requires ValidEntries(entries)
    ensures SymptomFreeDays(entries) == ZeroDays(entries)
  {
    if |entries| > 0 {
      var init := entries[..|entries| - 1];
      var s := entries[|entries| - 1].symptoms;
      assert ValidEntries(init) by {
        forall i | 0 <= i < |init| ensures ValidSymptoms(init[i].symptoms) {
          assert init[i] == entries[i];
        }
      }
      SymptomFreeDaysAreZeroDays(init);
      assert ValidSymptoms(s);
      assert ValidIntensity(Intensity(s, Fever)) && ValidIntensity(Intensity(s, Headache));
      assert ValidIntensity(Intensity(s, Fatigue)) && ValidIntensity(Intensity(s, Nausea));
      assert ValidIntensity(Intensity(s, Cough)) && ValidIntensity(Intensity(s, SoreThroat));
    }
  }

  lemma {:induction false} SymptomDaysPositive(entries: seq<SymptomEntry>)
    ensures SymptomDays(entries) > 0 <==> exists i :: 0 <= i < |entries| && HasSymptom(entries[i].symptoms)
  {
    if |entries| > 0 {
      var init := entries[..|entries| - 1];
      SymptomDaysPositive(init);
      if exists i :: 0 <= i < |init| && HasSymptom(init[i].symptoms) {
        var i :| 0 <= i < |init| && HasSymptom(init[i].symptoms);
        assert entries[i] == init[i];
      }
      if exists i :: 0 <= i < |entries| && HasSymptom(entries[i].symptoms) {
        var i :| 0 <= i < |entries| && HasSymptom(entries[i].symptoms);
        if i < |init| { assert init[i] == entries[i]; }
      }
    }
  }

  /** The number of entries in which symptom `k` is present. */
  function CountWith(entries: seq<SymptomEntry>, k: SymptomKey): (n: nat)
    ensures n <= |entries|
  {
    if |entries| == 0 then 0
    else CountWith(entries[..|entries| - 1], k) + (if Intensity(entries[|entries| - 1].symptoms, k) > 0 then 1 else 0)
  }

  /** Extending a prefix by one entry adds one exactly when that entry has symptom `k`. */
  lemma CountWithStep(entries: seq<SymptomEntry>, i: nat, k: SymptomKey)
    requires i < |entries|
    ensures CountWith(entries[..i + 1], k) == CountWith(entries[..i], k) + (if Intensity(entries[i].symptoms, k) > 0 then 1 else 0)
  {
    assert entries[..i + 1][..i] == entries[..i];
  }

  lemma {:induction false} CountWithPositive(entries: seq<SymptomEntry>, k: SymptomKey)
    ensures CountWith(entries, k) > 0 <==> exists i :: 0 <= i < |entries| && Intensity(entries[i].symptoms, k) > 0
  {
    if |entries| > 0 {
      var init := entries[..|entries| - 1];
      CountWithPositive(init, k);
      if exists i :: 0 <= i < |init| && Intensity(init[i].symptoms, k) > 0 {
        var i :| 0 <= i < |init| && Intensity(init[i].symptoms, k) > 0;
        assert entries[i] == init[i];
      }
      if exists i :: 0 <= i < |entries| && Intensity(entries[i].symptoms, k) > 0 {
        var i :| 0 <= i < |entries| && Intensity(entries[i].symptoms, k) > 0;
        if i < |init| { assert init[i] == entries[i]; }
      }
    }
  }

  /** The frequency table the summary shows: every key, with its count. */
  function Frequencies(entries: seq<SymptomEntry>): (freq: map<SymptomKey, int>)
    ensures forall k :: k in freq && 0 <= freq[k] <= |entries|
  {
    AllKeysComplete();
    map k | k in AllKeys :: CountWith(entries, k)
  }

  /** Two frequency tables holding every key with the same counts are the same table. */
  lemma TablesAgree(a: map<SymptomKey, int>, b: map<SymptomKey, int>)
    requires forall k :: k in a && k in b && a[k] == b[k]
    ensures a == b
  {
    assert a.Keys == b.Keys;
  }

  /** The inner `forEach` of `getSymptomFrequency`: one entry bumps the counter of each symptom it has. */
  method CountEntry(frequency: map<SymptomKey, int>, entry: SymptomEntry) returns (updated: map<SymptomKey, int>)
    requires forall k :: k in frequency
    ensures forall k :: k in updated && updated[k] == frequency[k] + (if Intensity(entry.symptoms, k) > 0 then 1 else 0)
  {
    updated := frequency;
    var j := 0;
    while j < |AllKeys|
      invariant 0 <= j <= |AllKeys|
      invariant forall k :: k in updated && updated[k] == frequency[k] + (if Ord(k) < j && Intensity(entry.symptoms, k) > 0 then 1 else 0)
    {
      var symptom := AllKeys[j];
      OrdOfAllKeys(j);
      if Intensity(entry.symptoms, symptom) > 0 {
        updated := updated[symptom := updated[symptom] + 1];
      }
      j := j + 1;
    }
  }

  /** `getSymptomFrequency`: the nested loops that bump a counter per present symptom. */
  method SymptomFrequency(entries: seq<SymptomEntry>) returns (frequency: map<SymptomKey, int>)
    ensures frequency == Frequencies(entries)
    ensures forall k :: k in frequency && frequency[k] <= |entries|
    ensures |entries| == 0 ==> forall k :: frequency[k] == 0
  {
    frequency := map[Fever := 0, Headache := 0, Fatigue := 0, Nausea := 0, Cough := 0, SoreThroat := 0];
    forall k ensures k in frequency && frequency[k] == 0 {
      match k
      case Fever => case Headache => case Fatigue =>
      case Nausea => case Cough => case SoreThroat =>
    }
    var i := 0;
    while i < |entries|
      invariant 0 <= i <= |entries|
      invariant forall k :: k in frequency && frequency[k] == CountWith(entries[..i], k)
    {
      frequency := CountEntry(frequency, entries[i]);
      forall k ensures frequency[k] == CountWith(entries[..i + 1], k) {
        CountWithStep(entries, i, k);
      }
      i := i + 1;
    }
    assert entries[..i] == entries;
    AllKeysComplete();
    TablesAgree(frequency, Frequencies(entries));
  }

  // ---------------------------------------------------------------------
  // Most common symptom
  // ---------------------------------------------------------------------

  /** A `[key, count]` pair of the reduce; the seed `['none', 0]` has no symptom key. */
  datatype Pick = Pick(key: Option<SymptomKey>, count: int)

  const Seed: Pick := Pick(None, 0)

  /** `symptomFreq[key]`: undefined for the seed's `'none'`. */
  function FrequencyOf(freq: map<SymptomKey, int>, key: Option<SymptomKey>): Option<int> {
    if key.Some? && key.value in freq then Some(freq[key.value]) else None
  }

  /** JavaScript's `x > y`, which is false whenever either side is undefined. */
  predicate Greater(x: Option<int>, y: Option<int>) {
    x.Some? && y.Some? && x.value > y.value
  }

  /** The reduce callback: keep `a` only if it is strictly more frequent, otherwise take `b`. */
  function Better(freq: map<SymptomKey, int>, a: Pick, b: Pick): Pick {
    if Greater(FrequencyOf(freq, a.key), FrequencyOf(freq, b.key)) then a else b
  }

  /** `Object.entries(freq).reduce(Better, ['none', 0])` over the first |keys| keys. */
  function Reduce(freq: map<SymptomKey, int>, keys: seq<SymptomKey>): Pick
    requires forall i :: 0 <= i < |keys| ==> keys[i] in freq
  {
    if |keys| == 0 then Seed
    else
      var last := keys[|keys| - 1];
      Better(freq, Reduce(freq, keys[..|keys| - 1]), Pick(Some(last), freq[last]))
  }

  /** The reduce ends on the last key with the largest count, and reports that count. */
  lemma {:induction false} ReduceFindsLastMaximum(freq: map<SymptomKey, int>, keys: seq<SymptomKey>) returns (m: nat)
    requires |keys| >= 1
    requires forall i :: 0 <= i < |keys| ==> keys[i] in freq
    ensures m < |keys| && Reduce(freq, keys) == Pick(Some(keys[m]), freq[keys[m]])
    ensures forall j :: 0 <= j < |keys| ==> freq[keys[j]] <= freq[keys[m]]
    ensures forall j :: m < j < |keys| ==> freq[keys[j]] < freq[keys[m]]
  {
    var n := |keys|;
    var init := keys[..n - 1];
    if n == 1 {
      m := 0;
    } else {
      var m' := ReduceFindsLastMaximum(freq, init);
      assert init[m'] == keys[m'];
      assert forall j :: 0 <= j < n - 1 ==> init[j] == keys[j];
      if freq[keys[m']] > freq[keys[n - 1]] {
        m := m';
      } else {
        m := n - 1;
      }
    }
  }

  /** `mostCommonSymptom` over a complete frequency table. */
  function MostCommon(freq: map<SymptomKey, int>): Pick
    requires forall k :: k in freq
  {
    Reduce(freq, AllKeys)
  }

  /**
   * The most common symptom is always a real key (the `'none'` seed never
   * survives), its count is the largest frequency, and among keys sharing
   * that count the one latest in fever..sore-throat order wins.
   */
  lemma MostCommonIsLastMaximum(freq: map<SymptomKey, int>)
    requires forall k :: k in freq
    ensures MostCommon(freq).key.Some?
    ensures MostCommon(freq).count == freq[MostCommon(freq).key.value]
    ensures forall k :: freq[k] <= MostCommon(freq).count
    ensures forall k :: Ord(k) > Ord(MostCommon(freq).key.value) ==> freq[k] < MostCommon(freq).count
  {
    var m := ReduceFindsLastMaximum(freq, AllKeys);
    OrdOfAllKeys(m);
    forall k ensures freq[k] <= MostCommon(freq).count {
      assert AllKeys[Ord(k)] == k;
    }
  }

  /** With no entries every frequency is 0, so the most common symptom is sore throat with count 0. */
  lemma MostCommonOfNoEntries()
    ensures MostCommon(Frequencies([])) == Pick(Some(SoreThroat), 0)
  {
    var freq := Frequencies([]);
    var r := MostCommon(freq);
    MostCommonIsLastMaximum(freq);
    assert r.count == 0;
    assert Ord(r.key.value) >= 5;
  }

  /** The summary shows the most common symptom exactly when some entry has a symptom. */
  lemma MostCommonShownIffSymptomDays(entries: seq<SymptomEntry>)
    ensures MostCommon(Frequencies(entries)).count > 0 <==> SymptomDays(entries) > 0
  {
    var freq := Frequencies(entries);
    MostCommonIsLastMaximum(freq);
    SymptomDaysPositive(entries);
    AllKeysComplete();
    assert forall k :: freq[k] == CountWith(entries, k);
    var top := MostCommon(freq).key.value;
    if MostCommon(freq).count > 0 {
      CountWithPositive(entries, top);
      var i :| 0 <= i < |entries| && Intensity(entries[i].symptoms, top) > 0;
      HasSymptomSomeKey(entries[i].symptoms);
    }
    if SymptomDays(entries) > 0 {
      var i :| 0 <= i < |entries| && HasSymptom(entries[i].symptoms);
      HasSymptomSomeKey(entries[i].symptoms);
      var k :| Intensity(entries[i].symptoms, k) > 0;
      CountWithPositive(entries, k);
    }
  }

  // ---------------------------------------------------------------------
  // CSV export
  // ---------------------------------------------------------------------

  const CsvHeaders: seq<string> :=
    ["Date", "Fever", "Headache", "Fatigue", "Nausea", "Cough", "Sore Throat", "Mood", "Notes", "Timestamp"]

  /** The header line, `headers.join(',')`. */
  const HeaderLine: string := Text.Join(CsvHeaders, ',')

  /** Splitting the header line at commas gives the ten column names back. */
  lemma HeaderLineSplits()
    ensures Text.Split(HeaderLine, ',') == CsvHeaders
    ensures |Text.Split(HeaderLine, ',')| == 10
  {
    forall i | 0 <= i < |CsvHeaders| ensures ',' !in CsvHeaders[i] {
    }
    Text.SplitJoin(CsvHeaders, ',');
  }

  /** `entry.mood || ''`. */
  function MoodField(mood: Option<Mood>): string {
    match mood
    case Some(Happy) => "happy"
    case Some(Neutral) => "neutral"
    case Some(Sad) => "sad"
    case None => ""
  }

  /** `notes.replace(/"/g, '""')`: every quote doubled. */
  function EscapeQuotes(s: string): string {
    if s == [] then []
    else (if s[0] == '"' then "\"\"" else [s[0]]) + EscapeQuotes(s[1..])
  }

  /** Inverse of EscapeQuotes: a doubled quote becomes one quote; a lone quote is malformed. */
  function UnescapeQuotes(t: string): Option<string> {
    if t == [] then Some([])
    else if t[0] != '"' then
      match UnescapeQuotes(t[1..])
      case Some(rest) => Some([t[0]] + rest)
      case None => None
    else if |t| >= 2 && t[1] == '"' then
      match UnescapeQuotes(t[2..])
      case Some(rest) => Some(['"'] + rest)
      case None => None
    else None
  }

  lemma {:induction false} UnescapeEscape(s: string)
    ensures UnescapeQuotes(EscapeQuotes(s)) == Some(s)
  {
    if s != [] {
      UnescapeEscape(s[1..]);
      var t := EscapeQuotes(s);
      if s[0] == '"' {
        assert t[2..] == EscapeQuotes(s[1..]);
      } else {
        assert t[1..] == EscapeQuotes(s[1..]);
      }
      assert [s[0]] + s[1..] == s;
    }
  }

  /** Escaping adds only quote characters. */
  lemma {:induction false} EscapeKeepsOtherChars(s: string, c: char)
    requires c != '"' && c !in s
    ensures c !in EscapeQuotes(s)
  {
    if s != [] {
      EscapeKeepsOtherChars(s[1..], c);
    }
  }

  /** The notes field: the escaped notes between two quotes. */
  function QuoteNotes(notes: string): (field: string)
    ensures |field| >= 2 && field[0] == '"' && field[|field| - 1] == '"'
  {
    "\"" + EscapeQuotes(notes) + "\""
  }

  /** Strips the outer quotes and halves the doubled ones. */
  function UnquoteNotes(field: string): Option<string> {
    if |field| >= 2 && field[0] == '"' && field[|field| - 1] == '"' then UnescapeQuotes(field[1..|field| - 1])
    else None
  }

  /** Reading the notes field back yields the notes as written. */
  lemma NotesRoundTrip(notes: string)
    ensures UnquoteNotes(QuoteNotes(notes)) == Some(notes)
  {
    var field := QuoteNotes(notes);
    assert field[1..|field| - 1] == EscapeQuotes(notes);
    UnescapeEscape(notes);
  }

  /** The ten fields of one entry's row; `iso` renders a timestamp as `toISOString` does. */
  function RowFields(e: SymptomEntry, iso: int -> string): (fields: seq<string>)
    ensures |fields| == |CsvHeaders|
  {
    var s := e.symptoms;
    [e.date,
     Text.IntToDecimal(s.fever), Text.IntToDecimal(s.headache), Text.IntToDecimal(s.fatigue),
     Text.IntToDecimal(s.nausea), Text.IntToDecimal(s.cough), Text.IntToDecimal(s.sorethroat),
     MoodField(e.mood), QuoteNotes(e.notes), iso(e.timestamp)]
  }

  /**
   * Every field of a row reads back to what it was written from: the date
   * and timestamp text, each intensity from its column, the mood (an empty
   * field exactly when there is none) and the notes.
   */
  lemma RowFieldsDecode(e: SymptomEntry, iso: int -> string)
    ensures RowFields(e, iso)[0] == e.date && RowFields(e, iso)[9] == iso(e.timestamp)
    ensures forall k :: Text.ParseInt(RowFields(e, iso)[1 + Ord(k)]) == Some(Intensity(e.symptoms, k))
    ensures RowFields(e, iso)[7] == "" <==> e.mood.None?
    ensures forall m :: RowFields(e, iso)[7] == MoodField(Some(m)) <==> e.mood == Some(m)
    ensures UnquoteNotes(RowFields(e, iso)[8]) == Some(e.notes)
  {
    forall k ensures Text.ParseInt(RowFields(e, iso)[1 + Ord(k)]) == Some(Intensity(e.symptoms, k)) {
      IntensityColumnDecodes(e, iso, k);
    }
    NotesRoundTrip(e.notes);
  }

  /** The intensity column of key `k` parses back to that intensity. */
  lemma IntensityColumnDecodes(e: SymptomEntry, iso: int -> string, k: SymptomKey)
    ensures Text.ParseInt(RowFields(e, iso)[1 + Ord(k)]) == Some(Intensity(e.symptoms, k))
  {
    var fields := RowFields(e, iso);
    var s := e.symptoms;
    match k
    case Fever => Text.IntRoundTrip(s.fever);
    case Headache => Text.IntRoundTrip(s.headache);
    case Fatigue => Text.IntRoundTrip(s.fatigue);
    case Nausea => Text.IntRoundTrip(s.nausea);
    case Cough => Text.IntRoundTrip(s.cough);
    case SoreThroat => Text.IntRoundTrip(s.sorethroat);
  }

  /** One entry's CSV line: its fields joined by commas. */
  function Row(e: SymptomEntry, iso: int -> string): string {
    Text.Join(RowFields(e, iso), ',')
  }

  /** The entries' lines, in list order. */
  function Rows(entries: seq<SymptomEntry>, iso: int -> string): (rows: seq<string>)
    ensures |rows| == |entries|
    ensures forall i :: 0 <= i < |entries| ==> rows[i] == Row(entries[i], iso)
  {
    if |entries| == 0 then []
    else
      var rest := Rows(entries[1..], iso);
      assert forall i :: 1 <= i < |entries| ==> entries[1..][i - 1] == entries[i];
      [Row(entries[0], iso)] + rest
  }

  /** The header line followed by one line per entry. */
  function CsvLines(entries: seq<SymptomEntry>, iso: int -> string): (lines: seq<string>)
    ensures |lines| == |entries| + 1
  {
    [HeaderLine] + Rows(entries, iso)
  }

  /** Line `i + 1` of the CSV is the row of entry `i`: one line per entry, in list order. */
  lemma CsvLineOfEntry(entries: seq<SymptomEntry>, iso: int -> string, i: nat)
    requires i < |entries|
    ensures CsvLines(entries, iso)[i + 1] == Row(entries[i], iso)
  {
    var rows := Rows(entries, iso);
    assert ([HeaderLine] + rows)[i + 1] == rows[i];
  }

  /** The first CSV line is the header line. */
  lemma CsvStartsWithHeader(entries: seq<SymptomEntry>, iso: int -> string)
    ensures CsvLines(entries, iso)[0] == HeaderLine
  {
  }

  /** The CSV text: the lines joined by `\n`, with no newline after the last one. */
  function CsvText(entries: seq<SymptomEntry>, iso: int -> string): string {
    Text.Join(CsvLines(entries, iso), '\n')
  }

  /** `exportAsCSV`: nothing for an empty list, otherwise the CSV text. */
  function ExportCsv(entries: seq<SymptomEntry>, iso: int -> string): (r: Option<string>)
    ensures r.None? <==> |entries| == 0
    ensures r.Some? ==> r.value == CsvText(entries, iso)
  {
    if |entries| == 0 then None else Some(CsvText(entries, iso))
  }

  lemma {:induction false} JoinAvoids(parts: seq<string>, sep: char, c: char)
    requires c != sep && forall i :: 0 <= i < |parts| ==> c !in parts[i]
    ensures c !in Text.Join(parts, sep)
  {
    if |parts| > 1 {
      JoinAvoids(parts[1..], sep, c);
    }
  }

  lemma NumeralHasNoNewline(i: int)
    ensures '\n' !in Text.IntToDecimal(i)
  {
    var s := Text.IntToDecimal(i);
    if i < 0 {
      Text.NatToDecimalDigits(-i);
      assert s == "-" + Text.NatToDecimal(-i);
      assert Text.AllDigits(s[1..]);
    } else {
      Text.NatToDecimalDigits(i);
    }
  }

  lemma HeaderHasNoNewline()
    ensures '\n' !in HeaderLine
  {
    forall i | 0 <= i < |CsvHeaders| ensures '\n' !in CsvHeaders[i] {
    }
    JoinAvoids(CsvHeaders, ',', '\n');
  }

  /** A row holds no line break when the date, the notes and the rendered timestamp hold none. */
  lemma RowHasNoNewline(e: SymptomEntry, iso: int -> string)
    requires '\n' !in e.date && '\n' !in e.notes && '\n' !in iso(e.timestamp)
    ensures '\n' !in Row(e, iso)
  {
    var f := RowFields(e, iso);
    var s := e.symptoms;
    NumeralHasNoNewline(s.fever);
    NumeralHasNoNewline(s.headache);
    NumeralHasNoNewline(s.fatigue);
    NumeralHasNoNewline(s.nausea);
    NumeralHasNoNewline(s.cough);
    NumeralHasNoNewline(s.sorethroat);
    EscapeKeepsOtherChars(e.notes, '\n');
    assert '\n' !in f[7];
    JoinAvoids(f, ',', '\n');
  }

  /**
   * When no date, note or rendered timestamp contains a line break, splitting
   * the CSV text at `\n` gives back exactly the header line and one line per
   * entry, in order: no blank or trailing line.
   */
  lemma CsvTextSplitsIntoLines(entries: seq<SymptomEntry>, iso: int -> string)
    requires forall i :: 0 <= i < |entries| ==>
      '\n' !in entries[i].date && '\n' !in entries[i].notes && '\n' !in iso(entries[i].timestamp)
    ensures Text.Split(CsvText(entries, iso), '\n') == CsvLines(entries, iso)
    ensures |Text.Split(CsvText(entries, iso), '\n')| == |entries| + 1
  {
    var lines := CsvLines(entries, iso);
    HeaderHasNoNewline();
    forall i | 0 <= i < |lines| ensures '\n' !in lines[i] {
      if i > 0 {
        CsvLineOfEntry(entries, iso, i - 1);
        RowHasNoNewline(entries[i - 1], iso);
      } else {
        CsvStartsWithHeader(entries, iso);
      }
    }
    Text.SplitJoin(lines, '\n');
  }

  // ---------------------------------------------------------------------
  // JSON export
  // ---------------------------------------------------------------------

  /** The object `exportAsJSON` serialises. */
  datatype JsonExport = JsonExport(exportDate: string, totalEntries: int, entries: seq<SymptomEntry>)

  /** `exportAsJSON`: nothing for an empty list, otherwise the wrapper around the list as is. */
  function ExportJson(entries: seq<SymptomEntry>, exportDate: string): (r: Option<JsonExport>)
    ensures r.None? <==> |entries| == 0
    ensures r.Some? ==> r.value.entries == entries && r.value.totalEntries == |entries| && r.value.exportDate == exportDate
  {
    if |entries| == 0 then None else Some(JsonExport(exportDate, |entries|, entries))
  }
}
