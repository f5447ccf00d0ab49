/**
 * src/components/TrendChart.tsx: the seven chart points for the week ending
 * today, the mood emoji, the daily wellness score and its colour band.
 */
module TrendChart {
  import opened Wrappers
  import opened Entries

  /**
   * One chart point: the day (standing in for its `MMM d` label), its
   * `yyyy-MM-dd` string, the six intensities and the mood, if any.
   */
  datatype DayPoint = DayPoint(day: int, fullDate: string, symptoms: Symptoms, mood: Option<Mood>)

  /** The point for `day`: the first entry with that date supplies intensities and mood, else zeros and no mood. */
  function PointFor(entries: seq<SymptomEntry>, day: int): (p: DayPoint)
    ensures p.day == day && p.fullDate == FormatDay(day)
    ensures Find(entries, FormatDay(day)).Some? ==>
              p.symptoms == Find(entries, FormatDay(day)).value.symptoms && p.mood == Find(entries, FormatDay(day)).value.mood
    ensures Find(entries, FormatDay(day)).None? ==> p.symptoms == NoSymptoms && p.mood == None
  {
    var entry := Find(entries, FormatDay(day));
    DayPoint(day, FormatDay(day), CarriedSymptoms(entry), CarriedMood(entry))
  }

  /** `getLast7Days`: one point per day from today - 6 up to today, oldest first. */
  method Last7Days(entries: seq<SymptomEntry>, today: int) returns (days: seq<DayPoint>)
    ensures |days| == 7
    ensures forall k :: 0 <= k < 7 ==> days[k] == PointFor(entries, today - 6 + k)
    ensures forall k :: 0 < k < 7 ==> days[k].day == days[k - 1].day + 1
    ensures days[6].day == today
  {
    days := [];
    var i := 6;
    while i >= 0
      invariant -1 <= i <= 6
      invariant |days| == 6 - i
      invariant forall k :: 0 <= k < |days| ==> days[k] == PointFor(entries, today - 6 + k)
    {
      var date := today - i;
      days := days + [PointFor(entries, date)];
      i := i - 1;
    }
  }

  /** `getMoodEmoji`: a face per mood, a question mark for no mood. */
  function MoodEmoji(mood: Option<Mood>): (emoji: string)
    ensures mood.None? <==> emoji == "\U{2753}"
  {
    match mood
    case Some(Happy) => "\U{1F60A}"
    case Some(Neutral) => "\U{1F610}"
    case Some(Sad) => "\U{1F622}"
    case None => "\U{2753}"
  }

  /** Different moods show different emoji. */
  lemma MoodEmojiInjective(a: Option<Mood>, b: Option<Mood>)
    ensures MoodEmoji(a) == MoodEmoji(b) <==> a == b
  {
  }

  /** `getOverallWellness`: 12 minus the intensity total, never below 0. */
  function OverallWellness(p: DayPoint): (w: int)
    ensures w >= 0
    ensures Total(p.symptoms) <= 12 ==> w + Total(p.symptoms) == 12
    ensures Total(p.symptoms) >= 12 ==> w == 0
  {
    var total := Total(p.symptoms);
    if 12 - total > 0 then 12 - total else 0
  }

  /** For intensities on the 0..3 scale the score lies in [0, 12]. */
  lemma WellnessWithinScale(p: DayPoint)
    requires ValidSymptoms(p.symptoms)
    ensures 0 <= OverallWellness(p) <= 12
  {
    ValidSymptomsTotal(p.symptoms);
  }

  /** A symptom-free day scores the full 12; a day with every symptom severe scores 0, not less. */
  lemma WellnessExtremes(day: int, date: string, mood: Option<Mood>)
    ensures OverallWellness(DayPoint(day, date, NoSymptoms, mood)) == 12
    ensures OverallWellness(DayPoint(day, date, Symptoms(3, 3, 3, 3, 3, 3), mood)) == 0
  {
  }

  datatype Band = Green | Yellow | Orange | Red

  /**
   * The bar colour for a wellness value: thresholds 80, 60 and 40 on the
   * percentage `wellness / 12 * 100`, compared here without division.
   */
  function WellnessBand(wellness: int): (b: Band)
    ensures b == Green <==> wellness >= 10
    ensures b == Yellow <==> 8 <= wellness < 10
    ensures b == Orange <==> 5 <= wellness < 8
    ensures b == Red <==> wellness < 5
  {
    if wellness * 100 >= 80 * 12 then Green
    else if wellness * 100 >= 60 * 12 then Yellow
    else if wellness * 100 >= 40 * 12 then Orange
    else Red
  }
}
