/**
 * src/components/StreakCounter.tsx: the run of "good" days (intensity total
 * at most 2) counted backwards from today over at most 30 days, with its
 * message and icon. A missing past day is passed over; a missing today, or a
 * day with a higher total, ends the count.
 */
module StreakCounter {
  import opened Wrappers
  import opened Entries

  /** How many days, today included, the scan looks at. */
  const ScanDays: nat := 30

  /** A day whose intensities add up to at most 2 keeps the streak going. */
  predicate IsGoodDay(e: SymptomEntry) {
    Total(e.symptoms) <= 2
  }

  /** Scan step `i` has an entry, and it is a good day. */
  predicate GoodAt(entries: seq<SymptomEntry>, today: int, i: int) {
    Find(entries, ScanDate(today, i)).Some? && IsGoodDay(Find(entries, ScanDate(today, i)).value)
  }

  /** Scan step `i` has an entry, and it is not a good day. */
  predicate BadAt(entries: seq<SymptomEntry>, today: int, i: int) {
    Find(entries, ScanDate(today, i)).Some? && !IsGoodDay(Find(entries, ScanDate(today, i)).value)
  }

  /** The date string of scan step `i`, that is of the day `i` days before `today`. */
  function ScanDate(today: int, i: int): string {
    FormatDay(today - i)
  }

  /** The count the scan adds from step `i` (inclusive) to its end. */
  function StreakFrom(entries: seq<SymptomEntry>, today: int, i: nat): (r: nat)
    requires i <= ScanDays
    ensures r <= ScanDays - i
    decreases ScanDays - i
  {
    if i == ScanDays then 0
    else
      match Find(entries, ScanDate(today, i))
      case Some(e) => if IsGoodDay(e) then 1 + StreakFrom(entries, today, i + 1) else 0
      case None => if i == 0 then 0 else StreakFrom(entries, today, i + 1)
  }

  /** The streak shown for `entries` when the current day is `today`. */
  function Streak(entries: seq<SymptomEntry>, today: int): nat {
    StreakFrom(entries, today, 0)
  }

  /**
   * `calculateStreak`: the bounded backward scan with its early exits. The
   * source first sorts a copy of the entries by date; StreakIgnoresOrder
   * shows that with one entry per date the order does not matter, so the
   * scan here reads the list as given.
   */
  method CalculateStreak(entries: seq<SymptomEntry>, today: int) returns (streak: nat)
    ensures streak == Streak(entries, today)
    ensures streak <= ScanDays
    ensures Find(entries, FormatDay(today)).None? ==> streak == 0
    ensures Find(entries, FormatDay(today)).Some? && !IsGoodDay(Find(entries, FormatDay(today)).value) ==> streak == 0
  {
    streak := 0;
    var currentDate := today;
    var i := 0;
    while i < ScanDays
      invariant 0 <= i <= ScanDays
      invariant currentDate == today - i
      invariant streak + StreakFrom(entries, today, i) == Streak(entries, today)
    {
      var dateStr := FormatDay(currentDate);
      var dayEntry := Find(entries, dateStr);
      if dayEntry.Some? {
        var totalSymptoms := Total(dayEntry.value.symptoms);
        if totalSymptoms <= 2 {
          streak := streak + 1;
        } else {
          break;
        }
      } else {
        FormatDayInjective(currentDate, today);
        if FormatDay(currentDate) == FormatDay(today) {
          break;
        }
      }
      currentDate := currentDate - 1;
      i := i + 1;
    }
  }

  /** One step of the scan: a day with a good entry adds one to the rest of the count. */
  lemma StreakFromGoodStep(entries: seq<SymptomEntry>, today: int, i: nat)
    requires i < ScanDays
    requires GoodAt(entries, today, i)
    ensures StreakFrom(entries, today, i) == 1 + StreakFrom(entries, today, i + 1)
  {
  }

  /** One step of the scan: a past day without an entry is passed over. */
  lemma StreakFromSkipStep(entries: seq<SymptomEntry>, today: int, i: nat)
    requires 0 < i < ScanDays
    requires Find(entries, ScanDate(today, i)).None?
    ensures StreakFrom(entries, today, i) == StreakFrom(entries, today, i + 1)
  {
  }

  /** One step of the scan: a day whose entry is not good ends the count. */
  lemma StreakFromBadStep(entries: seq<SymptomEntry>, today: int, i: nat)
    requires i < ScanDays && BadAt(entries, today, i)
    ensures StreakFrom(entries, today, i) == 0
  {
  }

  /** One step of the scan: every step adds at most one. */
  lemma StreakFromAtMostOneMore(entries: seq<SymptomEntry>, today: int, i: nat)
    requires i < ScanDays
    ensures StreakFrom(entries, today, i) <= 1 + StreakFrom(entries, today, i + 1)
  {
  }

  /** Two lists that agree on every date the scan looks at from step `i` give the same count. */
  lemma {:induction false} StreakFromAgree(a: seq<SymptomEntry>, b: seq<SymptomEntry>, today: int, i: nat)
    requires i <= ScanDays
    requires forall j :: i <= j < ScanDays ==> Find(a, ScanDate(today, j)) == Find(b, ScanDate(today, j))
    ensures StreakFrom(a, today, i) == StreakFrom(b, today, i)
    decreases ScanDays - i
  {
    if i < ScanDays {
      StreakFromAgree(a, b, today, i + 1);
    }
  }

  /** Taking out an entry does not change the lookup of any other date. */
  lemma {:induction false} FindWithout(entries: seq<SymptomEntry>, k: nat, date: string)
    requires k < |entries| && entries[k].date != date
    ensures Find(entries[..k] + entries[k + 1..], date) == Find(entries, date)
  {
    var rest := entries[..k] + entries[k + 1..];
    if k == 0 {
      assert rest == entries[1..];
    } else {
      assert rest[0] == entries[0];
      assert rest[1..] == entries[1..][..k - 1] + entries[1..][k..];
      FindWithout(entries[1..], k - 1, date);
    }
  }

  /** The days after scan step `i` do not see the entry found at step `i`. */
  lemma LaterDaysIgnoreEntry(entries: seq<SymptomEntry>, today: int, i: nat, k: nat)
    requires i < ScanDays && k < |entries| && entries[k].date == ScanDate(today, i)
    ensures forall j :: i + 1 <= j < ScanDays ==>
      Find(entries, ScanDate(today, j)) == Find(entries[..k] + entries[k + 1..], ScanDate(today, j))
  {
    forall j | i + 1 <= j < ScanDays
      ensures Find(entries, ScanDate(today, j)) == Find(entries[..k] + entries[k + 1..], ScanDate(today, j))
    {
      FormatDayInjective(today - j, today - i);
      FindWithout(entries, k, ScanDate(today, j));
    }
  }

  /** Removing the entry of scan step `i` leaves the rest of the count unchanged. */
  lemma DropCountedEntry(entries: seq<SymptomEntry>, today: int, i: nat, k: nat)
    requires i < ScanDays && k < |entries| && entries[k].date == ScanDate(today, i)
    ensures |entries[..k] + entries[k + 1..]| == |entries| - 1
    ensures StreakFrom(entries, today, i + 1) == StreakFrom(entries[..k] + entries[k + 1..], today, i + 1)
  {
    LaterDaysIgnoreEntry(entries, today, i, k);
    StreakFromAgree(entries, entries[..k] + entries[k + 1..], today, i + 1);
  }

  /** Each counted day is a different entry, so the streak never exceeds the number of entries. */
  lemma {:induction false} StreakBoundedByEntries(entries: seq<SymptomEntry>, today: int, i: nat)
    requires i <= ScanDays
    ensures StreakFrom(entries, today, i) <= |entries|
    decreases ScanDays - i
  {
    if i < ScanDays {
      var found := Find(entries, ScanDate(today, i));
      FindMatchesFindIndex(entries, ScanDate(today, i));
      if found.Some? && IsGoodDay(found.value) {
        var k := FindIndex(entries, ScanDate(today, i));
        var rest := entries[..k] + entries[k + 1..];
        DropCountedEntry(entries, today, i, k);
        StreakBoundedByEntries(rest, today, i + 1);
        StreakFromGoodStep(entries, today, i);
      } else if found.None? && i > 0 {
        StreakBoundedByEntries(entries, today, i + 1);
        StreakFromSkipStep(entries, today, i);
      }
    }
  }

  /** With one entry per date, any reordering of the list (such as the source's sort) finds the same entries. */
  lemma FindPermutation(entries: seq<SymptomEntry>, p: seq<SymptomEntry>, date: string)
    requires DistinctDates(entries) && multiset(p) == multiset(entries)
    ensures Find(p, date) == Find(entries, date)
  {
    var fe := Find(entries, date);
    var fp := Find(p, date);
    FindMatchesFindIndex(entries, date);
    FindMatchesFindIndex(p, date);
    if fe.None? {
      forall j | 0 <= j < |p| ensures p[j].date != date {
        assert p[j] in multiset(p);
        assert p[j] in entries;
      }
    } else {
      assert fe.value in multiset(entries);
      assert fe.value in p;
      assert fp.Some?;
      assert fp.value in multiset(p);
      FindDistinct(entries, date, fp.value);
    }
  }

  /** The order of the entries does not affect the streak when dates are distinct. */
  lemma StreakIgnoresOrder(entries: seq<SymptomEntry>, p: seq<SymptomEntry>, today: int)
    requires DistinctDates(entries) && multiset(p) == multiset(entries)
    ensures Streak(p, today) == Streak(entries, today)
  {
    forall j | 0 <= j < ScanDays ensures Find(p, ScanDate(today, j)) == Find(entries, ScanDate(today, j)) {
      FindPermutation(entries, p, ScanDate(today, j));
    }
    StreakFromAgree(p, entries, today, 0);
  }

  /** The first scan step from `i` on whose day has an entry that is not good, or ScanDays. */
  function FirstBadDay(entries: seq<SymptomEntry>, today: int, i: nat): (r: nat)
    requires i <= ScanDays
    ensures i <= r <= ScanDays
    decreases ScanDays - i
  {
    if i == ScanDays then ScanDays
    else
      match Find(entries, ScanDate(today, i))
      case Some(e) => if IsGoodDay(e) then FirstBadDay(entries, today, i + 1) else i
      case None => FirstBadDay(entries, today, i + 1)
  }

  /** How many scan steps in [i, hi) have an entry at all. */
  function DaysWithEntry(entries: seq<SymptomEntry>, today: int, i: nat, hi: nat): (r: nat)
    requires i <= hi <= ScanDays
    ensures r <= hi - i
    decreases hi - i
  {
    if i == hi then 0
    else (if Find(entries, ScanDate(today, i)).Some? then 1 else 0) + DaysWithEntry(entries, today, i + 1, hi)
  }

  lemma {:induction false} StreakFromCountsEntryDays(entries: seq<SymptomEntry>, today: int, i: nat)
    requires 0 < i <= ScanDays
    ensures StreakFrom(entries, today, i) == DaysWithEntry(entries, today, i, FirstBadDay(entries, today, i))
    decreases ScanDays - i
  {
    if i < ScanDays {
      StreakFromCountsEntryDays(entries, today, i + 1);
      var found := Find(entries, ScanDate(today, i));
      var hi := FirstBadDay(entries, today, i + 1);
      if found.None? {
        StreakFromSkipStep(entries, today, i);
        assert FirstBadDay(entries, today, i) == hi;
        assert DaysWithEntry(entries, today, i, hi) == DaysWithEntry(entries, today, i + 1, hi);
      } else if IsGoodDay(found.value) {
        StreakFromGoodStep(entries, today, i);
        assert FirstBadDay(entries, today, i) == hi;
        assert DaysWithEntry(entries, today, i, hi) == 1 + DaysWithEntry(entries, today, i + 1, hi);
      } else {
        assert FirstBadDay(entries, today, i) == i;
      }
    }
  }

  /**
   * The streak is 0 without an entry for today; otherwise it is the number of
   * scanned days that have an entry, counted up to the first day whose entry
   * is not good. Days without an entry neither count nor stop the count.
   */
  lemma StreakCountsEntryDays(entries: seq<SymptomEntry>, today: int)
    ensures Find(entries, FormatDay(today)).None? ==> Streak(entries, today) == 0
    ensures Find(entries, FormatDay(today)).Some? ==>
      Streak(entries, today) == DaysWithEntry(entries, today, 0, FirstBadDay(entries, today, 0))
  {
    StreakFromCountsEntryDays(entries, today, 1);
  }

  lemma {:induction false} GoodRunFrom(entries: seq<SymptomEntry>, today: int, i: nat, k: nat)
    requires i <= k + 1 && k < ScanDays
    requires forall j :: 0 <= j <= k ==> GoodAt(entries, today, j)
    ensures StreakFrom(entries, today, i) >= k + 1 - i
    decreases k + 1 - i
  {
    if i <= k {
      GoodRunFrom(entries, today, i + 1, k);
      StreakFromGoodStep(entries, today, i);
    }
  }

  /** Good entries on today and the k days before it give a streak of at least k + 1. */
  lemma StreakCoversGoodRun(entries: seq<SymptomEntry>, today: int, k: nat)
    requires k < ScanDays
    requires forall j :: 0 <= j <= k ==> GoodAt(entries, today, j)
    ensures Streak(entries, today) >= k + 1
  {
    GoodRunFrom(entries, today, 0, k);
  }

  lemma {:induction false} BadDayFrom(entries: seq<SymptomEntry>, today: int, i: nat, b: nat)
    requires i <= b < ScanDays
    requires BadAt(entries, today, b)
    ensures StreakFrom(entries, today, i) <= b - i
    decreases b - i
  {
    if i < b {
      BadDayFrom(entries, today, i + 1, b);
      StreakFromAtMostOneMore(entries, today, i);
    } else {
      StreakFromBadStep(entries, today, b);
    }
  }

  /** An entry that is not good, `b` days back, caps the streak at `b`. */
  lemma StreakStopsAtBadDay(entries: seq<SymptomEntry>, today: int, b: nat)
    requires b < ScanDays
    requires BadAt(entries, today, b)
    ensures Streak(entries, today) <= b
  {
    BadDayFrom(entries, today, 0, b);
  }

  /** Three good past days right before a good today, preceded by a bad day, make a streak of exactly 4. */
  lemma FourDayStreak(entries: seq<SymptomEntry>, today: int)
    requires forall j :: 0 <= j <= 3 ==> GoodAt(entries, today, j)
    requires BadAt(entries, today, 4)
    ensures Streak(entries, today) == 4
  {
    StreakCoversGoodRun(entries, today, 3);
    StreakStopsAtBadDay(entries, today, 4);
  }

  /** `getStreakMessage`. */
  function StreakMessage(streak: nat): (msg: string)
    ensures streak == 0 <==> msg == "Start your wellness journey!"
    ensures streak == 1 <==> msg == "Great start!"
    ensures 2 <= streak < 7 <==> msg == "Building momentum!"
    ensures 7 <= streak < 14 <==> msg == "You're on a roll!"
    ensures 14 <= streak < 30 <==> msg == "Fantastic streak!"
    ensures streak >= 30 <==> msg == "Incredible dedication!"
  {
    if streak == 0 then "Start your wellness journey!"
    else if streak == 1 then "Great start!"
    else if streak < 7 then "Building momentum!"
    else if streak < 14 then "You're on a roll!"
    else if streak < 30 then "Fantastic streak!"
    else "Incredible dedication!"
  }

  datatype StreakIcon = Flame | Award

  /** `getStreakIcon`: the flame from a week on, the award before. */
  function StreakIconFor(streak: nat): (icon: StreakIcon)
    ensures icon == Flame <==> streak >= 7
  {
    if streak >= 7 then Flame else Award
  }
}
