/**
 * The ranking rules of the sitemap: a post's priority (`calculatePriority`)
 * and its change frequency (`calculateChangeFreq`). Priority is kept in
 * integer hundredths, so 60 stands for 0.6.
 */
module Ranking {
  import opened Wrappers
  import opened Content

  /** Milliseconds in a day, the divisor `calculateChangeFreq` turns an age into days with. */
  const DayMs := 86400000

  /** `new Date(createdAt) > threeMonthsAgo`; an invalid date (NaN) is never recent. */
  predicate IsRecent(createdAt: Option<int>, threeMonthsAgo: int)
    ensures createdAt.None? ==> !IsRecent(createdAt, threeMonthsAgo)
  {
    createdAt.Some? && createdAt.value > threeMonthsAgo
  }

  /** The difficulty bonus of the `switch`: Beginner 5, Advanced 10, anything else 0. */
  function DifficultyBonus(difficulty: string): (b: int)
    ensures b == 5 <==> difficulty == "Beginner"
    ensures b == 10 <==> difficulty == "Advanced"
    ensures b == 0 <==> difficulty != "Beginner" && difficulty != "Advanced"
  {
    if difficulty == "Beginner" then 5 else if difficulty == "Advanced" then 10 else 0
  }

  /**
   * The priority in hundredths: base 60, plus 20 when featured, plus 10 when
   * recent, plus the difficulty bonus, capped at 100.
   */
  function Priority(featured: bool, recent: bool, difficulty: string): (h: int)
    ensures 60 <= h <= 100 && h % 5 == 0
  {
    var sum := 60 + (if featured then 20 else 0) + (if recent then 10 else 0) + DifficultyBonus(difficulty);
    if sum < 100 then sum else 100
  }

  /** `calculatePriority` as written: a running total raised step by step, then capped. */
  method CalculatePriority(meta: Meta, threeMonthsAgo: int) returns (h: int)
    ensures h == Priority(meta.featured, IsRecent(meta.createdAt, threeMonthsAgo), meta.difficulty)
    ensures 60 <= h <= 100
  {
    var priority := 60;
    if meta.featured {
      priority := priority + 20;
    }
    if IsRecent(meta.createdAt, threeMonthsAgo) {
      priority := priority + 10;
    }
    if meta.difficulty == "Beginner" {
      priority := priority + 5;
    } else if meta.difficulty == "Advanced" {
      priority := priority + 10;
    }
    h := if priority < 100 then priority else 100;
  }

  /** Turning a post into a featured one never lowers its priority, and raises it unless the cap is reached. */
  lemma FeaturedNeverLowers(recent: bool, difficulty: string)
    ensures Priority(false, recent, difficulty) <= Priority(true, recent, difficulty)
    ensures Priority(false, recent, difficulty) == Priority(true, recent, difficulty) ==> Priority(true, recent, difficulty) == 100
  {
  }

  /** A featured, recent, Advanced post sits exactly at the cap; every bonus combination stays within it, so the cap never cuts a sum. */
  lemma CapReachedOnlyAtTop(featured: bool, recent: bool, difficulty: string)
    ensures Priority(true, true, "Advanced") == 100
    ensures Priority(featured, recent, difficulty) ==
      60 + (if featured then 20 else 0) + (if recent then 10 else 0) + DifficultyBonus(difficulty)
  {
  }

  /** The text of a whole number of tenths `t`, as `toFixed(1)` prints it. */
  function Tenths(t: int): (s: string)
    requires 0 <= t <= 10
    ensures |s| == 3 && s[1] == '.'
    ensures '0' <= s[0] <= '9' && '0' <= s[2] <= '9'
    ensures (s[0] as int - '0' as int) * 10 + (s[2] as int - '0' as int) == t
  {
    if t == 10 then "1.0" else ['0', '.', "0123456789"[t]]
  }

  /**
   * `Math.min(priority, 1.0).toFixed(1)` for a priority of `h` hundredths.
   * A whole number of tenths prints as that tenth. A value ending in 5
   * hundredths (0.65, 0.75, 0.85, 0.95) is a binary fraction near the
   * midpoint, and whether it prints as the tenth above or below is decided
   * by the rounding of the additions; `tieUp` carries that choice.
   */
  function PriorityText(h: int, tieUp: bool): (s: string)
    requires 60 <= h <= 100 && h % 5 == 0
    ensures h % 10 == 0 ==> s == Tenths(h / 10)
    ensures h % 10 == 5 ==> s == Tenths(h / 10) || s == Tenths(h / 10 + 1)
  {
    if h % 10 == 0 || !tieUp then Tenths(h / 10) else Tenths(h / 10 + 1)
  }

  /**
   * Whatever the rounding of the midpoints: a post without any bonus prints
   * "0.6", a featured post without other bonuses "0.8", and a featured,
   * recent, Advanced post "1.0"; every whole tenth prints as itself.
   */
  lemma PriorityTextBounds()
    ensures forall d, t | DifficultyBonus(d) == 0 :: PriorityText(Priority(false, false, d), t) == "0.6"
    ensures forall d, t | DifficultyBonus(d) == 0 :: PriorityText(Priority(true, false, d), t) == "0.8"
    ensures forall t :: PriorityText(Priority(true, true, "Advanced"), t) == "1.0"
    ensures forall h, t | 60 <= h <= 100 && h % 10 == 0 :: PriorityText(h, t) == Tenths(h / 10)
  {
  }

  /** `calculateChangeFreq`: the age of `createdAt` in days decides daily (under 7), weekly (under 30) or monthly. */
  function ChangeFreq(createdAt: Option<int>, now: int): (freq: string)
    ensures freq == "daily" || freq == "weekly" || freq == "monthly"
    ensures createdAt.None? ==> freq == "monthly"
  {
    match createdAt
    case None => "monthly"
    case Some(created) =>
      if now - created < 7 * DayMs then "daily"
      else if now - created < 30 * DayMs then "weekly"
      else "monthly"
  }

  /** Position of a change frequency on the scale from most to least frequent. */
  function FreqRank(freq: string): nat
  {
    if freq == "daily" then 0 else if freq == "weekly" then 1 else 2
  }

  /**
   * The three bands of `calculateChangeFreq`, in both directions: a future
   * date counts as daily, and an invalid date (NaN fails both comparisons)
   * as monthly.
   */
  lemma ChangeFreqBands(createdAt: Option<int>, now: int)
    ensures createdAt.None? ==> ChangeFreq(createdAt, now) == "monthly"
    ensures createdAt.Some? ==>
      var age := now - createdAt.value;
      && (ChangeFreq(createdAt, now) == "daily" <==> age < 7 * DayMs)
      && (ChangeFreq(createdAt, now) == "weekly" <==> 7 * DayMs <= age < 30 * DayMs)
      && (ChangeFreq(createdAt, now) == "monthly" <==> 30 * DayMs <= age)
    ensures createdAt.Some? && createdAt.value >= now ==> ChangeFreq(createdAt, now) == "daily"
  {
  }

  /** An older post never gets a more frequent change frequency than a newer one. */
  lemma ChangeFreqMonotone(older: int, newer: int, now: int)
    requires older <= newer
    ensures FreqRank(ChangeFreq(Some(older), now)) >= FreqRank(ChangeFreq(Some(newer), now))
  {
  }
}
