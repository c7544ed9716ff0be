/**
 * The day buckets `GetIndexNames` derives from a cursor: one `yyyyMMdd`
 * index name per day, newest first, from the day after `now` back to the
 * cursor.
 */
module IndexNames {
  import opened Wrappers
  import opened Calendar
  import opened TimeFormat

  /** Integer division by a positive divisor truncated toward zero, as C#'s `(int)` cast of a quotient does. */
  function TruncDiv(a: int, d: int): (q: int)
    requires d > 0
    ensures a >= 0 ==> 0 <= a - q * d < d
    ensures a < 0 ==> -d < a - q * d <= 0
  {
    if a >= 0 then a / d else -((-a) / d)
  }

  /** Going back whole days from the day after `now` moves the day number back by as many. */
  lemma DayOfShift(now: int, x: int)
    requires InRange(now) && InRange(now + TicksPerDay - x * TicksPerDay)
    ensures DayOf(now + TicksPerDay - x * TicksPerDay) == DayOf(now) + 1 - x
  {
  }

  /**
   * The number of buckets: the whole days, truncated toward zero, from the
   * cursor to one day after `now`, plus one.
   */
  function DayCount(now: int, cursor: int): int {
    TruncDiv(now + TicksPerDay - cursor, TicksPerDay) + 1
  }

  /**
   * The index names for a cursor: none when the day count is not positive,
   * else for each `x` below it the day key of `now + 1 day - x days`.
   */
  function IndexNamesFor(now: int, cursor: int): seq<string>
    requires InRange(cursor) && InRange(now) && InRange(now + TicksPerDay)
  {
    var days := DayCount(now, cursor);
    if days <= 0 then []
    else seq(days, x requires 0 <= x < days => DayKey(DayOf(now + TicksPerDay - x * TicksPerDay)))
  }

  /** Every bucket instant lies between the cursor, or `now` when the cursor is ahead, and the day after `now`. */
  lemma BucketInRange(now: int, cursor: int, x: int)
    requires InRange(cursor) && InRange(now) && InRange(now + TicksPerDay)
    requires 0 <= x < DayCount(now, cursor)
    ensures InRange(now + TicksPerDay - x * TicksPerDay)
    ensures cursor <= now + TicksPerDay ==> cursor <= now + TicksPerDay - x * TicksPerDay
  {
  }

  /** How many names there are, and that none is asked for when the cursor is two or more days ahead of `now`. */
  lemma IndexNamesCount(now: int, cursor: int)
    requires InRange(cursor) && InRange(now) && InRange(now + TicksPerDay)
    ensures cursor <= now + TicksPerDay ==> |IndexNamesFor(now, cursor)| == (now + TicksPerDay - cursor) / TicksPerDay + 1
    ensures now + TicksPerDay < cursor < now + 2 * TicksPerDay ==> |IndexNamesFor(now, cursor)| == 1
    ensures IndexNamesFor(now, cursor) == [] <==> cursor >= now + 2 * TicksPerDay
  {
  }

  /** Name `x` is the key of the day `x` days before the day after `now`'s. */
  lemma IndexNameAt(now: int, cursor: int, x: int)
    requires InRange(cursor) && InRange(now) && InRange(now + TicksPerDay)
    requires 0 <= x < |IndexNamesFor(now, cursor)|
    ensures 0 <= DayOf(now) + 1 - x < DaysTo10000
    ensures IndexNamesFor(now, cursor)[x] == DayKey(DayOf(now) + 1 - x)
  {
    BucketInRange(now, cursor, x);
    var instant := now + TicksPerDay - x * TicksPerDay;
    assert IndexNamesFor(now, cursor)[x] == DayKey(DayOf(instant));
    DayOfShift(now, x);
  }

  /** Entry `x` of `names` reads back as the day `x` days before day `first`. */
  ghost predicate CountsBack(names: seq<string>, first: int) {
    forall x :: 0 <= x < |names| ==> DayOfKey(names[x]) == Some(first - x)
  }

  /** The names count back day by day from the day after `now`'s. */
  lemma IndexNamesBack(now: int, cursor: int)
    requires InRange(cursor) && InRange(now) && InRange(now + TicksPerDay)
    ensures CountsBack(IndexNamesFor(now, cursor), DayOf(now) + 1)
  {
    var names := IndexNamesFor(now, cursor);
    forall x | 0 <= x < |names|
      ensures DayOfKey(names[x]) == Some(DayOf(now) + 1 - x)
    {
      IndexNameAt(now, cursor, x);
      DayKeyRoundTrip(DayOf(now) + 1 - x);
    }
  }

  /** The names are distinct: each bucket is named once. */
  lemma IndexNamesDistinct(now: int, cursor: int, i: int, j: int)
    requires InRange(cursor) && InRange(now) && InRange(now + TicksPerDay)
    requires 0 <= i < j < |IndexNamesFor(now, cursor)|
    ensures IndexNamesFor(now, cursor)[i] != IndexNamesFor(now, cursor)[j]
  {
    IndexNamesBack(now, cursor);
    CountsBackDistinct(IndexNamesFor(now, cursor), DayOf(now) + 1, i, j);
  }

  /** Entries naming different days differ. */
  lemma CountsBackDistinct(names: seq<string>, first: int, i: int, j: int)
    requires CountsBack(names, first)
    requires 0 <= i < j < |names|
    ensures names[i] != names[j]
  {
    assert DayOfKey(names[i]) != DayOfKey(names[j]);
  }

  /** With the cursor at `now`, the names are tomorrow's and today's, newest first. */
  lemma CursorAtNow(now: int)
    requires InRange(now) && InRange(now + TicksPerDay)
    ensures DayOf(now) + 1 < DaysTo10000
    ensures IndexNamesFor(now, now) == [DayKey(DayOf(now) + 1), DayKey(DayOf(now))]
  {
    IndexNamesCount(now, now);
    IndexNameAt(now, now, 0);
    IndexNameAt(now, now, 1);
  }

  /**
   * The whole days back from the day after `now` to the cursor land on the
   * cursor's own day when its time of day is no later than `now`'s, and on
   * the day after it otherwise.
   */
  lemma DaysBackToCursor(now: int, cursor: int)
    requires InRange(cursor) && InRange(now) && cursor <= now + TicksPerDay
    ensures DayOf(now) + 1 - (now + TicksPerDay - cursor) / TicksPerDay
      == DayOf(cursor) + (if cursor % TicksPerDay <= now % TicksPerDay then 0 else 1)
  {
    var dn, rn := now / TicksPerDay, now % TicksPerDay;
    var dc, rc := cursor / TicksPerDay, cursor % TicksPerDay;
    if rc <= rn {
      assert now + TicksPerDay - cursor == (dn + 1 - dc) * TicksPerDay + (rn - rc);
    } else {
      assert now + TicksPerDay - cursor == (dn - dc) * TicksPerDay + (TicksPerDay + rn - rc);
    }
  }

  /**
   * The oldest name is the cursor's day when the cursor's time of day is no
   * later than `now`'s, and the day after the cursor's otherwise.
   */
  lemma OldestIndexName(now: int, cursor: int)
    requires InRange(cursor) && InRange(now) && InRange(now + TicksPerDay)
    requires cursor <= now + TicksPerDay
    ensures |IndexNamesFor(now, cursor)| > 0
    ensures cursor % TicksPerDay <= now % TicksPerDay
      ==> IndexNamesFor(now, cursor)[|IndexNamesFor(now, cursor)| - 1] == DayKey(DayOf(cursor))
    ensures cursor % TicksPerDay > now % TicksPerDay
      ==> (DayOf(cursor) + 1 < DaysTo10000
           && IndexNamesFor(now, cursor)[|IndexNamesFor(now, cursor)| - 1] == DayKey(DayOf(cursor) + 1))
  {
    var names := IndexNamesFor(now, cursor);
    IndexNamesCount(now, cursor);
    var back := (now + TicksPerDay - cursor) / TicksPerDay;
    assert |names| - 1 == back;
    IndexNameAt(now, cursor, back);
    assert names[back] == DayKey(DayOf(now) + 1 - back);
    DaysBackToCursor(now, cursor);
  }

  /**
   * The cursor's own day is among the names exactly when the cursor's time
   * of day is no later than `now`'s: a cursor later in its day than `now` is
   * in its day has that day left out.
   */
  lemma CursorDayListed(now: int, cursor: int)
    requires InRange(cursor) && InRange(now) && InRange(now + TicksPerDay)
    requires cursor <= now + TicksPerDay
    ensures DayKey(DayOf(cursor)) in IndexNamesFor(now, cursor) <==> cursor % TicksPerDay <= now % TicksPerDay
  {
    var names := IndexNamesFor(now, cursor);
    OldestIndexName(now, cursor);
    if cursor % TicksPerDay > now % TicksPerDay {
      CursorDayNotListed(now, cursor);
    } else {
      assert names[|names| - 1] == DayKey(DayOf(cursor));
    }
  }

  /** Every name is of a day after the cursor's when the cursor is later in its day than `now`. */
  lemma CursorDayNotListed(now: int, cursor: int)
    requires InRange(cursor) && InRange(now) && InRange(now + TicksPerDay)
    requires cursor <= now + TicksPerDay && cursor % TicksPerDay > now % TicksPerDay
    ensures DayKey(DayOf(cursor)) !in IndexNamesFor(now, cursor)
  {
    IndexNamesCount(now, cursor);
    DaysBackToCursor(now, cursor);
    IndexNamesBack(now, cursor);
    KeyBeforeOldest(IndexNamesFor(now, cursor), DayOf(now) + 1, DayOf(cursor));
  }

  /** A day before the oldest of the days counted back has no key among them. */
  lemma KeyBeforeOldest(names: seq<string>, first: int, day: int)
    requires CountsBack(names, first)
    requires 0 <= day < DaysTo10000 && day < first - (|names| - 1)
    ensures DayKey(day) !in names
  {
    DayKeyRoundTrip(day);
  }
}
