/**
 * Local-date canonicalisation and the past-date lock (src/App.jsx, with the
 * same helpers repeated in ReservationForm.jsx and EditModal.jsx).
 * "today" is always passed in: it is `toLocalYMD(new Date())` at the moment
 * a lock is computed. The screens compute each lock once per date and keep
 * it; the handlers read the kept value.
 */
module Dates {
  import opened JsText

  /** The local calendar fields of a `Date`: getFullYear(), getMonth() + 1, getDate(). */
  datatype LocalDate = LocalDate(year: int, month: nat, day: nat)

  /** A date whose year has four digits and whose month and day are in calendar range. */
  predicate WellFormed(date: LocalDate) {
    1000 <= date.year <= 9999 && 1 <= date.month <= 12 && 1 <= date.day <= 31
  }

  /** Calendar order on (year, month, day). */
  predicate Before(a: LocalDate, b: LocalDate) {
    || a.year < b.year
    || (a.year == b.year && a.month < b.month)
    || (a.year == b.year && a.month == b.month && a.day < b.day)
  }

  /** `toLocalYMD`: `${y}-${m}-${d}` with month and day padded to two digits. */
  function ToLocalYMD(date: LocalDate): string {
    IntToString(date.year) + "-" + PadStart2(NatToString(date.month)) + "-" + PadStart2(NatToString(date.day))
  }

  /** `isPastYMD`: `ymd < today` as a string comparison. */
  predicate IsPastYMD(ymd: string, today: string) {
    Less(ymd, today)
  }

  /**
   * `isTodayOrFutureYMD`: `ymd >= today`, written here as "equal or
   * lexicographically after"; PastIffNotTodayOrFuture shows it is the
   * negation of `<`, which is how JavaScript evaluates `>=` on strings.
   */
  predicate IsTodayOrFutureYMD(ymd: string, today: string) {
    ymd == today || Less(today, ymd)
  }

  /**
   * Midnight between 2026-10-16 and 2026-10-17: the day that was today
   * becomes past.
   */
  lemma MidnightRollover()
    ensures IsTodayOrFutureYMD("2026-10-16", "2026-10-16") && !IsPastYMD("2026-10-16", "2026-10-16")
    ensures IsPastYMD("2026-10-16", "2026-10-17") && !IsTodayOrFutureYMD("2026-10-16", "2026-10-17")
  {
    LessTrichotomy("2026-10-16", "2026-10-16");
    LessAppend("2026-10-1", "6", "2026-10-1", "7");
    assert "2026-10-16" == "2026-10-1" + "6" && "2026-10-17" == "2026-10-1" + "7";
    PastIffNotTodayOrFuture("2026-10-16", "2026-10-17");
  }

  /** For one "today", every date string is past or today-or-future, never both. */
  lemma PastIffNotTodayOrFuture(ymd: string, today: string)
    ensures IsPastYMD(ymd, today) <==> !IsTodayOrFutureYMD(ymd, today)
  {
    LessTrichotomy(ymd, today);
  }

  /** The canonical form is ten characters: four-digit year, '-', two-digit month, '-', two-digit day. */
  lemma ToLocalYMDLayout(date: LocalDate)
    requires WellFormed(date)
    ensures var s := ToLocalYMD(date);
      && |s| == 10 && s[4] == '-' && s[7] == '-'
      && AllDigits(s[..4]) && AllDigits(s[5..7]) && AllDigits(s[8..])
      && Value(s[..4]) == date.year && Value(s[5..7]) == date.month && Value(s[8..]) == date.day
  {
    Pieces(date);
    var y, m, d := NatToString(date.year), PadStart2(NatToString(date.month)), PadStart2(NatToString(date.day));
    var s := ToLocalYMD(date);
    assert s == (y + "-") + (m + "-") + d;
    assert s[..4] == y;
    assert s[5..7] == m;
    assert s[8..] == d;
  }

  /** The pieces of ToLocalYMD of a well-formed date, with their sizes and values. */
  lemma Pieces(date: LocalDate)
    requires WellFormed(date)
    ensures |NatToString(date.year)| == 4 && Value(NatToString(date.year)) == date.year
    ensures |PadStart2(NatToString(date.month))| == 2 && AllDigits(PadStart2(NatToString(date.month)))
    ensures Value(PadStart2(NatToString(date.month))) == date.month
    ensures |PadStart2(NatToString(date.day))| == 2 && AllDigits(PadStart2(NatToString(date.day)))
    ensures Value(PadStart2(NatToString(date.day))) == date.day
  {
    NatToStringLength(date.year);
    NatToStringValue(date.year);
    TwoDigitValue(date.month);
    TwoDigitValue(date.day);
  }

  /**
   * String order on canonical dates with four-digit years is calendar order,
   * and two dates have the same canonical form only when they are the same date.
   */
  lemma YMDOrderIsCalendarOrder(a: LocalDate, b: LocalDate)
    requires WellFormed(a) && WellFormed(b)
    ensures IsPastYMD(ToLocalYMD(a), ToLocalYMD(b)) <==> Before(a, b)
    ensures ToLocalYMD(a) == ToLocalYMD(b) <==> a == b
  {
    Pieces(a);
    Pieces(b);
    var ya, ma, da := NatToString(a.year), PadStart2(NatToString(a.month)), PadStart2(NatToString(a.day));
    var yb, mb, db := NatToString(b.year), PadStart2(NatToString(b.month)), PadStart2(NatToString(b.day));
    DigitStringOrder(ya, yb);
    DigitStringOrder(ma, mb);
    DigitStringOrder(da, db);
    LessAppend(ya, "-", yb, "-");
    LessAppend(ya + "-", ma, yb + "-", mb);
    LessAppend(ya + "-" + ma, "-", yb + "-" + mb, "-");
    LessAppend(ya + "-" + ma + "-", da, yb + "-" + mb + "-", db);
  }

  /** The lock policy on real dates: a reservation is locked exactly when its day is before today. */
  lemma LockFollowsCalendar(date: LocalDate, today: LocalDate)
    requires WellFormed(date) && WellFormed(today)
    ensures IsPastYMD(ToLocalYMD(date), ToLocalYMD(today)) <==> Before(date, today)
    ensures IsTodayOrFutureYMD(ToLocalYMD(date), ToLocalYMD(today)) <==> !Before(date, today)
  {
    YMDOrderIsCalendarOrder(date, today);
    PastIffNotTodayOrFuture(ToLocalYMD(date), ToLocalYMD(today));
  }
}
