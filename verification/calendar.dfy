/** Time as the model sees it: instants are integer milliseconds since the
    epoch, calendar days are whole UTC days. */
module Calendar {

  const MsPerDay: int := 86_400_000

  /** The calendar day an instant falls on (`isSameDay` compares these). */
  function DayOf(ts: int): (d: int)
    ensures d * MsPerDay <= ts < (d + 1) * MsPerDay
  {
    ts / MsPerDay
  }

  /** `differenceInDays(later, earlier)`: the number of full days between two
      instants, truncated toward zero, so negative when `later` is earlier. */
  function DaysBetween(later: int, earlier: int): (n: int)
    ensures later >= earlier ==> n >= 0 && n * MsPerDay <= later - earlier < (n + 1) * MsPerDay
    ensures later < earlier ==> n <= 0 && -n * MsPerDay <= earlier - later < (-n + 1) * MsPerDay
  {
    if later >= earlier then (later - earlier) / MsPerDay
    else -((earlier - later) / MsPerDay)
  }

  /** Two instants on the same calendar day are less than a full day apart. */
  lemma SameDayWithinADay(a: int, b: int)
    requires DayOf(a) == DayOf(b)
    ensures DaysBetween(a, b) == 0
  {
  }
}
