/** The English weekday and month name tables that formatting and parsing share. */
module Names {

  /** Indexed by weekday, 0 = Sunday. */
  const LongDayNames: seq<string> :=
    ["Sunday", "Monday", "Tuesday", "Wednesday", "Thursday", "Friday", "Saturday"]

  const ShortDayNames: seq<string> :=
    ["Sun", "Mon", "Tue", "Wed", "Thu", "Fri", "Sat"]

  /** Indexed by month, 1 = January; entry 0 is a placeholder. */
  const ShortMonthNames: seq<string> :=
    ["---", "Jan", "Feb", "Mar", "Apr", "May", "Jun",
     "Jul", "Aug", "Sep", "Oct", "Nov", "Dec"]

  const LongMonthNames: seq<string> :=
    ["---", "January", "February", "March", "April", "May", "June",
     "July", "August", "September", "October", "November", "December"]

  /** The day tables: seven entries each, indexed 0 = Sunday to 6 = Saturday, the short
      name the first three letters of the long one, and no name repeated. */
  lemma DayTables()
    ensures |LongDayNames| == 7 && |ShortDayNames| == 7
    ensures LongDayNames[0] == "Sunday" && LongDayNames[6] == "Saturday"
    ensures forall k :: 0 <= k < 7 ==> |LongDayNames[k]| >= 3 && ShortDayNames[k] == LongDayNames[k][..3]
    ensures forall i, j :: 0 <= i < j < 7 ==> LongDayNames[i] != LongDayNames[j] && ShortDayNames[i] != ShortDayNames[j]
  {
  }

  /** The month tables: thirteen entries with the "---" placeholder at 0, so that month m
      indexes them directly; the short name the first three letters of the long one for
      every month; and no name repeated, so that looking a name up is unambiguous. */
  lemma MonthTables()
    ensures |ShortMonthNames| == 13 && |LongMonthNames| == 13
    ensures ShortMonthNames[0] == "---" && LongMonthNames[0] == "---"
    ensures LongMonthNames[1] == "January" && LongMonthNames[12] == "December"
    ensures forall m :: 1 <= m <= 12 ==> |LongMonthNames[m]| >= 3 && ShortMonthNames[m] == LongMonthNames[m][..3]
    ensures forall i, j :: 0 <= i < j < 13 ==> ShortMonthNames[i] != ShortMonthNames[j] && LongMonthNames[i] != LongMonthNames[j]
  {
  }
}
