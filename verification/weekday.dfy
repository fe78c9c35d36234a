/** The weekday name the prompt shows: a fixed Monday-first table of seven
    Korean names, indexed by the date library's `weekday()` (0 = Monday).
 */
module Weekdays {
  import opened Optional

  const WeekdayNames: seq<string> :=
    ["월요일", "화요일", "수요일", "목요일", "금요일", "토요일", "일요일"]

  /** The name of weekday `w`; `weekday()` only ever yields 0..6, so the
      lookup is in bounds. Every name is a one-syllable day followed by
      요일 ("day of the week"). */
  function WeekdayName(w: int): (name: string)
    requires 0 <= w < 7
    ensures name in WeekdayNames
    ensures |name| == 3 && name[1..] == "요일"
  {
    WeekdayNames[w]
  }

  /** The position of `name` in the table, if it is there. */
  function WeekdayIndex(name: string): (r: Option<nat>)
    ensures r.Some? ==> r.value < 7 && WeekdayNames[r.value] == name
    ensures r.None? ==> name !in WeekdayNames
  {
    IndexFrom(name, 0)
  }

  function IndexFrom(name: string, from: nat): (r: Option<nat>)
    requires from <= 7
    ensures r.Some? ==> from <= r.value < 7 && WeekdayNames[r.value] == name
    ensures r.Some? ==> forall j :: from <= j < r.value ==> WeekdayNames[j] != name
    ensures r.None? ==> forall j :: from <= j < 7 ==> WeekdayNames[j] != name
    decreases 7 - from
  {
    if from == 7 then None
    else if WeekdayNames[from] == name then Some(from)
    else IndexFrom(name, from + 1)
  }

  /** The seven names are pairwise distinct. */
  lemma NamesDistinct()
    ensures forall i, j :: 0 <= i < j < 7 ==> WeekdayNames[i] != WeekdayNames[j]
  {
  }

  /** Looking up a weekday's name and finding it again gives the weekday back:
      no two weekdays share a name. */
  lemma WeekdayRoundTrip(w: int)
    requires 0 <= w < 7
    ensures WeekdayIndex(WeekdayName(w)) == Some(w)
  {
    NamesDistinct();
  }

  /** The table has seven entries and starts on Monday (월요일). */
  lemma MondayFirst()
    ensures |WeekdayNames| == 7
    ensures WeekdayName(0) == "월요일" && WeekdayName(6) == "일요일"
  {
  }
}
