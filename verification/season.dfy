/** The season label of a month (`get_season`): March to May is spring (봄),
    June to August summer (여름), September to November autumn (가을), and
    every other month winter (겨울).
 */
module Seasons {
  import opened LifePath

  datatype Season = Spring | Summer | Autumn | Winter

  /** The Korean label the prompt shows for a season. */
  function Label(s: Season): (l: string)
    ensures l in AllLabels
  {
    match s
    case Spring => "봄"
    case Summer => "여름"
    case Autumn => "가을"
    case Winter => "겨울"
  }

  /** The season of a month number, by the source's chain of range tests;
      anything outside 3..11 falls through to winter. */
  function SeasonOf(month: int): (s: Season)
    ensures 1 <= month <= 12 ==> month in Months(s)
    ensures month !in Months(Spring) + Months(Summer) + Months(Autumn) ==> s == Winter
  {
    if 3 <= month <= 5 then Spring
    else if 6 <= month <= 8 then Summer
    else if 9 <= month <= 11 then Autumn
    else Winter
  }

  /** `get_season(date)`: the label of the date's season. */
  function GetSeason(d: Date): (l: string)
    ensures l in AllLabels
    ensures l == "봄" <==> 3 <= d.month <= 5
    ensures l == "여름" <==> 6 <= d.month <= 8
    ensures l == "가을" <==> 9 <= d.month <= 11
    ensures l == "겨울" <==> !(3 <= d.month <= 11)
  {
    Label(SeasonOf(d.month))
  }

  /** The four labels, one per season. */
  const AllLabels: seq<string> := ["봄", "여름", "가을", "겨울"]

  /** The months of each season, listed out. */
  function Months(s: Season): set<int> {
    match s
    case Spring => {3, 4, 5}
    case Summer => {6, 7, 8}
    case Autumn => {9, 10, 11}
    case Winter => {12, 1, 2}
  }

  /** An independent definition: the calendar year, starting at December,
      cut into four quarters of three months each. */
  function QuarterSeason(month: int): Season
    requires 1 <= month <= 12
  {
    [Winter, Spring, Summer, Autumn][(month % 12) / 3]
  }

  /** Every month 1..12 has a season, and it is the one season whose month
      list contains it. */
  lemma SeasonOfMatchesMonths(month: int)
    requires 1 <= month <= 12
    ensures forall s: Season :: SeasonOf(month) == s <==> month in Months(s)
  {
  }

  /** The four month lists partition the months 1..12. */
  lemma MonthsPartitionYear()
    ensures Months(Spring) + Months(Summer) + Months(Autumn) + Months(Winter)
            == {1, 2, 3, 4, 5, 6, 7, 8, 9, 10, 11, 12}
    ensures forall s, t: Season :: s != t ==> Months(s) * Months(t) == {}
  {
  }

  /** The range tests agree with the quarter definition on every month. */
  lemma SeasonOfIsQuarter(month: int)
    requires 1 <= month <= 12
    ensures SeasonOf(month) == QuarterSeason(month)
  {
  }

  /** Distinct seasons have distinct labels, so each month gets exactly one
      of the four labels. */
  lemma LabelsDistinct(s: Season, t: Season)
    ensures Label(s) == Label(t) <==> s == t
  {
  }

  /** Month 7 is summer, 12 winter, 3 spring and 10 autumn. */
  lemma SeasonExamples()
    ensures GetSeason(Date(2024, 7, 1)) == "여름"
    ensures GetSeason(Date(2024, 12, 1)) == "겨울"
    ensures GetSeason(Date(2024, 3, 1)) == "봄"
    ensures GetSeason(Date(2024, 10, 1)) == "가을"
  {
  }
}
