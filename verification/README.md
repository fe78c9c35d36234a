# Life path number, season and weekday labels of a numerology fortune app

The application asks for a birthdate and a reference date, computes the
birthdate's numerology "life path number", and sends a prompt containing
that number, the reference date, its weekday name, its month and its season
label to a hosted language model that invents six lucky numbers. This
project models the deterministic part:

- `Decimal` (decimal.dfy): `str(n)` for naturals, reading digit strings
  back, and digit sums. It proves casting out nines (the digit sum agrees with
  the value modulo 9). It also proves that the digit sum of any `n > 9` is
  strictly below `n`, and that it is at least 1 when `n >= 1`.
- `LifePath` (life_path.dfy): the `Date` record, `strftime("%d%m%Y")`
  and its inverse, and the reduction loop, both as a recursive function and as
  the source's two loops. The result is proved to be the digital root
  `1 + (s - 1) % 9` of the initial digit sum `s`, and therefore in 1..9.
- `Seasons` (season.dfy): `get_season`. It is proved against an
  independent quarter-of-the-year definition and against explicit month lists
  that partition 1..12.
- `Weekdays` (weekday.dfy): the Monday-first weekday-name table. The lookup
  is proved in bounds and inverted by a search.
- `Optional` (optional.dfy): the Option datatype.

A date is `Date(year, month, day)` with the ranges Python's `datetime`
allows: year 1..9999, month 1..12, day 1..31. Whether a day exists in its
month is the date library's business. The input form's minimum birthdate,
1900-01-01 (app.py line 66), is not needed by any proof. Day >= 1 alone makes
the initial digit sum positive. `%Y` is modelled as four zero-padded digits.
`LifePath.YearPaddingIrrelevant` shows that printing a year below 1000
without padding gives the same digit sum. So the result does not depend on
how the platform's `strftime` pads such years.

## Model

| member | source | states |
|---|---|---|
| Decimal.DigitValue | app.py:15 | `int(digit)` of a digit character is a value in 0..9 |
| Decimal.SumDigits | app.py:15-17 | `sum(int(digit) for digit in s)` over a digit string is at most 9 per character |
| Decimal.Str | app.py:17 | `str(total)` is a nonempty digit string with no leading zero, one character long exactly when the number is below 10 |
| Decimal.StrRoundTrip | app.py:17 | reading back the digits `str(n)` writes gives `n` |
| Decimal.ParseDecimalRoundTrip | app.py:17 | every digit string without a superfluous leading zero is `str` of its value, so the rendering is canonical |
| Decimal.DigitSum | app.py:17 | one step of the loop: the new total is congruent to the old one modulo 9, strictly smaller when the old one exceeds 9, and positive when the old one is |
| Decimal.SumDigitsCongruent | app.py:15-17 | casting out nines: the digit sum of any digit string is congruent modulo 9 to the number it denotes |
| Decimal.SumDigitsBelowValue | app.py:16-17 | the digit sum never exceeds the value, and is strictly below it when a digit before the last is nonzero; this is the termination measure of the loop |
| Decimal.SumDigitsZero | app.py:15-17 | a digit string whose digits sum to 0 denotes 0, so a positive total never reduces to 0 |
| Decimal.SumDigitsAppend | app.py:15 | summing the digits of the concatenated day, month and year strings is summing each part |
| LifePath.Pad2 | app.py:15 | `%d` and `%m` give two digits that read back as the day or month |
| LifePath.Pad4 | app.py:15 | `%Y` gives four digits that read back as the year |
| LifePath.Format | app.py:15 | `strftime("%d%m%Y")` is an 8-character digit string |
| LifePath.FormatRoundTrip | app.py:15 | the DDMMYYYY string determines the date: reading it back as day, month, year gives the date again |
| LifePath.InitialSum | app.py:15 | the first digit sum of a formatted date lies in 1..72; it is nonzero because the day is at least 1 |
| LifePath.InitialSumSplits | app.py:15 | the first digit sum is the day's two digits plus the month's two digits plus the year's digits |
| LifePath.YearPaddingIrrelevant | app.py:15 | a zero-padded and an unpadded year have the same digit sum |
| LifePath.Reduce | app.py:16-17 | the reduction ends at most 9, keeps the value modulo 9, ends at least 1 from a positive start, and returns a start of at most 9 unchanged |
| LifePath.ReduceIsDigitalRoot | app.py:16-18 | from any positive start the reduction returns `1 + (s - 1) % 9` |
| LifePath.LifePathNumber | app.py:14-18 | the life path number of every date is in 1..9 and is the digital root of the date's DDMMYYYY digit sum |
| LifePath.CalculateLifePathNumber | app.py:14-18 | the source's summing pass and while loop terminate with a value in 1..9, congruent modulo 9 to the first digit sum, equal to it when it is already at most 9, and equal to the functional model |
| LifePath.ExampleMay1990 | app.py:15-17 | 1990-05-15 is written "15051990", sums to 30 and reduces to 3 |
| LifePath.ExampleJanuary2000 | app.py:15-18 | 2000-01-01 is written "01012000" and sums to 4, which is returned unchanged |
| Seasons.SeasonOf | app.py:52-59 | the if/elif chain puts every month 1..12 in the month list of its season, and sends any month outside the spring, summer and autumn lists to winter |
| Seasons.Label | app.py:53-59 | each season's label is one of the four labels 봄, 여름, 가을, 겨울 |
| Seasons.GetSeason | app.py:50-59 | a date's label is one of the four labels; it is 봄 exactly for months 3-5, 여름 exactly for 6-8, 가을 exactly for 9-11, and 겨울 for every other month |
| Seasons.SeasonOfMatchesMonths | app.py:51-59 | for every month 1..12, a season is the month's season exactly when its month list (3-5, 6-8, 9-11, 12/1/2) contains the month |
| Seasons.MonthsPartitionYear | app.py:52-59 | the four month lists are pairwise disjoint and together cover 1..12, so the case split is total and exclusive |
| Seasons.SeasonOfIsQuarter | app.py:52-59 | the chain of range tests agrees with cutting the year into quarters starting at December |
| Seasons.LabelsDistinct | app.py:53-59 | two seasons have the same label only if they are the same season |
| Seasons.SeasonExamples | app.py:52-59 | month 7 is 여름, 12 is 겨울, 3 is 봄 and 10 is 가을 |
| Weekdays.WeekdayName | app.py:26 | indexing with any weekday 0..6 stays in bounds and yields a table entry ending in 요일 |
| Weekdays.WeekdayIndex | app.py:26 | the search finds a name only at a position holding that name, and fails only for a name not in the table |
| Weekdays.WeekdayRoundTrip | app.py:26 | the search for weekday `w`'s name finds `w`, so no two weekdays share a name |
| Weekdays.NamesDistinct | app.py:26 | the seven names are pairwise distinct |
| Weekdays.MondayFirst | app.py:26 | the table has seven entries, from 월요일 (Monday) to 일요일 (Sunday) |

## Left out

- The call to the hosted language model (app.py lines 35-41) is left out. It is a network call with nondeterministic output.
- Parsing the model's JSON reply (app.py lines 43-48) is left out. It wraps `json.loads`, whose behaviour is not part of this model. It only catches decode errors, and it never checks the count or the range of the returned numbers.
- Building the prompt text (app.py lines 21-33) is left out. It is free-text interpolation. Only the weekday lookup (line 26) and the season label (line 28) it embeds are modelled.
- Reading the API key from the environment (app.py lines 9 and 12) is left out, and so is the Streamlit page (lines 61-95). Both are I/O and UI.
- LifePath.Format: promises eight digits, with the year always zero-padded to four. For years below 1000, some platforms' `strftime` writes `%Y` without padding, and that output is not modelled. `LifePath.YearPaddingIrrelevant` shows the digit sum, and so the life path number, is the same either way. The input form never offers such years.
- Calendar validity and the weekday of a date come from `datetime`. `Date` accepts day 1..31 in every month, and `Weekdays.WeekdayName` takes `weekday()` as an input in 0..6.
