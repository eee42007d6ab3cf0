# pg-when phrase grammar in Dafny

pg-when reads English time phrases such as
`10 days ago at the previous hour in Africa/Addis_Ababa` into a typed
syntax tree with nom parser combinators. This project models that grammar
as pure Dafny functions from a `string` to `Parsed<T>`: a value with the
unconsumed rest, or an error `ParseError(input, kind)` naming where the
parser failed and why. It proves, for every parser:

- the bounds of what it returns;
- which alternative `alt` picks;
- where and with which kind it fails;
- the behaviour of the source's test vectors.

For every part below the whole phrase (durations, units, weekdays, months,
clock readings, relative and exact dates and times, offsets, zone names) it
also proves round trips: a value printed in the grammar reads back as
itself. The whole phrase (`Inputs`) has no printer. Its readers are instead
tied to their parts in both directions: each contract says which parts a
success was read from, and the `…Of` lemmas say that those parts, put
together, read as that phrase.

Modules follow the source files:

| module | file | grammar |
|---|---|---|
| `Nom` | nom.dfy | `tag`, `digit1`, `space0`/`space1`, `eof`, `alt`, `map_res` to `u8`/`u32`, `verify` |
| `ParseHms` | parse_hms.dfy | `parse_24`, `parse_12`, `parse_60`, `parse_hms` |
| `AmPms`, `Weekdays`, `Months`, `DateKinds`, `TimeKinds` | am_pm.dfy, weekday.dfy, month.dfy, date_kind.dfy, time_kind.dfy | the vocabulary |
| `DateDurations`, `TimeDurations` | date_duration.dfy, time_duration.dfy | count, optional blanks, unit |
| `AmPmTimes`, `GmtTimes`, `ExactTimes` | am_pm_time.dfy, gmt_time.dfy, when_exact_time.dfy | clock readings |
| `RelativeTimes`, `Times` | when_relative_time.dfy, when_time.dfy | times |
| `ExactDates`, `RelativeDates`, `Dates` | when_exact_date.dfy, when_relative_date.dfy, when_date.dfy | dates |
| `UtcOffsets`, `NamedTimezones`, `Timezones` | when_utc_offset.dfy, when_named_timezone.dfy, when_timezone.dfy | timezones |
| `Inputs` | when_input.dfy | the whole phrase |

How the model represents the source:

- nom's `alt` is `Nom.Alt`: the first success wins, and when every branch
  fails the last branch's error is reported.
  - A tuple `alt((a, b, c))` is written as right-nested `Alt`s.
  - The choices at the top of the tree (`Times.Parse`, `Dates.Parse`,
    `Timezones.Parse`, `ExactTimes.Parse`, `Inputs.ParseTime`) are written
    out as `if` chains. They have the same meaning.
- Errors carry the kinds nom reports: `Tag`, `Digit`, `MapRes` (a digit run
  too large for `u8` or `u32`), `Verify`, `Space`, `TakeWhile1` and `Eof`.
- `u8` and `u32` are subset types. A digit run's value is computed
  unbounded; the conversion fails with `MapRes` when it does not fit,
  before any range check.
- Round trips go through printers (`Text` functions, `Nom.Decimal`). These
  are not part of the source; they exist to state what the parsers accept.

Where the prose description of pg-when and its code differ, the model
follows the code:

- Exact dates have only the `dd-mm-yyyy` and `dd/mm/yyyy` forms.
- There is no "now" input.
- Date durations have no year unit.
- A clock unit is only `hour`, `minute` or `second`.
- `when_utc_offset.rs` carries a private copy of `parse_24`, `parse_60` and
  `parse_hms` (lines 36-61). `UtcOffsets.LocalHms` models that copy as
  written, and its contract states that it equals the shared 24-hour reader
  `ParseHms.Parse(·, H24)` on every input.
- `am_pm_time.rs` and `gmt_time.rs` carry private copies of `parse_12`,
  `parse_24` and `parse_60` with the same bounds as `parse_hms.rs`.
  `AmPmTimes` and `GmtTimes` use the `ParseHms` scanners for them.
- Some call sites name a parser differently from its definition, for
  example `AmPmTime::parse` and `parse_am_pm_time`. Each such pair is one
  parser here.

## Model

| member | source | states |
|---|---|---|
| Nom.Alt | src/when_input.rs:44-62 | ordered choice: the first alternative's result when it reads, otherwise the second's, so the last error is the one reported |
| Nom.AltAssociative | src/when_relative_date.rs:31-66 | regrouping a choice of three does not change it, so a tuple `alt` may be written as nested pairs in any grouping |
| Nom.Map | src/when_input.rs:31-34 | `map` succeeds exactly when its parser does, with the value transformed and the rest unchanged; a failure keeps the parser's error |
| Nom.AltMap | src/when_relative_date.rs:58-65 | a choice between two mapped parsers gives the first mapped value when the first reads, else the second mapped value when the second reads, else the second's error |
| Nom.Literal | src/when_input.rs:53 | `tag` reads exactly when the input starts with the literal, consuming just it; otherwise `Tag` at the input |
| Nom.LiteralOf | src/when_input.rs:53 | a literal followed by anything is matched and consumed |
| Nom.LiteralAs | src/weekday.rs:17-23 | a literal mapped to a constant `v` reads exactly when the input starts with the literal, giving `v` and consuming just the literal; otherwise `Tag` at the input |
| Nom.LiteralAsIsMap | src/weekday.rs:17-23 | on every input, a literal mapped to a constant is the same as `tag` followed by `map` |
| Nom.LiteralAsOf | src/weekday.rs:17-23 | a literal followed by anything gives its constant and leaves what follows |
| Nom.TakeRun | src/when_named_timezone.rs:14 | `take_while1` reads exactly when the first character qualifies; it consumes the maximal qualifying run and stops at the first other character; otherwise it fails at the input |
| Nom.RunLengthOf | src/when_named_timezone.rs:14 | a qualifying run followed by a non-qualifying character (or the end) is measured exactly |
| Nom.Digit1 | src/parse_hms.rs:12 | `digit1` reads exactly when a digit comes first, consuming the maximal digit run; otherwise `Digit` at the input |
| Nom.Digit1Of | src/parse_hms.rs:12 | digits followed by a non-digit are consumed exactly |
| Nom.Space1 | src/when_input.rs:52 | `space1` reads exactly when a blank comes first, consuming the maximal blank run; otherwise `Space` at the input |
| Nom.Space1Of | src/when_input.rs:52 | blanks followed by a non-blank are consumed exactly |
| Nom.Space1Fails | src/when_input.rs:52 | `space1` on input not starting with a blank fails with `Space` at the input |
| Nom.Space0 | src/date_duration.rs:21 | `space0` never fails, consuming the maximal (possibly empty) blank run |
| Nom.Space0Of | src/date_duration.rs:21 | a possibly empty blank run followed by a non-blank is consumed exactly |
| Nom.EndOfInput | src/when_input.rs:45 | `eof` reads exactly the empty input; otherwise `Eof` at the input |
| Nom.U8 | src/parse_hms.rs:12 | the `u8` scanner returns the leading digit run's value, consuming the run; it fails exactly when that value exceeds 255, or with `Digit` when no digit comes first |
| Nom.U32 | src/date_duration.rs:20 | the `u32` scanner returns the leading digit run's value, consuming the run; it fails exactly when that value exceeds 4294967295, or with `Digit` when no digit comes first |
| Nom.BoundedU8 | src/parse_hms.rs:11-27 | `verify(map_res(digit1, u8), range)`: a success lies in the range, starts at a digit, consumes a non-empty digit run and leaves no digit after it; input not starting with a digit fails with `Digit` there; every failure is at the input |
| Nom.BoundedU8Of | src/parse_hms.rs:11-27 | for any digit run: above 255 is `MapRes` at the input, even when the range check would also reject it; out of range is `Verify` at the input; otherwise the run's value is returned and exactly the run is consumed |
| Nom.U32Of | src/date_duration.rs:20 | the `u32` count of a digit run is its decimal value, or `MapRes` above 4294967295 |
| Nom.DecimalU32 | src/date_duration.rs:20 | every `u32` value, written in decimal, reads back as itself |
| ParseHms.Parse24 | src/parse_hms.rs:11-16 | `parse_24`: a success is below 24 and consumes exactly the leading digit run; a failure is at the input |
| ParseHms.Parse12 | src/parse_hms.rs:18-23 | `parse_12`: a success is in 1..=12 and consumes exactly the leading digit run; a failure is at the input |
| ParseHms.Parse60 | src/parse_hms.rs:25-27 | `parse_60`: a success is below 60 and consumes exactly the leading digit run; a failure is at the input |
| ParseHms.ParseHour | src/parse_hms.rs:40-43 | the hour reader the format picks: a success fits the format and consumes exactly the leading digit run |
| ParseHms.Parse | src/parse_hms.rs:39-56 | `parse_hms_inner`: every result has an hour fitting the format (H24 below 24, H12 in 1..=12), and minute and second below 60 |
| ParseHms.AfterHour | src/parse_hms.rs:45-55 | after the hour, the hour is kept, and minute and second are below 60 |
| ParseHms.AfterMinute | src/parse_hms.rs:50-55 | after the minute, hour and minute are kept, and the second is below 60 |
| ParseHms.HourOf | src/parse_hms.rs:11-23 | `parse_24`/`parse_12` on a digit run: `MapRes` above 255, `Verify` outside the format's range, otherwise the value, consuming just the run |
| ParseHms.FieldOf | src/parse_hms.rs:25-27 | `parse_60` reads any digit run of value below 60, leading zeros included |
| ParseHms.SixtyRejected | src/parse_hms.rs:25-27 | `parse_60` rejects 60 with `Verify` at its digits |
| ParseHms.HourOnlyOf | src/parse_hms.rs:40-47 | an hour not followed by `:` reads as `(hour, 0, 0)`; the rest starts right after the hour digits |
| ParseHms.HourMinuteOf | src/parse_hms.rs:49-52 | `h:m` with no second `:` reads with second 0; the rest starts right after the minute digits |
| ParseHms.FullOf | src/parse_hms.rs:54-55 | `h:m:s` reads all three fields; the rest starts after the second's digits |
| ParseHms.RoundTrip | src/parse_hms.rs:39-56 | every reading whose hour fits the format, printed as `h`, `h:m` or `h:m:s`, reads back exactly, leaving what follows |
| ParseHms.MinuteNoFallback | src/parse_hms.rs:45-55 | for any digit spelling of an hour that fits the format, `h:` followed by a missing or out-of-range minute fails the whole reading with the minute's error; there is no fallback to the hour alone |
| ParseHms.SecondNoFallback | src/parse_hms.rs:50-55 | for any digit spelling of a fitting hour and of a minute, `h:m:` followed by a bad second fails the whole reading with the second's error |
| AmPms.Parse | src/am_pm.rs:10-16 | a success began with a spelling of its marker and consumed exactly two characters; every failure is `Tag` at the input |
| AmPms.ParseOf | src/am_pm.rs:11-14 | `am`/`AM` give `Am` and `pm`/`PM` give `Pm` whatever follows, leaving the input after the two letters |
| AmPms.RoundTrip | src/am_pm.rs:11-14 | each marker in each casing reads back as itself |
| AmPms.FirstTwoDecide | src/am_pm.rs:11-14 | two inputs that agree on their first two characters both fail or give the same marker |
| AmPms.Rejects | src/am_pm.rs:11-15 | `Am` and `x` fail with `Tag` at the input |
| Weekdays.Parse | src/weekday.rs:15-26 | a success began with its day's lower-case name and consumed exactly that name; every failure is `Tag` at the input |
| Weekdays.ParseOf | src/weekday.rs:16-24 | any input starting with a day's name reads as that day whatever follows (no earlier name intervenes) |
| Weekdays.RoundTrip | src/weekday.rs:16-24 | each of the seven days reads back as itself, the name consumed and the rest left |
| Weekdays.FailsIff | src/weekday.rs:16-24 | parsing fails exactly when the input starts with no day name |
| Weekdays.Rejects | src/weekday.rs:69-80 | `Monday` (case matters) and `unknown` fail with `Tag` at the input |
| Months.AbbrevFirst | src/month.rs:24-27 | one month's `alt((Xxx, xxx, Full, full))`: a success is that month, begins with one of its abbreviations and consumes exactly three characters; a failure is `Tag` at the input |
| Months.Try | src/month.rs:24-27 | one month's choice of spellings, in either order: a success is that month; a failure is `Tag` at the input |
| Months.FirstMonth | src/month.rs:23-69 | the outer `alt` over the months in order: a success is the reading of a month in the list; it fails exactly when every month fails, with `Tag` at the input |
| Months.OnlyOneReads | src/month.rs:23-69 | when exactly one month of the list reads, the outer `alt` yields that month's reading |
| Months.Parse | src/month.rs:22-71 | `Month::parse` as written: a success consumed exactly three characters, which spell its month's abbreviation in one of the two casings; every failure is `Tag` at the input |
| Months.AbbrevInjective | src/month.rs:25-66 | no two months share an abbreviation in any casing, so the outer `alt` order never decides between months |
| Months.AbbrevOf | src/month.rs:23-68 | any input starting with a month's abbreviation reads as that month, consuming the three letters |
| Months.AbbrevRoundTrip | src/month.rs:23-68 | each month's `Xxx` and `xxx` read back as that month |
| Months.AbbrevThen | src/month.rs:23-68 | whatever follows the first three letters of a word starting with an abbreviation is left over |
| Months.FullNameShadowed | src/month.rs:25 | a full name, in either casing, yields its month but consumes only its first three letters |
| Months.FirstThreeDecide | src/month.rs:23-68 | result and success depend only on the first three characters |
| Months.JanuaryLeavesRest | src/month.rs:83-85 | `January` yields `January` and leaves `uary` |
| Months.MayWhole | src/month.rs:40 | May has only `May` and `may`, and `may` is read whole |
| Months.UnknownFails | src/month.rs:256-262 | `unknown` fails with `Tag` at the input |
| Months.FullFirst | src/month.rs:24-27 | corrected per-month choice with the full names first: a success is that month and consumed a full name whole or an abbreviation |
| Months.ParseLongestFirst | src/month.rs:22-71 | corrected `Month::parse`: a success is some month's full-name-first reading |
| Months.FullNameRoundTrip | src/month.rs:83-88 | corrected parser: every full name, in both casings, reads as its month and is consumed whole |
| Months.LongestFirstAbbrevOf | src/month.rs:90-94 | corrected parser: an abbreviation not continued by the rest of its full name still reads as its month, consuming three letters |
| DateKinds.Parse | src/date_kind.rs:11-18 | a success began with its kind's keyword and consumed exactly it; every failure is `Tag` at the input |
| DateKinds.ParseOf | src/date_kind.rs:12-17 | `week`, `month`, `year` yield `Week`, `Month`, `Year` whatever follows |
| DateKinds.RoundTrip | src/date_kind.rs:12-17 | each kind's keyword reads back as that kind |
| DateKinds.FailsIff | src/date_kind.rs:12-17 | parsing fails exactly when the input starts with none of the three keywords |
| DateKinds.Examples | src/date_kind.rs:43-54 | `weeks` yields `Week` leaving `s`; `Week` and `unknown` fail with `Tag` at the input |
| TimeKinds.Parse | src/time_kind.rs:11-18 | a success began with its kind's keyword and consumed exactly it; every failure is `Tag` at the input |
| TimeKinds.ParseOf | src/time_kind.rs:12-17 | `hour`, `minute`, `second` yield `Hour`, `Minute`, `Second` whatever follows |
| TimeKinds.RoundTrip | src/time_kind.rs:12-17 | each kind's keyword reads back as that kind |
| TimeKinds.FailsIff | src/time_kind.rs:12-17 | parsing fails exactly when the input starts with none of the three keywords |
| TimeKinds.Examples | src/time_kind.rs:43-54 | `hours` yields `Hour` leaving `s`; `Hour` and `unknown` fail with `Tag` at the input |
| DateDurations.UnitWord | src/date_duration.rs:22-29 | a success consumed its unit's plural, or its singular where the plural does not follow; a failure is `Tag` at the word |
| DateDurations.Parse | src/date_duration.rs:17-39 | input not starting with a digit fails with `Digit` there; a success started with a digit and consumed something |
| DateDurations.AfterCount | src/date_duration.rs:21-36 | after the count, the count is kept and the unit consumes input |
| DateDurations.PluralOf | src/date_duration.rs:23-28 | `days`, `weeks`, `months` are read whole, whatever follows |
| DateDurations.SingularOf | src/date_duration.rs:23-28 | `day`, `week`, `month` are read whole when no letter follows |
| DateDurations.UnitWordOf | src/date_duration.rs:22-29 | a unit word is read whole as its unit: the plural whatever follows, the singular when no letter follows |
| DateDurations.AfterCountOf | src/date_duration.rs:21-34 | after the count, any blanks (none included) and a unit word give the duration of that unit |
| DateDurations.RoundTrip | src/date_duration.rs:17-39 | every duration (`u32` count, zero included, any blanks, either spelling) reads back as itself, leaving what follows: with the plural whatever follows, with the singular when no letter follows |
| DateDurations.CountOf | src/date_duration.rs:20 | the count is the leading digit run's value; a run beyond `u32` fails with `MapRes` at the input |
| DateDurations.MissingUnit | src/date_duration.rs:22-29 | a count with no unit after it fails with `Tag` where the unit should start |
| DateDurations.CountWithoutUnit | src/date_duration.rs:20-29 | a digit run followed by neither blank nor letter fails: `MapRes` beyond `u32`, else `Tag` after the digits |
| DateDurations.NoUnitAfterCount | src/date_duration.rs:21-29 | after the count, text starting with neither a blank nor a letter fails with `Tag` there |
| DateDurations.ZeroDays | src/date_duration.rs:48-49 | `0 days` is `Days(0)` with nothing left |
| DateDurations.SingularWeek | src/date_duration.rs:75-76 | `200 week` is `Weeks(200)` with nothing left |
| DateDurations.UnspacedMonths | src/date_duration.rs:96-97 | `300months` is `Months(300)` with nothing left |
| DateDurations.UnknownFails | src/date_duration.rs:100-111 | `unknown` fails with `Digit` at the input |
| TimeDurations.UnitSpellings | src/time_duration.rs:23-40 | one unit's five spellings, longest first: a success is that unit and consumed one of its spellings; a failure is `Tag` at the word |
| TimeDurations.UnitWord | src/time_duration.rs:22-46 | a success consumed one spelling of its unit; a failure is `Tag` at the word |
| TimeDurations.Parse | src/time_duration.rs:17-51 | input not starting with a digit fails with `Digit` there; a success started with a digit and consumed something |
| TimeDurations.AfterCount | src/time_duration.rs:21-48 | after the count, the count is kept and the unit consumes input |
| TimeDurations.UnitSpellingsOf | src/time_duration.rs:22-41 | within a unit, a spelling not followed by a letter is read whole, because longer spellings are tried first; the longest is read whole whatever follows |
| TimeDurations.UnitWordOf | src/time_duration.rs:22-46 | each of the fifteen spellings maps to its own unit (`seconds`…`s` to seconds, `minutes`…`m` to minutes, `hours`…`h` to hours) |
| TimeDurations.AfterCountOf | src/time_duration.rs:21-46 | after the count, any blanks (none included) and a unit spelling give the duration of that unit |
| TimeDurations.RoundTrip | src/time_duration.rs:17-51 | every duration (`u32` count, zero included, any blanks, any spelling) reads back as itself |
| TimeDurations.CountOf | src/time_duration.rs:20 | the count is the leading digit run's value; a run beyond `u32` fails with `MapRes` at the input |
| TimeDurations.ZeroSeconds | src/time_duration.rs:60-61 | `0 seconds` is `Seconds(0)` with nothing left |
| TimeDurations.ShortMinutes | src/time_duration.rs:84-85 | `100 mins` is `Minutes(100)` with nothing left |
| TimeDurations.LetterHours | src/time_duration.rs:108-109 | `300h` is `Hours(300)` with nothing left |
| TimeDurations.UnknownFails | src/time_duration.rs:112-123 | `unknown` fails with `Digit` at the input |
| AmPmTimes.Marked | src/am_pm_time.rs:31-64 | the tail of every form keeps the clock fields, and without a blank before the marker it fails with `Space` there |
| AmPmTimes.HourOnly | src/am_pm_time.rs:30-40 | `parse_hour_only`: a success has hour 1..=12 and minute = second = 0 |
| AmPmTimes.HourMinute | src/am_pm_time.rs:42-53 | `parse_hour_minute`: a success has hour 1..=12, minute below 60 and second 0 |
| AmPmTimes.All | src/am_pm_time.rs:55-74 | `parse_all`: a success has hour 1..=12 and minute, second below 60 |
| AmPmTimes.Parse | src/am_pm_time.rs:76-78 | `parse_am_pm_time`: every success is a valid 12-hour reading; when all three forms fail the error is the full form's |
| AmPmTimes.MarkedOf | src/am_pm_time.rs:31-64 | one or more blanks and any marker spelling are read whole |
| AmPmTimes.HourOnlyOnColon | src/am_pm_time.rs:31 | an hour followed by `:` fails the hour-only form with `Space` at the `:` |
| AmPmTimes.HourMinuteOnColon | src/am_pm_time.rs:44 | `h:m` followed by `:` fails the hour-minute form with `Space` at the `:` |
| AmPmTimes.HourReadingOf | src/am_pm_time.rs:30-40 | `h`, blanks and a marker read as `(h, 0, 0)` with that marker |
| AmPmTimes.HourMinuteReadingOf | src/am_pm_time.rs:42-77 | `h:m`, blanks and a marker read as `(h, m, 0)` once the hour-only form has failed at the `:` |
| AmPmTimes.AllFormOf | src/am_pm_time.rs:55-74 | the full form reads `h:m:s`, blanks and a marker |
| AmPmTimes.FullReadingOf | src/am_pm_time.rs:76-78 | `h:m:s`, blanks and a marker read as the full reading: the shorter forms, tried first, fail at the `:` |
| AmPmTimes.RoundTrip | src/am_pm_time.rs:30-78 | every valid reading, printed in any shape that fits it with any blanks and either marker casing, reads back as itself |
| AmPmTimes.MarkedFails | src/am_pm_time.rs:31-64 | blanks followed by no marker fail the tail |
| AmPmTimes.NoMarkerFails | src/am_pm_time.rs:76-78 | clock fields and blanks followed by no marker fail every form |
| AmPmTimes.NoBlank | src/am_pm_time.rs:31-63 | a marker right after the hour fails; the error is the full form's `Tag` where it expects `:` |
| AmPmTimes.HourOutOfRange | src/am_pm_time.rs:138-148 | `13 am` fails with `Verify` at the input |
| AmPmTimes.MinuteRejected | src/am_pm_time.rs:44-60 | for any digit spelling of an hour in 1..=12, `h:` followed by a bad minute fails the whole reading with the minute's error |
| AmPmTimes.SecondRejected | src/am_pm_time.rs:44-62 | for any digit spelling of an hour in 1..=12 and of a minute, `h:m:` followed by a bad second fails the whole reading with the second's error |
| AmPmTimes.MinuteOutOfRange | src/am_pm_time.rs:150-160 | `12:60 am` fails with `Verify` at `60 am` |
| AmPmTimes.SecondOutOfRange | src/am_pm_time.rs:162-172 | `12:58:60 am` fails with `Verify` at `60 am` |
| GmtTimes.Marked | src/gmt_time.rs:16-61 | the tail of every form keeps the clock fields, and without a blank before `GMT` it fails with `Space` there |
| GmtTimes.HourOnly | src/gmt_time.rs:31-38 | `parse_hour_only`: a success has hour below 24 and minute = second = 0 |
| GmtTimes.HourMinute | src/gmt_time.rs:40-50 | `parse_hour_minute`: a success has hour below 24, minute below 60 and second 0 |
| GmtTimes.All | src/gmt_time.rs:52-70 | `parse_all`: a success has hour below 24 and minute, second below 60 |
| GmtTimes.Parse | src/gmt_time.rs:72-74 | `parse_gmt_time`: every success is a valid 24-hour reading; when all three forms fail the error is the full form's |
| GmtTimes.MarkedOf | src/gmt_time.rs:32-61 | one or more blanks and upper-case `GMT` are read whole |
| GmtTimes.HourOnlyOnColon | src/gmt_time.rs:32 | an hour followed by `:` fails the hour-only form with `Space` at the `:` |
| GmtTimes.HourMinuteOnColon | src/gmt_time.rs:42 | `h:m` followed by `:` fails the hour-minute form with `Space` at the `:` |
| GmtTimes.HourReadingOf | src/gmt_time.rs:31-38 | `h`, blanks and `GMT` read as `(h, 0, 0)` |
| GmtTimes.HourMinuteReadingOf | src/gmt_time.rs:40-73 | `h:m`, blanks and `GMT` read as `(h, m, 0)` once the hour-only form has failed at the `:` |
| GmtTimes.AllFormOf | src/gmt_time.rs:52-70 | the full form reads `h:m:s`, blanks and `GMT` |
| GmtTimes.FullReadingOf | src/gmt_time.rs:72-74 | `h:m:s`, blanks and `GMT` read as the full reading: the shorter forms, tried first, fail at the `:` |
| GmtTimes.RoundTrip | src/gmt_time.rs:31-74 | every valid reading, printed in any shape that fits it with any blanks, reads back as itself |
| GmtTimes.MarkedFails | src/gmt_time.rs:16-32 | blanks followed by anything but `GMT` (lower case included) fail the tail |
| GmtTimes.NoMarkerFails | src/gmt_time.rs:72-74 | clock fields and blanks followed by anything but `GMT` fail every form |
| GmtTimes.NoBlank | src/gmt_time.rs:32-60 | `GMT` right after the hour fails; the error is the full form's `Tag` where it expects `:` |
| GmtTimes.HourOutOfRange | src/gmt_time.rs:128-138 | `24 GMT` fails with `Verify` at the input |
| GmtTimes.MinuteRejected | src/gmt_time.rs:42-57 | for any digit spelling of an hour below 24, `h:` followed by a bad minute fails the whole reading with the minute's error |
| GmtTimes.SecondRejected | src/gmt_time.rs:42-59 | for any digit spelling of an hour below 24 and of a minute, `h:m:` followed by a bad second fails the whole reading with the second's error |
| GmtTimes.MinuteOutOfRange | src/gmt_time.rs:140-150 | `12:60 GMT` fails with `Verify` at `60 GMT` |
| GmtTimes.SecondOutOfRange | src/gmt_time.rs:152-162 | `12:58:60 GMT` fails with `Verify` at `60 GMT` |
| ExactTimes.Parse | src/when_exact_time.rs:15-21 | the 12-hour branch is tried first and its value wrapped unchanged; the `GMT` branch is taken only when it fails; when both fail the error is the `GMT` branch's |
| ExactTimes.AmPmRoundTrip | src/when_exact_time.rs:17 | every 12-hour reading, printed, reads back as `AmPm` of itself |
| ExactTimes.GmtRoundTrip | src/when_exact_time.rs:16-19 | every `GMT` reading, printed, fails the 12-hour branch and reads back as `Gmt` of itself |
| ExactTimes.GmtFullOf | src/when_exact_time.rs:16-19 | `h:m:s GMT`, with any digit spellings including leading zeros, is a `GMT` reading |
| ExactTimes.AmVector | src/when_exact_time.rs:30-45 | `01:00:00 AM` yields `AmPm(1, 0, 0, Am)` with nothing left |
| ExactTimes.GmtVector | src/when_exact_time.rs:47-61 | `01:00:00 GMT` yields `Gmt(1, 0, 0)` with nothing left |
| ExactTimes.NoDigit | src/when_exact_time.rs:63-73 | input not starting with a digit, `unknown` among them, fails with the `GMT` branch's `Digit` at the input |
| RelativeTimes.Named | src/when_relative_time.rs:28-31 | `noon`, `morning`, `evening`, `midnight`: a success is a named time whose keyword was consumed exactly; a failure is `Tag` at the input |
| RelativeTimes.TheThen | src/when_relative_time.rs:36-75 | `the`, blanks, a direction word give that direction; input not starting with `the` fails with `Tag` there |
| RelativeTimes.Introduced | src/when_relative_time.rs:34-50 | the direction word, bare or after `the`; input starting with neither fails with `Tag` there |
| RelativeTimes.KindForm | src/when_relative_time.rs:32-55 | a direction, blanks, a clock unit; input starting with neither the word nor `the` fails with `Tag` there |
| RelativeTimes.ThisForm | src/when_relative_time.rs:56-59 | `this`, blanks, a clock unit; input not starting with `this` fails with `Tag` there |
| RelativeTimes.DurationForm | src/when_relative_time.rs:60-83 | a direction, blanks, a time duration; input starting with neither the word nor `the` fails with `Tag` there |
| RelativeTimes.Kinds | src/when_relative_time.rs:32-59 | the three unit alternatives: it reads exactly when one of `next`, `previous`, `this` with a unit does; the first that reads gives the result, the earlier ones having failed; when all fail the error is that of `this` |
| RelativeTimes.FirstKind | src/when_relative_time.rs:32-59 | the choice between the three unit readings: the constructor says which reading gave the result, the earlier ones having failed |
| RelativeTimes.Durations | src/when_relative_time.rs:60-83 | the two duration alternatives: it reads exactly when `next` or `previous` with a duration does; `NextDuration` carries the `next` form's duration and rest, `PreviousDuration` the `previous` form's after the `next` form failed; when both fail the error is that of `previous <duration>` |
| RelativeTimes.EitherDuration | src/when_relative_time.rs:60-83 | the choice between the two duration readings: which constructor results says which reading gave it, and that the earlier one failed |
| RelativeTimes.Parse | src/when_relative_time.rs:26-86 | the nine alternatives in order: it reads exactly when a named time, a unit form or a duration form does; a named result is the named reading, a unit result comes from the unit forms after the named ones failed, a duration result from the duration forms after both earlier groups failed; when all fail the error is the last alternative's |
| RelativeTimes.IntroducedOf | src/when_relative_time.rs:34-50 | `next`/`previous` are read bare or after `the` and any blanks |
| RelativeTimes.OtherFails | src/when_relative_time.rs:34-50 | after either lead, the other direction word does not match |
| RelativeTimes.NotNamedNorThis | src/when_relative_time.rs:28-57 | a direction phrase is neither a named time nor `this` |
| RelativeTimes.KindFormOf | src/when_relative_time.rs:32-55 | a direction, blanks and a clock unit read as that unit |
| RelativeTimes.KindsOf | src/when_relative_time.rs:32-59 | the three unit alternatives read a direction phrase as `NextKind`/`PreviousKind` of its unit |
| RelativeTimes.NamedOf | src/when_relative_time.rs:28-31 | each named time is matched by its own keyword only |
| RelativeTimes.NamedRoundTrip | src/when_relative_time.rs:28-31 | each of `noon`, `morning`, `evening`, `midnight` reads back as itself, whatever follows |
| RelativeTimes.KindRoundTrip | src/when_relative_time.rs:32-55 | `[the] next`/`[the] previous`, blanks and a clock unit read as `NextKind`/`PreviousKind`; the unit alternatives come before the duration ones |
| RelativeTimes.ThisFormOf | src/when_relative_time.rs:57 | `this`, blanks and a clock unit read as that unit |
| RelativeTimes.ThisNotOthers | src/when_relative_time.rs:28-55 | input starting with `this` is neither a named time nor a direction phrase |
| RelativeTimes.ThisRoundTrip | src/when_relative_time.rs:56-59 | `this`, blanks and a clock unit read back as `ThisKind` |
| RelativeTimes.ThisFormOnCount | src/when_relative_time.rs:57 | `this` and blanks followed by a count is not the `this` form |
| RelativeTimes.DurationsOnThis | src/when_relative_time.rs:60-83 | input starting with `this` fails both duration alternatives with `Tag` at the input |
| RelativeTimes.ThisNoDuration | src/when_relative_time.rs:56-83 | there is no `this <duration>` form: it fails with `Tag` at the input |
| RelativeTimes.KindFormOnCount | src/when_relative_time.rs:39-52 | a direction and blanks followed by a count is not a unit phrase |
| RelativeTimes.DurationFormAt | src/when_relative_time.rs:60-83 | a direction, blanks and text that reads as a duration give that duration |
| RelativeTimes.DurationRoundTrip | src/when_relative_time.rs:60-83 | `[the] next`/`[the] previous`, blanks and a duration read as `NextDuration`/`PreviousDuration`: the unit alternatives, tried first, fail on the count |
| RelativeTimes.DurationAfterLead | src/when_relative_time.rs:26-85 | a direction and blanks, then any text starting with a digit that reads as a duration: the whole phrase reads as that direction and duration |
| RelativeTimes.OtherWordsFail | src/when_relative_time.rs:27-52 | after a direction word, no named time, no `this` and no word of the other direction reads |
| RelativeTimes.CountAfterLead | src/when_relative_time.rs:39-83 | a direction, blanks and a duration starting with its count: the unit form fails and the duration form reads the duration |
| RelativeTimes.ParseAsDuration | src/when_relative_time.rs:26-85 | when no named time, no unit phrase and no opposite direction read, the reading is the duration in the given direction |
| RelativeTimes.NoKeyword | src/when_relative_time.rs:26-86 | input that cannot start any keyword fails with `Tag` at the input |
| RelativeTimes.UnknownFails | src/when_relative_time.rs:327-338 | `unknown` fails with `Tag` at the input |
| Times.Parse | src/when_time.rs:14-20 | a relative reading wins when there is one; an exact reading only when the relative one fails; on failure the error is the exact time's |
| Times.RelativeOf | src/when_time.rs:14-20 | whatever reads as a relative time reads as that relative time, since the relative alternative is tried first |
| Times.ExactIffDigit | src/when_time.rs:14-20 | a time reads as exact exactly when the input starts with a digit: the two alternatives never compete |
| Times.DigitIsExact | src/when_time.rs:14-20 | on input starting with a digit the exact reading decides the result, success or error |
| Times.AmPmRoundTrip | src/when_time.rs:14-20 | every 12-hour reading, printed, reads back as that exact time |
| Times.GmtRoundTrip | src/when_time.rs:14-20 | every `GMT` reading, printed, reads back as that exact time |
| Times.RelativeVector | src/when_time.rs:32-44 | `the previous 10 mins` is the relative duration of 10 minutes, consuming everything |
| Times.ExactVector | src/when_time.rs:46-60 | `10:01:30 GMT` is the exact `GMT` time 10:01:30, consuming everything |
| ExactDates.ParseWith | src/when_exact_date.rs:16-50 | a success has day in 1..=31 and month in 1..=12; input not starting with a digit fails with `Digit` there |
| ExactDates.AfterDay | src/when_exact_date.rs:22-45 | a success keeps the day and has month in 1..=12; a missing separator fails with `Tag` there |
| ExactDates.Parse | src/when_exact_date.rs:52-54 | a success is a valid date; a failure is exactly the slash form's failure; input not starting with a digit fails with `Digit` there |
| ExactDates.AfterDayOf | src/when_exact_date.rs:22-45 | separator, month, separator, year read as that month and year, keeping the day |
| ExactDates.ParseWithOf | src/when_exact_date.rs:16-50 | each form reads its own spelling as the date of the digit fields, leading zeros included |
| ExactDates.DashFailsOnSlash | src/when_exact_date.rs:16-32 | the dash form fails on a slash after the day |
| ExactDates.ParseOf | src/when_exact_date.rs:52-54 | both spellings read as the same date whatever non-digit text follows |
| ExactDates.RoundTrip | src/when_exact_date.rs:16-54 | every date the parser can produce, printed with either separator, reads back; day 31 is taken with every month |
| ExactDates.WrongSecondSeparator | src/when_exact_date.rs:26-44 | a form fails with `Tag` at a second separator that is not its own |
| ExactDates.WrongFirstSeparator | src/when_exact_date.rs:22-40 | a form fails with `Tag` at a first separator that is not its own |
| ExactDates.MixedFails | src/when_exact_date.rs:52-54 | mixed separators fail, reporting the slash form's `Tag` error |
| ExactDates.DayRejected | src/when_exact_date.rs:19-39 | a day outside 1..=31 fails at the input with `Verify`, or `MapRes` beyond `u8` |
| ExactDates.BadMonth | src/when_exact_date.rs:23-43 | a month outside 1..=12 fails a form at the month with `Verify`, or `MapRes` beyond `u8` |
| ExactDates.MonthRejected | src/when_exact_date.rs:41-54 | after a slash, a bad month fails the date at the month |
| ExactDates.MonthErrorHidden | src/when_exact_date.rs:52-54 | after a dash, a bad month's error is replaced by the slash form's `Tag` at the dash |
| ExactDates.DashVector | src/when_exact_date.rs:60-74 | `01-01-2004` is 1 January 2004 |
| ExactDates.SlashVector | src/when_exact_date.rs:76-90 | `01/01/2004` is 1 January 2004 |
| ExactDates.NoCalendarCheck | src/when_exact_date.rs:37-45 | `31/02/2004` is accepted: the calendar is not consulted |
| ExactDates.MonthThirteen | src/when_exact_date.rs:93-101 | `01/13/2004` fails with `Verify` at `13/2004` |
| ExactDates.MonthZero | src/when_exact_date.rs:103-110 | `01/00/2004` fails with `Verify` at `00/2004` |
| ExactDates.DayThirtyTwo | src/when_exact_date.rs:114-122 | `32/12/2004` fails with `Verify` at the input |
| ExactDates.DayZero | src/when_exact_date.rs:124-131 | `00/01/2004` fails with `Verify` at the input |
| RelativeDates.Named | src/when_relative_date.rs:32-33 | a success is `yesterday` or `tomorrow` with exactly that keyword consumed; a failure is `Tag` at the input |
| RelativeDates.DayForm | src/when_relative_date.rs:34-45 | input not starting with the anchor word fails with `Tag` there |
| RelativeDates.KindForm | src/when_relative_date.rs:46-57 | input not starting with the anchor word fails with `Tag` there |
| RelativeDates.AgoForm | src/when_relative_date.rs:58-61 | input not starting with a digit fails with `Digit` there |
| RelativeDates.InForm | src/when_relative_date.rs:62-65 | input not starting with `in` fails with `Tag` there |
| RelativeDates.Days | src/when_relative_date.rs:34-45 | the three weekday alternatives: it reads exactly when one of `last`, `next`, `this` with a weekday does; the first that reads gives the result; when all fail the error is that of `this` |
| RelativeDates.FirstDay | src/when_relative_date.rs:34-45 | the choice between the three weekday readings: the constructor says which reading gave the result, the earlier ones having failed |
| RelativeDates.Kinds | src/when_relative_date.rs:46-57 | the three unit alternatives: it reads exactly when one of `last`, `next`, `this` with a unit does; the first that reads gives the result; when all fail the error is that of `this` |
| RelativeDates.FirstKind | src/when_relative_date.rs:46-57 | the choice between the three unit readings: the constructor says which reading gave the result, the earlier ones having failed |
| RelativeDates.Durations | src/when_relative_date.rs:58-65 | the two duration alternatives: it reads exactly when `<duration> ago` or `in <duration>` does; `Ago` carries the first form's duration and rest, `In` the second's after the first failed; when both fail the error is that of `in <duration>` |
| RelativeDates.Parse | src/when_relative_date.rs:30-68 | the ten alternatives in order: it reads exactly when one of the four groups does; `Yesterday`/`Tomorrow` are the named reading, weekday results come from the weekday forms after the named ones failed, unit results from the unit forms after both earlier groups failed, `Ago`/`In` from the duration forms after all three failed; when all fail the error is that of `in <duration>` |
| RelativeDates.AnchorOthers | src/when_relative_date.rs:32-65 | an anchor word is not `yesterday`/`tomorrow`, no other anchor, not `in`, not a digit |
| RelativeDates.DayFormOf | src/when_relative_date.rs:34-45 | an anchor, blanks and a weekday read as that weekday |
| RelativeDates.NamedRoundTrip | src/when_relative_date.rs:32-33 | `yesterday` and `tomorrow` read back as themselves, whatever follows |
| RelativeDates.DayRoundTrip | src/when_relative_date.rs:34-45 | `last`/`next`/`this`, blanks and a weekday read back as that anchor's weekday variant |
| RelativeDates.KindIsNotWeekday | src/when_relative_date.rs:35-47 | no calendar unit word starts like a weekday name |
| RelativeDates.KindFormOf | src/when_relative_date.rs:34-57 | an anchor, blanks and a unit fail the weekday form and read as that unit in the unit form |
| RelativeDates.KindRoundTrip | src/when_relative_date.rs:34-57 | `last`/`next`/`this`, blanks and a unit read back as that anchor's unit variant |
| RelativeDates.AgoFormOf | src/when_relative_date.rs:58-61 | a duration, blanks and `ago` read as that duration |
| RelativeDates.AgoAfter | src/when_relative_date.rs:58-61 | whatever reads as a duration followed by blanks and `ago` reads as `<duration> ago`, leaving what follows `ago` |
| RelativeDates.DigitNotKeyword | src/when_relative_date.rs:32-57 | input starting with a digit fails every keyword alternative |
| RelativeDates.AgoRoundTrip | src/when_relative_date.rs:58-61 | `<duration> ago` reads back as `Ago` of that duration |
| RelativeDates.InFormOf | src/when_relative_date.rs:62-65 | `in`, blanks and a duration read as that duration |
| RelativeDates.NoAnchor | src/when_relative_date.rs:32-57 | input starting with none of the first eight keywords fails them all |
| RelativeDates.InNotOthers | src/when_relative_date.rs:32-61 | input starting with `in` fails every alternative before the last |
| RelativeDates.InRoundTrip | src/when_relative_date.rs:62-65 | `in <duration>` reads back as `In` of that duration when no letter follows |
| RelativeDates.NoKeyword | src/when_relative_date.rs:30-68 | input that starts no alternative fails with `Tag` at the input |
| RelativeDates.AgoMissing | src/when_relative_date.rs:58-65 | a duration without `ago` fails with the `in` form's `Tag` at the input |
| RelativeDates.UnknownFails | src/when_relative_date.rs:258-269 | `unknown` fails with `Tag` at the input |
| Dates.Parse | src/when_date.rs:15-21 | a relative reading wins when there is one; an exact reading only when the relative one fails; on failure the error is the exact date's |
| Dates.NoUnitAfterCount | src/when_relative_date.rs:58-61 | a digit run followed by a date separator fails the `<duration> ago` form |
| Dates.CountThenSeparator | src/when_date.rs:15-21 | a digit run followed by a date separator is never a relative date |
| Dates.ExactOf | src/when_date.rs:15-21 | both spellings of an exact date read as that exact date, leading zeros included |
| Dates.ExactRoundTrip | src/when_date.rs:15-21 | every exact date, printed with either separator, reads back as an exact date |
| Dates.AgoRoundTrip | src/when_date.rs:15-21 | `<duration> ago` reads back as a relative date |
| Dates.NoDate | src/when_date.rs:15-21 | input that starts neither a relative keyword nor a digit fails with the exact date's `Digit` at the input |
| Dates.YesterdayVector | src/when_date.rs:32-37 | `yesterday` is the relative date `Yesterday` |
| Dates.AgoVector | src/when_date.rs:39-46 | `10 days ago` is the relative date 10 days ago |
| Dates.SlashVector | src/when_date.rs:50-62 | `10/10/2001` is the exact date 10 October 2001 |
| Dates.DashVector | src/when_date.rs:64-75 | `10-10-2001` is the exact date 10 October 2001 |
| Dates.UnknownFails | src/when_date.rs:79-89 | `unknown` fails with `Digit` at the input |
| UtcOffsets.SignOf | src/when_utc_offset.rs:28-34 | `+` or `-` is read as its sign, consuming one character; anything else fails with `Tag` at the input |
| UtcOffsets.LocalHms | src/when_utc_offset.rs:36-61 | the private `parse_hms` gives on every input exactly the result of the shared 24-hour reader of src/parse_hms.rs:39-56 |
| UtcOffsets.Parse | src/when_utc_offset.rs:24-74 | a success consumes the whole input and holds a 24-hour reading; input not starting with `UTC` fails with `Tag` there |
| UtcOffsets.AfterSign | src/when_utc_offset.rs:36-74 | a success keeps the sign, holds a 24-hour reading and leaves nothing |
| UtcOffsets.PrefixOf | src/when_utc_offset.rs:63-65 | after `UTC` and a sign, the clock reading alone decides the result |
| UtcOffsets.RoundTrip | src/when_utc_offset.rs:47-74 | every offset the parser can produce, printed in any shape that fits it, reads back whole |
| UtcOffsets.Trailing | src/when_utc_offset.rs:64 | any text after a complete reading fails the offset with `Eof` at that text |
| UtcOffsets.NoSign | src/when_utc_offset.rs:28-34 | `UTC` without a sign fails with `Tag` right after it |
| UtcOffsets.HourRejected | src/when_utc_offset.rs:36-41 | an hour of 24 or more fails at the hour, with `Verify`, or `MapRes` beyond `u8` |
| UtcOffsets.MinuteRejected | src/when_utc_offset.rs:43-54 | for either sign and any digit spelling of an hour below 24, once `:` follows the hour a bad minute fails the offset with the minute's error |
| UtcOffsets.SecondRejected | src/when_utc_offset.rs:43-59 | for either sign and any digit spelling of an hour below 24 and of a minute, once `:` follows the minute a bad second fails the offset with the second's error |
| UtcOffsets.HourVector | src/when_utc_offset.rs:80-95 | `UTC+1` is plus 1:00:00 |
| UtcOffsets.HourMinuteVector | src/when_utc_offset.rs:97-112 | `UTC-1:30` is minus 1:30:00 |
| UtcOffsets.FullVector | src/when_utc_offset.rs:114-129 | `UTC+1:30:24` is plus 1:30:24 |
| UtcOffsets.HourTwentyFour | src/when_utc_offset.rs:131-141 | `UTC+24` fails with `Verify` at `24` |
| UtcOffsets.MinuteSixty | src/when_utc_offset.rs:143-154 | `UTC+12:60` fails with `Verify` at `60` |
| UtcOffsets.SecondSixty | src/when_utc_offset.rs:156-167 | `UTC+12:58:60` fails with `Verify` at `60` |
| NamedTimezones.Name | src/when_named_timezone.rs:13-15 | a success is the longest non-empty run of letters and `_`; input not starting with one fails with `TakeWhile1` there |
| NamedTimezones.Parse | src/when_named_timezone.rs:17-25 | a success splits the consumed text into region, `/`, city, both whole names, and leaves no name character behind |
| NamedTimezones.NameOf | src/when_named_timezone.rs:13-15 | a whole name followed by a non-name character is read exactly |
| NamedTimezones.RoundTrip | src/when_named_timezone.rs:17-25 | every zone with two names reads back as itself, leaving what follows |
| NamedTimezones.NoRegion | src/when_named_timezone.rs:18 | input not starting with a name fails with `TakeWhile1` at the input |
| NamedTimezones.NoSlash | src/when_named_timezone.rs:18 | a name not followed by `/` fails with `Tag` right after the name |
| NamedTimezones.NoCity | src/when_named_timezone.rs:18 | a `/` not followed by a name fails with `TakeWhile1` after the `/` |
| NamedTimezones.AddisVector | src/when_named_timezone.rs:31-41 | `Africa/Addis_Ababa` is region `Africa`, city `Addis_Ababa` |
| NamedTimezones.LondonVector | src/when_named_timezone.rs:43-53 | `Europe/London` is region `Europe`, city `London` |
| NamedTimezones.NewYorkVector | src/when_named_timezone.rs:55-65 | `America/New_York` is region `America`, city `New_York` |
| NamedTimezones.UnknownFails | src/when_named_timezone.rs:67-77 | `unknown` fails with `Tag` at the end of the input |
| Timezones.Parse | src/when_timezone.rs:15-25 | an offset wins when there is one; a name only when the offset fails; on failure the error is the name's |
| Timezones.OffsetRoundTrip | src/when_timezone.rs:15-25 | every offset, printed, reads back whole as an offset zone |
| Timezones.NameIsNoOffset | src/when_timezone.rs:15-25 | a zone name never reads as an offset, even one starting with `UTC` |
| Timezones.NamedRoundTrip | src/when_timezone.rs:15-25 | every zone with two names reads back as a named zone |
| Timezones.SignIsNoSlash | src/when_named_timezone.rs:18 | `UTC` followed by a sign fails the name reader with `Tag` at the sign |
| Timezones.OffsetThenText | src/when_timezone.rs:15-25 | text after an offset fails both alternatives; the error is the name's `Tag` at the sign |
| Timezones.OffsetVector | src/when_timezone.rs:36-51 | `UTC+3` is the offset plus 3:00:00 |
| Timezones.NamedVector | src/when_timezone.rs:53-64 | `Africa/Addis_Ababa` is a named zone |
| Timezones.UnknownFails | src/when_timezone.rs:66-76 | `unknown` fails with `Tag` at the end of the input |
| Inputs.Keyword | src/when_input.rs:52-54 | `space1, tag(word), space1`: a success is the two blank runs around the word, and the rest starts at a non-blank; input not starting with a blank fails with `Space` there |
| Inputs.KeywordOf | src/when_input.rs:52-54 | blanks, the word, blanks and a non-blank read with exactly those blank runs |
| Inputs.DateAndTimeForm | src/when_input.rs:31-34 | a success is the date read first, then `at` between blank runs, then a time giving the time and the rest; a failing date fails it with the date's error |
| Inputs.AtTime | src/when_input.rs:32 | after the date: it reads exactly when `at` between blank runs is followed by a time, which gives the time and the rest; the date is kept; no blank fails with `Space` there |
| Inputs.ParseTime | src/when_input.rs:29-39 | date and time win when they read; the date alone only when that fails; the time alone only when no date reads; on failure the error is the time's |
| Inputs.Unzoned | src/when_input.rs:45-48 | the unzoned alternative reads exactly when the time part ends the input, giving that time part, no timezone and nothing left |
| Inputs.UnzonedOf | src/when_input.rs:45-48 | a time part that ends the input reads as a phrase with that time part and no timezone |
| Inputs.Zoned | src/when_input.rs:49-61 | a success is the time part, then `in` between blank runs, then a timezone giving the zone and the rest; a failing time part fails it with that error |
| Inputs.InZone | src/when_input.rs:52-55 | after the time part: it reads exactly when `in` between blank runs is followed by a timezone, which gives the zone and the rest; the time part is kept; no blank fails with `Space` there |
| Inputs.Parse | src/when_input.rs:43-64 | the phrase has no timezone exactly when the time part ends the input; it has one exactly when the time part does not end the input and the zoned alternative reads, and then it is that reading; a success carries the time part's reading; a failure is the zoned alternative's |
| Inputs.OnlyDateOf | src/when_input.rs:32-35 | a date not followed by blanks and `at` reads as the date alone |
| Inputs.NoAtAfter | src/when_input.rs:32 | blanks (possibly none), then text that starts with neither a blank nor `at`: the `at` keyword does not read |
| Inputs.DateAndTimeOf | src/when_input.rs:31-34 | a date, blanks, `at`, blanks and a time read as both |
| Inputs.AtTimeOf | src/when_input.rs:32-34 | after a date, blanks, `at`, blanks and a time read as that time |
| Inputs.ZonedOf | src/when_input.rs:49-61 | a time part, blanks, `in`, blanks and a timezone read as a zoned phrase, leaving what follows the timezone |
| Inputs.InZoneOf | src/when_input.rs:52-55 | after a time part, blanks, `in`, blanks and a timezone read as that timezone |
| Inputs.ParseWhole | src/when_input.rs:43-64 | the corrected phrase reader succeeds exactly when the phrase reads and nothing is left; leftover text fails with `Eof` there |
| Inputs.TrailingAfterName | src/when_input.rs:49-61 | as written, text after a zone name is left over and the phrase is accepted; the corrected reader rejects it with `Eof` |
| Inputs.DateAloneOf | src/when_input.rs:35-48 | a date that ends the input is a phrase with the date alone and no timezone |
| Inputs.InAlone | src/when_input.rs:35-48 | `in <duration>` alone is a date with no timezone |
| Inputs.DateOnlyVector | src/when_input.rs:82-97 | `in 10 days` is the date in 10 days, with no timezone |
| Inputs.TimeAloneOf | src/when_input.rs:36-48 | a time that ends the input, where no date reads, is a phrase with the time alone |
| Inputs.PreviousAlone | src/when_input.rs:36-48 | `previous <duration>` alone is a time with no timezone |
| Inputs.RelativeAloneOf | src/when_input.rs:36-48 | a relative time that ends the input, where no date reads, is a phrase with that time alone |
| Inputs.UndatedRelativeAloneOf | src/when_input.rs:30-48 | a relative time that ends the input and starts with a character no date starts with is a phrase with that time alone |
| Inputs.TimeOnlyVector | src/when_input.rs:99-115 | `previous 10 hours` is the time 10 hours back, with no timezone |
| Inputs.TheDurationTime | src/when_time.rs:14-20 | `the next`/`the previous` and a duration read as a relative time to the end |
| Inputs.AgoAtDuration | src/when_input.rs:31-48 | `<duration> ago at the next/previous <duration>` is a date and a time with no timezone |
| Inputs.DateAndTimeVector | src/when_input.rs:117-136 | `10 days ago at the next 10 hours` is a date and a time with no timezone |
| Inputs.TheKindTime | src/when_time.rs:14-20 | `the next`/`the previous` and a clock unit read as a relative time, leaving what follows |
| Inputs.TheRelativeTime | src/when_time.rs:14-20 | a relative time introduced by `the` reads as a time and starts with no blank |
| Inputs.InNamed | src/when_input.rs:49-61 | `in Region/City` after the time part reads as that named zone |
| Inputs.NamedZone | src/when_timezone.rs:15-25 | a zone name reads as a named timezone and starts with no blank |
| Inputs.AgoAtKindIn | src/when_input.rs:31-61 | `<duration> ago at the next/previous <unit> in Region/City` is a date, a time and a named zone |
| Inputs.ZonedVector | src/when_input.rs:138-158 | `10 days ago at the previous hour in Africa/Addis_Ababa` is a date, a time and the named zone |
| Inputs.TomorrowInThen | src/when_input.rs:49-61 | `tomorrow in Region/City` followed by more text is accepted as written with that text left over; the corrected reader rejects it |
| Inputs.TrailingVector | src/when_is.rs:10-13 | `tomorrow in Europe/London please` is accepted leaving ` please`, which the caller discards; the corrected reader fails with `Eof` at ` please` |

## Left out

- src/when_is.rs: the PostgreSQL entry points. They call `to_timestamp`, which is not part of this model, use jiff timezones and convert seconds to `f64`. Only the fact that `when_is` and `seconds_at` drop the unparsed rest (lines 11-13, 37) enters the model, in the finding below.
- Resolving a phrase to an instant (calendar arithmetic, weekday offsets, zone lookup, daylight saving): that code is not part of this model and depends on jiff and the IANA database.
- src/lib.rs: the PostgreSQL module boilerplate and an older, conflicting copy of the syntax tree types. The per-file types are modelled instead.
- src/nom_result.rs, `VerboseError`, `convert_error` and the snapshot of the rendered error message (src/month.rs:256-262): diagnostic formatting. Errors are modelled as the remaining input and the error kind only; `Months.UnknownFails` states just that part of the snapshot.
- nom's `Incomplete` and `Failure` outcomes: every parser here is a `complete` parser that only ever returns `Error`, so `Parsed` has one failure form.
- NamedTimezones.Name: Rust's `char::is_alphabetic` is Unicode-wide; the model uses ASCII letters (`Nom.IsLetter`), so names with non-ASCII letters are not covered.
- String slices are modelled as `seq<char>`; byte offsets and UTF-8 boundaries play no part, since every literal in the grammar is ASCII.

## Findings

| source | as written | input that shows it | evidently intended | confidence | as-written member | corrected member |
|---|---|---|---|---|---|---|
| src/month.rs:25 | each month tries `Jan`/`jan` before `January`/`january`, so a full name matches only its abbreviation and the rest of the word is left over | `January` reads as `January` leaving `uary` | full names are consumed whole (they are listed as accepted spellings) | not executed | Months.JanuaryLeavesRest | Months.FullNameRoundTrip |
| src/when_input.rs:49-61 | the zoned alternative has no `eof` after the timezone, unlike the unzoned one (line 45) and the offset (`all_consuming`, src/when_utc_offset.rs:64); `when_is` then drops the rest (src/when_is.rs:13) | `tomorrow in Europe/London please` is accepted as tomorrow in Europe/London, leaving ` please` | trailing text after a zone name is rejected, as it is after an offset or a phrase with no zone | not executed | Inputs.TrailingVector | Inputs.ParseWhole |
