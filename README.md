# Lottery draws joined to weather observations: a Dafny model

The repository collects two time series into PostgreSQL. One is the draws of the "4x20" lottery, scraped from an archive page. The other is weather observations from OpenWeather. A batch pass then joins every draw to the weather observation nearest in time. A Telegram bot relays query results as chat messages.

This project models the parts of that system with real logic, and proves what they promise:

- `Common` (common.dfy) holds the shared values: the draw row, an optional value, and ASCII decimal digits. It reads decimal digit strings the way `int()` does, writes them the way `str()` does, and proves that these two round-trip.
- `Matcher` (matcher.dfy) models the nearest-time join `compare_and_insert_data` of tab_to_re.py.
  - The weather list is an `array` of records. Each record carries the optional "minutes" field that the scan writes into it.
  - The result table is a class whose `rows` the pass replaces on commit and leaves alone on rollback.
  - The methods are proved against specification functions: `BestOf`/`Closest` for the choice, `Join` for the rows, and `Misses`/`NearestOf` for the diagnostics.
  - Lemmas tie those functions to independent statements: minimality, the tie rule, the tolerance boundary, counts, order and uniqueness.
- `Chat` (chat.dfy) models the formatting, splitting and labelling in `BotDataSender` of data_sender_bot.py.
  - `split_long_message` is a loop proved against a recursive function `Split`. Every part it gives is within the limit, and the parts spell out the text again with the dropped whitespace put back.
  - `format_data_for_telegram` has nested loops, proved against a `Formatted` function.
  - `send_to_telegram` labels the parts and decides success.
- `Weather` (weather.dfy) models the classifiers of weather_api.py and the way `get_data_weather` checks a reply and fills in defaults.
- `LotteryParser` (lottery.dfy) models the scraper of lottery_parser.py.
  - `parse_draw_number` reads a draw number.
  - `split('\n')` and `isdigit` pick the ball tokens out of a cell.
  - Rows are filtered and turned into draw records.
  - The draw table is a class over a map, with insert-if-absent.
  - The row loop of `parser` is proved against a fold, `Ingest`.

Times are integer seconds. The database, the browser, HTTP, the clock, `parse_datetime` and `pa_to_mmhg` are parameters of the model or a `Fault` value chosen by the caller.

Two details of `compare_and_insert_data` shape the model:

- The running minimum starts at eleven minutes (tab_to_re.py:94). With the ten-minute tolerance and the strict `<`, the first record within ten minutes always replaces it. `ScanWeather` keeps that starting value, and the specification function `BestOf` it is proved against needs no separate empty state.
- The pass does not return the unmatched draws. It counts them and prints a diagnostic for each (tab_to_re.py:139-153). `Outcome.Committed` carries both, as `unmatched` and `misses`.

## Model

| member | source | states |
|---|---|---|
| Common.ReadShow | data_sender_bot.py:121 | Reading back the decimal form of a number gives the number, so the numbers in a label can be recovered |
| Matcher.BestOfMeetsSpec | tab_to_re.py:93-104 | After scanning the first n records: nothing is chosen exactly when none is within ten minutes. Otherwise the chosen record is within ten minutes, no record is nearer, and every earlier in-range record is strictly farther |
| Matcher.ClosestInUnique | tab_to_re.py:96-103 | At most one record meets the nearest-and-first description, so the choice is determined |
| Matcher.ClosestIff | tab_to_re.py:92-104 | The scan chooses record j if and only if j is the first in-range record at minimal distance. It chooses nothing if and only if no record is within ten minutes |
| Matcher.ToleranceBoundary | tab_to_re.py:94-101 | A record exactly ten minutes away is chosen; one ten minutes and one second away is not |
| Matcher.TieGoesToEarlier | tab_to_re.py:96-103 | With weather sorted by time, of two in-range records at the same distance the earlier one wins |
| Matcher.CountsAddUp | tab_to_re.py:106-140 | Matched rows plus unmatched draws equal the number of draws |
| Matcher.OneMoreDraw | tab_to_re.py:106-136 | One more draw adds at most one row, keeps the earlier rows, and adds a row exactly when that draw is matched |
| Matcher.JoinAppend | tab_to_re.py:92-136 | The rows of two runs of draws one after the other are the rows of each run, one after the other |
| Matcher.InsertOneDraw | tab_to_re.py:39-136 | A new draw inserted anywhere in the draw list, as the archive scraper stores older draws too, keeps the other rows in order and adds its own row at its place if it has one: the row count grows by 0 or 1 |
| Matcher.JoinPrefixMonotone | tab_to_re.py:92-136 | A longer prefix of the draws never gives fewer rows |
| Matcher.JoinRowsAreMatches | tab_to_re.py:104-135 | Every row belongs to an input draw and holds that draw's chosen record. Its minutes field is the distance in whole minutes, between 0 and 10 |
| Matcher.MatchedIffEligible | tab_to_re.py:101-106 | A draw gets a row exactly when some weather record is within ten minutes |
| Matcher.AtMostOneRowPerDraw | tab_to_re.py:92-136 | With distinct draw numbers, no draw number appears in two rows |
| Matcher.JoinInDrawOrder | tab_to_re.py:39-136 | With draws in time order, the rows are in time order too |
| Matcher.SharedWeather | tab_to_re.py:92-105 | Nothing marks a record as used: two draws ten minutes apart can both match the record between them, each with its own minutes |
| Matcher.LeastGap | tab_to_re.py:145-149 | The head of the sorted (difference, time) list is one of the gaps and is least in tuple order |
| Matcher.MissIsNearestAndFar | tab_to_re.py:142-151 | The diagnostic of an unmatched draw names a real record, is nearest in tuple order (earlier time on ties), and is ten minutes or more away |
| Matcher.WorkedExample | tab_to_re.py:92-136 | Draw at 10:00 with weather at 10:07 and 10:30 gives one row, matched to 10:07, with 7 minutes |
| Matcher.ScanWeather | tab_to_re.py:93-104 | The inner scan returns `Closest`. The chosen dict carries its final distance in minutes. Each dict is stamped exactly as the running-best rule says (the line-104 mutation), and no record's data changes |
| Matcher.MatchDraw | tab_to_re.py:92-135 | The row built for one draw, read from the mutated shared dict, is `RowFor` of that draw, and the weather records stay the same |
| Matcher.NearestWeather | tab_to_re.py:142-149 | The diagnostic loop and sort compute `NearestOf`: none without weather data, otherwise the least (difference, time) pair in minutes |
| Matcher.LoadWeather | tab_to_re.py:69-80 | The fetched rows become a fresh list of dicts, in order, none carrying minutes yet |
| Matcher.JoinDraws | tab_to_re.py:89-153 | The loop over the draws builds exactly the rows of `Join`, the diagnostics of `Misses` and counters equal to their lengths. The insert numbered k raises exactly when the join has more than k rows, and the weather records stay the same |
| Matcher.CompareAndInsert | tab_to_re.py:27-167 | No connection: nothing happens. It commits exactly when nothing fails, or when the failing insert lies beyond the last row. On commit the table is exactly `Join`, with correct matched, unmatched and total counts and diagnostics; otherwise the table is unchanged |
| Chat.LStrip | data_sender_bot.py:109 | The result is a suffix of the input, what is removed is all whitespace, and the result does not start with whitespace |
| Chat.RFind | data_sender_bot.py:102-104 | Returns the last start of the pattern wholly inside s[..end], or -1 exactly when there is none |
| Chat.CutPoint | data_sender_bot.py:101-106 | The cut lies within the limit: at the last blank line if there is one, else at the last line break, else at the limit |
| Chat.CutShrinks | data_sender_bot.py:96-109 | Each pass leaves a strictly shorter text, even a cut at position 0, so the loop ends |
| Chat.Cut | data_sender_bot.py:108-109 | One pass splits the text into the part sent, whitespace dropped, and the text left, which concatenate to the text |
| Chat.ChunksBounded | data_sender_bot.py:96-109 | Every part the loop produces is within the limit |
| Chat.ChunksReassemble | data_sender_bot.py:96-109 | The loop's parts, each followed by the whitespace dropped after it, spell out the text |
| Chat.SplitProperties | data_sender_bot.py:90-111 | A short text is the single part. Otherwise there is at least one part, each within the limit, and parts plus dropped whitespace rebuild the text |
| Chat.SplitLongMessage | data_sender_bot.py:90-111 | The loop computes `Split`; a short text comes back alone and every part is within the limit |
| Chat.Label | data_sender_bot.py:121 | The label is "Часть ", a digit string worth the 1-based part number, "/", a digit string worth the part count, and a blank line |
| Chat.Outgoing | data_sender_bot.py:120-121 | The part always ends the posted text, and the text is longer than the part exactly when there is more than one part |
| Chat.RaiseAt | data_sender_bot.py:129-142 | Gives the index of the first post whose request raises, or the number of posts when none does |
| Chat.RaiseStops | data_sender_bot.py:140-142 | Once a post raises, later posts do not change where the first raise is |
| Chat.SendParts | data_sender_bot.py:119-138 | Posts up to and including the first that raises; each text is labelled "Часть i/n" when there are several parts; success exactly when every post answered 200 |
| Chat.SendToTelegram | data_sender_bot.py:113-142 | The message is cut with the 4000 limit and posted as `SendParts` says |
| Chat.ShortMessageUnlabelled | data_sender_bot.py:115-121 | A message within the limit is posted once, as it is, without a label |
| Chat.LabelInjective | data_sender_bot.py:120-121 | Two equal labels have the same part number and part count |
| Chat.ShownValue | data_sender_bot.py:79-80 | A truthy value longer than 50 becomes exactly 50 characters: its first 47 and "...". All other values are shown unchanged |
| Chat.Footer | data_sender_bot.py:85-86 | The "... и еще" line appears exactly when there are more records than shown, and it carries a digit string worth the number of records not shown |
| Chat.RecordNumbering | data_sender_bot.py:75-82 | Record i of those shown appears as block "Запись #i+1", between the blocks before and after it |
| Chat.OnlyShownRecordsMatter | data_sender_bot.py:65-88 | Records past the limit affect the text only through the total count |
| Chat.AppendRecord | data_sender_bot.py:76-82 | The inner loop appends exactly the heading, one line per field, and an empty line |
| Chat.FormatDataForTelegram | data_sender_bot.py:65-88 | The nested loops compute `Formatted`; the text is the no-data message exactly when there are no records |
| Weather.PrecipitationType | weather_api.py:106-122 | Each of the six names is given exactly for its id range. All other ids give "перем облачность" |
| Weather.RoundDiv45 | weather_api.py:103 | round(d/45) is the integer r with 45r-22 <= d <= 45r+22 |
| Weather.RoundDiv45Unique | weather_api.py:103 | That integer is unique |
| Weather.DirectionIndex | weather_api.py:103 | The index is always one of 0..7 |
| Weather.WindDirection | weather_api.py:95-104 | A missing degree gives "неизвестно", exactly then. Any degree gives one of the eight names |
| Weather.IndexFullTurn | weather_api.py:103 | Adding a whole number of full turns leaves the index unchanged |
| Weather.FullTurn | weather_api.py:101-104 | Degrees d and d + 360q give the same direction |
| Weather.IndexBySector | weather_api.py:103 | Index k is given exactly to the degrees whose angle mod 360 lies in sector k |
| Weather.DirectionsDistinct | weather_api.py:101-102 | The eight names are pairwise different |
| Weather.DirectionBySector | weather_api.py:101-104 | A degree gets direction k exactly when its angle mod 360 lies within 22 degrees of 45k, with north covering 338..22 |
| Weather.SectorBoundaries | weather_api.py:101-104 | 0 and 22 give north; 23 and 67 give north-east; 68 gives east |
| Weather.NorthWraps | weather_api.py:101-104 | 337 gives north-west; 338, 359 and -10 give north |
| Weather.GetDataWeather | weather_api.py:22-77 | None without a key, on a network error, a non-200 status, a non-JSON body, a missing block or a failing lookup, and only then. Otherwise temperature, humidity and description are copied from the reply, pressure is converted, wind speed defaults to 0, direction and precipitation are classified, and the city comes from the reply's name if present |
| Weather.MissingBlockGivesNone | weather_api.py:42-44 | A reply lacking 'main', 'weather' or 'wind' gives no record |
| Weather.WindDefaults | weather_api.py:51-52 | A reply without wind speed and degree still gives a record, with speed 0 and direction "неизвестно" |
| LotteryParser.ParseDrawNumber | lottery_parser.py:121-124 | The number is 0 exactly when every digit in the cell is '0', a cell without digits included. ParseShow and NonDigitInsertion state the rest of its meaning |
| LotteryParser.KeepDigits | lottery_parser.py:123 | The result holds only digits and is no longer than the input |
| LotteryParser.KeepDigitsAppend | lottery_parser.py:123 | Removing non-digits distributes over concatenation |
| LotteryParser.KeepDigitsOfDigits | lottery_parser.py:123 | A digit string is kept as it is |
| LotteryParser.NoDigits | lottery_parser.py:123-124 | A text with no digits leaves nothing, so its number is 0 |
| LotteryParser.NonDigitInsertion | lottery_parser.py:123-124 | Inserting a non-digit anywhere does not change the draw number |
| LotteryParser.ParseShow | lottery_parser.py:121-124 | A decimal number after any non-digit prefix (such as "№") is read back as that number |
| LotteryParser.KeepDigitsZeros | lottery_parser.py:123 | The kept digits are all '0' exactly when every digit of the cell is '0' |
| LotteryParser.SplitLines | lottery_parser.py:162 | split('\n') gives at least one piece and no piece holds a line break |
| LotteryParser.JoinSplit | lottery_parser.py:162 | Joining the pieces with line breaks rebuilds the text |
| LotteryParser.SplitLinesNoBreak | lottery_parser.py:162 | A piece without a line break, followed by a break, splits off as the first piece |
| LotteryParser.SplitJoin | lottery_parser.py:162 | Splitting joined break-free pieces gives the pieces back |
| LotteryParser.DigitTokens | lottery_parser.py:162 | The filter keeps only non-empty all-digit tokens |
| LotteryParser.DigitTokensOfTokens | lottery_parser.py:162 | A list of digit tokens passes the filter unchanged |
| LotteryParser.DigitTokensAppend | lottery_parser.py:162 | Filtering distributes over concatenation, so kept tokens keep their page order |
| LotteryParser.DigitTokensKeepsEvery | lottery_parser.py:162 | Every digit token is kept, at the position given by the number of digit tokens before it |
| LotteryParser.DigitTokensDropsOthers | lottery_parser.py:162 | Lines that are not digit tokens, such as empty lines, are dropped |
| LotteryParser.BallsFromLines | lottery_parser.py:158-184 | For a ball cell of any lines with at least eight digit tokens, the row is a candidate, its ball tokens are the digit tokens of the lines, its number is `ParseDrawNumber` of the second cell and its time comes from the first |
| LotteryParser.BallsSkipNoise | lottery_parser.py:162-183 | Non-numeric lines before the balls and any lines after the eighth ball, further numbers included, leave the balls as the first eight numbers in order |
| LotteryParser.BallsRoundTrip | lottery_parser.py:159-183 | A cell with eight numbers, one per line, makes the row a candidate and gives those eight balls in order |
| LotteryParser.DrawTable.DrawExists | lottery_parser.py:47-62 | Answers "exists" when the number is present, and also when the lookup fails |
| LotteryParser.DrawTable.AddDraw | lottery_parser.py:64-97 | Inserts exactly when the number is absent and no database step fails; otherwise the table is unchanged |
| LotteryParser.StepRowEffect | lottery_parser.py:158-189 | One pass of the loop body (`StepRow`): a row failing the cell or token filter changes nothing; a candidate row moves exactly one counter by one; a row whose number parses to 0 is skipped; otherwise a draw is added exactly when the database works and the number is absent. Stored draws are kept, the table grows by one entry per added draw, and number 0 is never stored |
| LotteryParser.ProcessRow | lottery_parser.py:158-189 | One row moves the counters and the table as `StepRow` says |
| LotteryParser.Parser | lottery_parser.py:129-193 | Unreachable database: nothing happens. Otherwise table and counters equal the fold `Ingest` over rows 2 onward |
| LotteryParser.CountsAddUp | lottery_parser.py:157-189 | added plus skipped grows by exactly the number of rows that pass the cell and token filters |
| LotteryParser.OnlyInserts | lottery_parser.py:164-189 | Existing draws are kept unchanged, the table grows by one entry per added draw, and number 0 is never inserted |
| LotteryParser.AddedDrawsComeFromRows | lottery_parser.py:162-186 | Every added draw is the record built from some candidate row, under that row's number |
| LotteryParser.HeaderRowsIgnored | lottery_parser.py:157 | The first two rows never affect the outcome |

## Left out

- Database connections, cursors and transactions become a `Fault` value (`Matcher`) or `DbFault` value (`LotteryParser`) chosen by the caller. The result table is replaced as a whole on commit.
- The identity column reset by `TRUNCATE ... RESTART IDENTITY` is not modelled; rows carry no id.
- Logging and console output (`print`, `logger`) are left out. They do not affect results.
- Browser automation and page loading (Selenium) are left out. The page arrives as a list of rows, each a list of cell texts.
- HTTP calls to OpenWeather and Telegram are left out.
  - The weather reply arrives as a `Reply` value.
  - Telegram results arrive as the function `status`, where a negative value stands for a raising request.
- `datetime.now()` is a parameter: the export time stamp is a string, and the observation time an integer.
- `parse_datetime` is the parameter `parseDate`. Its strptime format rules are not modelled.
- `pa_to_mmhg` is the parameter `toMmHg`, because it is floating-point multiplication and rounding.
- Times are integer seconds; sub-second differences are not modelled.
- Weather numbers are integers, so float temperatures, speeds and degrees are not modelled.
- Weather.WindDirection: non-integer degrees, where round() works on floats, are not modelled.
- Digits are ASCII only. Python's `\D`, `isdigit()` and `int()` also accept other Unicode decimal digits.
- Chat.SplitLongMessage: requires a limit of at least 1. With limit 0 the loop never ends on a text that contains a non-whitespace character. The only caller uses 4000.
- Chat.FormatDataForTelegram: the record limit is a natural number. Python slicing with a negative limit is not modelled.
- A result value appears in the model only as its `str()` text and its truthiness (the `Field` datatype).
- Chat.SendToTelegram: an exception outside `requests.post` is not modelled, for example one in building the payload.
- The JSON-file export, the record threshold of `migrate_data_to_bot`, and the schedulers (`main.py`, `get_bot.py`, `schedule_restart.py`) are not part of this model. They are I/O glue.
- `show_total_results` and the table creation in lottery_db.py are not part of this model. The table creation is used only for the uniqueness of draw numbers (the map key) and of weather times.
