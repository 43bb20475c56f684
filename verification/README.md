# EasyBook admin: derived values and form state, in Dafny

This project models the logic behind EasyBook's admin pages, a movie-ticket
booking platform:

- **Vote-count abbreviator** (`KConverter`, `kconverter.dfy`). `Kconverter` turns a count into
  a short string in Indian units: "K" (thousand), "L" (lakh, 100,000) and "Cr" (crore,
  10,000,000). It rounds to one decimal place and drops a trailing ".0". A missing count
  (null or undefined) gives "0".
- **Integer rendering** (`Numerals`, `numerals.dfy`). This is the decimal `toString` that the
  abbreviator and the seat label use, with a parser that reads it back.
- **Dashboard** (`Dashboard`, `dashboard.dfy`). It covers:
  - display records built from raw shows, with the falsy-value defaults "Unknown Show" and 50;
  - the seat label for a fixed capacity of 50;
  - the header statistics;
  - the rounded average ticket price;
  - the number of upcoming shows.
  
  The clock is a parameter `now`, and date-times are integer timestamps.
- **Add Shows form** (`AddShows`, `addshows.dfy`). The class `AddShowsForm` holds the
  selected movie, the price string, the pending date-time input and the ordered list of
  chosen date-times. Its methods are the page's handlers.

Behaviour of the code that the model keeps:

- No absolute value is taken, so a negative count is printed as it is (`BelowThousandIsPlain`).
- More than 50 occupied seats is not clamped, so the label is a negative "n left"
  (`SeatsLeftLabel`).
- A negative `showPrice` is passed through, so `ToDisplay` promises a positive price only when
  the source price is missing or not negative.

## Model

| member | source | states |
|---|---|---|
| `Numerals.NatToString` | client/src/lib/kConverter.js:18 | a non-negative integer is written as a non-empty string of digits with no leading zero; it starts with '0' only for 0 |
| `Numerals.ParseNatToString` | client/src/lib/kConverter.js:18 | the rendering of n reads back as exactly n |
| `Numerals.NatToStringParse` | client/src/lib/kConverter.js:18 | every digit string without leading zeros is the rendering of the value it denotes, so the rendering is a bijection onto canonical digit strings |
| `Numerals.IntToString` | client/src/lib/kConverter.js:18 | an integer is written with a leading '-' exactly when it is negative, followed by a digit string without leading zeros |
| `Numerals.ParseIntToString` | client/src/pages/admin/Dashboard.jsx:66 | the rendering of any integer, negative included, reads back as that integer |
| `KConverter.UnitFor` | client/src/lib/kConverter.js:8-16 | the unit comes from the unrounded value: "Cr" from 10,000,000 up, "L" from 100,000 up to below 10,000,000, "K" from 1,000 up to below 100,000, none below 1,000 (negatives included) |
| `KConverter.RoundTenths` | client/src/lib/kConverter.js:10-16 | the number of tenths t is the nearest to n/unit, rounding half up: t/10 ≤ n/unit + 1/20 < (t+1)/10 |
| `KConverter.TenthsToString` | client/src/lib/kConverter.js:10-16 | the one-decimal rendering ends in a digit; any '.' is the second-to-last character and is never followed by '0'; the whole part has no leading zeros |
| `KConverter.ParseTenthsToString` | client/src/lib/kConverter.js:10-16 | the one-decimal rendering with ".0" stripped reads back as the same number of tenths, so stripping loses nothing |
| `KConverter.Kconverter` | client/src/lib/kConverter.js:3-20 | a missing count gives exactly "0"; every output is non-empty |
| `KConverter.BelowThousandIsPlain` | client/src/lib/kConverter.js:14-19 | any value below 1,000, negatives above -10^21 included, is returned as its plain decimal string, which reads back as the value |
| `KConverter.AbbreviationRoundTrip` | client/src/lib/kConverter.js:8-16 | from 1,000 up, the output splits into the unit chosen by the thresholds and a number of tenths t, and t/10 units is the nearest tenth of a unit to n |
| `KConverter.SuffixFollowsThresholds` | client/src/lib/kConverter.js:8-19 | the output ends in "Cr", "L" or "K" exactly when n is in that unit's range, so in exactly one of them from 1,000 up; below 1,000 it ends in a digit |
| `KConverter.NoTrailingPointZero` | client/src/lib/kConverter.js:10-16 | every '.' in the output is followed by one digit from 1 to 9 and then the suffix: at most one fractional digit, and never ".0" |
| `KConverter.ExactMultiples` | client/src/lib/kConverter.js:13-16 | k·1,000 and k·100,000 with 1 ≤ k < 100, and k·10,000,000 with k ≥ 1, abbreviate to the bare integer k and the unit |
| `KConverter.RoundsUpWithinLowerUnit` | client/src/lib/kConverter.js:11-16 | 99,950 to 99,999 give "100K" (not "1L"), and 9,995,000 to 9,999,999 give "100L" (not "1Cr"), because the unit is chosen before rounding |
| `KConverter.WorkedExamples` | client/src/lib/kConverter.js:8-16 | 1,500 gives "1.5K", 10,000 gives "10K", 100,000 gives "1L" and 15,000,000 gives "1.5Cr" |
| `Dashboard.SeatAvailability` | client/src/pages/admin/Dashboard.jsx:57-67 | the label is "Sold Out" exactly when 50 seats are occupied and "Max" exactly when none are; a missing occupied-seats map gives "Max" |
| `Dashboard.SeatsLeftLabel` | client/src/pages/admin/Dashboard.jsx:60-66 | any other count gives "<n> left", where n reads back as 50 minus the occupied count; n is negative exactly when more than 50 seats are occupied |
| `Dashboard.ToDisplay` | client/src/pages/admin/Dashboard.jsx:34-41 | the record keeps the show and its id. A missing movie or a missing or empty title gives "Unknown Show", otherwise the title is kept. A missing or zero price gives 50, otherwise the price is kept. The price is never 0, and it is positive unless the source price is negative |
| `Dashboard.DisplayAll` | client/src/pages/admin/Dashboard.jsx:33-42 | the map keeps length and order: the i-th record is built from the i-th show and keeps it as its source |
| `Dashboard.ActiveShows` | client/src/pages/admin/Dashboard.jsx:33-42 | a missing active-show list gives an empty list; otherwise there is one record per show, in order |
| `Dashboard.SourcesOfDisplayAll` | client/src/pages/admin/Dashboard.jsx:41 | reading each record's source show back gives exactly the input list |
| `Dashboard.CalculateStats` | client/src/pages/admin/Dashboard.jsx:21-27 | bookings, revenue and users (the latter read from `totalUser`) default to 0 when absent; the active-show count equals the length of the display list |
| `Dashboard.RoundDiv` | client/src/pages/admin/Dashboard.jsx:243-246 | the result is a/b rounded as Math.round rounds: the q with q ≤ a/b + 1/2 < q + 1 |
| `Dashboard.AveragePrice` | client/src/pages/admin/Dashboard.jsx:242-246 | an empty list gives 0; otherwise the result is the mean price rounded as Math.round rounds |
| `Dashboard.SumPricesBounds` | client/src/pages/admin/Dashboard.jsx:244 | with every price in [lo, hi], the reduced sum is between count·lo and count·hi |
| `Dashboard.RoundedMeanBounds` | client/src/pages/admin/Dashboard.jsx:243-245 | rounding a mean that lies in [lo, hi] stays in [lo, hi] |
| `Dashboard.AveragePriceWithinBounds` | client/src/pages/admin/Dashboard.jsx:242-246 | for a non-empty list with every price in [lo, hi], the rounded average is in [lo, hi], so it lies between the minimum and maximum price |
| `Dashboard.Upcoming` | client/src/pages/admin/Dashboard.jsx:253-255 | a record is kept exactly when it is in the list and its show's date-time is strictly later than now; no more records than the list has |
| `Dashboard.UpcomingCount` | client/src/pages/admin/Dashboard.jsx:253-255 | the upcoming figure never exceeds the number of active shows |
| `Dashboard.UpcomingAppend` | client/src/pages/admin/Dashboard.jsx:253-255 | filtering a concatenation is concatenating the filtered parts, so the filter keeps order |
| `Dashboard.UpcomingAll` | client/src/pages/admin/Dashboard.jsx:253-255 | the filter returns the whole list exactly when every show is strictly later than now |
| `Dashboard.UpcomingNone` | client/src/pages/admin/Dashboard.jsx:253-255 | the count is 0 exactly when no show is strictly later than now, so a show at exactly now is not counted |
| `Dashboard.UpcomingCountMonotone` | client/src/pages/admin/Dashboard.jsx:253-255 | a later clock never gives a larger count |
| `AddShows.Without` | client/src/pages/admin/AddShows.jsx:35 | after removal t does not occur; every other value is kept exactly when it was there; the list does not grow |
| `AddShows.WithoutAbsent` | client/src/pages/admin/AddShows.jsx:35 | removing a value that is not present leaves the list unchanged |
| `AddShows.WithoutIdempotent` | client/src/pages/admin/AddShows.jsx:35 | removing the same value twice is the same as removing it once |
| `AddShows.WithoutAppend` | client/src/pages/admin/AddShows.jsx:35 | removal distributes over concatenation, so the remaining entries keep their relative order |
| `AddShows.WithoutMultiset` | client/src/pages/admin/AddShows.jsx:35 | every copy of t goes, and every other entry keeps its number of copies |
| `AddShows.AddShowsForm.constructor` | client/src/pages/admin/AddShows.jsx:12-15 | the form starts with no movie, no date-times, an empty input and an empty price |
| `AddShows.AddShowsForm.SelectMovie` | client/src/pages/admin/AddShows.jsx:53 | clicking a movie makes it the one selected movie, replacing any earlier one (re-clicking keeps it selected, with no toggle); nothing else changes |
| `AddShows.AddShowsForm.SetShowPrice` | client/src/pages/admin/AddShows.jsx:92 | the price field takes the typed string; nothing else changes |
| `AddShows.AddShowsForm.SetDateTimeInput` | client/src/pages/admin/AddShows.jsx:109 | the pending input takes the typed string; nothing else changes |
| `AddShows.AddShowsForm.HandleDateTimeAdd` | client/src/pages/admin/AddShows.jsx:27-31 | with an empty input, neither the list nor the input changes. Otherwise the input is appended at the end, earlier entries stay as they were and the input resets to "". The movie and price are unchanged, and every entry stays non-empty |
| `AddShows.AddShowsForm.HandleRemoveTime` | client/src/pages/admin/AddShows.jsx:34-36 | the list becomes `Without(list, t)`, so t no longer occurs. The input, movie and price are unchanged, and every entry stays non-empty |
| `AddShows.AddTwiceThenRemove` | client/src/pages/admin/AddShows.jsx:27-36 | adding v, w, v gives [v, w, v] with no de-duplication; removing v then leaves [w] |

## Left out

- `formatCurrency` (Intl.NumberFormat) and `formatShowDate` (`toLocaleDateString`) are not modelled. They are locale behaviour of a library that is not part of this model. The display record therefore has no date string.
- The rating (`vote_average.toFixed(1)`) is not modelled, because it is floating-point formatting. The display record therefore has no rating field.
- KConverter.RoundTenths: rounds exact halves up, using exact rational arithmetic. JavaScript first divides in binary floating point and then applies `toFixed`. At an exact half the double may fall on either side: 1,150 gives "1.1K" in JavaScript but "1.2K" here. At 99,950 and 9,995,000 the double lies above the half, so `RoundsUpWithinLowerUnit` agrees with JavaScript.
- KConverter.Kconverter: the input is an integer or absent. `Number()` coercion of strings and fractions is not modelled. Neither is the loss of precision above 2^53, nor `toFixed`'s exponential form for quotients of 10^21 and more, nor `toString`'s exponential form for magnitudes of 10^21 and more (a count of -10^21 or below is written here as plain digits).
- Dashboard.AveragePrice: prices and the header totals (bookings, revenue, users) are integers, and the sum and quotient are exact. Fractional prices and revenue, the floating-point sum and NaN are not modelled.
- Falsy values other than a missing field, zero or an empty string (for example NaN or `false`) are not modelled as inputs.
- The clock read `new Date()` and date parsing are replaced by the parameter `now` and integer timestamps.
- The initial load of `nowPlayingMovies` (`useEffect`, `fetchNowPlayingMovies`, dummy data) and the loading fallback are not modelled. They are asynchronous UI plumbing with no logic of their own.
- The configured currency symbol (`import.meta.env.VITE_CURRENCY`) is not modelled, because it is environment configuration.
- The "Add Show" button has no handler, so it has no behaviour to model.
- All markup, styling and icons, `Title.jsx` and the `User` Mongoose schema are left out. They are presentation, or a passive schema handled by a foreign library.
