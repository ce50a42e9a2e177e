# Analytics query engine and email-client inbox, in Dafny

This project models two small parts of a repository that holds a filterable
analytics dashboard and an email-client demo.

**The analytics API's query engine** (`analytics-api/index.js`). The server
keeps a dataset of CSV rows in memory. Each row has a `Day` text in
`DD/MM/YYYY` form, an `Age` label, a `Gender` label and six integer feature
columns `A` to `F`. Both query endpoints select the rows whose day lies in
the requested range (both ends included) and whose age and gender equal the
requested ones. Then:
- `/api/total-time` sums each feature over the selection;
- `/api/time-trend` lists `{date, value}` for each selected row, in dataset order.

The model is the class `Analytics.AnalyticsApi`, which holds the dataset.
Its two query methods only read it; the loader's `push` is the only method
that changes it. The selection (`Select`, `MatchIndices`), the reference sum
(`MatchingSum`) and the projection (`Point`) are pure functions. The totals
are built by a method with nested loops, as the source's `reduce`/`forEach`
does. Days are parsed by `Calendar.ParseDay`. A date that does not parse
stands for JavaScript's Invalid Date, which no comparison accepts.

**The email client** has two versions: `email-client/email-client.js` and the
later `email-client/script.js`. Each keeps module-wide state: the page counter,
the total number of pages, the favourite and read id sets, and the filter
mode. Each version is a class `Inbox` in its own module (`EmailClient` and
`EmailScript`). The Next/Prev handlers, the filter control, `toggleFavorite`
and `markAsRead` are methods. Their `modifies` clauses name the one or two
fields each handler changes. The `script.js` version also keeps the two
local-storage entries and has `loadPersistedData`. A JavaScript `Set` is the
sequence of its elements in insertion order (module `OrderedSet`), since
`[...set]` saves the ids in that order. Filtering, the favourite toggle and
`formatDateTime` are pure functions in `Mailbox`, shared by both versions.

Module `Decimal` models `String(n)` and `padStart`. Module `Calendar` models
dates, their `DD/MM/YYYY` text and its parsing.

Where this model differs from the behaviour one might expect, it follows the
code. With no matching row, `/api/total-time` answers `{}`, not an object of
six zeros: the accumulator starts empty and only a row adds keys. The label
`"all"` for age or gender is an ordinary value, not a wildcard.

## Model

| member | source | states |
|---|---|---|
| `Analytics.FeatureNamed` | analytics-api/index.js:85 | a request's feature name denotes column `f` exactly when it is `f`'s name; any other name denotes no column |
| `Analytics.Matches` | analytics-api/index.js:44-50 | a matching row has a `Day` that parses to a day the calendar has, both request bounds are valid dates with the start on or before the end, and its age and gender labels are literally the requested ones |
| `Analytics.Select` | analytics-api/index.js:42-51 | a row is in the selection iff it is in the dataset and matches: its day parses and lies in `[start, end]` inclusive, and age and gender are literally equal; the selection is no longer than the dataset |
| `Analytics.MatchIndices` | analytics-api/index.js:72-81 | the positions it lists are in the dataset, strictly increasing, and are exactly the positions of matching rows |
| `Analytics.SelectAt` | analytics-api/index.js:72-81 | the selection has one row per matching position, and its k-th row is the dataset row at the k-th matching position (the dataset's order is kept) |
| `Analytics.SelectConcat` | analytics-api/index.js:42 | selecting from two consecutive parts of a dataset gives the selection of the first part followed by that of the second |
| `Analytics.EmptyRangeSelectsNothing` | analytics-api/index.js:49 | when the start day is after the end day, no row is selected |
| `Analytics.SumOfSelect` | analytics-api/index.js:53-58 | a feature summed over the selection equals the reference sum over the whole dataset, where each matching row adds its value and every other row adds nothing |
| `Analytics.Point` | analytics-api/index.js:83-86 | a trend entry carries the row's `Day` text unchanged, and the value of the column the request names when that is one of `A` to `F`, `null` otherwise |
| `Analytics.AnalyticsApi.constructor` | analytics-api/index.js:20 | the dataset starts empty |
| `Analytics.AnalyticsApi.Load` | analytics-api/index.js:24-26 | loading a CSV row appends it to the dataset, last |
| `Analytics.AddRow` | analytics-api/index.js:53-57 | after the `reduce` callback every feature `A` to `F` has an entry, and each entry is the previous entry (0 when absent) plus the row's value for that feature |
| `Analytics.AnalyticsApi.TotalTime` | analytics-api/index.js:37-61 | the result is `{}` iff no row of the dataset matches; otherwise its keys are exactly `A` to `F`, each mapped to the feature's reference sum over the matching rows; the dataset is not changed |
| `Analytics.AnalyticsApi.TimeTrend` | analytics-api/index.js:64-89 | one entry per matching row, in dataset order: the k-th entry holds the `Day` text of the k-th matching row unchanged and that row's value for the requested feature (`null` for a name other than `A` to `F`); same-day rows are not merged; the dataset is not changed |
| `Calendar.DaysInMonth` | analytics-api/index.js:44 | a month has 28 to 31 days, and 29 only for February of a leap year |
| `Calendar.ParseDay` | analytics-api/index.js:44 | a text that parses has the `DD/MM/YYYY` shape, and the day read from it is one the calendar has, with a year below 10000 |
| `Calendar.ParseDayText` | analytics-api/index.js:44 | every valid day of a four-digit year, written as `DD/MM/YYYY`, parses back to that day |
| `Calendar.DayTextOfParse` | analytics-api/index.js:44 | any text that parses to a day of a four-digit year is exactly that day written as `DD/MM/YYYY`, so parsing reads the digits as day, month and year; a text whose year field is 1000 or more and that is not a valid day's `DD/MM/YYYY` text parses to no date |
| `Calendar.NoThirtyFirstOfFebruary` | analytics-api/index.js:44 | `31/02/2022` names a day February does not have, so it parses to no date |
| `Decimal.Show` | email-client/script.js:129-131 | `String(n)` is a non-empty run of digits with no leading zero |
| `Decimal.ValueOfShow` | email-client/script.js:131 | the digits `String(n)` writes read back as `n` |
| `Decimal.ShowOfValue` | email-client/script.js:131 | a run of digits with no leading zero is exactly what `String` writes for the number it denotes |
| `Decimal.ShowLength` | email-client/script.js:125 | a k-digit number is written with exactly k digits |
| `Decimal.PadStart` | email-client/script.js:123 | `padStart` keeps the text as the suffix and fills with the fill character in front, up to the width |
| `Decimal.Pad2Reads` | email-client/script.js:123-127 | a number below 100 padded to two places is exactly two digits that read back as the number |
| `Decimal.Pad2OfValue` | email-client/script.js:123 | any two digits are exactly what `padStart(2, "0")` writes for the number they denote |
| `Mailbox.WithMembership` | email-client/script.js:111-115 | the kept mails are exactly the input mails whose id's membership in the set is the requested one |
| `Mailbox.FilterEmails` | email-client/script.js:108-119 | `"favorites"` keeps exactly the mails whose id is a favourite, `"read"` exactly the read ones, `"unread"` exactly the others; any other filter value returns the list unchanged |
| `Mailbox.FilterEmailsConcat` | email-client/email-client.js:94-105 | filtering keeps the list's order: filtering two consecutive parts gives the filtered first part followed by the filtered second |
| `Mailbox.MembershipPartition` | email-client/script.js:111-115 | the mails whose id is in a set and the mails whose id is not together hold every mail of the list exactly as many times as the list does |
| `Mailbox.ReadUnreadPartition` | email-client/email-client.js:98-101 | the `"read"` and `"unread"` results together hold every mail of the list exactly as many times as the list does, so their lengths add up to its length |
| `Mailbox.Toggled` | email-client/script.js:182-188 | after a toggle `id` is a favourite iff it was not before; every other id keeps its membership; ids stay distinct |
| `Mailbox.ToggledTwice` | email-client/email-client.js:150-159 | toggling twice restores the set of favourites; it restores the list exactly when `id` was not a favourite, and otherwise moves `id` to the end |
| `Mailbox.ClockHour` | email-client/script.js:129 | the 12-hour clock hour lies in 1 to 12 and agrees with the hour of the day modulo 12 |
| `Mailbox.ClockRoundTrip` | email-client/script.js:128-129 | the clock hour and the `AM`/`PM` suffix give back the hour of the day |
| `Mailbox.FormatDateTime` | email-client/email-client.js:107-117 | for a four-digit year the formatted text's date part parses as the mail's day; the clock hour is 1 to 12, written without a leading zero; the minutes are two digits that read back; the suffix is `PM` when the hour is 12 or more and `AM` otherwise; hour and suffix give back the hour of the day |
| `Mailbox.MidnightIsTwelveAM` | email-client/email-client.js:113-114 | a formatted time that reads back as hour 0 shows the clock hour `12` and the suffix `AM` |
| `OrderedSet.Add` | email-client/script.js:197 | `add` inserts the element: a new element goes last, after the others in their order; an element already present leaves the list as it is, so a second `add` changes nothing; ids stay distinct |
| `OrderedSet.Delete` | email-client/script.js:183 | `delete` removes the element and nothing else, keeps distinctness, and changes nothing when the element is absent |
| `OrderedSet.DeleteAt` | email-client/script.js:183 | in a set, deleting the element at position i leaves exactly the elements before it followed by those after it, in their order |
| `OrderedSet.FromList` | email-client/script.js:210 | `new Set(list)` holds each element of the list once and nothing else |
| `OrderedSet.FromListOfDistinct` | email-client/script.js:205-214 | building a set from the list `[...set]` gives back the same set in the same order |
| `EmailClient.Inbox.constructor` | email-client/email-client.js:2-7 | page 1 of 2, no favourites, nothing read, filter `"all"` |
| `EmailClient.Inbox.NextPage` | email-client/email-client.js:13-18 | the page moves on by one iff it is before the last page; `1 <= currentPage <= totalPages` is kept; nothing else changes |
| `EmailClient.Inbox.PrevPage` | email-client/email-client.js:20-25 | the page moves back by one iff it is after page 1; the page-range invariant is kept; nothing else changes |
| `EmailClient.Inbox.PaginationControls` | email-client/email-client.js:86-92 | Prev is disabled exactly when the Prev handler would not move, Next exactly when the Next handler would not; the page text names the current and total pages |
| `EmailClient.Inbox.SetFilter` | email-client/email-client.js:28-31 | the filter control sets the filter mode and nothing else; the inbox stays valid |
| `EmailClient.Inbox.VisibleEmails` | email-client/email-client.js:50 | under `"favorites"` the listed mails are exactly the given mails whose id is a favourite, under `"read"` exactly the read ones, under `"unread"` exactly the others; any other filter lists every given mail unchanged; the order is that of `Mailbox.FilterEmails` |
| `EmailClient.Inbox.ToggleFavorite` | email-client/email-client.js:150-162 | the favourites become the toggled favourites; the read set, page and filter do not change |
| `EmailClient.Inbox.MarkAsRead` | email-client/email-client.js:164-167 | `id` is added to the read set, nothing is removed, and the favourites do not change |
| `EmailScript.Inbox.constructor` | email-client/script.js:2-7 | page 1 of 2, empty sets, filter `"all"`, and the local-storage entries as the browser holds them |
| `EmailScript.Inbox.LoadPersistedData` | email-client/script.js:205-214 | each set with a stored entry is rebuilt from its list, a missing entry leaves its set alone; a set rebuilt from the list it was saved as is the same set in the same order |
| `EmailScript.Inbox.NextPage` | email-client/script.js:16-21 | the page moves on by one iff it is before the last page; the page-range invariant is kept; nothing else changes |
| `EmailScript.Inbox.PrevPage` | email-client/script.js:23-28 | the page moves back by one iff it is after page 1; the page-range invariant is kept; nothing else changes |
| `EmailScript.Inbox.PaginationControls` | email-client/script.js:100-106 | Prev is disabled exactly when the Prev handler would not move, Next exactly when the Next handler would not; the page text names the current and total pages |
| `EmailScript.Inbox.SetFilter` | email-client/script.js:31-36 | a filter button sets the filter mode and nothing else; the inbox stays valid |
| `EmailScript.Inbox.VisibleEmails` | email-client/script.js:55 | under `"favorites"` the listed mails are exactly the given mails whose id is a favourite, under `"read"` exactly the read ones, under `"unread"` exactly the others; any other filter lists every given mail unchanged; the order is that of `Mailbox.FilterEmails` |
| `EmailScript.Inbox.ToggleFavorite` | email-client/script.js:179-194 | the favourites become the toggled favourites and are saved as exactly that list; the read set and its entry do not change |
| `EmailScript.Inbox.MarkAsRead` | email-client/script.js:196-203 | `id` is added to the read set, nothing is removed, and the read set is saved as exactly that list; the favourites do not change |
| `EmailScript.ReloadPage` | email-client/script.js:10-11 | on a new page load over the same storage, each set last saved by `toggleFavorite` or `markAsRead` comes back exactly |

## Left out

- The CSV load itself (analytics-api/index.js:22-34) is left out, as stream I/O with event callbacks. Queries that arrive before loading ends see a partial dataset. The model gives `Load` one row at a time.
- Express routing, the authentication middleware, `res.json` serialisation and console logging are left out. The routes, middleware and model files of the API and the React frontend are not part of this model.
- `new Date(startDate)` is not modelled. A request bound is a calendar day, or `None` for an Invalid Date.
- Time zones are not modelled. The source compares the row's local midnight with a bound that JavaScript reads from the request string, which may be UTC midnight. The model compares whole days.
- moment's lenient parsing is not modelled: one-digit days or months, other separators, two-digit years. Only the exact `DD/MM/YYYY` form parses; overflowing days such as `31/02/2022` are invalid, as in moment.
- The totals are JavaScript numbers (doubles) in the source, exact only up to 2^53; the model adds unbounded integers, so rounding of very large totals is not modelled.
- `parseInt` on feature cells is not modelled. Feature values are taken as already-parsed integers, so `NaN` (and `NaN || 0` in the accumulator) never arises.
- `Analytics.Point`: a feature name that is another column (`Day`, `Age`, `Gender`) gets a null value here, where `parseInt` would read a leading number from that column's text (6 from `06/10/2022`, 15 from `15-25`).
- `Analytics.AnalyticsApi.TimeTrend`: a feature name that is another column (`Day`, `Age`, `Gender`) gets a null value here. In the source, `parseInt` would read a leading number from that column's text.
- The loose `==` between the row's labels and the request's age and gender is modelled as string equality. A numeric age in the request body is not modelled.
- Fetching a page of mails or a mail body (`loadEmails`, `loadEmailBody`) is left out as network I/O. DOM work is left out too: `renderEmailList`, `displayEmailBody` and the favourite button's text.
- `updatePaginationControls` runs after the page fetch completes in the source. The model evaluates it on the current state.
- Local storage holds JSON text in the source. The model stores the id lists themselves, so `JSON.stringify`/`JSON.parse` and a parse failure are left out.
- `formatDateTime` takes the `Date` getters' results as inputs. Converting a timestamp into local fields, and the `NaN` text of an Invalid Date, are left out.
- `Mailbox.FormatDateTime`: the read-back is stated only for four-digit years (1000 to 9999), where the date part is exactly ten characters.
