# Meteostation: a verified model of its user table and page rules

Meteostation is an Electron/React desktop weather application. This project
models the parts of it that hold logic rather than markup, and proves what
they promise:

- **The `users` table** of the local SQLite database (`meteostation/db.js`).
  It has an AUTOINCREMENT id and two UNIQUE columns, `username` and `email`.
  Registration is an INSERT and login is a SELECT. The table is the class
  `UserDb.UserTable`. It holds its rows and the AUTOINCREMENT counter, and its
  invariant is that ids, usernames and emails are pairwise distinct. Login is
  a pure function over the rows, so it cannot change them.
- **The history page** (`meteostation/src/pages/history.jsx`), in three modules:
  - `HistorySort`: the in-place sort of the local history, newest first.
  - `Forecast`: the grouping that turns a 3-hourly forecast into one entry per
    day, for at most five days.
  - `HistoryView`: the temperature colour bands and the wind-strength bands,
    the chart-bar and humidity-bar clamps, the weather-condition counts of the
    statistics panel, and the consecutive pairs of the trend card.
- **The home page** (`meteostation/src/pages/home.jsx`), in the module
  `HomePage`:
  - the weather recommendations;
  - the language, theme and city fallback chains (JavaScript `||` with its
    truthiness);
  - the updates of the stored user record when a city or the settings are
    saved.
- `Base` holds `Option`, `Result`, and models of the JavaScript string
  operations `includes` and `toLowerCase`.

`db.js` creates only the `users` table and stores and compares passwords as
given; settings, reminders and weather history have no implementation in
these files.

Parsing a date string (`new Date(s)`) is a parameter `time: string -> int`
of the sort. The stored user, a JSON object in local storage, is a
`map<string, Json>`. Network and storage I/O are left out, and the values
they would supply become parameters.

## Model

| member | source | states |
|---|---|---|
| Base.LowerChar | meteostation/src/pages/home.jsx:85 | a Latin A-Z, Cyrillic U+0400-U+042F or Ґ capital becomes its own lower-case partner (a different, non-capital letter that UpperChar maps back to the capital); every other character is unchanged |
| Base.Lower | meteostation/src/pages/home.jsx:85 | `toLowerCase` keeps the length and lower-cases each character in place |
| Base.LowerIdempotent | meteostation/src/pages/history.jsx:280 | lower-casing twice equals lower-casing once, and the result has no capitals left |
| Base.Contains | meteostation/src/pages/history.jsx:280-299 | `s.includes(sub)` holds exactly when `sub` occurs in `s` at some index |
| Base.OccursInTail | meteostation/src/pages/history.jsx:280-299 | an occurrence in the tail of a string is an occurrence in the string one index further on |
| UserDb.Taken | meteostation/db.js:15-20 | an insert breaks a UNIQUE constraint exactly when some row has that username or that email |
| UserDb.LoginUser | meteostation/db.js:46-56 | a returned row matches both email and password and is in the table; no row is returned exactly when no row matches both |
| UserDb.LoginExact | meteostation/db.js:46-56 | in a well-formed table, login returns a row if and only if that row holds both the email and the password (an unknown email or a wrong password gives no row) |
| UserDb.InsertKeepsWellFormed | meteostation/db.js:15-20 | appending the next id with a fresh username and email keeps ids increasing and usernames and emails unique; the new id exceeds every earlier id |
| UserDb.RegisterThenLogin | meteostation/db.js:32-56 | after a successful registration, login with the same email and password returns exactly the new row |
| UserDb.UserTable.constructor | meteostation/db.js:13-28 | a fresh table is empty, its counter is 0, and it is well formed |
| UserDb.UserTable.RegisterUser | meteostation/db.js:32-43 | an error leaves rows and counter unchanged. The error is DatabaseFull exactly when the counter is at the largest rowid, and a UNIQUE violation exactly when the username or email is taken. Success appends exactly one row with id = previous counter + 1, returns that id, makes it larger than every earlier id, and keeps the table well formed |
| HistorySort.SortByDateDescending | meteostation/src/pages/history.jsx:44-46 | after the in-place sort no entry is older than an entry after it, and the array holds the same entries with the same multiplicities |
| HistorySort.InsertNewest | meteostation/src/pages/history.jsx:44-46 | one insertion step extends the newest-first prefix by one entry, keeps the multiset and leaves the rest of the array untouched |
| HistorySort.SwapDown | meteostation/src/pages/history.jsx:44-46 | exchanging two neighbours changes only those two cells and keeps the multiset |
| Forecast.DayKey | meteostation/src/pages/history.jsx:98 | `split(' ')[0]` is a prefix of `dt_txt` with no space, followed by a space or by the end of the text |
| Forecast.DaysDistinctAndComplete | meteostation/src/pages/history.jsx:96-103 | the day keys are listed without repetition, and a day is listed iff some item falls on it |
| Forecast.DaysFirstSeenOrder | meteostation/src/pages/history.jsx:97-101 | days are listed in first-seen order: when day i is listed before day j, an item of day i comes before every item of day j |
| Forecast.ItemsOnSound | meteostation/src/pages/history.jsx:96-103 | a day's group holds only input items of that day and is no longer than the input |
| Forecast.ItemsOnComplete | meteostation/src/pages/history.jsx:97-102 | every item is in the group of its own day |
| Forecast.ItemsOnAppend | meteostation/src/pages/history.jsx:96-103 | grouping keeps input order: the group of a concatenation is the group of the first part followed by that of the second |
| Forecast.GroupsNonEmpty | meteostation/src/pages/history.jsx:96-103 | a day is listed iff its group is non-empty |
| Forecast.GroupByDay | meteostation/src/pages/history.jsx:96-103 | the grouping loop records the days in first-seen order, has a key exactly for the listed days, and maps each day to its items in input order |
| Forecast.FindNoonFirst | meteostation/src/pages/history.jsx:109 | `find` gives nothing iff no entry contains `12:00:00`, and otherwise the first such entry |
| Forecast.NoonEntryChoice | meteostation/src/pages/history.jsx:109 | an entry is chosen iff the group is non-empty, and it comes from the group. It is the first noon entry when there is one, and otherwise the entry at index floor(length / 2) |
| Forecast.DayEntry | meteostation/src/pages/history.jsx:112-120 | the pushed record carries the day's date and the chosen item's temperature, description, icon, humidity, wind speed and pressure |
| Forecast.SummariesOfListedDays | meteostation/src/pages/history.jsx:106-122 | for days that occur in the forecast the `if (noonData)` guard always holds: one entry per day, in order, each built from that day's chosen item |
| Forecast.FirstDays | meteostation/src/pages/history.jsx:106 | `slice(0, 5)` keeps min(5, number of days) days, in first-seen order |
| Forecast.ForecastHistoryEntries | meteostation/src/pages/history.jsx:106-122 | the result has exactly min(5, number of distinct days) entries; entry k has the date of day k and is built from that day's noon or middle item |
| Forecast.GroupSummariesAgree | meteostation/src/pages/history.jsx:106-109 | looking each group up in the map from the grouping loop gives the same entries as grouping the items directly |
| Forecast.SummarizeDays | meteostation/src/pages/history.jsx:106-122 | the second loop pushes, in order, the entry of each listed day whose group yields an item |
| Forecast.ForecastAsHistory | meteostation/src/pages/history.jsx:96-122 | the two loops together produce the entries of the first five days (properties in ForecastHistoryEntries) |
| HistoryView.ReachedBand | meteostation/src/pages/history.jsx:355-373 | with ascending cut points, a value reaches exactly the first n of them: cut n-1 is at or below it and cut n is above it |
| HistoryView.ReachedMonotone | meteostation/src/pages/history.jsx:355-373 | a larger value never falls in a lower band |
| HistoryView.GetTempColor | meteostation/src/pages/history.jsx:355-364 | the colour is the one of the band given by how many of 0, 5, 10, 15, 20, 25, 30 the temperature reaches (one of 8); 30 or more gives #ff4444 and below 0 gives #01579b |
| HistoryView.GetWindDirection | meteostation/src/pages/history.jsx:367-373 | the band is given by how many of 1, 5, 10, 15 the speed reaches (one of 5); 15 or more is "Шторм" and below 1 is "Спокій" |
| HistoryView.BarHeight | meteostation/src/pages/history.jsx:536 | the bar height always lies in 40..160, and equals 4·abs(temp) when that is in range |
| HistoryView.BarHeightMonotone | meteostation/src/pages/history.jsx:536 | a temperature further from zero never gets a shorter bar |
| HistoryView.HumidityWidth | meteostation/src/pages/history.jsx:507 | the width never exceeds 100 or the humidity, and is one of the two |
| HistoryView.CountWhere | meteostation/src/pages/history.jsx:279-300 | a `filter(...).length` is at most the input length; it is 0 iff no item matches and the full length iff every item matches |
| HistoryView.CountWhereAppend | meteostation/src/pages/history.jsx:279-300 | counting distributes over concatenation |
| HistoryView.CalculateStatistics | meteostation/src/pages/history.jsx:263-312 | empty input gives nothing. Otherwise totalDays is the input length, and each condition count is the number of days matching its keyword test, so it is at most totalDays. The windy count is all days iff every wind is above 5, and zero iff none is |
| HistoryView.Pairs | meteostation/src/pages/history.jsx:575-577 | one pair per consecutive pair of items, in order |
| HistoryView.TrendPairs | meteostation/src/pages/history.jsx:575-595 | the trend card has one entry per consecutive pair among the first seven items, so min(7, n) - 1 entries and never more than 6 |
| HomePage.TemperatureRule | meteostation/src/pages/home.jsx:89-93 | at most one temperature recommendation: hot iff temp > 25, cold iff temp < 5 |
| HomePage.SkyRule | meteostation/src/pages/home.jsx:95-99 | rain iff the description mentions rain; sun iff it mentions sun or clear and not rain |
| HomePage.WindRule | meteostation/src/pages/home.jsx:101-103 | windy iff wind > 8 |
| HomePage.HumidityRule | meteostation/src/pages/home.jsx:105-107 | humid iff humidity > 80 |
| HomePage.FourRulesInOrder | meteostation/src/pages/home.jsx:83-109 | the four rules' outcomes, pushed in order, form a list in rule order |
| HomePage.GenerateRecommendations | meteostation/src/pages/home.jsx:80-110 | no weather gives no recommendations. Otherwise each recommendation appears exactly under its condition on the lower-cased description, temperature, wind and humidity (rain wins over sun), the list is in rule order, and it has at most 4 entries |
| HomePage.RulesIncreasingBound | meteostation/src/pages/home.jsx:83-109 | a list in rule order has at most one recommendation per rule, so at most 4 |
| HomePage.Truthy | meteostation/src/pages/home.jsx:14-15 | a value is truthy exactly when it is not one of `undefined`, `null`, `false`, `0` and `""` |
| HomePage.Field | meteostation/src/pages/home.jsx:14 | for a key no JSON value inherits (the pages read only settings, language, theme, city and id), `v?.key` is defined exactly when v is an object with that key, and then it is that field's value |
| HomePage.OrChain | meteostation/src/pages/home.jsx:14-15 | `a \|\| b \|\| …` yields the first truthy operand, or the last when no earlier one is truthy |
| HomePage.OrChainFirstTruthy | meteostation/src/pages/home.jsx:14-15 | the chain yields operand k when k is the first truthy operand, or the last with all before it falsy |
| HomePage.OrChainOfThree | meteostation/src/pages/home.jsx:14-15 | with a truthy last operand, `a \|\| b \|\| c` picks a, else b, else c |
| HomePage.InitialSetting | meteostation/src/pages/home.jsx:14-15 | the language (theme) is always truthy. It is the stored settings value when that is truthy, else the non-empty "lang" ("theme") key of local storage, else "ua" ("default") |
| HomePage.InitialCity | meteostation/src/pages/home.jsx:22 | the city is the stored city when truthy, else "" |
| HomePage.SaveCity | meteostation/src/pages/home.jsx:113-116 | the new record has the old fields plus `city`, `city` is the new city, and every other field is unchanged |
| HomePage.SaveSettings | meteostation/src/pages/home.jsx:29-46 | without a truthy id, or when the database does not report success, the record is unchanged. Otherwise only `settings` is replaced, by an object holding both the new theme and the new language |
| HomePage.SaveCityThenLoad | meteostation/src/pages/home.jsx:22 | after any city is saved, the next load starts with that city (an empty city falls back to the same empty string) |
| HomePage.SaveSettingsThenLoad | meteostation/src/pages/home.jsx:14-46 | after settings are saved, the next load starts with the saved language and theme, whatever the "lang" and "theme" keys hold |

## Left out

- The sqlite3 driver, its connection and `CREATE TABLE` callbacks, and console logging: the table is modelled abstractly by its rows and AUTOINCREMENT counter.
- NULL values in the UNIQUE columns (SQLite lets several rows hold NULL there): `registerUser` is modelled with string arguments only.
- The text of the error passed to `callback(err)`: the model only distinguishes a UNIQUE violation from a full rowid space.
- Database errors other than those two (I/O, locking, corruption) are not modelled.
- Password hashing: the code has none, because passwords are stored and compared as given.
- `window.api` calls for settings, reminders, weather history and city: no implementation of them is among the files, so `SaveSettings` takes the database's answer as the parameter `saved`.
- `fetch` calls to OpenWeatherMap, the coordinate and timemachine fallback chain, and the `setTimeout` throttling: these are network I/O, so the forecast list is an input.
- `localStorage` reads and writes and `document.body.className`: stored values are parameters and the record updates are functions returning the new record. JSON serialisation and key order are not modelled.
- React rendering, hooks, routing and the other components.
- Averages, minimum and maximum, `toFixed` rounding in `calculateStatistics`, and the rounded trend difference and arrow: these are floating-point arithmetic.
- `toLocaleDateString`, `toISOString` and time zones.
- Base.Lower: lower-cases only through LowerChar, so the rest of Unicode case mapping (including mappings that change the length) is not modelled.
- Base.LowerChar: only Latin A-Z, the Cyrillic capitals U+0400-U+042F and Ґ are mapped; other capitals (É, Ω, Ѣ, ...) are left unchanged, whereas `toLowerCase` maps them too.
- HistorySort.SortByDateDescending: the comparator is modelled with a total `time` function, so invalid dates (NaN differences) are not modelled. Stability (equal dates keep their fetched order) is not stated.
- Forecast.GroupByDay: `dailyData` is a plain object. JavaScript lists integer-like keys before the others in `Object.keys`, and a day key that names an `Object.prototype` property ("constructor", "toString", "__proto__", ...) finds `dailyData[date]` already truthy, so `push` at line 102 throws; the catch at line 126 swallows the error and no history is set. The model groups every key alike, in insertion order; neither case is modelled.
- HomePage.SaveCity: spreading a stored value that is not an object (a string or a number) is not modelled; a stored user is either absent or an object.
- HomePage.GenerateRecommendations: the translation table has no `rec_*` keys, so the built-in Ukrainian texts (`Recommendation.Message`) are always the ones shown; `t.rec_* ||` is not modelled.
- HomePage.Field: inherited properties (`length` of a string or array, `Object.prototype` members such as `toString`) are not modelled; `?.` on those keys gives `undefined` in the model. No key the pages read is inherited.
- HomePage.Truthy: JSON numbers are modelled as exact reals, so NaN (falsy in JavaScript) does not arise; a stored JSON value cannot hold NaN.
