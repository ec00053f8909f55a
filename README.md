# NBA visualizations: a verified model of the core

This project is a Dafny model of the logic behind a small NBA statistics web application. The
application has a Python back end (FastAPI) and a Next.js front end. The model covers these parts:

- **Statistics** (`Statistics.dfy`): the back end's player, clutch and team summaries, computed from
  per-game rows.
- **Registration** (`Registration.dfy`): the sign-up form's field rules and the error map built from
  the validation issues.
- **FavoriteHighlight** (`FavoriteHighlight.dfy`): the favourites panel. It covers height and date
  formatting, the team chosen from a search, the form-string badges, and the panel's loading and
  request state.
- **SessionGuard** (`SessionGuard.dfy`): the decision the `user` query takes from the stored token,
  its expiry, the clock and the user-info answer.
- **Accounts** (`Accounts.dfy`): the account table behind `/register` and `/login`, 72-byte password
  truncation, and the access-token claims.
- **Setup** (`Setup.dfy`): the set-up page's two search boxes, their events, and the submit gate.
- **MirrorChart** and **BubbleChart** (`MirrorChart.dfy`, `BubbleChart.dfy`): the layout numbers of
  the two D3 charts.

Three helper modules support the rest:

- `Wrappers.dfy` holds `Option` and `Result`.
- `Numbers.dfy` holds Python's `round`, JavaScript's `Math.round` and `Math.ceil`, all on exact reals.
- `Text.dfy` holds digit strings, JavaScript `split`, whitespace, ASCII lower-casing and UTF-8 encoding.

Pure computations are functions with lemmas. Code that updates state is a class whose methods state
the whole new state:

- the register page;
- the favourites panel;
- the browser session;
- the user table;
- the search boxes and the set-up page.

Loops in the source are methods with loops, each proved equal to a specification function:

- the error `reduce`;
- the mirror chart's `forEach`;
- the bubble chart's data join and legend `.each`.

Library calls are parameters. These are `jwtDecode`, bcrypt's `hashpw` and `checkpw`, zod's e-mail
check, and `toLocaleDateString`. So are the clock, the salt and every HTTP answer.

Two details of the charts are easy to misread:

- The mirror chart scales both sides of every metric by one global maximum (`MirrorChart.MaxValue`),
  not by a maximum per metric.
- The bubble radius scale is not clamped. A field-goal percentage above 100 gives a radius above 45
  (`BubbleChart.RadiusRange`).

## Model

| member | source | states |
|---|---|---|
| Statistics.Percent | backend/app/statistics.py:26-28 | 0 when nothing was attempted; within [0, 100] when 0 ≤ made ≤ attempted |
| Statistics.ShootingWithin | backend/app/statistics.py:19-28 | if every row has 0 ≤ made ≤ attempted, the rounded shooting percentage lies in [0, 100] |
| Statistics.CalculatePlayerSummary | backend/app/statistics.py:1-38 | `games_played` is the row count; no rows gives the all-zero short-key result, and exactly then; each average rounds total / games to 1 place |
| Statistics.PlayerPercentages | backend/app/statistics.py:26-37 | each percentage is 0 when nothing was attempted, otherwise it rounds 100·made/attempted to 1 place; it lies in [0, 100] for consistent rows |
| Statistics.CalculateClutchSummary | backend/app/statistics.py:41-60 | fails with ZeroDivisionError exactly on the empty list; average points rounds points / games; FG% is 0 when attempted ≤ 0, otherwise the 2-place rounding rounded again to 1 |
| Statistics.ClutchPercentages | backend/app/statistics.py:45-59 | win% is 100·wins/games rounded to 2 places, then to 1; it lies in [0, 100] when every `win` is 0 or 1; FG% lies in [0, 100] for consistent rows |
| Statistics.ClutchEmptyFails | backend/app/statistics.py:57 | on the empty list the result is the division error |
| Statistics.ClutchSummaryGuarded | backend/app/statistics.py:49-57 | the guarded version: zeros for no games, otherwise the same result as the source |
| Statistics.CalculateTeamStats | backend/app/statistics.py:63-108 | the empty mapping exactly for no games; points, opponent points and win% per game are rounded means; each optional per-game field is the `row.get(key, 0)` mean that AbsentKeysCountZero describes |
| Statistics.AbsentKeysCountZero | backend/app/statistics.py:81-107 | an optional column's per-game value rounds the mean over all games of the rows that hold the key; no row holding it gives 0 |
| Statistics.TeamPercentages | backend/app/statistics.py:88-92 | each team shooting percentage is 0 when nothing was attempted, otherwise 100·made/attempted rounded to 1 place; in [0, 100] for consistent rows; win% lies in [0, 100] for 0/1 wins |
| Numbers.Round | backend/app/statistics.py:32-37 | `round(x, n)`: a multiple of 10^-n within half a unit of x, ties to even |
| Numbers.MathRound | frontend/app/components/FavoriteHighlight.tsx:135 | `Math.round`: the integer n with -0.5 < n - x ≤ 0.5 |
| Numbers.Ceil | frontend/app/components/BubbleChart.tsx:33 | `Math.ceil`: the integer n with x ≤ n < x + 1 |
| Text.Split | frontend/app/components/FavoriteHighlight.tsx:132 | `split("-")`: at least one part, no part containing the separator |
| Text.SplitJoin | frontend/app/components/FavoriteHighlight.tsx:132 | joining the parts with the separator gives the input back |
| Text.NatToStringRoundTrip | frontend/app/components/FavoriteHighlight.tsx:137 | the printed numeral reads back as the number |
| Text.Utf8Append | backend/app/main.py:98 | UTF-8 encoding distributes over concatenation |
| Registration.FirstNameRule | frontend/app/register/page.tsx:8-11 | a first name passes iff it has at least 2 characters, starts with A–Z or ČĆŠĐŽ, and continues with ASCII letters or ČĆŠĐŽčćšđž |
| Registration.LastNameMatchesFirstNameRule | frontend/app/register/page.tsx:11-15 | the last-name rule accepts exactly the strings the first-name rule accepts |
| Registration.UsernameRule | frontend/app/register/page.tsx:16-19 | a username passes iff it has at least 4 characters, starts with an ASCII letter, and continues with letters, digits, '.' or '_' |
| Registration.PasswordRule | frontend/app/register/page.tsx:21 | a password passes iff it has at least 6 characters |
| Registration.FieldIssues | frontend/app/register/page.tsx:7-22 | every issue of a field is about that field |
| Registration.FormatErrors | frontend/app/register/page.tsx:57-60 | the reduce maps each field that has an issue to the message of its last issue; other fields are absent |
| Registration.ErrorMapUnique | frontend/app/register/page.tsx:57-60 | at most one map fits a list of issues |
| Registration.ErrorMapLast | frontend/app/register/page.tsx:57-60 | a field is in the error map iff some issue is about it, and its entry is the last such message |
| Registration.SchemaErrorMap | frontend/app/register/page.tsx:53-61 | after a failed parse, a field has an error iff it has an issue; the error is the message of its last check that failed |
| Registration.ShortLowercaseFirstName | frontend/app/register/page.tsx:8-11 | "a" fails both checks, and the map shows the format message |
| Registration.FiveCharacterPassword | frontend/app/register/page.tsx:21 | a five-character password shows the minimum-length message |
| Registration.RegisterPage.constructor | frontend/app/register/page.tsx:27-35 | the form starts empty, with no errors |
| Registration.RegisterPage.OnMount | frontend/app/register/page.tsx:37-42 | navigates to /home only when a non-empty token is stored |
| Registration.RegisterPage.HandleChange | frontend/app/register/page.tsx:44-47 | only the named field takes the new value |
| Registration.RegisterPage.HandleSubmit | frontend/app/register/page.tsx:49-66 | validation only: the errors become empty on success, otherwise the error map; the form and navigation are unchanged |
| FavoriteHighlight.JsNumberReadsNumeral | frontend/app/components/FavoriteHighlight.tsx:132 | `Number` reads every printed non-negative integer back as that integer |
| FavoriteHighlight.JsNumberNaN | frontend/app/components/FavoriteHighlight.tsx:132-133 | in this model, a string with any character other than a digit is NaN |
| FavoriteHighlight.HeightCm | frontend/app/components/FavoriteHighlight.tsx:135 | the centimetres are within half a unit of 30.48·F + 2.54·I |
| FavoriteHighlight.HeightCmExact | frontend/app/components/FavoriteHighlight.tsx:135 | the centimetres equal (3048·F + 254·I + 50) div 100 |
| FavoriteHighlight.ConvertHeight | frontend/app/components/FavoriteHighlight.tsx:129-138 | "N/A" for a missing or empty height |
| FavoriteHighlight.HeightWithoutDash | frontend/app/components/FavoriteHighlight.tsx:132-133 | a non-empty height without '-' is returned unchanged |
| FavoriteHighlight.HeightNotNumeric | frontend/app/components/FavoriteHighlight.tsx:132-133 | in this model, a first or second part holding a non-digit character returns the height unchanged |
| FavoriteHighlight.HeightNumeric | frontend/app/components/FavoriteHighlight.tsx:132-137 | digit parts F and I give `F'I" (C cm)`; later parts are ignored |
| FavoriteHighlight.SixFootEight | frontend/app/components/FavoriteHighlight.tsx:129-138 | "6-8" gives `6'8" (203 cm)` |
| FavoriteHighlight.FormatDate | frontend/app/components/FavoriteHighlight.tsx:123-127 | "N/A" for a missing or empty date; otherwise the locale date with every '/' replaced by '.' |
| FavoriteHighlight.FindExact | frontend/app/components/FavoriteHighlight.tsx:56-60 | the index of the first case-insensitive name match, or none when no result matches |
| FavoriteHighlight.SelectTeam | frontend/app/components/FavoriteHighlight.tsx:56-63 | a matching result when one exists, else the first result; fails exactly on an empty list |
| FavoriteHighlight.SelectTeamEarliest | frontend/app/components/FavoriteHighlight.tsx:56-61 | among several matches the earliest is chosen |
| FavoriteHighlight.BadgesSpellForm | frontend/app/components/FavoriteHighlight.tsx:213-222 | one badge per character, in order: the badge letters spell the form string |
| FavoriteHighlight.WinBadgeCount | frontend/app/components/FavoriteHighlight.tsx:213-219 | there are as many win-coloured badges as 'W's; all the others are loss-coloured |
| FavoriteHighlight.FavoritePanel.constructor | frontend/app/components/FavoriteHighlight.tsx:15-25 | nothing is loaded and nothing is loading |
| FavoriteHighlight.FavoritePanel.StartTeamLookup | frontend/app/components/FavoriteHighlight.tsx:44-53 | a falsy team name changes nothing; otherwise loading starts and the search is sent |
| FavoriteHighlight.FavoritePanel.FinishTeamLookup | frontend/app/components/FavoriteHighlight.tsx:55-69 | with status 200 and a non-empty array, the chosen team's logo is set and its data requested; loading ends in every case |
| FavoriteHighlight.FavoritePanel.FinishTeamData | frontend/app/components/FavoriteHighlight.tsx:28-42 | the data is stored only with status 200; loading ends either way |
| FavoriteHighlight.FavoritePanel.StartPlayerLookup | frontend/app/components/FavoriteHighlight.tsx:91-100 | a falsy player name changes nothing; otherwise loading starts and the lookup is sent |
| FavoriteHighlight.FavoritePanel.FinishPlayerLookup | frontend/app/components/FavoriteHighlight.tsx:102-111 | with status 200, a truthy image URL is shown and a truthy `player_id` starts the data request; loading ends |
| FavoriteHighlight.FavoritePanel.FinishPlayerData | frontend/app/components/FavoriteHighlight.tsx:75-89 | the data is stored only with status 200; loading ends either way |
| SessionGuard.AcceptExactly | frontend/hooks/useGetUser.ts:17-50 | the query succeeds iff the token is present, decodes, is unexpired and the status is 200; it redirects on every failure except a rejected user-info request |
| SessionGuard.RejectedRequestNoRedirect | frontend/hooks/useGetUser.ts:41 | a rejected user-info request fails the query with the rejection itself and no redirect |
| SessionGuard.ExpiredReportsInvalid | frontend/hooks/useGetUser.ts:28-38 | an expired token ends with "Invalid token", two redirects and no user-info request |
| SessionGuard.ExpiryBoundary | frontend/hooks/useGetUser.ts:28 | a missing, zero or exactly-now expiry is not expired |
| SessionGuard.StatusIrrelevantBeforeRequest | frontend/hooks/useGetUser.ts:41-47 | before the request is reached its answer plays no part, and the query fails |
| SessionGuard.Session.constructor | frontend/hooks/useGetUser.ts:18 | the session starts from the stored token, with no redirects and no requests |
| SessionGuard.Session.QueryFn | frontend/hooks/useGetUser.ts:17-50 | one run: the result, the token kept or removed, the redirects and the requests all follow `Decide`; a missing token is not removed, and a rejected request keeps the token |
| Accounts.ExpiryOf | backend/app/main.py:23-25 | expiry is now + delta, or now + 3600 s when the delta is absent or zero |
| Accounts.AccessTokenClaims | backend/app/main.py:23-27 | the claims are the input's plus `exp`; all other claims are kept |
| Accounts.SessionClaimsShape | backend/app/main.py:112 | a session token carries exactly `sub` = username and `exp` = now + 3600 |
| Accounts.PasswordBytes | backend/app/main.py:98 | at most 72 bytes, a prefix of the UTF-8 encoding, and the whole encoding when it fits |
| Accounts.PasswordsInterchangeable | backend/app/main.py:122 | passwords agreeing on their first 72 bytes give the same hashed bytes |
| Accounts.SuffixIgnored | backend/app/main.py:98 | anything after the first 72 bytes is ignored |
| Accounts.FindByUsername | backend/app/main.py:118 | the first row with the username, or none when no row has it |
| Accounts.RegistrationErrors | backend/app/main.py:90-96 | holds "Username already exists" iff the username is taken and "Email already exists" iff the e-mail is; each at most once, username first |
| Accounts.AddKeepsUnique | backend/app/main.py:50-51 | adding a row that passed both checks keeps usernames, e-mails and ids unique |
| Accounts.UserTable.constructor | backend/app/main.py:45-54 | the table starts empty and valid |
| Accounts.UserTable.Register | backend/app/main.py:88-114 | errors give 400 with the table unchanged; otherwise exactly one row with the hash of the truncated bytes is added, and uniqueness is kept |
| Accounts.UserTable.Login | backend/app/main.py:116-128 | fails iff the user is unknown or the password does not check, always with the same 400 message; success returns the first row with that username and its session claims |
| Setup.SearchBox.constructor | frontend/app/setup/page.tsx:14-17 | the box starts empty with the dropdown closed |
| Setup.SearchBox.SetQuery | frontend/app/setup/page.tsx:57-74 | an unchanged query does nothing; a blank one clears the results and cancels the lookup; any other schedules a lookup for it |
| Setup.SearchBox.Type | frontend/app/setup/page.tsx:123-126 | the query becomes the input and the dropdown opens |
| Setup.SearchBox.Focus | frontend/app/setup/page.tsx:127 | only the dropdown opens |
| Setup.SearchBox.Select | frontend/app/setup/page.tsx:141-145 | the committed value and the query become the name, and the dropdown closes |
| Setup.SearchBox.ClickOutside | frontend/app/setup/page.tsx:29-36 | the dropdown closes and the query resets to the committed value, which is kept |
| Setup.SearchBox.DebounceElapsed | frontend/app/setup/page.tsx:63-74 | a scheduled lookup is sent and loading starts |
| Setup.SearchBox.Respond | frontend/app/setup/page.tsx:63-70 | the results are replaced only with status 200; loading ends |
| Setup.SetupPage.constructor | frontend/app/setup/page.tsx:10-26 | two separate boxes, each with empty choice, query and results, closed, idle and with nothing sent; not submitted |
| Setup.SetupPage.TypeTeam | frontend/app/setup/page.tsx:123-126 | the team query becomes the input and its dropdown opens; a changed blank query clears the results, any other change schedules a lookup for it; nothing is sent; the player box is unchanged |
| Setup.SetupPage.TypePlayer | frontend/app/setup/page.tsx:176-179 | the player query becomes the input and its dropdown opens; a changed blank query clears the results, any other change schedules a lookup for it; nothing is sent; the team box is unchanged |
| Setup.SetupPage.SelectTeam | frontend/app/setup/page.tsx:141-145 | the team choice and query become the name and the dropdown closes; a changed query schedules a lookup for it; nothing is sent; the player box is unchanged |
| Setup.SetupPage.SelectPlayer | frontend/app/setup/page.tsx:194-198 | the player choice and query become the name and the dropdown closes; a changed query schedules a lookup for it; nothing is sent; the team box is unchanged |
| Setup.SetupPage.MouseDown | frontend/app/setup/page.tsx:28-55 | each box sees any click outside it as outside: its dropdown closes and its query resets to its choice, scheduling a lookup when that changes the query; nothing happens after submitting; no choice changes and nothing is sent |
| Setup.SetupPage.Submit | frontend/app/setup/page.tsx:95-98 | `submitted` is set only when both choices are non-empty, otherwise nothing changes |
| Setup.SetupPage.Edit | frontend/app/setup/page.tsx:236 | back to the form, with the choices kept |
| MirrorChart.VisibleMetricsExactly | frontend/app/components/MirrorChart.tsx:10 | a metric is shown iff it is in the list and its key is active |
| MirrorChart.VisibleMetricsAppend | frontend/app/components/MirrorChart.tsx:10 | the filter keeps the original order |
| MirrorChart.MaxOf | frontend/app/components/MirrorChart.tsx:12 | `d3.max` is one of the values and at least every value |
| MirrorChart.MaxValue | frontend/app/components/MirrorChart.tsx:12 | 1 when nothing is visible or the maximum is 0; otherwise the global maximum over both players; never 0 |
| MirrorChart.MaxValueBounds | frontend/app/components/MirrorChart.tsx:12 | the maximum bounds both values of every visible metric |
| MirrorChart.HeightCountsActive | frontend/app/components/MirrorChart.tsx:10-15 | the chart is 75 high for each metric whose key is active: as many visible metrics as active indices |
| MirrorChart.SideMarks | frontend/app/components/MirrorChart.tsx:62-120 | draws a bar iff the value is positive or the key is "games_played", with width 270·v/max; otherwise an "N/A" 20 from the axis |
| MirrorChart.Draw | frontend/app/components/MirrorChart.tsx:49-121 | the loop draws exactly the centre line followed by each visible metric's marks, in order |
| MirrorChart.ScaleWithin | frontend/app/components/MirrorChart.tsx:26-31 | for 0 ≤ v ≤ max, a bar's width lies in [0, 270] |
| MirrorChart.FullWidth | frontend/app/components/MirrorChart.tsx:26-31 | a value equal to the maximum spans the full 270 on either side |
| MirrorChart.LargestPresent | frontend/app/components/MirrorChart.tsx:12 | some visible value equals the positive shared maximum |
| MirrorChart.BarsInside | frontend/app/components/MirrorChart.tsx:26-31 | with values in [0, max], every bar lies within x ∈ [80, 620] |
| MirrorChart.ChartInside | frontend/app/components/MirrorChart.tsx:26-31 | for non-negative statistics, every bar of the chart lies within [80, 620] |
| BubbleChart.MaxPpg | frontend/app/components/BubbleChart.tsx:28 | the largest ppg, reached by some datum |
| BubbleChart.DynamicMax | frontend/app/components/BubbleChart.tsx:32-33 | a multiple of 5, at least 50 and at least the maximum; exactly 50 when the maximum ≤ 50, otherwise less than 5 above it |
| BubbleChart.DynamicMaxLeast | frontend/app/components/BubbleChart.tsx:32-33 | no smaller multiple of 5 that is ≥ 50 covers the maximum |
| BubbleChart.AxisStretches | frontend/app/components/BubbleChart.tsx:33 | a maximum of 51 gives an axis of 55 |
| BubbleChart.RadiusRange | frontend/app/components/BubbleChart.tsx:30 | radius is 15 + 0.3·fg; in [15, 45] for fg in [0, 100]; above 45 beyond 100 (not clamped) |
| BubbleChart.XWithin | frontend/app/components/BubbleChart.tsx:35 | ppg in [-5, dynamicMax] lands in [0, 640] |
| BubbleChart.YWithin | frontend/app/components/BubbleChart.tsx:37 | win% in [-18, 100] lands in [0, 390], and a higher win% sits higher |
| BubbleChart.RangeShape | frontend/app/components/BubbleChart.tsx:100 | `d3.range` counts up by the step from the start and keeps every value below the stop |
| BubbleChart.XTicks | frontend/app/components/BubbleChart.tsx:100 | the x ticks are 0, 5, …, dynamicMax inclusive |
| BubbleChart.YTicks | frontend/app/components/BubbleChart.tsx:105 | the y ticks are 0, 10, …, 100 |
| BubbleChart.Draw | frontend/app/components/BubbleChart.tsx:10-176 | the loops produce exactly the plot of the data: nothing for missing or empty data, otherwise one bubble and one legend row per datum |
| BubbleChart.PlotNumbering | frontend/app/components/BubbleChart.tsx:52-175 | nothing is drawn iff the data is missing or empty; otherwise bubbles are numbered 1..n in input order, and legend row i is offset 34·i and reads "i+1. name" |
| BubbleChart.BubblesInside | frontend/app/components/BubbleChart.tsx:35-37 | with ppg ≥ -5 and win% in [-18, 100], every bubble centre lies in the plot |
| BubbleChart.SingleDatum | frontend/app/components/BubbleChart.tsx:28-61 | one datum at 30 ppg, 80% wins and 50% FG gives axis 50 and radius 30, numbered "1." |

## Left out

- Numbers.Round: modelled on exact reals with ties to even. Python rounds binary floats, so a value
  that looks like a tie (such as 0.45 with 2 places) can round differently there. For the same reason,
  double rounding in the clutch summary is stated exactly, not as float behaviour.
- Numbers.MathRound and FavoriteHighlight.HeightCm: the products 30.48·F and 2.54·I are exact here.
  In floating point they carry rounding error.
- FavoriteHighlight.JsNumber: it covers only "" and digit strings. `Number`'s other forms give NaN here:
  whitespace, signs, decimals, exponents, hex and "Infinity".
- FavoriteHighlight.JsNumberNaN: the model sends every non-digit character to NaN. JavaScript's `Number`
  reads "6.5", " 6", "+6", "6e1" and "0x6" as numbers.
- FavoriteHighlight.HeightNotNumeric: for the same reason, a height such as "6.5-3" comes back
  unchanged here. The page shows `6.5'3" (206 cm)` for it.
- FavoriteHighlight.SelectTeam: `toLowerCase` is modelled for ASCII letters only.
- FavoriteHighlight.FormatDate: `new Date(iso).toLocaleDateString("en-GB")` is a parameter.
- FavoriteHighlight's rendering is left out:
  - the `isLoading || !user` gate;
  - trivia and stats text;
  - the crash when `form` is missing;
  - the icons.
- Registration: zod's e-mail check is a parameter.
- Registration: string length counts Unicode code points. JavaScript counts UTF-16 units, so the rule
  differs for characters outside the Basic Multilingual Plane.
- Registration: the console logging of non-zod errors is left out.
- Statistics.CalculatePlayerSummary: requires every row to hold the nine keys read with `row[...]`.
  In Python a missing key raises `KeyError`; the model does not return that error.
- Statistics.CalculateClutchSummary: requires every row to hold the four keys it reads. A missing key
  raises `KeyError` in Python, which is not modelled; only the division error is.
- Statistics.CalculateTeamStats: requires every row to hold the keys read with `row[...]` (shooting,
  scores, `win`). A missing one raises `KeyError` in Python, which is not modelled.
- Statistics: `print` calls are left out. Values are integers, and rows with non-numeric values are not
  modelled.
- SessionGuard: `jwtDecode` is a parameter. The user-info answer is either a status or a rejected
  request with its message; the payload is not inspected. The clock is `Date.now()` in milliseconds. A NaN `exp` and
  console output are not modelled. The query library's caching and retries are not modelled; there is
  a single attempt.
- Accounts:
  - JWT encoding and signing, bcrypt's hashing, and the salt generator are parameters or left out.
  - E-mail validation and normalisation by the request model is left out.
  - The SQL session and database constraints are left out. The `SECRET_KEY` start-up check, CORS and
    the root route are left out too.
  - The table is a sequence, and ids come from a counter.
  - The response returns the stored row; its serialisation is not modelled.
  - Concurrent registrations racing past the uniqueness checks are not modelled.
  - A Dafny `char` cannot be a lone surrogate, so the `UnicodeEncodeError` that `encode("utf-8")`
    raises for a password holding one (such as `"\ud800"` from a JSON body) is not modelled.
- Setup: the 300 ms debounce is a pending lookup fired by an explicit event. Real time, out-of-order
  responses, listener re-registration and the dropdown's "Loading…"/"No teams found" texts are left out.
- MirrorChart: the band scale's vertical positions and bandwidth are left out. So are fonts, colours
  and undefined or NaN values, which `d3.max` skips.
- BubbleChart.PlotNumbering: "nothing is drawn" means the effect returns before clearing the SVG
  (BubbleChart.tsx:10 precedes the clear at line 13). Bubbles drawn for earlier data stay on screen
  when the data becomes empty; the model has no earlier drawing.
- BubbleChart: the tooltip and its events are left out. So are axis and label styling, the label
  texts, the legend group's translation, and `d3.max`'s skipping of undefined values.
- Static pages, the API wrapper, the navigation bar, the logo and configuration files are not part
  of this model.

## Findings

| source | as written | input that shows it | evidently intended | confidence | as-written member | corrected member |
|---|---|---|---|---|---|---|
| backend/app/statistics.py:57 | `average_points` divides the point total by `num_games` without the `num_games > 0` guard that `ppg` and `win_percentage` have | an empty list of clutch rows, which raises ZeroDivisionError | zeros for a player with no clutch games, as the guarded fields give | not executed | Statistics.ClutchEmptyFails | Statistics.ClutchSummaryGuarded |
