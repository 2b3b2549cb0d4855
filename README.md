# Automation health monitor: the heartbeat and status core in Dafny

This project models the server side of a service-health dashboard. External automation jobs
("services") post heartbeats, and the dashboard lists each job with a health state worked out
from how long ago its last ping arrived. All data lives in a Google spreadsheet:

- the first tab holds one row per service (id, name, client, reported status, last ping, notes,
  schedule in hours, and an active flag in column I);
- `SiteConfig` holds key/value settings;
- `Leads` (or the fallback tab `automation heath`) holds website leads.

The modules follow the source files:

| module | models |
|---|---|
| `Http` | optional values, replies with an HTTP status, JavaScript truthiness, the shared-secret gate |
| `Text` | the string methods the core calls: ASCII `toLowerCase`/`toUpperCase`, `startsWith`, `includes`, decimal printing |
| `StatusLogic` | `calculateStatus` and `formatTimeAgo` (src/lib/status-logic.ts) |
| `Sheet` | rows and cells, `values.update` of a block, `findIndex` by key, and the `Workbook` class whose `tabs` the write routes update |
| `Heartbeat` | `POST /api/heartbeat` |
| `Services` | `GET /api/services` |
| `ServiceControl` | `POST /api/services/control` |
| `SiteConfig` | `GET` and `POST /api/config` |
| `Leads` | `GET` and `POST /api/leads` |
| `Credentials` | the quote stripping of the service-account key in `getGoogleSheetsClient` |
| `Middleware` | the page guard of src/middleware.ts |

The four handlers that write to the sheet (`Heartbeat.Post`, `ServiceControl.Post`,
`SiteConfig.Post`, `Leads.Post`) are module-level methods. Each takes the spreadsheet as a
`wb: Sheet.Workbook` parameter, and its `modifies wb` clause names it. Each postcondition gives
the reply and the exact new `tabs` for every branch, in the source's order. Every error branch
states `unchanged(wb)` except one: in `Leads.Post`, a bridge `fetch` that throws gives a 500
reply after the lead row has already been appended.

Of the read-only handlers, `Services.List` and `Leads.List` are functions of their inputs.
`SiteConfig.Get` is a method: its loop builds the object row by row, and its postcondition ties
the result to the function `SiteConfig.ConfigOf`.

Things that lie outside the program are parameters:

- the clock, `new Date(...)` and `parseFloat`;
- whether environment variables are set;
- whether a session token is present;
- which store calls throw, and the error message they throw.

A tab's sequence of rows includes its header row. A scan of `A:G` therefore sees index `i` at
sheet row `i + 1`, and a read of `A2:G` sees `rows[1..]`. An empty first tab stands for a read
that returned no `values`.

Some behaviours of the code are easy to miss. Each is stated here as the code has it:

- A heartbeat for a `service_id` that no row carries is answered 404, and no row is appended
  (src/app/api/heartbeat/route.ts:32-35).
- A successful heartbeat replies `{ success, timestamp }` only (src/app/api/heartbeat/route.ts:42).
- None of the modelled routes calls an alerting service when a job reports a failure.
- Both status thresholds are strict `>` (src/lib/status-logic.ts:29 and :33). In exact arithmetic,
  a silence of exactly the schedule is therefore `nominal`, and one of exactly 1.2 times the
  schedule is `warning` (`StatusLogic.ThresholdsAreStrict`). In the source's double arithmetic
  the second boundary can fall the other way (see "## Left out").
- `GET /api/services` calls `calculateStatus` without the reported status of column D
  (src/app/api/services/route.ts:31). The displayed state therefore depends on the clock alone
  (`Services.ViewReadsOnlyItsColumns`).

## Model

| member | source | states |
|---|---|---|
| Http.Or | src/app/api/heartbeat/route.ts:40 | `s \|\| fallback`: the value when it is a non-empty string, else the fallback |
| Http.KeyAccepted | src/app/api/heartbeat/route.ts:9 | no contract of its own: the shared-secret gate, accepting a non-empty key equal to the secret; characterised by `Http.UnsetSecretAdmitsNobody` and `Http.GateSpellingsAgree` |
| Http.UnsetSecretAdmitsNobody | src/app/api/heartbeat/route.ts:9 | an unset or empty secret rejects every `x-api-key`, the missing one included |
| Http.GateSpellingsAgree | src/app/api/leads/route.ts:36 | the heartbeat spelling `!apiKey \|\| apiKey !== secret` and the leads spelling `!secret \|\| apiKey !== secret` accept exactly the same requests |
| Text.Lower | src/lib/status-logic.ts:21 | `toLowerCase` keeps the length and maps each character (ASCII letters) |
| Text.Upper | src/app/api/services/control/route.ts:32 | `toUpperCase` keeps the length and maps each character (ASCII letters) |
| Text.LowerIdempotent | src/app/api/services/route.ts:39 | lower-casing twice equals lower-casing once |
| Text.ContainsAt | src/middleware.ts:13 | `includes(part)` holds exactly when `part` starts at some offset |
| Text.NatToString | src/lib/status-logic.ts:47-56 | printing a number gives a non-empty string of digits with no leading zero |
| Text.NatToStringRoundTrip | src/lib/status-logic.ts:47-56 | reading the printed digits back gives the number |
| Text.NatToStringInjective | src/lib/status-logic.ts:47-56 | different numbers print differently |
| StatusLogic.CalculateStatus | src/lib/status-logic.ts:13-38 | an exact condition for each of offline, warning and nominal: no ping, a reported error/failure in any case, or silence past 1.2 times the schedule is offline; a reported warning, or silence past the schedule but not past the grace, is warning; anything else is nominal |
| StatusLogic.ReportedFailureAtPingTime | src/lib/status-logic.ts:21-23 | a reported error or failure is offline even for a ping received this instant |
| StatusLogic.ReportedWarningIgnoresClock | src/lib/status-logic.ts:24-26 | a reported "WARNING"/"Warning" is warning whatever the ping's age |
| StatusLogic.SeverityMonotone | src/lib/status-logic.ts:29-37 | with nothing reported, an older ping never gets a healthier state than a newer one |
| StatusLogic.ThresholdsAreStrict | src/lib/status-logic.ts:29-35 | silence exactly equal to the schedule is nominal, and exactly 1.2 times the schedule is warning |
| StatusLogic.DailyJobExamples | src/lib/status-logic.ts:29-37 | on a 24-hour schedule, 26 hours is warning, 30 hours is offline, 0 hours is nominal |
| StatusLogic.FormatTimeAgo | src/lib/status-logic.ts:40-57 | "Never" exactly when there is no ping; otherwise the text ends in one of the four unit suffixes |
| StatusLogic.NestedFloors | src/lib/status-logic.ts:49-55 | the source's nested `Math.floor` divisions equal one division by 3600 or 86400 |
| StatusLogic.TimeAgoUnit | src/lib/status-logic.ts:45-56 | for a non-negative age in seconds `s`: below 60 prints `s`s, below 3600 prints `s/60`m, below 86400 prints `s/3600`h, else `s/86400`d |
| StatusLogic.TimeAgoLargestWholeUnit | src/lib/status-logic.ts:45-56 | the printed unit is the largest that fits at least once, and the count `n` satisfies n units <= age < n+1 units |
| Sheet.SetCells | src/lib/google-sheets.ts:46-56 | writing values into a row from a column: the new length, the written cells, blank padding, all other cells unchanged |
| Sheet.SetCellsIdempotent | src/lib/google-sheets.ts:46-56 | writing the same cells twice is writing them once |
| Sheet.SetCellsInPlace | src/lib/google-sheets.ts:46-56 | writing one existing cell is a plain update of that cell |
| Sheet.UpdateBlock | src/lib/google-sheets.ts:46-56 | `values.update` of a block: the rows it covers receive the block's rows from the left column, rows are added past the end, other rows are as before |
| Sheet.FirstMatch | src/app/api/heartbeat/route.ts:29 | `findIndex(row => row[0] === id)`: a matching index with no match before it, or none when no row matches |
| Sheet.FirstMatchKeptByKeyPreservingWrite | src/app/api/heartbeat/route.ts:29 | a write that keeps every key cell keeps the first match |
| Sheet.WriteIntoRowFrame | src/lib/google-sheets.ts:46-56 | writing into an existing row adds no row, changes no other row, and changes only the written cells of that row |
| Sheet.WriteIntoRowIdempotent | src/lib/google-sheets.ts:46-56 | repeating a row write leaves the table as one write did |
| Sheet.Workbook.constructor | src/lib/google-sheets.ts:24-56 | a workbook holding the given tabs, with the given first tab |
| Heartbeat.Apply | src/app/api/heartbeat/route.ts:29-40 | no contract of its own: the service tab after an accepted heartbeat; characterised by `Heartbeat.ApplyFrame`, `ApplyLeavesLaterDuplicates`, `ApplyUnknownId` and `ApplyIdempotent` |
| Heartbeat.ApplyFrame | src/app/api/heartbeat/route.ts:29-40 | only the first row with the id changes, and in it only columns D-F: status (default "nominal"), the time, and the message (default ""); a short row is padded with blanks |
| Heartbeat.ApplyLeavesLaterDuplicates | src/app/api/heartbeat/route.ts:29 | a later row carrying the same id is left as it was |
| Heartbeat.ApplyUnknownId | src/app/api/heartbeat/route.ts:32-35 | an id no row carries leaves the table as it was |
| Heartbeat.ApplyIdempotent | src/app/api/heartbeat/route.ts:39-40 | the same heartbeat at the same time applied twice equals applying it once |
| Heartbeat.Post | src/app/api/heartbeat/route.ts:4-47 | in order: 401 "Unauthorized", 400 when `service_id` is missing or empty, 500 with a read error's message, 500 "Could not fetch sheet data", 404 "Service not found in master sheet", 500 with a write error's message; otherwise the timestamp is returned and only the service tab is rewritten; nothing changes on any error |
| Services.Schedule | src/app/api/services/route.ts:31 | `parseFloat(row[6]) \|\| 24`: the parsed value when it exists and is non-zero, else 24; never 0 |
| Services.ToView | src/app/api/services/route.ts:27-34 | no contract of its own: the `data.map` callback; characterised by `Services.ViewReadsOnlyItsColumns`, `ViewNotes`, `NeverPingedRow` and the contracts of `Schedule`, `CalculateStatus` and `FormatTimeAgo` |
| Services.ViewReadsOnlyItsColumns | src/app/api/services/route.ts:27-34 | a view depends only on columns A, B, C, E, F and G; the reported status and the active flag do not affect it |
| Services.ViewNotes | src/app/api/services/route.ts:33 | notes are column F, or "" when it is missing |
| Services.NeverPingedRow | src/app/api/services/route.ts:31-32 | a row with an empty or missing last ping is offline and shown as "Never" |
| Services.Views | src/app/api/services/route.ts:27-34 | one view per row, in row order |
| Services.OfClientOnly | src/app/api/services/route.ts:37-41 | the filter keeps exactly the views of the wanted client, in their order, each as many times as it occurs |
| Services.List | src/app/api/services/route.ts:6-55 | 500 "Not configured"; 401 when neither a filter nor a token is present; 500 "Failed to fetch services" on a read error; unfiltered with a token and a successful read, always a listing of one view per row; filtered, exactly the client's views in order with their multiplicities, and 500 "Failed to fetch services" exactly when some row has no client cell |
| Services.FilteredListingIsPublic | src/app/api/services/route.ts:15-21 | a listing filtered by client is the same with or without a session |
| Services.FilterCaseInsensitive | src/app/api/services/route.ts:38-40 | the filter's letter case does not change the listing |
| ServiceControl.NewState | src/app/api/services/control/route.ts:30-38 | always "TRUE" or "FALSE"; `disable` gives FALSE; `toggle` gives TRUE exactly when the cell reads "false" in any case; `enable` and unknown actions give TRUE |
| ServiceControl.Apply | src/app/api/services/control/route.ts:25-42 | no contract of its own: the service tab after an accepted action; characterised by `ServiceControl.ApplyFrame`, `ApplyUnknownId`, `ApplyKeepsMatch`, `SetActionIdempotent`, `ApplyInPlace` and `ToggleTwiceRestores` |
| ServiceControl.ApplyFrame | src/app/api/services/control/route.ts:25-42 | only column I of the first matching row changes, to the new state; no row is added |
| ServiceControl.ApplyUnknownId | src/app/api/services/control/route.ts:25-28 | an unknown id leaves the table as it was |
| ServiceControl.ApplyKeepsMatch | src/app/api/services/control/route.ts:25 | the matched row is the same before and after an action |
| ServiceControl.SetActionIdempotent | src/app/api/services/control/route.ts:34-38 | every action except `toggle` applied twice equals applying it once |
| ServiceControl.ApplyInPlace | src/app/api/services/control/route.ts:41-42 | when the row has column I, an action is a plain update of that one cell |
| ServiceControl.ToggleValueTwice | src/app/api/services/control/route.ts:31-33 | toggling "TRUE" or "FALSE" twice gives it back |
| ServiceControl.ToggleTwiceRestores | src/app/api/services/control/route.ts:31-42 | two toggles of a flag holding "TRUE" or "FALSE" give back the original table |
| ServiceControl.Post | src/app/api/services/control/route.ts:5-49 | in order: 401, 400 "Missing parameters", 500 with a read error's message, 404 "Data not found", 404 "Service not found", 500 with a write error's message; otherwise `isActive` is whether the new state is "TRUE", and only the flag cell of the service tab is rewritten; nothing changes on any error |
| SiteConfig.ConfigOf | src/app/api/config/route.ts:13-16 | no contract of its own: the object the `reduce` builds; characterised by `SiteConfig.ConfigKeys`, `ConfigLastWins`, `ConfigOfReadsKeysAndValues` and `EmptyTabIsEmptyConfig` |
| SiteConfig.ConfigKeys | src/app/api/config/route.ts:13-16 | the object's keys are exactly the rows' key cells |
| SiteConfig.ConfigLastWins | src/app/api/config/route.ts:13-16 | a key holds the value of the last row carrying it |
| SiteConfig.ConfigOfReadsKeysAndValues | src/app/api/config/route.ts:13-16 | the object depends only on each row's first two cells |
| SiteConfig.Get | src/app/api/config/route.ts:5-22 | 500 "Not configured"; 500 "Failed to fetch config" on a read error; otherwise the object the rows build |
| SiteConfig.EmptyTabIsEmptyConfig | src/app/api/config/route.ts:11 | no rows give the empty object |
| SiteConfig.EntryRows | src/app/api/config/route.ts:34 | no contract of its own: one `[key, value]` row per entry; characterised by `SiteConfig.EntryRowsRoundTrip` |
| SiteConfig.EntriesMapSnoc | src/app/api/config/route.ts:34 | an object with distinct keys is the object of all but its last entry, plus that entry |
| SiteConfig.EntryRowsRoundTrip | src/app/api/config/route.ts:34 | reading back the rows the entries become gives the posted object |
| SiteConfig.AfterPost | src/app/api/config/route.ts:34-35 | no contract of its own: the `SiteConfig` tab after the update as written; characterised by `SiteConfig.PostThenGet` and `StaleRowOverridesPost` |
| SiteConfig.PostThenGet | src/app/api/config/route.ts:34-35 | when no old setting rows lie below the written ones, the next GET returns the posted object |
| SiteConfig.StaleRowOverridesPost | src/app/api/config/route.ts:34-35 | as written: posting {b: "3"} over rows a=1, b=2 reads back b=2 |
| SiteConfig.ReplacingPostThenGet | src/app/api/config/route.ts:34-35 | with the setting rows replaced, the next GET always returns the posted object |
| SiteConfig.Post | src/app/api/config/route.ts:24-40 | 401; 500 "Failed to update config" when the write fails or the tab is missing; otherwise only the `SiteConfig` tab is rewritten, with the entries written from row 2; nothing changes on any error |
| Leads.Risk | src/app/api/leads/route.ts:64 | "HIGH (BOT)" exactly for a webdriver, "MEDIUM" exactly for a paste without one, "LOW" otherwise |
| Leads.EvidenceRow | src/app/api/leads/route.ts:56-72 | 14 cells: timestamp, type (default "CONTACT"), name/email/message (default "N/A"), ip (default "UNKNOWN"), the risk, the paste flag as YES/NO, and the meta JSON in the last cell |
| Leads.PasteColumnsAgree | src/app/api/leads/route.ts:64-68 | the paste column is YES exactly for a paste; a MEDIUM risk implies YES; YES never comes with LOW risk |
| Leads.NotificationUrl | src/app/api/leads/route.ts:85-87 | `ROI_CALC` leads go to the ROI bridge URL, all others to the contact URL |
| Leads.Post | src/app/api/leads/route.ts:30-128 | 403 "Forbidden" when the key is unset or differs; 500 "Not configured"; the row is appended to `Leads`, or else to `automation heath`, and `saved_to` names that tab; a failing bridge call gives 500 after the row is saved; when both appends fail, 500 with nothing changed |
| Leads.List | src/app/api/leads/route.ts:5-28 | 500 "Not configured" before the session check; 401; 500 "Failed to fetch leads"; with a token and a successful read, always a listing of one lead per row from columns A-E, in order |
| Leads.LeadOf | src/app/api/leads/route.ts:16-22 | no contract of its own: one listed lead from columns A-E; characterised by `Leads.List`, `AppendedLeadIsListedLast` and `EvidenceRowAsListed` |
| Leads.AppendedLeadIsListedLast | src/app/api/leads/route.ts:13-22 | a lead row appended below the header is the last entry of the next listing |
| Leads.EvidenceRowAsListed | src/app/api/leads/route.ts:16-22 | the listing shows a posted lead's type as its name, its name as its email, its email as its company, and its message as its notes |
| Credentials.SliceInner | src/lib/google-sheets.ts:10 | `slice(1, -1)`: the inner characters, or "" for fewer than two characters |
| Credentials.SliceInnerIsInfix | src/lib/google-sheets.ts:10 | the slice is a contiguous piece of the text |
| Credentials.InfixOfInfix | src/lib/google-sheets.ts:9-14 | a piece of a piece is a piece |
| Credentials.CredentialsText | src/lib/google-sheets.ts:6-14 | "{}" when the variable is unset or empty; first one layer of single quotes and then one layer of double quotes is removed; the result is a piece of the raw value; unquoted text is kept as it is |
| Credentials.CredentialsExamples | src/lib/google-sheets.ts:9-14 | `'"x"'` becomes `x`; a lone quote becomes "" |
| Middleware.Exempt | src/middleware.ts:9-15 | no contract of its own: the paths that pass without a session; characterised by `Middleware.RedirectIsFinal`, `HeartbeatPathsPass` and `FaviconPathsPass`, with `Text.ContainsAt` |
| Middleware.Decide | src/middleware.ts:4-27 | a redirect exactly when no token is present and the path is not exempt, and always to /login |
| Middleware.TokenAlwaysPasses | src/middleware.ts:20-26 | a session token always passes |
| Middleware.RedirectIsFinal | src/middleware.ts:14-24 | the redirect target itself passes, so redirects do not loop |
| Middleware.HeartbeatPathsPass | src/middleware.ts:11 | every path under /api/heartbeat passes without a session |
| Middleware.FaviconPathsPass | src/middleware.ts:13 | any path containing "favicon.ico" passes |

## Left out

- Date and number parsing: `new Date(...)` and `parseFloat` are parameters (`Services.Clock`). An invalid date (NaN) is not modelled. The comparisons with NaN that make an unparseable ping nominal and print "NaNd ago" are therefore not modelled either.
- Floating point: hours are exact reals, so `scheduleHours * 1.2` has no rounding error. StatusLogic.CalculateStatus and StatusLogic.ThresholdsAreStrict therefore put a silence of exactly 1.2 times the schedule in `warning`. In IEEE doubles `24 * 1.2` is 28.799999999999997 while the elapsed 103680000 ms / 3600000 is 28.8, so the source gives `offline` at that boundary for a 24-hour schedule (and likewise for 3, 6, 12 or 48 hours).
- StatusLogic.TimeAgoUnit: stated only for non-negative ages; a ping stamped in the future prints a negative count of seconds, which `FormatTimeAgo` covers but no lemma characterises.
- Text.Lower, Text.Upper: ASCII letters only; JavaScript maps all of Unicode.
- The Sheets API client: the A1 range strings, authentication, `JSON.parse` of the key, and trailing empty cells the API trims from reads.
- Sheet.UpdateBlock: the model keeps a row as written; it does not trim the trailing blanks the API omits on the next read.
- JSON bodies are already-parsed inputs. A body that fails to parse throws outside the handler's `try` in the config and leads routes. That case is not modelled.
- Body values that are not strings (numbers, objects) are not modelled; `service_id`, `action` and config values are strings.
- Error `details` fields and all `console` logging are not modelled.
- SiteConfig.Get, Services.List, Leads.List: a `None` value stands for `undefined`, which `NextResponse.json` drops from the JSON body. A config key whose last row has no column B is therefore absent from the response, while `ConfigOf` keeps it as `None`. Through the settings page, which reads the object and posts it back whole, such a key makes the next POST one row shorter and leaves one more stale row below the written block.
- SiteConfig.ConfigOf: a key named `__proto__` does not behave as an own property of a JavaScript object; keys are compared as plain strings.
- SiteConfig.Post: `Object.entries` lists integer-like keys first; the entries are taken in the given order.
- Leads.Post: `values.append` to `Leads!A2` is modelled as adding the row after the tab's last row. The Sheets API appends after the table it detects within the given range, and that table detection is not modelled.
- Leads.Post: the bridge call's manual redirect follow and the status it returns are not modelled. The only effect kept is that a thrown `fetch` fails the request.
- The `matcher` regular expression of src/middleware.ts is not modelled; `Middleware.Decide` models the function body.
- Concurrency: each handler is one atomic step, so the read-then-write race between two heartbeats is not modelled.
- src/lib/trello.ts, the pages and components, and the next-auth route are not part of this model.

## Findings

| source | as written | input that shows it | evidently intended | confidence | as-written member | corrected member |
|---|---|---|---|---|---|---|
| src/app/api/config/route.ts:34-35 | `POST` overwrites `SiteConfig!A2:B` with one row per posted key, and rows below the written block stay | tab rows a=1, b=2; post {b: "3"}; the next GET returns b = "2" | the settings tab afterwards holds exactly the posted settings, so a GET returns what was posted | medium, not executed | SiteConfig.StaleRowOverridesPost | SiteConfig.ReplacingPostThenGet |
