# Taskboard: RICE scoring, route gate and status filter

A Dafny model of the three pieces of pure logic in a small task-board web
application:

- **`loadTasks`** (lib/tasks.js): starting from the parsed task file, every
  task's RICE parameters (reach, impact, confidence, effort) fall back to 1
  when missing or falsy, the score is reach × impact × confidence divided by
  max(1, effort) and rounded to two decimals, the list is sorted highest
  score first by a stable sort, and a summary (total, one count per status,
  top score) is built.
- **`middleware`** (middleware.js): a request passes when its path is an
  asset, API, favicon or the exact login path, or when its `task_auth`
  cookie is `ok`; otherwise it is redirected to `/login`.
- **The home page's status filter** (app/page.js): nothing before the data
  arrives, everything for `all`, otherwise the tasks with that status.

Modules, one per concern: `Optional` (absent values), `Rice` (defaulting,
divisor, `toFixed(2)` rounding, score), `TaskRecords` (task records, the
status filter and status counts), `Ranking` (the stable descending sort),
`Tasks` (`loadTasks` and its summary), `Gate` (the middleware) and
`HomePage` (the filter). Numbers are exact `real`s. `Round2` follows the
rounding rule of `Number.prototype.toFixed` in ECMA-262 on exact values:
the magnitude goes to the nearest hundredth, a tie goes to the larger
magnitude, the sign is put back, and magnitudes of 10^21 or more are left
as they are.

A parameter falls back to 1 only when it is falsy (missing, null or 0),
not when it is non-numeric. A negative parameter is truthy and is kept, so
a score can be negative (`Rice.NegativeReachKept`), unless the quotient is
so close to 0 that it rounds to 0.

## Model

| member | source | states |
|---|---|---|
| `Rice.OrOne` | lib/tasks.js:11-14 | a falsy parameter (missing, null, 0) becomes 1, a truthy one is kept unchanged; the result is never 0 |
| `Rice.Normalize` | lib/tasks.js:10-14 | a missing `framework` gives all-ones parameters; a present one has each of its four values put through `|| 1`; no defaulted parameter is 0 |
| `Rice.Divisor` | lib/tasks.js:15 | the divisor is at least 1 and at least the effort, and is one of the two |
| `Rice.Round2` | lib/tasks.js:15 | the rounded value is within half a hundredth of the input, keeps its sign, and below 10^21 in magnitude is a whole number of hundredths |
| `Rice.Score` | lib/tasks.js:15 | an effort at or below 1 divides by exactly 1, a larger one by itself; the score is within half a hundredth of the exact quotient |
| `Rice.ScoreNonNegative` | lib/tasks.js:15 | non-negative reach, impact and confidence give a non-negative score whatever the effort |
| `Rice.NegativeReachKept` | lib/tasks.js:11-15 | for every present negative reach: it is kept unchanged; with positive impact and confidence the score is at most 0; and the score is below 0 whenever the exact quotient is at or below -0.005 (a quotient closer to 0, such as reach -0.004 with the rest defaulted, scores 0) |
| `Rice.NegativeReachExample` | lib/tasks.js:11-15 | reach -2 with every other parameter missing is kept and scores -2 |
| `TaskRecords.ScoreTask` | lib/tasks.js:9-17 | id, title, status, owner, due and every other field pass through; only `framework` and `score` are rewritten, `framework` being the task's own parameters after defaulting and `score` the score of those |
| `TaskRecords.ScoredParameters` | lib/tasks.js:10-16 | each scored parameter is the task's own value when truthy and 1 otherwise, and the score is computed from exactly those values |
| `TaskRecords.ScoreAll` | lib/tasks.js:9 | the scored list has one entry per input task, each the scoring of the task at the same position |
| `TaskRecords.WithStatus` | lib/tasks.js:23-26 | every kept task has the status; the result is a sub-multiset of the input |
| `TaskRecords.Count` | lib/tasks.js:23-26 | the count is at most the list length and is zero exactly when no task has the status |
| `TaskRecords.CountIsFilterLength` | lib/tasks.js:23-26 | the count of a status equals the length of the list filtered by it |
| `TaskRecords.CountPermutation` | lib/tasks.js:19-26 | reordering a list does not change any status count |
| `TaskRecords.StatusCountsBound` | lib/tasks.js:22-26 | the four counts add up to at most the total, and to exactly the total if and only if every status is one of the four |
| `TaskRecords.WithStatusIsSubsequence` | app/page.js:17 | the status filter keeps the relative order of the tasks it keeps |
| `TaskRecords.WithStatusKeepsMatches` | app/page.js:17 | every task with the status occurs in the filtered list as often as in the input |
| `TaskRecords.WithStatusIdempotent` | app/page.js:17 | filtering twice by one status equals filtering once |
| `Ranking.Insert` | lib/tasks.js:19 | insertion adds exactly the one task and loses none |
| `Ranking.InsertSorted` | lib/tasks.js:19 | inserting into a list sorted highest score first keeps it sorted |
| `Ranking.InsertKeepsTieOrder` | lib/tasks.js:19 | an inserted task lands behind every task it ties with |
| `Ranking.SortByScore` | lib/tasks.js:19 | the result is sorted highest score first and is a permutation of the input |
| `Ranking.SortByScoreIsStable` | lib/tasks.js:19 | tasks with equal scores keep their input order |
| `Ranking.StableOrderUnique` | lib/tasks.js:19 | two score-sorted lists that order every score's tasks alike are equal |
| `Ranking.SortByScoreIsTheStableSort` | lib/tasks.js:19 | any score-sorted list that keeps ties in input order is the sort's result |
| `Ranking.SortedHeadIsMax` | lib/tasks.js:19-27 | the head of a sorted rearrangement is an input task with the highest score |
| `Tasks.TopScore` | lib/tasks.js:27 | no tasks give 0; otherwise the first task's score |
| `Tasks.RawTasks` | lib/tasks.js:8-9 | tasks come only from the document's `tasks` list; a present list is taken whole, an absent document or key gives none |
| `Tasks.UpdatedAt` | lib/tasks.js:8-30 | `updated_at` is the document's own value, absent when the document is |
| `Tasks.Summarize` | lib/tasks.js:21-28 | total is the list length; each status count is the length of the list filtered by that status; the four counts do not exceed the total; the top score is the one `Tasks.TopScore` gives (0 for no tasks, otherwise the first score) |
| `Tasks.LoadTasks` | lib/tasks.js:5-31 | one output task per input task (a permutation of the scored input), sorted highest score first, total equal to the number of tasks, `updated_at` passed through |
| `Tasks.LoadTasksEmpty` | lib/tasks.js:8-9 | an empty document or a missing `tasks` key gives no tasks and an all-zero summary |
| `Tasks.LoadTasksOnePerInput` | lib/tasks.js:9-17 | every output task is the scoring of an input task, and every input task's scoring is output |
| `Tasks.LoadTasksStable` | lib/tasks.js:19 | equal scores keep file order, and the output is the only score-sorted list that does so |
| `Tasks.LoadTasksCounts` | lib/tasks.js:19-26 | each status count equals the number of tasks in the file with that status |
| `Tasks.LoadTasksCountsAddUp` | lib/tasks.js:22-26 | the four counts add up to the total exactly when every task in the file has a known status |
| `Tasks.LoadTasksTopScore` | lib/tasks.js:19-27 | the top score is 0 for no tasks, otherwise the highest score of any task in the file |
| `Tasks.ExampleBoard` | lib/tasks.js:9-28 | reach 3, impact 2, confidence 0.8, effort 2 scores 2.4, all-ones scores 1, and the 2.4 task is listed first although the file lists it second |
| `Gate.Exempt` | middleware.js:5 | `/login` is exempt and the board at `/` is not; every exempt path has at least four characters and starts with `/` |
| `Gate.Middleware` | middleware.js:3-13 | a redirect always goes to `/login` and only happens without the cookie value `ok` |
| `Gate.ExemptPathsPass` | middleware.js:5-7 | asset, API, favicon and login paths pass whatever the cookie |
| `Gate.ExemptPrefixes` | middleware.js:5 | every path under `/_next`, `/api` or `/favicon` is exempt |
| `Gate.UnauthenticatedRedirected` | middleware.js:8-11 | any other path without the cookie value `ok` is redirected to `/login` |
| `Gate.AuthenticatedPasses` | middleware.js:8-12 | any path with the cookie value `ok` passes |
| `Gate.PassCharacterised` | middleware.js:5-12 | a request passes if and only if its path is exempt or its cookie value is `ok` |
| `Gate.LoginIsExact` | middleware.js:5 | a longer path beginning with `/login` (`/login/`, `/loginx`) is redirected without the cookie |
| `Gate.NoRedirectLoop` | middleware.js:5-10 | the redirect target passes whatever cookie follows, so there is no redirect loop |
| `Gate.SigningInIsMonotone` | middleware.js:5-12 | adding the `ok` cookie never turns a pass into a redirect |
| `Gate.BoardNeedsSignIn` | middleware.js:5-10 | a request for the board at `/` without the cookie value `ok` is redirected to `/login` |
| `HomePage.FilterTasks` | app/page.js:14-18 | no data gives no tasks, `all` gives the list unchanged, any other value keeps only tasks with that status, drawn from the list |
| `HomePage.FilterKeepsOrderAndMatches` | app/page.js:17 | for any list, the filtered list is a subsequence of it and keeps every matching task as often as it occurs |
| `HomePage.FilterStaysSorted` | app/page.js:17 | filtering a list sorted highest score first leaves it sorted |
| `HomePage.FilterMatchesSummary` | app/page.js:14-18 | on the loaded board each status filter shows as many tasks as the summary counts for it, and `all` shows the total |
| `HomePage.FilterIdempotent` | app/page.js:17 | filtering the filtered list again by the same value changes nothing |

## Left out

- Reading `data/tasks.yaml` and parsing YAML: file I/O and a foreign library. The model starts from the parsed document, where an empty file is an absent document and `tasks` and `updated_at` may be missing.
- `Number(...)` coercion of strings, and NaN, `false` or `""` as parameter values: parameters are numbers or absent.
- A `tasks` value that is not a list cannot be expressed: a truthy one makes the code throw at `.map` (lib/tasks.js:9), and a falsy one (`0`, `""`, `false`) gives no tasks, as a missing key does.
- A `framework` value that is not a mapping cannot be expressed either: a falsy one defaults every parameter to 1 as a missing one does, and a number or string gives all-ones parameters as well, since it has none of the four properties.
- Entries of `tasks` that are not mappings cannot be expressed: a null entry, on which the code throws at `t.framework`, and a number or string entry, which the code scores with all-ones parameters (spreading a string into index keys).
- Task fields: `id`, `title`, `status`, `owner` and `due` are always present strings and every other field is text, whereas the YAML parser may leave these fields out or give numbers, dates or nested objects; the code only compares `status` and passes the rest through.
- Binary floating point: arithmetic is exact. `Round2` rounds the exact quotient, where `toFixed` rounds the nearest double.
- The redirect URL's origin: `new URL('/login', req.url)` keeps the request's scheme and host; only the path is modelled.
- The `config.matcher` pattern of middleware.js:15: its meaning belongs to the framework's path matching, and every path it excludes is exempt anyway.
- React rendering, `fetch`, sign-out navigation and the loading view of app/page.js, and all of app/login/page.js and app/layout.js: user interface.
- The login, webhook, action-queue and task routes under app/api: cookie setting, HMAC signature checks and JSON handling in framework code; the comment and action-queue functions they import are not part of this model.
