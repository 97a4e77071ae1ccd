# Student study tracker: verified model of the study store and the analytics

This project models the core of the student study tracker's back end. Students record
study sessions. Each session has a title, a subject, a duration in minutes, a status
(Pending, In Progress, Completed) and a date. The server keeps sessions in a durable
document store. When that store is skipped or does not answer, it falls back to an
in-process store. The analytics views and the admin rollup are built on top of those
two stores. The model also covers the search and status filter of the study list page.

The model has these parts:

- `StudyModel`: sessions, users and the day arithmetic, with instants in milliseconds and a fixed zone offset.
- `MemoryStore`: the in-process store, a class whose two lists the methods update in place.
- `DurableStore`: the durable store, a class holding a map from id to document and an availability flag.
- `StudyRoutes`: the GET, POST, PUT and DELETE dispatch between the two stores.
- `SubjectStats`, `TimeShare`, `DailyBuckets`, `Consistency`, `Recommendations`, `Overview`: the analytics routes.
- `Admin`: the user list, the unrestricted delete and the all-users rollup.
- `StudyFilter`: the study list filter.
- `Seqs`, `Percent`, `Identifiers`: shared helpers.

Each `for`/`forEach` accumulation and each `find`/`findIndex` scan of the source is a
method, proved equal to a specification function that works on prefixes. The
`filter`/`map`/`reduce` chains are functions. The lemmas then state what those
functions mean.

Modelling choices:

- Instants are integer milliseconds. A local day is `(t + tz) / 86400000` for a fixed offset `tz`. Day 0 is a Thursday.
- `Number(x) || 0` is applied before the model: durations are integers and missing strings are `""`.
- A missing status on the in-process path is the extra status `Unset`. The durable schema turns it into `Pending`.
- A date field is absent, unparsable or an instant. The `s.date || s.createdAt` fallback applies only when `date` is absent.
- `toFixed(1)` of hours is kept in integer tenths of an hour, rounded half away from zero.
- `Math.round` of a percentage is kept as an integer rounded half up from the exact rational rate (see Left out for the floating-point difference).
- Completion rates are compared by cross-multiplication.
- The analytics views take the session list that the GET dispatch (`StudyRoutes.GetStudies`) would fetch.
- Results of the durable store's aggregations are inputs. `None` means the query failed.

## Model

| member | source | states |
|---|---|---|
| StudyModel.DefaultStatus | backend/models/Study.js:28-32 | a stored status is always one of the three enum values, and a given status is kept |
| StudyModel.WithoutPassword | backend/controllers/adminController.js:13 | dropping the password keeps the id, name, email and role |
| Identifiers.DecimalString | backend/utils/memoryStore.js:9 | `Date.now().toString()` is a non-empty string of decimal digits |
| Identifiers.MemoryIdsAreNotMongoIds | backend/utils/memoryStore.js:19 | an id the in-process store makes from the clock never has the 24-hex-digit durable shape, so the routes never send it to the durable store |
| Identifiers.MongoIdIgnoresCase | backend/routes/studies.js:8 | the durable-id test accepts upper- and lower-case hex digits alike |
| Percent.RoundedPercent | backend/routes/analytics.js:158-159 | the result is within half a unit of `100*part/whole`, and is in 0..100 when `0 <= part <= whole` |
| Percent.CompletionRate | backend/routes/analytics.js:232-234 | 0 with no sessions; in 0..100 when no more sessions are completed than exist; 100 when every session is completed; 0 when none is; within half a point of the exact rate |
| Percent.CompletionRateMonotone | backend/routes/analytics.js:234 | completing more sessions never lowers the completion rate |
| Percent.RoundHalfAway | backend/routes/analytics.js:68 | `toFixed` rounding: within half a unit of `n/d`, with ties going away from zero, and sign preserved |
| Percent.TenthsOfHours | backend/routes/analytics.js:204 | the hours in tenths are within half a tenth of `minutes/60` and are non-negative for non-negative minutes |
| Seqs.FirstIndex | backend/utils/memoryStore.js:27 | `findIndex`: -1 when no element passes the test, otherwise the first position whose element passes it |
| Seqs.FindFirst | backend/routes/analytics.js:226 | the front-to-back scan finds that first position |
| MemoryStore.RemoveAt | backend/utils/memoryStore.js:38 | `splice(index, 1)`: one shorter, the records before the index kept and the records after it shifted down |
| MemoryStore.Store.AddUser | backend/utils/memoryStore.js:8-12 | the new user gets a clock id unless the fields carry one, is appended, and the studies are untouched |
| MemoryStore.Store.FindUser | backend/utils/memoryStore.js:14 | none exactly when no user has the email; otherwise a stored user with that email |
| MemoryStore.Store.FindUserById | backend/utils/memoryStore.js:16 | none exactly when no user has the id; otherwise a stored user with that id |
| MemoryStore.Store.AddStudy | backend/utils/memoryStore.js:18-22 | the record gets a clock id and a `createdAt` of now unless the fields carry them, and it is appended |
| MemoryStore.Store.GetStudies | backend/utils/memoryStore.js:24 | for a string id, the owner's records in store order; for a durable user's object id, which `===` equals nothing stored, no records |
| MemoryStore.Store.FindStudyIndex | backend/utils/memoryStore.js:27 | the loop finds the first record with the id, or -1 |
| MemoryStore.Store.UpdateStudy | backend/utils/memoryStore.js:26-33 | a miss changes nothing and returns none; a hit merges the data into the first matching record in place and returns it |
| MemoryStore.Store.DeleteStudy | backend/utils/memoryStore.js:35-42 | a miss changes nothing and returns false; a hit removes exactly the first matching record and returns true |
| MemoryStore.OwnedStudiesExact | backend/utils/memoryStore.js:24 | the listing holds exactly the owner's records and keeps their order |
| MemoryStore.DeleteRemovesFirstOnly | backend/utils/memoryStore.js:35-42 | after a delete, the rest of the store is the old store in the same order with one record fewer |
| DurableStore.Store.FindById | backend/routes/studies.js:73 | found exactly when the store answers and holds the id cast to an object id, so the case of its hex letters does not matter |
| DurableStore.Store.FindByOwner | backend/routes/studies.js:17 | when the store answers, exactly the owner's documents |
| DurableStore.Store.Create | backend/routes/studies.js:42-50 | success stores the document under its new id; failure changes nothing; every record stays under its own id |
| DurableStore.Store.Update | backend/routes/studies.js:79 | the document found under the cast id merged with the body, keeping its id; a miss changes nothing; every record stays under its own id |
| DurableStore.Store.Delete | backend/routes/studies.js:109 | removes exactly the record under the cast id when the store answers and holds it |
| DurableStore.OwnedDocsOnePerKey | backend/routes/studies.js:17 | because every record sits under its own id, an owner's listing has one record per key holding one of theirs; none collapse |
| StudyRoutes.GetStudies | backend/routes/studies.js:11-30 | the durable answer exactly when the owner id has the durable shape and the store answers; otherwise, for an in-process user, their in-process records, and for a durable user none, even records saved for them when a create fell back |
| StudyRoutes.CreateStudy | backend/routes/studies.js:33-63 | always 201; exactly one store is written; a durable owner id with an answering store gives a durable document with the Pending default and a `date` of now if missing; otherwise the in-process store gets the record; every durable record stays under its own (lower-case) id |
| StudyRoutes.UpdateStudy | backend/routes/studies.js:66-93 | a durable hit owned by someone else is 401 and changes nothing; an owned hit is merged in the durable store only; anything else updates the first in-process match with no owner check, or is 404 |
| StudyRoutes.DeleteStudy | backend/routes/studies.js:96-123 | a durable hit owned by someone else is 401; an owned hit is removed from the durable store only; anything else removes the first in-process match, or is 404 |
| SubjectStats.SubjectIndex | backend/routes/analytics.js:210 | the position of a subject's entry, or -1 when it has none yet |
| SubjectStats.StatsSubjectsDistinct | backend/routes/analytics.js:207-218 | every subject entry has a non-empty name, and no subject has two entries |
| SubjectStats.StatsSubjectsPresent | backend/routes/analytics.js:209-212 | a named subject has an entry exactly when some session names it |
| SubjectStats.StatsOfMeaning | backend/routes/analytics.js:207-218 | each entry holds its subject's total minutes, session count and completed count over all sessions |
| SubjectStats.StatsCountsBounded | backend/routes/analytics.js:211-217 | every entry has at least one session and no more completed sessions than sessions |
| SubjectStats.ComputeSubjectStats | backend/routes/analytics.js:207-218 | the `forEach` builds exactly the per-subject table |
| TimeShare.WeakMeansBelowFifth | backend/routes/analytics.js:64-71 | for a non-zero total, "weak" is exactly "share below 20%", stated without division |
| TimeShare.ClassifiedExactlyOnce | backend/routes/analytics.js:63-76 | every subject lands in exactly one of the two lists, by the 20% test; the lists keep the input order and their sizes add up |
| TimeShare.ClassifySubjectsByTimeShare | backend/routes/analytics.js:52-79 | both lists are empty when the total is 0; otherwise they are the weak and strong shares of the entries |
| TimeShare.ComputeWeakAndStrongSubjects | backend/routes/analytics.js:82-117 | classifies the durable grouping without its unnamed row when it answered, otherwise the per-subject minutes of the sessions |
| DailyBuckets.WeekendNames | backend/routes/analytics.js:43 | the short name is "Sat" or "Sun" exactly on a weekend day |
| DailyBuckets.BuildDailyBuckets | backend/routes/analytics.js:36-49 | `n` empty buckets for the consecutive local days ending today, oldest first, with pairwise different days |
| DailyBuckets.FilledHoldsDayTotals | backend/routes/analytics.js:222-230 | after crediting every session, each bucket holds its day's minutes |
| DailyBuckets.FilledRunTotal | backend/routes/analytics.js:354-356 | a filled run of days adds up to the minutes of the sessions charted inside the run |
| DailyBuckets.WeeksSplit | backend/routes/analytics.js:334-336 | the last week and the week before it together cover the last fourteen days |
| DailyBuckets.WindowWithinTotal | backend/routes/analytics.js:203 | with no negative durations, a window of days holds between 0 and all of the minutes |
| DailyBuckets.FindBucket | backend/routes/analytics.js:226 | the loop finds the first bucket of the day |
| DailyBuckets.CreditSession | backend/routes/analytics.js:223-229 | a session's minutes go to the bucket of its chart day, if the run has one |
| DailyBuckets.FillBuckets | backend/routes/analytics.js:222-230 | the `forEach` credits every session in turn |
| DailyBuckets.SumBuckets | backend/routes/analytics.js:355 | the `reduce` is the sum of the bucket minutes |
| Consistency.LevelOf | backend/routes/analytics.js:161-163 | Excellent exactly from 71, Average exactly from 41 to 70, Poor below 41 |
| Consistency.DatedStampsMembership | backend/routes/analytics.js:130-132 | the counted instants are exactly the dates of the sessions whose date is present and valid |
| Consistency.DayKeysMembership | backend/routes/analytics.js:134-135 | the set of studied days holds exactly the days of those instants |
| Consistency.Earliest | backend/routes/analytics.js:137-139 | `firstDate` is one of the instants and no instant is earlier |
| Consistency.ComputeConsistencyScore | backend/routes/analytics.js:120-166 | the handler as written (UTC day keys); 0 and Poor when no session has a valid date |
| Consistency.CorrectedScoreBounded | backend/routes/analytics.js:146-159 | with day keys in the local zone and no future session, the score is in 0..100 |
| Consistency.FullAttendanceScoresHundred | backend/routes/analytics.js:150-159 | with a session on every local day from the first to today, the corrected score is 100 and Excellent |
| Consistency.KeysWithinSpan | backend/routes/analytics.js:146-151 | with no future session, every local studied day lies between the first day and today |
| Consistency.AsWrittenBoundedInUtc | backend/routes/analytics.js:134 | in a zone at offset 0 the score as written is a percentage |
| Consistency.UtcKeysOverflow | backend/routes/analytics.js:134 | at UTC+10, sessions at 08:00 and 20:00 on one local day score 200 as written and 100 corrected |
| Recommendations.Join | backend/routes/analytics.js:173 | no names join to the empty text, one name to itself |
| Recommendations.JoinLength | backend/routes/analytics.js:173 | the joined text is as long as the names plus one separator between each pair of neighbours |
| Recommendations.JoinNamesInPlace | backend/routes/analytics.js:173 | every name appears in the joined text, in order, at the offset after the earlier names and their separators |
| Recommendations.JoinSeparatorsInPlace | backend/routes/analytics.js:173 | the separator sits between each name and the next |
| Recommendations.BuildRecommendations | backend/routes/analytics.js:169-194 | at most three messages in a fixed order; the focus message, naming the weak subjects, comes first exactly when some subject is weak; "finish pending" exactly below 50%; "tighten schedule" exactly from 50% to below 80%; "recover momentum" exactly when this week is below the last |
| Recommendations.RecentTrend | backend/routes/analytics.js:333-357 | the current total is the minutes charted on the last seven local days; the previous total is those of the seven days before |
| Recommendations.TrendWithinTotal | backend/routes/analytics.js:354-357 | with no negative durations both totals are non-negative and together at most all the minutes |
| Recommendations.RecommendationsView | backend/routes/analytics.js:321-372 | the advice for the weak subjects, the overall completion rate and the two-week trend |
| Overview.LowestIndexIsFirstMinimum | backend/routes/analytics.js:238-249 | the pick is a subject below 101% with the lowest rate, and the first of those in table order; there is none when no subject is eligible |
| Overview.LowestCompletion | backend/routes/analytics.js:241-249 | the loop makes that pick |
| Overview.WeekSplits | backend/routes/analytics.js:257-262 | the weekend and weekday minutes add up to the whole week |
| Overview.Insights | backend/routes/analytics.js:251-273 | at most three insights in a fixed order; focus first exactly when there is a pick; "weekends" exactly when weekend exceeds weekday; "weekday habits" exactly otherwise with some weekday minutes; "streak" exactly from five active days |
| Overview.FocusInsight | backend/routes/analytics.js:251-255 | present exactly when there is a pick with a name and sessions; it names the picked subject and gives its rounded rate |
| Overview.FocusNamesLowestSubject | backend/routes/analytics.js:238-255 | the focus insight names a subject with sessions, reports that subject's own rounded completion rate, and no named subject has a lower rate |
| Overview.FocusWhenAnySubject | backend/routes/analytics.js:238-255 | the focus insight is shown exactly when some session names a subject |
| Overview.WeeklyActivity | backend/routes/analytics.js:221-230 | seven buckets for the last seven local days, named by weekday, each holding its day's minutes |
| Overview.Summarize | backend/routes/analytics.js:198-288 | totals, completion rate, subject table, weekly chart and insights of the overview |
| Admin.ListUsers | backend/controllers/adminController.js:8-21 | the durable users when the store answers; otherwise every in-process user, in order, with the password dropped |
| Admin.DeleteAnyStudy | backend/controllers/adminController.js:41-63 | a durable-shaped id touches only the durable store, is looked up in either letter case, and is 404 when missing or unreachable; any other id removes the first in-process match, or is 404 |
| Admin.IndexRowsMeaning | backend/controllers/adminController.js:88-91 | an owner is indexed exactly when some row names it, and holds the last row that does |
| Admin.IndexRowsByUser | backend/controllers/adminController.js:88-91 | the loop builds that index, and an empty index when the grouping failed |
| Admin.TotalsOf | backend/controllers/adminController.js:93-107 | a consistent row gives a rate in 0..100 |
| Admin.MemoryRowConsistent | backend/controllers/adminController.js:130-133 | an in-process user's sessions are exactly their records, and no more of them are completed than exist |
| Admin.GlobalConsistent | backend/controllers/adminController.js:110-121 | consistent per-user figures give consistent sums and a global rate in 0..100 |
| Admin.SumUp | backend/controllers/adminController.js:110-121 | the `reduce` sums the per-user figures and rates the sums |
| Admin.AllUsersAnalytics | backend/controllers/adminController.js:66-162 | a user list from the store, even an empty one, takes the durable path with zeros for users without a row; otherwise every in-process user is rolled up from their own records; the global figures are the sums |
| Admin.MemoryRollupRatesBounded | backend/controllers/adminController.js:126-155 | on the in-process path every rate, per user and global, is a percentage |
| Identifiers.LowerCase | frontend/src/pages/StudyManagement.jsx:112-113 | lower-casing keeps the length and maps every letter |
| StudyFilter.FilteredStudiesMeaning | frontend/src/pages/StudyManagement.jsx:109-116 | the list shows exactly the sessions whose title or subject contains the term and whose status matches, in list order |
| StudyFilter.SearchIgnoresCase | frontend/src/pages/StudyManagement.jsx:112-113 | the case of the search term never matters |
| StudyFilter.EmptySearchShowsAll | frontend/src/pages/StudyManagement.jsx:112-114 | an empty term filters by status alone, and with "All" shows every session |

## Left out

- Authentication (`protect`, tokens, roles) is not modelled. The handlers take the caller's id as a parameter.
- The clock, the zone offset and new durable ids are parameters. Daylight-saving changes are not modelled.
- New durable ids are taken to be written in lower-case hex, as Mongo prints them; the durable store keeps every record under its own id, in that form, and casts looked-up ids to it.
- The durable store's queries are reduced to what the handlers use. The `$group` aggregations of subjects and of owners are inputs (`None` when the query failed), not computed from the documents.
- Schema validation of a create is not modelled. A create that fails validation falls back to the in-process store, which the model shows only as a failed create.
- DurableStore.Store.Update: a body with a different `_id` makes the durable store raise an error; the model keeps the stored id instead.
- `getAllStudies` (the admin list of all sessions, sorted and populated) is not modelled. It only reads one of the stores.
- StudyRoutes.GetStudies: the durable answer is a set, because its `sort({ date: -1 })` order is not modelled.
- Floating point is not modelled. Hours are integer tenths; `toFixed` artifacts of binary fractions are not captured. The global `totalHours` is the sum of the per-user tenths.
- Percent.CompletionRate: `Math.round((c / t) * 100)` rounds a binary fraction; where that product falls just below a half, the source rounds down and the model up (23 of 40 sessions: 57.49999999999999 gives 57, the model 58). The 50, 80, 41 and 71 thresholds are unaffected.
- The schema's `trim` of title, subject and description (backend/models/Study.js:13,18,22) is not modelled: the source stores a durable subject trimmed, so " Math" groups with "Math" there, while the model keeps the spaces and groups them apart.
- StudyRoutes.CreateStudy: a record saved in the in-process store for a durable user holds that user's object id as an object; the model holds its string form, which no lookup in the model matches either.
- Object key order is not modelled. Subjects keep first-seen order; the engine puts integer-like keys first.
- `computeConsistencyScore` on a value that is not an array is not modelled. It only ever receives a list.
- `typeof completionRate === 'number'` always holds, since the rate is always a number. The check is not modelled.
- Lower-casing covers ASCII letters only.
- Response bodies are reduced to tags and payloads. Message wording, console logging and status 500 on unexpected exceptions are not modelled.
- Concurrency between requests is not modelled. Each handler runs to completion.

## Findings

| source | as written | input that shows it | evidently intended | confidence | as-written member | corrected member |
|---|---|---|---|---|---|---|
| backend/routes/analytics.js:134 | studied days are keyed by their UTC date (`toISOString`), while the span they are divided by counts local days (lines 146-151) | zone UTC+10, two sessions at local 08:00 and 20:00 today, the first of them the earliest: two UTC dates over a one-day span give a score of 200 | the days keyed in the same local zone as the span, so the score stays within 0..100 | high, not executed | Consistency.UtcKeysOverflow | Consistency.CorrectedScoreBounded |
