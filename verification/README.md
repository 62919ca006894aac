# Live-chat business hours: repository model

This project models the business-hours repository of a live-chat server in Dafny. The repository sits over a collection of business-hour profiles. A profile is either the one legacy global profile (`SINGLE`) or a named one (`MULTIPLE`). It carries an `active` flag, a timezone with an integer UTC offset, and a list of work-hour entries. Each entry has a `day`, one `start` time, one `finish` time, an `open` flag and a `code`.

The collection is a `seq<Profile>` in natural (insertion) order. Every query document, the aggregation pipeline and every update become pure functions over that sequence:

- `wrappers.dfy`: `Option`.
- `seqs.dfy`: filtering (`find`/`$match`), first-match (`findOne`, positional `$`), `$addToSet`.
- `parse_int.dfy`: JavaScript `parseInt` without a radix (section 18.2.5 of ECMAScript 2020, section 19.2.5 of ECMAScript 2022). NaN is `None`.
- `business_hours.dfy`: the documents, and `_id` uniqueness.
- `queries.dfy`: the default-profile lookup, the by-day lookup and the two activation resolvers (`findActiveBusinessHoursIdsToOpen` / `...ToClose`).
- `schedule.dfy`: `findHoursToScheduleJobs`, written out as project / unwind / match / group with `$addToSet`.
- `updates.dfy`: `insertOne`, field-wise `updateOne`, and the positional legacy update `updateDayOfGlobalBusinessHour`.
- `consistency.dfy`: links the resolvers to the schedule.

Notes on the model:

- `type` is a Dafny keyword, so the profile field `type` is called `kind`.
- The schedule's `utc` is the stored integer offset. The repository's interface declares that field as `string`, but the pipeline copies the stored number into it.
- The `utc` argument of the resolvers is parsed as JavaScript's `parseInt` parses it. This includes leading white space, an optional sign, a `0x` prefix that switches to radix 16, and trailing text that is ignored. A string with no digits yields NaN, and NaN equals no stored offset, so that resolver call returns nothing.
- A non-numeric `utc` is not rejected. parseInt yields NaN, which matches no stored offset, so both resolvers return an empty list (LivechatBusinessHours.ts lines 115 and 135).
- Each entry holds one `start` and one `finish` string. The resolvers compare them with a single string (lines 119 and 139), and the schedule collects them into lists of strings (lines 95-96).
- The legacy update targets the first SINGLE profile that has an entry for the day (the query at lines 71-73), and within it the first entry for that day.

## Model

| member | source | states |
|---|---|---|
| BusinessHourQueries.FindOneDefaultBusinessHour | app/models/server/raw/LivechatBusinessHours.ts:32-34 | a profile is returned iff some profile has type SINGLE, and the returned one is a stored SINGLE profile |
| BusinessHourQueries.DefaultIsTheGlobalProfile | app/models/server/raw/LivechatBusinessHours.ts:32-34 | when at most one SINGLE profile exists, the lookup returns exactly that profile |
| BusinessHourQueries.FindActiveAndOpenBusinessHoursByDay | app/models/server/raw/LivechatBusinessHours.ts:36-46 | a profile is returned iff it is stored, active, and one entry is both on that day and open; each is returned as often as it is stored |
| BusinessHourQueries.ElemMatch | app/models/server/raw/LivechatBusinessHours.ts:116-122 | `$elemMatch` holds iff one single element meets the whole condition |
| BusinessHourQueries.FindActiveBusinessHoursIdsToOpen | app/models/server/raw/LivechatBusinessHours.ts:111-129 | an id is returned iff a stored profile with that id has the given type, is active, has offset equal to parseInt(utc), and has one entry that is on `day`, starts at `start` and is open; a NaN offset returns nothing; with unique ids no id repeats |
| BusinessHourQueries.FindActiveBusinessHoursIdsToClose | app/models/server/raw/LivechatBusinessHours.ts:131-149 | the same as the open resolver with `finish` in place of `start`; the matching entry must still be open |
| BusinessHourQueries.ResolversRespectTypeAndActive | app/models/server/raw/LivechatBusinessHours.ts:111-149 | neither resolver ever returns the id of a profile of the other type or of an inactive profile |
| BusinessHourQueries.SplitMatchNotOpened | app/models/server/raw/LivechatBusinessHours.ts:116-122 | with unique ids, a stored profile in which no single entry is at once on `day`, starting at `t` and open is never opened at `t`, whatever its other entries hold |
| BusinessHourQueries.SplitMatchNotClosed | app/models/server/raw/LivechatBusinessHours.ts:136-142 | with unique ids, a stored profile in which no single entry is at once on `day`, finishing at `t` and open is never closed at `t` |
| JsParseInt.NonNumericIsNaN | app/models/server/raw/LivechatBusinessHours.ts:115 | a `utc` string without decimal digits parses to NaN, never to 0 |
| JsParseInt.ParseIntOfRendering | app/models/server/raw/LivechatBusinessHours.ts:135 | parseInt reads back the decimal rendering of every integer offset, and ignores trailing text that cannot extend the number |
| JsParseInt.ParseIntSkipsLeadingBlank | app/models/server/raw/LivechatBusinessHours.ts:115 | leading white space does not change the parsed offset |
| JsParseInt.ParseIntHexPrefix | app/models/server/raw/LivechatBusinessHours.ts:135 | a `0x` prefix switches parseInt to radix 16: any hex digit string after it is read in full as a base-16 number |
| JsParseInt.ParseIntBarePrefix | app/models/server/raw/LivechatBusinessHours.ts:135 | a bare `0x` is NaN although it starts with the digit 0, so that resolver call returns nothing |
| BusinessHours.FoundIds | app/models/server/raw/LivechatBusinessHours.ts:124-128 | the ids mapped out of a `find` are exactly those of the matching documents, and are distinct when `_id`s are unique |
| ScheduleDeriver.Unwind | app/models/server/raw/LivechatBusinessHours.ts:85-90 | a row is produced iff it pairs some stored profile's timezone with one of that profile's entries |
| ScheduleDeriver.Group | app/models/server/raw/LivechatBusinessHours.ts:92-98 | the groups have distinct (day, utc) keys, one for each key among the rows, and each group's start and finish lists hold exactly the distinct times of that key's rows, without duplicates |
| Seqs.AddToSet | app/models/server/raw/LivechatBusinessHours.ts:95-96 | adding a value yields the old elements plus that value, and never introduces a duplicate |
| ScheduleDeriver.FindHoursToScheduleJobs | app/models/server/raw/LivechatBusinessHours.ts:83-109 | keys are unique; a (day, utc) group exists iff some profile, active or not, has an open entry on that day with that offset; each group's start (finish) list is exactly the distinct set of start (finish) times of those entries |
| ScheduleDeriver.ClosedEntriesIgnored | app/models/server/raw/LivechatBusinessHours.ts:91 | removing every entry with `open` false leaves the schedule unchanged |
| ScheduleDeriver.ScheduleIgnoresActive | app/models/server/raw/LivechatBusinessHours.ts:84-90 | the schedule depends only on each profile's timezone and entries, not on `active`, type or id |
| ScheduleDeriver.TriggerRegisteredOnce | app/models/server/raw/LivechatBusinessHours.ts:93-96 | every open start time lies in exactly one group for its (day, utc), and occurs there exactly once |
| ScheduleConsistency.OpeningsAreScheduled | app/models/server/raw/LivechatBusinessHours.ts:111-128 | whenever the open resolver returns an id, the utc parses and the schedule has a (day, utc) group that lists that start time |
| ScheduleConsistency.ClosingsAreScheduled | app/models/server/raw/LivechatBusinessHours.ts:131-148 | whenever the close resolver returns an id, the utc parses and the schedule has a (day, utc) group that lists that finish time |
| ScheduleConsistency.ScheduledTriggerOpens | app/models/server/raw/LivechatBusinessHours.ts:111-128 | a trigger fired with the decimal rendering of a profile's offset opens that profile whenever it is active, has the trigger's type and has an open entry on the day starting at that time |
| ScheduleConsistency.ScheduledTriggerCloses | app/models/server/raw/LivechatBusinessHours.ts:131-148 | the same for the close trigger and an open entry finishing at that time |
| BusinessHourUpdates.InsertOne | app/models/server/raw/LivechatBusinessHours.ts:48-53 | the document is appended under the `_id` carried by the data when there is one, and under the generated id otherwise; it keeps the given fields and existing documents are untouched; an `_id` already stored is rejected with nothing inserted, so ids stay unique |
| BusinessHourUpdates.UpdateOne | app/models/server/raw/LivechatBusinessHours.ts:55-67 | one document matches iff the id is stored; only the first document with that id may change, and it keeps its id; each field present in the data is overwritten and the other fields are kept; modified is 1 iff the store changed |
| BusinessHourUpdates.UpdateOneIdempotent | app/models/server/raw/LivechatBusinessHours.ts:55-67 | a repeated updateOne leaves the store as it was, matches as often, and modifies nothing |
| BusinessHourUpdates.SetDayEntry | app/models/server/raw/LivechatBusinessHours.ts:75-79 | the positional `$set` writes start, finish and open into the first entry for the day and leaves day, code and every other entry untouched |
| BusinessHourUpdates.UpdateDayOfGlobalBusinessHour | app/models/server/raw/LivechatBusinessHours.ts:70-81 | one profile matches iff some SINGLE profile has an entry for the day; only the first such profile may change, and within it only the first entry for that day, in start, finish and open; nothing changes when nothing matches |
| BusinessHourUpdates.UpdateDayIdempotent | app/models/server/raw/LivechatBusinessHours.ts:70-81 | applying the legacy update twice equals applying it once, with the same matched count and nothing modified the second time |

## Left out

- Driver plumbing is not modelled: `Collection`, `BaseRaw`, promises, `.toArray()`, the `options` argument, the `_id` projections and the exported singleton. These are foreign library code. Only the meaning of each query is modelled.
- Store failures are not modelled, except the duplicate-key rejection of `insertOne`. A store error is raised by the database driver, and these functions simply pass it on.
- Concurrency and per-document atomicity are not modelled. They belong to the database.
- Result order is the store's natural order here. The database promises no order, so no contract depends on the order of results or of schedule groups.
- `insertOne` does not generate its `ObjectId`. That id is a random external value, so it is the `freshId` parameter.
- parseInt works on doubles in JavaScript. Precision loss for values beyond 2^53 is not modelled, because offsets are small integers. `-0` is modelled as `0`, because the two compare equal in the query.
- JsParseInt.JsString renders integers in plain decimal only. JavaScript's exponent form for magnitudes of 10^21 and above never occurs for a UTC offset.
- BusinessHourQueries.FindOneDefaultBusinessHour: the contract does not say which SINGLE profile is returned when several exist. The database leaves that choice open. The at-most-one case is pinned down by DefaultIsTheGlobalProfile.
- BusinessHourUpdates.UpdateOne and BusinessHourUpdates.UpdateDayOfGlobalBusinessHour: when several documents match, the model updates the first in natural order, whereas the database may pick any of them. For `updateOne` by `_id` at most one document matches once ids are unique. For the legacy update the choice matters only when more than one SINGLE profile exists, and `UpdateDayIdempotent` relies on it.
- `updateOne` data with keys explicitly set to `undefined` is not modelled. How the driver serialises `undefined` is driver configuration. A field is either present with a value or absent.
- The full document shapes are not part of this model. The definition of a business-hour document and of one work-hour entry live in other files. Only the fields the repository reads or writes are modelled. `code` is an integer that is only ever carried through unchanged.
