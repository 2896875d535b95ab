# Reminder pipeline of xpired, modelled in Dafny

xpired tracks documents with expiration dates and reminds their owners before
they expire. This project models the reminder pipeline as one state machine. Its
state is the four database tables (users, documents, reminder intervals, document
reminders), the delayed-task queue, and an outbox of e-mail and SMS send attempts.

- `wrappers.dfy`: `Option` and `Result`.
- `models.dfy`: the table rows.
- `civil_time.dfy`: the parts of Go's `time` package the pipeline relies on.
  - Day arithmetic on fixed-offset instants.
  - The Gregorian calendar.
  - The layouts "January 2, 2006" and "Mon, 2 Jan, 2006".
- `templates.dfy`: the reminder e-mail and the SMS text, built by concatenation.
- `jobs.dfy`: the scheduler. For each resolved interval it puts one delayed
  `send_reminder` task on the queue, unless its fire time has already passed.
- `server.dfy`: the `send_reminder` executor.
  - It looks up the user's address and the document.
  - It sends the e-mail, then an SMS when the user has a phone number.
- `repository.dfy`: the storage layer. It is a class holding the tables as
  sequences, with one method per query.
- `middleware.dfy`: token selection, the authentication decision, and the
  user-id context round trip.
- `handlers.dfy`: the decision logic of the handlers that feed the pipeline.
  - Registration.
  - Document create, get, update and delete.
  - The reminder toggle.
  - The shared id and ownership guard.

Modelling choices:

- **Time.** Instants are whole seconds since the Unix epoch. `AddDate(0, 0, -n)`
  is modelled as subtracting `n * 86400` seconds. JSON decoding attaches the
  server's local zone when the offset matches it, so this is exact only when that
  zone has no daylight-saving transitions; the model assumes it has none.
- **The clock.** It is read once per operation, as the parameter `now`.
- **Library results are inputs.**
  - A JSON body that fails to decode is `None`.
  - UUIDs are the parameters `newId` and `bindingId(i)`.
  - The bcrypt hash and the signed JWT are `Option`s, `None` when the library fails.
  - `ParseToken` is a function `parse` from a token to its subject or an error.
  - The queue's answer to the enqueue for the interval at position `i` of a
    call is `accepts(i)`; a skipped interval leaves its position unused.
  - Each send's failure is a `bool`.
- **The outbox** records each send attempt by the arguments its text is built
  from: an e-mail's HTML body is `Templates.EmailTemplate` of the user name,
  document name and date, and an SMS's text is `Templates.SMSMessage` of the
  document name and date.
- **Error cases.** The failures the queries define (missing rows, key
  collisions), library failures and transport failures are modelled; driver and
  encoding failures are listed under "Left out".
  - Repository methods return `Option<string>` (Go's `error`) or `Result`.
  - Handlers return the HTTP status code.

Behaviour of the code a reader might not expect:

- A fire time equal to `now` is still scheduled.
- The fire time is the expiration instant minus whole days, not local midnight in
  a looked-up time zone.
- The timezone is not validated.
- A binding insert is always an insert, so duplicate (document, interval) bindings
  can exist.
- Nothing cancels a queued task: not toggling, not updating, not deleting.
- The executor never re-checks `enabled` or `sent_at`, never stamps `sent_at`, and
  writes no notification log.
- The e-mail subject is the fixed text "Document Expiration Reminder".

## Model

| member | source | states |
|---|---|---|
| CivilTime.AddDays | backend/internal/worker/jobs.go:33 | adding `n` days moves the instant by `n * 86400` seconds and the UTC day number by exactly `n` |
| CivilTime.StartOfDay | backend/internal/api/handlers.go:339-340 | midnight of an instant's UTC day is at or before it, less than a day earlier, a multiple of 86400, and on the same day |
| CivilTime.CivilFromDays | backend/internal/worker/server.go:52 | the calendar date of a day number is a valid date whose day number is that day number |
| CivilTime.CivilRoundTrip | backend/internal/worker/server.go:52 | date to day number to date gives back the date, so the calendar is a bijection |
| CivilTime.DaysFromCivilInjective | backend/internal/worker/server.go:52 | distinct valid dates have distinct day numbers |
| CivilTime.Weekday | backend/internal/api/handlers.go:348 | the weekday is in 0..6, and day 0 (1970-01-01) is a Thursday |
| CivilTime.WeekdaySucceeds | backend/internal/api/handlers.go:348 | each day's weekday is the previous day's plus one, Saturday wrapping to Sunday; with day 0 a Thursday this fixes every weekday |
| CivilTime.ItoaRoundTrip | backend/internal/worker/server.go:52 | the day and year numerals read back as the numbers they print |
| CivilTime.FormatYear | backend/internal/worker/server.go:52 | the "2006" element has at least four characters and, for a non-negative year, is the year's digits, zero-padded to exactly four when shorter |
| CivilTime.LongLayout | backend/internal/worker/server.go:52 | "January 2, 2006": the full month name, a space, the unpadded day, ", " and the year, each at its offset |
| CivilTime.ShortLayout | backend/internal/api/handlers.go:348 | "Mon, 2 Jan, 2006": the weekday abbreviation, ", ", the unpadded day, " ", the month abbreviation, ", " and the year, each at its offset |
| CivilTime.FormatLongDate | backend/internal/worker/server.go:52 | the "January 2, 2006" text of the calendar date of the instant's UTC day |
| CivilTime.FormatShortDate | backend/internal/api/handlers.go:348 | the "Mon, 2 Jan, 2006" text of the weekday and calendar date of the instant's UTC day |
| CivilTime.FormatsDependOnlyOnDay | backend/internal/api/handlers.go:339-348 | two instants on the same UTC day format alike in both layouts, so truncating to midnight before formatting changes nothing |
| Templates.Fill | backend/internal/worker/templates.go:41-65 | the e-mail is the fixed head, the style block, the opening up to "Hi ", the user name, the text up to `"<strong>`, the document name, the text up to the second `<strong>`, the date and the fixed tail; each piece sits at its offset and the length is the sum |
| Templates.EmailRoundTrip | backend/internal/worker/templates.go:56-57 | the user name, document name and date can be read back from their slots unchanged: nothing is escaped |
| Templates.SMSMessage | backend/internal/worker/templates.go:67-69 | the SMS is "Reminder: Your document '", the name, "' is expiring on ", the date and ". Please take action to renew it."; its length is 75 plus both argument lengths |
| Templates.SmsRoundTrip | backend/internal/worker/templates.go:68 | both arguments can be read back from the SMS unchanged |
| Jobs.TaskQueue.Enqueue | backend/internal/worker/jobs.go:27 | an accepted task is appended to the pending tasks; a refused one leaves them unchanged |
| Jobs.TaskQueue.Deliver | backend/internal/worker/jobs.go:27 | a task is delivered only when it is due (`processAt <= now`), and then it is removed; nothing is delivered iff no pending task is due |
| Jobs.FireTime | backend/internal/worker/jobs.go:33 | the fire time is the expiration instant minus `daysBefore` days of 86400 seconds, `daysBefore` UTC days earlier |
| Jobs.FireTimeAntitone | backend/internal/worker/jobs.go:33 | a larger lead time gives an earlier or equal fire time, equal only for equal lead times |
| Jobs.EnqueueDelayedTask | backend/internal/worker/jobs.go:23-29 | the task of the given type and payload, due at `runAt`, is added iff the queue accepts it; the queue's answer is returned |
| Jobs.ScheduleReminders | backend/internal/worker/jobs.go:31-51 | the queue afterwards is the queue before, followed by the scheduled tasks of the intervals in order |
| Jobs.ScheduledShape | backend/internal/worker/jobs.go:32-49 | one task per landing interval, in interval order; an interval lands iff its fire time is not before `now` and the queue accepts it, whatever happened to the other intervals |
| Jobs.ScheduledTasksWellFormed | backend/internal/worker/jobs.go:40-47 | every scheduled task has type "send_reminder", is due not before `now`, and carries exactly (user id, document id, interval id) of one landing interval, due at that interval's fire time |
| Jobs.AllDueScheduled | backend/internal/worker/jobs.go:35-47 | when the queue accepts everything, every interval whose fire time has not passed yields its task |
| Jobs.ScheduleTwice | backend/internal/worker/jobs.go:23-51 | there is no de-duplication: scheduling the same input twice queues every task twice |
| Db.InsertNewestFirst | backend/internal/db/repository.go:190 | inserting a row into a newest-first list keeps it newest-first and adds exactly that row |
| Db.Repository.CreateUser | backend/internal/db/repository.go:40-62 | the user row is appended with both timestamps set to `now` iff its id is free; otherwise an error and no change |
| Db.Repository.CheckUserExistsByEmail | backend/internal/db/repository.go:64-75 | no error iff some user has that e-mail; otherwise "user does not exist" |
| Db.Repository.CheckUserExistsById | backend/internal/db/repository.go:77-88 | no error iff some user has that id; otherwise "user does not exist" |
| Db.Repository.GetUserEmail | backend/internal/db/repository.go:132-143 | the address of the user with that id, or "user does not exist" |
| Db.Repository.GetUserPhoneNumber | backend/internal/db/repository.go:145-156 | the user's phone number; "user does not exist" for a missing user, and an error for a NULL number |
| Db.Repository.CreateDocument | backend/internal/db/repository.go:158-183 | the document row is appended with both timestamps set to `now` iff its id is free, and the stored row is returned; otherwise an error and no change |
| Db.Repository.GetDocumentByID | backend/internal/db/repository.go:226-253 | the document with that id, or "document not found" |
| Db.Repository.UpdateDocument | backend/internal/db/repository.go:255-282 | the row with the document's id gets the new name, description, identifier, expiration, timezone, attachment and `updated_at`; "document not found" iff there is no such row |
| Db.Repository.DeleteDocument | backend/internal/db/repository.go:284-303 | the rows with that id are removed; "document not found" iff there is none |
| Db.Repository.ListDocumentsByUserID | backend/internal/db/repository.go:185-224 | the result is newest-first and, as a multiset, exactly that user's documents |
| Db.Repository.GetReminderIntervalsFromIdLabels | backend/internal/db/repository.go:337-368 | the result is the catalog filtered by the requested codes, in catalog order |
| Db.Repository.GetReminderIntervalByID | backend/internal/db/repository.go:370-391 | the catalog row with that id, or "reminder interval not found" |
| Db.Repository.SetDocumentReminders | backend/internal/db/repository.go:393-413 | a new binding row is appended with the given id, interval and flag and a NULL `sent_at`, iff the id is free; an existing row for the same document and interval is never updated |
| Db.Repository.ToggleDocumentReminder | backend/internal/db/repository.go:415-435 | the table becomes the toggled table; "document reminder not found" iff no row matches the document and interval |
| Db.Repository.GetDocumentRemindersByDocumentID | backend/internal/db/repository.go:437-470 | the bindings of that document, in table order |
| Db.WhitelistMembers | backend/internal/db/repository.go:337-368 | a catalog row is resolved iff its code was requested; unknown codes resolve to nothing |
| Db.WhitelistDependsOnCodeSet | backend/internal/db/repository.go:337-368 | only the set of requested codes matters, so repeating or reordering codes changes nothing |
| Db.WhitelistBounded | backend/internal/db/repository.go:337-368 | at most one row per catalog row, and no interval id twice when catalog ids are unique |
| Db.ToggledPointwise | backend/internal/db/repository.go:415-425 | the toggle keeps length and order; each matching row gets the new flag and a NULL `sent_at`, whichever way the flag goes, and every other row is unchanged |
| Db.ToggleLastWins | backend/internal/db/repository.go:415-425 | two toggles in a row equal the second alone |
| Db.ToggleKeepsKeys | backend/internal/db/repository.go:415-425 | a toggle changes no binding's id, document or interval |
| Db.UpdatedDocumentsKeepIds | backend/internal/db/repository.go:255-282 | an update keeps the table's length, changes only rows with the document's id, and overwrites those |
| Db.OverwrittenFields | backend/internal/db/repository.go:257-260 | an updated row keeps its id, owner and creation time, and takes the six request columns and the new `updated_at` |
| Db.WithoutDocumentKeepsOthers | backend/internal/db/repository.go:284-303 | after a delete, exactly the rows with other ids remain, ids stay unique, and the table does not grow |
| Db.DocumentsOfMembers | backend/internal/db/repository.go:185-224 | a document is listed iff it belongs to the user |
| Db.BindingsOfMembers | backend/internal/db/repository.go:437-470 | a binding is listed iff it belongs to the document |
| Server.Outbox.SendEmail | backend/internal/worker/processor.go:5-9 | every e-mail attempt is recorded; the error reflects the transport's answer |
| Server.Outbox.SendSMS | backend/internal/worker/processor.go:11-15 | every SMS attempt is recorded, by the number and the name and date its text is built from; the error reflects the transport's answer |
| Server.HandleSendReminder | backend/internal/worker/server.go:31-67 | the handler returns the run's error and appends exactly the run's sends to the outbox; it writes no table |
| Server.ReminderRun | backend/internal/worker/server.go:31-67 | one run: the decode error, else the user lookup's error, else the document lookup's error, each with no sends; else no error, the e-mail, and an SMS when the phone number is present and non-empty |
| Server.WorkerStep | backend/internal/worker/server.go:29-31 | exactly one due task leaves the queue and the rest stay in order; a "send_reminder" task yields the handler's error and sends, which are the run of its payload; a task of another type is consumed with nothing sent; when nothing is due, nothing changes |
| Server.RunFailsOnlyOnLookups | backend/internal/worker/server.go:38-50 | a run fails iff the payload does not decode, the user is missing or the document is missing, with that lookup's error; a failed run sends nothing |
| Server.RunSends | backend/internal/worker/server.go:52-61 | a successful run first e-mails the user's address with subject "Document Expiration Reminder", greeting the address, naming the document and its "January 2, 2006" date; then it sends one SMS iff the phone number is present and non-empty, to that number, built from the name and the date; whether either send fails changes nothing |
| Server.SmsCarriesArguments | backend/internal/worker/server.go:59-61 | every SMS a run records comes from a run whose lookups succeeded, goes to the owner's non-empty phone number, and is built from the stored document's name and its "January 2, 2006" date |
| Server.ScheduledTaskNotifies | backend/internal/worker/server.go:42-53 | a task the scheduler built, run while its user and document still exist, succeeds and e-mails that user about the document as it is stored at run time |
| Server.DeletedDocumentTaskSendsNothing | backend/internal/worker/server.go:47-50 | after the document is deleted, its queued task's run errs and sends nothing |
| Auth.SelectToken | backend/internal/auth/middleware.go:18-32 | a header longer than 7 characters that starts with "Bearer " gives the rest of the header as a non-empty token; any other header gives the "auth" cookie, if any |
| Auth.WithUserID | backend/internal/auth/middleware.go:54-56 | the context afterwards maps the user-id key to the id and keeps every other key |
| Auth.GetUserIDFromContext | backend/internal/auth/middleware.go:58-64 | it succeeds iff the key holds a non-empty string, and returns that string; otherwise "user ID not found in context" |
| Auth.BearerTokenWins | backend/internal/auth/middleware.go:19-20 | "Bearer " followed by a non-empty token presents that token, whatever the cookie |
| Auth.FallsBackToCookie | backend/internal/auth/middleware.go:19-31 | the bare "Bearer " header, and any header not starting with it, present the cookie |
| Auth.ContextRoundTrip | backend/internal/auth/middleware.go:54-64 | a stored non-empty id reads back as itself; an empty one reads back as the error |
| Auth.Authenticate | backend/internal/auth/middleware.go:12-48 | the token the request presents; 401 "Unauthorized: missing auth token" without one, 401 "Invalid token: " plus the parse error when it does not parse, otherwise the request proceeds with the subject stored as the user id |
| Auth.AuthenticateOutcomes | backend/internal/auth/middleware.go:12-48 | the middleware rejects with 401 iff no token is presented or the token does not parse, with "Unauthorized: missing auth token" when none is presented; otherwise the next handler sees the subject as the user id |
| Api.CheckAccess | backend/internal/api/handlers.go:377-407 | the guard: 400 for an id of "" or "undefined", 401 without a usable user id in the context, 404 for an unknown caller or document, 403 for another user's document, otherwise access |
| Api.Merge | backend/internal/api/handlers.go:494-511 | the stored document with each field the request supplies written over it: a non-empty name or timezone, a present description, identifier or attachment, a non-zero expiration |
| Api.Views | backend/internal/api/handlers.go:317-323 | the response lists one entry per resolved interval, in order, with its code and label |
| Api.Handler.Authorize | backend/internal/api/handlers.go:455-486 | the repository lookups decide access exactly as the guard specifies |
| Api.Handler.InsertBindings | backend/internal/api/handlers.go:317-337 | the bindings inserted are the first `inserted` new bindings, and `inserted` is the position of the first id that is taken or repeats an earlier one; all are inserted iff every fresh id is unused and distinct |
| Api.Handler.CreateDocument | backend/internal/api/handlers.go:263-373 | 400, 401, 404, 400 for body, caller, user and missing fields with nothing written; 500 with no change when the id is taken; otherwise the document is stored, then the bindings up to the first whose id is taken or repeated; 201 iff every binding went in, and then the bindings are one per resolved interval, the queue gains exactly the scheduled tasks, and the response lists the intervals and the "Mon, 2 Jan, 2006" date; without 201 the queue is unchanged |
| Api.Handler.GetDocument | backend/internal/api/handlers.go:375-452 | the guard's status, or 200 with the document and, per binding and whatever its flag, its catalog interval |
| Api.Handler.UpdateDocument | backend/internal/api/handlers.go:454-574 | the guard's status or 400 for a bad body, with nothing written; otherwise the merge is stored, then the bindings up to the first whose id is taken or repeated; 200 iff every binding went in; earlier bindings are never changed or removed, and the queue never changes |
| Api.Handler.DeleteDocument | backend/internal/api/handlers.go:576-617 | the guard's status with nothing written, or 204 with the document removed; bindings and the queue are unchanged |
| Api.Handler.ToggleDocumentReminder | backend/internal/api/handlers.go:721-785 | the guard's status, 400 for a bad body, 404 for an unknown code, all with nothing written; otherwise the bindings of the document and the first resolved interval are toggled, with 200 iff one matched and 500 otherwise; the queue never changes |
| Api.Handler.Register | backend/internal/api/handlers.go:41-115 | 400 for a bad body, 500 when hashing fails, 400 for a missing field, 409 for a taken e-mail, all with no user written; then the user is stored with the hash, and the status is 201, or 500 when signing the token fails, with the user kept |
| Api.NewBindingsShape | backend/internal/api/handlers.go:324-330 | the i-th inserted binding has the i-th fresh id, the document, the i-th interval, `enabled` set and `sent_at` NULL |
| Api.NewBindingsEnabledAndUnsent | backend/internal/api/handlers.go:535-541 | every binding a create or update inserts is enabled, unsent, for that document and for one of the resolved intervals |
| Api.AccessGrantsOwnDocument | backend/internal/api/handlers.go:377-407 | access goes only to the caller's own existing document; 403 iff the document exists but belongs to another user; an id of "" or "undefined" is 400 |
| Api.MergeFieldwise | backend/internal/api/handlers.go:494-511 | each supplied field replaces the stored one and each absent field keeps it; id, owner and timestamps are untouched |
| Api.MergeEmptyIsIdentity | backend/internal/api/handlers.go:494-511 | a request that supplies no field leaves the document unchanged |
| Api.MergeIdempotent | backend/internal/api/handlers.go:494-511 | merging the same request twice equals merging it once |
| Api.MergeOwnValues | backend/internal/api/handlers.go:494-511 | sending a document's own values back changes nothing |
| Api.UpdateStoresMerge | backend/internal/api/handlers.go:512-514 | after an update, the document's row is the merge stamped with `now`, and every other row is unchanged |
| Api.RegisterMissingField | backend/internal/api/handlers.go:55-59 | a decoded, hashed registration with an empty e-mail, password or name is 400 |
| Api.RegisterConflict | backend/internal/api/handlers.go:61-65 | a complete registration is 409 iff the e-mail is taken, and goes ahead iff it is not |
| Api.CreateIncompleteRejected | backend/internal/api/handlers.go:284-288 | a create from a known caller without a name, expiration or timezone is 400 |

## Left out

- **Queue internals.** Redis, asynq configuration, leases, retries and
  at-least-once delivery are not modelled. The queue is a sequence of pending
  tasks. The delivery step picks any one due task.
- **Clock.** Each operation reads it once, as `now`. Time passing inside an
  operation is not modelled.
- **Database failures.** Connection, driver and context-cancellation errors are
  not modelled. Only missing rows and primary-key collisions fail.
  - Two failures that cannot happen in this model are therefore unreachable:
    the 500 from the update query after a successful lookup
    (handlers.go:514-519), and the 500 from the delete query (handlers.go:609-614).
  - The interval queries cannot fail here either.
- **Delete does not cascade.** Deleting a document leaves its bindings in place
  (the schema's foreign keys are not part of this model).
- **Libraries are inputs.** JSON decoding and encoding, bcrypt, JWT signing and
  parsing, and UUID generation are not modelled (see above).
  - UUIDs are compared as strings, so canonicalisation is not modelled.
  - The `uuid.MustParse` panic on a malformed context id is not modelled.
- **Sub-second precision** is dropped: instants are whole seconds.
- **Formatting zone.** `Format` is applied to the UTC calendar day. The create
  response converts to a zero-offset zone first, so it agrees. The update and get
  responses, which format in the stored value's own location, are not modelled.
- CivilTime.FormatLongDate, CivilTime.FormatShortDate: assume the database returns
  instants at offset zero. The executor formats the expiration in whatever
  location the driver returns, which is the session time zone.
- CivilTime.AddDays, Jobs.FireTime: assume a server local zone without
  daylight-saving transitions, so that a civil day is 86400 seconds.
- **Row order.** As a modelling choice, rows keep insertion order, and a query
  without an ordering clause returns them in that order (Db.BindingsOf, the
  intervals query, Db.Repository.GetDocumentRemindersByDocumentID). SQL promises
  no order there, and an update in the database may move a row.
- **Encoding failures.** The JSON encoding failure of a task payload
  (jobs.go:23-29) is not modelled; payloads always encode.
- **Response plumbing.** Response bodies other than their reminder lists and the
  create response's date are not modelled. Neither are timestamps stamped into
  error bodies or the final encode failures.
- **Strings** are sequences of characters, not of bytes. The length test on the
  Authorization header agrees for the ASCII prefix "Bearer ".
- Templates.EmailTemplate: no properties are stated directly on the HTML body.
  They are stated on `Templates.Fill`, of which `EmailTemplate` is the instance
  with the exact fixed text of the source. The 1,382-character text is kept
  out of the proofs to keep them small.
- Db.Repository.ListDocumentsByUserID: the order among documents with equal
  creation times is not specified, as in SQL.
- **Other repository queries** are not part of the pipeline: `GetUserByID`,
  `GetUserByEmail` and `GetAllReminderIntervals`.
- **Other handlers** are not part of the pipeline: login, list documents, health,
  list intervals and the document reminders listing.
- **Process plumbing.** Logging, the HTTP router, CORS, configuration and process
  start-up are not modelled.
