# Raitakarya marketplace backend, modelled in Dafny

Raitakarya is a job marketplace between farmers and agricultural workers. Its
backend has six controllers, which together are the behaviour modelled here:

- **Jobs.** Farmers post jobs. Anyone lists them, filtered and paginated. A
  farmer lists, edits and deletes their own.
- **Applications.** Workers apply to open jobs. The job's farmer accepts,
  rejects or completes applications. The capacity rule says a job never
  has more ACCEPTED applications than the workers it needs, and a job that
  fills up moves to IN_PROGRESS.
- **Payments.** The farmer of an accepted application puts the agreed wage
  (wage per day times days) in escrow. Later the farmer releases it to the
  worker. The release marks the application COMPLETED and updates both
  sides' totals.
- **Ratings.** Users rate each other from 1 to 5, once per pair; a second
  rating replaces the first. Every change recomputes the reviewee's stored
  average.
- **Signup and login.** Signup checks the request in a fixed order, then
  creates the user and the profile of its role together. Login answers
  alike for an unknown phone and a wrong password.
- **Profiles.** Users patch their account and their role's profile. Only
  the fields supplied change.

## How the model is built

- **The store.** The database is `Ledger.Tables`, one map per table keyed by
  row id (the profile tables by user id), plus the next id the store will
  allocate. Ids grow with every insert, so "newest first"
  (`orderBy: { createdAt: 'desc' }`) is descending id order
  (`Queries.NewestFirst`).
- **Row writes.** Each write a controller makes (`application.create`,
  `job.update`, `payment.update`, ...) is a function on `Tables`. Its
  contract says which row it adds, replaces or removes, that nothing else
  changes, and which store constraints it keeps.
- **The constraints.** `Tables.Valid` holds the schema constraints the
  handlers rely on: foreign keys, the unique keys (jobId, workerId),
  applicationId and (reviewerId, revieweeId), and profiles matching roles.
  Three further properties are stated apart, as the ones the handlers are
  proved to keep:
  - the capacity rule (`CapacityHolds`);
  - every profile's stored average matching its ratings (`AveragesHold`);
  - unique phone numbers and e-mail addresses (`ContactsHold`).
- **Writing handlers.** A handler that writes is a method on a
  `Ledger.Store` (a class holding the tables). It checks its guards in the
  source's order, each with its own status code and message, and then
  performs its writes. Its contract gives:
  - the reply for every failing guard;
  - exactly when it succeeds;
  - that a failure writes nothing;
  - on success, the new tables, as a function of the old ones.
- **Transactions.** The three transactions (status update, payment release,
  signup) are single atomic method bodies.
- **Read-only handlers** are functions of the tables.
- **The caller.** The authenticated caller is `Option<Caller>`: the JWT's
  claims, or none when the request carries no valid token. A token may
  name a user whose row is gone; an insert naming that user as a foreign
  key then fails with a 500. A token never claims a role other than its
  user's (`Tables.RoleCurrent`), as no handler changes a role.

The property proofs connect the handlers to what the controllers promise:

- Every accept the count check lets through keeps the capacity rule.
- The job flips to IN_PROGRESS exactly when the accept fills its last place.
- A payment exists at most once per application and is released at most
  once.
- After every rating change, each stored average is the rounded mean of the
  ratings received.
- A new user can log in with the password they signed up with.
- The phone check ignores separators.
- The e-mail check agrees with the pattern
  `^[^\s@]+@[^\s@]+\.[^\s@]+$`.
- The partial patches leave out unsupplied fields, are idempotent and never
  touch the aggregates.

Where the code and its documented intent differ, the model follows the code:

- A full job makes the status transaction throw, which the handler reports
  as 500, not 400.
- The status update never looks at the application's current status.
- `updateJob` writes the request body as it is, so a farmer can lower
  `workersNeeded` below the accepted count. `Jobs.UpdateJobCanOverfill`
  exhibits this.
- The signup uniqueness check compares phone numbers as typed, while the
  format check reads only their digits (`Auth.SeparatedNumberPassesUniqueness`).

## Model

| member | source | states |
|---|---|---|
| Applications.Target | backend/src/controllers/application.controller.ts:133-135 | a status is accepted exactly when it is ACCEPTED, REJECTED or COMPLETED, and never maps to PENDING |
| Applications.AppliedAfterInsert | backend/src/controllers/application.controller.ts:33-52 | once an application is created, the lookup by (jobId, workerId) finds it, so a repeated apply is refused |
| Applications.CreateApplication | backend/src/controllers/application.controller.ts:5-81 | refuses in order: 401 no caller, 403 non-worker, 400 no job id, 404 unknown job, 400 job not OPEN, 400 already applied, then 500 when the token names a user no longer stored (the insert's foreign key fails); otherwise adds exactly one PENDING application by the caller under a fresh id and nothing else; failures write nothing; keeps the store constraints, the capacity rule and the stored averages |
| Applications.Transitioned | backend/src/controllers/application.controller.ts:154-205 | the transaction's writes: only the application's status changes; the job is marked IN_PROGRESS exactly when the update is an accept and the new ACCEPTED count reaches workersNeeded, and otherwise no job changes; the capacity rule is kept whenever the count check passed; no other table changes |
| Applications.FlipExactlyWhenFull | backend/src/controllers/application.controller.ts:156-201 | an accept that passed the count check raises the job's ACCEPTED count by one (by none when the application was ACCEPTED already), never past workersNeeded; the transaction marks the job IN_PROGRESS exactly when the new count equals workersNeeded; re-accepting an ACCEPTED application never changes the job |
| Applications.UpdateApplicationStatus | backend/src/controllers/application.controller.ts:124-212 | 401 no caller, 400 invalid status, 404 unknown application, 403 not the job's farmer, 500 with nothing written for an accept into a full job; succeeds exactly otherwise, whatever the application's current status, with the store becoming the `Transitioned` tables; keeps the capacity rule |
| Applications.StatusTransaction | backend/src/controllers/application.controller.ts:154-205 | a full job aborts the transaction with a 500 and no change; otherwise the tables become `Transitioned` and the updated application is returned |
| Applications.GetMyApplications | backend/src/controllers/application.controller.ts:83-122 | 401 / 403 for non-workers; otherwise exactly the caller's applications, newest first |
| Applications.GetApplicationById | backend/src/controllers/application.controller.ts:214-262 | 401, then 404 for an unknown id; succeeds exactly for the applying worker and the job's farmer, 403 for everyone else |
| Payments.Abs | backend/src/controllers/payment.controller.ts:57 | `Math.abs`: non-negative and equal to the value or its negation |
| Payments.CheckAmount | backend/src/controllers/payment.controller.ts:17-29 | passes exactly when the application id and amount are given and the parsed amount is a number in (0, 1000000]; every refusal is a 400, the first one "required" |
| Payments.CreatePayment | backend/src/controllers/payment.controller.ts:5-90 | refuses in order: 401, 403 non-farmer, the amount checks, 404 unknown application, 403 not the job's farmer, 400 not ACCEPTED, 400 payment exists, 400 amount differs from wage × duration by more than 0.01 (carrying the expected amount); otherwise adds exactly one HELD_IN_ESCROW payment of the parsed amount for the application, and nothing else |
| Payments.PaymentOnce | backend/src/controllers/payment.controller.ts:51-53 | after a payment is created for an application, a second payment for it is refused |
| Payments.Credited | backend/src/controllers/payment.controller.ts:161-167 | the worker's increment leaves the stored average untouched |
| Payments.Debited | backend/src/controllers/payment.controller.ts:170-175 | the farmer's increment leaves the stored average untouched |
| Payments.Released | backend/src/controllers/payment.controller.ts:130-178 | the release writes together: payment RELEASED with its release time, application COMPLETED, worker credited with the amount and one job, farmer debited with the amount; these four rows only change, and the store constraints, capacity rule and averages are kept |
| Payments.ReleasePayment | backend/src/controllers/payment.controller.ts:92-185 | 401, 403 non-farmer, 404 unknown payment, 403 not the payer, 400 not in escrow; succeeds exactly otherwise, with the store becoming the `Released` tables and the released payment returned; failures write nothing |
| Payments.ReleaseOnce | backend/src/controllers/payment.controller.ts:124-126 | after a release the same caller's second release of the payment is refused: release is one-shot |
| Payments.GetPaymentById | backend/src/controllers/payment.controller.ts:187-239 | 401, then 404 for an unknown id; succeeds exactly for the paid worker and the paying farmer, 403 for everyone else |
| Jobs.NewJob | backend/src/controllers/job.controller.ts:33-48 | the created job is OPEN, owned by the caller, carries the parsed numbers, and has no skills when none are given |
| Jobs.Posted | backend/src/controllers/job.controller.ts:61-66 | the posted-count increment leaves the stored average untouched |
| Jobs.CreateJob | backend/src/controllers/job.controller.ts:5-73 | 401, 403 non-farmer, 400 any required field falsy, 500 a number that does not parse or a token whose user is no longer stored; otherwise adds exactly the new job and raises the caller's totalJobsPosted by one, and nothing else |
| Jobs.CeilDiv | backend/src/controllers/job.controller.ts:140 | `Math.ceil(a / b)`: the least c with a <= c × b |
| Jobs.Window | backend/src/controllers/job.controller.ts:130-131 | `skip`/`take`: at most `take` rows, the rows from `skip` on, none when `skip` passes the end |
| Jobs.Paginate | backend/src/controllers/job.controller.ts:77-143 | a NaN page or limit is a 500; otherwise page = max(1, page), limit clamped to [1, 100], total = number of matches, the items are that page's window, totalPages = ceil(total / limit), and hasMore holds exactly when the rows skipped plus the rows returned are fewer than total, which is exactly when page < totalPages |
| Jobs.MoreIffNotLast | backend/src/controllers/job.controller.ts:140-141 | `skip + jobs.length < total` holds exactly when `page < ceil(total / limit)` |
| Jobs.ParseJobStatus | backend/src/controllers/job.controller.ts:86-88 | a status filter names a job status exactly when it is OPEN, IN_PROGRESS, COMPLETED or CANCELLED |
| Jobs.LowerLaws | backend/src/controllers/job.controller.ts:95-98 | lower-casing is idempotent, leaves no upper-case ASCII letter, and changes nothing in a text that has none |
| Jobs.ExactIsInsensitive | backend/src/controllers/job.controller.ts:94-99 | a location that contains the filter text exactly also matches it case-insensitively |
| Jobs.InsensitiveToCase | backend/src/controllers/job.controller.ts:94-99 | re-casing either side (any texts of the same length that agree letter by letter up to case) gives the same match answer |
| Jobs.FilterOf | backend/src/controllers/job.controller.ts:84-99 | each truthy query field adds its condition; a status that names no job status makes the query fail |
| Jobs.NoFilterKeepsAll | backend/src/controllers/job.controller.ts:84-99 | when no status, jobType or location is given, the `where` holds no condition and the listing keeps exactly the stored jobs |
| Jobs.GetJobs | backend/src/controllers/job.controller.ts:75-148 | an invalid status is a 500; otherwise the page is a window of exactly the matching jobs, newest first |
| Jobs.GetJobById | backend/src/controllers/job.controller.ts:150-192 | the job when it exists, 404 otherwise |
| Jobs.GetMyJobs | backend/src/controllers/job.controller.ts:267-326 | 401 / 403 for non-farmers; otherwise a page over exactly the caller's jobs, newest first |
| Jobs.Patched | backend/src/controllers/job.controller.ts:214-216 | every supplied column overwrites the stored one; the owner is kept |
| Jobs.PatchLaws | backend/src/controllers/job.controller.ts:214-216 | an empty body changes nothing, and applying a body twice is applying it once |
| Jobs.UpdateJob | backend/src/controllers/job.controller.ts:194-234 | 401, 404 unknown job, 403 not the owner; otherwise only that job is replaced by the patched one; the capacity rule survives exactly when the job's ACCEPTED applications still fit the new workersNeeded |
| Jobs.UpdateJobCanOverfill | backend/src/controllers/job.controller.ts:214-216 | a store that keeps the capacity rule loses it when the owner of a full job sets workersNeeded to 0 |
| Jobs.DeleteJob | backend/src/controllers/job.controller.ts:236-265 | 401, 404 unknown job, 403 not the owner, 500 when applications refer to the job; otherwise removes exactly that job; the posted count is not decremented |
| Ratings.WithWorkerAverage | backend/src/controllers/rating.controller.ts:195-198 | the worker profile gets the new stored average |
| Ratings.WithFarmerAverage | backend/src/controllers/rating.controller.ts:202-205 | the farmer profile gets the new stored average |
| Ratings.AverageNow | backend/src/controllers/rating.controller.ts:178-184 | the average computed from the ratings table |
| Ratings.RefreshedWorkers | backend/src/controllers/rating.controller.ts:194-199 | only the user's worker profile, if any, changes, and it gets the average |
| Ratings.RefreshedFarmers | backend/src/controllers/rating.controller.ts:201-206 | only the user's farmer profile, if any, changes, and it gets the average |
| Ratings.Refreshed | backend/src/controllers/rating.controller.ts:177-207 | each profile the user has stores the rounded mean of the ratings the user has received; nothing else changes; this restores the stored-average invariant after a write to that user's ratings |
| Ratings.UpdateAverageRating | backend/src/controllers/rating.controller.ts:177-207 | computes the average, writes it to the worker and then the farmer profile when present; the result is the `Refreshed` tables |
| Ratings.PairRating | backend/src/controllers/rating.controller.ts:33-40 | the lookup by (reviewerId, revieweeId) finds the pair's rating |
| Ratings.UpsertedRows | backend/src/controllers/rating.controller.ts:42-96 | after the upsert the pair has exactly one rating, with the new score; a sent comment text is stored, a `null` comment clears it, a left-out comment keeps the stored one (none for a new pair); an existing rating is rewritten under its id, otherwise one row is added under the new id; all other ratings are unchanged |
| Ratings.Upserted | backend/src/controllers/rating.controller.ts:42-96 | the upsert on the whole store keeps the store constraints and every stored average except the reviewee's, and allocates an id only for a new pair |
| Ratings.CreateRating | backend/src/controllers/rating.controller.ts:5-105 | 401, 400 reviewee or rating missing or falsy, 400 outside [1, 5], 400 self-rating, 404 unknown reviewee, 500 a token whose user is no longer stored; otherwise upserts the integer part of the rating with the comment as sent, answers 200 for a re-rating and 201 for a new one, and refreshes the reviewee's average; all stored averages stay current |
| Ratings.RatingCounted | backend/src/controllers/rating.controller.ts:42-98 | the reviewee's rating count grows by one exactly when the pair had no rating, and stays the same on a re-rating |
| Ratings.GetRatingsForUser | backend/src/controllers/rating.controller.ts:107-142 | exactly the ratings the user received, newest first, with their count and rounded average (0 for none, otherwise between 1 and 5), equal to the average stored in the user's profile |
| Ratings.DeleteRating | backend/src/controllers/rating.controller.ts:144-175 | 401, 404 unknown rating, 403 not the reviewer; otherwise removes exactly that rating and refreshes the reviewee's average |
| Reputation.Received | backend/src/controllers/rating.controller.ts:178-180 | every listed rating is one the user received |
| Reputation.SumBounds | backend/src/controllers/rating.controller.ts:183 | scores from 1 to 5 sum to between n and 5n |
| Reputation.MeanBounds | backend/src/controllers/rating.controller.ts:182-184 | the mean of scores from 1 to 5 lies between 1 and 5 |
| Reputation.Round2Near | backend/src/controllers/rating.controller.ts:197 | rounding to two decimals moves a value by at most half a hundredth |
| Reputation.Round2Hundredths | backend/src/controllers/rating.controller.ts:197 | a value with at most two decimals is left unchanged |
| Reputation.Round2Monotone | backend/src/controllers/rating.controller.ts:197 | rounding preserves order |
| Reputation.AverageRange | backend/src/controllers/rating.controller.ts:182-184 | a user nobody rated has average 0; otherwise it lies between 1 and 5 |
| Queries.NewestFirst | backend/src/controllers/application.controller.ts:93-115 | every listed row exists and satisfies the `where` condition |
| Queries.NewestFirstComplete | backend/src/controllers/application.controller.ts:93-96 | every row satisfying the condition is listed |
| Queries.NewestFirstExact | backend/src/controllers/application.controller.ts:93-96 | the listing holds exactly the rows satisfying the condition |
| Queries.NewestFirstNone | backend/src/controllers/application.controller.ts:93-96 | a condition no row satisfies lists nothing |
| Queries.NewestFirstDescending | backend/src/controllers/job.controller.ts:127-129 | the listing is strictly newest first, without repetitions |
| Queries.NewestFirstFrame | backend/src/controllers/rating.controller.ts:178-180 | two tables that agree on which rows satisfy the condition list the same rows |
| Queries.NewestFirstAll | backend/src/controllers/rating.controller.ts:178-180 | any id bound above every key gives the same listing |
| Queries.NewestFirstBeyond | backend/src/controllers/rating.controller.ts:178-180 | raising the bound past every key lists nothing more |
| Ledger.CapacityAt | backend/src/controllers/application.controller.ts:164 | under the capacity rule, a job's ACCEPTED count is at most its places |
| Ledger.AcceptedAfterSetStatus | backend/src/controllers/application.controller.ts:170-172 | a status change moves only its own job's ACCEPTED count, by at most one |
| Ledger.AcceptedAfterInsert | backend/src/controllers/application.controller.ts:46-52 | a new non-ACCEPTED application moves no count |
| Ledger.CapacityAfterSetStatus | backend/src/controllers/application.controller.ts:154-185 | the capacity rule survives any status change other than an accept into a full job |
| Ledger.CapacityAfterInsert | backend/src/controllers/application.controller.ts:46-52 | a new PENDING application keeps the capacity rule |
| Ledger.AcceptedOfUnreferenced | backend/src/controllers/job.controller.ts:33-48 | a job nobody applied to has no ACCEPTED applications |
| Ledger.CapacityAfterAccept | backend/src/controllers/application.controller.ts:156-172 | every accept the count check lets through keeps the capacity rule |
| Ledger.CapacityAfterRelease | backend/src/controllers/payment.controller.ts:155-158 | moving an application to any status but ACCEPTED (COMPLETED at release) keeps the capacity rule |
| Ledger.AverageFrame | backend/src/controllers/rating.controller.ts:178-184 | a user's average depends only on the ratings that user received |
| Ledger.AveragesAfterRatingWrite | backend/src/controllers/rating.controller.ts:42-98 | a write to one reviewee's ratings leaves every other stored average current |
| Ledger.PaymentsAfterInsert | backend/src/controllers/payment.controller.ts:63-68 | a checked new payment keeps one payment per application and the payment row shapes |
| Ledger.PaymentsAfterPut | backend/src/controllers/payment.controller.ts:132-137 | the release rewrite keeps the payment constraints |
| Ledger.RatingsAfterInsert | backend/src/controllers/rating.controller.ts:75-81 | a new rating for a pair that had none keeps one rating per pair |
| Ledger.RatingsAfterPut | backend/src/controllers/rating.controller.ts:43-53 | rewriting a pair's rating keeps the rating constraints |
| Ledger.AverageOfUnrated | backend/src/controllers/auth.controller.ts:85-109 | a new user has no ratings, so the profile's initial average 0 is current |
| Ledger.Tables.InsertApplication | backend/src/controllers/application.controller.ts:46-52 | adds one row under the next id and changes nothing else; keeps the constraints, and capacity when the row is not ACCEPTED |
| Ledger.Tables.SetApplicationStatus | backend/src/controllers/application.controller.ts:170-172 | replaces only the status of one application; keeps capacity unless it is an accept into a full job |
| Ledger.Tables.InsertJob | backend/src/controllers/job.controller.ts:33-48 | adds one job under the next id, with no ACCEPTED applications; keeps every constraint |
| Ledger.Tables.PutJob | backend/src/controllers/job.controller.ts:214-216 | replaces one job; capacity is kept exactly when its ACCEPTED count fits the new workersNeeded |
| Ledger.Tables.DeleteJob | backend/src/controllers/job.controller.ts:256-258 | removes one unreferenced job and nothing else |
| Ledger.Tables.InsertPayment | backend/src/controllers/payment.controller.ts:63-68 | adds one held payment for an application without one |
| Ledger.Tables.PutPayment | backend/src/controllers/payment.controller.ts:132-137 | replaces one payment, keeping its application and amount |
| Ledger.Tables.PutWorkerProfile | backend/src/controllers/user.controller.ts:65-68 | replaces one worker profile; stored averages stay current when its average is unchanged |
| Ledger.Tables.PutFarmerProfile | backend/src/controllers/user.controller.ts:104-107 | replaces one farmer profile; stored averages stay current when its average is unchanged |
| Ledger.Tables.InsertRating | backend/src/controllers/rating.controller.ts:75-81 | adds one rating for a new pair; every stored average but the reviewee's stays current |
| Ledger.Tables.PutRating | backend/src/controllers/rating.controller.ts:43-53 | rewrites one pair's rating; every stored average but the reviewee's stays current |
| Ledger.Tables.DeleteRating | backend/src/controllers/rating.controller.ts:164-166 | removes one rating; every stored average but the reviewee's stays current |
| Ledger.Tables.InsertWorker | backend/src/controllers/auth.controller.ts:72-97 | adds a worker user and its profile under the same new id |
| Ledger.Tables.InsertFarmer | backend/src/controllers/auth.controller.ts:98-108 | adds a farmer user and its profile under the same new id |
| Ledger.Tables.PutUser | backend/src/controllers/user.controller.ts:18-25 | replaces one user, with the same role and contacts no other user holds |
| Auth.DigitsOf | backend/src/controllers/auth.controller.ts:39 | `replace(/\D/g, '')`: only digits remain, no more characters than before |
| Auth.DigitsOfConcat | backend/src/controllers/auth.controller.ts:39 | stripping distributes over concatenation |
| Auth.DigitsOfDigits | backend/src/controllers/auth.controller.ts:39 | a digit string is left as it is |
| Auth.SeparatorIgnored | backend/src/controllers/auth.controller.ts:38-41 | inserting a non-digit anywhere in a phone number does not change whether it is accepted |
| Auth.BareNumber | backend/src/controllers/auth.controller.ts:38-41 | ten digits are accepted exactly when the first is 6 to 9 |
| Auth.EmailCheckSound | backend/src/controllers/auth.controller.ts:45-48 | every address the check accepts splits into the pattern's parts |
| Auth.EmailCheckComplete | backend/src/controllers/auth.controller.ts:45-48 | every address built from the pattern's parts is accepted |
| Auth.EmailCheckMatchesPattern | backend/src/controllers/auth.controller.ts:45-48 | the check accepts exactly the addresses the pattern matches |
| Auth.Utf16Length | backend/src/controllers/auth.controller.ts:33 | `password.length` counts UTF-16 units: between one and two per character |
| Auth.Utf16LengthBasic | backend/src/controllers/auth.controller.ts:33 | for Basic Multilingual Plane text it is the character count |
| Auth.SignupRole | backend/src/controllers/auth.controller.ts:28-30 | only WORKER and FARMER are accepted, never ADMIN |
| Auth.FallbackLaws | backend/src/controllers/auth.controller.ts:76-94 | an optional text column is never stored as the empty string, a required one is empty exactly when its optional form would be null, a stored coordinate is never 0, and each fallback applied twice equals it applied once |
| Auth.SignupError | backend/src/controllers/auth.controller.ts:23-49 | no error exactly when the request passes every check; otherwise the message of the first failing check, in the source's order |
| Auth.NewUser | backend/src/controllers/auth.controller.ts:72-83 | the user row: the phone as typed, the name, the e-mail or null, the hashed password, the role, and a terms time exactly when terms were accepted |
| Auth.NewWorkerProfile | backend/src/controllers/auth.controller.ts:86-97 | empty lists, the location or '', non-zero coordinates, zero experienceYears and zero aggregates |
| Auth.NewFarmerProfile | backend/src/controllers/auth.controller.ts:98-108 | empty farm name and crops, the location or '', non-zero coordinates, zero aggregates |
| Auth.Taken | backend/src/controllers/auth.controller.ts:51-65 | true exactly when a stored user has the phone, or the e-mail when one is given |
| Auth.SignedUp | backend/src/controllers/auth.controller.ts:70-112 | adds the user and exactly the profile of its role under one new id, and no other row; keeps unique contacts, capacity and averages |
| Auth.Signup | backend/src/controllers/auth.controller.ts:7-141 | 400 with the first validation message, 400 for taken contacts; otherwise the store becomes the `SignedUp` tables and the reply carries the user without its password and the new id's claims; failures write nothing |
| Auth.SeparatedNumberPassesUniqueness | backend/src/controllers/auth.controller.ts:37-65 | a phone with the same digits as a registered one, but an added separator, passes the uniqueness check |
| Auth.UserByPhone | backend/src/controllers/auth.controller.ts:151-157 | finds the one user with the phone, or reports there is none |
| Auth.Login | backend/src/controllers/auth.controller.ts:143-182 | 400 when phone or password is missing; succeeds exactly when a user with the phone has a matching password, returning that user without the password and its claims; every other request gets the same 401 |
| Auth.LoginAfterSignup | backend/src/controllers/auth.controller.ts:143-182 | right after signup, logging in with the same phone and password signs the new user in |
| Auth.GetMe | backend/src/controllers/auth.controller.ts:184-209 | 401, 404 unknown user, otherwise the caller's own record without the password |
| Users.WithAccountChange | backend/src/controllers/user.controller.ts:11-25 | name, e-mail and image change exactly when supplied truthy; every other column is kept |
| Users.LaterAccountChange | backend/src/controllers/user.controller.ts:13-16 | the combined update supplies a field exactly when either does, the later one winning |
| Users.AccountChangeLaws | backend/src/controllers/user.controller.ts:13-16 | an empty update changes nothing, an update is idempotent, and two updates compose field by field |
| Users.ApplyAccountChange | backend/src/controllers/user.controller.ts:13-16 | building the update field by field gives the patched user |
| Users.AccountChangeKeepsContacts | backend/src/controllers/user.controller.ts:15-20 | an e-mail no other user holds keeps contacts unique |
| Users.Reaccounted | backend/src/controllers/user.controller.ts:18-25 | replaces only the caller's user row; keeps every store constraint |
| Users.UpdateProfile | backend/src/controllers/user.controller.ts:5-34 | 401; 500 with nothing written for an unknown caller or an e-mail another user holds; otherwise only the caller's user changes, and the reply omits the password |
| Users.WithWorkerChange | backend/src/controllers/user.controller.ts:56-63 | the totals and average are never changed; location only when truthy; coordinates and experience whenever present, 0 and null included |
| Users.WorkerChangeLaws | backend/src/controllers/user.controller.ts:56-63 | an empty patch changes nothing, and a patch is idempotent |
| Users.ApplyWorkerChange | backend/src/controllers/user.controller.ts:56-63 | building the update field by field gives the patched profile |
| Users.UpdateWorkerProfile | backend/src/controllers/user.controller.ts:36-75 | 401, 403 non-worker, 500 no profile row; otherwise only the caller's worker profile changes |
| Users.WithFarmerChange | backend/src/controllers/user.controller.ts:96-102 | the totals and average are never changed; name and location only when truthy; farm size and coordinates whenever present |
| Users.FarmerChangeLaws | backend/src/controllers/user.controller.ts:96-102 | an empty patch changes nothing, and a patch is idempotent |
| Users.ApplyFarmerChange | backend/src/controllers/user.controller.ts:96-102 | building the update field by field gives the patched profile |
| Users.UpdateFarmerProfile | backend/src/controllers/user.controller.ts:77-114 | 401, 403 non-farmer, 500 no profile row; otherwise only the caller's farmer profile changes |
| Users.GetUserById | backend/src/controllers/user.controller.ts:116-152 | 404 for an unknown id; otherwise the user without the password, the profiles it has, and exactly its received ratings, newest first |
| Users.UserViewFollowsRole | backend/src/controllers/user.controller.ts:120-124 | the record shows the role's profile and never both |

## Left out

- Request authentication is left out. The JWT middleware is not part of
  this model, and neither is the route-level `authorize` role gating in
  `backend/src/routes/*.ts`. The caller appears as the parameter
  `Option<Caller>`, and only the controllers' own checks are modelled.
- Password hashing and comparison are left out. They live in utilities
  that are not part of this model, and here they are function parameters
  (`hash`, `matches`).
- Token signing is left out. A token is represented by the claims it
  carries.
- The clock is the parameter `now`.
- Concurrency is left out: the window between a check and its write,
  and the race on the unique constraints. Transactions are atomic
  method bodies. Because writes never race, the P2002 path of signup
  (400) cannot arise in the model.
- Floating point is left out. Amounts, wages, coordinates and averages are
  exact reals. `toFixed(2)` is rounding half up to hundredths
  (`Reputation.Round2`). The 0.01 tolerance is compared exactly.
- Response shaping is left out: the `include`/`select` clauses that attach
  related rows, reviewer names and nested profiles to replies. Replies
  carry the row itself, or the ids of listed rows, and user rows are always
  stripped of the password.
- Field types in request bodies are left out. Strings are strings and
  numbers are numbers, and NaN from `parseFloat`/`parseInt` is an explicit
  case (`Parsed.NaN`). A body value of the wrong JSON type, such as null for
  a non-nullable column, is not modelled.
- updateJob's patch: a body may overwrite any column but `farmerId` and the
  id. Patches that move a job to another farmer or set unknown columns are
  not modelled.
- startDate is kept as the string sent; `new Date(...)` parsing is not
  modelled.
- Jobs.ContainsInsensitive: the location match folds case over ASCII
  letters only, not the database's full Unicode case folding.
- Ratings.CreateRating: the rating is taken as a JSON number, and
  `parseInt` is its integer part. `parseInt` of a string body is not
  modelled.
- Jobs.CreateJob: assumes the token claims its user's own role
  (`RoleCurrent`). A stored farmer then has a profile, so the second write,
  the posted count, cannot fail after the first has succeeded, and a job
  written without its count is not modelled.
- Jobs.DeleteJob: the store refuses to delete a job that applications
  refer to (restrict, so the handler answers 500). The schema's
  referential actions are not part of this model, and a cascading delete
  of the job's applications and payments is not modelled.
- Auth.NewWorkerProfile and Auth.NewFarmerProfile: the columns the signup
  leaves out (experienceYears, the average rating, and the job, earnings
  and spending totals) start at 0 and farmSize at null, taken as the
  schema's column defaults; the schema is not part of this model.
- Error reporting: errors thrown by the store are reported as 500 with
  the generic message. Console logging is not modelled, and neither is
  the development-only `details` field.
- The upload controller and image handling are not part of this model.
  They are file I/O and calls to a hosting service.
