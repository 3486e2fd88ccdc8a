# Pinehurst property portal — verified model of its request rules

Pinehurst is a Next.js application over MySQL. Customers see the properties
assigned to them, their payments and their documents. Administrators manage
users, properties and payments. This project models, in Dafny, the
deterministic rules inside its routes and helpers:

- the password-reset token lifecycle: issue, verify, consume;
- the identity and authorization guards of `lib/auth.ts`;
- the admin create routes for payments, users and properties, with their
  guard order, required-field checks, duplicate checks and defaults;
- the listing query builders of the users and properties `GET` routes;
- the client payment form's balance rule and submit guards;
- the payments schema migration and its backfill;
- the upload routes' file names, paths and URLs;
- the `/uploads/` middleware's content types and `Content-Disposition`;
- the display helpers of the documents, properties, assigned-properties and
  payment-history tables.

Each database table is a sequence of rows. A route that writes is a `method`
over `Db.Table` objects (`Insert`, `Retain` for `DELETE`, `Update`). Its
`ensures` ties the reply and the new rows to a specification function of the
old rows, and the properties are proved about that function.

Values the application takes from outside are parameters:

- the clock (`now`);
- the 32 random bytes of a reset token;
- the bcrypt hash, as a function `string -> string`;
- the ISO conversion of a date, as a function `Option<string> -> Option<string>`;
- the generated insert ids;
- the session's decoded claims.

Failures that the code turns into replies are boolean flags or a set of
failing steps: a throwing `sendMail`, a failing `SELECT`, `writeFile`, SSH
call, `INSERT` or `ALTER`, and an unreadable file.

JavaScript truthiness is modelled as follows. A string field is
`Option<string>`, falsy when absent or empty. A numeric field is
`Option<int>` in cents, falsy when absent or zero.

Two behaviours of the source are easy to misread, and the model follows the
code in both:

- **Non-admins get 401, not 403.** An authenticated user who is not an
  admin might be expected to get 403. Every admin API route answers 401 for
  both the anonymous and the non-admin case (`app/api/payments/route.ts:9-11`,
  `app/api/users/route.ts:10-12`, `app/api/properties/route.ts:69-71`).
- **API routes trust the session's claims.** They check the role with
  `getCurrentUser`, which returns the role recorded when the session was
  issued. Only the page guards re-read the `users` row
  (`Auth.StaleClaimPassesApiCheck`).

## Model

| member | source | states |
|---|---|---|
| ResetTokens.Hex | app/api/auth/forgot-password/route.ts:26 | the text has two characters per byte, each a lower-case hex digit |
| ResetTokens.HexRoundTrip | app/api/auth/forgot-password/route.ts:26 | `toString("hex")` loses nothing: decoding the lower-case Base16 text of any byte sequence (section 8 of RFC 4648) gives the bytes back |
| ResetTokens.TokenShape | app/api/auth/forgot-password/route.ts:26 | a token from 32 bytes is exactly 64 lower-case hex digits, and distinct byte strings give distinct tokens |
| ResetTokens.LiveRows | app/api/auth/verify-reset-token/route.ts:14-20 | the lookup returns only table rows with this token and an expiry after now, and every such row |
| ResetTokens.LiveRowsNonEmpty | app/api/auth/verify-reset-token/route.ts:14-20 | the `token = ? AND expires_at > NOW()` query returns a row iff some row has this token and an expiry strictly after now |
| ResetTokens.ExpiryIsStrict | app/api/auth/verify-reset-token/route.ts:16-17 | rows that expire at or before now are never returned |
| ResetTokens.RowsOfWithoutUser | app/api/auth/forgot-password/route.ts:44 | `DELETE ... WHERE user_id = ?` removes all of that user's rows and exactly keeps every other user's |
| ResetTokens.Issue | app/api/auth/forgot-password/route.ts:44-51 | after delete-then-insert the new row is last, every other row is a kept row of another user, and every other user's row is kept |
| ResetTokens.OneTokenPerUser | app/api/auth/forgot-password/route.ts:44-51 | after delete-then-insert, the user holds exactly one token row: the new one |
| ResetTokens.IssueKeepsOtherUsers | app/api/auth/forgot-password/route.ts:44-51 | issuing a token leaves every other user's token rows unchanged |
| ResetTokens.IssueSupersedes | app/api/auth/forgot-password/route.ts:44 | a user's earlier token stops being valid once a new one is issued |
| ResetTokens.ConsumedTokenIsDead | app/api/auth/reset-password/route.ts:35 | after `DELETE ... WHERE token = ?` no live row carries the token, whenever it is checked |
| ResetTokens.ConsumeKeepsOtherTokens | app/api/auth/reset-password/route.ts:35 | consuming one token leaves every other token's validity unchanged |
| ForgotPasswordRoute.FindByEmail | app/api/auth/forgot-password/route.ts:15-17 | the lookup finds nothing iff no row has the email, and otherwise finds a row that has it |
| ForgotPasswordRoute.ForgotPassword | app/api/auth/forgot-password/route.ts:8-87 | a falsy email gives 400 "Email is required" and an unknown one gives the uniform 200, both with the token table untouched. A known email replaces its user's tokens by one token expiring `now + 3600`. That token stays stored even when mail then fails with 500. The table changes only for a registered email |
| ForgotPasswordRoute.Post | app/api/auth/forgot-password/route.ts:6-88 | the handler's delete, insert and mail steps, run in order on the token table, produce the reply and rows of `ForgotPassword` |
| ForgotPasswordRoute.NoEnumeration | app/api/auth/forgot-password/route.ts:17-83 | when mail succeeds the reply does not depend on the users table, so a known and an unknown email get the same status and message |
| ForgotPasswordRoute.IssuesOneToken | app/api/auth/forgot-password/route.ts:27-51 | after a request the user has exactly one row, expiring one hour after issue, and every other user's rows are unchanged |
| ForgotPasswordRoute.FreshTokenLive | app/api/auth/forgot-password/route.ts:27-51 | a fresh token is valid strictly before issue time plus one hour and invalid from then on |
| VerifyResetTokenRoute.VerifyResetToken | app/api/auth/verify-reset-token/route.ts:9-26 | a falsy token gives 400 "Token is required". Otherwise the reply is 200 "Token is valid" iff some row holds the token with `expires_at > now`, and 400 "Invalid or expired token" for both unknown and expired tokens. The function is read-only |
| VerifyResetTokenRoute.ExpiresAtNowIsRejected | app/api/auth/verify-reset-token/route.ts:16-17 | a token whose expiry equals now is rejected |
| ResetPasswordRoute.ResetPassword | app/api/auth/reset-password/route.ts:9-37 | a falsy token or password gives 400 and an invalid or expired token gives 400, both with users and tokens untouched. On success the token owner's password becomes `hash(password)`, the token's rows are deleted, and the reply is 200 "Password reset successful" |
| ResetPasswordRoute.Post | app/api/auth/reset-password/route.ts:5-42 | the `UPDATE` then the `DELETE`, run in order on the two tables, produce the reply and rows of `ResetPassword` |
| ResetPasswordRoute.OnlyOwnerChanges | app/api/auth/reset-password/route.ts:26-32 | on success exactly the rows of the token's owner get the new hash; every other user row is unchanged |
| ResetPasswordRoute.AgreesWithVerify | app/api/auth/reset-password/route.ts:14-24 | reset succeeds iff the verify route would answer 200 for the same token at the same time |
| ResetPasswordRoute.SingleUse | app/api/auth/reset-password/route.ts:35 | after a successful reset, verifying or resetting with the same token fails at any later time |
| ResetPasswordRoute.IssueThenReset | app/api/auth/reset-password/route.ts:14-37 | a token issued for a user and used within the hour resets that user's password and is then dead |
| Auth.FromRow | lib/auth.ts:42-51 | the user built from a row carries the row's id, as text, and its stored role and email |
| Auth.GetCurrentUser | lib/auth.ts:24-27 | returns the session's user claims unchanged, or null, without reading the users table |
| Auth.RequireAuth | lib/auth.ts:29-61 | without a session user, redirects to `/auth/signin`. When some row matches the claimed id and the query does not throw, the user built from a matching row is returned. When no row matches or the query throws, the claims are returned unchanged |
| Auth.StoredRowWins | lib/auth.ts:38-51 | with exactly one row for the claimed id, `requireAuth` returns that row's user instead of the session's claims |
| Auth.RequireAdmin | lib/auth.ts:63-71 | redirects to `/dashboard` exactly when the resolved role is not "admin", and otherwise returns the user `RequireAuth` resolved |
| Auth.DemotionTakesEffect | lib/auth.ts:38-68 | a user whose stored role is no longer admin is sent to `/dashboard` by the page guard, whatever the session says |
| Auth.StaleClaimPassesApiCheck | lib/auth.ts:24-71 | a demoted user with an old admin session is refused by the page guard but still passes the API routes' admin check |
| PaymentsRoute.FormatTimestamp | app/api/payments/route.ts:23 | the stored text is the first 19 characters of the ISO string, where the first `T` among them, and only that one, becomes a space |
| PaymentsRoute.FormatIsoTimestamp | app/api/payments/route.ts:23 | for an ISO timestamp the stored text is the date, a space, and the time to the second |
| PaymentsRoute.PaidDateOf | app/api/payments/route.ts:27-30 | `paid_date` is null unless the status is "paid" and a paid date was given; then it is the paid date formatted like the payment date, and the conversion throws exactly when the paid date cannot be converted |
| PaymentsRoute.RowOf | app/api/payments/route.ts:33-48 | the inserted row holds the request's own customer, parcel id, amounts, balance, method and status, with the two formatted dates |
| PaymentsRoute.CreatePayment | app/api/payments/route.ts:7-53 | no user or a non-admin gives 401, and a falsy customer, amount (0 included), method or status gives 400, both with nothing inserted. A date that cannot be converted gives 500. Otherwise exactly one row is appended with the request's own balance and a `paid_date` only for "paid", and the reply is 201. An admin request with every required field whose date or paid date cannot be converted gives 500 with nothing inserted |
| PaymentsRoute.Post | app/api/payments/route.ts:5-55 | the handler, including its reassigned `formattedPaidDate`, appends to the payments table exactly what `CreatePayment` states |
| PaymentsRoute.ZeroAmountIsMissing | app/api/payments/route.ts:18-20 | an amount of 0 is refused as missing |
| PaymentsRoute.BalanceNotRecomputed | app/api/payments/route.ts:13-47 | the stored balance can disagree with due minus paid: the server stores what the client sent |
| PaymentFormModel.ComputeBalance | app/dashboard/payments/create/payment-form.tsx:64 | the balance is never negative, equals due − paid when paid ≤ due, and is 0 otherwise |
| PaymentFormModel.PaymentForm.constructor | app/dashboard/payments/create/payment-form.tsx:21-29 | the form starts empty with balance 0, method "credit_card" and status "pending", which is not one of the four selectable statuses |
| PaymentFormModel.PaymentForm.RecomputeBalance | app/dashboard/payments/create/payment-form.tsx:60-68 | the effect sets the balance from both amounts, and keeps the previous balance while either amount is empty |
| PaymentFormModel.PaymentForm.SetAmountDue | app/dashboard/payments/create/payment-form.tsx:60-68 | typing an amount due runs the balance effect |
| PaymentFormModel.PaymentForm.SetAmountPaid | app/dashboard/payments/create/payment-form.tsx:60-68 | typing an amount paid runs the balance effect |
| PaymentFormModel.PaymentForm.Request | app/dashboard/payments/create/payment-form.tsx:73-109 | no request is sent without a customer or with either amount empty. Otherwise the body carries the form's customer, parcel id, both amounts, balance, date, method and status, and its paid date exactly when the status is "paid" |
| PaymentFormModel.PaymentForm.Submit | app/dashboard/payments/create/payment-form.tsx:70-109 | `handleSubmit` sends exactly the request `Request` describes |
| PaymentFormModel.ZeroAmountAcceptedThenRefused | app/dashboard/payments/create/payment-form.tsx:82-102 | the form sends an amount of 0, and the server then refuses it as missing |
| UsersRoute.RoleFilterPlaceholders | app/api/users/route.ts:21 | the role filter holds one placeholder |
| UsersRoute.QueryPlaceholders | app/api/users/route.ts:17-21 | the base query holds no placeholder, and with the filter exactly one |
| UsersRoute.ListQuery | app/api/users/route.ts:17-23 | the query gains " WHERE role = ?" and one param iff the role is non-empty, and otherwise has no params; placeholders always match params |
| UsersRoute.Get | app/api/users/route.ts:8-25 | a non-admin gets 401; otherwise the statement is `SELECT id, name FROM users`, plus ` WHERE role = ?` with the role value as its one param exactly when a role was given, so placeholders and params match |
| UsersRoute.RoleOf | app/api/users/route.ts:64 | the stored role is the given one, or "customer" when it is absent or empty |
| UsersRoute.CreateUser | app/api/users/route.ts:36-68 | a non-admin gets 401, a falsy name, email or password gets 400, and an existing email gets 409, all with the table unchanged. Otherwise one row is appended with `hash(password)` and the defaulted role, and the reply is 201 |
| UsersRoute.Post | app/api/users/route.ts:34-73 | the handler's checks and insert change the users table exactly as `CreateUser` states |
| UsersRoute.CreateKeepsEmailsUnique | app/api/users/route.ts:50-54 | if emails are unique before a request they are unique after it |
| PropertiesRoute.Conditions | app/api/properties/route.ts:28-39 | one condition for each truthy filter: the parcel-id condition first when the parcel id is truthy, the status condition last when the status is truthy |
| PropertiesRoute.FilterParams | app/api/properties/route.ts:29-39 | one param per condition, in the same order: the parcel id first and the status last when they are truthy |
| PropertiesRoute.ListQuery | app/api/properties/route.ts:22-54 | the params are the filter values in condition order, then `userId` if given |
| PropertiesRoute.ListQueryShape | app/api/properties/route.ts:22-54 | the SQL always ends with ` ORDER BY p.created_at DESC`; with `userId` it is the join query alone; without it, it starts with the base query and has a WHERE clause of the conditions joined by AND exactly when some filter is truthy |
| PropertiesRoute.BuildListQuery | app/api/properties/route.ts:22-54 | the `push` and reassignment steps build exactly `ListQuery` |
| PropertiesRoute.Get | app/api/properties/route.ts:8-56 | any session user may list; without one the reply is 401 |
| PropertiesRoute.ListQueryPlaceholders | app/api/properties/route.ts:22-54 | the built SQL holds one placeholder with `userId`, and one per condition without it |
| PropertiesRoute.JoinedListingPlaceholders | app/api/properties/route.ts:41-54 | the join query with the order clause holds exactly one placeholder, the user id's |
| PropertiesRoute.FilteredListingPlaceholders | app/api/properties/route.ts:22-54 | the base query with " WHERE ", the conditions joined by " AND " and the order clause holds one placeholder per condition |
| PropertiesRoute.PlainListingPlaceholders | app/api/properties/route.ts:22-54 | the unfiltered listing holds no placeholder |
| PropertiesRoute.CorrectedJoinPlaceholders | app/api/properties/route.ts:41-52 | the corrected user-filtered SQL holds one placeholder for the user and one per condition |
| PropertiesRoute.ConditionPlaceholders | app/api/properties/route.ts:31-39 | each pushed condition carries exactly one placeholder |
| PropertiesRoute.FragmentPlaceholders | app/api/properties/route.ts:22-54 | the placeholder count of each SQL fragment: none in the base, the connectives and the order clause, one in the join query and in each condition |
| PropertiesRoute.PlaceholdersMatchWithoutUser | app/api/properties/route.ts:31-52 | without `userId`, placeholders and params always match |
| PropertiesRoute.UserFilterMismatch | app/api/properties/route.ts:41-49 | with `userId` and any filter, the SQL has one placeholder but two or three params |
| PropertiesRoute.ListQueryCorrected | app/api/properties/route.ts:41-52 | with `userId`, the join query is followed by the filter conditions joined with " AND ", and `userId` comes first in params; otherwise as written |
| PropertiesRoute.CorrectedPlaceholdersMatch | app/api/properties/route.ts:41-52 | in the corrected builder, placeholders and params always match |
| PropertiesRoute.RowOf | app/api/properties/route.ts:128-144 | the inserted row keeps status and parcel id, and stores every empty optional field as null |
| PropertiesRoute.CreateProperty | app/api/properties/route.ts:67-164 | a non-admin gets 401, a falsy parcel id or status gets 400, and a taken parcel id gets 409, all with both tables unchanged. Otherwise one property row is appended, plus an assignment row only when `user_id` is given and an id was generated, and the reply is 201 with the id |
| PropertiesRoute.Post | app/api/properties/route.ts:65-169 | the handler's two inserts change both tables exactly as `CreateProperty` states |
| PropertiesRoute.CreateKeepsParcelsUnique | app/api/properties/route.ts:100-105 | if parcel ids are unique before a request they are unique after it |
| SchemaUpdate.Snapshot | app/api/db-schema-update.ts:16 | the snapshot is the column names lower-cased, one for one |
| SchemaUpdate.WithColumn | app/api/db-schema-update.ts:19-37 | `ADD COLUMN` appends the name and gives every row the column's default |
| SchemaUpdate.BackfillRow | app/api/db-schema-update.ts:41-47 | a row with `amount_paid` = 0 gets `amount_paid` = `amount_due` = `amount` and `balance` = 0, and keeps every other cell; any other row is untouched |
| SchemaUpdate.Backfill | app/api/db-schema-update.ts:41-47 | the bulk `UPDATE` rewrites every row by the backfill rule and keeps the columns |
| SchemaUpdate.AddMissing | app/api/db-schema-update.ts:19-37 | the conditional ALTERs keep the existing columns and rows in place |
| SchemaUpdate.Migrate | app/api/db-schema-update.ts:3-56 | a failing column read changes nothing and reports failure; every run keeps existing columns and the row count |
| SchemaUpdate.NewColumnsLowerCase | app/api/db-schema-update.ts:19-35 | the five names the migration checks are already lower case |
| SchemaUpdate.AddMissingCovers | app/api/db-schema-update.ts:19-37 | after a successful pass each name was already present or has been added |
| SchemaUpdate.AddMissingNoop | app/api/db-schema-update.ts:19-37 | when every name is already present, no ALTER runs |
| SchemaUpdate.AddMissingRow | app/api/db-schema-update.ts:19-37 | other cells of a row are untouched, and an added column holds its default |
| SchemaUpdate.AllColumnsPresent | app/api/db-schema-update.ts:19-37 | after a successful run all five columns exist, compared case-insensitively |
| SchemaUpdate.SecondRunAddsNothing | app/api/db-schema-update.ts:19-37 | a second run on the migrated table adds no column |
| SchemaUpdate.BackfillIdempotent | app/api/db-schema-update.ts:41-47 | running the backfill twice is running it once |
| SchemaUpdate.AddMissingSucceeds | app/api/db-schema-update.ts:19-37 | with no failing ALTER the column pass succeeds |
| SchemaUpdate.RunWithoutBackfill | app/api/db-schema-update.ts:40 | when `amount_paid` was absent from the snapshot the run adds columns and never backfills |
| SchemaUpdate.FirstRunSkipsBackfill | app/api/db-schema-update.ts:6-40 | the run that adds `amount_paid` leaves it 0 in every row, even though `amount` exists |
| SchemaUpdate.BothInSnapshot | app/api/db-schema-update.ts:16-40 | after that run, the next snapshot holds `amount`, `amount_paid` and all five new columns |
| SchemaUpdate.RunWithBackfill | app/api/db-schema-update.ts:19-48 | with every column and both `amount` and `amount_paid` present, a run is exactly the backfill |
| SchemaUpdate.BackfillCopies | app/api/db-schema-update.ts:41-47 | a row with `amount_paid` = 0 gets `amount_paid` = `amount` |
| SchemaUpdate.SecondRunCopies | app/api/db-schema-update.ts:40-47 | on the migrated table a run copies each row's amount into `amount_paid` |
| SchemaUpdate.BackfillNeedsSecondRun | app/api/db-schema-update.ts:6-48 | amounts reach `amount_paid` only on the second run after `amount_paid` is added |
| SchemaUpdate.PaymentsTable.AddColumnIfAbsent | app/api/db-schema-update.ts:19-21 | one conditional ALTER: no change if the name is in the snapshot, a failure if the ALTER throws, else the column is added |
| SchemaUpdate.PaymentsTable.AddMissingColumns | app/api/db-schema-update.ts:19-37 | the ALTERs in order change the table as `AddMissing` states, stopping at the first throw |
| SchemaUpdate.PaymentsTable.UpdatePaymentsTable | app/api/db-schema-update.ts:3-56 | `updatePaymentsTable` changes the table and reports success exactly as `Migrate` states |
| FileNames.Sanitize | app/api/documents/upload/route.ts:34 | the sanitised name has the original's length; each character is kept if it is in [A-Za-z0-9.-] and becomes `_` otherwise |
| FileNames.StoredName | app/api/documents/upload/route.ts:34 | the stored name is the upload time's decimal digits, one dash, then the sanitised name character for character |
| FileNames.SanitizeIsSafe | app/api/documents/upload/route.ts:34 | the sanitised name holds only characters in [A-Za-z0-9._-] |
| FileNames.SanitizeFixesSafeNames | app/api/documents/upload/route.ts:34 | a name is unchanged iff it already holds only characters in [A-Za-z0-9._-] |
| FileNames.SanitizeIdempotent | app/api/documents/upload/route.ts:34 | sanitising twice is sanitising once |
| FileNames.StoredNameIsSafe | route.ts:23-30 | the stored name holds no `/`, quote, space, `;`, `$` or backtick, starts with a digit and is neither `.` nor `..` |
| FileNames.StoredNameLength | app/api/documents/upload/route.ts:34 | the stored name is the timestamp's digits, one dash, and as many characters as the original name |
| FileNames.StoredNameTimestamp | app/api/documents/upload/route.ts:34 | the text before the first dash of a stored name is the upload time, which reads back as the same number |
| FileNames.DistinctTimesDistinctNames | app/api/documents/upload/route.ts:34 | uploads at different milliseconds get different names |
| FileNames.Extension | middleware.ts:22 | the extension is no longer than the name and is already lower case |
| FileNames.ExtensionIgnoresCase | middleware.ts:22 | the extension does not depend on the name's case |
| FileNames.ExtensionOf | middleware.ts:22 | the extension of `base.ext` is `ext` lower-cased, whatever `base` holds |
| DocumentUploadRoute.FileUrl | app/api/documents/upload/route.ts:44 | the URL is "/uploads/" followed by the stored name |
| DocumentUploadRoute.Upload | app/api/documents/upload/route.ts:12-53 | no user gives 401 and no file gives 400, both with nothing written. A failing write stores nothing, and a failing insert leaves the file without a row; both give 500. Success appends one row owned by the current user with `fileUrl` and replies 201 |
| DocumentUploadRoute.Post | app/api/documents/upload/route.ts:11-54 | the handler's write and insert change the documents table as `Upload` states |
| DocumentUploadRoute.StoredInsideUploadDir | app/api/documents/upload/route.ts:34-44 | the written name is a single path segment inside the upload directory, and the URL ends with it |
| DocumentUploadRoute.DistinctUploadsDistinctUrls | app/api/documents/upload/route.ts:34-44 | uploads at different times are recorded under different URLs |
| RemoteUploadRoute.RemotePath | route.ts:24 | the remote path is "/var/www/uploads/" followed by the stored name |
| RemoteUploadRoute.RemoteUrl | route.ts:36 | the URL is "https://209.97.155.164/uploads/" followed by the stored name |
| RemoteUploadRoute.RemoteUpload | route.ts:10-46 | no user gives 401 and no file gives 400. A failing SSH call stores nothing, and a failing insert leaves the remote file without a row; both give 500 "Upload failed". Success appends one row owned by the current user and replies with the default 200 |
| RemoteUploadRoute.Post | route.ts:9-47 | the handler's SSH copy and insert change the documents table as `RemoteUpload` states |
| RemoteUploadRoute.RemotePathIsShellSafe | route.ts:23-30 | the path interpolated into the shell command holds only `/` and sanitised characters |
| RemoteUploadRoute.RoutesAgreeOnName | route.ts:20-36 | the remote path and URL of an upload end in the same stored name as the local route's URL for the same file and time |
| RemoteUploadRoute.SuccessStatusesDiffer | route.ts:42 | success is 200 here against 201 in the local upload route |
| Middleware.ContentType | middleware.ts:23-28 | pdf → application/pdf, doc/docx → application/msword, jpg/jpeg → image/jpeg, png → image/png, anything else → application/octet-stream |
| Middleware.Handle | middleware.ts:6-45 | paths outside `/uploads/` pass through, an unreadable file gives 404 "File not found", and otherwise the file is served with the type of its lower-cased extension and `inline; filename="<last segment>"` |
| Middleware.RecordedUrlsAreHandled | middleware.ts:10 | every URL the local upload route records starts with `/uploads/`, so the middleware serves it |
| Middleware.Disposition | middleware.ts:34 | the header is `inline; filename="…"` around a suffix of the path that holds no `/` |
| Middleware.StoredFileDisposition | middleware.ts:34 | an uploaded file is served under exactly its stored name, which holds no quote |
| Middleware.ContentTypeIgnoresCase | middleware.ts:22-28 | `a.PDF` gets the type of `pdf` |
| Middleware.NoDotIsOctetStream | middleware.ts:22-28 | an `/uploads/` path without a dot is served as application/octet-stream |
| DocumentTable.DisplayName | app/dashboard/documents/document-table.tsx:126 | the name shown is the text after the last `/` of the URL, or "document" when that is empty |
| DocumentTable.KindOf | app/dashboard/documents/document-table.tsx:77-97 | PDF exactly for "pdf", DOC exactly for "doc" and "docx", IMAGE exactly for "jpg", "jpeg" and "png", FILE otherwise |
| DocumentTable.FileKind | app/dashboard/documents/document-table.tsx:74-98 | the badge of a file name is decided by its lower-cased extension, with the same mapping |
| DocumentTable.CanPreview | app/dashboard/documents/document-table.tsx:100-103 | a file can be previewed exactly when its lower-cased extension is pdf, jpg, jpeg or png |
| DocumentTable.PreviewIffPdfOrImage | app/dashboard/documents/document-table.tsx:77-103 | a file can be previewed iff its kind is PDF or IMAGE, so DOC files never can |
| DocumentTable.KindIgnoresCase | app/dashboard/documents/document-table.tsx:75-101 | kind and preview ignore the case of the name |
| DocumentTable.KindOfExtension | app/dashboard/documents/document-table.tsx:75-97 | pdf → PDF, doc/docx → DOC, jpg/jpeg/png → IMAGE, anything else → FILE, in any case |
| DocumentTable.FallbackNameIsPlainFile | app/dashboard/documents/document-table.tsx:97-126 | a URL ending in `/` is shown as "document", a plain FILE without preview |
| DocumentTable.UploadShownByStoredName | app/dashboard/documents/document-table.tsx:126 | a locally uploaded document is shown under its stored name |
| DocumentTable.EmptyRowSpansHeader | app/dashboard/documents/document-table.tsx:110-120 | the empty-state cell spans 5 columns for admins and 4 otherwise, the header's width |
| PropertyDisplay.StreetAddress | app/dashboard/properties/property-table.tsx:85-89 | number and name are joined by one space, and a missing one is left out |
| PropertyDisplay.CityStateZip | app/dashboard/properties/property-table.tsx:91 | city, state and zip give the empty text exactly when all three are blank |
| PropertyDisplay.CityStateZipEmpty | app/dashboard/properties/property-table.tsx:91 | city, state and zip give the empty text iff all three are blank |
| PropertyDisplay.GetAddress | app/dashboard/properties/property-table.tsx:84-94 | never empty: "No address provided" when all five fields are blank, and otherwise the composed address |
| PropertyDisplay.FallbackIffBlank | app/dashboard/properties/property-table.tsx:84-94 | the composed address is empty iff all five fields are blank; then "No address provided" is shown, otherwise the non-empty composition |
| PropertyDisplay.SinglePartAddresses | app/dashboard/properties/property-table.tsx:93 | with one part blank the address is the other part alone, with no separator |
| PropertyDisplay.StatusLabel | app/dashboard/properties/property-table.tsx:69-82 | the four known statuses get their labels in any case, and any other status is shown as written |
| PropertyDisplay.StatusLabelIgnoresCase | app/dashboard/user-properties/user-property-list.tsx:42-55 | a known status gets one label in every case |
| PropertyDisplay.UnknownStatusVerbatim | app/dashboard/user-properties/user-property-list.tsx:52-53 | an unknown status is shown verbatim, in its own case |
| PropertyTableModel.PropertyTable.HandleDelete | app/dashboard/properties/property-table.tsx:36-67 | a successful delete filters out the rows with that id; a failed one leaves the list unchanged |
| PropertyTableModel.DeleteRemovesExactly | app/dashboard/properties/property-table.tsx:55 | no row with the id survives, and every other row does |
| PropertyTableModel.DeleteKeepsOrder | app/dashboard/properties/property-table.tsx:55 | deleting a row keeps the rows before and after it in order |
| PropertyTableModel.DeleteTwice | app/dashboard/properties/property-table.tsx:55 | deleting the same id again changes nothing |
| UserPropertyList.InitialSelection | app/dashboard/user-properties/user-property-list.tsx:36-38 | the first property's id, or null for an empty list |
| UserPropertyList.SelectedProperty | app/dashboard/user-properties/user-property-list.tsx:40 | null iff nothing is selected or no property has the id; otherwise a listed property with that id |
| UserPropertyList.Render | app/dashboard/user-properties/user-property-list.tsx:69-78 | an empty list renders only the "No Properties" card; otherwise the list shows the selected property |
| UserPropertyList.FirstPropertyShownInitially | app/dashboard/user-properties/user-property-list.tsx:36-40 | on first render a non-empty list shows its first property |
| UserPropertyList.ClickShowsProperty | app/dashboard/user-properties/user-property-list.tsx:40-95 | selecting a property shows that property when ids are unique |
| PaymentHistory.StatusLabel | app/dashboard/payment-history/payment-history-table.tsx:20-31 | paid, pending and failed get their labels in any case; other statuses are shown as written |
| PaymentHistory.OtherStatusesShownRaw | app/dashboard/payment-history/payment-history-table.tsx:28-29 | partially_paid, not_paid and past_due are shown raw |
| PaymentHistory.StatusLabelIgnoresCase | app/dashboard/payment-history/payment-history-table.tsx:21 | a known status gets one label in every case |
| PaymentHistory.Icon | app/dashboard/payment-history/payment-history-table.tsx:33-44 | the card, PayPal and bank icons go exactly to credit_card, paypal and bank_transfer, in any case |
| PaymentHistory.OtherMethodsDefaultIcon | app/dashboard/payment-history/payment-history-table.tsx:41-42 | every other method gets the default icon |
| PaymentHistory.MethodLabel | app/dashboard/payment-history/payment-history-table.tsx:75 | the label has the method's length; the first `_`, and only that one, becomes a space |
| PaymentHistory.MethodLabelFirstUnderscoreOnly | app/dashboard/payment-history/payment-history-table.tsx:75 | only the first underscore becomes a space; later ones stay |
| PaymentHistory.TransactionId | app/dashboard/payment-history/payment-history-table.tsx:67 | "#" followed by the first 8 characters of the id, or the whole id if it is shorter |
| PaymentHistory.ShortIdShownWhole | app/dashboard/payment-history/payment-history-table.tsx:67 | an id of at most 8 characters is shown whole |
| PaymentHistory.LongIdsMayCollide | app/dashboard/payment-history/payment-history-table.tsx:67 | ids that share their first 8 characters are displayed identically |
| PaymentHistory.TransactionCell | app/dashboard/payment-history/payment-history-table.tsx:67 | as written, the cell throws exactly for a numeric id and labels a text id |
| PaymentHistory.StoredIdsThrow | app/dashboard/payment-history/page.tsx:10-23 | a numeric id makes the cell throw, so with the INT ids of scripts/init-db.ts:24 every row of a non-empty history throws |
| PaymentHistory.TransactionIdOf | app/dashboard/payment-history/payment-history-table.tsx:67 | the corrected cell is "#" and decimal digits, and an id of up to eight digits is shown whole |
| PaymentHistory.CorrectedIdsDistinct | app/dashboard/payment-history/payment-history-table.tsx:67 | with the corrected cell, different ids of up to eight digits are displayed differently |
| PaymentHistory.EmptyRowSpansHeader | app/dashboard/payment-history/payment-history-table.tsx:48-63 | the empty-state row spans the 5 header columns |

## Left out

- Hashing and randomness are parameters. The model does not include bcrypt's cost factor or the randomness of `randomBytes`.
- Mail is a may-fail flag. The reset link and the mail contents are not modelled.
- Sessions are their decoded claims. next-auth's signature and expiry checks are not part of this model.
- `CREATE TABLE IF NOT EXISTS` in the forgot-password route and `createPropertiesSchema` are DDL with no rule of their own.
- A database error outside the modelled flags becomes the route's 500 in the source; the model does not represent it.
- Dates are plain values:
  - Expiry and `NOW()` are integer seconds. `setHours(+1)` is read as 3600 seconds, ignoring daylight-saving jumps.
  - `Date(...).toISOString()` is an injected function.
- Amounts are integer cents. `parseFloat`, `toFixed` and the text-to-number parse of the form are not modelled.
- Strings are ASCII-like: `toLowerCase` is modelled on ASCII letters only, and there is no UTF-16 detail.
- MySQL's case-insensitive collation is not modelled. Email, parcel-id and token comparisons are exact.
- JavaScript `undefined` and SQL `NULL` are the same `None`. Every statement goes through `pool.execute` (lib/db.ts:24), and the mysql2 driver refuses an `undefined` bind parameter. That driver behaviour is not part of this model, so the two members below differ from the source.
- PaymentsRoute.CreatePayment: a request body without `parcel_id` or without `balance` stores NULL and answers 201 in the model. The source passes `undefined` to `execute` (app/api/payments/route.ts:47), lands in its `catch` and answers 500.
- UsersRoute.CreateUser: a request body without `address`, `city`, `state` or `zip` stores NULL and answers 201 in the model. The source passes `undefined` to `execute` (app/api/users/route.ts:60-66), lands in its `catch` and answers 500.
- Auth.IdMatches: the claim id is compared as canonical decimal text. MySQL compares the numeric key with the text as a number, so `"07"` or `"7.0"` would match row 7 in the source. The sign-in callback stores `id.toString()` in the session, which is canonical, so only a forged or hand-edited claim reaches that difference.
- SchemaUpdate.Migrate: the column snapshot and the `ALTER`s are taken to concern the same `payments` table. The source reads the columns of schema `process.env.MYSQL_DATABASE` (app/api/db-schema-update.ts:11-13), while the pool is fixed to database `pine` (lib/db.ts:11). If the variable names another schema, the snapshot describes a different table, and `AllColumnsPresent` does not hold in the source.
- Row order of `SELECT` results is taken as table order.
- Concurrency is out of scope: two reset requests for the same user, and two inserts of the same parcel id, are not interleaved.
- PropertyTableModel.PropertyTable.HandleDelete: filters the current list. The source filters the `properties` captured when the component rendered (app/dashboard/properties/property-table.tsx:55), so two deletes that overlap in time leave one of the two rows in the list. The model runs deletes one after another.
- The bytes of uploaded files are not modelled:
  - the file system (`mkdir`, `writeFile`, `stat`, `readFile`);
  - the base64 encoding;
  - the SSH command line and the remote host.
  What is modelled is the names, paths, URLs and headers derived from a file, plus success or failure flags.
- `path.join` in the local upload route is `dir + "/" + name`; `StoredInsideUploadDir` shows the name is one plain segment, which is what makes that reading exact.
- React rendering, toasts, `confirm`, `router.push`/`refresh` and the `fetch` calls are not modelled. The client components keep only their helper logic and state updates.
- The customer list fetched by the payment form is not modelled.
- SchemaUpdate.PaymentsTable.AddMissingColumns: the five `if (!columns.includes(...)) ALTER` statements are one recursive pass over the list of five names, in source order. This is the same sequence of steps, not five separate statements.
- Middleware.Handle: the 404 path covers both a failing `stat` and a failing `readFile` with one flag, since the source handles both in the same `catch`.
- DocumentTable.DisplayName: does not state that the shown name contains no `/`. The fallback literal makes that obligation costly, and `LastSegment` already carries it.

## Findings

| source | as written | input that shows it | evidently intended | confidence | as-written member | corrected member |
|---|---|---|---|---|---|---|
| app/api/properties/route.ts:41-49 | with `userId`, the query is replaced by the join query with one placeholder, but the parcel-id and status values already pushed stay in `params` ahead of `userId` | `GET /api/properties?parcelId=P1&userId=7`: the SQL has one `?` and the params are `["P1", "7"]`, which `pool.execute` (lib/db.ts:24) rejects, and the placeholder would get the parcel id instead of the user id | filter by the assigned user and also by the given parcel id and status, with placeholders and params matching | not executed | PropertiesRoute.UserFilterMismatch | PropertiesRoute.CorrectedPlaceholdersMatch |
| app/dashboard/payment-history/payment-history-table.tsx:67 | `payment.id.substring(0, 8)` is called on the id the page passes through unchanged from `SELECT p.id ...` (app/dashboard/payment-history/page.tsx:10-23); `payments.id` is `INT AUTO_INCREMENT` (scripts/init-db.ts:24), which mysql2 returns as a number, although the component declares it a string | a customer with one payment whose id is 7: `(7).substring` is not a function, so the history page throws instead of rendering | show "#" and the id's decimal text, shortened to eight characters | not executed | PaymentHistory.StoredIdsThrow | PaymentHistory.CorrectedIdsDistinct |
