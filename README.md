# GHS overtime requests — a Dafny model

GHS manages overtime requests ("demandes d'heures supplémentaires") in a hospital setting.
A FastAPI backend keeps services, employees, accounts, requests, delegations and validation
workflows in MySQL and guards its endpoints with JWT bearer tokens and profiles
(Validator, Supervisor, Administrator, Coordinator). A React client logs in, keeps the
session in `localStorage`, and shows list pages, forms, a dashboard, reports and the
manager and HR workflow screens.

This project models both halves in Dafny.

**Backend.**
- The validators, the SQLModel tables and their create and update schemas, the connection URL of `Database`, and the JWT helpers and profile dependency of `auth.py`.
- The two middlewares.
- Every create, update and delete handler of `main.py`, as methods over a `Store.Session` class. The class holds one map per table and enforces the unique constraints at commit.

**Client.**
- `auth.js` and `api.js`, over a `Storage.LocalStorage` class.
- `AuthContext` as a class, plus the route guard, the sidebar and the breadcrumb.
- The `DataTable` filter, sort and pagination, `StatusBadge`, and the `useNotification` hook as a class.
- The pages: validation, requests, accounts, services, employees, dashboard and reports.
- The workflow screens of `components/index.jsx`. The reject dialog is a class.

Outside inputs are parameters of the model: today's date, the clock, Python's Unicode `isalnum` on one character, bcrypt, JWT encoding and decoding, `JSON.parse` and `JSON.stringify`, `parseFloat`, date parsing, and the answers to `window.confirm` and `prompt`.

Modules follow the source files. Shared helpers live in `Wrappers` (`Option`, `Result`, `Outcome`, and the `Fields` module for partial updates), `Seqs`, `Text`, `Sorting`, `Times` and `Errors`.

Python `time` values are `Times.Time` records. They compare in the order Python uses.

A partial update (`model_dump(exclude_unset=True)` followed by a `setattr` loop) works like this:
- each update-schema field is `Unset` or `Set(v)`;
- the set fields become a sequence of changes in declaration order;
- the method `Handlers.SetAttributes` applies them with a loop.

Setting a NOT NULL column to null makes the commit fail, as a database error.

`create_request` stores the `createdBy` of the body. It computes `current_user.employeeID` into `request_data`, but that dictionary is never used.

## Model

| member | source | states |
|---|---|---|
| Validators.ValidateTimeRange | backend/validators.py:8-14 | fails, with the 400 message, exactly when the end is not after the start |
| Validators.ValidateDateRange | backend/validators.py:17-23 | passes exactly when the start date is not after the end date; otherwise 400 with its message |
| Validators.ValidateRequestDate | backend/validators.py:26-32 | passes exactly when the request date is today or later |
| Validators.ValidateWorkingHours | backend/validators.py:35-49 | passes exactly when the end is after the start and the hour/minute duration is at most 720 minutes; the range error comes before the duration error |
| Validators.TwelveHoursAccepted | backend/validators.py:41-45 | 08:00 to 20:00 is accepted (exactly twelve hours) |
| Validators.TwelveHoursAndOneMinuteRejected | backend/validators.py:41-49 | 08:00 to 20:01 fails with the duration message |
| Validators.SecondsIgnored | backend/validators.py:41-43 | seconds do not count in the duration: 08:00 to 20:00:59 passes |
| Validators.AcceptedDurationBound | backend/validators.py:35-49 | an accepted pair spans less than 721 minutes of real time |
| Validators.ValidateEmployeeNumber | backend/validators.py:52-58 | passes exactly when the number has at least 3 characters |
| Validators.ValidateServiceCode | backend/validators.py:61-73 | passes exactly when the code has at least 2 characters, each a letter or digit by Python's one-character `isalnum` (a parameter: Unicode letters and digits count); the length message comes first |
| Validators.AsciiCodeChecked | backend/validators.py:69-73 | on an ASCII code, exactly ASCII letters and digits pass, so `-`, `_` and spaces are refused |
| Validators.AccentedCodeAccepted | backend/validators.py:69-73 | "RÉA" passes, since Python counts `É` as a letter |
| Validators.ShortCodeReportsLength | backend/validators.py:63-67 | a one-character code that is also not alphanumeric reports the length error |
| Times.BeforeIsMicrosOrder | backend/validators.py:10 | Python's ordering of times is the ordering of their microsecond counts |
| Times.SecondsOrder | backend/validators.py:41-43 | a time earlier to the second has no more seconds since midnight |
| Times.LiftOrder | backend/validators.py:10 | comparing (high, low) pairs with a bounded low part is lexicographic |
| RequestModel.ParseStatus | backend/models/request.py:7-15 | a parsed value prints back as the same string |
| RequestModel.StatusRoundTrip | backend/models/request.py:7-15 | parse inverts print, the seven values are distinct, and exactly those seven strings parse |
| RequestModel.ClientLabelsAreNotStatuses | backend/models/request.py:7-15 | the client's "Approved", "Rejected" and "Pending" are not backend statuses |
| RequestModel.NewRequest | backend/models/request.py:18-57 | a new row copies the create body, starts `pending`, and has no validation stamps |
| RequestModel.MergeKeepsIdentity | backend/models/request.py:60-70 | an update never changes the id, the employee, the creator or the timestamps; the status changes only when sent |
| RequestModel.MergeBySteps | backend/main.py:461-463 | the nine optional fields applied in order give the merged row |
| RequestModel.ChangesMerge | backend/main.py:461-463 | applying the set fields in a loop is exactly the merge |
| RequestModel.ChangesNullsRequired | backend/main.py:461-467 | a change nulls a NOT NULL column exactly when the update clears a required field |
| AccountModel.ParseProfile | backend/models/account.py:7-13 | a parsed profile prints back as the same string |
| AccountModel.ProfileRoundTrip | backend/models/account.py:7-13 | parse inverts print, the four profiles are distinct, and exactly those four strings parse |
| AccountModel.DefaultAccountCreate | backend/models/account.py:37-44 | an omitted profile is Validator and the account is active |
| AccountModel.NewAccount | backend/models/account.py:16-31 | the row stores the hashed password, starts with no login or reset token, and fits its column sizes when the inputs do |
| AccountModel.ReadHidesSecrets | backend/models/account.py:58-68 | two accounts read alike exactly when they differ at most in password and reset fields |
| EmployeeModel.ParseContract | backend/models/employee.py:7-14 | a parsed contract type prints back as the same string |
| EmployeeModel.ContractRoundTrip | backend/models/employee.py:7-14 | parse inverts print, the six values are distinct, and exactly those six strings parse |
| EmployeeModel.DefaultEmployeeCreate | backend/models/employee.py:51-59 | an omitted contract type is CDI, with no contact and no birthdate |
| EmployeeModel.NewEmployee | backend/models/employee.py:17-31 | the row copies the create body and fits its column sizes when the body does |
| EmployeeModel.MergeKeepsShape | backend/models/employee.py:62-70 | an update keeps the id and the timestamps, and keeps the row within its column sizes |
| Fields.ApplyAllStep | backend/main.py:195-197 | the `setattr` loop over a list of items and then at most one more equals one step after the list; used for the services, employees and requests updates |
| EmployeeModel.MergeBySteps | backend/main.py:288-290 | the seven optional fields applied in order give the merged row |
| EmployeeModel.ChangesMerge | backend/main.py:288-290 | applying the set fields in a loop is exactly the merge |
| EmployeeModel.ChangesNullsRequired | backend/main.py:288-294 | a change nulls a NOT NULL column exactly when the update clears a required field |
| ServiceModel.NewService | backend/models/service.py:6-35 | the row copies the create body and fits its column sizes when the body does |
| ServiceModel.MergeKeepsShape | backend/models/service.py:38-44 | an update keeps the id and timestamps and the column sizes, and may make a service its own parent |
| ServiceModel.MergeBySteps | backend/main.py:195-197 | the five optional fields applied in order give the merged row |
| ServiceModel.ChangesMerge | backend/main.py:195-197 | applying the set fields in a loop is exactly the merge |
| ServiceModel.ChangesNullsRequired | backend/main.py:195-201 | a change nulls a NOT NULL column exactly when the update clears a required field |
| Records.NewDelegation | backend/main.py:511 | the delegation row copies its create body under the new id |
| Records.NewWorkflow | backend/main.py:555 | the workflow row copies its create body under the new id and has no validation date |
| Store.AccountNamed | backend/auth.py:68-70 | finds an account exactly when some account has that username; the one found is stored under its own id |
| Store.Session.constructor | backend/main.py:93-98 | a fresh session has empty tables and satisfies its invariant |
| Store.Session.InsertService | backend/main.py:176-179 | the commit succeeds exactly when the service codes stay unique; on success the row is stored under a fresh id, otherwise nothing changes |
| Store.Session.ReplaceService | backend/main.py:199-201 | the commit succeeds exactly when codes stay unique; only that row changes |
| Store.Session.DeleteService | backend/main.py:216-217 | exactly that service is removed |
| Store.Session.InsertEmployee | backend/main.py:269-272 | the commit succeeds exactly when the employee numbers stay unique; the row gets a fresh id |
| Store.Session.ReplaceEmployee | backend/main.py:292-294 | the commit succeeds exactly when the numbers stay unique; only that row changes |
| Store.Session.DeleteEmployee | backend/main.py:309-310 | exactly that employee is removed |
| Store.Session.InsertAccount | backend/main.py:370-373 | the commit succeeds exactly when usernames and employees stay unique among accounts |
| Store.Session.ReplaceAccount | backend/auth.py:82-84 | the commit succeeds exactly when the account constraints hold; only that row changes |
| Store.Session.InsertRequest | backend/main.py:423-426 | the request is stored under a fresh id; nothing else changes |
| Store.Session.ReplaceRequest | backend/main.py:465-467 | only that request changes |
| Store.Session.InsertDelegation | backend/main.py:511-514 | the delegation is stored under a fresh id |
| Store.Session.InsertWorkflow | backend/main.py:555-558 | the workflow is stored under a fresh id |
| Store.FreshCodeKeepsServicesOk | backend/main.py:167-179 | once the code is checked free, inserting under a fresh id keeps the services table valid |
| Store.FreshNumberKeepsEmployeesOk | backend/main.py:252-272 | once the number is checked free, inserting under a fresh id keeps the employees table valid |
| Auth.CheckCredentials | backend/auth.py:66-79 | unknown user, wrong password, inactive account and success are told apart exactly |
| Auth.AuthenticateUser | backend/auth.py:66-86 | succeeds exactly for an active account with that username and a matching password; stamps its last login and changes nothing else; on failure nothing changes |
| Auth.Expiry | backend/auth.py:56-59 | a non-zero delta is added to now; a missing or zero delta gives 30 minutes |
| Auth.TokenClaims | backend/auth.py:55-61 | the claims are the data plus an `exp` entry set to the expiry |
| Auth.CreateAccessToken | backend/auth.py:53-63 | encodes the claims of TokenClaims; ZeroDeltaTakesDefault and LoginTokenIdentifiesUser state what the token carries |
| Auth.ZeroDeltaTakesDefault | backend/auth.py:56-59 | a zero delta, being falsy, issues the same token as no delta |
| Auth.GetCurrentUser | backend/auth.py:89-113 | succeeds exactly when the token decodes with a string `sub` naming an account; otherwise 401 with the credentials message |
| Auth.GetCurrentActiveUser | backend/auth.py:116-123 | passes active users through; an inactive one gets 400 "Utilisateur inactif" |
| Auth.RequireProfile | backend/auth.py:154-160 | passes exactly the users whose profile is listed; others get 403 naming the profiles |
| Auth.AdministratorOnly | backend/auth.py:154-160 | the administrator-only dependency admits exactly administrators |
| Auth.Login | backend/main.py:102-128 | succeeds exactly when authentication does; returns a bearer token for the username with a 30-minute expiry, `expires_in` of 1800, and the user's username, profile and employee id, and the store then differs only in that account's `lastLogin`, set to now; otherwise 401 with nothing changed |
| Auth.LoginTokenIdentifiesUser | backend/main.py:113-116 | when decoding inverts encoding, the login token leads `get_current_user` back to the same account |
| Handlers.SetAttributes | backend/main.py:195-197 | the loop applies every set field in order, and reports whether one nulls a required column |
| Handlers.CreateService | backend/main.py:156-180 | checks the profile, then the body sizes (422), the code format (with Python's `isalnum` as a parameter), then code uniqueness (400); on success a new service is stored and nothing else changes |
| Handlers.UpdateService | backend/main.py:183-202 | 404 for an unknown id; otherwise the merged row, or a database error when a required field is nulled or a code clashes; failures change nothing |
| Handlers.DeleteService | backend/main.py:205-218 | administrator only; 404 for an unknown id; otherwise exactly that service is removed |
| Handlers.CreateEmployee | backend/main.py:241-273 | checks the profile, then sizes, number format, number uniqueness and that the service exists, in that order; on success a new employee is stored |
| Handlers.UpdateEmployee | backend/main.py:276-295 | 404 for an unknown id; otherwise the merged row or a database error; failures change nothing |
| Handlers.DeleteEmployee | backend/main.py:298-311 | administrator only; 404 for an unknown id; otherwise exactly that employee is removed |
| Handlers.CreateAccount | backend/main.py:341-374 | administrator only; checks sizes, that the employee exists, then username uniqueness; the commit fails when the employee already has an account; the stored row has the hashed password and the reply hides it |
| Handlers.CreateRequest | backend/main.py:397-427 | succeeds exactly for a caller with a date not in the past, valid working hours, a valid previous range when both ends are given, and an existing employee; the stored request is `pending` and keeps the body's creator |
| Handlers.HoursToCheck | backend/main.py:453-458 | a pair is checked exactly when the update sets a non-null start or a non-null end; a side sent as null is not validated |
| Handlers.HoursCheckCoversStoredPair | backend/main.py:453-458 | the checked pair takes each side from the update when it is set, otherwise from the stored row |
| Handlers.UpdateRequest | backend/main.py:430-470 | 404, then 403 unless the caller owns the request or is an administrator or supervisor, then the past-date 400, then the working-hours 400, then the database error for a cleared required field; on success the stored row is the merge; failures change nothing |
| Handlers.ApplyRequestUpdate | backend/main.py:451-467 | succeeds exactly when the new date is not past, the checked hours pass and no required field is cleared; on failure the error is that of the first failing check, in that order, and nothing changes; on success the stored row becomes the merge |
| Handlers.CreateDelegation | backend/main.py:485-515 | succeeds exactly with a valid date range, two existing employees and no self-delegation, checked in that order |
| Handlers.CreateWorkflow | backend/main.py:532-559 | succeeds exactly when the request and the validator exist, checked in that order |
| Middleware.ErrorBody | backend/middleware.py:26-49 | the reply has the status and exactly the `error` and `detail` keys |
| Middleware.Dispatch | backend/middleware.py:17-50 | passes responses through, re-raises HTTP errors, and maps database, value and other errors to 500, 400 and 500 bodies |
| Middleware.DispatchClassifies | backend/middleware.py:17-50 | only HTTP errors propagate; database and unexpected errors answer 500 and value errors 400 |
| Middleware.DatabaseDetailHidden | backend/middleware.py:24-41 | database messages never reach the reply; a value error's message does |
| Middleware.LoggingDispatch | backend/middleware.py:56-71 | logging returns the downstream response unchanged and lets errors through |
| Middleware.LoggingIsTransparent | backend/middleware.py:56-71 | with logging in front, the outcome is the downstream's own |
| Database.HexDigit | backend/database.py:30 | a hex digit is a decimal digit or an upper-case A-F |
| Database.HexRoundTrip | backend/database.py:30 | the value of a printed hex digit is the digit |
| Database.Utf8 | backend/database.py:30 | one to four bytes below 256; a single byte exactly for ASCII |
| Database.PercentBytes | backend/database.py:30 | three safe characters per byte |
| Database.QuoteChar | backend/database.py:30 | every character of an escape is URL-safe |
| Database.QuotePlus | backend/database.py:30 | the encoding is URL-safe and never shorter than the input |
| Database.QuotePlusRoundTrip | backend/database.py:30 | decoding the encoding of an ASCII password gives the password back |
| Database.QuoteCharRoundTrip | backend/database.py:30 | one encoded ASCII character decodes back, whatever follows |
| Database.EscapeRoundTrip | backend/database.py:30 | a percent escape decodes back to its character |
| Database.SafePasswordUnchanged | backend/database.py:30 | a password of letters, digits and `_.-~` is left as it is |
| Database.EncodedPassword | backend/database.py:30 | an empty password stays empty; any other is the quote_plus encoding |
| Database.DatabaseUrl | backend/database.py:31-33 | the URL starts with the `mysql+mysqlconnector://` scheme |
| Database.EmptyPasswordUrl | backend/database.py:30-33 | with no password the URL is `user:@host:port/name` after the scheme |
| Database.UrlSplitsAtCredentials | backend/database.py:31-33 | after the scheme, the URL splits at its single `@` into the credentials and the server part, whatever the password |
| Database.UrlAfterScheme | backend/database.py:31-33 | after the scheme come the credentials, `@`, and the server part |
| Database.NoAtInParts | backend/database.py:31-33 | with a user and host free of `@`, neither part holds one |
| Database.NoAtInEncoded | backend/database.py:30 | an encoded password never holds `@` |
| Database.NoAtInNumber | backend/database.py:32 | a printed port never holds `@` |
| Database.Database.constructor | backend/database.py:12-33 | keeps the five settings and builds the URL from them |
| Storage.LocalStorage.constructor | frontend/src/services/auth.js:19-20 | storage starts with the given entries |
| Storage.LocalStorage.GetItem | frontend/src/services/auth.js:44 | the stored value, or nothing exactly when the key is absent |
| Storage.LocalStorage.SetItem | frontend/src/services/auth.js:19-20 | only that key changes, to that value |
| Storage.LocalStorage.RemoveItem | frontend/src/services/auth.js:27-28 | only that key disappears |
| AuthService.LoggedIn | frontend/src/services/auth.js:16-20 | login adds exactly the token and user keys, with the token and the stringified user, and keeps all other keys |
| AuthService.LoggedOut | frontend/src/services/auth.js:26-29 | logout removes exactly the token and user keys |
| AuthService.Login | frontend/src/services/auth.js:5-23 | the storage becomes the logged-in storage and the response is returned |
| AuthService.Logout | frontend/src/services/auth.js:26-29 | the storage becomes the logged-out storage |
| AuthService.IsAuthenticated | frontend/src/services/auth.js:38-40 | true exactly when a non-empty token is stored |
| AuthService.GetUser | frontend/src/services/auth.js:43-46 | no user exactly when the entry is missing or empty; otherwise the parsed user, or a parse failure |
| AuthService.HasPermission | frontend/src/services/auth.js:49-58 | false without a user; membership for an array; equality for a single profile; a parse failure propagates |
| AuthService.LoginThenRead | frontend/src/services/auth.js:5-58 | after login the stored user reads back, authentication holds exactly for a non-empty token, and the user has its own profile |
| AuthService.LogoutClearsSession | frontend/src/services/auth.js:26-58 | after logout there is no session, no user and no permission |
| AuthService.LogoutUndoesLogin | frontend/src/services/auth.js:5-29 | logout after login restores the storage minus the two keys |
| AuthService.SingleProfileAsArray | frontend/src/services/auth.js:49-58 | a one-profile array and that profile alone decide alike |
| Api.RequestHeaders | frontend/src/services/api.js:10-21 | as written, a Bearer header is added exactly when a non-empty `access_token` is stored |
| Api.LoginTokenNotSent | frontend/src/services/api.js:12 | as written, a login through auth.js never makes the interceptor send a token |
| Api.CorrectedRequestHeaders | frontend/src/services/api.js:10-21 | reading the key the login writes, a Bearer header is added exactly when a session exists |
| Api.CorrectedLoginTokenSent | frontend/src/services/auth.js:19 | corrected, every request after a login carries the login's token |
| Api.HandleResponseError | frontend/src/services/api.js:24-33 | a 401 removes `access_token` and redirects to /login; anything else changes nothing |
| Api.Logout | frontend/src/services/api.js:50-52 | only `access_token` is removed |
| Api.LogoutKeepsAuthSession | frontend/src/services/api.js:50-52 | this logout leaves the auth.js session and user in place |
| Api.ListUrl | frontend/src/services/api.js:57-59 | the list URL with the defaults 0 and 100; ListUrlReadsBack reads the resource and both arguments back |
| Api.ListUrlReadsBack | frontend/src/services/api.js:57-59 | the list URL splits at `?` into the resource path and a query that reads back as skip and limit, defaults 0 and 100 |
| Api.QueryHasNoMark | frontend/src/services/api.js:58 | the query holds no `?` |
| Api.QueryReadsBack | frontend/src/services/api.js:58 | the query splits at `&` into the two settings, and each parses back |
| Api.NoSeparatorInNumber | frontend/src/services/api.js:58 | a printed number holds no separator character |
| AuthContext.AuthProvider.constructor | frontend/src/contexts/AuthContext.jsx:16-17 | starts with no user and loading |
| AuthContext.AuthProvider.IsAuthenticated | frontend/src/contexts/AuthContext.jsx:69 | true exactly when the context holds a user |
| AuthContext.AuthProvider.HasPermission | frontend/src/contexts/AuthContext.jsx:59-61 | defers to the stored session's permission |
| AuthContext.AuthProvider.InitAuth | frontend/src/contexts/AuthContext.jsx:19-36 | loading ends; without a token nothing changes; a stored user is restored; unparsable JSON logs out |
| AuthContext.AuthProvider.Login | frontend/src/contexts/AuthContext.jsx:38-51 | loading ends; on success the context user is the response's and the storage is logged in; on failure nothing changes |
| AuthContext.AuthProvider.Logout | frontend/src/contexts/AuthContext.jsx:53-57 | the user is cleared and the storage logged out |
| AuthContext.InitialUser | frontend/src/contexts/AuthContext.jsx:21-33 | without a token the previous user is kept; the storage is cleared exactly on unparsable user JSON |
| AuthContext.ReloadRestoresUser | frontend/src/contexts/AuthContext.jsx:19-36 | reloading after a login restores the same user |
| AuthContext.ReloadAfterLogout | frontend/src/contexts/AuthContext.jsx:19-36 | reloading after a logout keeps the previous user and clears nothing |
| AuthContext.TokenWithoutUser | frontend/src/contexts/AuthContext.jsx:21-33 | a token with an empty user entry leaves the context userless while the storage counts as authenticated |
| Routes.ProtectedRoute | frontend/src/App.jsx:28-55 | spinner while loading, redirect when signed out, access denied exactly when a required permission fails, else the page |
| Routes.RouteRequirement | frontend/src/App.jsx:73-114 | the dashboard and requests need nothing; accounts need Administrator; the others need their listed profiles |
| Routes.PageScreen | frontend/src/App.jsx:65-114 | a page renders exactly when signed in, loaded and permitted by its route |
| Routes.PagesByProfile | frontend/src/App.jsx:73-114 | which pages each profile can open |
| Sidebar.VisibleItems | frontend/src/components/layout/Sidebar.jsx:70-72 | keeps, in menu order, exactly the items without a permission or whose permission is granted |
| Sidebar.MenuMatchesRoutes | frontend/src/components/layout/Sidebar.jsx:20-68 | every menu entry links to a route whose requirement equals the entry's permission |
| Sidebar.ValidatorMenu | frontend/src/components/layout/Sidebar.jsx:20-72 | a Validator sees exactly the first two entries |
| Sidebar.OpenPrefix | frontend/src/components/layout/Sidebar.jsx:70-72 | when the first k entries are visible and the rest hidden, the menu is the first k |
| Sidebar.ValidatorHidden | frontend/src/components/layout/Sidebar.jsx:33-67 | every permission-guarded entry is hidden from a Validator |
| Sidebar.HiddenTail | frontend/src/components/layout/Sidebar.jsx:70-72 | a list of hidden entries shows nothing |
| Breadcrumb.Pathnames | frontend/src/components/layout/Breadcrumb.jsx:8 | the segments are non-empty and contain no slash |
| Breadcrumb.Label | frontend/src/components/layout/Breadcrumb.jsx:10-18 | a known segment shows its French name; any other shows itself |
| Breadcrumb.Crumbs | frontend/src/components/layout/Breadcrumb.jsx:32-34 | one crumb per segment |
| Breadcrumb.OneLastCrumb | frontend/src/components/layout/Breadcrumb.jsx:33 | exactly the final crumb is marked last |
| Breadcrumb.CrumbLinksToPrefix | frontend/src/components/layout/Breadcrumb.jsx:34 | crumb i links to a path whose segments are the first i+1 of the current path |
| Breadcrumb.SegmentsReadBack | frontend/src/components/layout/Breadcrumb.jsx:8 | splitting a slash-joined path of proper segments gives them back |
| Breadcrumb.SplitJoinedAfterSlash | frontend/src/components/layout/Breadcrumb.jsx:8 | a leading slash adds one empty segment in front |
| Breadcrumb.SlashesIgnored | frontend/src/components/layout/Breadcrumb.jsx:8 | leading, trailing and doubled slashes give the same single segment |
| DataTable.FilteredData | frontend/src/components/ui/DataTable.jsx:24-31 | without search the data is unchanged; with a term, a row stays, in order, exactly when some column's `String(value)` (text, whole number, boolean, `null` or `undefined`) contains it, case-insensitively |
| DataTable.SearchIgnoresCase | frontend/src/components/ui/DataTable.jsx:28 | lower-casing the term does not change a match |
| DataTable.NoAccessorNoMatch | frontend/src/components/ui/DataTable.jsx:27 | a column without an accessor matches only the empty term |
| DataTable.MissingFieldReadsUndefined | frontend/src/components/ui/DataTable.jsx:27-28 | a missing field reads as "undefined" and is searchable as such |
| DataTable.NullAndTrueReadAsText | frontend/src/components/ui/DataTable.jsx:27-28 | `String(null)` is "null" and `String(true)` is "true": the term "nul" finds a row whose field is null |
| DataTable.SortedData | frontend/src/components/ui/DataTable.jsx:34-47 | sorting permutes the rows; without sorting they are unchanged |
| DataTable.StringOrder | frontend/src/components/ui/DataTable.jsx:39-45 | string `<` is irreflexive, asymmetric, total on distinct strings and transitive |
| DataTable.StringLessIrreflexive | frontend/src/components/ui/DataTable.jsx:39 | no string is below itself |
| DataTable.StringLessAsymmetric | frontend/src/components/ui/DataTable.jsx:39-42 | two strings are never each below the other |
| DataTable.StringLessTotal | frontend/src/components/ui/DataTable.jsx:39-45 | of two distinct strings one is below the other |
| DataTable.StringLessTransitive | frontend/src/components/ui/DataTable.jsx:39 | string order is transitive |
| DataTable.CellOrder | frontend/src/components/ui/DataTable.jsx:39-45 | on cells of one kind the comparator is a strict weak order whose ties are equal cells |
| DataTable.ComparatorConsistent | frontend/src/components/ui/DataTable.jsx:35-46 | on a column of one kind the comparator, either direction, is a strict weak order |
| DataTable.SortOrdersRows | frontend/src/components/ui/DataTable.jsx:34-47 | on such a column the result is sorted by the comparator and is a permutation |
| DataTable.SortKeepsTiedRows | frontend/src/components/ui/DataTable.jsx:35-46 | on a column of one kind, rows that compare equal come out in their input order (the sort is stable) |
| DataTable.Comparator | frontend/src/components/ui/DataTable.jsx:35-46 | the comparator of the chosen column and direction; ComparatorConsistent shows it is a strict weak order on a column of one kind |
| DataTable.HandleSort | frontend/src/components/ui/DataTable.jsx:56-64 | sets the key; descending exactly when the same key was ascending; nothing when not sortable |
| DataTable.HeaderClick | frontend/src/components/ui/DataTable.jsx:111 | a header marked not sortable, or a table with sorting off, leaves the sort unchanged; otherwise the click sorts on the column's accessor, descending exactly on a second click of an ascending column |
| DataTable.SortClicksAlternate | frontend/src/components/ui/DataTable.jsx:56-64 | clicking one header twice alternates the direction |
| DataTable.TotalPages | frontend/src/components/ui/DataTable.jsx:50 | the least page count covering the rows |
| DataTable.Paginate | frontend/src/components/ui/DataTable.jsx:51-54 | a slice of the rows, everything when pagination is off |
| DataTable.RowOnItsPage | frontend/src/components/ui/DataTable.jsx:50-54 | row i is on page i / pageSize + 1, which exists, at position i mod pageSize |
| DataTable.PageOfIndex | frontend/src/components/ui/DataTable.jsx:51 | the start of that page is at or before i, by less than one page |
| DataTable.PageExists | frontend/src/components/ui/DataTable.jsx:50 | the page of any row is within the page count |
| DataTable.PageContents | frontend/src/components/ui/DataTable.jsx:51-54 | an existing page is the rows from its start, at most one page; a later page is empty |
| DataTable.ButtonsKeepPageInRange | frontend/src/components/ui/DataTable.jsx:155-167 | an enabled previous or next button moves to an existing page |
| DataTable.StalePageAfterSearch | frontend/src/components/ui/DataTable.jsx:21-54 | a search that shrinks the data to one row, while on page 2, shows an empty page and, having one page, no pagination bar (line 146), so no button leads back to page 1 |
| DataTable.DisplayedRows | frontend/src/components/ui/DataTable.jsx:24-54 | the rows shown are a sub-multiset of the data |
| DataTable.InitialDisplay | frontend/src/components/ui/DataTable.jsx:8-21 | with the default settings the first ten rows are shown |
| DataTable.FilterSubMultiset | frontend/src/components/ui/DataTable.jsx:24-31 | filtering only removes rows |
| DataTable.SliceSubMultiset | frontend/src/components/ui/DataTable.jsx:51-54 | paginating only removes rows |
| StatusBadge.GetStatusConfig | frontend/src/components/StatusBadge.jsx:4-37 | the lower-cased status picks the pending, approved, rejected or cancelled badge; otherwise the status itself, or "Inconnu", in grey |
| StatusBadge.CaseInsensitive | frontend/src/components/StatusBadge.jsx:5 | a status and its lower-case form get the same badge |
| StatusBadge.BackendStatusesLabelled | frontend/src/components/StatusBadge.jsx:6-30 | the backend's pending, accepted, rejected and cancelled get their French labels |
| StatusBadge.OtherVocabularies | frontend/src/components/StatusBadge.jsx:13-35 | "Approved" reads approved; "Rejetée" falls through in grey; an empty status reads "Inconnu" |
| Notification.Hidden | frontend/src/hooks/useNotification.js:20-25 | hiding clears only the visibility |
| Notification.HideIdempotent | frontend/src/hooks/useNotification.js:20-25 | hiding twice is hiding once |
| Notification.ShowThenHide | frontend/src/hooks/useNotification.js:11-25 | showing then hiding keeps the kind, title and message, invisible |
| Notification.NotificationHook.constructor | frontend/src/hooks/useNotification.js:4-9 | starts hidden, kind info, empty texts |
| Notification.NotificationHook.ShowNotification | frontend/src/hooks/useNotification.js:11-18 | the notice becomes visible with the given kind and texts |
| Notification.NotificationHook.HideNotification | frontend/src/hooks/useNotification.js:20-25 | the notice becomes the hidden form of the previous one |
| Notification.NotificationHook.ShowSuccess | frontend/src/hooks/useNotification.js:27-29 | shows a success notice |
| Notification.NotificationHook.ShowError | frontend/src/hooks/useNotification.js:31-33 | shows an error notice |
| Notification.NotificationHook.ShowWarning | frontend/src/hooks/useNotification.js:35-37 | shows a warning notice |
| Notification.NotificationHook.ShowInfo | frontend/src/hooks/useNotification.js:39-41 | shows an info notice |
| PageCommon.ConfirmDelete | frontend/src/pages/Requests.jsx:68-72 | a deletion of that id exactly when confirmed, otherwise no call |
| PageCommon.StatusText | frontend/src/pages/Requests.jsx:85-94 | "Approved" and "Rejected" get their French words; everything else reads "En attente" |
| PageCommon.BackendStatusesReadPending | frontend/src/pages/Validation.jsx:69-78 | every status the backend stores reads "En attente" on these pages |
| PageCommon.BackendStatusesOfferNoAction | frontend/src/pages/Validation.jsx:269 | no backend status offers the row actions, which need a capitalised "Pending" |
| PageCommon.ReadIncludes | frontend/src/pages/Employees.jsx:34 | a TypeError exactly when the key holds no text; otherwise whether it contains the term, ignoring case |
| PageCommon.ReadIncludesOptional | frontend/src/pages/Services.jsx:33 | optional chaining: true exactly when the key holds text containing the term |
| PageCommon.OrElse | frontend/src/pages/Employees.jsx:34-36 | `||` over tests that may throw: the right side runs only when the left is false |
| PageCommon.FilterOrThrow | frontend/src/pages/Employees.jsx:33-37 | a throw from the test on any element propagates; otherwise exactly the kept elements |
| ValidationPage.FilteredRequests | frontend/src/pages/Validation.jsx:30-33 | "all" keeps everything; otherwise exactly the requests with that status |
| ValidationPage.SummaryCounts | frontend/src/pages/Validation.jsx:162-186 | each card counts at most all requests |
| ValidationPage.SummaryIgnoresFilter | frontend/src/pages/Validation.jsx:162-186 | each card equals the length of the list its status filter would show |
| ValidationPage.FilterSameCount | frontend/src/pages/Validation.jsx:30-33 | the filtered list's length is the count of that status |
| ValidationPage.EmployeeName | frontend/src/pages/Validation.jsx:53-56 | "Employé inconnu" when no employee has the id; otherwise the full name of the first employee with that id |
| ValidationPage.Approve | frontend/src/pages/Validation.jsx:91-97 | updates that request to "Approved" with the fixed comment |
| ValidationPage.Reject | frontend/src/pages/Validation.jsx:99-106 | updates that request to "Rejected"; the typed reason when non-empty, else the fixed comment |
| ValidationPage.DecisionsNotApiStatuses | frontend/src/pages/Validation.jsx:91-106 | neither decision sends a status the backend accepts |
| ValidationPage.RowDecision | frontend/src/pages/Validation.jsx:269 | a decision is issued only on a pending row, and it is about that row |
| RequestsPage.AcceptedHours | frontend/src/pages/Requests.jsx:271-277 | the hours accepted are exactly the 24 half-hours from 0.5 to 12 |
| RequestsPage.HoursAccepted | frontend/src/pages/Requests.jsx:271-277 | a number from 0.5 to 12 in steps of 0.5; AcceptedHours lists exactly the 24 values |
| RequestsPage.Submit | frontend/src/pages/Requests.jsx:59-66 | as written, always a creation with the form's date, reason and hours |
| RequestsPage.SubmitLosesEmployee | frontend/src/pages/Requests.jsx:63 | as written, the body never names the employee, and editing creates a new request |
| RequestsPage.CorrectedSubmit | frontend/src/pages/Requests.jsx:59-66 | corrected, the body carries the logged-in user's employee id |
| RequestsPage.CorrectedSubmitNamesEmployee | backend/main.py:122-126 | corrected, the request names the employee of the stored session |
| RequestsPage.RowDelete | frontend/src/pages/Requests.jsx:68-72 | a deletion exactly on a pending row that was confirmed |
| AccountsPage.EmployeeOf | frontend/src/pages/Accounts.jsx:38 | the first employee with that id; none exactly when no employee has it |
| AccountsPage.FilteredAccounts | frontend/src/pages/Accounts.jsx:37-42 | keeps, in order, exactly the accounts whose username or employee name contains the term, ignoring case |
| AccountsPage.SearchCovers | frontend/src/pages/Accounts.jsx:37-42 | an empty search and the account's own username both list it |
| AccountsPage.EmployeesWithoutAccount | frontend/src/pages/Accounts.jsx:106-108 | exactly the employees no account points to |
| AccountsPage.CreateDisabledIff | frontend/src/pages/Accounts.jsx:138 | the create button is disabled exactly when every employee has an account |
| AccountsPage.ProfileText | frontend/src/pages/Accounts.jsx:92-103 | three profiles get their French names; anything else reads "Validateur" |
| AccountsPage.ActiveCounts | frontend/src/pages/Accounts.jsx:174-186 | the active and inactive cards add up to all accounts |
| AccountsPage.FormErrors | frontend/src/pages/Accounts.jsx:300-338 | no error exactly when an employee is chosen, the username has 3+ characters and the password 6+; one error per field at most |
| ServicesPage.FilteredServices | frontend/src/pages/Services.jsx:31-34 | keeps, in order, exactly the services whose name or description contains the term |
| ServicesPage.NoDescriptionSearchesName | frontend/src/pages/Services.jsx:31-34 | without a description only the name is searched |
| ServicesPage.EmployeeCount | frontend/src/pages/Services.jsx:100-102 | zero exactly when no employee is attached; never more than the employees |
| ServicesPage.HandleDelete | frontend/src/pages/Services.jsx:88-98 | refused with a message exactly when employees are attached; otherwise a deletion exactly when confirmed |
| ServicesPage.AttachedServiceKept | frontend/src/pages/Services.jsx:88-93 | a service with an employee is never deleted from this page |
| ServicesPage.SearchAsWrittenThrows | frontend/src/pages/Services.jsx:31-34 | as written, the search throws on any non-empty list of `ServiceRead` objects, whatever the term |
| ServicesPage.SearchCorrectedKeepsMatches | backend/models/service.py:47-56 | corrected, the search never throws on `ServiceRead` objects and keeps exactly those whose name or description contains the term |
| EmployeesPage.FilteredEmployees | frontend/src/pages/Employees.jsx:33-37 | keeps, in order, exactly the employees whose first name, last name or e-mail contains the term |
| EmployeesPage.SearchCovers | frontend/src/pages/Employees.jsx:33-37 | an employee is found by its own e-mail and by an empty search |
| EmployeesPage.ServiceName | frontend/src/pages/Employees.jsx:97-100 | the name of the first service with the id, or "Service inconnu" when none has it |
| PageCommon.Submit | frontend/src/pages/Employees.jsx:78-84 | an update of exactly the edited record's id, otherwise a creation, with the form as the body either way; the services form (Services.jsx:75-81) makes the same call |
| EmployeesPage.HandleDelete | frontend/src/pages/Employees.jsx:91-95 | a deletion of that id exactly when confirmed |
| EmployeesPage.MatchShape | frontend/src/pages/Employees.jsx:277 | a match has one `@`, and two or more letters after its last dot |
| EmployeesPage.EmailRefusals | frontend/src/pages/Employees.jsx:277 | a one-letter ending is refused; an accepted address holds `@` |
| EmployeesPage.EmailAcceptances | frontend/src/pages/Employees.jsx:277 | the pattern accepts a usual address, and also one with two dots in a row (the browser's own `type="email"` check refuses that one) |
| EmployeesPage.EmailAccepted | frontend/src/pages/Employees.jsx:274-279 | the pattern matches with some `@` and last dot; MatchShape, EmailRefusals and EmailAcceptances state what it accepts |
| EmployeesPage.SearchAsWrittenThrows | frontend/src/pages/Employees.jsx:33-37 | as written, the search throws on any non-empty list of `EmployeeRead` objects, whatever the term |
| EmployeesPage.SearchCorrectedKeepsMatches | backend/models/employee.py:73-84 | corrected, the search never throws on `EmployeeRead` objects and keeps exactly those whose names or contact contain the term |
| Dashboard.LengthOrZero | frontend/src/pages/Dashboard.jsx:25 | the length of loaded data, zero while loading |
| Dashboard.Stats | frontend/src/pages/Dashboard.jsx:22-51 | the four cards show the four lists' lengths |
| Dashboard.Prefix | frontend/src/pages/Dashboard.jsx:53-54 | the first n items, or all when fewer, or none while loading |
| Dashboard.RecentRequests | frontend/src/pages/Dashboard.jsx:53 | my first five requests in their order, or all when fewer; none while loading |
| Dashboard.UrgentRequests | frontend/src/pages/Dashboard.jsx:54 | the first three pending requests in their order, or all when fewer; none while loading |
| Dashboard.WeekSummary | frontend/src/pages/Dashboard.jsx:205-217 | counts my accepted, pending and rejected requests by exact lower-case status; SummaryWithinTotal bounds them by the "Mes demandes" card |
| Dashboard.SummaryWithinTotal | frontend/src/pages/Dashboard.jsx:205-217 | the accepted, pending and rejected counts add up to at most the "Mes demandes" card |
| Reports.EmployeeOf | frontend/src/pages/Reports.jsx:41 | the first employee with that id; none exactly when no employee has it |
| Reports.FilteredRequests | frontend/src/pages/Reports.jsx:32-43 | keeps, in order, exactly the requests dated within the range and of the selected service |
| Reports.UnknownEmployeeExcluded | frontend/src/pages/Reports.jsx:41-42 | with a service selected, a request of an unknown employee is left out |
| Reports.ComputeStats | frontend/src/pages/Reports.jsx:46-53 | the total is the number of requests; each status count is within it |
| Reports.StatsBounded | frontend/src/pages/Reports.jsx:46-53 | the three counts add up to at most the total; approved hours are at most the total when hours are non-negative |
| Reports.ApprovedOrRejected | frontend/src/pages/Reports.jsx:49-52 | settled requests number the approved plus the rejected |
| Reports.ServiceStats | frontend/src/pages/Reports.jsx:56-70 | one entry per service, in order, with its id and name |
| Reports.EmployeeStats | frontend/src/pages/Reports.jsx:73-81 | at most ten entries, never more than the employees |
| Reports.AllEmployeeStats | frontend/src/pages/Reports.jsx:73-80 | one entry per employee, in order |
| Reports.MoreHoursConsistent | frontend/src/pages/Reports.jsx:81 | "more hours" is a strict weak order |
| Reports.TopEmployeesOrdered | frontend/src/pages/Reports.jsx:73-81 | the top list runs by decreasing hours, holds ten or every employee, and each entry is some employee's figures |
| Reports.TopOfSorted | frontend/src/pages/Reports.jsx:81 | the first ten of a sorted list are sorted |
| Reports.EqualHoursKeepListOrder | frontend/src/pages/Reports.jsx:73-81 | the top list is the head of the sorted list, and employees with equal hours stay in the order of the employee list, so among equal hours the first listed reach the top ten |
| Reports.StatIsOfEmployee | frontend/src/pages/Reports.jsx:73-81 | every ranked entry is the figures of a listed employee |
| Reports.DetailRows | frontend/src/pages/Reports.jsx:313 | the first ten filtered requests, all when fewer |
| Reports.CsvFields | frontend/src/pages/Reports.jsx:90-97 | six fields: date, name, service, hours, quoted reason, status |
| Reports.CsvLines | frontend/src/pages/Reports.jsx:87-98 | one line per request, in order |
| Reports.Csv | frontend/src/pages/Reports.jsx:85-99 | the header line and one line per request joined by newlines; CsvReadsBack and CsvLinesReadBack read it back |
| Reports.CsvReadsBack | frontend/src/pages/Reports.jsx:85-99 | when no field holds a comma or newline, splitting the export gives the header and then each request's six fields |
| Reports.CsvLinesReadBack | frontend/src/pages/Reports.jsx:85-99 | splitting the export at newlines gives the header and then each request's line |
| Reports.HeaderThenLines | frontend/src/pages/Reports.jsx:86-99 | the header and newline-free lines joined by newlines split back |
| Reports.LineHasNoNewline | frontend/src/pages/Reports.jsx:90-97 | a line whose fields are plain holds no newline |
| WorkflowViews.PendingDemandes | frontend/src/components/index.jsx:10-12 | exactly the requests in the manager's two statuses, in order |
| WorkflowViews.CeilDaysBounds | frontend/src/components/index.jsx:77 | rounding up gives the least whole number of days covering the delay |
| WorkflowViews.IsUrgent | frontend/src/components/index.jsx:77-78 | more than five days counted; UrgentAfterFiveDays states it as more than five full days elapsed |
| WorkflowViews.DaysLeft | frontend/src/components/index.jsx:96 | `7 - daysDiff`; UrgentAfterFiveDays shows an urgent request has at most one day left |
| WorkflowViews.UrgentAfterFiveDays | frontend/src/components/index.jsx:77-96 | urgent exactly when more than five full days have elapsed; an urgent request has at most one day left |
| WorkflowViews.UrgentAlertIff | frontend/src/components/index.jsx:44-47 | the banner shows exactly when some waiting request is urgent |
| WorkflowViews.UrgentAlert | frontend/src/components/index.jsx:44-47 | some waiting request is urgent; UrgentAlertIff states it over the whole list |
| WorkflowViews.RejectDialog.constructor | frontend/src/components/index.jsx:6-8 | closed, no request, empty reason |
| WorkflowViews.RejectDialog.ConfirmEnabled | frontend/src/components/index.jsx:142 | enabled exactly when the reason is not blank |
| WorkflowViews.RejectDialog.HandleReject | frontend/src/components/index.jsx:18-21 | opens on that request and keeps the reason |
| WorkflowViews.RejectDialog.SetReason | frontend/src/components/index.jsx:133 | the reason becomes the text; nothing else changes |
| WorkflowViews.RejectDialog.ClickConfirm | frontend/src/components/index.jsx:23-28 | while disabled, nothing; otherwise reports the request and reason, then closes and clears |
| WorkflowViews.RejectDialog.Cancel | frontend/src/components/index.jsx:148-152 | closes and clears without reporting |
| WorkflowViews.FinalValidationDemandes | frontend/src/components/index.jsx:170-172 | exactly the requests in the HR statuses, in their list order (a subsequence) |
| WorkflowViews.ListsDisjoint | frontend/src/components/index.jsx:10-12 | no request is on both the manager's and HR's lists |
| WorkflowViews.EmployeesConcerned | frontend/src/components/index.jsx:230 | the number of distinct employees; at most the list's length; zero exactly for an empty list |
| WorkflowViews.DistinctIds | frontend/src/components/index.jsx:230 | the mapped ids are the employees' ids; a non-empty list has one |
| WorkflowViews.PeriodDays | frontend/src/components/index.jsx:607-617 | week, month and quarter reach 7, 30 and 90 days back; "all" has no bound |
| WorkflowViews.FilteredDemandes | frontend/src/components/index.jsx:601-620 | exactly the requests of the service within the period |
| WorkflowViews.PeriodsNested | frontend/src/components/index.jsx:607-617 | what the week shows the month shows, and so on up to "all" |
| WorkflowViews.ComputeStats | frontend/src/components/index.jsx:622-631 | the total is the number of filtered requests |
| WorkflowViews.StatsMeaning | frontend/src/components/index.jsx:622-631 | "En cours" counts the requests neither validated nor rejected; the cost is 25 times the validated hours |
| WorkflowViews.EnCours | frontend/src/components/index.jsx:785 | the total less the validated and the rejected; StatsMeaning and ThreeWaySplit show it counts the requests in neither state |
| WorkflowViews.ThreeWaySplit | frontend/src/components/index.jsx:785 | validated, rejected and in-progress requests add up to all |
| WorkflowViews.SumScaled | frontend/src/components/index.jsx:628-630 | summing each cost is 25 times the summed hours |
| WorkflowViews.DemandesParService | frontend/src/components/index.jsx:633-639 | every bar has a request |
| WorkflowViews.BarIffRequests | frontend/src/components/index.jsx:633-639 | a service has a bar exactly when some filtered request is in it |
| WorkflowViews.TopEmployesAsWritten | frontend/src/components/index.jsx:834-837 | as written, at most five rows: the first five employees |
| WorkflowViews.RankingIgnoresHours | frontend/src/components/index.jsx:834 | as written, the sixth employee's hours never reach the table |
| WorkflowViews.TopEmployes | frontend/src/components/index.jsx:834-837 | corrected, at most five rows |
| WorkflowViews.TopEmployesRanked | frontend/src/components/index.jsx:834-837 | corrected, the rows run by decreasing hours and no employee left out has more hours than the last row |
| Text.ToLower | frontend/src/components/ui/DataTable.jsx:28 | `toLowerCase` maps each character, ASCII letters only |
| Text.ToLowerIdempotent | frontend/src/components/ui/DataTable.jsx:28 | lower-casing twice is lower-casing once |
| Text.Contains | frontend/src/components/ui/DataTable.jsx:28 | `includes` holds exactly when the term occurs at some index; the empty term always does |
| Text.Split | frontend/src/components/layout/Breadcrumb.jsx:8 | `split` gives at least one part, none holding the separator |
| Text.JoinSplit | frontend/src/components/layout/Breadcrumb.jsx:8-34 | joining the parts of a split gives the string back |
| Text.SplitJoin | frontend/src/pages/Reports.jsx:97-99 | splitting a join of separator-free parts gives the parts back |
| Text.TrimEmptyIffAllSpace | frontend/src/components/index.jsx:142 | `trim` is empty exactly for a blank string |
| Text.ParsePrintInt | frontend/src/services/api.js:58 | a printed integer parses back |
| Seqs.FilterCounts | frontend/src/components/ui/DataTable.jsx:25 | `Array.prototype.filter` keeps every copy of a value that passes and none of one that fails, so the filter views lose no duplicate row |
| Sorting.SortSorted | frontend/src/pages/Reports.jsx:81 | `sort` with a strict weak comparator gives a sorted permutation |
| Sorting.Sort | frontend/src/pages/Reports.jsx:81 | the sorted copy is a permutation of the input, of the same length |
| Sorting.SortStable | frontend/src/pages/Reports.jsx:81 | the sort is stable: for any element, the elements tied with it come out in their input order; with SortSorted this fixes the one result an ECMAScript 2019 engine gives |

## Left out

- The read-only endpoints are left out because they only query and return tables: the GET list and detail endpoints, `/auth/me` and `/health`. Their `skip`/`limit` are not modelled.
- The `AccountUpdate` schema is left out because no handler of the core uses it.
- Foreign keys are not checked. The ORM's nullify-on-delete of related rows is not modelled. Deletes remove exactly one row.
- Engine creation, the connection pool, `start` and `get_session` of `backend/database.py` are left out, because they are I/O.
- Logging, `console.error` and the toasts are left out because they have no observable effect in the model. The loading skeletons and rendering are left out too.
- bcrypt, JWT signing, `JSON.parse` and `JSON.stringify`, `parseFloat`, date parsing and the clock are function or value parameters.
- Handlers.CreateRequest, Handlers.UpdateRequest: both require well-formed times. Pydantic rejects anything else before the handler runs.
- Database.QuotePlusRoundTrip: proved for ASCII passwords only. The UTF-8 escapes of wider characters are modelled, but their decoding is not.
- Text.ToLower: ASCII letters only. JavaScript's full Unicode case mapping is not modelled.
- Breadcrumb.Label: `breadcrumbNameMap` is an object literal, so a segment naming an inherited `Object.prototype` property also finds a value. For `__proto__` that value is an object, and React refuses to render it; for `constructor` or `toString` it is a function, which renders nothing. The model shows such segments as themselves.
- DataTable.FilteredData: numbers other than whole ones, and objects or arrays held in a field, are not cells of the model. `String(1.5)` and the other float formats are not modelled, as elsewhere.
- Store.AccountNamed, Store.CodeTaken, Store.NumberTaken, Store.UsernameTaken: usernames, service codes and employee numbers are compared exactly, so the model assumes a case-sensitive (binary) collation. The connection URL of backend/database.py:31-32 sets no collation. Under MySQL's default case-insensitive collation, `=` and the unique indexes ignore case. On such a server "ADMIN" signs in as "admin", and a code "abc" beside "ABC" is refused; the model's handlers store it.
- DataTable.SortOrdersRows: proved for a column whose cells are all strings or all integers. JavaScript's mixed-type `<` is not modelled.
- DataTable.RowOnItsPage: assumes `pageSize` of at least 1, as every caller passes.
- Float formatting is not modelled: `toFixed`, `toLocaleString` and the percentages. The Math.round approval rate is not modelled either. Hours are reals.
- The `parseFloat(d.totalHeures || 0)` of non-numeric text (NaN) is not modelled. Hours are numbers.
- The HR payment modal (components/index.jsx:174-184, 294-349) and the EmployeeManagement form (components/index.jsx:355-594) are left out, because they only render and forward form data.
- The monthly chart constants and the simulated processing time of the analytics screen are left out.
- The CSV export's Blob and download link are left out. The model stops at the CSV text.
- The react-query and axios calls are left out. A page's call is the `Mutation` value it hands over.
- The Dashboard's approve and reject buttons have no handler in the source, so they are not modelled.
- EmployeesPage.FilteredEmployees, EmployeesPage.ServiceName: the `Employee` and `Service` records carry the fields the page reads (`first_name`, `last_name`, `email`, `id`, `service_id`, `name`). The API's `EmployeeRead` and `ServiceRead` send `firstName`, `lastName`, `employeeID`, `serviceID` and `serviceName` and no `email`. The search on the API's objects is modelled separately, by SearchAsWrittenThrows and SearchCorrectedKeepsMatches. On the API's objects the service lookup compares two `undefined` ids, so the first service matches and its `name` is `undefined`; that is not modelled.
- ServicesPage.FilteredServices, ServicesPage.EmployeeCount: the records carry the page's `id`, `name` and `service_id`, not the API's `serviceID`, `serviceName` and `serviceID`. On the API's objects both sides of its comparison are `undefined`, so every employee counts for every service; that is not modelled.
- ValidationPage.EmployeeName: the records carry the page's `employee_id`, `id`, `first_name` and `last_name`. On the API's `RequestRead` and `EmployeeRead` both ids are `undefined`, so the first employee matches and the name reads "undefined undefined"; that is not modelled.
- Reports.FilteredRequests, Reports.EmployeeOf, Reports.ServiceStats, Reports.EmployeeStats, Reports.CsvFields: the `Request` record carries the page's `date`, `employee_id`, `hours` and `reason`. `RequestRead` sends `requestDate`, `employeeID`, `startAt`, `endAt` and `comment`, so on the API's objects these fields read `undefined`; that is not modelled.

## Findings

| source | as written | input that shows it | evidently intended | confidence | as-written member | corrected member |
|---|---|---|---|---|---|---|
| frontend/src/services/api.js:12 | the request interceptor reads the token from `access_token` | log in through auth.js:19, which stores the token under `authToken`; every later request goes out without an Authorization header | read the key the login writes, so that requests carry the token | not executed | Api.LoginTokenNotSent | Api.CorrectedLoginTokenSent |
| frontend/src/components/index.jsx:834 | the "Top employés" table takes the first five employees of the list, unsorted | six employees where only the sixth has requests; the table shows the first five, each with 0 hours | rank the employees by hours and show the top five | not executed | WorkflowViews.RankingIgnoresHours | WorkflowViews.TopEmployesRanked |
| frontend/src/pages/Requests.jsx:63 | the new request's `employee_id` is `user.id` | any logged-in user: the user object from backend/main.py:122-126 has username, profile and employeeID, so `user.id` is undefined | send `user.employeeID` | not executed | RequestsPage.SubmitLosesEmployee | RequestsPage.CorrectedSubmitNamesEmployee |
| frontend/src/pages/Employees.jsx:33-37 | the search calls `toLowerCase` on `employee.first_name` for every employee, even with an empty term | any employee list from `GET /employees`: `EmployeeRead` (backend/models/employee.py:73-84) sends `firstName` and `lastName` and no `first_name`, so the first test throws a TypeError and the page fails on load | read the keys the API sends (`firstName`, `lastName`, and the optional `contact`) | not executed | EmployeesPage.SearchAsWrittenThrows | EmployeesPage.SearchCorrectedKeepsMatches |
| frontend/src/pages/Services.jsx:31-34 | the search calls `toLowerCase` on `service.name` for every service | any service list from `GET /services`: `ServiceRead` (backend/models/service.py:47-56) sends `serviceName` and no `name`, so the search throws a TypeError | read `serviceName`, and the description when there is one | not executed | ServicesPage.SearchAsWrittenThrows | ServicesPage.SearchCorrectedKeepsMatches |
