# RBAC administration backend: a Dafny model of its data logic

This project models the server side of an administrative backend. The backend offers CRUD over
users, roles, permissions and modules, and guards every route with role-based access control. The model covers:

- **The user lifecycle store** (`UserService`). A class holds the users table, the `user_roles`
  link table, the roles table and the id counters. Its methods `Create`, `Update`, `Remove` and `Restore`
  each run one transaction of the service. Every error is raised before any write. Each method's failures are stated exactly by
  `CreateError` or `UpdateError` (or the lookup), its new tables in full, and its answer as the
  re-read user projected by `Respond`. Each method keeps one store invariant:
  - every link names a user and a role that exist;
  - every user has exactly one link;
  - a soft-deleted user is inactive;
  - ids increase with the row order.
- **Bearer authentication** (`JwtAuthGuard`). It covers header parsing, token verification as an opaque
  partial function, the subject lookup that sees live users only, and the projection of the loaded
  User → UserRole → Role → RolePermission → Permission graph into nested lists of permission
  names. `CanActivate` sets `req.user` on a request object.
- **Response projections.** `UserMapper`, `RoleMapper`, `PermissionMapper` and `ModuleMapper`. A user's
  role is the role of the first link.
- **The module and permission stores** (`ModuleService`, `PermissionService`). Classes over their
  tables, covering:
  - id validation, the not-found and conflict errors, and the rewrapping of other errors as internal
    errors;
  - soft delete and restore-only-if-deleted for modules;
  - hard delete for permissions.
- **Request validation and routing.** Three filter DTOs (`FiltersUserDto`, `FiltersModuleDto`,
  `FiltersRoleDto`) over shared machinery (`Filters`). The `users` controller's per-route
  permissions, guard order, and paged-or-full dispatch rule (`UserController`).
- **Configuration resolution.** The environment is a map from keys to raw strings:
  - `ConfigEnv`: key lookup with defaults;
  - `ValidationConfig`: the missing-key error and the warnings, returned as a list;
  - `AppConfig`, `CorsConfig` and `JwtConfig`: the configuration objects.

Shared pieces:

- `Common`: optional and nullable values, HTTP errors and the rethrow rule.
- `Entities`: rows, tables and relation loading with soft-delete visibility.
- `Listing`: filtering, a sort by a total order on column values that permutes the rows, and skip/take paging.
- `Text`: trim, ASCII lower-casing, split, join and `parseInt`.
- `Calendar`: dates and JavaScript's `setMonth` overflow.

Effects are parameters:

- **The clock** is a `now: Date` argument.
- **bcrypt** is the uninterpreted function `hash: string -> string`.
- **JWT verification** is `verify: string -> Option<JwtPayload>`.
- **A storage failure** that would be caught and rewrapped is the argument `outage: bool`.

The application bootstrap file is not part of this model. The filter DTOs are modelled as if a global
`ValidationPipe` with `transform: true` applies them. Only under that option do the class defaults
(`page = 1`, `pageSize = 10`) and the `@Type` / `@Transform` conversions take effect.

Notable behaviour of the code:

- **Uniqueness checks.** The email, username and module-name checks use lookups without
  `withDeleted`, so they see live rows only. A soft-deleted row does not reserve its value. `RestoreMayDuplicateEmail` and
  `RestoreMayDuplicateName` show that restoring such a row can leave two live rows with the same value.
- **Soft-deleted users cannot authenticate.** The guard's lookup has no `withDeleted`, so a soft-deleted
  user's token fails with Unauthorized (`AuthenticateFailures`).
- **The identity lists roles.** It holds one entry per link, in order, each listing that role's
  permission names in order and without deduplication.
- **User restore does not require a deleted user.** It fails only when no row exists at all.

## Model

| member | source | states |
|---|---|---|
| Common.Rethrow | server/src/modules/module/application/module.service.ts:94-102 | an HTTP error whose kind is in the pass-through set is rethrown unchanged; anything else becomes InternalServerError with the operation's message |
| Common.NullToUndefined | server/src/modules/module/application/module.service.ts:38 | `?? undefined`: absent exactly when the value is null, otherwise the same value |
| Text.TrimStart | server/src/modules/user/application/user.service.ts:106-107 | the result is a suffix of the input, everything dropped is whitespace, and the result does not start with whitespace |
| Text.TrimEnd | server/src/modules/user/application/user.service.ts:106-107 | the result is a prefix of the input, everything dropped is whitespace, and the result does not end with whitespace |
| Text.Trim | server/src/modules/user/application/user.service.ts:106-107 | `trim()`: the slice of the input between its leading and its trailing whitespace; everything dropped is whitespace and the result has none at either end |
| Text.TrimIdempotent | server/src/modules/user/application/user.service.ts:107 | trimming twice equals trimming once |
| Text.TrimOfTrimmed | server/src/modules/user/application/user.service.ts:107 | a string without surrounding whitespace is its own trim |
| Text.TrimAllWhitespace | server/src/modules/auth/jwt-auth.guard.ts:68-70 | a string of whitespace only trims to the empty string, so such a token counts as empty |
| Text.LowerChar | server/src/modules/user/application/user.service.ts:106 | maps an ASCII capital to the letter 32 code points above it (its lower-case form) and leaves every other character alone |
| Text.ToLower | server/src/modules/user/application/user.service.ts:106 | ASCII `toLowerCase()`: each character lower-cased by `LowerChar`, keeping the length |
| Text.ToLowerIdempotent | server/src/modules/user/application/user.service.ts:106 | lower-casing twice equals lower-casing once |
| Text.TrimToLowerCommute | server/src/modules/user/application/user.service.ts:106 | trimming and lower-casing commute |
| Text.NormalizeEmail | server/src/modules/user/application/user.service.ts:106 | `trim()` then ASCII `toLowerCase()`: each character of the trimmed input, lower-cased, so the result has no surrounding whitespace and no ASCII capital |
| Text.NormalizeEmailIdempotent | server/src/modules/user/application/user.service.ts:153 | normalising an already normalised email changes nothing |
| Text.Split | server/src/config/cors/cors.config.ts:9 | `split(',')` gives one more piece than there are separators, none holding the separator |
| Text.JoinSplit | server/src/config/cors/cors.config.ts:9 | joining the pieces of a split with the separator gives back the input |
| Text.SplitJoin | server/src/config/cors/cors.config.ts:9 | splitting a join of separator-free pieces gives back the pieces |
| Text.SplitNoSeparator | server/src/config/cors/cors.config.ts:9 | a string without the separator splits into itself alone |
| Text.SplitConcat | server/src/config/cors/cors.config.ts:9 | a separator-free head followed by the separator splits off as the first piece |
| Text.JoinText | server/src/config/validation/validation.config.ts:11 | `join(', ')` of a single key is that key |
| Text.JoinTextOneChar | server/src/config/validation/validation.config.ts:11 | joining with a one-character string equals joining with that character |
| Text.TrimEach | server/src/config/cors/cors.config.ts:10 | `map(origin => origin.trim())`: same length, each piece trimmed |
| Text.DigitPrefix | server/src/modules/auth/jwt-auth.guard.ts:43 | the longest prefix of digits: a prefix, all digits, followed by a non-digit or the end |
| Text.ParseInt | server/src/modules/auth/jwt-auth.guard.ts:43 | `parseInt(s, 10)`: NaN exactly when, after leading whitespace and one sign, no digit follows; otherwise the value of the longest digit run, negative exactly for a `-` sign and a non-zero value |
| Text.ParseIntExample | server/src/modules/auth/jwt-auth.guard.ts:43 | `parseInt(" -12px", 10)` is -12 and `parseInt("px12", 10)` is NaN |
| Text.DecimalString | server/src/modules/auth/jwt-auth.guard.ts:43 | the decimal numeral of a natural number is a non-empty digit string |
| Text.DigitsValueOfDecimal | server/src/modules/auth/jwt-auth.guard.ts:43 | the numeral of n reads back as n |
| Text.DigitPrefixOfDigits | server/src/modules/auth/jwt-auth.guard.ts:43 | a digit string is its own digit prefix |
| Text.ParseIntOfIntString | server/src/modules/auth/jwt-auth.guard.ts:43 | a subject written as a decimal integer parses back to that integer |
| Calendar.DaysInMonth | server/src/modules/user/application/user.service.ts:117 | a month has 28 to 31 days, and 29 exactly for February of a leap year |
| Calendar.InstantOrdersDates | server/src/modules/user/application/user.service.ts:113-119 | on valid dates, the instant order is the lexicographic order of (month count, day, milliseconds) |
| Calendar.SetMonth | server/src/modules/user/application/user.service.ts:117 | `setMonth(m)` gives a valid date keeping the time of day: the plain move to month m when the day fits, otherwise the excess days into the following month |
| Calendar.SixMonthsLater | server/src/modules/user/application/user.service.ts:116-118 | `setMonth(getMonth() + 6)`: a valid date, at the same time of day, strictly later than now |
| Calendar.SixMonthsAfterAugust31 | server/src/modules/user/application/user.service.ts:117 | six months after 31 August 2025 is 3 March 2026, by JavaScript's day overflow |
| Entities.FindIndex | server/src/modules/user/application/user.service.ts:158 | a lookup by id: the index found holds that id, and none is found exactly when no row has it |
| Entities.FindIndexUnique | server/src/modules/user/application/user.service.ts:158 | with increasing ids, the row at k is the one found for its id |
| Entities.FindById | server/src/modules/user/application/user.service.ts:246 | a lookup by id: the row found is in the table with that id, and none is found exactly when no row has it |
| Entities.LinksOf | server/src/modules/user/application/user.service.ts:46 | the `roles` relation: exactly the links of that user, in table order |
| Entities.LinksOfAppend | server/src/modules/user/application/user.service.ts:133-138 | appending a link extends the links of its own user only |
| Entities.RemoveLinksOf | server/src/modules/user/application/user.service.ts:177 | `delete({ user: { id } })` keeps exactly the links of other users |
| Entities.LinksOfRemoved | server/src/modules/user/application/user.service.ts:177 | after deleting a user's links, that user has none and every other user keeps the same links |
| Entities.GrantsOf | server/src/modules/auth/jwt-auth.guard.ts:47 | the `roles.role.permissions` relation: exactly the grants of that role; with GrantsOfAppend, in table order and one entry per row |
| Entities.GrantsOfAppend | server/src/modules/auth/jwt-auth.guard.ts:47 | appending a grant extends only its own role's grants, at the end |
| Entities.LoadGrants | server/src/modules/auth/jwt-auth.guard.ts:47-48 | one entry per grant, in order; each permission is loaded exactly when it exists and is visible |
| Entities.LoadRole | server/src/modules/user/application/user.service.ts:46 | the `roles.role` relation: a role is loaded exactly when it exists and is visible, with its permissions exactly when they were asked for |
| Entities.LoadLinks | server/src/modules/auth/jwt-auth.guard.ts:44-48 | one entry per link, in order, each with its role loaded under the same visibility |
| Entities.LoadUser | server/src/modules/user/application/user.service.ts:91-96 | `findOne` with relations: a user is loaded exactly when it exists and is visible (soft-deleted ones only `withDeleted`), with the user's links in order |
| Listing.Where | server/src/modules/user/application/user.service.ts:63-71 | `andWhere`: exactly the rows satisfying the condition, in order |
| Listing.WhereAppend | server/src/modules/module/application/module.service.ts:56-63 | appending a row adds it at the end of the kept rows exactly when it passes |
| Listing.SortEntries | server/src/modules/user/application/user.service.ts:76 | `orderBy` sorts a permutation of the rows |
| Listing.SortEntriesSorted | server/src/modules/user/application/user.service.ts:76 | the sorted rows are in the requested order |
| Listing.Offset | server/src/modules/user/application/user.service.ts:77 | `skip((page - 1) * pageSize)`, and page 1 skips nothing |
| Listing.ConsecutivePages | server/src/modules/user/application/user.service.ts:77 | page p + 1 starts exactly pageSize rows after page p |
| Listing.Paginate | server/src/modules/user/application/user.service.ts:77 | `skip(s).take(t)`: min(t, rows left after s) rows, the i-th being row s + i |
| Listing.SortedListing | server/src/modules/user/application/user.service.ts:76 | a permutation of the table's enumeration, in the requested order: each row appears exactly once, carrying its column value |
| Listing.Page | server/src/modules/user/application/user.service.ts:76-77 | a page holds min(take, rows left) rows; row i is the row at position skip + i of the sorted listing, so the page is in the requested order |
| Listing.PageAll | server/src/modules/user/application/user.service.ts:76-77 | one page spanning the table lists every row exactly as often as the table holds it |
| Listing.PagesTile | server/src/modules/user/application/user.service.ts:77 | two consecutive pages concatenate to the page spanning both, so pages neither overlap nor leave gaps |
| ConfigEnv.Get | server/src/config/app/app.config.ts:23 | `get(key)` without a default: present exactly when the key is set, with its raw value |
| ConfigEnv.GetText | server/src/config/app/app.config.ts:19 | `get(key, default)`: the raw value when the key is set, even an empty one, else the default |
| ConfigEnv.GetSetting | server/src/config/app/app.config.ts:18 | `get<T>(key, default)`: the raw string when the key is set, else the typed default |
| ConfigEnv.BooleanSettingTruthiness | server/src/config/validation/validation.config.ts:22 | a boolean setting is truthy exactly when the key holds a non-empty string, so "false" counts as set |
| ConfigEnv.Required | server/src/config/app/app.config.ts:22-26 | `get(key) \|\| throw`: the value exactly when it is a non-empty string, else the given error |
| ValidationConfig.MissingKeys | server/src/config/validation/validation.config.ts:8 | `filter(key => !get(key))`: exactly the keys whose value is absent or empty |
| ValidationConfig.MissingKeysAppend | server/src/config/validation/validation.config.ts:8 | the filter keeps the order of the required keys |
| ValidationConfig.AllKeysMissing | server/src/config/validation/validation.config.ts:8 | when no key is set, every key is missing, in order |
| ValidationConfig.FirstMissingKey | server/src/config/validation/validation.config.ts:7-8 | the first missing key is the first required key that is not set |
| ValidationConfig.Missing | server/src/config/validation/validation.config.ts:7-8 | the missing required keys; empty exactly when all five are set |
| ValidationConfig.ValidateConfig | server/src/config/validation/validation.config.ts:6-29 | throws exactly when a key is missing, with the keys joined by ", "; otherwise all five are set, and the short-secret, cookie and SSL warnings are raised under exactly their conditions |
| ValidationConfig.OneMissingKey | server/src/config/validation/validation.config.ts:10-12 | a single missing key is named alone after the prefix |
| ValidationConfig.EmptyEnvironment | server/src/config/validation/validation.config.ts:7-12 | an empty environment misses all five keys, in the order of the list |
| ValidationConfig.WarningsOutsideProduction | server/src/config/validation/validation.config.ts:20-28 | outside production, the only possible warning is the short-secret one |
| ValidationConfig.CookieSecureFalseCountsAsSet | server/src/config/validation/validation.config.ts:22 | `COOKIE_SECURE=false` suppresses the production cookie warning, because the raw string is truthy |
| AppConfig.Need | server/src/config/app/app.config.ts:45-49 | a required key gives its value when it is a non-empty string, else "KEY es requerido en .env" |
| AppConfig.GetAppConfig | server/src/config/app/app.config.ts:17-72 | succeeds exactly when the five required keys are set; on success each field is its key's value or default, `sync` holds exactly for the text "true", and the origins are the split and trimmed `CORS_ORIGINS` |
| AppConfig.FailsLikeValidation | server/src/config/app/app.config.ts:22-65 | building the configuration fails exactly when `validateConfig` does, naming the first missing key |
| AppConfig.CorsAgreesWithCorsOptions | server/src/config/app/app.config.ts:37-42 | the configuration's origins equal what the CORS options compute |
| AppConfig.RequiredKeysSuffice | server/src/config/app/app.config.ts:18 | with the required keys set the configuration builds, and the port is the default 3000 exactly when `APP_PORT` is unset |
| AppConfig.GetDatabaseConfig | server/src/config/app/app.config.ts:77-99 | fails exactly as the application configuration does; otherwise it is of type postgres, copies host, port, username, password and name, sets `synchronize` to `sync`, and lists the six entities |
| CorsConfig.Origins | server/src/config/cors/cors.config.ts:7-10 | the i-th origin is the trimmed i-th comma-separated field of the setting; one more origin than commas, each trimmed and comma-free |
| CorsConfig.OriginsOfJoined | server/src/config/cors/cors.config.ts:7-10 | a comma-joined list of trimmed, comma-free origins is read back unchanged |
| CorsConfig.GetCorsConfig | server/src/config/cors/cors.config.ts:6-12 | credentials are on; the origins come from `CORS_ORIGINS` and are never empty; unset, they are exactly ["http://localhost:3000"] |
| CorsConfig.EmptyOriginsSetting | server/src/config/cors/cors.config.ts:8-10 | an empty `CORS_ORIGINS` yields the single origin "" rather than the default |
| JwtConfig.GetJwtConfig | server/src/config/jwt/jwt.config.ts:7-15 | succeeds exactly when `JWT_SECRET` is non-empty, with that secret; the error names the key; expiry and algorithm default to "1d" and "HS256" |
| JwtConfig.AgreesWithAppConfig | server/src/config/jwt/jwt.config.ts:7-15 | when the application configuration builds, the JWT module options equal its jwt section |
| JwtConfig.NeedsOnlyTheSecret | server/src/config/jwt/jwt.config.ts:8-10 | the JWT options need only the secret, while the application configuration also needs the database keys |
| JwtConfig.Defaults | server/src/config/jwt/jwt.config.ts:12-13 | with only the secret set, the sign options are "1d" and "HS256" |
| Filters.NumericOr | server/src/modules/user/application/user.service.ts:55-56 | `q.page ?? 1`: the given integer, or the default when absent |
| Filters.ParseOrder | server/src/modules/user/dto/filters-user.dto.ts:21 | `IsIn(['ASC', 'DESC'])`: exactly those two strings are orders |
| Filters.TransformFlag | server/src/modules/module/dto/filters-module.dto.ts:46 | `value === true \|\| value === 'true'` |
| Filters.BooleanOf | server/src/modules/user/dto/filters-user.dto.ts:29 | `Type(() => Boolean)`: a string gives true exactly when it is non-empty; a boolean is kept |
| Filters.Failing | server/src/modules/user/dto/filters-user.dto.ts:6-22 | each failing field is reported, and nothing is reported exactly when every field passes |
| Filters.Validated | server/src/modules/user/dto/filters-user.dto.ts:6-31 | a validated query is well-formed; page and pageSize are the values sent or the class defaults; sortOrder is Asc for "ASC" and Desc for "DESC"; withDeleted is the field's conversion of the raw value; sortBy and q are kept |
| Filters.WellFormedPaging | server/src/modules/user/dto/filters-user.dto.ts:6-14 | a validated query meets the services' paging assumption |
| Filters.QueryOrEmpty | server/src/modules/module/application/module.service.ts:46-53 | `filters \|\| {}`: the given query, or the empty one, which meets the paging assumption |
| FiltersUserDto.Validate | server/src/modules/user/dto/filters-user.dto.ts:5-32 | accepted exactly when page is an integer of at least 1, pageSize an integer in [1, 100] and sortOrder ASC or DESC; any sortBy is accepted; each failure is named; the accepted query holds the sent or default paging, the parsed order and `Boolean(withDeleted)` |
| FiltersUserDto.PageSizeRange | server/src/modules/user/dto/filters-user.dto.ts:11-14 | an integer page size passes exactly when it lies in [1, 100] |
| FiltersUserDto.EmptyQueryDefaults | server/src/modules/user/dto/filters-user.dto.ts:9 | an empty query validates to page 1, pageSize 10, nothing else |
| FiltersUserDto.WithDeletedFalseTextIsTrue | server/src/modules/user/dto/filters-user.dto.ts:28-31 | the text "false" becomes `withDeleted = true` and only the empty text becomes false |
| FiltersModuleDto.Validate | server/src/modules/module/dto/filters-module.dto.ts:5-48 | accepted exactly when page, pageSize, sortOrder pass and sortBy is one of the four listed keys; the accepted query holds the sent or default paging, the parsed order, and withDeleted true exactly for `true` or "true" |
| FiltersModuleDto.DeletedAtRefused | server/src/modules/module/dto/filters-module.dto.ts:26-31 | sorting modules by "deleted_at" is refused, although the service could map it |
| FiltersRoleDto.Validate | server/src/modules/role/dto/filters-role.dto.ts:5-50 | accepted exactly when page, pageSize, sortOrder pass and sortBy is one of the five listed keys; the accepted query holds the sent or default paging, the parsed order, and withDeleted true exactly for `true` or "true" |
| FiltersRoleDto.AcceptsDeletedAt | server/src/modules/role/dto/filters-role.dto.ts:27-33 | sorting roles by "deleted_at" is accepted |
| FiltersRoleDto.WithDeletedFalseTextIsFalse | server/src/modules/role/dto/filters-role.dto.ts:48 | the text "false" becomes `withDeleted = false` |
| UserMapper.MainRole | server/src/modules/user/interfaces/user.mapper.ts:10 | `user.roles?.[0]?.role`: present exactly when there is a first link with a loaded role, and then it is that role |
| UserMapper.ToResponseDto | server/src/modules/user/interfaces/user.mapper.ts:9-29 | copies id, email and username; null image, expiry and deletion become absent; role and roleId are present together, exactly when the first link has a role, and are its name and id |
| UserMapper.ResponseIgnoresPassword | server/src/modules/user/interfaces/user.mapper.ts:12-28 | the response does not depend on the password |
| UserMapper.ResponseIgnoresLaterLinks | server/src/modules/user/interfaces/user.mapper.ts:10 | links after the first do not change the response |
| UserMapper.ResponseCopiesColumns | server/src/modules/user/interfaces/user.mapper.ts:13-25 | names, flags and timestamps are copied verbatim, and non-null nullable columns are kept |
| RoleMapper.ToEntity | server/src/modules/role/interfaces/role.mapper.ts:6-11 | sets name and description and nothing else |
| RoleMapper.ToEntitySeesNameAndDescription | server/src/modules/role/interfaces/role.mapper.ts:6-11 | two inputs give the same entity exactly when their name and description agree |
| RoleMapper.ToResponseDto | server/src/modules/role/interfaces/role.mapper.ts:13-22 | copies id, name, description and timestamps, with `deletedAt` under the key `deleted_at` |
| RoleMapper.ResponseForgetsOnlyIsActive | server/src/modules/role/interfaces/role.mapper.ts:13-22 | two roles give the same response exactly when they differ at most in `isActive` |
| PermissionMapper.ToEntity | server/src/modules/permission/interfaces/permission.mapper.ts:6-11 | sets name and description, leaves moduleId and every other field unset |
| PermissionMapper.ToEntitySeesNameAndDescription | server/src/modules/permission/interfaces/permission.mapper.ts:6-11 | two inputs give the same entity exactly when their name and description agree |
| PermissionMapper.ToResponseDto | server/src/modules/permission/interfaces/permission.mapper.ts:13-21 | copies id, name, description and timestamps |
| PermissionMapper.ResponseForgetsModuleAndDeletion | server/src/modules/permission/interfaces/permission.mapper.ts:14-20 | two permissions give the same response exactly when they differ at most in module and deletion |
| ModuleMapper.ToEntity | server/src/modules/module/interfaces/module.mapper.ts:6-11 | sets name and description and nothing else |
| ModuleMapper.ToEntityInjective | server/src/modules/module/interfaces/module.mapper.ts:6-11 | distinct inputs give distinct entities |
| ModuleMapper.ToResponseDto | server/src/modules/module/interfaces/module.mapper.ts:13-21 | copies id, name and timestamps and passes the description through, null included |
| ModuleMapper.ResponseForgetsOnlyDeletion | server/src/modules/module/interfaces/module.mapper.ts:13-21 | two modules give the same response exactly when they differ at most in deletion |
| UserService.LiveIndex | server/src/modules/user/application/user.service.ts:158 | a lookup without `withDeleted`: finds the row with that id exactly when it is not soft-deleted |
| UserService.Expiration | server/src/modules/user/application/user.service.ts:113-119 | the supplied expiry when given, else six months after now |
| UserService.CreateError | server/src/modules/user/application/user.service.ts:109-111 | Conflict when a live user has the normalised email; else Conflict when one has the trimmed username; else BadRequest when no live role has the id; nothing else fails |
| UserService.NewUserStored | server/src/modules/user/application/user.service.ts:124-131 | the stored user has the normalised email and username, the hashed password, `flagPassword`, an expiry later than now by default, and is live |
| UserService.UpdateError | server/src/modules/user/application/user.service.ts:158-162 | in this order: NotFound exactly when the id has no live user; Conflict for a sent, changed email a live user holds; then Conflict for a sent, changed username a live user holds; then an internal error for a truthy role id no role row has |
| UserService.UpdateSkipsUnchangedEmail | server/src/modules/user/application/user.service.ts:161 | an email that normalises to the stored one is not checked |
| UserService.UpdateRefusesTakenEmail | server/src/modules/user/application/user.service.ts:161 | a new, non-empty email held by a live user gives the email Conflict |
| UserService.MergeKeepsIdentity | server/src/modules/user/application/user.service.ts:164-168 | the merge keeps id, creation and deletion, stamps the update time, and an empty patch changes nothing else |
| UserService.MergePassword | server/src/modules/user/application/user.service.ts:170-172 | the password is re-hashed only when supplied and non-empty; an empty one is stored raw |
| UserService.MergeEmail | server/src/modules/user/application/user.service.ts:164-168 | a supplied email is stored normalised, unless it normalises to "" and is then stored as given |
| UserService.BlankEmailStoredRaw | server/src/modules/user/application/user.service.ts:166 | an email of one space is stored as " " |
| UserService.ReplaceLinksEffect | server/src/modules/user/application/user.service.ts:176-184 | after replacement the user has exactly the one new link, and other users keep theirs |
| UserService.RemoveRestoreRoundTrip | server/src/modules/user/application/user.service.ts:200-225 | removal sets `deletedAt` and clears `isActive`, restore does the reverse, and remove then restore gives back the live user |
| UserService.NoLinksForAbsentUser | server/src/modules/user/application/user.service.ts:133-138 | under the invariant, a user id not in the table has no links |
| UserService.AppendUserKeepsInvariant | server/src/modules/user/application/user.service.ts:124-138 | inserting a user with one link to an existing role keeps the store invariant and gives that user exactly that link |
| UserService.CreatedUserLoads | server/src/modules/user/application/user.service.ts:140-145 | the re-read after creation finds the user, with roleId the linked role |
| UserService.ReplaceUserKeepsInvariant | server/src/modules/user/application/user.service.ts:174 | saving a row with the same id keeps the store invariant |
| UserService.ReplaceLinksKeepsInvariant | server/src/modules/user/application/user.service.ts:176-184 | replacing a user's links with one to an existing role keeps the store invariant |
| UserService.CreateKeepsEmailsUnique | server/src/modules/user/application/user.service.ts:109 | a create that passes its checks keeps live emails unique |
| UserService.RestoreMayDuplicateEmail | server/src/modules/user/application/user.service.ts:221-225 | restoring a deleted user whose email was reused breaks live email uniqueness |
| UserService.Respond | server/src/modules/user/application/user.service.ts:140-145 | the re-read response exists exactly when the user loads, and it is the mapper's projection |
| UserService.FindOne | server/src/modules/user/application/user.service.ts:91-99 | NotFound exactly when no row has the id, soft-deleted rows included; otherwise the mapper's projection of that user, loaded with its links and with soft-deleted rows visible |
| UserService.LiveUsers | server/src/modules/user/application/user.service.ts:44-46 | exactly the users without `deletedAt`; with LiveUsersAppend, in table order and once each |
| UserService.LiveUsersAppend | server/src/modules/user/application/user.service.ts:44-46 | appending a user adds it at the end of the live users exactly when it is live |
| UserService.FindAll | server/src/modules/user/application/user.service.ts:43-49 | one response per live user, in order, none of them deleted |
| UserService.SortMap | server/src/modules/user/application/user.service.ts:22-29 | exactly the six camel-case keys map to a column |
| UserService.SortColumn | server/src/modules/user/application/user.service.ts:73 | a mapped key gives its column; an absent or unknown key gives `createdAt` |
| UserService.SnakeCaseSortKeyFallsBack | server/src/modules/user/application/user.service.ts:73 | the documented example "created_at" is not a key and falls back to `createdAt` |
| UserService.ListedUsers | server/src/modules/user/application/user.service.ts:63-71 | exactly the users passing the deletion filter and the search; with ListedUsersAppend, in table order and once each, so `total` counts them |
| UserService.ListedUsersAppend | server/src/modules/user/application/user.service.ts:63-79 | appending a user adds it at the end of the listed users exactly when the query lists it |
| UserService.FindAllPaged | server/src/modules/user/application/user.service.ts:54-86 | echoes page and pageSize (defaults 1 and 10), counts every listed user, returns at most pageSize items, and none exactly when the offset reaches the total |
| UserService.FindAllPagedRows | server/src/modules/user/application/user.service.ts:63-81 | the items project `Listing.Page` of the listed users: the slice at the offset of their sorted permutation; all are listed, live unless `withDeleted`, and in the requested order (DESC by default) |
| UserService.UserStore.constructor | server/src/modules/user/application/user.service.ts:33-38 | an empty store over the given roles satisfies the invariant |
| UserService.UserStore.Insert | server/src/modules/user/application/user.service.ts:124-138 | appends the user and its link and advances both counters, keeping the invariant |
| UserService.UserStore.Create | server/src/modules/user/application/user.service.ts:104-147 | fails exactly as `CreateError` says, before any write; on success appends the new user and exactly one link to `roleId`, advances both id counters, and returns the re-read user with that role |
| UserService.UserStore.SaveUser | server/src/modules/user/application/user.service.ts:174 | replaces one row by a row with the same id, keeping links and the invariant |
| UserService.UserStore.ReplaceRole | server/src/modules/user/application/user.service.ts:176-184 | replaces the user's links by one new link to the role, keeping the invariant |
| UserService.UserStore.Update | server/src/modules/user/application/user.service.ts:152-192 | fails exactly as `UpdateError` says, before any write; on success stores the merged user, replaces the links only for a truthy roleId, and returns the re-read user |
| UserService.UserStore.Remove | server/src/modules/user/application/user.service.ts:197-213 | NotFound unless the user is live; otherwise sets `deletedAt`, clears `isActive`, keeps the links, and returns the deleted user |
| UserService.UserStore.Restore | server/src/modules/user/application/user.service.ts:218-233 | NotFound only when no row exists; otherwise clears `deletedAt`, sets `isActive`, keeps the links, and returns the live user |
| JwtAuthGuard.ReplaceFirst | server/src/modules/auth/jwt-auth.guard.ts:68 | `replace('Bearer ', '')` on a string starting with the pattern drops that prefix |
| JwtAuthGuard.ExtractToken | server/src/modules/auth/jwt-auth.guard.ts:62-74 | "Token no proporcionado" exactly unless the header is one string starting with "Bearer "; "Token vacío" exactly when the rest trims to ""; otherwise the trimmed rest |
| JwtAuthGuard.BearerRoundTrip | server/src/modules/auth/jwt-auth.guard.ts:62-74 | a header built as "Bearer " plus a trimmed token yields that token |
| JwtAuthGuard.SchemeIsCaseSensitive | server/src/modules/auth/jwt-auth.guard.ts:64 | "bearer " in lower case, or a repeated header, is refused as missing |
| JwtAuthGuard.VerifyToken | server/src/modules/auth/jwt-auth.guard.ts:76-82 | every verification failure becomes Unauthorized "Token inválido"; success is the payload |
| JwtAuthGuard.PermissionNames | server/src/modules/auth/jwt-auth.guard.ts:93-97 | one name per grant, in order, when every grant's permission is loaded |
| JwtAuthGuard.RoleClaimOf | server/src/modules/auth/jwt-auth.guard.ts:92-98 | a missing role or missing permissions give `[]`; otherwise the role's permission names |
| JwtAuthGuard.RoleClaims | server/src/modules/auth/jwt-auth.guard.ts:91-99 | one claim per link, in order |
| JwtAuthGuard.MapUserToAuthenticatedUser | server/src/modules/auth/jwt-auth.guard.ts:84-101 | `sub` and `email` come from the payload and `roles` from the user's links; a grant whose permission is missing fails the mapping |
| JwtAuthGuard.IdentityIgnoresUserColumns | server/src/modules/auth/jwt-auth.guard.ts:88-90 | the identity does not depend on the stored user's columns |
| JwtAuthGuard.Authenticate | server/src/modules/auth/jwt-auth.guard.ts:36-60 | succeeds only with an extracted, verified token whose subject parses to a live user; once those hold, the outcome is `mapUserToAuthenticatedUser` of the payload and the loaded user, so the identity's roles are the per-link permission names |
| JwtAuthGuard.AuthenticateFailures | server/src/modules/auth/jwt-auth.guard.ts:38-54 | a header failure is passed on, a verification failure is "Token inválido", and a NaN subject or a missing or soft-deleted user is Unauthorized "Usuario no encontrado" |
| JwtAuthGuard.ClaimsOfSoundGrants | server/src/modules/auth/jwt-auth.guard.ts:91-99 | when every grant names a live permission, the claims are always built |
| JwtAuthGuard.AuthenticateLiveUser | server/src/modules/auth/jwt-auth.guard.ts:36-60 | a verified token for a live user, with sound grants, authenticates with one role entry per link, entry i being the claim of link i |
| JwtAuthGuard.DeletedRoleGivesEmptyClaim | server/src/modules/auth/jwt-auth.guard.ts:93-97 | a link to a soft-deleted role yields an empty permission list |
| JwtAuthGuard.MissingPermissionFails | server/src/modules/auth/jwt-auth.guard.ts:95 | a grant without a loaded permission makes the mapping fail as an internal error |
| JwtAuthGuard.Request.constructor | server/src/modules/auth/jwt-auth.guard.ts:37 | a request with its authorization header and no user yet |
| JwtAuthGuard.CanActivate | server/src/modules/auth/jwt-auth.guard.ts:36-60 | returns true exactly when authentication succeeds, and then sets `req.user` to the identity; on failure `req.user` is untouched |
| UserController.RoutesDistinct | server/src/modules/user/presentation/user.controller.ts:19-62 | no two routes share a method and a path |
| UserController.RequiredPermission | server/src/modules/user/presentation/user.controller.ts:20-63 | view for listing and get, create for create, update for update and restore, delete for delete |
| UserController.SharedPermissions | server/src/modules/user/presentation/user.controller.ts:20-63 | two routes share a permission exactly when both read or both are update and restore |
| UserController.Guards | server/src/modules/user/presentation/user.controller.ts:13 | every route runs the JWT guard, then the permission guard with its permission |
| UserController.FindAll | server/src/modules/user/presentation/user.controller.ts:23-28 | the paged listing exactly when some filter is truthy, else the full listing |
| UserController.FalsyQueryListsEverything | server/src/modules/user/presentation/user.controller.ts:24-27 | no query, or one with only falsy fields, gives the full listing |
| UserController.ValidatedQueryIsPaged | server/src/modules/user/presentation/user.controller.ts:24 | a validated query always has a page, so it always takes the paged path |
| ModuleService.ServiceResponse | server/src/modules/module/application/module.service.ts:34-42 | the private projection copies id, name and timestamps, and turns a null description into absent |
| ModuleService.ProjectionsDifferOnlyOnNull | server/src/modules/module/application/module.service.ts:34-42 | the private and the shared projections agree exactly when the description is not null |
| ModuleService.LiveIndex | server/src/modules/module/application/module.service.ts:85-87 | `where: { id, deletedAt: IsNull() }`: finds the row exactly when it exists and is live |
| ModuleService.FindOne | server/src/modules/module/application/module.service.ts:79-103 | BadRequest for a falsy id, InternalServerError on a storage failure, NotFound exactly when no live module has the id, else its response |
| ModuleService.FindOneHidesDeleted | server/src/modules/module/application/module.service.ts:85-91 | a soft-deleted module is not found |
| ModuleService.SortMap | server/src/modules/module/application/module.service.ts:2-8 | exactly the five snake-case keys map to a column |
| ModuleService.SortColumn | server/src/modules/module/application/module.service.ts:49-64 | the key defaults to "created_at", and an unknown key falls back to `createdAt` |
| ModuleService.AcceptedSortKeysAreMapped | server/src/modules/module/dto/filters-module.dto.ts:26-31 | every key the DTO accepts is mapped by the service |
| ModuleService.UnsearchedListingHidesDeleted | server/src/modules/module/application/module.service.ts:56-58 | without a search, a module is listed exactly when `withDeleted` is on or it is live |
| ModuleService.SearchPrecedence | server/src/modules/module/application/module.service.ts:56-63 | as written, the explicit condition `a AND b OR c` lets a deleted module through when its description matches (TypeORM's implicit soft-delete condition would still hide it) |
| ModuleService.FindAllPaged | server/src/modules/module/application/module.service.ts:44-77 | fails exactly on a storage failure; otherwise echoes page and pageSize, counts the listed modules, and returns at most pageSize items |
| ModuleService.FindAllPagedRows | server/src/modules/module/application/module.service.ts:55-69 | the items project `Listing.Page` of the listed modules: the slice at the offset of their sorted permutation; all are listed and in the requested order of the column |
| ModuleService.CreateThrown | server/src/modules/module/application/module.service.ts:108-117 | a storage failure, else Conflict exactly when a live module has the name |
| ModuleService.NewModule | server/src/modules/module/application/module.service.ts:116-117 | the new row has the id, name and description, is live, and is stamped now |
| ModuleService.CreatedResponse | server/src/modules/module/application/module.service.ts:118 | the response's description is present exactly when one was given and is not null |
| ModuleService.CreateKeepsNamesUnique | server/src/modules/module/application/module.service.ts:108-117 | a create that passes its check keeps live names unique |
| ModuleService.UpdateThrown | server/src/modules/module/application/module.service.ts:129-150 | BadRequest, then storage failure, then NotFound, then Conflict exactly for a new, different name held by a live module |
| ModuleService.Merge | server/src/modules/module/application/module.service.ts:152 | `Object.assign` copies the supplied name and description and keeps the rest |
| ModuleService.MergeIdempotent | server/src/modules/module/application/module.service.ts:152 | merging twice equals merging once, and an empty patch changes only the update time |
| ModuleService.EmptyNameSkipsCheck | server/src/modules/module/application/module.service.ts:142 | the empty name is falsy and is never checked |
| ModuleService.UpdateKeepsNamesUnique | server/src/modules/module/application/module.service.ts:142-153 | an update that passes its checks, with a non-empty name, keeps live names unique |
| ModuleService.RemoveThrown | server/src/modules/module/application/module.service.ts:169-179 | BadRequest, storage failure, or NotFound exactly when no live module has the id |
| ModuleService.SoftDeleted | server/src/modules/module/application/module.service.ts:181-182 | sets `deletedAt` and changes nothing else but the update time |
| ModuleService.RestoreThrown | server/src/modules/module/application/module.service.ts:197-213 | BadRequest for a falsy id, NotFound when no row exists, BadRequest when the module is not deleted |
| ModuleService.Restored | server/src/modules/module/application/module.service.ts:215 | clears `deletedAt` and changes nothing else but the update time |
| ModuleService.RemoveRestoreRoundTrip | server/src/modules/module/application/module.service.ts:181-215 | restore after remove gives back the live module |
| ModuleService.RemovedCanBeRestored | server/src/modules/module/application/module.service.ts:195-213 | a module that removal accepts can then be restored |
| ModuleService.RestoreMayDuplicateName | server/src/modules/module/application/module.service.ts:202-215 | restoring a deleted module whose name was reused breaks live name uniqueness |
| ModuleService.ModuleStore.constructor | server/src/modules/module/application/module.service.ts:30-32 | an empty store satisfies the invariant |
| ModuleService.ModuleStore.Create | server/src/modules/module/application/module.service.ts:105-125 | fails exactly on a storage failure (InternalServerError) or a taken name (Conflict), changing nothing; otherwise appends the new module |
| ModuleService.ModuleStore.Update | server/src/modules/module/application/module.service.ts:127-165 | fails exactly as `UpdateThrown` says, passing BadRequest, NotFound and Conflict through and wrapping the rest; otherwise stores the merged module |
| ModuleService.ModuleStore.Remove | server/src/modules/module/application/module.service.ts:167-193 | fails exactly as `RemoveThrown` says; otherwise soft-deletes the row in place and responds with the module as loaded |
| ModuleService.ModuleStore.Restore | server/src/modules/module/application/module.service.ts:195-234 | fails exactly as `RestoreThrown` says; otherwise clears `deletedAt` and returns the live module |
| PermissionService.LiveIndex | server/src/modules/permission/application/permission.service.ts:61-63 | finds the row with that id exactly when it exists and is live |
| PermissionService.FindOne | server/src/modules/permission/application/permission.service.ts:60-66 | NotFound exactly when no live permission has the id, else its response |
| PermissionService.Restore | server/src/modules/permission/application/permission.service.ts:88-91 | changes nothing and returns the live row with that id, or null |
| PermissionService.RestoreMissesDeleted | server/src/modules/permission/application/permission.service.ts:88-91 | a soft-deleted permission is not returned by restore |
| PermissionService.SortMap | server/src/modules/permission/application/permission.service.ts:2-8 | exactly the five snake-case keys map to a column |
| PermissionService.SortColumn | server/src/modules/permission/application/permission.service.ts:43 | the key defaults to "created_at", and an unknown key falls back to `createdAt` |
| PermissionService.CamelCaseSortKeysFallBack | server/src/modules/permission/application/permission.service.ts:43 | "createdAt" and "updatedAt" are unknown keys and fall back to `createdAt` |
| PermissionService.UnsearchedListingHidesDeleted | server/src/modules/permission/application/permission.service.ts:37-39 | without a search, a permission is listed exactly when `withDeleted` is on or it is live |
| PermissionService.SearchPrecedence | server/src/modules/permission/application/permission.service.ts:37-42 | as written, the explicit condition lists a deleted permission whose description matches the search (TypeORM's implicit soft-delete condition would still hide it) |
| PermissionService.FindAllPaged | server/src/modules/permission/application/permission.service.ts:24-57 | fails exactly on a storage failure; otherwise echoes page and pageSize, counts the listed permissions, and returns at most pageSize items |
| PermissionService.FindAllPagedRows | server/src/modules/permission/application/permission.service.ts:35-48 | the items project `Listing.Page` of the listed permissions: the slice at the offset of their sorted permutation; all are listed and in the requested order of the column |
| PermissionService.NewPermission | server/src/modules/permission/application/permission.service.ts:68-75 | stores name, description and moduleId as given, live and stamped now |
| PermissionService.CreateKeepsWhatToEntityDrops | server/src/modules/permission/application/permission.service.ts:69-73 | unlike the mapper's `toEntity`, create keeps the module id |
| PermissionService.Merge | server/src/modules/permission/application/permission.service.ts:79 | `Object.assign` copies the supplied name, description and moduleId and keeps the rest |
| PermissionService.MergeIdempotent | server/src/modules/permission/application/permission.service.ts:79 | merging twice equals merging once, and an empty patch changes only the update time |
| PermissionService.Delete | server/src/modules/permission/application/permission.service.ts:84 | the hard delete keeps exactly the rows with other ids |
| PermissionService.DeleteAbsent | server/src/modules/permission/application/permission.service.ts:84 | deleting an absent id changes nothing |
| PermissionService.PermissionStore.constructor | server/src/modules/permission/application/permission.service.ts:20-22 | an empty store over the given modules satisfies the invariant |
| PermissionService.PermissionStore.Create | server/src/modules/permission/application/permission.service.ts:68-75 | fails exactly on a storage failure or an unknown module id, changing nothing; otherwise appends and returns the new row |
| PermissionService.PermissionStore.Update | server/src/modules/permission/application/permission.service.ts:77-81 | fails when there is no live row, the merged module id is unknown or storage fails; otherwise stores and returns the merged row |
| PermissionService.PermissionStore.Remove | server/src/modules/permission/application/permission.service.ts:83-86 | removes every row with the id, even none, and returns `{ deleted: true }` |

## Left out

- Logging: `console.log` and `console.warn` are not modelled; the configuration warnings are returned as a list.
- Storage: TypeORM query building, SQL and `getManyAndCount` are modelled as filters, a sort and slicing over sequences.
- Tables are sequences with strictly increasing ids below the store's counter, not maps.
- Generated ids are the store's counters.
- TypeORM's implicit soft-delete condition on query builders is not modelled. The listings follow the explicit `deletedAt IS NULL` condition only.
- `LIKE`/`ILIKE` is a substring test on ASCII-lower-cased text. Wildcards inside the search term, collation, and Unicode case folding are not modelled.
- Sorting compares text by code point and puts nulls last. The database's collation is not modelled. The database leaves the order among rows with equal keys unspecified. The model's insertion sort picks one such order, and nothing is proved about it.
- String lengths count characters, not UTF-16 code units.
- Dates are calendar dates with milliseconds of the day. Time zones and daylight saving are not modelled.
- The cryptography is left out. bcrypt is an uninterpreted function and JWT signature and expiry checks are an opaque partial function.
- Text.ToLower: only the ASCII letters A-Z are lowered. JavaScript's `toLowerCase()` also lowers other capitals ('É' to 'é') and can lengthen a string ('İ' becomes two characters); neither is modelled.
- Text.NormalizeEmail: because of the ASCII-only lower-casing, for an address with a non-ASCII capital the email checks and the stored email differ from the code's: "JOSÉ@x.com" does not clash with a live "josé@x.com" in the model, while it does in the code.
- ParseInt: the value is an exact integer. JavaScript's rounding of digit runs above 2^53 to the nearest double is not modelled.
- The lookup for a NaN subject: the guard treats it as "no user". The driver's actual behaviour with a NaN id is not modelled.
- `PermissionsGuard` and the `@Permissions` decorator are not part of this model. The controller states only which permission each route names, and the guard order.
- The controller's `Number(id)` conversion is not modelled; ids reach the user services as integers.
- Transactions, concurrency and the check-then-insert race are left out. Each service method is one atomic step.
- `UserService.UserStore.Update`: an unknown role id on update is modelled as a rolled-back InternalServerError, standing in for the foreign-key violation. The entity files are not part of this model.
- Entity column defaults (`isActive` true, `darkMode` false, `profileImage` null) are assumed.
- Writes stamp `updatedAt` with `now`, including soft delete and restore.
- `ModuleService.ModuleStore.Restore`: the `InternalServerErrorException` raised when the re-read after restore finds nothing is not modelled, because the row has just been made live.
- Module and permission storage failures are the `outage` flag. The user service's storage failures are not modelled.
- Foreign keys from `role_permissions` to a permission are not checked on hard delete.
- `PermissionService.FindAllPaged`: the `leftJoinAndSelect` of the module is not modelled; the response does not show it.
- `PermissionService.FindAllPaged`, `ModuleService.FindAllPaged` and `UserService.FindAllPaged` require a page of at least 1 and a positive page size. What the database does with other paging values is not modelled.
- `SORT_MAP` lookups of inherited object keys such as "constructor" are not modelled.
- `configService.get<T>` performs no type conversion: a value that is set is kept as its raw string (`Setting.FromEnv`).
- The JWT algorithm is not checked against the list of allowed algorithms.
- Nest wiring, Swagger, module files, barrels and type-only files have no behaviour and are not modelled. The client is not modelled.
