# gestor-de-correos, modelled in Dafny

gestor-de-correos is an e-mail composer. An Express and MySQL backend keeps HTML templates and the
editable e-mails built from them. A Vue and Pinia frontend edits those e-mails. Only one user may edit
an e-mail at a time: an e-mail row carries an edit lock (`is_locked`, `locked_by_user_id`) that the
editor takes when it opens the e-mail and gives back when it leaves.

This project models the sequential decision logic of that system and proves what it promises:

- the section parser that cuts a template into `<table data-section-type="…">` blocks, with their
  `{{ key }}` placeholders and numbered `image_N` slots;
- placeholder listing, and the unique-name rule of the templates table;
- the lock protocol over the e-mails table: the service statements, the controller decisions,
  the `checkLock` middleware, the middleware chain of each e-mail route, and the older handlers
  in `backend/server.js`;
- the client side: the editor store's `isLocked`/`isSaving` state machine, the e-mail list store,
  the router guard, the bearer-token and admin middleware, the user and section-template
  controllers, and `capitalizeFirstLetter`.

Inputs the model cannot see are parameters. These are URL validity (`isUrl`), JWT verification
(`verify`), the database's answer to a query (`Query`, `Called`), an axios request's outcome
(`Axios`), the clock (`now`) and fresh uuids (`freshId`, `uuid`). Tables are maps held by classes:
`TemplateService.TemplateTable` and `EmailService.EmailTable`. Their methods are proved against
functions on the old and new maps. Request handlers are functions from the table and the request
to an `Outcome(response, rows)`, and a method performs each handler on the table. The central
invariant is `AllLockConsistent`: an unlocked row has no holder. Every statement and handler
preserves it.

Files and modules, one per source file:

| file | module | source |
|---|---|---|
| js.dfy | Js | JavaScript values and the built-ins the code relies on (truthiness, `includes`, `indexOf`, `trim`, `split(' ')[1]`, the tag-stripping `replace`) |
| http.dfy | Http | `res.status(code).json(body)` replies, middleware outcomes, query and axios outcomes |
| validators.dfy | Validators | the express-validator rules the routes use (`notEmpty`, `isObject`, `isString`, `isLength`, `isInt`, `isUUID(4)`) |
| placeholders.dfy | Placeholders | the `{{\s*([a-zA-Z0-9_]+)\s*}}` scanner and the placeholder listing loop |
| template_parser.dfy | TemplateParser | backend/utils/templateParser.js |
| template_service.dfy | TemplateService | backend/services/templateService.js |
| template_controller.dfy | TemplateController | backend/controllers/templateController.js |
| email_service.dfy | EmailService | backend/services/emailService.js |
| email_controller.dfy | EmailController | backend/controllers/emailController.js |
| lock_middleware.dfy | LockMiddleware | backend/middleware/lockMiddleware.js |
| auth_middleware.dfy | AuthMiddleware | backend/middleware/authMiddleware.js |
| email_routes.dfy | EmailRoutes | backend/routes/emailRoutes.js |
| legacy_server.dfy | LegacyServer | the e-mail and template handlers of backend/server.js |
| user_controller.dfy | UserController | backend/controllers/userController.js |
| section_template_controller.dfy | SectionTemplateController | backend/controllers/sectionTemplateController.js |
| editor_store.dfy | EditorStore | frontend/src/stores/editorStore.js |
| email_store.dfy | EmailStore | frontend/src/stores/emailStore.js |
| router.dfy | Router | frontend/src/router/index.js |
| helpers.dfy | Helpers | `capitalizeFirstLetter` of frontend/src/utils/helpers.js |

Lock behaviour that the model reproduces as the code has it:

- Unlocking a free e-mail answers 403 (`EmailController.UnlockFreeIsForbidden`).
- The refactored PUT lets any signed-in user save an unlocked e-mail, because `checkLock` lets it
  through (`EmailRoutes.SaveChain`, `EmailRoutes.AllowedSaveSucceeds`). The PUT in
  backend/server.js saves only for the holder (`LegacyServer.SaveNeedsHolder`).
- Force-unlock has no admin gate (`EmailRoutes.ForceUnlockNeedsNoAdmin`).
- The rich-text validator of the controller exempts `''`, non-strings and `'<p></p>'`. The one in
  backend/server.js exempts none of them (`LegacyServer.RichValidatorsCompared`).
- The legacy PUT walks the keys of `updated_content` itself. A body in the sections format that the
  new controller accepts therefore always fails there (`LegacyServer.SectionsFormatNeverSaves`).

## Definitions

The "## Model" table below lists the members whose contracts state a property. The definitions
those contracts are written in model source behaviour too. The main ones:

| definition | source | what it models |
|---|---|---|
| Js.Truthy | backend/controllers/userController.js:18 | JavaScript truthiness of a value or of `undefined` |
| Js.Member | backend/controllers/emailController.js:56 | reading a property of the request body, `undefined` when absent or not an object |
| Js.Trim | backend/controllers/emailController.js:12 | `String.prototype.trim` over JavaScript's whitespace set |
| Js.StripTags | backend/controllers/emailController.js:12 | `replace(/<[^>]*>/g, '')` |
| Js.ToNumber | backend/controllers/userController.js:18 | the number conversion `<` applies to an object's `length` member |
| Js.ForInEntries | backend/controllers/emailController.js:59-60 | the keys and values `for…in` visits |
| UserController.ParseInt | backend/controllers/userController.js:57 | `parseInt(id, 10)` |
| UserController.ShorterThan | backend/controllers/userController.js:18 | `password.length < 6` for strings, arrays and objects |
| TemplateParser.SetBlank | backend/utils/templateParser.js:23 | `content[key] = ''` on an object made by `{}` |
| TemplateParser.SectionContent | backend/utils/templateParser.js:16-29 | the content object one section gets |
| LegacyServer.StoredName | backend/server.js:384 | the template name after the `trim()` sanitiser |
| LegacyServer.FirstFailure | backend/server.js:205-213 | the legacy create walk over `initial_content` |
| EmailController.FirstFieldError | backend/controllers/emailController.js:59-66 | the create walk over `initial_content` |
| EmailController.FirstSectionError | backend/controllers/emailController.js:93-102 | the save walk over the sections' content |
| EmailService.AllLockConsistent | backend/services/emailService.js:43 | an unlocked row has no holder |

## Model

| member | source | states |
|---|---|---|
| Js.StringToNumberOfNat | backend/controllers/userController.js:17 | JavaScript's number conversion reads a decimal numeral back as the number it spells |
| Js.StripTagsTagFree | backend/controllers/emailController.js:12 | removing every `<[^>]*>` leaves no complete tag behind |
| Js.StripTagsIdempotent | backend/controllers/emailController.js:12 | stripping tags a second time changes nothing |
| Js.TrimEmptyIff | backend/controllers/emailController.js:12 | `trim()` gives `''` exactly when every character is JavaScript whitespace |
| Js.Utf16Length | backend/controllers/userController.js:18 | `.length` of a string counts UTF-16 code units: between its number of characters and twice that, and equal to it exactly when no character lies outside the Basic Multilingual Plane |
| Js.SecondField | backend/middleware/authMiddleware.js:8 | `split(' ')[1]` is undefined exactly when there is no space; otherwise it is the text after the first space, up to the next space or the end |
| Validators.ElementErrors | backend/routes/emailRoutes.js:11 | `notEmpty` on an array reports an error exactly when some element's string form is empty: null, `''`, or an array that joins to `''` such as `[null]`, `['']` or `[[]]` |
| Validators.EmptyArrayForms | backend/routes/emailRoutes.js:11 | `[null]`, `['']` and `[[null]]` have an empty string form; `[null, null]` (`','`) and `[0]` do not |
| Validators.NotEmptyErrors | backend/routes/emailRoutes.js:11 | `notEmpty` reports nothing exactly when the value is present and not empty |
| Validators.IsObjectErrors | backend/routes/emailRoutes.js:11 | `isObject` reports nothing exactly when the value is a JSON object |
| Validators.IsStringErrors | backend/server.js:384 | `isString` reports nothing exactly when the value is a string |
| Validators.VisibleLength | backend/server.js:384 | the length `isLength` measures never exceeds the string's length, and equals it without variation selectors |
| Validators.IsLengthErrors | backend/server.js:384 | `isLength` reports nothing exactly when the measured length lies in `[min, max]` |
| Validators.IntLiteralOfNat | backend/server.js:409 | the decimal spelling of a natural number passes `isInt` and denotes that number |
| Validators.LeadingZerosAccepted | backend/server.js:409 | `isInt()` without options accepts a numeral padded with zeros, and it denotes the same number, so `007` selects template 7 |
| Placeholders.PlaceholderAt | backend/controllers/templateController.js:24 | a match found at `p` starts at `p` and is a `{{`, optional whitespace, a non-empty `[a-zA-Z0-9_]` run, optional whitespace, `}}` |
| Placeholders.PlaceholderAtComplete | backend/controllers/templateController.js:24 | every such occurrence is found at its start, with the same key |
| Placeholders.NoPlaceholderInside | backend/controllers/templateController.js:26 | no occurrence starts strictly inside another, so resuming at `lastIndex` loses nothing |
| Placeholders.NextPlaceholder | backend/controllers/templateController.js:26 | `regex.exec` from `lastIndex` finds the leftmost occurrence at or after it, and none is skipped |
| Placeholders.PlaceholderKeysComplete | backend/controllers/templateController.js:26 | the key of every occurrence in the html is among the matched keys |
| Placeholders.PlaceholderKeysSound | backend/controllers/templateController.js:26 | every matched key is the key of an occurrence in the html |
| Placeholders.HasPlaceholderIff | backend/server.js:386 | `placeholderRegex.test(value)` holds exactly when the html has an occurrence |
| Placeholders.UniqueMembers | backend/controllers/templateController.js:27 | dropping repeated keys keeps exactly the same set of keys |
| Placeholders.UniqueNoDuplicates | backend/controllers/templateController.js:27 | after `includes`/`push` each key appears once |
| Placeholders.UniqueFirstOccurrenceOrder | backend/controllers/templateController.js:27 | the kept keys are ordered by their first occurrence in the matches |
| Placeholders.CollectPlaceholders | backend/controllers/templateController.js:23-28 | the loop returns the matched keys without repeats, each key once, same members, in order of first occurrence |
| TemplateParser.SectionAtSound | backend/utils/templateParser.js:8 | a section match found at `p` has the regex's shape: `<table`, no `>` up to the marker, `data-section-type="T"` with `T` non-empty and free of `"`, the rest of the tag, then the first `</table>` |
| TemplateParser.SectionAtComplete | backend/utils/templateParser.js:8 | every block of that shape starting at `p` is found at `p`, with the last marker in the tag preferred, as the greedy `[^>]*` does |
| TemplateParser.NextSection | backend/utils/templateParser.js:12 | the global regex from `lastIndex` finds the leftmost block and skips none |
| TemplateParser.NextSectionShape | backend/utils/templateParser.js:12 | the block found has the regex's shape and starts at or after `lastIndex` |
| TemplateParser.NextImg | backend/utils/templateParser.js:26 | `/<img[^>]*>/g` from `lastIndex` finds the leftmost image tag and skips none |
| TemplateParser.ImgCountPositive | backend/utils/templateParser.js:25-29 | a section numbers at least one image exactly when it contains an `<img…>` tag |
| TemplateParser.NoSectionEmpty | backend/utils/templateParser.js:5-40 | html with no section block parses to the empty array |
| TemplateParser.SectionMatchesOrdered | backend/utils/templateParser.js:12 | the blocks are met left to right and do not overlap |
| TemplateParser.SectionMatchesAreSections | backend/utils/templateParser.js:12-14 | every block met is a match of the regex at its start |
| TemplateParser.SectionMatchesGaps | backend/utils/templateParser.js:12 | no block starts before the first, between two consecutive, or after the last block met |
| TemplateParser.SectionShape | backend/utils/templateParser.js:13-14 | the section html starts with `<table`, ends at the first `</table>` after its opening tag, and its type is non-empty and free of `"` |
| TemplateParser.ImageKeyInjective | backend/utils/templateParser.js:27 | different counter values give different `image_N` keys |
| TemplateParser.ImageKeysDisjoint | backend/utils/templateParser.js:10 | the counter is shared, so two sections never get the same image key |
| TemplateParser.AllImageKeysNumbered | backend/utils/templateParser.js:27-28 | the image keys of the first `i` sections are `image_0 … image_{n-1}`, where `n` counts their images |
| TemplateParser.OwnKeys | backend/utils/templateParser.js:23 | the keys that assignment on `{}` turns into own keys are exactly the assigned keys other than `__proto__`, whose inherited setter ignores a string |
| TemplateParser.SetBlankUnique | backend/utils/templateParser.js:23 | `content[key] = ''` on the blank object of the distinct own keys so far gives the blank object of the distinct own keys including `key` |
| TemplateParser.AssignUnique | backend/utils/templateParser.js:23 | assigning `''` to a key already present leaves the content object as it was, so duplicates collapse |
| TemplateParser.TrimKey | backend/utils/templateParser.js:23 | `trim()` of a captured key is the key itself |
| TemplateParser.SectionContentHasPlaceholder | backend/utils/templateParser.js:20-24 | a `{{ key }}` in a section's html is a content key exactly when the key is not `__proto__` |
| TemplateParser.SectionContentShape | backend/utils/templateParser.js:16-29 | a section's content keys are exactly its placeholder keys other than `__proto__` and its image keys, each once; `__proto__` is never a key; every value is `''` |
| TemplateParser.CollectTextKeys | backend/utils/templateParser.js:20-24 | the text loop builds the placeholder keys other than `__proto__`, without repeats, in order of first occurrence, each set to `''` |
| TemplateParser.NumberImages | backend/utils/templateParser.js:25-29 | the image loop adds `image_c … image_{c+n-1}` for the `n` images, and the counter ends at `c + n` |
| TemplateParser.BuildSection | backend/utils/templateParser.js:16-36 | one section's id, type, raw html and content (its own text keys, then its image keys), and the counter after it |
| TemplateParser.ParseTemplateHtml | backend/utils/templateParser.js:5-40 | the while loop returns, for every block in order, the section with the `k`-th fresh id, the captured type and html, and the content with the image counter carried across sections |
| TemplateService.Renamed | backend/services/templateService.js:35 | the update statement keeps the keys, replaces name and html of that id only, keeps its owner, and changes nothing for a missing id |
| TemplateService.InsertKeepsNamesUnique | backend/services/templateService.js:17-25 | inserting a name nobody holds keeps names unique |
| TemplateService.RenameKeepsNamesUnique | backend/services/templateService.js:28-37 | renaming to a name no other id holds keeps names unique |
| TemplateService.NameTakenOfStored | backend/services/templateService.js:29 | a template's own name counts as taken for create, but not as taken by another id for update |
| TemplateService.TemplateTable.constructor | backend/services/templateService.js:1-2 | an empty table whose next id is 1 |
| TemplateService.TemplateTable.GetTemplateById | backend/services/templateService.js:11-14 | the stored html of that id, or undefined when it is missing |
| TemplateService.TemplateTable.CreateTemplate | backend/services/templateService.js:17-25 | a taken name throws 409 and inserts nothing; otherwise exactly one row with that name, html and user is added under a new id |
| TemplateService.TemplateTable.UpdateTemplate | backend/services/templateService.js:28-37 | only a name held by another id throws 409; otherwise name and html of that id are replaced, and 1 or 0 rows are reported |
| TemplateService.TemplateTable.DeleteTemplate | backend/services/templateService.js:40-43 | only that id is removed, and 1 is reported when it existed, else 0 |
| TemplateController.ErrorReply | backend/controllers/templateController.js:48 | the reply status is the error's `statusCode`, or 500 when it is missing or 0; the message is the error's, or the default |
| TemplateController.ErrorReplyFallback | backend/controllers/templateController.js:48 | an error without a status code is answered with 500 |
| TemplateController.ErrorReplyDuplicate | backend/controllers/templateController.js:66 | the service's duplicate-name errors reach the client as 409 with their message |
| TemplateController.GetTemplateById | backend/controllers/templateController.js:17-34 | 404 exactly when the template is missing; otherwise the html unchanged with its placeholder keys, each once, in order of first occurrence |
| TemplateController.CreateTemplate | backend/controllers/templateController.js:37-50 | 400 with the validator errors, 409 for a taken name, otherwise 201 and one row inserted |
| TemplateController.UpdateTemplate | backend/controllers/templateController.js:53-68 | 400, 409 when another template holds the name, 404 for a missing id, otherwise 200 and the row renamed; keeping one's own name succeeds |
| TemplateController.DeleteTemplate | backend/controllers/templateController.js:71-81 | 404 when nothing was removed, otherwise 200; only that id is removed |
| EmailService.NewRow | backend/services/emailService.js:28 | a created row stores the given template and content, is locked, and is held by its creator |
| EmailService.StatusOf | backend/services/emailService.js:51-54 | the lock status of a row, or undefined for a missing uuid |
| EmailService.Locked | backend/services/emailService.js:43 | the lock statement sets `is_locked` and the holder of that row only |
| EmailService.Unlocked | backend/services/emailService.js:47 | the unlock statement clears `is_locked` and the holder of that row only |
| EmailService.ContentUpdated | backend/services/emailService.js:33 | the save statement replaces content, modifier and update time of that row only |
| EmailService.StatementsKeepLockConsistent | backend/services/emailService.js:26-48 | insert, lock, unlock, save and delete all keep "unlocked implies no holder" |
| EmailService.UnlockIdempotent | backend/services/emailService.js:46-48 | unlocking twice is unlocking once |
| EmailService.LockIdempotent | backend/services/emailService.js:42-44 | locking twice is locking once, and locking by the holder changes nothing |
| EmailService.LockingKeepsContent | backend/services/emailService.js:42-48 | lock and unlock leave content, creator, modifier and update time alone |
| EmailService.SavingKeepsLock | backend/services/emailService.js:32-35 | saving content does not touch the lock fields |
| EmailService.TemplateOf | backend/services/emailService.js:10 | the join on `template_id` finds the template with that id, for a number or a decimal string |
| EmailService.TemplateOfDecimalString | backend/services/emailService.js:10 | a template id sent as a decimal string joins like the number |
| EmailService.UserName | backend/services/emailService.js:11-12 | the left join gives the user's name, or null when there is no such user |
| EmailService.SummaryOf | backend/services/emailService.js:6-12 | a listed row carries its uuid, template id, times, template name, creator name and modifier name from the joins |
| EmailService.NewestExists | backend/services/emailService.js:13 | every non-empty set of rows has one with the latest `updated_at` |
| EmailService.EmailTable.constructor | backend/services/emailService.js:1-3 | an empty table |
| EmailService.EmailTable.GetAllEmails | backend/services/emailService.js:5-16 | every row is listed once with its join data, and the list is ordered by `updated_at`, newest first |
| EmailService.EmailTable.GetEmailByUuid | backend/services/emailService.js:18-24 | undefined when the uuid or its template is missing; otherwise template id, template name, the stored content, and the lock fields |
| EmailService.EmailTable.CreateEmail | backend/services/emailService.js:26-30 | inserts the new row locked by its creator and returns its uuid |
| EmailService.EmailTable.UpdateEmailContent | backend/services/emailService.js:32-35 | replaces content and modifier without checking or touching the lock; reports 1, or 0 for a missing uuid |
| EmailService.EmailTable.DeleteEmail | backend/services/emailService.js:37-40 | removes that row only and reports 1 or 0 |
| EmailService.EmailTable.LockEmail | backend/services/emailService.js:42-44 | sets the lock to the caller without any check |
| EmailService.EmailTable.UnlockEmail | backend/services/emailService.js:46-48 | clears the lock and its holder |
| EmailService.EmailTable.GetEmailLockStatus | backend/services/emailService.js:51-54 | reads the lock status and changes nothing |
| EmailController.ValidateRichContent | backend/controllers/emailController.js:6-16 | the only failure is 'El contenido no puede estar vacío.' |
| EmailController.RichContentExemptions | backend/controllers/emailController.js:8-10 | non-strings, `''` and exactly `'<p></p>'` are accepted |
| EmailController.RichContentRejectsBlank | backend/controllers/emailController.js:12-14 | any other string is rejected exactly when it is blank once its tags are stripped |
| EmailController.ValidateUrl | backend/controllers/emailController.js:18-25 | accepted exactly when the value is a URL; the failure message is 'Debe ser una URL válida.' |
| EmailController.FieldError | backend/controllers/emailController.js:94-100 | `enlace_` keys are checked as URLs, `image_` keys are skipped in the section walk, all others are rich-text checked |
| EmailController.FirstFieldErrorNoneIff | backend/controllers/emailController.js:60-67 | the walk over `initial_content` passes exactly when every entry passes |
| EmailController.FirstFieldErrorSome | backend/controllers/emailController.js:60-67 | a failing walk reports the error of the first failing entry |
| EmailController.CheckFields | backend/controllers/emailController.js:60-67 | the loop stops at the first failing entry with its error |
| EmailController.SectionEntries | backend/controllers/emailController.js:94 | `for … in section.content` fails only on a null section |
| EmailController.FirstSectionErrorNoneIff | backend/controllers/emailController.js:93-102 | the section walk passes exactly when no section is null and every entry of every section passes |
| EmailController.CheckSections | backend/controllers/emailController.js:93-102 | the nested loops report the first error of the section walk |
| EmailController.CreateEmailRefusal | backend/controllers/emailController.js:51-75 | 400 with the validator errors, 400 with the first field error, or a 400 when `template_id` or `initial_content` is undefined at the insert; no refusal exactly when all pass |
| EmailController.CreateOutcome | backend/controllers/emailController.js:51-75 | a refusal changes nothing; otherwise 201 with the new uuid, and the table gains exactly that row |
| EmailController.CreateEmail | backend/controllers/emailController.js:51-75 | the handler's reply and the table after it are those of `CreateOutcome` |
| EmailController.UpdateEmailRefusal | backend/controllers/emailController.js:78-112 | 400 for validator errors, 400 'El formato del contenido es inválido…' when `sections` is not an array, 400 for the first section-walk error; none exactly when all pass |
| EmailController.UpdateOutcome | backend/controllers/emailController.js:78-112 | a refusal changes nothing; otherwise 200, and only that row gets the new content and modifier, keeping its lock |
| EmailController.UpdateEmail | backend/controllers/emailController.js:78-112 | the handler's reply and the table after it are those of `UpdateOutcome` |
| EmailController.LockOutcome | backend/controllers/emailController.js:146-155 | 404 for a missing e-mail; 409 with nothing changed when another user holds it; otherwise 200 and the caller holds it |
| EmailController.UnlockOutcome | backend/controllers/emailController.js:167-176 | 404 for a missing e-mail; 403 with nothing changed unless the caller is the holder; otherwise 200 and the lock is cleared |
| EmailController.ForceUnlockOutcome | backend/controllers/emailController.js:185-192 | 404 for a missing e-mail; otherwise 200 and the lock is cleared, whoever holds it |
| EmailController.DeleteOutcome | backend/controllers/emailController.js:121-133 | 404 for a missing e-mail; 409 with nothing deleted when another user holds it; otherwise 200 and that row is deleted |
| EmailController.LockEmail | backend/controllers/emailController.js:141-159 | the handler's reply and the table after it are those of `LockOutcome` |
| EmailController.UnlockEmail | backend/controllers/emailController.js:162-180 | the handler's reply and the table after it are those of `UnlockOutcome` |
| EmailController.ForceUnlockEmail | backend/controllers/emailController.js:183-197 | the handler's reply and the table after it are those of `ForceUnlockOutcome` |
| EmailController.DeleteEmail | backend/controllers/emailController.js:115-138 | the handler's reply and the table after it are those of `DeleteOutcome` |
| EmailController.LockExcludesOthers | backend/controllers/emailController.js:150 | once a user holds the lock, others get 409 on lock and delete and 403 on unlock |
| EmailController.RelockIsIdempotent | backend/controllers/emailController.js:146-155 | the holder locking again gets 200 and changes nothing |
| EmailController.HolderReleases | backend/controllers/emailController.js:171-176 | after the holder unlocks, anyone may lock or delete |
| EmailController.UnlockFreeIsForbidden | backend/controllers/emailController.js:171 | unlocking an e-mail nobody holds answers 403 and changes nothing |
| EmailController.ForceUnlockFreesForAnyone | backend/controllers/emailController.js:191 | after a force-unlock the e-mail is free and anyone may lock it |
| EmailController.CreatedEmailHeldByCreator | backend/services/emailService.js:28 | a new e-mail is held by its creator: others get 409 on lock and delete, and the creator may unlock |
| EmailController.LockKeepsLockConsistent | backend/controllers/emailController.js:141-159 | the lock handler keeps "unlocked implies no holder" |
| EmailController.UnlockKeepsLockConsistent | backend/controllers/emailController.js:162-197 | unlock and force-unlock keep "unlocked implies no holder" |
| EmailController.DeleteKeepsLockConsistent | backend/controllers/emailController.js:115-138 | delete keeps "unlocked implies no holder" |
| EmailController.SaveKeepsLockConsistent | backend/controllers/emailController.js:78-112 | saving keeps "unlocked implies no holder" |
| EmailController.CreateKeepsLockConsistent | backend/controllers/emailController.js:51-75 | creating keeps "unlocked implies no holder" |
| LockMiddleware.HolderName | backend/middleware/lockMiddleware.js:16 | the holder's username, or 'otro usuario' when there is no such user |
| LockMiddleware.CheckLock | backend/middleware/lockMiddleware.js:5-23 | 500 on a storage error, 404 for a missing e-mail, `next()` exactly when the e-mail is free or held by the caller, otherwise 409 naming the holder |
| LockMiddleware.CheckLockOverTable | backend/middleware/lockMiddleware.js:9-19 | over a consistent table it passes exactly when the row exists and nobody else holds it, and it names the holder otherwise |
| AuthMiddleware.BearerToken | backend/middleware/authMiddleware.js:7-9 | a token exists exactly when the header starts with 'Bearer' and its second space-separated field is non-empty, and it is that field |
| AuthMiddleware.BearerTokenOfHeader | backend/middleware/authMiddleware.js:8 | `'Bearer ' + token` yields the token back |
| AuthMiddleware.BearerWithoutToken | backend/middleware/authMiddleware.js:10-12 | 'Bearer' and 'Bearer ' carry no token |
| AuthMiddleware.Protect | backend/middleware/authMiddleware.js:5-20 | 401 'no se proporcionó token' without a token, 401 'token fallido' when verification fails, otherwise the decoded user |
| AuthMiddleware.ProtectNeedsBearer | backend/middleware/authMiddleware.js:7-12 | a missing header, or one not starting with 'Bearer', is refused with 401 |
| AuthMiddleware.Admin | backend/middleware/authMiddleware.js:23-29 | `next()` exactly when there is a user with role 'admin', otherwise 403 |
| EmailRoutes.ProtectComesFirst | backend/routes/emailRoutes.js:10-21 | every e-mail route runs `protect` first |
| EmailRoutes.OnlySaveChecksLock | backend/routes/emailRoutes.js:15 | `checkLock` is on the PUT route and on no other |
| EmailRoutes.NoRouteNeedsAdmin | backend/routes/emailRoutes.js:19-21 | no e-mail route has the admin gate, force-unlock included |
| EmailRoutes.OnlyCreateValidatesBody | backend/routes/emailRoutes.js:11 | only POST / carries body validators |
| EmailRoutes.PostRulesPass | backend/routes/emailRoutes.js:11 | the POST rules pass exactly when `template_id` is non-empty and `initial_content` is an object |
| EmailRoutes.UnauthenticatedRefused | backend/routes/emailRoutes.js:10-21 | without a valid token every route answers 401 and changes nothing |
| EmailRoutes.SaveChain | backend/routes/emailRoutes.js:15 | the PUT chain passes exactly for an authenticated user who may save (the e-mail is free or held by that user), else it answers as `protect` or `checkLock` does |
| EmailRoutes.SaveOnlyWhenAllowed | backend/routes/emailRoutes.js:15 | a PUT that changes the table or answers 200 came from a user who may save |
| EmailRoutes.AllowedSaveSucceeds | backend/routes/emailRoutes.js:15 | a user who may save, with a valid body, saves, including on an unlocked e-mail |
| EmailRoutes.SaveAgainstLockRefused | backend/routes/emailRoutes.js:15 | saving an e-mail another user holds answers 409 naming the holder and changes nothing |
| EmailRoutes.ProtectOnlyChain | backend/routes/emailRoutes.js:16-21 | a chain of `protect` alone passes every authenticated request |
| EmailRoutes.DeleteDecidedByHandler | backend/routes/emailRoutes.js:16 | DELETE has no `checkLock`; its outcome is the controller's decision |
| EmailRoutes.ForceUnlockNeedsNoAdmin | backend/routes/emailRoutes.js:21 | a signed-in user who is not an admin can force-unlock, though `admin` would refuse that user |
| EmailRoutes.CreateChain | backend/routes/emailRoutes.js:11 | the POST chain passes the user on with the body-rule errors |
| EmailRoutes.RefusalWithFieldsPresent | backend/controllers/emailController.js:51-75 | with both fields present, a create is refused only by the validators or the field walk |
| EmailRoutes.CreateRefusalAfterRules | backend/routes/emailRoutes.js:11 | after the POST rules, a create is refused only by the validators or the field walk |
| EmailRoutes.CreateAfterRules | backend/routes/emailRoutes.js:11 | an authenticated POST answers 201 exactly when the rules and the field walk pass |
| LegacyServer.RichValidatorsCompared | backend/server.js:109-115 | the legacy validator throws whenever the controller's rejects; it also throws for `''`, `'<p></p>'` and every non-string, which the controller accepts |
| LegacyServer.FailureReply | backend/server.js:205-221 | a bad link answers 400 naming the key; a thrown validator answers 500 |
| LegacyServer.EntryFailure | backend/server.js:205-212 | `enlace_` keys fail exactly when not URLs; other keys fail exactly when the legacy validator throws |
| LegacyServer.FirstFailureNoneIff | backend/server.js:205-212 | the legacy walk passes exactly when every entry passes |
| LegacyServer.LegacyWalkStricter | backend/server.js:205-212 | content that passes the legacy walk passes the controller's walk too |
| LegacyServer.CheckEntries | backend/server.js:205-212 | the loop stops at the first failing entry |
| LegacyServer.CreateBodyErrors | backend/server.js:193-198 | the rules pass exactly when `template_id` is non-empty and `initial_content` is an object |
| LegacyServer.CreateOutcome | backend/server.js:193-222 | 400 with the rule errors, the first entry failure, or 201 with the row inserted locked by the creator |
| LegacyServer.CreateEmail | backend/server.js:193-222 | the handler's reply and the table after it are those of `CreateOutcome` |
| LegacyServer.SaveErrors | backend/server.js:243-248 | the rules pass exactly when the uuid is a version-4 UUID and `updated_content` is an object |
| LegacyServer.UpdateOutcome | backend/server.js:243-273 | rule errors and entry failures change nothing; otherwise the holder saves with 200 and everyone else gets 403 |
| LegacyServer.UpdateEmail | backend/server.js:243-273 | the handler's reply and the table after it are those of `UpdateOutcome` |
| LegacyServer.SaveNeedsHolder | backend/server.js:263-267 | a 200 requires the caller to hold the lock, any other answer changes nothing, and an unlocked e-mail is never saved |
| LegacyServer.SectionsFormatNeverSaves | backend/server.js:255-262 | a body in the format the controller accepts never saves through the legacy PUT |
| LegacyServer.DeleteOutcome | backend/server.js:283-303 | 404 for a missing e-mail; 409 naming the holder when another user holds it; otherwise 200 and the row is deleted |
| LegacyServer.DeleteEmail | backend/server.js:277-309 | the handler's reply and the table after it are those of `DeleteOutcome` |
| LegacyServer.LockOutcome | backend/server.js:317-326 | 404 for a missing e-mail; 409 naming the holder; otherwise 200 and the caller holds it |
| LegacyServer.LockEmail | backend/server.js:313-330 | the handler's reply and the table after it are those of `LockOutcome` |
| LegacyServer.SameDecisionsAsController | backend/server.js:283-326 | the legacy lock and delete change the table and choose the status as the controller does; only the messages differ |
| LegacyServer.UnlockEmail | backend/server.js:332-348 | the legacy unlock decides as the controller's unlock: only the holder unlocks, otherwise 403 |
| LegacyServer.GetTemplateById | backend/server.js:363-380 | 404 for a missing template; otherwise the html with its placeholder keys, each once, in order of first occurrence |
| LegacyServer.NameErrors | backend/server.js:384 | the name rule passes exactly for a string of 3 to 255 characters after trim |
| LegacyServer.HtmlErrors | backend/server.js:385-389 | the html rule passes exactly for a non-empty string with at least one `{{key}}` |
| LegacyServer.TemplateRulesAdmit | backend/server.js:384-389 | the template rules admit exactly string fields whose trimmed name has 3 to 255 characters and whose html has a placeholder |
| LegacyServer.CreateTemplate | backend/server.js:383-405 | 403 for a non-admin, 400 with the rule errors, 409 for a taken name, otherwise 201 and the row inserted; the table changes only in the last case |
| LegacyServer.IdErrors | backend/server.js:409 | the id rule passes exactly for an optionally signed run of digits, leading zeros included |
| LegacyServer.UpdateTemplate | backend/server.js:408-434 | 403, 400, 409 when another template holds the name, 404 for a missing id, otherwise 200 and the row renamed |
| LegacyServer.DeleteTemplate | backend/server.js:437-447 | 403 for a non-admin; otherwise that id is removed, 404 when it was missing and 200 when it existed |
| UserController.CreateUser | backend/controllers/userController.js:16-31 | 400 without lookup for a missing name or a short password (an object password by its `length` member converted to a number); 409 without creating for a taken name; it creates exactly for valid input and a free name; 201 exactly when that creation succeeds |
| UserController.ObjectLengthConverted | backend/controllers/userController.js:17 | an object password's `length` member is converted to a number before `< 6`: a short numeral string, null, a boolean or a one-element array of a short number is short; an object member is NaN and never short, and the number 6 is not short |
| UserController.PasswordLengthDecides | backend/controllers/userController.js:18 | a non-empty string password is acceptable exactly when its `.length`, in UTF-16 code units, is at least 6; without astral characters that is at least 6 characters |
| UserController.AstralPasswordCounted | backend/controllers/userController.js:18 | a password of three emoji has `.length` 6 and passes the check; two emoji (`.length` 4) do not |
| UserController.UpdateUser | backend/controllers/userController.js:34-50 | 400 without a name or role; 400 for a supplied password shorter than 6, with the same conversion of an object's `length`; otherwise it updates, with 200 or 500 |
| UserController.OmittedPasswordAccepted | backend/controllers/userController.js:42 | an omitted password does not block the update |
| UserController.DigitRun | backend/controllers/userController.js:57 | `parseInt` reads the longest digit run |
| UserController.ParseIntOfNat | backend/controllers/userController.js:57 | `parseInt` of a number's decimal spelling returns the number |
| UserController.DeleteUser | backend/controllers/userController.js:53-68 | 400 for one's own id without deleting; otherwise it deletes, with 404 for no row, 200 for a row, 500 on error |
| UserController.NoSelfDeletion | backend/controllers/userController.js:57-59 | a user can never delete their own account through this handler |
| SectionTemplateController.CreateSectionTemplate | backend/controllers/sectionTemplateController.js:13-28 | 400 when any field is falsy; otherwise 201 with the created row, 409 for a duplicate key, else 500 |
| SectionTemplateController.UpdateSectionTemplate | backend/controllers/sectionTemplateController.js:30-48 | 400 when any field is falsy; otherwise 404 for no row, 200, 409 for a duplicate key, else 500 |
| SectionTemplateController.DeleteSectionTemplate | backend/controllers/sectionTemplateController.js:50-61 | 404 for no row, 200 for a row, 500 on error |
| SectionTemplateController.ConflictOnlyFromDuplicateKey | backend/controllers/sectionTemplateController.js:23-25 | with all fields present, create and update answer 409 exactly on a duplicate-key error |
| SectionTemplateController.FalsyFieldsMissing | backend/controllers/sectionTemplateController.js:16 | `''`, 0, false and null count as missing |
| EditorStore.LoadError | frontend/src/stores/editorStore.js:45 | the error shown is the server's message when it has one, else 'Error al cargar el correo.' |
| EditorStore.CaughtLoad | frontend/src/stores/editorStore.js:44-53 | a failed load stops loading, shows the error, and reports `isLockedError` exactly for a 409 |
| EditorStore.AfterLoad | frontend/src/stores/editorStore.js:25-54 | loading ends; `isLocked` becomes true only when the lock request succeeds; success exactly when all three requests succeed, filling content, name and html |
| EditorStore.LoadConflictIffLockRefused | frontend/src/stores/editorStore.js:30-48 | when the lock request fails, `isLockedError` holds exactly for a 409, and `isLocked` is not set |
| EditorStore.LockKeptOnLaterFailure | frontend/src/stores/editorStore.js:30-50 | when the lock succeeds and a later request fails, the load fails and the lock is kept |
| EditorStore.SaveBody | frontend/src/stores/editorStore.js:63-65 | the whole `editableContent` is sent as `updated_content` |
| EditorStore.StartedSave | frontend/src/stores/editorStore.js:58-61 | while a save is in flight nothing is sent and nothing changes; otherwise `isSaving` and 'Guardando...' are set and the content is sent |
| EditorStore.FinishedSave | frontend/src/stores/editorStore.js:66-83 | `isSaving` ends; success clears `hasUnsavedChanges` and shows 'Cambios guardados'; failure shows 'Error al guardar' and keeps the flag |
| EditorStore.OneSaveAtATime | frontend/src/stores/editorStore.js:58 | a second save while the first is in flight sends nothing |
| EditorStore.AfterUnlock | frontend/src/stores/editorStore.js:87-95 | a request is sent exactly when `isLocked`, and `isLocked` is cleared only when it succeeds |
| EditorStore.LoadThenUnlockReleases | frontend/src/stores/editorStore.js:30-91 | after a successful lock, leaving the editor sends the unlock and clears `isLocked` |
| EditorStore.EditorStore.constructor | frontend/src/stores/editorStore.js:8-20 | the store starts in the initial state |
| EditorStore.EditorStore.CatchLoad | frontend/src/stores/editorStore.js:44-53 | the catch and finally blocks update the store as `CaughtLoad` says |
| EditorStore.EditorStore.LoadAndLockEmail | frontend/src/stores/editorStore.js:25-54 | the action updates the store and answers as `AfterLoad` says |
| EditorStore.EditorStore.StartSave | frontend/src/stores/editorStore.js:57-65 | the start of `saveEmail` updates the store as `StartedSave` says |
| EditorStore.EditorStore.FinishSave | frontend/src/stores/editorStore.js:66-83 | the end of `saveEmail` updates the store as `FinishedSave` says |
| EditorStore.EditorStore.SaveEmail | frontend/src/stores/editorStore.js:57-84 | the whole action: nothing while saving, otherwise start then finish |
| EditorStore.EditorStore.UnlockEmail | frontend/src/stores/editorStore.js:87-95 | the action updates the store as `AfterUnlock` says |
| EditorStore.EditorStore.ResetEditorState | frontend/src/stores/editorStore.js:98-109 | every field returns to its initial value |
| EmailStore.Without | frontend/src/stores/emailStore.js:52 | the filter drops every entry with that uuid, keeps every other, and adds nothing |
| EmailStore.WithoutAppend | frontend/src/stores/emailStore.js:52 | the filter works piecewise, so the kept entries stay in their original order |
| EmailStore.WithoutAbsent | frontend/src/stores/emailStore.js:52 | a list without that uuid is left as it is |
| EmailStore.FirstWithUuid | frontend/src/stores/emailStore.js:90 | `find` returns the first entry with that uuid, or none |
| EmailStore.Assigned | frontend/src/stores/emailStore.js:92 | a property assignment sets that key and keeps every other |
| EmailStore.Unlocked | frontend/src/stores/emailStore.js:92 | `email.is_locked = false` changes only that property |
| EmailStore.ForceUnlocked | frontend/src/stores/emailStore.js:90-93 | only the first entry with that uuid gets `is_locked = false`; with no match the list is untouched |
| EmailStore.ForceUnlockTouchesFirstOnly | frontend/src/stores/emailStore.js:90-93 | of two entries with the same uuid only the first is changed |
| EmailStore.ServerMessage | frontend/src/stores/emailStore.js:56 | the server's message when it has one, else the default |
| EmailStore.CreateEmailResult | frontend/src/stores/emailStore.js:33-46 | success with the returned uuid, or failure with the server's message or 'Error al crear el correo.' |
| EmailStore.EmailStore.constructor | frontend/src/stores/emailStore.js:10-12 | an empty list, not loading, no error |
| EmailStore.EmailStore.FetchEmails | frontend/src/stores/emailStore.js:19-31 | success replaces the list; failure sets the error and keeps the list; loading ends |
| EmailStore.EmailStore.DeleteEmail | frontend/src/stores/emailStore.js:48-59 | success filters the list and says so; failure keeps the list and gives the server message or the default |
| EmailStore.EmailStore.ForceUnlock | frontend/src/stores/emailStore.js:85-99 | success unlocks the first matching entry; failure keeps the list and says 'No se pudo forzar el desbloqueo.' |
| Router.Guard | frontend/src/router/index.js:94-109 | 'login' exactly when auth is required and missing; otherwise 'home' exactly when admin is required and missing; otherwise proceed |
| Router.Named | frontend/src/router/index.js:23-89 | a route name resolves to a record of the table with that name, or to nothing when no record has it |
| Router.RouteTableAccess | frontend/src/router/index.js:23-89 | create-email, template-manager, user-manager and section-template-manager need admin; dashboard, email-editor and email-list need only sign-in; login, register and NotFound need nothing |
| Router.HomeIsNotARoute | frontend/src/router/index.js:23-89 | no route is named 'home', the target of the admin redirect |
| Router.LoginRedirectSettles | frontend/src/router/index.js:71-75 | the login route always proceeds, so the redirect to it ends there |
| Router.AuthCheckedBeforeAdmin | frontend/src/router/index.js:98-105 | an anonymous visitor to an admin route goes to 'login', not 'home' |
| Router.SignedInUserReach | frontend/src/router/index.js:98-108 | a signed-in non-admin proceeds exactly where admin is not required and goes to 'home' elsewhere |
| Helpers.UpperCase | frontend/src/utils/helpers.js:14 | `toUpperCase` of one character gives a non-empty string without new spaces or underscores, one ASCII character for ASCII input |
| Helpers.UpperCaseFixed | frontend/src/utils/helpers.js:14 | upper-casing an upper-cased first character changes nothing |
| Helpers.ReplaceUnderscores | frontend/src/utils/helpers.js:12 | every `_` becomes a space and nothing else changes |
| Helpers.SplitCapitalizeJoin | frontend/src/utils/helpers.js:13-15 | split on spaces, capitalize each word, join with spaces equals capitalizing the first character after each space |
| Helpers.CapitalizeFirstLetter | frontend/src/utils/helpers.js:8-16 | falsy input gives `''`; otherwise the word-start capitalization of the string with underscores replaced |
| Helpers.NoUnderscores | frontend/src/utils/helpers.js:12-15 | the output contains no `_` |
| Helpers.CapitalizeFromAscii | frontend/src/utils/helpers.js:13-15 | for ASCII input each word's first character is upper-cased and every other character is kept |
| Helpers.AsciiShapeKept | frontend/src/utils/helpers.js:12-15 | for ASCII input the length is kept and the spaces sit exactly where the spaces and underscores were |
| Helpers.CapitalizeFromIdempotent | frontend/src/utils/helpers.js:13-15 | word-start capitalization applied twice equals once |
| Helpers.CapitalizeTwice | frontend/src/utils/helpers.js:8-16 | applying `capitalizeFirstLetter` twice equals applying it once |

## Left out

- MySQL itself: the connection pool, SQL beyond in-memory map semantics, and storage errors in the handlers. Only `checkLock` and the user and section-template controllers take a failing query as an input. The other handlers' `catch` branches that answer 500 for a storage failure are not modelled.
- Concurrency: lock acquisition is a read followed by a separate update, so it is not atomic. Every operation runs to completion before the next one, and mutual exclusion under interleavings is not claimed.
- bcrypt and JWT: JWT verification is the parameter `verify`. `/api/register`, `/api/login`, the auth controller and service, and the user and section-template services' SQL are not part of this model.
- `new URL` follows section 4.4 (basic URL parser) of the WHATWG URL Standard. It is the uninterpreted predicate `isUrl`.
- `DOMParser`, `formatDate` and `isValidUrl` in frontend/src/utils/helpers.js: only `capitalizeFirstLetter` is modelled.
- Helpers.UpperCase: `toUpperCase` is exact for ASCII and Latin-1 (with `ß` to `SS`, `µ` and `ÿ`). Other scripts are left unchanged, because the Unicode case tables are not modelled.
- Js.ToNumber: numbers are integers. A string that is not an optionally signed decimal integer (a fraction, an exponent, a hexadecimal literal, `Infinity`) is read as NaN, so `UserController.ShorterThan` calls such a `length` member not short where JavaScript may call it short.
- Js.Utf16Length: strings are sequences of Unicode scalar values, so a JavaScript string holding a lone surrogate cannot be written, and its `.length` is not modelled.
- The express-validator details: an error object's fields, `trim()` sanitising before `notEmpty`, and the exact message of each chained rule. Errors are modelled as a list that is empty exactly when the rules pass.
- The `setTimeout` that resets the badge to 'Listo' two seconds after a save (frontend/src/stores/editorStore.js:69-74); timers are not modelled.
- `hasUnsavedChanges` is set by the editor view, which is not part of this model; the store only clears it.
- `handleEdit` and `forceUnlockAndEdit` in the e-mail store only call the router.
- Request URLs built by the stores are not modelled; each network call is represented by its outcome.
- The other stores (templates, users, section templates, dashboard, modal, feedback), the stats code and the route files other than backend/routes/emailRoutes.js.
- templateRoutes.js names `getTemplateLibrary`, which templateController.js does not define. It is not invented here.
- The GET handlers for listing and reading e-mails, and `getTemplates`, are not dispatched. Their service reads are modelled (`EmailService.EmailTable.GetAllEmails`, `GetEmailByUuid`).
- Route path matching: requests are handed to a route directly.
- The legacy `checkLock` at backend/server.js:85-106 makes the same decisions as LockMiddleware.CheckLock. It is attached to no route, so it has no member of its own.
- The 404 'Correo no encontrado para eliminar.' after a delete reports zero rows (backend/controllers/emailController.js:130-132, backend/server.js:300-302). It cannot happen when operations run one at a time, so the model omits it.
- MySQL's coercion of string ids in the template and user routes: only the legacy PUT checks the id with `isInt` (backend/server.js:409). Every route passes the string to MySQL, which converts it, and the model takes an integer id throughout.
- EmailService.NewRow: `template_id` is stored as it came in the request body, so a digit string such as `"7"` is read back as that string, where MySQL's INT column would give back the number 7. The join (`EmailService.TemplateOf`) does compare it as MySQL does.
- `affectedRows` of an UPDATE is modelled as the number of matched rows.
- An e-mail list entry that is `null`: reading a property of `null` throws in JavaScript, while `Member` returns nothing here. A `fetchEmails` reply that is not an array is stored as given.
- Content objects are sequences of fields in insertion order. JavaScript orders integer-like keys first, which is not modelled. `Lookup` returns the first field with a duplicated key.
- Legacy-to-sections content normalisation, adding sections with filler values, and admin read-only editing do not appear in the code modelled here.
