# A verified model of the association backend's request handlers

The system is the REST backend of an association's website. Its controllers
answer HTTP requests by checking the decoded token claims (`req.user`) and
the JSON body in a fixed order, then reading or changing one or two MySQL
tables. This project models ten of those controllers in Dafny:

- events, with their price tiers, registration forms and registrations;
- link sections with their links;
- newsletters and their subscribers;
- password-reset tokens;
- board members (`vorstand`);
- the donation record (`spenden`);
- the YouTube link;
- the mail and postal contact records;
- contact requests (`anfragen`).

Each table is a sequence of rows with an AUTO_INCREMENT counter
(`Table.Store`); its invariant, `Table.Keyed`, says that ids are positive,
strictly ascending and below the counter. Every handler that changes a table
is modelled twice:

- a rule over the tables (a function `...Rule`), which states its answer;
- a method of the controller's class, which changes the class's table fields
  step by step and is proved to follow the rule.

Several read-only handlers (`Spenden.SpendenTable.GetAll`, `GetYoutubeLink`,
`GetMailKontakt`, `GetPostKontakt`, `GetAnfragen`, `GetAnfrageById`) have no
rule: they are methods only, and each method's contract states the answer directly.

The lemmas state the properties the handlers promise:

- which check fires first;
- that an error changes nothing;
- that exactly the intended rows change;
- what a later read gives back.

JavaScript values (`Js.Value`) are modelled with JavaScript's own semantics:
truthiness, `||`, `!== undefined`, strict equality, and property access that
throws on `null`/`undefined`. A `TypeError` the source would throw inside a
handler's `try` is answered with 500. Any change already made at that point is
kept, unless it happened inside a transaction. One thrown before the `try`
(the role checks of the contact-request handlers and of the YouTube-link
handlers) leaves the request unanswered (`Http.NoResponse`).

Files:

| file | contents |
|---|---|
| js.dfy | JavaScript values, truthiness, `trim`, `toLowerCase`, the SQL parameter comparisons |
| table.dfy | rows, keyed tables, `WHERE`, `UPDATE`, `INSERT`, first-row selection, newest-first order |
| http.dfy | the status codes |
| auth.dfy | the role checks on the token claims |
| datauri.dfy | the `data:image/...;base64,` parser and the two MIME checks |
| event_data.dfy, event_listing.dfy, event_update.dfy, event_forms.dfy, events.dfy | `controller/event.controller.js` |
| links.dfy | `controller/links.controller.js` |
| newsletter.dfy | `controller/newsletter.controller.js` |
| password_reset.dfy | `controller/passwordReset.controller.js` |
| vorstand.dfy | `controller/vorstand.controller.js` (module `Board`) |
| spenden.dfy, youtube.dfy, mailkontakt.dfy, postkontakt.dfy, anfrage.dfy | the singleton-record and contact-request controllers |

## Model

| member | source | states |
|---|---|---|
| Auth.StringUserTypeWins | controller/event.controller.js:7-15 | when `userType` is a string it alone decides `isVorstand`: true exactly for "vorstand" or "admin", whatever `userTypes` holds |
| Auth.IsVorstand | controller/event.controller.js:7-15 | granted only when the string `userType`, the array `userTypes` or `role` names "vorstand" or "admin"; a string `userType` naming one always grants; a missing user never does |
| Auth.HasRoleArray | controller/links.controller.js:26-30 | passes only for an object whose `userTypes` array holds "vorstand" or "admin"; without a string `userType` such a user also passes `isVorstand` |
| Auth.SomeRole | controller/spenden.controller.js:4-5 | allows exactly when the array check passes; throws exactly when `userTypes` is present but not an array |
| Auth.IncludesVorstand | controller/vorstand.controller.js:148 | an array that allows passes the array check; a string allows exactly when it contains "vorstand"; throws exactly when `userTypes` is present and neither array nor string |
| Auth.RoleArrayInTry | controller/links.controller.js:26-32 | the check passes exactly when `userTypes` is an array holding "vorstand" or "admin"; otherwise 403, or 500 when there is no user |
| Auth.RoleArrayChained | controller/vorstand.controller.js:29-35 | the check passes exactly when `userTypes` is an array holding "vorstand" or "admin"; every refusal is 403 |
| Auth.SomeRoleAgreesWithArrayCheck | controller/spenden.controller.js:4-5 | on a claim set whose `userTypes` is an array or absent, `checkAdminVorstand` allows exactly when the array check does |
| Auth.SomeRoleInTry | controller/spenden.controller.js:4-5 | inside `try`: passes exactly when the optional chain allows; 403 when it denies; 500 when `userTypes` is present but not an array |
| Auth.SomeRoleBeforeTry | controller/youtubelink.controller.js:19-20 | before `try`: passes exactly when the chain allows; 403 when it denies for a present user; no answer when there is no user or `some` is missing |
| Auth.IncludesVorstandInTry | controller/vorstand.controller.js:146-150 | `userTypes?.includes("vorstand")`: passes exactly when the array contains, or the string includes, "vorstand"; 403 on a denial; 500 when there is no user or the claim has no `includes` |
| Auth.AdminAloneIsNotVorstand | controller/vorstand.controller.js:148-150 | `userTypes: ["admin"]` passes the array checks but is refused by getVorstandLogins |
| Auth.UserTypeBeforeTry | controller/anfrage.controller.js:20-22 | passes exactly when `userType` is the string "vorstand"; 403 for another present user; no answer without a user |
| Auth.UserTypeInTry | controller/vorstand.controller.js:314-319 | passes exactly when `userType` is "vorstand"; 403 for another present user; 500 without a user |
| Auth.ArrayClaimIsNotUserType | controller/anfrage.controller.js:20-22 | a token with only `userTypes: ["vorstand"]` passes the array checks and `isVorstand` but not the `userType` check |
| Anfrage.CreateRule | controller/anfrage.controller.js:19-39 | 201 exactly when `userType` is "vorstand" and name, email and nachricht are truthy; then one row stamped with `now` is inserted and its new id reported; otherwise nothing changes; a present user whose `userType` is not "vorstand" gets 403, no user no answer at all, and missing fields 400 |
| Anfrage.CreatedIdFindsRow | controller/anfrage.controller.js:30-38 | the reported `anfrageId` selects exactly the inserted row |
| Anfrage.AnfrageTable.CreateAnfrage | controller/anfrage.controller.js:19-44 | answers and changes the table as `CreateRule` says; the table stays keyed |
| Anfrage.AnfrageTable.GetAnfragen | controller/anfrage.controller.js:47-56 | 200 exactly for a "vorstand" `userType`; any other present user gets 403 and no user no answer; the list is every row, each once, ordered by `erstellt_am` newest first |
| Anfrage.AnfrageTable.GetAnfrageById | controller/anfrage.controller.js:64-73 | 200 exactly when the caller passes and some row has the id; 404 when none has it; any other present user gets 403 and no user no answer; the row returned has the id |
| Spenden.FromBody | controller/spenden.controller.js:34-40 | each of the six columns stores its body value, with `undefined` stored as NULL |
| Spenden.MergeColumns | controller/spenden.controller.js:70-81 | a column takes the body value exactly when it is not `undefined`, so `null` and `""` overwrite; otherwise it keeps the stored value |
| Spenden.MergeNothingSent | controller/spenden.controller.js:73-81 | an update sending none of the six fields leaves the record as it was |
| Spenden.MergeIdempotent | controller/spenden.controller.js:73-86 | sending the same update twice has the effect of sending it once |
| Spenden.NullClears | controller/spenden.controller.js:74-79 | sending `hinweis: null` clears it and leaves every other field alone |
| Spenden.CreateRule | controller/spenden.controller.js:23-42 | 201 exactly when the role passes, no record exists, and iban and bank are truthy; then exactly that row is inserted; otherwise nothing changes; an existing record or a falsy iban or bank gives 400; a denied role 403, a `userTypes` that is not an array 500; at most one row is kept |
| Spenden.UpdateRule | controller/spenden.controller.js:60-88 | 200 exactly when the role passes and a record exists; 404 without a record; a denied role 403, a `userTypes` that is not an array 500; the first row becomes the merge under its own id; no other row changes |
| Spenden.DeleteRule | controller/spenden.controller.js:95-105 | 200 exactly when the role passes and a record exists; 404 without one; a denied role 403, a `userTypes` that is not an array 500; exactly the first row is removed |
| Spenden.AtMostOneRecord | controller/spenden.controller.js:23-105 | starting from at most one row, any sequence of create, update and delete calls leaves at most one row |
| Spenden.DeleteAllowsCreate | controller/spenden.controller.js:23-105 | after the single record is deleted, a valid create succeeds again |
| Spenden.SpendenTable.Create | controller/spenden.controller.js:23-47 | answers and changes the table as `CreateRule` says |
| Spenden.SpendenTable.GetAll | controller/spenden.controller.js:49-53 | 404 exactly when the table is empty; otherwise the first row |
| Spenden.SpendenTable.Update | controller/spenden.controller.js:60-93 | answers and changes the table as `UpdateRule` says |
| Spenden.SpendenTable.Delete | controller/spenden.controller.js:95-110 | answers and changes the table as `DeleteRule` says |
| YoutubeLinks.CreateRule | controller/youtubelink.controller.js:17-29 | 201 exactly when the role passes, a link is given and no row exists; then that link is inserted; otherwise nothing changes; an unprivileged present caller gets 403, a missing user or a non-array claim no answer, before the link is looked at; at most one row is kept |
| YoutubeLinks.UpdateRule | controller/youtubelink.controller.js:47-59 | 200 exactly when the role passes, `newLink` is truthy and a row exists; a falsy `newLink` gives 400, and so does a missing row (not 404); an unprivileged present caller gets 403, a missing user or a non-array claim no answer; only the first row's link changes |
| YoutubeLinks.CreateKeepsOneRow | controller/youtubelink.controller.js:25-28 | with a row present, create changes nothing and, for a privileged caller with a link, answers 400 |
| YoutubeLinks.RoleBeforeLink | controller/youtubelink.controller.js:19-22 | an unprivileged caller is refused with 403 even when no link is sent |
| YoutubeLinks.YoutubeTable.CreateYoutubeLink | controller/youtubelink.controller.js:17-34 | answers and changes the table as `CreateRule` says |
| YoutubeLinks.YoutubeTable.GetYoutubeLink | controller/youtubelink.controller.js:36-40 | 404 exactly when the table is empty; otherwise the first row |
| YoutubeLinks.YoutubeTable.UpdateYoutubeLink | controller/youtubelink.controller.js:47-64 | answers and changes the table as `UpdateRule` says |
| MailKontakt.MergeOnlyTruthy | controller/mailkontakt.controller.js:63-69 | email and hinweis change only to a truthy sent value, so `""` cannot clear hinweis; with neither sent truthy, the row is unchanged |
| MailKontakt.CreateRule | controller/mailkontakt.controller.js:34-47 | 201 exactly when email is truthy, and the row is inserted; otherwise 400 with no change; there is no singleton check |
| MailKontakt.CreateTwice | controller/mailkontakt.controller.js:34-47 | two creates add two rows |
| MailKontakt.UpdateRule | controller/mailkontakt.controller.js:54-72 | 200 exactly when a row exists, and only the first row becomes the merge; otherwise 404 with no change |
| MailKontakt.DeleteRule | controller/mailkontakt.controller.js:79-87 | 200 exactly when a row exists, and only the first row is removed; otherwise 404 with no change |
| MailKontakt.MailKontaktTable.GetMailKontakt | controller/mailkontakt.controller.js:21-27 | 404 exactly when the table is empty; otherwise the first row |
| MailKontakt.MailKontaktTable.CreateMailKontakt | controller/mailkontakt.controller.js:34-52 | answers and changes the table as `CreateRule` says |
| MailKontakt.MailKontaktTable.UpdateMailKontakt | controller/mailkontakt.controller.js:54-77 | answers and changes the table as `UpdateRule` says |
| MailKontakt.MailKontaktTable.DeleteMailKontakt | controller/mailkontakt.controller.js:79-92 | answers and changes the table as `DeleteRule` says |
| PostKontakt.FromBody | controller/postkontakt.controller.js:19-27 | each of the five columns stores its body value, with `undefined` stored as NULL |
| PostKontakt.MergeColumns | controller/postkontakt.controller.js:46-55 | each column keeps its stored value unless a truthy value is sent |
| PostKontakt.MergeNothingTruthy | controller/postkontakt.controller.js:46-55 | a body with no truthy field changes nothing, so a `plz` of 0 or `""` is ignored |
| PostKontakt.CreateRule | controller/postkontakt.controller.js:17-30 | 201 exactly when firma, strasse, plz and ort are truthy, and the row is inserted; otherwise 400 with no change; `name` is optional and there is no singleton check |
| PostKontakt.UpdateRule | controller/postkontakt.controller.js:37-58 | 200 exactly when a row exists, and only the first row becomes the merge; otherwise 404 with no change |
| PostKontakt.DeleteRule | controller/postkontakt.controller.js:65-73 | 200 exactly when a row exists, and only the first row is removed; otherwise 404 with no change |
| PostKontakt.DeleteExposesSecond | controller/postkontakt.controller.js:65-73 | with two rows stored, the second becomes the one read after a delete |
| PostKontakt.PostKontaktTable.GetPostKontakt | controller/postkontakt.controller.js:4-10 | 404 exactly when the table is empty; otherwise the first row |
| PostKontakt.PostKontaktTable.CreatePostKontakt | controller/postkontakt.controller.js:17-35 | answers and changes the table as `CreateRule` says |
| PostKontakt.PostKontaktTable.UpdatePostKontakt | controller/postkontakt.controller.js:37-63 | answers and changes the table as `UpdateRule` says |
| PostKontakt.PostKontaktTable.DeletePostKontakt | controller/postkontakt.controller.js:65-78 | answers and changes the table as `DeleteRule` says |
| PasswordReset.RequestRule | controller/passwordReset.controller.js:40-111 | 400 for a falsy `benutzername` and 404 when no board member has it, neither touching `password_resets`; otherwise that member's reset rows are replaced by one new row, unused, expiring an hour after `now`; 200 exactly when the mail goes out, and 500 (token kept) when sending throws |
| PasswordReset.OneTokenPerUser | controller/passwordReset.controller.js:60-83 | afterwards the user has exactly one reset row: the new token, unused, expiring at issue time + 1 hour; other users' rows are as before |
| PasswordReset.ResetRule | controller/passwordReset.controller.js:115-162 | 400 for a falsy token or password; 500 when verification throws; 403 unless the payload type is "password_reset"; 400 unless a row has the token, `expires_at > now` and `used = 0`; 200 exactly when all pass, and then only the user's password (hashed, `passwort_geaendert = 1`) and that row's `used` change; every error leaves both tables unchanged |
| PasswordReset.SingleUse | controller/passwordReset.controller.js:131-160 | after a successful reset the same token never succeeds again, at any time, with any password |
| PasswordReset.ExpiredRefused | controller/passwordReset.controller.js:131-141 | a token whose rows have all expired is refused and nothing changes |
| PasswordReset.RequestKeepsTokenOnce | controller/passwordReset.controller.js:61-83 | a request with a token not yet stored keeps every token in at most one row |
| PasswordReset.ResetStore.RequestReset | controller/passwordReset.controller.js:40-112 | answers and changes the tables as `RequestRule` says |
| PasswordReset.ResetStore.ResetPassword | controller/passwordReset.controller.js:115-168 | answers and changes the tables as `ResetRule` says |
| Board.PhotoOf | controller/vorstand.controller.js:74-91 | no photo stores NULL; a non-string photo is 500; a string not matching the data-URI pattern or a listed MIME type is 400; otherwise a failed conversion is 500 and a successful one stores its base64 text |
| Board.NewMember | controller/vorstand.controller.js:94-113 | the inserted row keeps the sent user name, the hash in place of the password, the photo step's value, `beschreibung` or NULL when falsy, and a cleared changed-password flag |
| Board.CreateRule | controller/vorstand.controller.js:26-120 | 403 without the role array, 400 when a required field is falsy, 409 when the user name is taken, the photo's 400/500; 201 exactly when all pass, and then one new row and nothing else; every refusal leaves the store as it was; keys stay sound |
| Board.CreateKeepsNamesUnique | controller/vorstand.controller.js:62-68 | if no two rows share a user name before a create, none do after it |
| Board.Logins | controller/vorstand.controller.js:153-161 | one login per row, in row order, with exactly its user name, first and last name |
| Board.ProfileOf | controller/vorstand.controller.js:194-255 | no claims is the 500 path; a matching board row (by id or name) gives the full profile of the first such row; otherwise a "vorstand" claim with a matching `vorstands` row gives that account's id, name, email and photo; otherwise the claims' own id and name |
| Board.ProfileFallbacks | controller/vorstand.controller.js:199-249 | any matching board row wins over the `vorstands` table; a `userType` other than "vorstand" without a board row falls back to the claims |
| Board.UpdateProfileRule | controller/vorstand.controller.js:258-312 | exactly no claims or a failing conversion is 500 with no change; otherwise 200 and the rows with the claims' id get the profile columns, whether or not such a row exists; keys stay sound |
| Board.UpdateProfileColumns | controller/vorstand.controller.js:281-304 | the own row gets the sent fields, the photo only from a non-empty upload, and keeps gender, password, role and flag; every other row is unchanged |
| Board.ProfileUpdateCanDuplicateName | controller/vorstand.controller.js:281-304 | a profile update can give a member the user name of another member, so unique names are not preserved |
| Board.ChangePasswordRule | controller/vorstand.controller.js:314-335 | 403 unless the string `userType` is "vorstand" (500 without claims); 400 for a falsy id or password; 200 exactly otherwise, with only the password of the id's rows replaced by the hash |
| Board.FirstInvalid | controller/vorstand.controller.js:347-351 | None exactly when every entry is a non-null object with a truthy id and password; 500 exactly when the first bad entry is a null one; otherwise 400 |
| Board.FirstInvalidShift | controller/vorstand.controller.js:347-351 | past a complete first entry, "a null entry comes before any other bad one" holds of the list exactly when it holds of its tail |
| Board.FirstInvalidStep | controller/vorstand.controller.js:347-351 | a complete first entry does not decide the validation outcome |
| Board.Repassword | controller/vorstand.controller.js:354-359 | the bulk update keeps the number of rows |
| Board.LastFor | controller/vorstand.controller.js:354-359 | the last entry naming a row id, or None exactly when no entry names it |
| Board.ChangeManyRule | controller/vorstand.controller.js:337-366 | 200 exactly when `updates` is a non-empty array of complete entries, and then every entry's update is applied in order; a non-array or empty `updates` gives 400, otherwise the first bad entry gives `FirstInvalid`'s code (500 for a null entry, else 400), each with no change; keys stay sound |
| Board.RepasswordKeyed | controller/vorstand.controller.js:354-359 | the bulk update keeps ids unique and below the counter |
| Board.RepasswordRow | controller/vorstand.controller.js:354-359 | after the bulk update a row named by some entry carries the hash of the last such entry's password, any other row keeps its password, and no other column or id changes |
| Board.BoardStore.CreateVorstand | controller/vorstand.controller.js:26-120 | status and new store are those of `CreateRule`; the store stays sound |
| Board.CreateChecked | controller/vorstand.controller.js:70-115 | once role, fields and name pass, the photo step alone decides: its error answer with no change, or exactly one new row |
| Board.BoardStore.InsertChecked | controller/vorstand.controller.js:70-115 | once role, fields and name pass, status and new store are those of `CreateRule`; the store stays sound |
| Board.BoardStore.GetVorstandLogins | controller/vorstand.controller.js:145-168 | the refusal of the `includes` check without rows, else 200 and `Logins` of the table |
| Board.BoardStore.GetMyProfile | controller/vorstand.controller.js:194-255 | answers `ProfileOf` of the current store, 500 exactly when there is no profile |
| Board.BoardStore.UpdateMyProfile | controller/vorstand.controller.js:258-312 | status and new store are those of `UpdateProfileRule` |
| Board.BoardStore.ChangePasswordByVorstand | controller/vorstand.controller.js:314-335 | status and new store are those of `ChangePasswordRule` |
| Board.BoardStore.ChangeMultiplePasswords | controller/vorstand.controller.js:337-366 | the checking loop and the update loop together give status and store of `ChangeManyRule` |
| Board.CheckRequired | controller/vorstand.controller.js:54-59 | true exactly when all eleven required fields are truthy |
| Board.RequiredByIndex | controller/vorstand.controller.js:54-59 | the required fields are present exactly when each of the eleven, by position, is truthy |
| Board.ConvertPhoto | controller/vorstand.controller.js:74-91 | computes `PhotoOf` |
| Board.CheckUpdates | controller/vorstand.controller.js:347-351 | the loop returns `FirstInvalid` of the entries |
| Board.CheckedStep | controller/vorstand.controller.js:347-351 | a complete entry extends the checked prefix and leaves the outcome to the rest of the list |
| Links.HasSectionId | controller/links.controller.js:201-204 | an id string that finds a section reads as that section's integer id |
| Links.NewLinks | controller/links.controller.js:47 | one link row per element, in order, each in the new section with the element's text and url |
| Links.CreateSectionRule | controller/links.controller.js:23-59 | refused role is 403/500 with no change; a falsy subtitle is 400 with no change; 201 exactly when the links array has no null element, with one new section and one new link per element; a null element is 500 with the section inserted and no link; keys and section references stay sound |
| Links.LinkViews | controller/links.controller.js:63-82 | one listed link per row, in order, with its id, text, url and position |
| Links.Listing | controller/links.controller.js:63-82 | one entry per section, in table order |
| Links.ListingAscending | controller/links.controller.js:63-82 | sections are listed by ascending id, and each section's links by ascending id |
| Links.LinkListedInItsSection | controller/links.controller.js:63-82 | a link is listed under a section exactly when its `section_id` is that section's id |
| Links.UpdateSectionTitleRule | controller/links.controller.js:84-112 | refusal, 400 for a falsy subtitle, 404 exactly when no section has the id, each with no change; otherwise (role, subtitle and section present) 200 and only that section's subtitle changes |
| Links.AddLinkRule | controller/links.controller.js:114-150 | refusal, 400 for a falsy text or url, 404 without the section, each with no change; 201 exactly otherwise, with one new link in that section |
| Links.UpdateLinkRule | controller/links.controller.js:152-183 | refusal, 400 for a falsy text or url, 404 exactly when no link has the id, each with no change; otherwise 200 and text and url of that link are replaced |
| Links.UpdateLinkChangesOne | controller/links.controller.js:152-183 | a successful update replaces exactly one row, the link with the id, and no other |
| Links.SentIds | controller/links.controller.js:215 | every truthy id of the entries is kept, and only truthy ones |
| Links.Unsent | controller/links.controller.js:218 | an existing id is to be deleted exactly when that number is not among the sent ids |
| Links.ReviseKeeps | controller/links.controller.js:225-237 | the loop never moves a link to another section or changes its position |
| Links.ReviseUnnamed | controller/links.controller.js:225-237 | a link no entry names keeps its text and url |
| Links.ReviseAppend | controller/links.controller.js:225-237 | revising by two runs of entries is revising by the first, then by the second |
| Links.ReviseByLast | controller/links.controller.js:225-237 | the last entry naming a link decides its text and url |
| Links.ReplayShape | controller/links.controller.js:225-237 | the loop keeps the rows it starts with in place, each revised by the entries naming it, and appends the new links with fresh ids in the section |
| Links.StepSuffix | controller/links.controller.js:225-237 | one pass leaves rows with ids the entry does not name as they are and appends what it adds |
| Links.ReplayAdds | controller/links.controller.js:231-236 | when every sent id belongs to an existing link, the new rows are exactly the id-less entries with text and url, in order |
| Links.ReplaySound | controller/links.controller.js:225-237 | the loop keeps ids unique and every link in a handed-out section |
| Links.EditSectionRule | controller/links.controller.js:185-245 | refusal, or 404 exactly when the section is missing, with no change; for an existing section and the role, 500 exactly when `links` is an array with a null or undefined entry, otherwise 200; a truthy subtitle is written on 200 and on that 500; only a `links` array on 200 touches the links, and then they are `EditLinks` of the old ones; keys stay sound |
| Links.EditLinksSound | controller/links.controller.js:212-238 | delete and loop keep the link table keyed and referenced |
| Links.Doomed | controller/links.controller.js:213-222 | a row is deleted exactly when it is a link of the section whose id was not sent |
| Links.EditDropsUnsent | controller/links.controller.js:213-222 | an unsent link of the section is gone after the edit |
| Links.EditRevisesRest | controller/links.controller.js:225-237 | every other link stays, with the updates of the entries naming it |
| Links.EditSectionMembers | controller/links.controller.js:212-238 | after the edit each link of the section was sent or is new |
| Links.EditSectionLinks | controller/links.controller.js:185-245 | after a successful edit with links: unsent links of the section are gone, every other link stays revised, and the section holds only sent or new links |
| Links.EditLinksEffect | controller/links.controller.js:212-238 | the effect of the delete and the loop on the link table alone, as in `EditSectionLinks` |
| Links.EditAdds | controller/links.controller.js:231-236 | when every sent id is an existing one, the rows added by the edit are the id-less entries with text and url |
| Links.Reordered | controller/links.controller.js:280-283 | the position updates keep the number of rows |
| Links.LastIndex | controller/links.controller.js:280-283 | the last index naming an id, or None exactly when none does |
| Links.ReorderPositions | controller/links.controller.js:272-290 | a listed link ends at the position of the last index naming it plus one, an unlisted one keeps its position; no other column changes |
| Links.ReorderDistinct | controller/links.controller.js:280-281 | when a link is listed once, at index i, its position becomes i + 1 |
| Links.ReorderRule | controller/links.controller.js:272-290 | 200 exactly for a non-empty `linkOrder` array, with the position updates; otherwise 400 and no change |
| Links.ReorderedSound | controller/links.controller.js:280-283 | the updates keep ids unique and section references valid |
| Links.DeleteSectionRule | controller/links.controller.js:293-315 | after the role check the section's links and the section are deleted; 404 exactly when no section had the id, with its links deleted all the same |
| Links.DeleteSectionLeavesNoLinks | controller/links.controller.js:305 | after `deleteSection` no link of that section is left |
| Links.DeleteLinkRule | controller/links.controller.js:318-340 | refusal as in every handler; 404 exactly when no link had the id, with no change; otherwise only the rows with that id are removed |
| Links.LinkStore.CreateSectionWithLinks | controller/links.controller.js:23-59 | status and new store are those of `CreateSectionRule`, and the returned id is the new section's |
| Links.LinkStore.GetAllSectionsWithLinks | controller/links.controller.js:63-82 | 200 with `Listing` of the store |
| Links.LinkStore.UpdateSectionTitle | controller/links.controller.js:84-112 | status and new store are those of `UpdateSectionTitleRule` |
| Links.LinkStore.AddLinkToSection | controller/links.controller.js:114-150 | status and new store are those of `AddLinkRule` |
| Links.LinkStore.UpdateSingleLink | controller/links.controller.js:152-183 | status and new store are those of `UpdateLinkRule` |
| Links.LinkUpdated | controller/links.controller.js:167-176 | once the checks pass, the answer is 404 exactly when the UPDATE matched no row and 200 otherwise, with the links as the UPDATE leaves them |
| Links.LinkStore.EditSectionWithLinks | controller/links.controller.js:185-245 | status and new store are those of `EditSectionRule` |
| Links.LinkStore.ReviseLinks | controller/links.controller.js:213-237 | the delete and the loop leave the link table `EditLinks` of the old one, sections untouched |
| Links.LinkStore.RunLinks | controller/links.controller.js:225-237 | the loop leaves the link table `Replay` of the old one, sections untouched |
| Links.LinkStore.ReorderLinks | controller/links.controller.js:272-290 | status and new store are those of `ReorderRule` |
| Links.LinkStore.DeleteSection | controller/links.controller.js:293-315 | status and new store are those of `DeleteSectionRule` |
| Links.SectionDeleted | controller/links.controller.js:305-308 | with the role, the section's links and the section are deleted; 404 exactly when no section row was removed |
| Links.LinkStore.DeleteLink | controller/links.controller.js:318-340 | status and new store are those of `DeleteLinkRule` |
| Js.NatToString | controller/event.controller.js:55 | the decimal digits of a number, reading back as that number |
| Js.SqlInt | controller/event.controller.js:264 | a number is its own integer; a string is one exactly when it is non-empty decimal digits, then their value; anything else matches no INT column |
| Js.SqlIntOfDecimal | controller/event.controller.js:264 | the decimal string of a number reads back as that number |
| Js.JsonCopy | controller/event.controller.js:361-364 | `JSON.parse(JSON.stringify(v))` keeps arrays arrays and objects objects |
| Js.JsonCopyIdempotent | controller/event.controller.js:385-387 | a value that has been through JSON once comes back unchanged, so the stored registration data reads back as stored |
| Js.TrimStart | controller/newsletter.controller.js:201-203 | a suffix of the string that starts with no white space or line terminator, and everything removed before it is white space or a line terminator |
| Js.TrimEnd | controller/newsletter.controller.js:201-203 | a prefix of the string that ends with no white space or line terminator, and everything removed after it is white space or a line terminator |
| Js.ToLower | controller/newsletter.controller.js:203 | every character lowercased, the length kept |
| DataUri.Span | controller/event.controller.js:55 | the longest prefix inside the subtype's character class: every character before it is in the class, the next one is not |
| DataUri.Parse | controller/event.controller.js:55 | a match yields well-formed parts (an `image/` type over the class, a non-empty payload without line terminators) that render back to the input |
| DataUri.RenderOfSplit | controller/event.controller.js:55 | the parts cut out of a string at the pattern's delimiters render back to it |
| DataUri.SpanOfClassPrefix | controller/event.controller.js:55 | the class run of a string stops exactly where its first character outside the class is |
| DataUri.ParseRender | controller/vorstand.controller.js:76 | every well-formed data URI matches and gives back its own parts, so a string matches exactly when it renders well-formed parts |
| DataUri.RenderSlices | controller/vorstand.controller.js:76 | where the prefix, the MIME subtype, the `;base64,` separator and the payload sit in a rendered data URI |
| DataUri.CheckEventImage | controller/event.controller.js:52-68 | an event image is accepted exactly when `String(bild)` renders a data URI with the wide subtype class whose lowercased MIME type is one of the four allowed; the payload is the URI's own |
| DataUri.CheckMemberPhoto | controller/vorstand.controller.js:76-88 | a board photo is accepted exactly when it renders a data URI with a letters-only subtype whose MIME type, as written, is one of the four allowed |
| DataUri.ParsesUpperCase | controller/event.controller.js:55 | an upper-case subtype matches both patterns |
| DataUri.EventAcceptsUpperCase | controller/event.controller.js:59-61 | the event check accepts `image/PNG`, since it lowercases first |
| DataUri.MemberRefusesUpperCase | controller/vorstand.controller.js:81-88 | the board-member check refuses the same URI, since it compares the type as written |
| EventData.Expire | controller/event.controller.js:108 | after the expiry UPDATE no picked event that is over is still active; rows not picked, not over or not active stay as they were; only `status` ever changes |
| EventData.ExpireRow | controller/event.controller.js:108 | the id and every column but `status` stay; the row changes exactly when it is picked, over and active, and then becomes `beendet` |
| EventData.ExpireKeyed | controller/event.controller.js:108 | the expiry keeps the table keyed |
| EventData.ExpireIdempotent | controller/event.controller.js:108 | running the expiry twice at one time is running it once |
| EventData.Tiers | controller/event.controller.js:82-84 | at most one tier row per sent entry, all under the event's id |
| EventData.KeepsTier | controller/event.controller.js:83 | a null or undefined entry is dropped; a truthy entry with a defined `kosten` is kept; a kept entry without a truthy description has a defined `kosten` |
| EventData.TierRow | controller/event.controller.js:84 | the row is under the event's id; its price is never null, and is the sent one when that is not null; its description is the sent one when truthy, else null |
| EventData.TiersAppend | controller/event.controller.js:82-84 | the tiers of two runs of entries are those of the first, then those of the second: the filter keeps input order |
| EventData.TiersSingle | controller/event.controller.js:83-84 | an entry is kept exactly when it is truthy and has a description or a defined price; a missing or null price becomes 0 |
| EventData.PriceRows | controller/event.controller.js:81-88 | no tiers unless `preise` is an array; otherwise its kept tiers |
| Events.ImageOf | controller/event.controller.js:52-68 | no image is no change; a refused format or type is 400; an accepted one is the conversion's PNG, or 500 when it throws |
| Events.CreateEventRule | controller/event.controller.js:39-103 | 403 without the role, 400 for a falsy required field, the image's 400/500, each with no change; 201 exactly otherwise, with one new active event and its kept tiers under its id, nothing else changed; keys stay sound |
| Events.HasRequired | controller/event.controller.js:48-50 | passing means all five required keys are in the body |
| Events.NewEvent | controller/event.controller.js:73-77 | status `aktiv`; the five text and time columns as sent; the image NULL exactly when none was converted; `bildtitel` truthy or null; the flags 1 exactly when truthy, else 0 |
| Events.CreatedOutcome | controller/event.controller.js:70-91 | once every check passes, the answer is 201 with the committed tables |
| Events.CreatedEventShape | controller/event.controller.js:73-88 | a created event is active, has its flags as 1 or 0, and has exactly the kept tiers, in input order, under its own id |
| Events.UpdateEventRule | controller/event.controller.js:198-256 | 403 without the role, the image's 400/500, 400 when nothing is to be set, each with no change; otherwise 200 and the rows with the id are rewritten by the SET items, even when no row has it |
| Events.UpdatedOutcome | controller/event.controller.js:243-247 | once the checks pass and there is something to set, the answer is 200 with the UPDATE applied |
| Events.UpdateEventColumns | controller/event.controller.js:212-245 | the row with the id has each sent column (flags as 1 or 0), `bild` only from a converted image, the rest as before; every other row is unchanged |
| Events.DeleteEventRule | controller/event.controller.js:258-271 | 403 without the role; 404 exactly when no event had the id, with no change; otherwise only that event row is removed, and its tiers, fields and registrations stay |
| Events.CreateFormFieldsRule | controller/event.controller.js:273-313 | 403, or 400 without a truthy `eventId` and an array `felder`, with no change; otherwise the event's fields are deleted, then the new ones inserted (201); a non-empty `felder` with a null element, or a non-integer id, is 500 with the old fields of the event deleted and nothing inserted; any other request with the role, a truthy `eventId` and an array `felder` is 201 |
| Events.FormReplaceKeepsOthers | controller/event.controller.js:284-305 | whatever the outcome, the fields of every other event stay as they were |
| Events.NewFieldsBelong | controller/event.controller.js:302-305 | the inserted fields all belong to the event, so the other events' fields are the rows that stayed |
| Events.FormReadBack | controller/event.controller.js:273-336 | after a successful `createFormFields`, `getFormFields` for the same event answers exactly the sent fields, in order, each with its new id, name, type or "text", boolean `pflicht` and options or `[]` |
| Events.ReadBackAfter | controller/event.controller.js:284-329 | after the delete left none of the event's fields, the inserted list (or none) reads back exactly as sent |
| Events.InsertedRead | controller/event.controller.js:302-329 | fields appended after a delete that left none of the event's are read back as sent |
| Events.ClearedHasNone | controller/event.controller.js:285 | after the delete no field of an event with the same integer id is left |
| Events.AddedRead | controller/event.controller.js:288-329 | the inserted fields read back as sent |
| Events.RegisterRule | controller/event.controller.js:338-371 | 400 exactly when `daten` is not a truthy object or a required field is missing; otherwise 201 for an integer event id, with the registration stored as its JSON round trip, and 500 with no change for any other id; the event is not looked up |
| Events.RegistrationListed | controller/event.controller.js:361-395 | an accepted registration is later listed with its whole data |
| Events.EventStore.CreateEvent | controller/event.controller.js:39-103 | status and new tables are those of `CreateEventRule`; the answered id is the new event's |
| Events.EventStore.Commit | controller/event.controller.js:70-90 | the transaction leaves the tables `Created` from the old ones |
| Events.EventStore.TierRows | controller/event.controller.js:81-87 | computes `PriceRows` |
| Events.EventStore.GetEvents | controller/event.controller.js:105-149 | the expiry over all events, no other change, and 200 with one object per event in id order, each with exactly its tiers |
| Events.EventStore.Listing | controller/event.controller.js:110-144 | the grouped join lists each event with exactly its tiers, in id order |
| Events.EventStore.GetEventById | controller/event.controller.js:151-196 | the expiry for that id, no other change; 404 exactly when no event has the id, else 200 with that event and exactly its tiers |
| Events.EventStore.UpdateEvent | controller/event.controller.js:198-256 | status and new tables are those of `UpdateEventRule` |
| Events.EventStore.Apply | controller/event.controller.js:243-245 | the UPDATE leaves the tables `UpdatedDb` of the old ones |
| Events.EventStore.UpdatePlan | controller/event.controller.js:209-237 | the image step is `ImageOf`, and after a converted image the items are `Plan` of the body |
| Events.EventStore.ConvertImage | controller/event.controller.js:52-68 | computes `ImageOf` |
| Events.EventStore.DeleteEvent | controller/event.controller.js:258-271 | status and new tables are those of `DeleteEventRule` |
| Events.EventStore.CreateFormFields | controller/event.controller.js:273-313 | status and new tables are those of `CreateFormFieldsRule` |
| Events.EventStore.GetFormFields | controller/event.controller.js:315-336 | 200 with the event's fields in table order |
| Events.EventStore.RegisterForEvent | controller/event.controller.js:338-371 | status and new tables are those of `RegisterRule`; a name is reported exactly on the 400 of a missing required field, and it is the `feldname` of the first such field in table order |
| Events.EventStore.GetRegistrations | controller/event.controller.js:373-402 | 403 exactly without the role; otherwise 200 with the event's registrations, newest first |
| Events.CollectEvent | controller/event.controller.js:166-189 | the header from the first row with the tiers of every row whose `preis_id` is set |
| Events.ByIdRows | controller/event.controller.js:156-164 | the join for an id is empty exactly when no event has it; otherwise it is that event's rows and yields its view with exactly its tiers |
| Events.ByIdRowsAt | controller/event.controller.js:156-162 | the join for the id of an existing event is that event's rows alone |
| EventUpdate.ColumnAt | controller/event.controller.js:212-220 | one of the nine body columns, never the image |
| EventUpdate.Index | controller/event.controller.js:212-220 | the position of a body column in the order the handler tests them, the inverse of `ColumnAt` |
| EventUpdate.Set | controller/event.controller.js:244 | one `column = ?` item sets that column and no other |
| EventUpdate.Sent | controller/event.controller.js:212-220 | at most one item per tested column |
| EventUpdate.Items | controller/event.controller.js:209-244 | the `fields` list: one `column = ?` per item, in order |
| EventUpdate.Params | controller/event.controller.js:210-243 | the `params` list: one parameter per item, in the same order as the `fields` |
| EventUpdate.SentItems | controller/event.controller.js:212-220 | the nine pushes give exactly the items of the columns whose body value is not undefined, in column order |
| EventUpdate.PushIfSent | controller/event.controller.js:212-220 | one push appends the item of a column exactly when its value is not undefined, the flags as 1 or 0 |
| EventUpdate.ApplyAllGet | controller/event.controller.js:244-245 | after the statement a column holds the value of the last item naming it, else its old value |
| EventUpdate.LastValueAppend | controller/event.controller.js:244-245 | the last assignment over two item lists is the last over the second, starting from the first's |
| EventUpdate.SentValue | controller/event.controller.js:212-220 | a body column among the first k gets its sent parameter exactly when it was sent |
| EventUpdate.UpdateSetsOnlySent | controller/event.controller.js:212-245 | `updateEvent` sets exactly the sent columns (flags as 1 or 0, `status` as sent), `bild` only to a converted image, and leaves every other column as it was |
| EventUpdate.SentEmpty | controller/event.controller.js:212-220 | the first k columns give no item exactly when none of them is sent |
| EventUpdate.PlanEmpty | controller/event.controller.js:239-241 | there is nothing to update exactly when no body column is sent and no image was converted |
| EventListing.ImageUrl | controller/event.controller.js:129 | a stored image is answered as a PNG data URI around it, a missing one as null |
| EventListing.View | controller/event.controller.js:121-133 | the answered object carries the event's id and columns, the flags as booleans, the image through `ImageUrl`, and the given price list |
| EventListing.PricesOfEvent | controller/event.controller.js:110-116 | at most one entry per tier row |
| EventListing.JoinOne | controller/event.controller.js:113-114 | a LEFT JOIN gives every event at least one row |
| EventListing.LeftJoin | controller/event.controller.js:110-116 | at least one joined row per event |
| EventListing.GroupRows | controller/event.controller.js:118-142 | the grouping loop builds exactly `Group` of the joined rows |
| EventListing.GroupStep | controller/event.controller.js:119-142 | one turn of the loop changes only the row's event's entry: a header is created on its first row, then the row's tier is pushed when `preis_id` is set |
| EventListing.Group | controller/event.controller.js:119-142 | after the loop the last row's event always has an entry |
| EventListing.PricesFor | controller/event.controller.js:135-141 | at most one pushed tier per row |
| EventListing.GroupKeys | controller/event.controller.js:118-134 | the grouped object has an entry for an id exactly when some joined row has that event id |
| EventListing.PricesForNone | controller/event.controller.js:135-141 | no tier is collected for an event without rows |
| EventListing.GroupEntry | controller/event.controller.js:118-142 | each entry is the header of its event with the tiers of exactly its rows whose `preis_id` is set, in row order |
| EventListing.PricesForAppend | controller/event.controller.js:135-141 | the tiers collected over two runs of rows are those of the first, then those of the second |
| EventListing.PricesForSingle | controller/event.controller.js:135-141 | one row adds its tier exactly when it is of the event and `preis_id` is set |
| EventListing.JoinPricesMatch | controller/event.controller.js:113-114 | the joined tier rows of an event correspond one to one, in order, to its tiers |
| EventListing.JoinOneMatch | controller/event.controller.js:113-114 | the tiers collected from an event's joined rows are exactly its tiers, and every such row carries the event |
| EventListing.JoinPricesEvent | controller/event.controller.js:113-114 | every joined tier row carries its event |
| EventListing.EventsOf | controller/event.controller.js:110-116 | the event of each joined row, in order |
| EventListing.LeftJoinFrom | controller/event.controller.js:113-114 | every joined row carries one of the events |
| EventListing.LeftJoinCovers | controller/event.controller.js:113-114 | every event has a joined row |
| EventListing.LeftJoinConsistent | controller/event.controller.js:113-114 | with unique event ids, the joined rows of one id carry one and the same event |
| EventListing.LeftJoinPrices | controller/event.controller.js:110-142 | the tiers the loop collects for an event are exactly that event's tiers |
| EventListing.MinExists | controller/event.controller.js:144 | a non-empty set of ids has a least element |
| EventListing.SortedKeys | controller/event.controller.js:144 | the integer keys of the object in ascending order, exactly the set's elements |
| EventListing.AscendingSplit | controller/event.controller.js:144 | in an ascending sequence the head is the least element and the tail holds all others |
| EventListing.AscendingSameElements | controller/event.controller.js:144 | two strictly ascending sequences with the same elements are equal |
| EventListing.SortedKeysUnique | controller/event.controller.js:144 | an ascending sequence with exactly the set's elements is its key order |
| EventListing.ObjectValues | controller/event.controller.js:144 | `Object.values` lists the entries in ascending key order |
| EventListing.ListingKeys | controller/event.controller.js:110-144 | the grouped object has exactly one key per event |
| EventListing.ListingEntry | controller/event.controller.js:110-144 | each event's entry is its view with exactly its tiers |
| EventListing.ListingShowsEveryEvent | controller/event.controller.js:105-149 | `getEvents` answers exactly one object per event, in id order, each with exactly that event's tiers in table order |
| EventForms.FeldOf | controller/event.controller.js:288-300 | the stored field keeps the sent name, the type or "text", `pflicht` as 1 or 0, and options exactly for a "select" sent with an array, as that array's JSON round trip |
| EventForms.FelderOf | controller/event.controller.js:288-300 | one stored field per sent field, in order |
| EventForms.Views | controller/event.controller.js:323-329 | one answer per stored field, in table order |
| EventForms.ViewOf | controller/event.controller.js:323-329 | id, name and type as stored; `pflicht` as a boolean; the stored options, or an empty array when there are none |
| EventForms.ReadBackField | controller/event.controller.js:288-329 | reading back a stored field gives the sent name, the type or "text", whether `pflicht` was truthy, and the select options as sent through JSON, else `[]` |
| EventForms.FirstMissing | controller/event.controller.js:354-358 | None exactly when no required field is left out or empty; otherwise the index of the first field, in table order, that is |
| EventForms.Missing | controller/event.controller.js:355 | a field is missing only when it is required and its value in `daten` is falsy |
| EventForms.FindMissing | controller/event.controller.js:354-358 | the loop stops at `FirstMissing` of the fields |
| EventForms.FirstMissingIs | controller/event.controller.js:354-358 | a missing field with none missing before it is the first missing one |
| EventForms.ExtraKeysAllowed | controller/event.controller.js:354-358 | a key that names no field of the form never changes the check |
| EventForms.FirstMissingSame | controller/event.controller.js:354-358 | two registrations that miss the same fields get the same answer |
| EventForms.NullCountsAsFilled | controller/event.controller.js:355 | a required field sent as null passes the check, since only `undefined` and `""` count as missing |
| EventForms.RegistrationViews | controller/event.controller.js:385-395 | one answer per registration, in order, with the stored data and `vorname`/`nachname` lifted out or null |
| EventForms.RegistrationViewOf | controller/event.controller.js:385-395 | id, `daten` and `created_at` as stored; `vorname` and `nachname` taken from `daten` when truthy, else null |
| Newsletter.Payload | controller/newsletter.controller.js:59-65 | a payload exactly for a truthy string matching the letters-only data-URI pattern, whatever its image type; it is the URI's own payload |
| Newsletter.SectionImage | controller/newsletter.controller.js:60-76 | "" exactly when there is no matching photo or the conversion throws; otherwise the converted PNG as a data URI |
| Newsletter.ImageIsPngOrEmpty | controller/newsletter.controller.js:60-76 | every stored section image is empty or a PNG data URI, whatever was sent |
| Newsletter.AnyImageTypeConverted | controller/newsletter.controller.js:64-71 | any well-formed image data URI, of any type, goes to the converter: there is no type allow-list here |
| Newsletter.NewSections | controller/newsletter.controller.js:56-82 | one section row per sent section, in order |
| Newsletter.NewSectionsSnoc | controller/newsletter.controller.js:56-82 | storing one more section is one more insert |
| Newsletter.FirstNullish | controller/newsletter.controller.js:56-57 | None exactly when no section is null or undefined; otherwise the first such index |
| Newsletter.FirstNullishIs | controller/newsletter.controller.js:56-57 | a null section with none before it is the first one |
| Newsletter.CreateRule | controller/newsletter.controller.js:41-89 | 400 exactly for a falsy title or date or an empty or missing `sections` array, with no change; otherwise the issue is stored, and 201 with every section exactly when none is null, else 500 with the sections before the first null one |
| Newsletter.Views | controller/newsletter.controller.js:109 | one answer per section row, in order |
| Newsletter.GetByIdRule | controller/newsletter.controller.js:103-115 | 404 exactly when no issue has the id; otherwise an issue with the id and its sections in id order |
| Newsletter.CreatedReadBack | controller/newsletter.controller.js:41-115 | after a successful `create`, `getById` with the new id gives the issue as sent and exactly its sections, in the order sent |
| Newsletter.IssueReadBack | controller/newsletter.controller.js:49-53 | the first issue with the new id is the one just inserted |
| Newsletter.SectionsReadBack | controller/newsletter.controller.js:78-81 | sections inserted after rows of older issues read back as sent |
| Newsletter.SubscribeRule | controller/newsletter.controller.js:118-146 | 400 exactly for a falsy name or email or an opt-in that is not `true`, with no change; a listed email has all its rows reactivated with the new token; otherwise one active row is added |
| Newsletter.SubscribeActivates | controller/newsletter.controller.js:124-139 | a row is added only for an unlisted email; afterwards every row of that email is active with the new token and opt-in 1; rows of other emails are unchanged |
| Newsletter.SubscribeKeepsEmailsUnique | controller/newsletter.controller.js:124-139 | sign-ups alone never list an email twice |
| Newsletter.UnsubscribeRule | controller/newsletter.controller.js:149-165 | 400 exactly for a falsy token or an already opted-out row, 404 exactly for an unknown token, each with no change; otherwise that row, by id, gets `unsubscribed_at` |
| Newsletter.UnsubscribeChangesOne | controller/newsletter.controller.js:154-159 | a successful opt-out changes exactly one row, the first with the token, and only its `unsubscribed_at` |
| Newsletter.UnsubscribeTwice | controller/newsletter.controller.js:157 | opting out twice with one token is refused the second time |
| Newsletter.SubscriberList | controller/newsletter.controller.js:168-183 | one entry per subscriber, newest sign-up first, "aktiv" exactly when not opted out |
| Newsletter.SubscriberListComplete | controller/newsletter.controller.js:171-177 | no subscriber is left out of the list |
| Newsletter.Trimmed | controller/newsletter.controller.js:201-203 | `(v \|\| '').trim()`: "" for a falsy value, exactly `Trim` of the string for a string, and a throw (None) for any other truthy value; the result has no white space at either edge |
| Newsletter.EntryOf | controller/newsletter.controller.js:200-203 | an entry throws exactly when it is null or undefined or one of its fields is a truthy non-string; otherwise `vorname` and `nachname` are the trimmed fields and `email` the trimmed field lowercased |
| Newsletter.LowerKeepsEdges | controller/newsletter.controller.js:203 | lowercasing leaves no upper-case letter and keeps a trimmed string trimmed |
| Newsletter.ParsedSnoc | controller/newsletter.controller.js:200-203 | the entries normalised so far, one more |
| Newsletter.ThrowingEntry | controller/newsletter.controller.js:200-203 | one throwing entry makes the import throw |
| Newsletter.ImportStep | controller/newsletter.controller.js:204-220 | one entry keeps the rows' ids, counts exactly what it reactivates or queues, and queues at most its own fresh row |
| Newsletter.Entries | controller/newsletter.controller.js:200-203 | the normalised entries, one per sent entry |
| Newsletter.ImportAll | controller/newsletter.controller.js:200-221 | the loop keeps the rows' ids and counts exactly the reactivated and queued entries |
| Newsletter.ImportAllSnoc | controller/newsletter.controller.js:200-221 | one more entry is one more step, with the next token |
| Newsletter.ImportRule | controller/newsletter.controller.js:186-242 | 400 exactly without a non-empty array; 500 exactly when an entry throws, rolled back; otherwise the loop's updates and one insert of the queued rows, and the count of both |
| Newsletter.ImportNormalises | controller/newsletter.controller.js:200-220 | every queued row is normalised |
| Newsletter.ImportedRowsNormalised | controller/newsletter.controller.js:223-228 | every row a successful import inserts has trimmed non-empty names, a trimmed non-empty lower-case email, and is active with opt-in 1 |
| Newsletter.StepNormalises | controller/newsletter.controller.js:216-219 | one step queues only normalised rows |
| Newsletter.ActiveEntryIgnored | controller/newsletter.controller.js:207-215 | an entry whose email is listed and active changes nothing and is not counted |
| Newsletter.RevivedEntryActive | controller/newsletter.controller.js:208-214 | after a reactivating entry every row of its email is active, and it is counted once |
| Newsletter.RepeatedNewEmailQueuedTwice | controller/newsletter.controller.js:206-220 | the lookup does not see the queue: a new email sent twice in one import is queued, and counted, twice |
| Newsletter.ImportEntry | controller/newsletter.controller.js:204-220 | the loop body for one entry is `ImportStep` |
| Newsletter.ImportLoop | controller/newsletter.controller.js:200-221 | the loop fails exactly when an entry throws, and otherwise ends with the rows, queue and count of `ImportAll` |
| Newsletter.NewsletterStore.Create | controller/newsletter.controller.js:41-89 | status and new tables are those of `CreateRule`; the answered id is the new issue's, exactly on 201 |
| Newsletter.NewsletterStore.AddSections | controller/newsletter.controller.js:56-82 | the section loop fails exactly at a null section, and stores every section before it |
| Newsletter.NewsletterStore.GetById | controller/newsletter.controller.js:103-115 | answers `GetByIdRule`, 404 exactly when nothing is found |
| Newsletter.NewsletterStore.Subscribe | controller/newsletter.controller.js:118-146 | status and new tables are those of `SubscribeRule` |
| Newsletter.NewsletterStore.Unsubscribe | controller/newsletter.controller.js:149-165 | status and new tables are those of `UnsubscribeRule` |
| Newsletter.NewsletterStore.GetAllSubscribers | controller/newsletter.controller.js:168-183 | 200 with `SubscriberList` of the tables |
| Newsletter.NewsletterStore.ImportSubscribers | controller/newsletter.controller.js:186-242 | status, new tables and count are those of `ImportRule` |
| Newsletter.ImportCommitted | controller/newsletter.controller.js:206-228 | when every entry parses, the import answers 200 with the loop's rows updated, its queue inserted and its count |

## Left out

- JWT verification and signing: `authenticateToken` and the `jwt.sign`/`jwt.verify` calls are a foreign library. The decoded claims (`req.user`) are an input value, and so is the payload that `resetPassword` decodes (controller/passwordReset.controller.js:67-74, 124).
- `jwt` without a `require`: controller/newsletter.controller.js:30 and controller/mailkontakt.controller.js:11 name `jwt` but never import it. The model treats the claims as already decoded, so this failure path is not modelled.
- Image processing with `sharp` and `Buffer`: this is binary work done by a foreign library. It is the parameter `convert`, where `None` stands for the library throwing (answered with 500). Only the data-URI prefix and MIME checks are modelled.
- bcrypt hashing and `crypto.randomBytes` tokens: these are foreign and random. The hash and the fresh token are parameters of the handlers. bcrypt's own rejection of a non-string password is not modelled.
- Mail sending: nodemailer transports, `sendMail` and the start-up `verify` call are I/O. In `requestReset` the outcome of the send is the parameter `mailSent`. The newsletter controller sets up a transporter but never sends.
- Transactions and connections: `beginTransaction`, `commit`, `rollback` and `release` are modelled by their effect. A transaction that fails leaves the tables as they were. The `Promise.all` fan-out in `reorderLinks` and `changeMultiplePasswords` runs each update in list order. Duplicate ids in `linkOrder` would race; the model gives the last position to win.
- `getNextEventId` (controller/event.controller.js:405-418) reads database metadata (`information_schema`), which the model has no counterpart for.
- Bootstrap and wiring are not part of this model: database/index.js, index.js and routes/*.js. Three wiring effects therefore escape the model:
  - the route shadowing of `/next-id` and `/reorder` by `/:id`;
  - handler names in routes/postkontakt.router.js that the controller lacks;
  - the anfrage routes mounting no authentication middleware.

  `createFormFields` reads `eventId` from the body, and the model does the same.
- controller/logo.controller.js is not part of this model: it is a single read with no logic.
- `getVorstand`, `getVorstandFotos` and the newsletter `getAll` are plain projections of a `SELECT`. They are not modelled. The newsletter `created_at` column they order by is not modelled either.
- Request bodies are maps from keys to `Js.Value`. Multipart parsing (`req.file`) is an input value. SQL parameter escaping and column types are not modelled.
- `Js.SqlInt`: MySQL's coercion of a parameter to an integer column is modelled only for numbers and digit strings. Any other value matches no row.
- Foreign keys are not modelled: `registerForEvent` and `createFormFields` accept an integer event id that names no event, and `deleteEvent` is never refused for dependent rows.
- JSON numbers are integers (`Js.Value.Num`). A fractional body value, such as an `eventId` or `position` of `1.5` that MySQL rounds when it stores it in an INT column, is not modelled.
- Times are integers in milliseconds, and `NOW()` is the `now` parameter. MySQL's parsing of a date string into a DATETIME column is not modelled: `EventData.Expired` holds only for a numeric `bis`, so a `bis` sent as a date string is stored as given and is never expired by the model. `kosten` is an opaque value stored as given, with no decimal arithmetic.
- Schema defaults are assumed where the code relies on them: `position` NULL, `passwort_geaendert` 0 and `used` 0.
- `ORDER BY created_at DESC` (`getRegistrations`), `ORDER BY erstellt_am DESC` (`getAnfragen`) and `ORDER BY subscribed_at DESC` (`getAllSubscribers`) are modelled by `Table.NewestFirst`: rows sorted by that column's value, descending, with ties left in table order. MySQL leaves the order of ties unspecified. The `ORDER BY e.von DESC` of `getEvents` does not reach the answer (see the last note).
- Queries without `ORDER BY` are modelled as returning rows in table (id) order, which MySQL does not guarantee. This fixes the order of `getFormFields` and of the field lookup in `registerForEvent` (event.controller.js:319, 349), and so which missing field is named first. It also fixes the tier lists inside `getEvents` and `getEventById` (111, 157) and the `rows[0]` the single-record handlers read and change.
- `Js.ToLower` folds ASCII letters only. MySQL's case-insensitive collation and UNIQUE constraints are not modelled, so emails and usernames compare exactly.
- `affectedRows` counts matched rows (MySQL reports changed rows unless `CLIENT_FOUND_ROWS` is set). The handlers use it only to tell "no such row" apart, and that distinction agrees.

## Notes

- `deleteEvent` deletes only the `events` row (controller/event.controller.js:264). The event's price tiers, form fields and registrations stay.
- `registerForEvent` stores `daten` whole, including keys the form does not define (controller/event.controller.js:361-364), and `getRegistrations` returns that full `daten` with `vorname` and `nachname` lifted out (controller/event.controller.js:385-395).
- There is no path for manually adding a registration in this code, and the model has none.
- `links.controller.js` defines `deleteLink` twice. The exported object keeps the second definition (controller/links.controller.js:318-340), and that is the one modelled.
- `importSubscribers` checks for existing emails only against rows present before the batch insert. A new email repeated within one batch is queued, and counted, twice.
- The `vorstand` table is read by two classes: `Board.BoardStore` and, for resetting a password, `PasswordReset.ResetStore`. Each holds its own copy.
- `registerForEvent` with an event id that is not an integer answers 500: MySQL cannot convert the parameter for the integer `event_id` column, so the `INSERT` fails (`Js.SqlInt` is None). `createFormFields` fails the same way after its `DELETE`.
- `updateMyProfile` does not check that a new username is unused, so two members can end up with the same name (`Board.ProfileUpdateCanDuplicateName`).
- `getEvents` answers its groups in ascending id order, because `Object.values` lists an integer-keyed object that way (controller/event.controller.js:118, 144). It does not answer in the SQL `von DESC` order, so the model claims no ordering by start time.
