# Admin console logic, modelled in Dafny

This project models the small, self-contained pieces of logic in an admin
console for users and classes. The console sits on top of an identity
provider (users and roles) and a class store:

- **`/api/users` route** (`users_api.dfy`). It turns the search query into
  optional, de-duplicated lists and picks the search mode. It creates users in
  a fail-soft batch that counts successes and failures and reports one detail
  line per attempt. It checks the user id before a deletion.
- **`/api/classes` route** (`classes_api.dfy`). It turns a stored class, whose
  id collections are optional sets, into its JSON reply. It applies the
  single-valued `class_id` check shared by GET and DELETE, and routes by the
  request method.
- **Role, module and metadata tables** (`auth0_schemas.dfy`). These are the
  default and ready module lists, the four roles, and the role-to-{name, id}
  table. They include the user-metadata rules (dates, trimmed non-empty ids
  and modules) and the role-check and roled-user shapes.
- **Batch "add users to a group" form** (`batch_add_users.dfy`,
  `email.dfy`). It reads a comma-separated email list in two ways: the
  validator's and the submit handler's. It guards against users already in the
  group and chooses the batch endpoint from role × group type. The submit
  handler's loading flag, field error, requests and notices are a class.
- **Class management page** (`manage_class.dfy`). It covers:
  - "modules to add", and adding and removing modules with re-sorting;
  - the module Save button, and the teacher and student lists;
  - the user-search URL built in a loop;
  - the capacity form's rules and the class-id search box;
  - the page state across reload, module save and capacity update.
- **Class creation form** (`create_class.dfy`). Its first render sorts the
  shared default-module array in place, modelled as an in-place sort on an
  `array`. It also covers module edits and the capacity check and payload of
  the submit handler.
- **Test harness's orchestrator helpers** (`api_test.dfy`). This is the test
  subclass of the task handler: clearing the queues, the revert stack, the
  error accumulator and the caches, and planting a failing procedure in the
  revert stack. It also covers unwinding the revert stack and the role-dependent
  payloads the tests create users with.

`text.dfy` holds the JavaScript string behaviour these rely on: `trim`,
`split` and `join` on one character, the default `sort` order,
`String(n)` and `Number(text)` for integers. `http.dfy` holds the query values
and method routing of a request.

Requests, identity-provider calls and store calls are not performed. Each one
is a parameter that says how the call ended: a `bool`, an outcome datatype,
or a function from the attempt number or key to the outcome. Objects whose
fields the source updates in place are classes with `modifies` clauses:
- the form and page states;
- the test handler, whose revert stack, queues, error messages and caches are
  `seq` and `map` fields.

Pure route and form logic is functions.

## Model

| member | source | states |
|---|---|---|
| Text.Trim | src/pages/api/users/index.ts:159 | `trim` removes whitespace only at the ends: the result is a slice of the input with whitespace-only text before and after it, and does not start or end with whitespace |
| Text.TrimIdempotent | src/components/batchAddUsersToGroup.tsx:100 | trimming twice is trimming once |
| Text.TrimEmptyIff | src/components/ManageClass.tsx:243-244 | the trimmed text is empty exactly when the text is all whitespace |
| Text.TrimOfTrimmed | src/pages/api/users/index.ts:159 | text with no whitespace at its ends is its own trim |
| Text.TrimAvoids | src/components/batchAddUsersToGroup.tsx:100 | trimming introduces no character |
| Text.TrimAll | src/components/batchAddUsersToGroup.tsx:100 | `map(s => s.trim())` trims each entry in place, same length |
| Text.NonEmptyOnly | src/components/batchAddUsersToGroup.tsx:101 | `filter(s => s.length)` keeps exactly the non-empty entries, in their order and with every copy (a subsequence with the same count of each non-empty entry) |
| Text.Split | src/components/batchAddUsersToGroup.tsx:99 | `split` on one character gives at least one piece, none holding the separator |
| Text.JoinSplit | src/components/ManageClass.tsx:409 | joining the pieces of a split gives back the text |
| Text.SplitJoin | src/components/ManageClass.tsx:409 | splitting the join of separator-free pieces gives back the pieces |
| Text.SplitAppend | src/components/ManageClass.tsx:425-427 | appending the separator and a separator-free piece adds one piece at the end |
| Text.LeqTotal | src/components/CreateClass.tsx:29 | the default sort order compares every two strings |
| Text.LeqAntisymmetric | src/components/CreateClass.tsx:29 | strings ordered both ways are equal |
| Text.LeqTransitive | src/components/CreateClass.tsx:29 | the sort order is transitive |
| Text.SortCorrect | src/components/ManageClass.tsx:454 | `sort()` returns a sorted permutation of its input |
| Text.SortedUnique | src/components/ManageClass.tsx:454 | a sorted permutation is unique, so the sort's result depends only on the multiset of entries |
| Text.SortOfSorted | src/components/CreateClass.tsx:29 | sorting a sorted list leaves it unchanged |
| Text.Without | src/components/ManageClass.tsx:457 | `filter(m => m !== x)` removes every occurrence of `x` and keeps every other entry's count, in order |
| Text.RemoveDuplicates | src/pages/api/users/index.ts:37 | de-duplication leaves no repeated entry and keeps exactly the same members |
| Text.NatToString | src/pages/api/users/index.ts:112 | `String(n)` of a natural number is a non-empty string of digits |
| Text.DigitsOfNat | src/pages/api/users/index.ts:112 | reading back the digits of `String(n)` gives `n` |
| Text.NumberValue | src/components/CreateClass.tsx:45 | `Number(text)` is a number whenever the trimmed text is all digits, and then, if there are digits, their decimal value; a sign followed by digits reads as the signed decimal value |
| Text.NumberNaNIff | src/components/ManageClass.tsx:307 | `Number(text)` is `NaN` exactly when the trimmed text has a character that is neither a digit nor a leading sign followed by more text |
| Text.NumberOfIntToString | src/components/ManageClass.tsx:316 | `Number(String(n)) == n` for every integer |
| Http.RouteOf | src/pages/api/classes.ts:114-130 | the handler's switch takes each branch exactly for its method string; anything else is unsupported |
| UsersApi.NormaliseParam | src/pages/api/users/index.ts:33-38 | absent stays absent, a single value becomes a one-entry list, an array becomes a duplicate-free list with the same members |
| UsersApi.SearchTypeOf | src/pages/api/users/index.ts:44 | the search mode is AND or OR exactly when `type` is that string, otherwise none |
| UsersApi.SearchFor | src/pages/api/users/index.ts:39-44 | the three normalised inputs go to email, enrolled_class_id and teaching_class_ids respectively, with the search mode |
| UsersApi.HandleGet | src/pages/api/users/index.ts:23-54 | as written: a query with all three parameters falsy gets 400 and then, because there is no `return`, the handler goes on; the search is made exactly when the token was obtained, and the last status is 200 exactly when the token and the search both succeeded, otherwise 500 |
| UsersApi.HandleGetReturning | src/pages/api/users/index.ts:23-54 | with the intended `return`: one status; 400 exactly when all three parameters are falsy; a search exactly when there is a parameter and the token was obtained; 200 exactly when the search also succeeded |
| UsersApi.GetWithoutQueryAnswersTwice | src/pages/api/users/index.ts:30-48 | an empty query is answered twice and searched with an all-absent query |
| UsersApi.ReturningAgreesWhenQueried | src/pages/api/users/index.ts:30-32 | the two handlers differ exactly on requests with no search parameter |
| UsersApi.BatchPayload | src/pages/api/users/index.ts:71-82 | each batch entry's payload is its email and names with the batch's shared role and metadata |
| UsersApi.Attempts | src/pages/api/users/index.ts:68-110 | the attempts are the batch entries in input order, then the single user if given |
| UsersApi.Details | src/pages/api/users/index.ts:86-91 | one detail per attempt, in attempt order |
| UsersApi.CountsPartition | src/pages/api/users/index.ts:85-108 | every attempt counts exactly once, as a success or as a failure |
| UsersApi.CreatedIffSomeSuccess | src/pages/api/users/index.ts:111 | status 201 is sent exactly when some attempt succeeded |
| UsersApi.PluralIff | src/pages/api/users/index.ts:112 | "case" takes an "s" exactly when its count is above one |
| UsersApi.TallyStep | src/pages/api/users/index.ts:83-93 | one more attempt moves exactly one counter and pushes its detail |
| UsersApi.Tally | src/pages/api/users/index.ts:85-92 | one attempt's bookkeeping: one counter moves by one and one detail is appended |
| UsersApi.CreateBatch | src/pages/api/users/index.ts:70-95 | the loop attempts every entry in order; a failure does not stop it; the counters and details equal those of the outcomes |
| UsersApi.HandlePost | src/pages/api/users/index.ts:56-123 | no token gives 500, an invalid body 400, a batch without a role 500 before anything is created; otherwise every attempt is made and the status and summary come from the counters |
| UsersApi.BatchAccounting | src/pages/api/users/index.ts:65-110 | details, successes + failures and attempts all equal the number of batch entries plus the single user; batch details come first in input order |
| UsersApi.HandleDelete | src/pages/api/users/index.ts:148-171 | as written: a missing or array userId gives 400 and no deletion; otherwise the trimmed id is deleted, 204 on success |
| UsersApi.BlankUserIdReachesDelete | src/pages/api/users/index.ts:155-159 | a blank userId passes the check and the empty id is deleted |
| UsersApi.HandleDeleteNonEmpty | src/pages/api/users/index.ts:155-156 | with the check its message asks for: the deletion happens exactly for one userId that is non-empty after trimming |
| ClassesApi.SetToList | src/pages/api/classes.ts:45-47 | an optional set becomes a list with exactly its entries; an absent set gives [] |
| ClassesApi.SetToListOfPresent | src/pages/api/classes.ts:45 | the size test changes nothing: a present set, empty or not, gives its own entries |
| ClassesApi.DbToJson | src/pages/api/classes.ts:41-50 | class id and capacity are copied; each id list holds exactly the set's entries |
| ClassesApi.DbToJsonRoundTrip | src/pages/api/classes.ts:41-50 | a record whose sets are present is rebuilt exactly from its JSON |
| ClassesApi.CheckClassId | src/pages/api/classes.ts:55-56 | `class_id` is accepted exactly when it is one non-empty value; an array is refused as "only one" |
| ClassesApi.HandleGet | src/pages/api/classes.ts:52-68 | an invalid id gives 500 without a store call; 200 with the record's JSON exactly when it is found, 404 exactly when it is missing |
| ClassesApi.HandleDelete | src/pages/api/classes.ts:95-107 | the same id check; 204 exactly when the id is valid and the deletion succeeded |
| ClassesApi.GetAndDeleteShareGuard | src/pages/api/classes.ts:98-99 | GET and DELETE reach the store for exactly the same `class_id` values |
| ClassesApi.Handle | src/pages/api/classes.ts:70-132 | unsupported methods get 500 with "<method> is not supported"; GET and DELETE go to their handlers; POST gives 200 "success" exactly when the body parsed and the class was created, PUT 200 with the updated class's JSON exactly when the body parsed and the update returned a class, and otherwise 500 |
| ClassesApi.AdminCheckSkipped | src/pages/api/classes.ts:16 | with `requireAdminCheck` false the admin check's outcome never matters |
| Auth0Schemas.DefaultModulesAreReady | src/models/auth0_schemas.ts:4-5 | the ready modules are the default ones followed by two more, so every default module is ready |
| Auth0Schemas.ModuleNamesPlain | src/models/auth0_schemas.ts:4-5 | no module name is empty, holds a comma or repeats |
| Auth0Schemas.ParseRole | src/models/auth0_schemas.ts:8 | a string parses as a role only if it is that role's literal |
| Auth0Schemas.ParseRoleKey | src/models/auth0_schemas.ts:7-8 | every role's literal parses back to that role |
| Auth0Schemas.ParseRoleIff | src/models/auth0_schemas.ts:7-8 | a string is a role exactly when it is one of the four listed literals |
| Auth0Schemas.WithoutAdmin | src/models/auth0_schemas.ts:11 | the filter removes admin and keeps every other role |
| Auth0Schemas.NonAdminRolesInOrder | src/models/auth0_schemas.ts:11 | `nonAdminRoles` is managedStudent, teacher, unmanagedStudent in that order |
| Auth0Schemas.RoleMappingValid | src/models/auth0_schemas.ts:16-40 | every role's entry has a name and id non-empty after trimming; managedStudent is "student", unmanagedStudent "unmanaged student" |
| Auth0Schemas.RoleIdsDistinct | src/models/auth0_schemas.ts:23-40 | no two roles share an id |
| Auth0Schemas.ParseUserMetadata | src/models/auth0_schemas.ts:50-57 | metadata is accepted exactly when a present date has the YYYY-MM-DD shape and present class ids and modules are non-blank; ids and modules come back trimmed, the date unchanged, missing and null fields as they were |
| Auth0Schemas.ParseUserMetadataIdempotent | src/models/auth0_schemas.ts:54-56 | what the schema accepts it accepts again unchanged |
| Auth0Schemas.ParseRoles | src/models/auth0_schemas.ts:10 | a role array is accepted exactly when every entry is a role literal, and keeps the entries in order |
| Auth0Schemas.ParseRoleCheck | src/models/auth0_schemas.ts:126-130 | a role-check reply is accepted exactly when every entry's name is one of the four roles; ids and descriptions are kept |
| Auth0Schemas.ParseRoledUser | src/models/auth0_schemas.ts:85-99 | a roled user is accepted exactly when every role parses and any metadata passes the metadata schema; email, name and id are kept, metadata comes back in its parsed (trimmed) form, and the roles are the parsed literals in order |
| Email.EmailIsTrimmed | src/components/batchAddUsersToGroup.tsx:67 | an email is non-empty and has no surrounding whitespace |
| Email.ExampleEmail | src/components/batchAddUsersToGroup.tsx:67 | `local@host.tld` with plain non-empty parts passes the email check |
| BatchAddUsers.ValidatorPieces | src/components/batchAddUsersToGroup.tsx:62-65 | the validator reads the trimmed pieces of the non-empty comma-separated pieces |
| BatchAddUsers.RefineEmails | src/components/batchAddUsersToGroup.tsx:60-72 | the refine accepts exactly when every piece the validator reads is an email |
| BatchAddUsers.EveryEmail | src/components/batchAddUsersToGroup.tsx:66-71 | the early-exit loop returns true exactly when every entry of the list is an email |
| BatchAddUsers.ValidAsWrittenIff | src/components/batchAddUsersToGroup.tsx:62-70 | the validator as written accepts exactly when every piece is empty or an email once trimmed, so a piece of spaces is refused |
| BatchAddUsers.ParseEmails | src/components/batchAddUsersToGroup.tsx:98-101 | the submit handler's emails are the trimmed pieces that are not empty, in their order and with every repeat; each is non-empty, trimmed and comma-free |
| BatchAddUsers.ValidIntendedIff | src/components/batchAddUsersToGroup.tsx:98-101 | the intended validator accepts exactly when every piece is blank or an email once trimmed |
| BatchAddUsers.AsWrittenImpliesIntended | src/components/batchAddUsersToGroup.tsx:62-101 | a list the validator as written accepts is accepted by the intended one, and every email then submitted passes the check |
| BatchAddUsers.BlankPieceRejected | src/components/batchAddUsersToGroup.tsx:62-65 | two emails around a blank piece: refused as written, accepted as intended, and submitted as exactly the two emails |
| BatchAddUsers.ExampleListRefused | src/components/batchAddUsersToGroup.tsx:62-65 | "a@b.co, ,c@d.co" is refused as written and accepted as intended |
| BatchAddUsers.BlankInputReachesEmptyError | src/components/batchAddUsersToGroup.tsx:102-105 | input of spaces enables Save and passes the validator but yields no email, so the empty-list error is reached |
| BatchAddUsers.DisableSave | src/components/batchAddUsersToGroup.tsx:196 | Save is disabled only while the raw field is empty, and then the validator sees no piece and the submit handler reads no email: a disabled Save never withholds a list |
| BatchAddUsers.ThirdSegment | src/components/batchAddUsersToGroup.tsx:130 | `message.split(":")[2]` exists exactly when there are at least three segments, and holds no colon |
| BatchAddUsers.ThirdSegmentOf | src/components/batchAddUsersToGroup.tsx:130 | from `a:b:c` the third segment is `c` |
| BatchAddUsers.Dispatch | src/components/batchAddUsersToGroup.tsx:148-183 | (parent, family) and (teacher, class) go to batch-manages, (student, class) to batch-enrolls, (student, family) to batch-families |
| BatchAddUsers.DispatchNoneIff | src/components/batchAddUsersToGroup.tsx:181-182 | every other pair is an error |
| BatchAddUsers.GuardError | src/components/batchAddUsersToGroup.tsx:102-116 | a field error is set exactly when the list is empty or meets the group's users |
| BatchAddUsers.RequestsAfterGuards | src/components/batchAddUsersToGroup.tsx:118-183 | past the guards the user check is always sent, and the batch request exactly when the check passed and the pair has an endpoint |
| BatchAddUsers.ErrorNoticeIff | src/components/batchAddUsersToGroup.tsx:135-191 | an error notice appears exactly when the check failed other than by 404, or the pair has no endpoint, or the batch request was not accepted |
| BatchAddUsers.BatchAddForm.OnSubmit | src/components/batchAddUsersToGroup.tsx:97-194 | a guard error sends nothing and leaves loading alone; otherwise loading goes on then off (on every way out), a 404 sets the third message segment as the field error, and requests and notices are as above |
| BatchAddUsers.BatchAddForm.SendBatch | src/components/batchAddUsersToGroup.tsx:118-192 | the requests, notices, field error and group reload between switching loading on and off |
| ManageClass.ModulesToAdd | src/components/ManageClass.tsx:408 | the modules to add are exactly the ready ones not available, in ready order, without repeats |
| ManageClass.ModulesToAddNone | src/components/CreateClass.tsx:30 | with nothing available every ready module can be added |
| ManageClass.ModulesToAddAfterDefaults | src/components/CreateClass.tsx:30 | with the default modules available only "Module D" and "Module E" remain |
| ManageClass.AddModule | src/components/ManageClass.tsx:453-455 | adding gives a sorted list holding the old entries plus the module |
| ManageClass.RemoveModule | src/components/ManageClass.tsx:456-458 | removing gives a sorted list with no occurrence of the module and every other entry's count kept |
| ManageClass.RemoveUndoesAdd | src/components/ManageClass.tsx:453-458 | removing a module just added to a sorted list without it gives the list back |
| ManageClass.AddRemoveOffer | src/components/ManageClass.tsx:408 | an added module is no longer offered; a removed ready module is offered again |
| ManageClass.DisableSave | src/components/ManageClass.tsx:409 | with no class loaded Save stays enabled |
| ManageClass.DisableSaveIff | src/components/ManageClass.tsx:409 | for non-empty comma-free names, Save is disabled exactly when the saved and edited lists are equal |
| ManageClass.UsersWithRole | src/components/ManageClass.tsx:404-405 | the filter keeps exactly the users that have the role, in their order and with every copy |
| ManageClass.TeachersAndStudents | src/components/ManageClass.tsx:404-405 | teachers are exactly the users with the teacher role, students those with managedStudent |
| ManageClass.BuildSearchUrl | src/components/ManageClass.tsx:419-427 | no URL for an empty list; otherwise the base URL with one `&email=` parameter per email, in order |
| ManageClass.SearchUrlFields | src/components/ManageClass.tsx:424-427 | splitting the URL on "&" gives the base and one `email=` field per email, in order |
| ManageClass.UrlFields | src/components/ManageClass.tsx:424-427 | for any base free of "&", splitting the base followed by the email parameters gives the base and then one `email=` field per email, in order |
| ManageClass.CapacityIssues | src/components/ManageClass.tsx:306-311 | "Required" exactly for empty text, "Invalid input" exactly for text that is not a number, "same as old" exactly when the number equals the current capacity |
| ManageClass.IssuesOf | src/components/ManageClass.tsx:306-311 | the three refinements each add their issue independently: "Required" exactly when the field is empty, "Invalid input" exactly when it is not a number, "same as old" exactly when its number is the current capacity |
| ManageClass.CapacityAcceptedIff | src/components/ManageClass.tsx:306-311 | a capacity is accepted exactly when it is non-empty number text with a new value |
| ManageClass.EmptyCapacityIssues | src/components/ManageClass.tsx:307-310 | an empty field is only "Required" (plus "same as old" when the capacity is 0) |
| ManageClass.DisableCapacitySave | src/components/ManageClass.tsx:306-343 | Save is disabled exactly while the field shows the current capacity, and every such value would also be refused by the schema as unchanged |
| ManageClass.ClassIdSearch | src/components/ManageClass.tsx:241-249 | blank input is refused exactly when it is all whitespace; nothing is sent while loading; otherwise the trimmed, non-empty id is looked up |
| ManageClass.ClassPage.Reload | src/components/ManageClass.tsx:413-441 | loads the modules; searches the students then the teachers unless there are none; loading is off at the end |
| ManageClass.ClassPage.HandleChangeClass | src/components/ManageClass.tsx:443-450 | shows the given class or none, clears the users and reloads |
| ManageClass.ClassPage.SaveModules | src/components/ManageClass.tsx:459-484 | sends the edited modules; an accepted update shows and reloads the returned class (data, modules, users), any other outcome leaves data, modules and users as they were; loading is off on every way out |
| ManageClass.ClassPage.UpdateCapacityAsWritten | src/components/ManageClass.tsx:320-341 | as written: nothing changes while loading; otherwise the capacity is sent, an accepted update shows and reloads the returned class, a failed one leaves data, modules and users as they were, and loading stays on exactly when the update was not accepted |
| ManageClass.ClassPage.UpdateCapacity | src/components/ManageClass.tsx:320-341 | with loading switched off at the end: the same requests, notices, data, modules and users, and no way out leaves the page loading |
| CreateClass.SortInPlace | src/components/CreateClass.tsx:29 | `sort()` on an array rearranges it in place into the sorted arrangement of its old contents |
| CreateClass.InitialModulesUnchanged | src/components/CreateClass.tsx:29 | the default modules are already sorted, so the shared array is left as it was |
| CreateClass.InitialModulesToAdd | src/components/CreateClass.tsx:29-30 | the form starts able to add "Module D" and "Module E" |
| CreateClass.EditsKeepSorted | src/components/CreateClass.tsx:62-67 | after any edits the module list is sorted, and holds the last edited module exactly when it was added |
| CreateClass.CreateClassForm.Edit | src/components/CreateClass.tsx:62-67 | an add or remove replaces the module list by the re-sorted edit and changes nothing else |
| CreateClass.CreateClassForm.constructor | src/components/CreateClass.tsx:29 | the shared default array is sorted in place and becomes the module list |
| CreateClass.CreateClassForm.OnSubmit | src/components/CreateClass.tsx:40-60 | non-number capacity sets "Invalid number" and builds no payload; otherwise the payload is the teacher id, the capacity's value and the module list unchanged; loading ends off |
| ApiTest.SpliceIndex | __tests__/api.test.ts:85 | `splice`'s start: an index in range is itself, past the end is the end, a negative one counts from the end |
| ApiTest.SpliceInsertInverse | __tests__/api.test.ts:79-86 | inserting puts the entry at the index, grows the stack by one and keeps the other entries in order |
| ApiTest.Unwind | __tests__/api.test.ts:39-44 | unwinding accounts for every entry, and empties the stack when no undo fails |
| ApiTest.UnwindPartition | __tests__/api.test.ts:39-44 | the stack is what remains, then the failed entry, then the undone entries in reverse popping order |
| ApiTest.UnwindAllSucceed | __tests__/api.test.ts:39-44 | when every undo succeeds the whole stack is undone, top first |
| ApiTest.ErrorOnTopUndoesNothing | __tests__/api.test.ts:1152-1174 | with the error procedure on top, unwinding undoes nothing and leaves the entries below |
| ApiTest.TestTaskHandler.ClearUsers | __tests__/api.test.ts:45-47 | the user cache is emptied, nothing else changes |
| ApiTest.TestTaskHandler.ClearGroups | __tests__/api.test.ts:48-50 | the group cache is emptied, nothing else changes |
| ApiTest.TestTaskHandler.ClearTasks | __tests__/api.test.ts:51-55 | both task queues are emptied in place, nothing else changes |
| ApiTest.TestTaskHandler.ClearRevert | __tests__/api.test.ts:56-62 | popping and recursing empties the revert stack, nothing else changes |
| ApiTest.TestTaskHandler.ClearError | __tests__/api.test.ts:63-68 | the status is cleared and the message loop leaves no message, nothing else changes |
| ApiTest.TestTaskHandler.ResetProperties | __tests__/api.test.ts:69-76 | token, queues, revert stack, error state and caches are all empty |
| ApiTest.TestTaskHandler.SetRevertError | __tests__/api.test.ts:79-86 | the error procedure is inserted at the index, by default at the top |
| ApiTest.TestTaskHandler.TestRevert | __tests__/api.test.ts:39-44 | the stack, messages and revert-error log end as the unwinding says |
| ApiTest.RevertErrorScenario | __tests__/api.test.ts:1161-1162 | planting the error procedure by default and reverting leaves the stack as before and logs one revert error |
| ApiTest.TestUserPayload | __tests__/api.test.ts:115-162 | admin: null expiry and modules and no enrolled, families or managing; student: the default expiry, enrolled and families as given, nothing managed; parent/teacher: the default expiry, managing as given, null modules, no enrolled or families; any other role becomes a student with the default expiry and an empty family list; the name is "test " + the given role |

## Left out

- Text.NumberValue: models `Number(text)` only for integer text (an optional sign and decimal digits, surrounding whitespace ignored, blank is 0). Decimals, exponents, hex, `Infinity` and other floating-point forms count as `NaN`. Capacities are integers.
- Text.Leq: compares characters by code point. JavaScript's default sort compares UTF-16 code units; the two orders differ only for characters outside the Basic Multilingual Plane.
- Text.RemoveDuplicates, BatchAddUsers.HasIntersection, Email.IsEmail and Auth0Schemas.ValidDateString: the repository's helpers and zod's email check are not part of this model. These members give them their obvious meaning:
  - `RemoveDuplicates` keeps first occurrences;
  - `HasIntersection` holds when some element is shared;
  - `IsEmail` is a simplified `local@domain.tld` check with no whitespace;
  - `ValidDateString` checks the YYYY-MM-DD shape without a calendar check.
- UsersApi.HandleGet: records the statuses the handler tries to send, in order. The framework's refusal to send a second response is not modelled.
- The users route's `handlePut` and its top-level `handler` (admin check and the 405 branch) are not modelled. They only validate and call the identity provider.
- The classes route's `adminCheck` (session and role lookup) is not modelled. It is configured off, which `ClassesApi.AdminCheckSkipped` states.
- ClassesApi.Handle: the POST and PUT bodies are represented only by whether they parsed. The store's create and update calls are parameters.
- ClassesApi.HandleGet, ClassesApi.HandleDelete and ClassesApi.Handle: a 500 caused by a failed store call or a body that fails its schema carries no body in the model, where the route sends `error.message`; that text comes from the store and from zod, which are not part of this model. The class-id errors and the unsupported-method message are modelled.
- A JavaScript `Set` is modelled as the list of its entries in insertion order, which is the order `Array.from` gives.
- Request-body schemas (`PostUsersReqSchema`, the batch response schemas, `GetClassResSchema`) are not part of this model. A body that fails to parse is `None`, and a reply that fails its schema is a distinct outcome.
- ApiTest.TestTaskHandler.TestRevert: `revertChanges` and `TaskHandler.start` are not part of this model. Unwinding is this model's own assumption, since the code that does it is not part of the model: pop the top, undo it, and stop at the first failed undo, which has already been popped. The failure message is shown as the procedure's name because the real wording is not known.
- ApiTest.TestTaskHandler.SetRevertError: the index is an integer. A fractional JavaScript number is not modelled.
- ApiTest.TestUserPayload: the request-schema parse and the database `createUser` call that follow are not modelled. `futureDate` is the `defaultDate` parameter.
- Not modelled because they are I/O, timing or UI:
  - the `delay` between batch creations, logging and telemetry (`putLogEvent` is a log field);
  - toasts (kept as a list of notices) and React rendering;
  - the class lookup URL in the class-id search box, which is malformed in the source;
  - `src/components/manageStudent.tsx` and `src/pages/ManageClass/index.tsx`, which are UI only;
  - the thin `/api/v1/users` route.
- BatchAddUsers.BatchAddForm.OnSubmit: `handleChangeGroup` is kept only as a count of reloads. The user roles are taken as admin, student, teacher and parent (the Prisma enum is not part of this model).
- ManageClass.ClassPage.Reload: parsing of the search reply is part of the search outcome parameter.

## Findings

| source | as written | input that shows it | evidently intended | confidence | as-written member | corrected member |
|---|---|---|---|---|---|---|
| src/pages/api/users/index.ts:30-32 | the 400 for an empty query is sent without `return`, so the search still runs and a second status is sent | `GET /api/users` with no email, enrolled_class_id or teaching_class_ids | answer 400 once and do not search | not executed; high | UsersApi.GetWithoutQueryAnswersTwice | UsersApi.HandleGetReturning |
| src/pages/api/users/index.ts:155-159 | only a missing or array `userId` is refused, so a blank one deletes the empty id | `DELETE /api/users?userId=%20` | refuse a blank id, as the message "one and only one non-empty userId" says | not executed; high | UsersApi.BlankUserIdReachesDelete | UsersApi.HandleDeleteNonEmpty |
| src/components/batchAddUsersToGroup.tsx:62-65 | the validator drops empty pieces before trimming, so a piece of spaces becomes "" and fails the email check, although the submit handler would ignore it | `a@b.co, ,c@d.co` | trim, then drop empty pieces, as the submit handler does | not executed; medium | BatchAddUsers.ExampleListRefused | BatchAddUsers.ValidIntendedIff |
| src/components/ManageClass.tsx:320-341 | the capacity submit switches loading on and never off; only the reload after a successful update does | a capacity update whose request fails | switch loading off at the end, as the module save does | not executed; high | ManageClass.ClassPage.UpdateCapacityAsWritten | ManageClass.ClassPage.UpdateCapacity |
