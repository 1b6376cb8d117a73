# TaskMate core in Dafny

This project models the four concepts at the core of TaskMate and proves properties of the model.

- **External assignment sync** keeps a registry of source accounts. Each account connects one owner to an external platform such as Canvas, and accounts are unique per owner and source name. It also keeps a mapping store from (source account, external id) to an internal assignment and the external modification time last reconciled. A poll fetches a batch of records. Change detection sorts that batch into new, changed and unchanged records. Recording a resolution is an upsert.
- **The Canvas connector** lists a user's active courses and fetches each course's assignments. It keeps only actionable, outstanding work (published, submittable online, with a due date, not yet submitted) and turns HTTP outcomes into three error codes.
- **TodoList** holds time-scoped lists of items. Each list has an owner, a name, a `[start, end]` range, an auto-clear flag and a recurrence. A recurring list that has ended is recreated for the next period, carrying over only its uncompleted items.
- **UserAuthentication** holds users with hashed passwords, a session table, and a per-user map of extra credentials such as API tokens.

Each concept's collections are sequences in a class (`seq` in collection order, so `findOne` is the first match). The class has a `Valid()` invariant and one method per action. Most properties are stated on pure functions over those sequences, with lemmas connecting them.

| file | module |
|---|---|
| `common.dfy` | `Common` |
| `canvas_api.dfy` | `CanvasApi` |
| `external_assignment_sync.dfy` | `ExternalAssignmentSync` |
| `todo_list.dfy` | `TodoList` |
| `user_authentication.dfy` | `UserAuthentication` |

`Common` holds `Option` and `Result`, JavaScript's blank-string test, `String(n)` and a generic order-keeping `Filter`.

Things the source gets from outside become inputs:
- **HTTP replies** are values of `CanvasApi.Reply`: a status with a parsed body, or a thrown exception.
- **The Canvas server** is a `CanvasServer`: the course list plus a reply per course id.
- **The database's fresh-id source** is a per-concept counter `nextId`.
- **The current time** is a parameter `now`, in milliseconds.
- **The next-period start** (`addDays`/`addWeeks`/`addMonths`) is a function `calendar` fixed at construction. It is only required to return a later time.
- **Password hashing** is a pair `hash`/`compare` fixed at construction. The only assumption is that every password compares equal to its own hash.

Several places follow JavaScript truthiness:
- a due date given as the empty string counts as no due date;
- an empty description becomes absent;
- a stored empty credential value reads as not found.

Two properties state the code's actual behaviour, which differs from what a comment in the source says:
- **Names are not unique per owner.** The invariants comment at `src/concepts/TodoList/TodoListConcept.ts:48-51` says list names are unique per owner. `recreateRecurringList` inserts a second list with the same name, so they are not (`TodoList.RecreationDuplicatesName`). As a result, `getListByName` returns the oldest such list, and `Valid()` does not include name uniqueness.
- **Start need not precede end.** The same comment says start precedes end whenever both are set. `createList` checks this only when both times are given, so a list with only an end time can end before the default start (`TodoList.OneSidedRangeMayBeEmpty`).

## Model

| member | source | states |
|---|---|---|
| Common.BlankIffTrimsToEmpty | src/concepts/TodoList/TodoListConcept.ts:142 | for every string, the blank test holds exactly when stripping leading white space leaves nothing |
| CanvasApi.TerminalCode | src/concepts/ExternalAssignmentSync/canvas-api.ts:48-56 | 401 ⟺ INVALID_CREDENTIALS, 429 ⟺ RATE_LIMIT, ≥500 ⟺ NETWORK_ERROR, and no code for every other status |
| CanvasApi.FetchCanvasCourses | src/concepts/ExternalAssignmentSync/canvas-api.ts:48-59 | the course list succeeds exactly on an OK reply with a parsed body and is that body; a non-OK status raises its terminal code or else a "Canvas API error" carrying the status; a transport TypeError is raised as such |
| CanvasApi.RelevanceReadsFourFields | src/concepts/ExternalAssignmentSync/canvas-api.ts:107-145 | relevance depends only on published, submission types, due date and submission; records agreeing on those four are kept or dropped alike |
| CanvasApi.Relevant | src/concepts/ExternalAssignmentSync/canvas-api.ts:107-159 | every relevant assignment's record is kept, every kept record comes from a relevant assignment, there are no more records than assignments, and each kept record has description = html_url, is published, has a due date and an online type, and is not submitted |
| CanvasApi.RelevantAppend | src/concepts/ExternalAssignmentSync/canvas-api.ts:107-159 | filter-then-map distributes over concatenation, so kept records stay in their original order |
| CanvasApi.HarvestAppend | src/concepts/ExternalAssignmentSync/canvas-api.ts:79-162 | the course loop over two stretches of courses is the first stretch's result followed by the second's; the first failure wins |
| CanvasApi.SkippedCourseContributesNothing | src/concepts/ExternalAssignmentSync/canvas-api.ts:91-102 | a course answering with a non-OK, non-terminal status can be removed without changing the outcome: it is skipped and the loop continues |
| CanvasApi.TerminalStatusAborts | src/concepts/ExternalAssignmentSync/canvas-api.ts:91-99 | a 401, 429 or ≥500 on a course that the loop reaches aborts the whole fetch with that code; no partial list is returned |
| CanvasApi.HarvestSucceedsIff | src/concepts/ExternalAssignmentSync/canvas-api.ts:79-164 | the loop succeeds exactly when every course's reply is OK with a parsed body or is a skippable status |
| CanvasApi.HarvestBounds | src/concepts/ExternalAssignmentSync/canvas-api.ts:79-164 | a successful result holds at most as many records as were fetched in all, and each record is the shape of a relevant assignment fetched for one of the courses |
| CanvasApi.OuterCatch | src/concepts/ExternalAssignmentSync/canvas-api.ts:165-180 | the three codes are rethrown unchanged, a transport TypeError becomes NETWORK_ERROR, and anything else propagates; a transport error never escapes |
| CanvasApi.FetchOutcomeShape | src/concepts/ExternalAssignmentSync/canvas-api.ts:137-180 | the connector never lets a transport TypeError out, and every record it returns has description = html_url and has_submitted_submissions false |
| CanvasApi.FetchCanvasAssignments | src/concepts/ExternalAssignmentSync/canvas-api.ts:72-180 | the loop (append, continue, throw) returns exactly the specified outcome: the course-list step, then the course harvest, then the outer catch |
| CanvasApi.ValidateCanvasCredentials | src/concepts/ExternalAssignmentSync/canvas-api.ts:187-224 | false on 401; NETWORK_ERROR exactly on ≥500 or a transport TypeError; true exactly on an OK status with a parsable body; false otherwise |
| ExternalAssignmentSync.Lookup | src/concepts/ExternalAssignmentSync/ExternalAssignmentSyncConcept.ts:311-314 | the found mapping is in the store under the key, and nothing is found exactly when no mapping has the key |
| ExternalAssignmentSync.ClassifyAppend | src/concepts/ExternalAssignmentSync/ExternalAssignmentSyncConcept.ts:310-335 | the work list of two batches is the two work lists in order: output follows input order |
| ExternalAssignmentSync.ClassifySound | src/concepts/ExternalAssignmentSync/ExternalAssignmentSyncConcept.ts:310-335 | every work item comes from the batch; it has no internal id when unmapped, and otherwise its timestamp is strictly newer than the mapping's and it carries the mapped internal assignment |
| ExternalAssignmentSync.ClassifyComplete | src/concepts/ExternalAssignmentSync/ExternalAssignmentSyncConcept.ts:310-335 | every unmapped record and every strictly newer mapped record is a work item with the right internal id; a record whose timestamp is equal or older yields no work item |
| ExternalAssignmentSync.ClassifyLength | src/concepts/ExternalAssignmentSync/ExternalAssignmentSyncConcept.ts:310-335 | no more work items than records |
| ExternalAssignmentSync.UpsertLookup | src/concepts/ExternalAssignmentSync/ExternalAssignmentSyncConcept.ts:358-384 | after the upsert the key maps to the given internal id and timestamp, and every other key looks up as before |
| ExternalAssignmentSync.UpsertLeavesOthers | src/concepts/ExternalAssignmentSync/ExternalAssignmentSyncConcept.ts:358-384 | mappings under other keys stay where and as they were; the store grows by at most one |
| ExternalAssignmentSync.UpsertKeepsKeysUnique | src/concepts/ExternalAssignmentSync/ExternalAssignmentSyncConcept.ts:358-384 | (source, externalId) stays unique |
| ExternalAssignmentSync.UpsertIdempotent | src/concepts/ExternalAssignmentSync/ExternalAssignmentSyncConcept.ts:358-384 | repeating a call gives the state of one call, whatever fresh id the second call would have drawn |
| ExternalAssignmentSync.RecordedThenClassified | src/concepts/ExternalAssignmentSync/ExternalAssignmentSyncConcept.ts:322-329 | after recording (s, e, i, t), a later record for e is a work item iff its timestamp exceeds t, and it then carries i |
| ExternalAssignmentSync.ReconciliationScenario | src/concepts/ExternalAssignmentSync/ExternalAssignmentSyncConcept.ts:310-384 | a worked case: two unmapped records are new; after one is recorded, a newer version of it is changed work carrying its internal id, and the same version is not work |
| ExternalAssignmentSync.Normalize | src/concepts/ExternalAssignmentSync/ExternalAssignmentSyncConcept.ts:249-257 | external id = String(id); due date absent exactly when due_at is absent or empty, else its instant; timestamp = updated_at |
| ExternalAssignmentSync.NormalizeSeparatesIds | src/concepts/ExternalAssignmentSync/ExternalAssignmentSyncConcept.ts:250 | distinct Canvas ids give distinct external ids |
| ExternalAssignmentSync.NormalizeAll | src/concepts/ExternalAssignmentSync/ExternalAssignmentSyncConcept.ts:249-257 | the batch has one record per Canvas assignment, in order, each normalised |
| ExternalAssignmentSync.PollError | src/concepts/ExternalAssignmentSync/ExternalAssignmentSyncConcept.ts:258-270 | INVALID_CREDENTIALS ⟺ a source connection error, RATE_LIMIT ⟺ rate limit exceeded, and every other failure ⟺ network error |
| ExternalAssignmentSync.CredentialVerdict | src/concepts/ExternalAssignmentSync/ExternalAssignmentSyncConcept.ts:152-183 | for Canvas, accepted ⟺ the credential check says true, and network error ⟺ it is unreachable; for other platforms, accepted ⟺ the token is not "invalid_token"; no other error arises |
| ExternalAssignmentSync.ExternalAssignmentSyncConcept.ConnectSource | src/concepts/ExternalAssignmentSync/ExternalAssignmentSyncConcept.ts:142-184 | a duplicate (owner, sourceName) fails first and consults no validator; every failure changes nothing; success appends one account with a fresh id and no poll yet; uniqueness is kept |
| ExternalAssignmentSync.ExternalAssignmentSyncConcept.DisconnectSource | src/concepts/ExternalAssignmentSync/ExternalAssignmentSyncConcept.ts:196-210 | an unknown id gives SourceNotFound and no change; a known id removes that account and exactly the mappings whose source it is, keeping the rest in order |
| ExternalAssignmentSync.DisconnectThenQuery | src/concepts/ExternalAssignmentSync/ExternalAssignmentSyncConcept.ts:397-398 | after disconnecting A, the owner's sources do not include A and A's assignments report SourceNotFound |
| ExternalAssignmentSync.ExternalAssignmentSyncConcept.PollExternalSource | src/concepts/ExternalAssignmentSync/ExternalAssignmentSyncConcept.ts:228-290 | a missing account and every fetch failure leave the state unchanged, with the error mapped by PollError; success returns the normalised batch (or the placeholder batch for non-Canvas sources) and changes only that account's lastSuccessfulPoll, to now |
| ExternalAssignmentSync.ExternalAssignmentSyncConcept.IdentifyChanges | src/concepts/ExternalAssignmentSync/ExternalAssignmentSyncConcept.ts:304-336 | the loop returns exactly the classification of the batch (whose properties are the Classify lemmas) and modifies nothing |
| ExternalAssignmentSync.ExternalAssignmentSyncConcept.RecordInternalSync | src/concepts/ExternalAssignmentSync/ExternalAssignmentSyncConcept.ts:349-385 | the store becomes the upsert, a fresh id is drawn only on insert, keys stay unique, and _getMappedInternalId(e, s) then returns i |
| ExternalAssignmentSync.ExternalAssignmentSyncConcept.GetSourcesForUser | src/concepts/ExternalAssignmentSync/ExternalAssignmentSyncConcept.ts:394-399 | exactly the user's accounts |
| ExternalAssignmentSync.ExternalAssignmentSyncConcept.GetMappedInternalId | src/concepts/ExternalAssignmentSync/ExternalAssignmentSyncConcept.ts:409-417 | succeeds exactly when the key is mapped, with a mapped internal id; fails only with MappingNotFound |
| ExternalAssignmentSync.ExternalAssignmentSyncConcept.GetAssignmentsForSource | src/concepts/ExternalAssignmentSync/ExternalAssignmentSyncConcept.ts:427-436 | SourceNotFound exactly when the account is missing, otherwise exactly that source's mappings |
| TodoList.Uncompleted | src/concepts/TodoList/TodoListConcept.ts:356-361 | exactly the uncompleted items are kept |
| TodoList.UncompletedAppend | src/concepts/TodoList/TodoListConcept.ts:356-361 | clearing looks at items one at a time and keeps their order |
| TodoList.UncompletedIdempotent | src/concepts/TodoList/TodoListConcept.ts:356-361 | clearing twice is clearing once |
| TodoList.UncompletedOfOpenItems | src/concepts/TodoList/TodoListConcept.ts:356-361 | a list with nothing completed is unchanged by clearing |
| TodoList.UncompletedKeepsIdsUnique | src/concepts/TodoList/TodoListConcept.ts:356-361 | clearing keeps item ids unique |
| TodoList.OutOfRange | src/concepts/TodoList/TodoListConcept.ts:442-447 | exactly the items whose due date lies outside the new range |
| TodoList.Shifted | src/concepts/TodoList/TodoListConcept.ts:645-659 | a due date stays present or absent, and moves by exactly the shift |
| TodoList.CarryOver | src/concepts/TodoList/TodoListConcept.ts:641-660 | one carried item per uncompleted item, in order, reopened and shifted |
| TodoList.CarriedItemsAreShiftedOpenItems | src/concepts/TodoList/TodoListConcept.ts:641-660 | each carried item is not completed and comes from an uncompleted original with the same id, its due date moved by newStart − oldStart |
| TodoList.OpenItemsAreCarried | src/concepts/TodoList/TodoListConcept.ts:641-660 | every uncompleted item is carried over |
| TodoList.CompletedItemsAreDropped | src/concepts/TodoList/TodoListConcept.ts:641-660 | with unique ids, no completed item's id reappears |
| TodoList.CarryOverKeepsIdsUnique | src/concepts/TodoList/TodoListConcept.ts:641-660 | carried items have unique ids |
| TodoList.Successor | src/concepts/TodoList/TodoListConcept.ts:613-672 | the new list keeps name, owner, auto-clear and recurrence, starts at the next start, has the same duration, and holds the carried-over items |
| TodoList.SuccessorKeepsItemsInRange | src/concepts/TodoList/TodoListConcept.ts:613-672 | if every item was within the old range, every carried item is within the new one |
| TodoList.CarryOverIgnoresClearing | src/concepts/TodoList/TodoListConcept.ts:641-660 | carrying over a cleared item list gives the same items as carrying over the original |
| TodoList.SameHeaderSameSuccessor | src/concepts/TodoList/TodoListConcept.ts:613-672 | two documents with the same header and the same (or cleared) items have the same successor |
| TodoList.SuccessorIgnoresClearing | src/concepts/TodoList/TodoListConcept.ts:814-819 | auto-clearing before recreating does not change the successor |
| TodoList.DefaultDatesAreAmbiguous | src/concepts/TodoList/TodoListConcept.ts:101-104 | a list created without times has the default dates, and one created with exactly the default times is the same list |
| TodoList.OneSidedRangeMayBeEmpty | src/concepts/TodoList/TodoListConcept.ts:152-175 | with only an end time given, the created list can end before it starts |
| TodoList.ActiveLists | src/concepts/TodoList/TodoListConcept.ts:747-751 | exactly the user's lists with start ≤ now ≤ end, both ends inclusive |
| TodoList.DefaultListsAlwaysActive | src/concepts/TodoList/TodoListConcept.ts:92-104 | a list with default dates is active at every storable time |
| TodoList.ExpiredRecurring | src/concepts/TodoList/TodoListConcept.ts:773-777 | exactly the user's recurring lists whose end is before now |
| TodoList.RecreationDuplicatesName | src/concepts/TodoList/TodoListConcept.ts:48-51 | after one recreation the owner has two lists with the same name, contrary to the invariants comment |
| TodoList.AcceptedUpdate | src/concepts/TodoList/TodoListConcept.ts:395-486 | an accepted update has an ordered range, a new name taken by no other list of the owner, no recurrence on default dates, every item within a new non-default range, and changes only the provided fields |
| TodoList.EvolvesKeepsSlotsDistinct | src/concepts/TodoList/TodoListConcept.ts:801-819 | the recurring-list pass never creates two lists with the same owner, name and start |
| TodoList.TodoListConcept.CreateList | src/concepts/TodoList/TodoListConcept.ts:124-180 | the checks in order (blank name, duplicate name, start > end, recurrence without both times), each changing nothing; success appends one empty list with the defaults filled in |
| TodoList.TodoListConcept.AddListItem | src/concepts/TodoList/TodoListConcept.ts:196-245 | a missing list, a present id, or a due date before the start or after the end changes nothing; success appends exactly one uncompleted item at the end; item ids stay unique |
| TodoList.TodoListConcept.RemoveListItem | src/concepts/TodoList/TodoListConcept.ts:255-275 | an absent id is an error with no change; otherwise only that item is removed and the rest keep their order |
| TodoList.TodoListConcept.DeleteList | src/concepts/TodoList/TodoListConcept.ts:285-306 | the three default names are refused; otherwise exactly that list is removed |
| TodoList.TodoListConcept.MarkItemCompleted | src/concepts/TodoList/TodoListConcept.ts:316-337 | only the matched item's completed flag changes |
| TodoList.TodoListConcept.ClearCompletedItems | src/concepts/TodoList/TodoListConcept.ts:347-364 | the list keeps exactly its uncompleted items, in order |
| TodoList.TodoListConcept.UpdateList | src/concepts/TodoList/TodoListConcept.ts:385-487 | all or nothing: the first failing check is returned with no change, otherwise every provided field is written at once |
| TodoList.TodoListConcept.UpdateListSettings | src/concepts/TodoList/TodoListConcept.ts:489-529 | a recurrence on default dates is refused with no change; otherwise only the two settings change |
| TodoList.TodoListConcept.AutoClearIfNeeded | src/concepts/TodoList/TodoListConcept.ts:545-573 | clears completed items exactly when auto-clear is on and now > end; otherwise changes nothing |
| TodoList.TodoListConcept.RecreateRecurringList | src/concepts/TodoList/TodoListConcept.ts:594-678 | fires exactly when the list recurs and now > end, then appends the successor with a fresh id; the original is untouched |
| TodoList.TodoListConcept.ProcessRecurringLists | src/concepts/TodoList/TodoListConcept.ts:767-823 | no list removed and no header changed; every expired list has its successor afterwards; every added list is the successor of an expired list; an auto-clear list whose successor was missing (and shares it with no other expired list) ends with exactly its uncompleted items; no duplicate (owner, name, start) is created; and when every successor exists already, nothing changes |
| TodoList.TodoListConcept.VisitExpired | src/concepts/TodoList/TodoListConcept.ts:780-820 | one turn of the pass: skipped with no change when the successor exists; otherwise only the visited list changes in place, cleared to its uncompleted items when auto-clear is on, everything appended is its successor, and the successor then exists |
| TodoList.TodoListConcept.ClearStep | src/concepts/TodoList/TodoListConcept.ts:812-815 | only the visited list changes, its header stays, and with auto-clear on it holds exactly its uncompleted items |
| TodoList.TodoListConcept.AddStep | src/concepts/TodoList/TodoListConcept.ts:817-818 | exactly one list is appended: the successor of the visited list, under a fresh id |
| TodoList.TodoListConcept.SuccessorOf | src/concepts/TodoList/TodoListConcept.ts:783-808 | the successor occupies the slot (owner, name, next start) that the successor check looks for, under the given id |
| TodoList.TodoListConcept.GetActiveListsForUser | src/concepts/TodoList/TodoListConcept.ts:736-754 | runs the recurring pass with every guarantee of ProcessRecurringLists, then returns exactly the user's lists active at now |
| TodoList.TodoListConcept.GetListByName | src/concepts/TodoList/TodoListConcept.ts:710-724 | blank name ⟺ EmptyName; otherwise the first list of the user with that name, or NameNotFound exactly when there is none |
| UserAuthentication.Credential | src/concepts/UserAuthentication/UserAuthenticationConcept.ts:223-227 | a credential is present exactly when the key holds a non-empty value, and it is that value |
| UserAuthentication.StoreThenRead | src/concepts/UserAuthentication/UserAuthenticationConcept.ts:190-193 | after storing v under t, t reads v (absent when v is empty) and other types read as before |
| UserAuthentication.OverwriteKeepsTypes | src/concepts/UserAuthentication/UserAuthenticationConcept.ts:258-267 | overwriting a present credential adds no type |
| UserAuthentication.RemoveThenRead | src/concepts/UserAuthentication/UserAuthenticationConcept.ts:303-306 | after removal, t reads absent and is no longer a type; others are unaffected |
| UserAuthentication.WithCredentials | src/concepts/UserAuthentication/UserAuthenticationConcept.ts:190-193 | one user's credential map changes and every other user stays as it was |
| UserAuthentication.UserAuthenticationConcept.Register | src/concepts/UserAuthentication/UserAuthenticationConcept.ts:62-81 | a taken username changes nothing; otherwise one user is added with the hashed password and no credentials; usernames stay unique |
| UserAuthentication.UserAuthenticationConcept.Login | src/concepts/UserAuthentication/UserAuthenticationConcept.ts:94-117 | unknown user and wrong password give the same error and no session; success adds exactly one fresh session, which getCurrentUser resolves to that user |
| UserAuthentication.RegisterThenLogin | src/concepts/UserAuthentication/UserAuthenticationConcept.ts:66-116 | registering and logging in with the same password succeeds, and the session belongs to the new user |
| UserAuthentication.UserAuthenticationConcept.Logout | src/concepts/UserAuthentication/UserAuthenticationConcept.ts:128-138 | removes exactly that session, or reports none; afterwards getCurrentUser with that token fails |
| UserAuthentication.LogoutTwice | src/concepts/UserAuthentication/UserAuthenticationConcept.ts:132-137 | a second logout with the same token reports the invalid session |
| UserAuthentication.UserAuthenticationConcept.GetCurrentUser | src/concepts/UserAuthentication/UserAuthenticationConcept.ts:149-158 | succeeds exactly when a session has the token, with that session's user |
| UserAuthentication.UserAuthenticationConcept.StoreCredential | src/concepts/UserAuthentication/UserAuthenticationConcept.ts:172-196 | an invalid session or a blank type changes nothing; otherwise only that key of that user's map is set, after which it reads back as stored |
| UserAuthentication.UserAuthenticationConcept.RetrieveCredential | src/concepts/UserAuthentication/UserAuthenticationConcept.ts:210-228 | succeeds exactly when the session, its user and a non-empty value exist; the value is never empty |
| UserAuthentication.UserAuthenticationConcept.UpdateCredential | src/concepts/UserAuthentication/UserAuthenticationConcept.ts:242-270 | succeeds only on a key holding a non-empty value; no user's set of types ever changes |
| UserAuthentication.UserAuthenticationConcept.DeleteCredential | src/concepts/UserAuthentication/UserAuthenticationConcept.ts:285-313 | removes a present key, after which retrieving it fails and it is not among the types |
| UserAuthentication.UserAuthenticationConcept.GetCredentialTypes | src/concepts/UserAuthentication/UserAuthenticationConcept.ts:324-340 | an unknown session gives InvalidSession; a session whose user is missing gives UserNotFound; success holds exactly when both the session and its user exist, and gives exactly the keys of the user's map |

## Left out

- MongoDB: collections are in-memory sequences. Calls are sequential, so the find-then-insert races in connectSource, recordInternalSync and createList are not modelled.
- HTTP: `fetch`, headers, URLs and `response.json()` are replaced by input replies. A malformed body is a reply without a body.
- Error messages, template strings and `console.warn`: only the error kinds are modelled.
- Calendar arithmetic (`addDays`, `addWeeks`, `addMonths`, with local time zone and month overflow): replaced by the function `calendar`, which only promises a later time.
- The "unknown recurrence type" branches: the recurrence type is a closed datatype, so those branches cannot arise.
- Password hashing and its salt: `hash`/`compare` are uninterpreted except that a password matches its own hash.
- TodoList.TodoListConcept.ProcessRecurringLists: uses one `now` for the whole pass, where the source reads the clock again inside autoClearIfNeeded and recreateRecurringList. With a clock that does not go back, a list expired at the start is still expired there.
- TodoList.TodoListConcept.GetActiveListsForUser: uses one `now` for the pass and the active filter. The source reads the clock for the filter before the pass runs (`src/concepts/TodoList/TodoListConcept.ts:739`), and the pass reads it again.
- TodoList.TodoListConcept.ProcessRecurringLists: the clearing guarantee is stated only for an expired list whose successor slot no other expired list shares. Two expired lists with the same owner, name and start have the same successor, so only the first of them is cleared and recreated.
- UserAuthentication.UserAuthenticationConcept.GetCredentialTypes: returns a set, so the order of `Object.keys` is not modelled.
- Credential types containing a dot, and JavaScript prototype keys such as "constructor": the source's dotted `$set` path and `?.[type]` lookup treat these specially. The model treats every type as a plain map key.
- In canvas-api.ts, a TypeError whose message does not mention fetch is not distinguished from any other exception (`Foreign`).
- ExternalAssignmentSync.ExternalAssignmentSyncConcept.ConnectSource: the source folds unknown validation exceptions into a network error. validateCanvasCredentials catches every exception other than NETWORK_ERROR itself, so this path never happens and is not modelled.
- ExternalAssignmentSync.ExternalAssignmentSyncConcept.PollExternalSource: for non-Canvas sources, only the fixed placeholder batch is modelled.
- The update object in updateList: an empty update, and the `deletedCount`/`matchedCount` results, need no separate case, because a matched list always exists at that point.
- ExternalAssignmentSync.Normalize: dates arrive already parsed as instants. An unparsable `due_at` or `updated_at`, for which `new Date(...)` gives NaN (`src/concepts/ExternalAssignmentSync/ExternalAssignmentSyncConcept.ts:254-256`), is not modelled.
- Integer width: times and ids are unbounded integers. JavaScript numbers are exact well beyond any storable date.
