# Task manager: a verified model of its logic

This project models the logic of a two-part task-management application in Dafny and proves properties of the model.

The backend is an Express server. Signed-in users create, list, filter, update and delete their own tasks there. Each task has a title, a description, a status (pending, in-progress, completed), a priority (low, medium, high) and a due date. The browser client is a React app that holds the same tasks in a Redux slice, filters and sorts them for display, and validates its forms.

The model covers:
- the owner-scoped task handlers over an in-memory collection (`TasksController`);
- the request validation chains, and the authentication guard in front of every task route (`TaskRoutes`, `AuthMiddleware`);
- sign-up, log-in, log-out and the session check (`UserController`);
- the client's state reducer (`TaskSlice`);
- the pure client logic: the visible list (`Home`), the task form (`TaskForm`), the sign-up schema and strength meter (`Signup`), header statistics (`Header`), route resolution (`App`) and the filter bar (`TaskFilter`).

Shared helpers:
- `Options`: an option type.
- `Sequences`: `map` and `findIndex` over sequences, shared by the id lookups and the counts.
- `Strings`: JavaScript trimming, ASCII case folding, substring search, and the two length measures. `.length` counts UTF-16 units; the validator library counts code points, not counting U+FE0E/U+FE0F.
- `Sorting`: an insertion sort, proved to be an ordered permutation and stable.
- `TaskModel`: the task and user records, and the keys a request body can carry.

The document store, token signing and verification, password hashing, the library email and password-strength checks, and the clock are not modelled as code. The store is a sequence in a class. A store or library exception is a `fault` parameter. Everything else is a function parameter: an oracle for the libraries, a plain value for the clock.

**Priority sort.** `sort=priority` is a descending sort on the stored priority text (`backend/controllers/tasks.controller.js:17`), not a high > medium > low ranking. `TasksController.PrioritySortExample` proves that [low, high, medium] comes back as [medium, low, high]. The severity ranking exists only in the client's own sort (`Home`).

## Model

| member | source | states |
|---|---|---|
| `Strings.Trim` | backend/routes/task.routes.js:23 | the result is the input with only surrounding whitespace removed: a contiguous piece, whitespace on both sides of it, and none at either end of it |
| `Strings.TrimEmptyIff` | backend/routes/task.routes.js:23-25 | a title trims to empty exactly when it is all whitespace |
| `Strings.TrimNoSurroundingSpace` | backend/routes/task.routes.js:23 | trimming leaves a value without surrounding whitespace unchanged |
| `Strings.ValidatorLengthPlain` | backend/routes/task.routes.js:26 | without variation selectors, the validator's length is the code-point count |
| `Strings.Utf16LengthBmp` | frontend/src/components/TaskForm.jsx:48-50 | for text in the basic multilingual plane, `.length` is the code-point count |
| `Strings.LessEqTotal` | backend/controllers/tasks.controller.js:17 | any two texts are comparable in the store's text order |
| `Strings.LessEqTransitive` | backend/controllers/tasks.controller.js:17 | the store's text order is transitive |
| `Strings.ValidatorLength` | backend/routes/task.routes.js:26 | the validator's length is at most the number of code points |
| `Strings.Utf16Length` | frontend/src/components/TaskForm.jsx:48 | the JavaScript length lies between the code-point count and twice that |
| `Strings.Contains` | frontend/src/pages/Home.jsx:99-101 | `includes` holds exactly when the term occurs at some offset |
| `Sorting.Sort` | backend/controllers/tasks.controller.js:19 | the sorted list is a permutation of the input |
| `Sorting.SortSorted` | frontend/src/pages/Home.jsx:110-128 | under a total preorder the result is ordered |
| `Sorting.SortAllTiesIdentity` | frontend/src/pages/Home.jsx:127 | when every pair ties, the order is kept |
| `Sorting.SortStable` | frontend/src/pages/Home.jsx:110-128 | stability: for any transitive order and any value, the elements tied with it keep their input order |
| `Sorting.InsertKeepsTies` | frontend/src/pages/Home.jsx:110-128 | an inserted element lands before every element tied with it, and the others tied with any value keep their order |
| `TaskModel.Assign` | backend/controllers/tasks.controller.js:117 | one key is assigned from the body; every other field, the id and creation time are unchanged |
| `TaskModel.Merge` | backend/controllers/tasks.controller.js:116-118 | each field is the body's value when the body carries the key, else the task's own |
| `TaskModel.FreshId` | backend/controllers/tasks.controller.js:77-78 | a new document id differs from every existing id and is not empty |
| `TasksController.BuildFilter` | backend/controllers/tasks.controller.js:9-11 | the filter always holds the caller; status and priority are added only when truthy |
| `TasksController.Select` | backend/controllers/tasks.controller.js:19 | exactly the stored tasks matching the filter are selected, each as many times as it is stored |
| `TasksController.BuildSort` | backend/controllers/tasks.controller.js:14-17 | "oldest", "dueDate" and "priority" select their orders; every other value gives newest first |
| `TasksController.OrderIsTotalPreorder` | backend/controllers/tasks.controller.js:14-19 | every sort option is total and transitive, so a sorted answer exists |
| `TasksController.PrioritySortIsTextual` | backend/controllers/tasks.controller.js:17 | by priority, "low" comes before "high" and "medium" before "low" |
| `TasksController.PrioritySortExample` | backend/controllers/tasks.controller.js:17-19 | [low, high, medium] sorted by priority is [medium, low, high] |
| `TasksController.FindOwned` | backend/controllers/tasks.controller.js:38-41 | the first task with that id and owner, or -1 exactly when there is none |
| `TasksController.ForeignTaskNotFound` | backend/controllers/tasks.controller.js:37-47 | another user's task is not found, the same as a missing one |
| `TasksController.NewTask` | backend/controllers/tasks.controller.js:72-78 | the owner is the caller even if the body names one; body fields are kept; status and priority default |
| `TasksController.UpdateBodyCanReassignOwner` | backend/controllers/tasks.controller.js:116-118 | an update body carrying `userId` moves the task away from the caller |
| `TasksController.Answer` | backend/controllers/tasks.controller.js:19-25 | the list is a sorted permutation of the selection, and `count` is its length |
| `TasksController.TaskStore.GetAllTasks` | backend/controllers/tasks.controller.js:4-33 | every returned task is the caller's and matches the given filters, in the requested order; a fault gives 500 |
| `TasksController.TaskStore.GetTaskById` | backend/controllers/tasks.controller.js:35-60 | found exactly when a task matches both id and owner, otherwise 404; a fault gives 500 |
| `TasksController.TaskStore.CreateTask` | backend/controllers/tasks.controller.js:62-92 | validation errors give 400 and no change; otherwise the new task, owned by the caller, is appended under a fresh id |
| `TasksController.TaskStore.UpdateTask` | backend/controllers/tasks.controller.js:94-134 | 400 comes before any lookup; a missing task gives 404 and no change; otherwise only the found task changes, to the body merged over it |
| `TasksController.TaskStore.DeleteTask` | backend/controllers/tasks.controller.js:136-161 | exactly the one matching task is removed and the others keep their order; none matching gives 404 |
| `TasksController.TaskStore.FilterTask` | backend/controllers/tasks.controller.js:163-184 | the caller's tasks with exactly that status, newest first |
| `TasksController.AssignKeys` | backend/controllers/tasks.controller.js:116-118 | in any key order, the loop ends with the body merged over the task |
| `TasksController.RemovalKeepsUniqueIds` | backend/controllers/tasks.controller.js:138-141 | removing a task keeps ids unique |
| `TasksController.DeletedTaskIsGone` | backend/controllers/tasks.controller.js:138-148 | after a delete, no caller finds that id |
| `TasksController.UnknownStatusSelectsNothing` | backend/controllers/tasks.controller.js:165-176 | a path status outside the three statuses gives an empty list |
| `TasksController.FindAppended` | backend/controllers/tasks.controller.js:39-41 | a task appended under a fresh id is found by its owner |
| `TasksController.CreateThenGet` | backend/controllers/tasks.controller.js:62-92 | a created task is then fetched by id with the fields it was created with |
| `TasksController.DeleteTwice` | backend/controllers/tasks.controller.js:138-148 | a second delete of the same id answers 404 |
| `AuthMiddleware.Decide` | backend/middlewares/user.middleware.js:4-28 | no token gives 404; a throwing verify gives 401 with its message; no `userId` gives 404; a throwing lookup gives 401 with its message; an unknown user gives 404 "User does'n exist"; next is called exactly on full success, with that user |
| `AuthMiddleware.AuthUser` | backend/middlewares/user.middleware.js:22-23 | `req.user` is set to the found user exactly when next is called |
| `TaskRoutes.Sanitize` | backend/routes/task.routes.js:22-32 | title and description are trimmed when present; every other key is passed through unchanged |
| `TaskRoutes.SanitizeKeepsKeys` | backend/controllers/tasks.controller.js:116 | the sanitised body carries exactly the keys of the original |
| `TaskRoutes.Dispatch` | backend/routes/task.routes.js:15-81 | read handlers change no task and disclose only the caller's; create and update with errors answer 400 and change nothing |
| `TaskRoutes.TwoDigits` | backend/routes/task.routes.js:43 | a digit pair reads as a number from 0 to 99 |
| `TaskRoutes.Iso8601Examples` | backend/routes/task.routes.js:41-44 | a calendar date, with or without a time part, passes; month 13 and other formats do not |
| `TaskRoutes.Report` | backend/controllers/tasks.controller.js:64-70 | one error entry per failed rule, in order |
| `TaskRoutes.TitleRules` | backend/routes/task.routes.js:22-27 | a trimmed title is refused when empty and when over 200 characters |
| `TaskRoutes.TitlePart` | backend/routes/task.routes.js:53-59 | on update an absent title is not checked |
| `TaskRoutes.Check` | backend/routes/task.routes.js:33-36 | one rule is reported exactly when it fails |
| `TaskRoutes.Failed` | backend/routes/task.routes.js:21-45 | exactly the failed rules are reported |
| `TaskRoutes.Errors` | backend/routes/task.routes.js:52-77 | the error list is empty exactly when no rule fails |
| `TaskRoutes.AcceptableIsPassingAll` | backend/routes/task.routes.js:33-44 | the rule-by-rule acceptance is passing every rule |
| `TaskRoutes.NoErrorsIffAcceptable` | backend/routes/task.routes.js:21-45 | a chain reports nothing exactly when the body meets every rule |
| `TaskRoutes.TitleBoundIsInclusive` | backend/routes/task.routes.js:26-27 | a 200-character title passes and a 201-character title does not |
| `TaskRoutes.UpdateTitleIsOptional` | backend/routes/task.routes.js:53-57 | on update an absent title is not checked, and a blank one is refused |
| `TaskRoutes.Serve` | backend/routes/task.routes.js:15-81 | the guard runs first; a refusal reaches no handler and changes no task; other handlers disclose only the caller's tasks |
| `UserController.Public` | backend/controllers/user.controller.js:63-67 | a reply carries the id, username and email, and no password |
| `UserController.SignupRejection` | backend/controllers/user.controller.js:9-45 | the first failed check wins: missing field, email, strength, username length, password length, existing email |
| `UserController.FindByEmail` | backend/controllers/user.controller.js:39 | the first user with that email, or -1 exactly when there is none |
| `UserController.Session` | backend/controllers/user.controller.js:52-59 | the cookie named "token" holds the token signed over id, username and email with a 7200-second expiry, and lives 604800000 milliseconds |
| `UserController.UserStore.PostSignup` | backend/controllers/user.controller.js:6-73 | a failed field check answers 400 with its message; a lookup fault answers 400; an existing email answers "User already exists"; a hashing or insert fault answers 400 and stores nothing; otherwise the user is stored with the hashed password, and the reply is 201 with the session, or 400 when signing throws |
| `UserController.UserStore.Login` | backend/controllers/user.controller.js:75-110 | missing fields give 401 "Email and Password is required !"; an unknown email or a wrong password give 401 "Invalid email or password !"; a lookup, comparison or signing fault gives 401 with its message; success exactly when none of these happens, with that user's session |
| `UserController.LoginDoesNotRevealAccounts` | backend/controllers/user.controller.js:81-88 | for any unknown email and any known email with a wrong password the replies are identical, and differ from the missing-field reply |
| `UserController.Logout` | backend/controllers/user.controller.js:112-124 | the token cookie is overwritten with the serialised null "j:null", as a session cookie, with status 201 |
| `UserController.LogoutEndsSession` | backend/controllers/user.controller.js:116 | once logged out, no task handler runs unless `jwt.verify` accepts "j:null"; when it throws, the guard answers 401 with its message |
| `UserController.ValidUser` | backend/controllers/user.controller.js:126-138 | only the three public fields of the user, with status 201 |
| `TaskSlice.Overlay` | frontend/src/slicer/taskSlicer.js:179-181 | keys in the payload override; the others keep their value |
| `TaskSlice.OverlayLaws` | frontend/src/slicer/taskSlicer.js:179-181 | an empty payload changes nothing, and the same payload twice is the same as once |
| `TaskSlice.IndexOfId` | frontend/src/slicer/taskSlicer.js:192-194 | the first position with the id, or -1 exactly when there is none |
| `Sequences.FirstIndex` | frontend/src/slicer/taskSlicer.js:192-194 | `findIndex`: the first position satisfying the test, or -1 exactly when none does |
| `Sequences.Project` | frontend/src/components/Header.jsx:34-39 | the field projection the counts are taken over: same length, each element the image of the one at its position |
| `Sequences.ProjectCons` | frontend/src/components/Header.jsx:34-39 | mapping a non-empty sequence maps its head, then its tail |
| `TaskSlice.RemoveId` | frontend/src/slicer/taskSlicer.js:201 | the tasks kept are exactly those with another id |
| `TaskSlice.RemoveIdSplits` | frontend/src/slicer/taskSlicer.js:201 | removal keeps the order of the rest |
| `TaskSlice.RemoveIdAbsent` | frontend/src/slicer/taskSlicer.js:201 | removing an absent id changes nothing |
| `TaskSlice.RemoveIdIdempotent` | frontend/src/slicer/taskSlicer.js:280-282 | removing twice is removing once |
| `TaskSlice.Slice.constructor` | frontend/src/slicer/taskSlicer.js:160-171 | the initial state, with the default filters |
| `TaskSlice.Slice.ClearError` | frontend/src/slicer/taskSlicer.js:173-175 | only the error is cleared |
| `TaskSlice.Slice.ClearCurrentTask` | frontend/src/slicer/taskSlicer.js:176-178 | only the current task is cleared |
| `TaskSlice.Slice.SetFilters` | frontend/src/slicer/taskSlicer.js:179-181 | the filters become the payload laid over them; nothing else changes |
| `TaskSlice.Slice.ResetFilters` | frontend/src/slicer/taskSlicer.js:182-189 | the filters return to the defaults; nothing else changes |
| `TaskSlice.Slice.UpdateTaskLocally` | frontend/src/slicer/taskSlicer.js:191-198 | the payload is merged into the first task with its id, or nothing changes |
| `TaskSlice.Slice.DeleteTaskLocally` | frontend/src/slicer/taskSlicer.js:200-202 | every task with the id is removed |
| `TaskSlice.Slice.Pending` | frontend/src/slicer/taskSlicer.js:207-210 | every pending case: loading is set and error cleared, nothing else |
| `TaskSlice.Slice.Rejected` | frontend/src/slicer/taskSlicer.js:216-219 | every rejected case: loading is cleared and error is the payload |
| `TaskSlice.Slice.ListFulfilled` | frontend/src/slicer/taskSlicer.js:211-215 | list, filter and query results replace the whole list |
| `TaskSlice.Slice.GetByIdFulfilled` | frontend/src/slicer/taskSlicer.js:226-230 | the fetched task becomes current |
| `TaskSlice.Slice.CreateFulfilled` | frontend/src/slicer/taskSlicer.js:241-245 | the new task is put in front, so the length grows by one |
| `TaskSlice.Slice.UpdateFulfilled` | frontend/src/slicer/taskSlicer.js:256-268 | only the first match is replaced, and the current task if its id matches |
| `TaskSlice.Slice.DeleteFulfilled` | frontend/src/slicer/taskSlicer.js:279-288 | every match is removed, and a matching current task is cleared |
| `TaskSlice.Slice.StatusFulfilled` | frontend/src/slicer/taskSlicer.js:329-341 | only the status of the first match, and of the matching current task, changes |
| `TaskSlice.Slice.PriorityFulfilled` | frontend/src/slicer/taskSlicer.js:352-364 | only the priority of the first match, and of the matching current task, changes |
| `TaskSlice.ReplaceFirstKeepsOthers` | frontend/src/slicer/taskSlicer.js:259-264 | replacing by id keeps the length and every other entry |
| `TaskSlice.StatusChangeTouchesOneField` | frontend/src/slicer/taskSlicer.js:334-335 | a status change touches no other field |
| `TaskSlice.DeleteTwiceIsOnce` | frontend/src/slicer/taskSlicer.js:279-288 | an optimistic delete after a confirmed one changes nothing more |
| `Home.FilterTasks` | frontend/src/pages/Home.jsx:97-109 | a task is shown exactly when it matches the search, the status and the priority |
| `Home.EmptySearchShowsAll` | frontend/src/pages/Home.jsx:97-109 | an empty search with "all" and "all" keeps every task, in order |
| `Home.Rank` | frontend/src/pages/Home.jsx:122 | high ranks 3, medium 2, low 1 |
| `Home.Key` | frontend/src/pages/Home.jsx:110-128 | an unknown sort field gives every task the same key |
| `Home.SortTasks` | frontend/src/pages/Home.jsx:110-128 | the result is an ordered permutation |
| `Home.VisibleTasks` | frontend/src/pages/Home.jsx:97-128 | filtered, never longer than the input, and ordered |
| `Home.UnknownSortKeepsOrder` | frontend/src/pages/Home.jsx:127 | an unknown sort field keeps the filtered order |
| `Home.PriorityDescendingRanks` | frontend/src/pages/Home.jsx:121-126 | by priority descending, ranks never increase |
| `Home.PriorityDescendingExample` | frontend/src/pages/Home.jsx:121-126 | [low, high, medium] becomes [high, medium, low] |
| `Home.CreatedAtOrder` | frontend/src/pages/Home.jsx:111-115 | newest first for "desc", oldest first otherwise |
| `Home.UndatedPlacement` | frontend/src/pages/Home.jsx:116-120 | undated tasks come first ascending and last descending |
| `Home.PriorityTone` | frontend/src/pages/Home.jsx:130-141 | any value but the three priorities gets the gray default |
| `Home.StatusTone` | frontend/src/pages/Home.jsx:143-156 | any value but the three statuses gets the gray default |
| `Home.IsOverdue` | frontend/src/pages/Home.jsx:176-179 | never overdue without a due date or when completed; otherwise overdue when the date has passed |
| `TaskForm.BeforeT` | frontend/src/components/TaskForm.jsx:24 | the longest prefix without a "T" |
| `TaskForm.BeforeTOfDateTime` | frontend/src/components/TaskForm.jsx:24 | a date-time prefills as its date part |
| `TaskForm.FromTask` | frontend/src/components/TaskForm.jsx:16-26 | a missing field takes its default: "", "pending" or "medium"; the date is the text before the first "T", a prefix of the stored date |
| `TaskForm.TitleProblem` | frontend/src/components/TaskForm.jsx:46-50 | blank after trimming gives "Title is required"; over 200 untrimmed gives the length message |
| `TaskForm.TitleBound` | frontend/src/components/TaskForm.jsx:48-50 | 200 characters pass, 201 do not |
| `TaskForm.EmptyDescriptionAccepted` | frontend/src/components/TaskForm.jsx:52-54 | an empty description is never refused |
| `TaskForm.Form.constructor` | frontend/src/components/TaskForm.jsx:5-14 | the empty form with its defaults |
| `TaskForm.Form.Prefill` | frontend/src/components/TaskForm.jsx:16-26 | a given task replaces the form data |
| `TaskForm.Form.HandleChange` | frontend/src/components/TaskForm.jsx:28-41 | only the named field changes, and only its error is cleared |
| `TaskForm.ErrorMap` | frontend/src/components/TaskForm.jsx:43-58 | the errors object holds a title entry exactly when the title fails, a description entry exactly when it is too long, and nothing else; it is empty exactly when neither fails |
| `TaskForm.Form.Validate` | frontend/src/components/TaskForm.jsx:43-58 | the recorded errors are those of the title and description checks, and the result is true exactly when the form is valid |
| `TaskForm.Form.HandleSubmit` | frontend/src/components/TaskForm.jsx:43-75 | the errors shown are the validation's; data goes to `onSubmit` exactly when it validates; after a submission the form is not marked submitting |
| `Signup.UsernameMessage` | frontend/src/pages/Signup.jsx:28-32 | accepted exactly at 3 to 20 characters of `[a-zA-Z0-9_ ]` |
| `Signup.PasswordMessage` | frontend/src/pages/Signup.jsx:34-38 | accepted exactly at 6 characters or more with a capital and a digit |
| `Signup.Messages` | frontend/src/pages/Signup.jsx:26-44 | the mismatch message goes on `confirmPassword` |
| `Signup.UsernameRule` | frontend/src/pages/Signup.jsx:28-32 | for ASCII names, the rule counts characters |
| `Signup.Criteria` | frontend/src/pages/Signup.jsx:72-76 | at most five criteria are met |
| `Signup.Score` | frontend/src/pages/Signup.jsx:70-82 | the score is one of 0, 25, 50, 75, 100, and 0 for an empty password |
| `Signup.PasswordStrength` | frontend/src/pages/Signup.jsx:70-82 | the step-by-step sum, capped, equals the score |
| `Signup.ScoreCanBeZero` | frontend/src/pages/Signup.jsx:70-82 | a short plain password scores 0 |
| `Signup.StrengthText` | frontend/src/pages/Signup.jsx:124-129 | Weak below 30, Strong from 80 |
| `Signup.StrengthColor` | frontend/src/pages/Signup.jsx:117-122 | red below 30, green from 80 |
| `Signup.StrengthLabels` | frontend/src/pages/Signup.jsx:117-129 | label and colour follow the same thresholds |
| `Signup.OnSubmit` | frontend/src/pages/Signup.jsx:108-115 | nothing is sent without the terms; the confirmation is dropped |
| `Header.CountStatus` | frontend/src/components/Header.jsx:34-39 | the count is the number of tasks with exactly that status |
| `Header.CountStatusIsMultiplicity` | frontend/src/components/Header.jsx:34-39 | the count is the number of times the status occurs among the tasks' statuses |
| `Header.CountsWithinTotal` | frontend/src/components/Header.jsx:34-40 | the three counts sum to at most the total |
| `Header.RoundedPercent` | frontend/src/components/Header.jsx:41-42 | the rate is within 0 to 100, is the rounded percentage, and is 100 when all are done |
| `Header.RoundingFacts` | frontend/src/components/Header.jsx:42 | the bounds of the rounded percentage |
| `Header.TaskStats` | frontend/src/components/Header.jsx:34-42 | undefined or empty tasks give all zeros; otherwise the total is the length, the three counts are the status counts, and the rate is the rounded percentage of completed tasks, from 0 to 100 |
| `Header.Unread` | frontend/src/components/Header.jsx:118 | the number of unread notifications |
| `Header.UnreadIsMultiplicity` | frontend/src/components/Header.jsx:118 | the badge is the number of times `false` occurs among the read flags |
| `Header.UnreadBadge` | frontend/src/components/Header.jsx:88-118 | the fixed list has 2 unread |
| `App.Route` | frontend/src/App.jsx:53-78 | a path that matches "/" (ignoring case and trailing slashes) shows Home exactly when signed in; one that matches the sign-in pages shows them exactly when signed out and otherwise redirects to "/"; any other path shows NotFound or redirects to "/login" |
| `App.PatternsDisjoint` | frontend/src/App.jsx:53-78 | no path matches two of the three route patterns, so their order does not matter |
| `App.RouteExamples` | frontend/src/App.jsx:60-67 | signed in, "/login/" redirects to "/"; signed out, "/Signup" shows the sign-up page |
| `App.RouteNearMisses` | frontend/src/App.jsx:53-78 | "//" reaches Home; "/logins" matches no page and, signed out, redirects to "/login" |
| `App.Render` | frontend/src/App.jsx:38-47 | only the spinner while loading before the first check |
| `App.SignedOutNeverSeesTasks` | frontend/src/App.jsx:53-78 | signed out, no path reaches Home or NotFound |
| `App.SignedInSkipsAuthPages` | frontend/src/App.jsx:60-67 | signed in, any path matching the sign-in pages leads to Home |
| `App.Shell.VerifyAuth` | frontend/src/App.jsx:25-36 | the check is marked done whatever its outcome |
| `TaskFilter.Toggle` | frontend/src/components/TaskFilter.jsx:85 | "asc" becomes "desc"; anything else becomes "asc" |
| `TaskFilter.ToggleTwice` | frontend/src/components/TaskFilter.jsx:85 | toggling twice is the identity on the two directions |
| `TaskFilter.OptionsMatchAcceptedValues` | frontend/src/components/TaskFilter.jsx:13-31 | the options are "all" plus the accepted statuses and priorities; the sort fields are the comparator's keys |

## Left out

- The document store is a sequence. Indexes, persistence, the schema's own validation on save, and casting are not modelled. In the task controller any store exception, including a malformed id, is the `fault` parameter and answers 500. In the user controller a `Fault` names the awaited call that throws (lookup, bcrypt, insert, signing): 400 in sign-up, 401 in log-in, with the error's message.
- Query values that arrive as arrays or objects are not modelled. Body keys other than the six task fields (`_id`, `createdAt`, unknown keys) are not modelled either.
- `TasksController.TaskStore.GetAllTasks`: ties in the store's sort are not ordered, because the store leaves them unspecified. The contract promises a sorted permutation, not one particular order.
- `TasksController.Reply`: the 404 reply carries no message text ("Task not found").
- `TaskRoutes.Report`: each error entry carries the field name and the message only. express-validator's entries also carry `type` ("field"), `value` (the field's value after trimming) and `location` ("body"), and the 400 reply includes them; those three are not modelled.
- `TaskRoutes.IsIso8601` is a simplified date check: `YYYY-MM-DD`, month 01-12, day 01-31, optionally followed by `T…`. The library call is not strict, so like the model it accepts any day from 01 to 31 ("2024-02-31" passes both). The library accepts forms the model refuses: week dates, ordinal dates, a space in place of `T`, reduced precision. The model accepts any text after `T`.
- Request values are strings. The validators' conversion of numbers and other JSON types to text is not modelled.
- Token signing and verification, password hashing and comparison, `validator.isEmail`, `validator.isStrongPassword` and zod's `.email()` are oracles. Their internals are foreign libraries.
- Log-out's `jwt.decode` result is unused. Its 503 path and `validUser`'s 503 path are not modelled; in the model neither step can fail.
- Cookie transport: Express's serialisation of the null value to "j:null" and cookie-parser keeping that text are stated as facts about those libraries, which are not modelled as code; `jwt.verify` on "j:null" stays an oracle. Expiry of the cookie and of the token over time is not modelled.
- `Strings.ToLower` folds ASCII letters only. `toLowerCase` folds all of Unicode.
- `App.At`: the router's percent-decoding of the path and any basename are not modelled; paths are taken as already decoded.
- `Home.Rank`: an unknown priority ranks 0, where the source computes NaN, which makes the comparator inconsistent.
- `Home.PriorityTone` and `Home.StatusTone` return a colour family, not the class strings. Inherited object keys such as "constructor" are not modelled.
- `Home.SortTasks` is a stable insertion sort. That matches `Array.prototype.sort` for a consistent comparator; the engine's algorithm is not modelled.
- The `tasks?.filter` case with tasks undefined is not modelled in `Home`; the slice always holds a list.
- `Header.RoundedPercent` uses exact rational rounding, not floating point.
- Dates are epoch milliseconds plus their text. `formatDate`, `toLocaleDateString` and the `Math.ceil` day difference are not modelled.
- `Home.IsOverdue` takes "now" as a parameter.
- The thunks' HTTP calls are not modelled, so their payloads are parameters. Note that the PATCH routes the status and priority thunks call do not exist on the backend.
- Concurrency between requests, JSX rendering, styling, toasts, navigation effects, the theme toggle, the login page, the not-found page, and the server and store wiring are not modelled.
