# Couple workspace server, modelled in Dafny

The server side of a shared todo application for couples. Each user belongs
to a couple, a workspace of at most two people. The couple shares a todo list,
comments on the todos and an activity log. The model covers:

- the six tables of the database: users, couples, couple memberships, todos,
  comments and activity log rows. It covers their serial ids, column defaults,
  and UNIQUE and foreign-key constraints (`schema.dfy`);
- the storage object `DatabaseStorage` (`storage.dfy`):
  - its reads are pure functions over the tables: lookups, the
    membership/users join, the couple's todos newest first with their
    comments oldest first, and the capped activity feed;
  - its writes are methods of a class whose table fields they replace in place,
    with the database's constraint failures as `Result` errors;
- the HTTP handlers (`routes.dfy`). Each is a method over the storage object.
  The caller is an optional user id; `None` stands for an unauthenticated
  request. Each method returns the status and body the handler sends, or
  `Unhandled` when the handler's promise rejects;
- the shared route table and `buildUrl` (`api.dfy`). `buildUrl` needs
  the JavaScript string built-ins it relies on (`jstext.dfy`): `substring`,
  `toUpperCase`, `replace` with its `$` patterns, `String(n)` and `parseInt`;
- the start-up `seed` script (`seed.dfy`), both as pure step functions over a
  store value and as methods on the storage object proved to follow them;
- what the handlers guarantee together (`workspace.dfy`): the two-member rule,
  the couple a user resolves to, where new rows appear in the lists, that the
  log only grows, and that the seeded couple "LOVE24" is already full.

Timestamps are a logical clock. It ticks once per successful insert, so
ordering by `createdAt` is table order. Ids come from per-table sequences
starting at 1, and a failed insert still consumes its sequence value.

Behaviour of the code worth knowing, which the model follows as written:

- Joining does not check whether the caller already has a couple. A paired
  user can join a second couple and then holds membership rows in both.
  `getUserCouple` reads their rows without an ORDER BY, so the program only
  promises that they still resolve to one of their couples
  (`Workspace.PairedJoinerResolvesToOneOfTheirCouples`). The model reads rows
  in table order, and under that choice they stay with the first couple
  (`Workspace.PairedJoinerKeepsFirstCouple`).
- Invite codes are looked up by exact string equality. A new code is not
  checked against existing codes before the insert. A collision fails on the
  UNIQUE constraint, the handler's promise rejects, and the model answers
  `Unhandled`.
- `complete_todo` is logged whenever a patch sets the status to
  `"completed"`, whatever the previous status was.
- Update, delete and comment never check the todo's couple.
- Update and delete never answer 404:
  - updating a missing id answers 200 with no body;
  - with a status of `"completed"`, updating a missing id rejects while
    reading the missing row's title;
  - deleting a missing id answers "Deleted".
- The join handler logs `"joined_couple"`, while the seed script writes
  `"join_couple"`.
- Nothing in the schema bounds members per couple or makes a membership's user
  unique (`Schema.SchemaAllowsCrowdsAndDoublePairing`).

## Model

| member | source | states |
|---|---|---|
| JsText.Substring | server/routes.ts:49 | `substring` clamps both bounds to the string and swaps them when reversed: inside the string it is the slice, past the end it stops at the end, reversed bounds give the slice between them, a negative bound acts as 0, and the result is never longer than the requested span |
| JsText.SubstringSwaps | server/routes.ts:49 | exchanging the two bounds gives the same text |
| JsText.SubstringClamps | server/routes.ts:49 | every bound acts as its value clamped to the string's length |
| JsText.ToUpperCase | server/routes.ts:49 | same length; every ASCII lower-case letter becomes its upper-case letter and every other character is kept |
| JsText.IndexOf | shared/routes.ts:145 | the position found holds the pattern and no earlier position does; none means the pattern occurs nowhere |
| JsText.Replace | shared/routes.ts:145 | string-pattern `replace`: no occurrence leaves the text unchanged, otherwise exactly the first occurrence is replaced by the expanded replacement text |
| JsText.ExpandPlain | shared/routes.ts:145 | a replacement without `$` is inserted as written |
| JsText.ReplaceFirst | shared/routes.ts:145 | with a `$`-free replacement, the text before the first match, the replacement and the text after it |
| JsText.ReplaceWithMatch | shared/routes.ts:145 | the replacement `$&` puts the match back, so the text is unchanged |
| JsText.FirstAtUnique | shared/routes.ts:145 | a pattern has at most one first occurrence |
| JsText.NumberToString | shared/routes.ts:145 | `String(n)` is non-empty, made of digits and `-`, and contains no `$` |
| JsText.DecimalValue | shared/routes.ts:145 | the decimal digits of `n` read back as `n` |
| JsText.DigitOf | server/routes.ts:139 | a character's digit value; below 10 exactly for the decimal digits, which count from "0" |
| JsText.LeadingDigits | server/routes.ts:139 | the length of the longest prefix of digits of the base: all before it are digits, the next character is not |
| JsText.LeadingSpace | server/routes.ts:139 | the length of the white space `parseInt` skips: all before it is white space, the next character is not |
| JsText.ParseSigned | server/routes.ts:139 | once white space is skipped: a number exactly when the text is a numeral or one sign and a numeral, the value of the longest such numeral, negated after "-" |
| JsText.ParseInt | server/routes.ts:139 | after leading white space, `parseInt` yields a number exactly when the text starts with a numeral, or with one sign and a numeral (decimal digits, or "0x"/"0X" and hexadecimal digits); the number is the value of the longest such numeral, negated after "-"; otherwise NaN |
| JsText.ParseIntSkipsSpace | server/routes.ts:139 | white space in front of an id changes nothing |
| JsText.ParseIntHex | server/routes.ts:139 | "0x1A" reads as 26 |
| JsText.ParseIntAfterSpace | server/routes.ts:139 | " 7" reads as 7 |
| JsText.ParseIntStopsAtLetter | server/routes.ts:139 | "12abc" reads as 12 |
| JsText.ParseIntNoDigit | server/routes.ts:139 | "abc" reads as NaN |
| JsText.DecimalIsNumeral | shared/routes.ts:145 | the decimal digits of `n` are a numeral whose value is `n` |
| JsText.ParseIntReadsNumber | server/routes.ts:139 | `parseInt(String(n)) == n` for every integer |
| Api.EndpointsDistinct | shared/routes.ts:20-139 | no two entries of the route table share method and path |
| Api.Render | shared/routes.ts:145 | a numeric param renders as `String(n)`, free of `$` patterns |
| Api.BuildUrl | shared/routes.ts:141-149 | without params the path comes back unchanged; with params the loop leaves exactly the path after each entry, in order, has replaced the first `":" + key` |
| Api.SubstitutedWithoutPlaceholders | shared/routes.ts:144-146 | params whose placeholders do not occur leave the path unchanged |
| Api.SubstitutedOne | shared/routes.ts:145 | one entry performs one `replace` of `":" + key` by `String(value)` |
| Api.IdPlaceholderAt | shared/routes.ts:102-128 | the first `:id` of the update, delete and comment paths is at position 11 |
| Api.TodoUrl | shared/routes.ts:141-149 | `buildUrl("/api/todos/:id", {id: n})` is `"/api/todos/"` followed by `String(n)` |
| Api.CommentsUrl | shared/routes.ts:141-149 | `buildUrl("/api/todos/:id/comments", {id: n})` is `"/api/todos/" + String(n) + "/comments"` |
| Api.IdSurvivesTheUrl | server/routes.ts:139 | the handler's `parseInt` of the id segment recovers the id `buildUrl` put in |
| Api.DollarAmpersandKeepsPlaceholder | shared/routes.ts:145 | a text value `"$&"` is expanded by `replace` and leaves the placeholder in place |
| Api.OnlyFirstOccurrence | shared/routes.ts:145 | a key occurring twice has only its first placeholder replaced |
| Api.PrefixKeyTakesPlaceholder | shared/routes.ts:144-146 | keys match as plain prefixes: an entry `i` before `id` consumes the `:i` of `:id` |
| Schema.NewUser | shared/schema.ts:11-18 | an inserted user carries the supplied columns, the sequence's id and the current time |
| Schema.NewTodo | shared/schema.ts:34-45 | an inserted todo keeps the supplied columns and defaults an omitted status to "pending", priority to "medium" and assignee to "both" |
| Schema.ApplyPatch | server/storage.ts:134-140 | an update sets exactly the supplied columns, keeps id, creation time and every other column, and an empty patch changes nothing |
| Schema.SchemaAllowsCrowdsAndDoublePairing | shared/schema.ts:26-32 | some database satisfying every constraint has a couple with three members and a user in two couples |
| Storage.GetUser | server/storage.ts:57-60 | finds a row with the id exactly when one exists |
| Storage.GetUserByUsername | server/storage.ts:62-65 | finds a row with the email exactly when one exists |
| Storage.GetCoupleByInviteCode | server/storage.ts:78-81 | finds a couple whose code equals the given text exactly, and none exactly when no code does |
| Storage.GetCoupleById | server/storage.ts:83-86 | finds a couple with the id exactly when one exists |
| Storage.JoinUsers | server/storage.ts:93-97 | the inner join holds exactly the users some membership row names |
| Storage.GetCoupleMembers | server/storage.ts:92-98 | exactly the users whose membership row has the couple id |
| Storage.GetUserCouple | server/storage.ts:100-107 | none for a user without membership rows; otherwise a couple that one of the user's rows names |
| Storage.GetComments | server/storage.ts:152-156 | exactly the comments on the todo, in ascending creation order |
| Storage.AttachComments | server/storage.ts:116-119 | each todo in place, paired with its own comments |
| Storage.GetTodos | server/storage.ts:110-122 | only the couple's todos and all of them, newest first, each with exactly its own comments in `getComments` order, oldest first |
| Storage.GetTodo | server/storage.ts:124-127 | finds a todo with the id exactly when one exists |
| Storage.GetActivityLogs | server/storage.ts:163-168 | at most 20 rows, all the couple's, and as many as the couple has up to 20 |
| Storage.ActivityLogsAreTheNewest | server/storage.ts:163-168 | the feed is newest first, every row it leaves out is older than every row it shows, and it shows all rows when the couple has at most 20 |
| Storage.InviteCodeFindsItsCouple | server/storage.ts:78-81 | with unique codes, a couple's own code finds that couple |
| Storage.OneUserPerId | shared/schema.ts:12 | a serial user id matches exactly one row |
| Storage.JoinKeepsRowCount | server/storage.ts:93-97 | the join returns one user per membership row |
| Storage.CoupleMembersCount | server/storage.ts:92-98 | the handlers' `members.length` is the couple's number of membership rows |
| Storage.PairedUserHasCouple | server/storage.ts:100-107 | with foreign keys holding, a user resolves to a couple exactly when they have a membership row |
| Storage.SerialInsert | shared/schema.ts:12 | a row stamped with the next id and the clock keeps ids and stamps strictly increasing |
| Storage.EmptyWellformed | shared/schema.ts:11-62 | the empty database with every sequence at 1 satisfies every constraint |
| Storage.ConsumeSequences | shared/schema.ts:12 | sequences that only move forward keep the database well formed |
| Storage.InsertUserRow | shared/schema.ts:11-18 | a user with a new email keeps the database well formed |
| Storage.InsertCoupleRow | shared/schema.ts:20-24 | a couple with a new invite code keeps the database well formed |
| Storage.InsertMemberRow | shared/schema.ts:26-32 | a membership naming an existing user and couple keeps the database well formed |
| Storage.InsertTodoRow | shared/schema.ts:34-45 | a todo naming an existing couple and author keeps the database well formed |
| Storage.InsertCommentRow | shared/schema.ts:47-53 | a comment naming an existing todo and author keeps the database well formed |
| Storage.InsertLogRow | shared/schema.ts:55-62 | a log row naming an existing couple and user keeps the database well formed |
| Storage.PatchTodos | server/storage.ts:134-140 | the UPDATE keeps the number of rows, their ids and their creation times |
| Storage.PatchKeepsConstraints | server/storage.ts:134-140 | a patch whose new references exist keeps every constraint and the serial order |
| Storage.DeleteKeepsConstraints | server/storage.ts:142-144 | deleting a todo no comment references keeps every constraint and the serial order |
| Storage.PatchKeepsWellformed | server/storage.ts:134-140 | a patch whose references exist keeps the database well formed |
| Storage.DeleteKeepsWellformed | server/storage.ts:142-144 | deleting an uncommented todo keeps the database well formed |
| Storage.DatabaseStorage.constructor | shared/schema.ts:11-62 | a freshly created database: the six tables empty, well formed, every serial sequence at 1 |
| Storage.DatabaseStorage.CreateUser | server/storage.ts:67-70 | fails on a taken email and changes nothing but the sequence; otherwise appends exactly the new row with the next id |
| Storage.DatabaseStorage.CreateCouple | server/storage.ts:73-76 | fails on a taken invite code changing only the sequence; otherwise appends exactly the new couple |
| Storage.DatabaseStorage.AddCoupleMember | server/storage.ts:88-90 | fails when the user or couple is missing; otherwise appends exactly one membership row and touches no existing row |
| Storage.DatabaseStorage.CreateTodo | server/storage.ts:129-132 | fails when the couple or author is missing; otherwise appends exactly the defaulted todo |
| Storage.DatabaseStorage.UpdateTodo | server/storage.ts:134-140 | fails only when a patched reference is missing; otherwise patches exactly the rows with the id, leaves every other row as it was, and returns the row (none when no row has the id) |
| Storage.DatabaseStorage.DeleteTodo | server/storage.ts:142-144 | fails when the todo has comments; otherwise removes exactly the rows with the id |
| Storage.DatabaseStorage.CreateComment | server/storage.ts:147-150 | fails when the todo or author is missing; otherwise appends exactly one comment |
| Storage.DatabaseStorage.LogActivity | server/storage.ts:159-161 | fails when the couple or user is missing; otherwise appends exactly one log row |
| Routes.InviteCode | server/routes.ts:49 | the invite code has at most 6 characters (exactly 6 from a long enough rendering), each a digit or an upper-case letter |
| Routes.AddMemberKeepsPairsBounded | server/routes.ts:72-76 | a membership added to a couple with fewer than two keeps every couple at two or fewer |
| Routes.FreshCoupleHasNoMembers | server/routes.ts:50-52 | the couple just created has no membership rows |
| Routes.PairedUserExists | shared/schema.ts:28 | a user with a membership row exists |
| Routes.CoupleIdsPositive | server/routes.ts:36 | stored couple ids are positive, so the null fallback of `coupleId` never replaces a found couple's id |
| Routes.GetCurrentUser | server/routes.ts:24-37 | 401 for no session or an unknown user; otherwise the user's row with a couple id exactly when they have a membership |
| Routes.CreateCouple | server/routes.ts:41-61 | 401 and 400 "Already in a couple" change nothing; otherwise founds the couple with the generated code |
| Routes.FoundCouple | server/routes.ts:49-60 | a code in use rejects with nothing written; otherwise exactly one couple, one "admin" membership and one "created_couple" row are appended, then 201 |
| Routes.JoinCouple | server/routes.ts:63-85 | 401 and 400 "Invalid invite code" change nothing; otherwise the outcome of joining the couple with the code |
| Routes.CountMembers | server/routes.ts:73 | the couple's member count |
| Routes.AddToCouple | server/routes.ts:72-84 | 400 "full" with nothing written at two or more members; otherwise exactly one "member" row and one "joined_couple" row, then 200 |
| Routes.Seat | server/routes.ts:76-84 | appends the membership row then the log row and answers the couple; a missing user rejects before any write |
| Routes.GetCouple | server/routes.ts:87-96 | 401; 404 without membership; otherwise one of the caller's couples with exactly its members, the caller among them, at most two when pairs are bounded |
| Routes.ListTodos | server/routes.ts:100-108 | 401; 400 "Not in a couple"; otherwise the todos of the caller's couple only, newest first |
| Routes.WithOwner | server/routes.ts:117-121 | the stored todo takes its couple from the caller's couple and its author from the caller |
| Routes.CreateTodo | server/routes.ts:110-131 | 401 and 400 change nothing; otherwise creates the todo in the caller's couple |
| Routes.AddTodo | server/routes.ts:116-130 | appends exactly the defaulted todo and one "create_todo" row naming its title, then 201 with the todo |
| Routes.UpdateTodo | server/routes.ts:133-153 | 401 and 400 change nothing; otherwise the patch outcome for the parsed id in the caller's couple |
| Routes.PatchTodo | server/routes.ts:139-152 | patches the rows with the id; logs "complete_todo" exactly when the patch sets status "completed", whatever the old status; rejects after the update when that todo is missing |
| Routes.DeleteTodo | server/routes.ts:155-160 | 401 changes nothing; a non-numeric id or a commented todo rejects with nothing changed; otherwise removes the rows with the id and answers "Deleted", without consulting the caller's couple |
| Routes.AddComment | server/routes.ts:162-176 | 401 changes nothing; a non-numeric or missing todo rejects; otherwise appends exactly one comment by the caller, whatever the todo's couple, and answers 201 |
| Routes.ListActivity | server/routes.ts:178-186 | 401; 400 "Not in a couple"; otherwise at most 20 rows of the caller's couple, newest first, every omitted row older than every shown one |
| Workspace.SeatingKeepsPairsBounded | server/routes.ts:72-76 | seating into a couple with room keeps every couple at two members or fewer |
| Workspace.JoiningKeepsPairsBounded | server/routes.ts:72-76 | a join never gives a couple a third member |
| Workspace.FoundingKeepsPairsBounded | server/routes.ts:49-52 | founding a couple keeps every couple at two members or fewer |
| Workspace.CoupleByIdFindsIt | server/storage.ts:83-86 | with serial ids, a couple's own id finds it |
| Workspace.FirstRowDecides | server/storage.ts:100-107 | the first membership row of a user decides the couple they resolve to |
| Workspace.FounderResolvesToNewCouple | server/routes.ts:41-61 | after founding, the creator resolves to the new couple and its code finds it |
| Workspace.JoinerResolvesToCouple | server/routes.ts:63-85 | after a successful join, an unpaired caller resolves to the joined couple |
| Workspace.PairedJoinerKeepsFirstCouple | server/routes.ts:63-85 | a paired caller who joins gains the second couple; with rows read in table order they still resolve to the first |
| Workspace.PairedJoinerResolvesToOneOfTheirCouples | server/routes.ts:63-85 | a paired caller who joins holds a row in the joined couple and still resolves to a couple they hold a row in |
| Workspace.NewestLast | shared/schema.ts:44 | a row stamped with the clock is newer than every stored row |
| Workspace.CommentsPredateNextTodo | shared/schema.ts:49 | every stored comment refers to an id the todo sequence already handed out |
| Workspace.LastTodoHeadsList | server/storage.ts:110-113 | the newest todo heads its couple's list |
| Workspace.NewTodoListedFirst | server/routes.ts:110-131 | the created todo heads the couple's list with no comments |
| Workspace.NewTodoLoggedFirst | server/routes.ts:123-128 | the "create_todo" row heads the couple's activity feed |
| Workspace.OutcomesOnlyAppendToLog | server/routes.ts:41-153 | no handler outcome removes or rewrites a log row |
| Workspace.SeededCoupleTurnsJoinersAway | server/routes.ts:72-74 | after seeding a fresh store, joining "LOVE24" answers "full" and writes nothing |
| Seed.RunLeavesAlex | server/seed.ts:5-19 | after any run, Alex's address is in the users table |
| Seed.SeedIsIdempotent | server/seed.ts:5-6 | seeding again, with any inputs, is skipped and changes nothing |
| Seed.SeedOnlyAppends | server/seed.ts:4-92 | even a run that stops part-way only appends rows and never moves a sequence or the clock back |
| Seed.UsersRows | server/seed.ts:14-26 | from free addresses, exactly Alex then Sam are appended |
| Seed.MembersRows | server/seed.ts:33-34 | Alex as "admin" then Sam as "member" of the couple |
| Seed.TasksRows | server/seed.ts:37-89 | the three todos, the comment on the third and the two log rows, in order |
| Seed.SeedTodoStatuses | server/seed.ts:37-74 | the three todos are the couple's, two "pending" and one "completed", and the comment is on the completed one |
| Seed.SeededRows | server/seed.ts:4-92 | from a store with both addresses and the code free, the run completes and appends exactly the script's rows with consecutive stamps |
| Seed.EmptyStoreUnseeded | server/seed.ts:5-6 | the empty store of a first start-up meets the conditions of a complete run |
| Seed.SeededCodeFindsCouple | server/seed.ts:29-30 | after seeding, "LOVE24" finds the new couple |
| Seed.SeededCoupleHasTwoMembers | server/seed.ts:33-34 | after seeding, the couple has exactly two members |
| Seed.SeededUsersResolveToCouple | server/seed.ts:33-34 | after seeding, Alex and Sam both resolve to the couple |
| Seed.SeededTodoList | server/seed.ts:37-74 | the couple's list is the flight booking with Sam's comment, then the groceries, then the dinner |
| Seed.SeededActivity | server/seed.ts:77-89 | the couple's feed is Sam's "join_couple" above Alex's "create_todo" |
| Seed.Seed | server/seed.ts:4-92 | skipped, with nothing changed, exactly when Alex's address exists; otherwise the inserts in order, stopping at the first failure |
| Seed.SeedUsers | server/seed.ts:14-26 | the two user inserts, returning both ids |
| Seed.SeedWorkspace | server/seed.ts:29-89 | the couple, then its members and tasks; stops when the code is taken |
| Seed.SeedMembers | server/seed.ts:33-34 | the two membership inserts |
| Seed.SeedTasks | server/seed.ts:37-89 | the todos, then the comment and the two log rows |
| Seed.SeedTodos | server/seed.ts:37-67 | the three todo inserts; returns the completed one's id |
| Seed.SeedHistory | server/seed.ts:69-89 | the comment, then the two log rows |

## Left out

- Authentication and sessions are not modelled: the identity-provider setup, `req.isAuthenticated`, the session store in the storage constructor, password hashing, and the register, login and logout routes, which the authentication module serves. The caller is an optional user id and password hashes are opaque text.
- The database engine, connection pool and concurrency are not modelled, including `Promise.all` in `getTodos`. Each handler is one sequential step over in-memory tables, so races between two joins are out of scope.
- Timestamps are a logical clock rather than wall time. Two rows never share a `createdAt`, so ties in ordering do not arise.
- Ids are unbounded integers; the 32-bit range of the serial columns is not modelled.
- Zod request validation is not modelled, and bodies arrive well-typed. The `ValidationError` path of `parse` is left out.
- Drizzle's `relations` declarations are query-builder metadata with no behaviour of their own.
- JSON rendering of responses is not modelled; bodies are datatypes.
- The seed's `console.log`, the `.catch(console.error)` around it, and the environment-variable password defaults are left out. The hashes are parameters.
- The seed's two `Date.now()` reads are one `now` parameter.
- Routes.InviteCode: `Math.random()` is not modelled; its base-36 rendering is a parameter. The lower-case digit alphabet of that rendering is an assumption on the input, not derived from floating-point formatting.
- Storage.GetUserCouple: the query has no ORDER BY, so the contract promises only one of the user's couples. The body takes the first row in table order.
- Storage.GetCoupleMembers: the result order is unspecified in the source; the model uses membership-row order and states only the set of users and their count.
- Storage.DatabaseStorage.UpdateTodo: a patch with no columns is a no-op here. The query builder instead raises an error for an UPDATE with nothing to set.
- JsText.ParseInt: the radix argument is not modelled, because the routes never pass one. Values above 2^53 are read exactly, where JavaScript rounds them to the nearest double.
- Workspace.PairedJoinerKeepsFirstCouple: its first `ensures` rests on the model reading membership rows in table order. The program promises only that the caller resolves to one of their couples, which `Workspace.PairedJoinerResolvesToOneOfTheirCouples` states.
- JsText.ToUpperCase: only ASCII letters are mapped; other Unicode case mappings are not modelled.
- JsText.NumberToString: covers integers only. The exponent form JavaScript uses from 1e21 up and non-integer values are not modelled.
