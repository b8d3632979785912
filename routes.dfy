/**
 * The request handlers of the server. Each handler is a method on the store:
 * `caller` is the id of the session's user (`None` when the request is not
 * authenticated), the request body arrives already parsed, and the path
 * parameter arrives as the raw text the route matched.
 */
module Routes {
  import opened Wrappers
  import opened Seqs
  import opened Schema
  import opened Storage
  import opened JsText
  import Api

  // ----------------------------------------------------------- responses

  /** What a handler sends back. */
  datatype Body =
    | Empty
    | Plain(text: string)
    | Message(message: string)
    | Me(user: User, coupleId: Option<int>)
    | CoupleJson(couple: Couple)
    | CoupleWithMembers(couple: Couple, members: seq<User>)
    | TodoList(todos: seq<TodoWithComments>)
    | TodoJson(todo: Todo)
    | CommentJson(comment: Comment)
    | ActivityList(logs: seq<ActivityLog>)

  /**
   * A response with a status and a body, or `Unhandled` when the handler's
   * promise rejects (a statement failed, or a property of `undefined` was read)
   * before it answered.
   */
  datatype Response = Reply(status: int, body: Body) | Unhandled

  const Unauthorized := Reply(401, Plain("Unauthorized"))
  const AlreadyInCouple := Reply(400, Message("Already in a couple"))
  const InvalidInviteCode := Reply(400, Message("Invalid invite code"))
  const CoupleFull := Reply(400, Message("Couple workspace is full"))
  const NoCoupleFound := Reply(404, Message("No couple workspace found"))
  const NotInCouple := Reply(400, Message("Not in a couple"))
  const Deleted := Reply(200, Message("Deleted"))

  /** The ids of the couples the user holds a membership row in. */
  function CouplesOf(members: seq<CoupleMember>, userId: int): set<int> {
    set m | m in members && m.userId == userId :: m.coupleId
  }

  // --------------------------------------------------------- invite codes

  predicate Base36Lower(c: char) { '0' <= c <= '9' || 'a' <= c <= 'z' }
  predicate Base36Upper(c: char) { '0' <= c <= '9' || 'A' <= c <= 'Z' }

  /**
   * `Math.random().toString(36).substring(2, 8).toUpperCase()`, given the
   * rendering of the random number ("0." and then its base-36 digits).
   */
  function InviteCode(rendered: string): (code: string)
    ensures |code| <= 6
    ensures |rendered| >= 8 ==> |code| == 6
    ensures (forall i :: 2 <= i < |rendered| ==> Base36Lower(rendered[i])) ==>
              forall i :: 0 <= i < |code| ==> Base36Upper(code[i])
  {
    var digits := Substring(rendered, 2, 8);
    assert forall i :: 0 <= i < |digits| ==> digits[i] == rendered[2 + i];
    ToUpperCase(digits)
  }

  // ------------------------------------------------- the pair-size rule

  /** A row that brings its couple to at most two members keeps every couple at two or fewer. */
  lemma AddMemberKeepsPairsBounded(members: seq<CoupleMember>, m: CoupleMember)
    requires PairsBounded(members) && MemberCount(members, m.coupleId) < 2
    ensures PairsBounded(members + [m])
  {
    forall c ensures MemberCount(members + [m], c) <= 2 {
      FilterAppend(members, m, InCouple(c));
      assert MemberCount(members, c) <= 2;
    }
  }

  /** The couple the sequence hands out next has no membership row yet. */
  lemma FreshCoupleHasNoMembers(db: Db, nextCouple: int, clock: int)
    requires ForeignKeysHold(db) && Serial(db.couples, CoupleId, CoupleCreatedAt, nextCouple, clock)
    ensures MemberCount(db.members, nextCouple) == 0
  {
    forall m | m in db.members ensures !InCouple(nextCouple)(m) {
      assert m.coupleId in CoupleIds(db.couples);
      var i :| 0 <= i < |db.couples| && db.couples[i].id == m.coupleId;
      assert CoupleId(db.couples[i]) < nextCouple;
    }
    FilterNone(db.members, InCouple(nextCouple));
  }

  /** Every user with a membership row exists. */
  lemma PairedUserExists(db: Db, userId: int)
    requires ForeignKeysHold(db) && userId in PairedUserIds(db.members)
    ensures userId in UserIds(db.users)
  {
    var m :| m in db.members && m.userId == userId;
  }

  /** The ids the store hands out are positive, so `couple?.id || null` is never null for a found couple. */
  lemma CoupleIdsPositive(s: seq<Couple>, c: Couple, nextId: int, clock: int)
    requires Serial(s, CoupleId, CoupleCreatedAt, nextId, clock) && c in s
    ensures c.id >= 1
  {
    var i :| 0 <= i < |s| && s[i] == c;
    assert CoupleId(s[i]) >= 1;
  }

  // ------------------------------------------------------------ handlers

  /** GET /api/user: the caller's row together with the id of their couple, or null. */
  method GetCurrentUser(s: DatabaseStorage, caller: Option<int>) returns (r: Response)
    requires s.Valid()
    ensures r == Unauthorized <==> caller.None? || caller.value !in UserIds(s.users)
    ensures r != Unauthorized ==>
              && r.Reply? && r.status == 200 && r.body.Me?
              && r.body.user in s.users && r.body.user.id == caller.value
              && (r.body.coupleId.Some? <==> caller.value in PairedUserIds(s.members))
              && (r.body.coupleId.Some? ==> r.body.coupleId.value in CouplesOf(s.members, caller.value))
  {
    if caller.None? {
      return Unauthorized;
    }
    var user := GetUser(s.users, caller.value);
    if user.None? {
      return Unauthorized;
    }
    var couple := GetUserCouple(s.members, s.couples, user.value.id);
    PairedUserHasCouple(s.Tables(), user.value.id);
    if couple.Some? {
      CoupleIdsPositive(s.couples, couple.value, s.next.couple, s.clock);
    }
    var coupleId := if couple.Some? && couple.value.id != 0 then Some(couple.value.id) else None;
    r := Reply(200, Me(user.value, coupleId));
  }

  /**
   * POST /api/couples: a caller without a couple creates one with a random
   * invite code, becomes its "admin" and logs "created_couple". `random` is
   * the base-36 rendering of the random number.
   */
  method CreateCouple(s: DatabaseStorage, caller: Option<int>, random: string) returns (r: Response)
    requires s.Valid()
    modifies s
    ensures s.Valid()
    ensures caller.None? ==> r == Unauthorized && unchanged(s)
    ensures caller.Some? && caller.value in PairedUserIds(old(s.members)) ==> r == AlreadyInCouple && unchanged(s)
    ensures caller.Some? && caller.value !in PairedUserIds(old(s.members)) ==>
              FoundedCouple(old(s.Tables()), old(s.next), old(s.clock), caller.value, InviteCode(random), r, s.Tables())
  {
    if caller.None? {
      return Unauthorized;
    }
    PairedUserHasCouple(s.Tables(), caller.value);
    var existing := GetUserCouple(s.members, s.couples, caller.value);
    if existing.Some? {
      return AlreadyInCouple;
    }
    r := FoundCouple(s, caller.value, InviteCode(random));
  }

  /**
   * What founding a couple with `code` for `userId` answers and leaves behind:
   * a code in use fails before any write; otherwise the couple row is written
   * and the user is seated in it as "admin".
   */
  ghost predicate FoundedCouple(db: Db, next: Sequences, clock: int, userId: int, code: string, r: Response, db': Db) {
    var c := Couple(next.couple, code, clock);
    && (code in InviteCodes(db.couples) ==> r == Unhandled && db' == db)
    && (code !in InviteCodes(db.couples) ==>
          Seated(db.(couples := db.couples + [c]), next.(couple := next.couple + 1), clock + 1, userId, c, AsAdmin, r, db'))
  }

  /** The writes of POST /api/couples once the caller is known to have no couple. */
  method FoundCouple(s: DatabaseStorage, userId: int, code: string) returns (r: Response)
    requires s.Valid()
    modifies s
    ensures s.Valid()
    ensures FoundedCouple(old(s.Tables()), old(s.next), old(s.clock), userId, code, r, s.Tables())
  {
    var created := s.CreateCouple(code);
    if created.Failure? {
      return Unhandled;
    }
    assert created.value in s.couples;
    r := Seat(s, userId, created.value, AsAdmin);
  }

  /**
   * POST /api/couples/join: the couple with the invite code gains the caller
   * as "member" unless it already has two members. Whether the caller already
   * belongs to a couple is not consulted.
   */
  method JoinCouple(s: DatabaseStorage, caller: Option<int>, input: Api.JoinInput) returns (r: Response)
    requires s.Valid()
    modifies s
    ensures s.Valid()
    ensures caller.None? ==> r == Unauthorized && unchanged(s)
    ensures caller.Some? && input.inviteCode !in InviteCodes(old(s.couples)) ==> r == InvalidInviteCode && unchanged(s)
    ensures caller.Some? && input.inviteCode in InviteCodes(old(s.couples)) ==>
              JoinedCouple(old(s.Tables()), old(s.next), old(s.clock), caller.value,
                           GetCoupleByInviteCode(old(s.couples), input.inviteCode).value, r, s.Tables())
  {
    if caller.None? {
      return Unauthorized;
    }
    var couple := GetCoupleByInviteCode(s.couples, input.inviteCode);
    if couple.None? {
      return InvalidInviteCode;
    }
    r := AddToCouple(s, caller.value, couple.value);
  }

  /**
   * What joining couple `c` answers and leaves behind: a couple with two
   * members turns the caller away and nothing is written; otherwise the
   * caller is seated in it as "member".
   */
  ghost predicate JoinedCouple(db: Db, next: Sequences, clock: int, userId: int, c: Couple, r: Response, db': Db) {
    && (MemberCount(db.members, c.id) >= 2 ==> r == CoupleFull && db' == db)
    && (MemberCount(db.members, c.id) < 2 ==> Seated(db, next, clock, userId, c, AsMember, r, db'))
  }

  /** How a user takes a seat in a couple: the role, the log row and the status of the reply. */
  datatype Seating = Seating(role: string, action: string, details: string, status: int)

  const AsAdmin := Seating("admin", "created_couple", "Created the workspace", 201)
  const AsMember := Seating("member", "joined_couple", "Joined the workspace", 200)

  /**
   * Seating `userId` in couple `c`: a missing user fails before any row is
   * written; otherwise the membership row and the log row are appended and
   * the couple is sent back.
   */
  ghost predicate Seated(db: Db, next: Sequences, clock: int, userId: int, c: Couple, how: Seating, r: Response, db': Db) {
    && (userId !in UserIds(db.users) ==> r == Unhandled && db' == db)
    && (userId in UserIds(db.users) ==>
          && r == Reply(how.status, CoupleJson(c))
          && db' == db.(members := db.members + [CoupleMember(next.member, userId, c.id, how.role, clock)],
                        logs := db.logs + [ActivityLog(next.log, c.id, userId, how.action, Some(how.details), clock + 1)]))
  }

  /** `(await storage.getCoupleMembers(coupleId)).length`. */
  method CountMembers(s: DatabaseStorage, coupleId: int) returns (n: nat)
    requires s.Valid()
    ensures n == MemberCount(s.members, coupleId)
  {
    var members := GetCoupleMembers(s.members, s.users, coupleId);
    CoupleMembersCount(s.Tables(), coupleId);
    n := |members|;
  }

  /** The size check and the writes of POST /api/couples/join once the couple is found. */
  method AddToCouple(s: DatabaseStorage, userId: int, c: Couple) returns (r: Response)
    requires s.Valid() && c in s.couples
    modifies s
    ensures s.Valid()
    ensures JoinedCouple(old(s.Tables()), old(s.next), old(s.clock), userId, c, r, s.Tables())
  {
    var size := CountMembers(s, c.id);
    if size >= 2 {
      return CoupleFull;
    }
    r := Seat(s, userId, c, AsMember);
  }

  /** The writes that seat a user in a couple: the membership row, then the log row. */
  method Seat(s: DatabaseStorage, userId: int, c: Couple, how: Seating) returns (r: Response)
    requires s.Valid() && c in s.couples
    modifies s
    ensures s.Valid()
    ensures Seated(old(s.Tables()), old(s.next), old(s.clock), userId, c, how, r, s.Tables())
  {
    ghost var db := s.Tables();
    assert c.id in CoupleIds(s.couples);
    var joined := s.AddCoupleMember(userId, c.id, how.role);
    if joined.Failure? {
      return Unhandled;
    }
    var logged := s.LogActivity(c.id, userId, how.action, how.details);
    assert logged.Success?;
    assert s.Tables() == db.(members := db.members + [joined.value], logs := db.logs + [logged.value]);
    r := Reply(how.status, CoupleJson(c));
  }

  /** GET /api/couple: the caller's couple with the users that belong to it. */
  method GetCouple(s: DatabaseStorage, caller: Option<int>) returns (r: Response)
    requires s.Valid()
    ensures caller.None? ==> r == Unauthorized
    ensures caller.Some? && caller.value !in PairedUserIds(s.members) ==> r == NoCoupleFound
    ensures caller.Some? && caller.value in PairedUserIds(s.members) ==>
              && r.Reply? && r.status == 200 && r.body.CoupleWithMembers?
              && r.body.couple in s.couples && r.body.couple.id in CouplesOf(s.members, caller.value)
              && (forall u :: u in r.body.members <==> u in s.users && r.body.couple.id in CouplesOf(s.members, u.id))
              && (exists u :: u in r.body.members && u.id == caller.value)
              && |r.body.members| == MemberCount(s.members, r.body.couple.id)
              && (PairsBounded(s.members) ==> |r.body.members| <= 2)
  {
    if caller.None? {
      return Unauthorized;
    }
    PairedUserHasCouple(s.Tables(), caller.value);
    var couple := GetUserCouple(s.members, s.couples, caller.value);
    if couple.None? {
      return NoCoupleFound;
    }
    var c := couple.value;
    var members := GetCoupleMembers(s.members, s.users, c.id);
    CoupleMembersCount(s.Tables(), c.id);
    PairedUserExists(s.Tables(), caller.value);
    var me :| me in s.users && me.id == caller.value;
    assert me in members by {
      var m :| m in s.members && m.userId == caller.value && m.coupleId == c.id;
    }
    r := Reply(200, CoupleWithMembers(c, members));
  }

  /** GET /api/todos: the todos of the caller's couple, newest first, each with its comments. */
  method ListTodos(s: DatabaseStorage, caller: Option<int>) returns (r: Response)
    requires s.Valid()
    ensures caller.None? ==> r == Unauthorized
    ensures caller.Some? && caller.value !in PairedUserIds(s.members) ==> r == NotInCouple
    ensures caller.Some? && caller.value in PairedUserIds(s.members) ==>
              var c := GetUserCouple(s.members, s.couples, caller.value).value;
              && c.id in CouplesOf(s.members, caller.value)
              && r == Reply(200, TodoList(GetTodos(s.todos, s.comments, c.id)))
              && (forall i :: 0 <= i < |r.body.todos| ==> r.body.todos[i].todo.coupleId in CouplesOf(s.members, caller.value))
              && (forall i, j :: 0 <= i < j < |r.body.todos| ==> r.body.todos[i].todo.createdAt > r.body.todos[j].todo.createdAt)
  {
    if caller.None? {
      return Unauthorized;
    }
    PairedUserHasCouple(s.Tables(), caller.value);
    var couple := GetUserCouple(s.members, s.couples, caller.value);
    if couple.None? {
      return NotInCouple;
    }
    r := Reply(200, TodoList(GetTodos(s.todos, s.comments, couple.value.id)));
  }

  /** `{ ...input, coupleId, createdBy }`: the body of POST /api/todos completed by the server. */
  function WithOwner(input: Api.CreateTodoInput, coupleId: int, createdBy: int): (t: InsertTodo)
    ensures t.coupleId == coupleId && t.createdBy == createdBy
  {
    InsertTodo(coupleId, input.title, input.description, input.status, input.priority,
               input.dueDate, input.assignedTo, createdBy)
  }

  /**
   * POST /api/todos: a todo of the caller's couple, created by the caller, and
   * a "create_todo" log row naming its title.
   */
  method CreateTodo(s: DatabaseStorage, caller: Option<int>, input: Api.CreateTodoInput) returns (r: Response)
    requires s.Valid()
    modifies s
    ensures s.Valid()
    ensures caller.None? ==> r == Unauthorized && unchanged(s)
    ensures caller.Some? && caller.value !in PairedUserIds(old(s.members)) ==> r == NotInCouple && unchanged(s)
    ensures caller.Some? && caller.value in PairedUserIds(old(s.members)) ==>
              var c := GetUserCouple(old(s.members), old(s.couples), caller.value).value;
              && c.id in CouplesOf(old(s.members), caller.value)
              && TodoCreated(old(s.Tables()), old(s.next), old(s.clock), caller.value, c, input, r, s.Tables())
  {
    if caller.None? {
      return Unauthorized;
    }
    PairedUserHasCouple(s.Tables(), caller.value);
    var couple := GetUserCouple(s.members, s.couples, caller.value);
    if couple.None? {
      return NotInCouple;
    }
    PairedUserExists(s.Tables(), caller.value);
    r := AddTodo(s, caller.value, couple.value, input);
  }

  /**
   * What creating a todo for `userId` in couple `c` answers and leaves
   * behind: the new row, filled in with the column defaults, is sent back,
   * and it and a "create_todo" log row naming its title are appended.
   */
  ghost predicate TodoCreated(db: Db, next: Sequences, clock: int, userId: int, c: Couple,
                              input: Api.CreateTodoInput, r: Response, db': Db) {
    var t := NewTodo(next.todo, clock, WithOwner(input, c.id, userId));
    && r == Reply(201, TodoJson(t))
    && db' == db.(todos := db.todos + [t],
                  logs := db.logs + [ActivityLog(next.log, c.id, userId, "create_todo",
                                                 Some("Created task: " + input.title), clock + 1)])
  }

  /** The writes of POST /api/todos once the caller's couple is known. */
  method AddTodo(s: DatabaseStorage, userId: int, c: Couple, input: Api.CreateTodoInput) returns (r: Response)
    requires s.Valid() && c in s.couples && userId in UserIds(s.users)
    modifies s
    ensures s.Valid()
    ensures TodoCreated(old(s.Tables()), old(s.next), old(s.clock), userId, c, input, r, s.Tables())
  {
    ghost var db := s.Tables();
    assert c.id in CoupleIds(s.couples);
    var created := s.CreateTodo(WithOwner(input, c.id, userId));
    assert created.Success?;
    var todo := created.value;
    var logged := s.LogActivity(c.id, userId, "create_todo", "Created task: " + todo.title);
    assert logged.Success?;
    assert s.Tables() == db.(todos := db.todos + [todo], logs := db.logs + [logged.value]);
    r := Reply(201, TodoJson(todo));
  }

  /**
   * PATCH /api/todos/:id: the patch is applied to the todos with that id,
   * whichever couple they belong to, and a patch that sets the status to
   * "completed" logs "complete_todo" in the caller's couple.
   */
  method UpdateTodo(s: DatabaseStorage, caller: Option<int>, rawId: string, patch: TodoPatch) returns (r: Response)
    requires s.Valid()
    modifies s
    ensures s.Valid()
    ensures caller.None? ==> r == Unauthorized && unchanged(s)
    ensures caller.Some? && caller.value !in PairedUserIds(old(s.members)) ==> r == NotInCouple && unchanged(s)
    ensures caller.Some? && caller.value in PairedUserIds(old(s.members)) ==>
              var c := GetUserCouple(old(s.members), old(s.couples), caller.value).value;
              && c.id in CouplesOf(old(s.members), caller.value)
              && TodoUpdated(old(s.Tables()), old(s.next), old(s.clock), caller.value, c, ParseInt(rawId), patch, r, s.Tables())
  {
    if caller.None? {
      return Unauthorized;
    }
    PairedUserHasCouple(s.Tables(), caller.value);
    var couple := GetUserCouple(s.members, s.couples, caller.value);
    if couple.None? {
      return NotInCouple;
    }
    PairedUserExists(s.Tables(), caller.value);
    var id := ParseInt(rawId);
    if id.None? {
      return Unhandled;
    }
    r := PatchTodo(s, caller.value, couple.value, id.value, patch);
  }

  const Completed := "completed"

  /**
   * What PATCH /api/todos/:id answers and leaves behind once the caller's
   * couple `c` is known. An id that is not a number, or a patch that points
   * `coupleId` or `createdBy` at a missing row, fails before any change.
   * Otherwise the patch is applied and the first todo with the id is sent
   * back (nothing when there is none); a patch setting the status to
   * "completed" also appends a "complete_todo" log row naming the patched
   * title, and fails after the update when there is no such todo.
   */
  ghost predicate TodoUpdated(db: Db, next: Sequences, clock: int, userId: int, c: Couple,
                              id: Option<int>, patch: TodoPatch, r: Response, db': Db) {
    && (id.None? ==> r == Unhandled && db' == db)
    && (id.Some? && id.value in TodoIds(db.todos) && !PatchReferencesExist(patch, db.users, db.couples) ==>
          r == Unhandled && db' == db)
    && (id.Some? && !(id.value in TodoIds(db.todos) && !PatchReferencesExist(patch, db.users, db.couples)) ==>
          var patched := db.(todos := PatchTodos(db.todos, id.value, patch));
          var t := GetTodo(patched.todos, id.value);
          && (patch.status != Some(Completed) ==>
                r == (if t.Some? then Reply(200, TodoJson(t.value)) else Reply(200, Empty)) && db' == patched)
          && (patch.status == Some(Completed) && t.None? ==> r == Unhandled && db' == patched)
          && (patch.status == Some(Completed) && t.Some? ==>
                && r == Reply(200, TodoJson(t.value))
                && db' == patched.(logs := db.logs + [ActivityLog(next.log, c.id, userId, "complete_todo",
                                                                  Some("Completed task: " + t.value.title), clock)])))
  }

  /** The writes of PATCH /api/todos/:id once the caller's couple and the id are known. */
  method PatchTodo(s: DatabaseStorage, userId: int, c: Couple, id: int, patch: TodoPatch) returns (r: Response)
    requires s.Valid() && c in s.couples && userId in UserIds(s.users)
    modifies s
    ensures s.Valid()
    ensures TodoUpdated(old(s.Tables()), old(s.next), old(s.clock), userId, c, Some(id), patch, r, s.Tables())
  {
    ghost var db := s.Tables();
    assert c.id in CoupleIds(s.couples);
    var updated := s.UpdateTodo(id, patch);
    if updated.Failure? {
      return Unhandled;
    }
    var todo := updated.value;
    if patch.status == Some(Completed) {
      if todo.None? {
        return Unhandled;
      }
      var logged := s.LogActivity(c.id, userId, "complete_todo", "Completed task: " + todo.value.title);
      assert logged.Success?;
      assert s.Tables() == db.(todos := PatchTodos(db.todos, id, patch), logs := db.logs + [logged.value]);
    }
    r := if todo.Some? then Reply(200, TodoJson(todo.value)) else Reply(200, Empty);
  }

  /**
   * DELETE /api/todos/:id: the todos with that id are removed, whichever
   * couple they belong to. Neither the caller's couple nor the existence of
   * the todo is checked; a todo with comments cannot be removed.
   */
  method DeleteTodo(s: DatabaseStorage, caller: Option<int>, rawId: string) returns (r: Response)
    requires s.Valid()
    modifies s
    ensures s.Valid()
    ensures caller.None? ==> r == Unauthorized && unchanged(s)
    ensures caller.Some? && ParseInt(rawId).None? ==> r == Unhandled && unchanged(s)
    ensures caller.Some? && ParseInt(rawId).Some? ==>
              var id := ParseInt(rawId).value;
              && (id in TodoIds(old(s.todos)) && id in CommentedTodoIds(old(s.comments)) ==>
                    r == Unhandled && s.Tables() == old(s.Tables()))
              && (!(id in TodoIds(old(s.todos)) && id in CommentedTodoIds(old(s.comments))) ==>
                    && r == Deleted
                    && s.Tables() == old(s.Tables()).(todos := Filter(old(s.todos), OtherThan(id)))
                    && forall t :: t in s.todos <==> t in old(s.todos) && t.id != id)
  {
    if caller.None? {
      return Unauthorized;
    }
    var id := ParseInt(rawId);
    if id.None? {
      return Unhandled;
    }
    var deleted := s.DeleteTodo(id.value);
    if deleted.Failure? {
      return Unhandled;
    }
    r := Deleted;
  }

  /**
   * POST /api/todos/:id/comments: a comment by the caller on the todo with
   * that id, whichever couple it belongs to.
   */
  method AddComment(s: DatabaseStorage, caller: Option<int>, rawId: string, input: Api.CommentInput) returns (r: Response)
    requires s.Valid()
    modifies s
    ensures s.Valid()
    ensures caller.None? ==> r == Unauthorized && unchanged(s)
    ensures caller.Some? && ParseInt(rawId).None? ==> r == Unhandled && unchanged(s)
    ensures caller.Some? && ParseInt(rawId).Some? ==>
              var id := ParseInt(rawId).value;
              && (id !in TodoIds(old(s.todos)) || caller.value !in UserIds(old(s.users)) ==>
                    r == Unhandled && s.Tables() == old(s.Tables()))
              && (id in TodoIds(old(s.todos)) && caller.value in UserIds(old(s.users)) ==>
                    var comment := Comment(old(s.next.comment), id, caller.value, input.content, old(s.clock));
                    && r == Reply(201, CommentJson(comment))
                    && s.Tables() == old(s.Tables()).(comments := old(s.comments) + [comment]))
  {
    if caller.None? {
      return Unauthorized;
    }
    var id := ParseInt(rawId);
    if id.None? {
      return Unhandled;
    }
    var created := s.CreateComment(id.value, caller.value, input.content);
    if created.Failure? {
      return Unhandled;
    }
    r := Reply(201, CommentJson(created.value));
  }

  /** GET /api/activity: the newest log rows of the caller's couple, at most twenty, newest first. */
  method ListActivity(s: DatabaseStorage, caller: Option<int>) returns (r: Response)
    requires s.Valid()
    ensures caller.None? ==> r == Unauthorized
    ensures caller.Some? && caller.value !in PairedUserIds(s.members) ==> r == NotInCouple
    ensures caller.Some? && caller.value in PairedUserIds(s.members) ==>
              var c := GetUserCouple(s.members, s.couples, caller.value).value;
              && c.id in CouplesOf(s.members, caller.value)
              && r == Reply(200, ActivityList(GetActivityLogs(s.logs, c.id)))
              && |r.body.logs| <= 20
              && (forall l :: l in r.body.logs ==> l in s.logs && l.coupleId == c.id)
              && (forall i, j :: 0 <= i < j < |r.body.logs| ==> r.body.logs[i].createdAt > r.body.logs[j].createdAt)
              && (forall l, x :: l in s.logs && l.coupleId == c.id && l !in r.body.logs && x in r.body.logs ==>
                    l.createdAt < x.createdAt)
  {
    if caller.None? {
      return Unauthorized;
    }
    PairedUserHasCouple(s.Tables(), caller.value);
    var couple := GetUserCouple(s.members, s.couples, caller.value);
    if couple.None? {
      return NotInCouple;
    }
    ActivityLogsAreTheNewest(s.logs, couple.value.id);
    r := Reply(200, ActivityList(GetActivityLogs(s.logs, couple.value.id)));
  }
}
