/**
 * The store behind every handler (`DatabaseStorage`): the reads are pure
 * filter/sort/limit/join expressions over the tables, the writes change the
 * tables of one `DatabaseStorage` object in place.
 *
 * Each table is kept in insertion order. Every successful insert stamps the row
 * with the store's clock and advances it, so ordering by `createdAt` ascending
 * is table order and ordering descending is the reverse.
 */
module Storage {
  import opened Wrappers
  import opened Seqs
  import opened Schema

  // ------------------------------------------------------ row predicates

  function HasUserId(id: int): User -> bool { (u: User) => u.id == id }
  function HasEmail(email: string): User -> bool { (u: User) => u.email == email }
  function HasInviteCode(code: string): Couple -> bool { (c: Couple) => c.inviteCode == code }
  function HasCoupleId(id: int): Couple -> bool { (c: Couple) => c.id == id }
  function OfUser(userId: int): CoupleMember -> bool { (m: CoupleMember) => m.userId == userId }
  function TodoInCouple(coupleId: int): Todo -> bool { (t: Todo) => t.coupleId == coupleId }
  function HasTodoId(id: int): Todo -> bool { (t: Todo) => t.id == id }
  function OtherThan(id: int): Todo -> bool { (t: Todo) => t.id != id }
  function OnTodo(todoId: int): Comment -> bool { (c: Comment) => c.todoId == todoId }
  function LogInCouple(coupleId: int): ActivityLog -> bool { (l: ActivityLog) => l.coupleId == coupleId }

  /** The users that have at least one membership row. */
  function PairedUserIds(members: seq<CoupleMember>): set<int> { set m | m in members :: m.userId }

  /** The todo ids some comment refers to. */
  function CommentedTodoIds(comments: seq<Comment>): set<int> { set c | c in comments :: c.todoId }

  // --------------------------------------------------------------- reads

  /** `getUser`: the user row with this id, if there is one. */
  function GetUser(users: seq<User>, id: int): (r: Option<User>)
    ensures r.Some? ==> r.value in users && r.value.id == id
    ensures r.None? <==> id !in UserIds(users)
  {
    Find(users, HasUserId(id))
  }

  /** `getUserByUsername`: the user row with this email (the email serves as user name). */
  function GetUserByUsername(users: seq<User>, email: string): (r: Option<User>)
    ensures r.Some? ==> r.value in users && r.value.email == email
    ensures r.None? <==> email !in Emails(users)
  {
    Find(users, HasEmail(email))
  }

  /** `getCoupleByInviteCode`: exact string equality, no case folding or trimming. */
  function GetCoupleByInviteCode(couples: seq<Couple>, code: string): (r: Option<Couple>)
    ensures r.Some? ==> r.value in couples && r.value.inviteCode == code
    ensures r.None? <==> code !in InviteCodes(couples)
  {
    Find(couples, HasInviteCode(code))
  }

  /** `getCoupleById`. */
  function GetCoupleById(couples: seq<Couple>, id: int): (r: Option<Couple>)
    ensures r.Some? ==> r.value in couples && r.value.id == id
    ensures r.None? <==> id !in CoupleIds(couples)
  {
    Find(couples, HasCoupleId(id))
  }

  /** The inner join of membership rows with `users` on `userId`. */
  function JoinUsers(rows: seq<CoupleMember>, users: seq<User>): (r: seq<User>)
    ensures forall u :: u in r <==> u in users && exists m :: m in rows && m.userId == u.id
  {
    if rows == [] then []
    else
      var init := rows[..|rows| - 1];
      var last := rows[|rows| - 1];
      assert rows == init + [last];
      JoinUsers(init, users) + Filter(users, HasUserId(last.userId))
  }

  /**
   * `getCoupleMembers`: the users joined to the couple's membership rows. The
   * query has no ORDER BY; the model lists them in membership-row order.
   */
  function GetCoupleMembers(members: seq<CoupleMember>, users: seq<User>, coupleId: int): (r: seq<User>)
    ensures forall u :: u in r <==> u in users && exists m :: m in members && m.coupleId == coupleId && m.userId == u.id
  {
    var rows := Filter(members, InCouple(coupleId));
    assert forall m :: m in rows <==> m in members && m.coupleId == coupleId;
    JoinUsers(rows, users)
  }

  /**
   * `getUserCouple`: the couple of a membership row of the user, or none when
   * the user has no membership row. The query has no ORDER BY, so with several
   * rows the contract promises only that the couple is one of the user's; the
   * body takes the first row in table order.
   */
  function GetUserCouple(members: seq<CoupleMember>, couples: seq<Couple>, userId: int): (r: Option<Couple>)
    ensures userId !in PairedUserIds(members) ==> r.None?
    ensures r.Some? ==> r.value in couples
                        && exists m :: m in members && m.userId == userId && m.coupleId == r.value.id
  {
    match Find(members, OfUser(userId))
    case None => None
    case Some(m) => GetCoupleById(couples, m.coupleId)
  }

  /** `getComments`: the comments on one todo, oldest first. */
  function GetComments(comments: seq<Comment>, todoId: int): (r: seq<Comment>)
    ensures forall c :: c in r <==> c in comments && c.todoId == todoId
    ensures Increasing(comments, CommentCreatedAt) ==> Increasing(r, CommentCreatedAt)
  {
    FilterKeepsOrder(comments, OnTodo(todoId), CommentCreatedAt);
    Filter(comments, OnTodo(todoId))
  }

  /** A todo as `getTodos` returns it: the row together with its comments. */
  datatype TodoWithComments = TodoWithComments(todo: Todo, comments: seq<Comment>)

  /** Each todo paired with its comments, in the given order. */
  function AttachComments(ts: seq<Todo>, comments: seq<Comment>): (r: seq<TodoWithComments>)
    ensures |r| == |ts|
    ensures forall i :: 0 <= i < |ts| ==> r[i].todo == ts[i] && r[i].comments == GetComments(comments, ts[i].id)
  {
    seq(|ts|, i requires 0 <= i < |ts| => TodoWithComments(ts[i], GetComments(comments, ts[i].id)))
  }

  lemma AttachCommentsCovers(ts: seq<Todo>, comments: seq<Comment>)
    ensures forall t :: t in ts ==> exists i :: 0 <= i < |ts| && AttachComments(ts, comments)[i].todo == t
  {
    var r := AttachComments(ts, comments);
    forall t | t in ts ensures exists i :: 0 <= i < |ts| && r[i].todo == t {
      var i :| 0 <= i < |ts| && ts[i] == t;
      assert r[i].todo == t;
    }
  }

  /**
   * `getTodos`: the couple's todos, newest first, each carrying exactly its own
   * comments, oldest first.
   */
  function GetTodos(todos: seq<Todo>, comments: seq<Comment>, coupleId: int): (r: seq<TodoWithComments>)
    ensures forall i :: 0 <= i < |r| ==> r[i].todo in todos && r[i].todo.coupleId == coupleId
    ensures forall t :: t in todos && t.coupleId == coupleId ==> exists i :: 0 <= i < |r| && r[i].todo == t
    ensures forall i :: 0 <= i < |r| ==> r[i].comments == GetComments(comments, r[i].todo.id)
    ensures Increasing(todos, TodoCreatedAt) ==>
              forall i, j :: 0 <= i < j < |r| ==> r[i].todo.createdAt > r[j].todo.createdAt
  {
    var mine := Filter(todos, TodoInCouple(coupleId));
    var newestFirst := Reverse(mine);
    ReverseMembers(mine);
    FilterKeepsOrder(todos, TodoInCouple(coupleId), TodoCreatedAt);
    ReverseIncreasing(mine, TodoCreatedAt);
    AttachCommentsCovers(newestFirst, comments);
    AttachComments(newestFirst, comments)
  }

  /** `getTodo`. */
  function GetTodo(todos: seq<Todo>, id: int): (r: Option<Todo>)
    ensures r.Some? ==> r.value in todos && r.value.id == id
    ensures r.None? <==> id !in TodoIds(todos)
  {
    Find(todos, HasTodoId(id))
  }

  const ActivityLimit := 20

  /** `getActivityLogs`: the couple's log rows, newest first, at most 20 of them. */
  function GetActivityLogs(logs: seq<ActivityLog>, coupleId: int): (r: seq<ActivityLog>)
    ensures |r| <= 20
    ensures forall l :: l in r ==> l in logs && l.coupleId == coupleId
    ensures |r| == if MatchingLogs(logs, coupleId) < 20 then MatchingLogs(logs, coupleId) else 20
  {
    var mine := Filter(logs, LogInCouple(coupleId));
    var newestFirst := Reverse(mine);
    ReverseMembers(mine);
    assert |newestFirst| == MatchingLogs(logs, coupleId);
    if |newestFirst| <= ActivityLimit then newestFirst
    else
      assert forall l :: l in newestFirst[..ActivityLimit] ==> l in newestFirst;
      newestFirst[..ActivityLimit]
  }

  /** How many log rows the couple has. */
  function MatchingLogs(logs: seq<ActivityLog>, coupleId: int): nat {
    |Filter(logs, LogInCouple(coupleId))|
  }

  // ------------------------------------------------------ read properties

  /** With unique invite codes, looking up a couple's own code finds that couple. */
  lemma InviteCodeFindsItsCouple(couples: seq<Couple>, c: Couple)
    requires InviteCodesUnique(couples) && c in couples
    ensures GetCoupleByInviteCode(couples, c.inviteCode) == Some(c)
  {
    var r := GetCoupleByInviteCode(couples, c.inviteCode);
    assert c.inviteCode in InviteCodes(couples);
    var i :| 0 <= i < |couples| && couples[i] == r.value;
    var j :| 0 <= j < |couples| && couples[j] == c;
    assert couples[i].inviteCode == couples[j].inviteCode;
    assert i == j;
  }

  /** The log rows of a couple that `getActivityLogs` leaves out are older than every row it returns. */
  lemma ActivityLogsAreTheNewest(logs: seq<ActivityLog>, coupleId: int)
    requires Increasing(logs, LogCreatedAt)
    ensures Descending(GetActivityLogs(logs, coupleId), LogCreatedAt)
    ensures forall l, x ::
              (l in logs && l.coupleId == coupleId && l !in GetActivityLogs(logs, coupleId)
               && x in GetActivityLogs(logs, coupleId)) ==> l.createdAt < x.createdAt
    ensures MatchingLogs(logs, coupleId) <= 20 ==>
              forall l :: l in logs && l.coupleId == coupleId ==> l in GetActivityLogs(logs, coupleId)
  {
    var mine := Filter(logs, LogInCouple(coupleId));
    var newestFirst := Reverse(mine);
    var r := GetActivityLogs(logs, coupleId);
    FilterIncreasing(logs, LogInCouple(coupleId), LogCreatedAt);
    ReverseIncreasing(mine, LogCreatedAt);
    ReverseMembers(mine);
    assert r == if |newestFirst| <= ActivityLimit then newestFirst else newestFirst[..ActivityLimit];
    forall l, x | l in logs && l.coupleId == coupleId && l !in r && x in r
      ensures l.createdAt < x.createdAt
    {
      assert l in newestFirst;
      var p :| 0 <= p < |newestFirst| && newestFirst[p] == l;
      var q :| 0 <= q < |r| && r[q] == x;
      assert p >= |r|;
      assert newestFirst[q] == x;
    }
  }

  /** A user id that occurs once in `users` matches exactly one row. */
  lemma {:induction false} OneUserPerId(users: seq<User>, id: int)
    requires Increasing(users, UserId) && id in UserIds(users)
    ensures |Filter(users, HasUserId(id))| == 1
  {
    var init, last := users[..|users| - 1], users[|users| - 1];
    assert users == init + [last];
    FilterAppend(init, last, HasUserId(id));
    var split := Filter(init, HasUserId(id)) + (if last.id == id then [last] else []);
    assert Filter(users, HasUserId(id)) == split;
    IncreasingLast(users, UserId);
    if last.id == id {
      assert forall u :: u in init ==> !HasUserId(id)(u);
      FilterNone(init, HasUserId(id));
    } else {
      var u :| u in users && u.id == id;
      assert u in init;
      OneUserPerId(init, id);
    }
  }

  /** With unique user ids and membership rows that reference users, the join loses and adds no row. */
  lemma {:induction false} JoinKeepsRowCount(rows: seq<CoupleMember>, users: seq<User>)
    requires Increasing(users, UserId)
    requires forall m :: m in rows ==> m.userId in UserIds(users)
    ensures |JoinUsers(rows, users)| == |rows|
  {
    if rows != [] {
      var init := rows[..|rows| - 1];
      assert rows == init + [rows[|rows| - 1]];
      JoinKeepsRowCount(init, users);
      OneUserPerId(users, rows[|rows| - 1].userId);
    }
  }

  /** The handlers' "members.length" is the number of membership rows of the couple. */
  lemma CoupleMembersCount(db: Db, coupleId: int)
    requires Increasing(db.users, UserId) && ForeignKeysHold(db)
    ensures |GetCoupleMembers(db.members, db.users, coupleId)| == MemberCount(db.members, coupleId)
  {
    JoinKeepsRowCount(Filter(db.members, InCouple(coupleId)), db.users);
  }

  /** When membership rows reference couples, a user with a membership row always resolves to a couple. */
  lemma PairedUserHasCouple(db: Db, userId: int)
    requires ForeignKeysHold(db)
    ensures GetUserCouple(db.members, db.couples, userId).Some? <==> userId in PairedUserIds(db.members)
  {
    if userId in PairedUserIds(db.members) {
      var m0 :| m0 in db.members && m0.userId == userId;
      var found := Find(db.members, OfUser(userId));
      assert found.Some?;
      assert found.value.coupleId in CoupleIds(db.couples);
    }
  }

  // -------------------------------------------------------------- writes

  /** The error a statement raises when a constraint of the schema would be broken. */
  datatype DbError = UniqueViolation | ForeignKeyViolation

  /** The next value of each table's serial sequence. */
  datatype Sequences = Sequences(user: int, couple: int, member: int, todo: int, comment: int, log: int)

  /** Ids of a table come from its sequence and stamps from the clock, both strictly increasing along the table. */
  ghost predicate Serial<T(!new)>(rows: seq<T>, id: T -> int, stamp: T -> int, nextId: int, clock: int) {
    1 <= nextId && Ascending(rows, id, 1, nextId) && Ascending(rows, stamp, 0, clock)
  }

  lemma SerialInsert<T(!new)>(rows: seq<T>, x: T, id: T -> int, stamp: T -> int, nextId: int, clock: int)
    requires Serial(rows, id, stamp, nextId, clock) && 0 <= clock && id(x) == nextId && stamp(x) == clock
    ensures Serial(rows + [x], id, stamp, nextId + 1, clock + 1)
  {
    AscendingAppend(rows, x, id, 1, nextId);
    AscendingAppend(rows, x, stamp, 0, clock);
  }

  /** What the database guarantees between statements: serial tables and every constraint of the schema. */
  ghost predicate Wellformed(db: Db, next: Sequences, clock: int) {
    && 0 <= clock
    && Serial(db.users, UserId, UserCreatedAt, next.user, clock)
    && Serial(db.couples, CoupleId, CoupleCreatedAt, next.couple, clock)
    && Serial(db.members, MemberId, MemberJoinedAt, next.member, clock)
    && Serial(db.todos, TodoId, TodoCreatedAt, next.todo, clock)
    && Serial(db.comments, CommentId, CommentCreatedAt, next.comment, clock)
    && Serial(db.logs, LogId, LogCreatedAt, next.log, clock)
    && Consistent(db)
  }

  /** The empty database with every sequence at 1 and the clock at 0 is well formed. */
  lemma EmptyWellformed()
    ensures Wellformed(EmptyDb, Sequences(1, 1, 1, 1, 1, 1), 0)
  {
    assert Consistent(EmptyDb);
  }

  /** Sequences only move forward: consuming values, even unused, keeps the database well formed. */
  lemma ConsumeSequences(db: Db, next: Sequences, next': Sequences, clock: int)
    requires Wellformed(db, next, clock)
    requires next.user <= next'.user && next.couple <= next'.couple && next.member <= next'.member
    requires next.todo <= next'.todo && next.comment <= next'.comment && next.log <= next'.log
    ensures Wellformed(db, next', clock)
  {
  }

  /** A tick of the clock keeps the database well formed. */
  lemma Tick(db: Db, next: Sequences, clock: int)
    requires Wellformed(db, next, clock)
    ensures Wellformed(db, next, clock + 1)
  {
  }

  /** A user stamped with the next id and the clock, with a new email, keeps the database well formed. */
  lemma InsertUserRow(db: Db, next: Sequences, clock: int, row: User)
    requires Wellformed(db, next, clock) && row.id == next.user && row.createdAt == clock
    requires row.email !in Emails(db.users)
    ensures Wellformed(db.(users := db.users + [row]), next.(user := next.user + 1), clock + 1)
  {
    Tick(db, next, clock);
    SerialInsert(db.users, row, UserId, UserCreatedAt, next.user, clock);
    var users := db.users + [row];
    assert UserIds(users) == UserIds(db.users) + {row.id};
    forall i, j | 0 <= i < j < |users| ensures users[i].email != users[j].email {
      if j < |db.users| {
        assert users[i] == db.users[i] && users[j] == db.users[j];
      } else {
        assert users[i] in db.users;
      }
    }
  }

  /** A couple stamped with the next id and the clock, with a new invite code, keeps the database well formed. */
  lemma InsertCoupleRow(db: Db, next: Sequences, clock: int, row: Couple)
    requires Wellformed(db, next, clock) && row.id == next.couple && row.createdAt == clock
    requires row.inviteCode !in InviteCodes(db.couples)
    ensures Wellformed(db.(couples := db.couples + [row]), next.(couple := next.couple + 1), clock + 1)
  {
    Tick(db, next, clock);
    SerialInsert(db.couples, row, CoupleId, CoupleCreatedAt, next.couple, clock);
    var couples := db.couples + [row];
    assert CoupleIds(couples) == CoupleIds(db.couples) + {row.id};
    forall i, j | 0 <= i < j < |couples| ensures couples[i].inviteCode != couples[j].inviteCode {
      if j < |db.couples| {
        assert couples[i] == db.couples[i] && couples[j] == db.couples[j];
      } else {
        assert couples[i] in db.couples;
      }
    }
  }

  /** A membership row stamped with the next id and the clock, whose user and couple exist, keeps the database well formed. */
  lemma InsertMemberRow(db: Db, next: Sequences, clock: int, row: CoupleMember)
    requires Wellformed(db, next, clock) && row.id == next.member && row.joinedAt == clock
    requires row.userId in UserIds(db.users) && row.coupleId in CoupleIds(db.couples)
    ensures Wellformed(db.(members := db.members + [row]), next.(member := next.member + 1), clock + 1)
  {
    Tick(db, next, clock);
    SerialInsert(db.members, row, MemberId, MemberJoinedAt, next.member, clock);
  }

  /** A todo stamped with the next id and the clock, whose couple and author exist, keeps the database well formed. */
  lemma InsertTodoRow(db: Db, next: Sequences, clock: int, row: Todo)
    requires Wellformed(db, next, clock) && row.id == next.todo && row.createdAt == clock
    requires row.coupleId in CoupleIds(db.couples) && row.createdBy in UserIds(db.users)
    ensures Wellformed(db.(todos := db.todos + [row]), next.(todo := next.todo + 1), clock + 1)
  {
    Tick(db, next, clock);
    SerialInsert(db.todos, row, TodoId, TodoCreatedAt, next.todo, clock);
    assert TodoIds(db.todos + [row]) == TodoIds(db.todos) + {row.id};
  }

  /** A comment stamped with the next id and the clock, whose todo and author exist, keeps the database well formed. */
  lemma InsertCommentRow(db: Db, next: Sequences, clock: int, row: Comment)
    requires Wellformed(db, next, clock) && row.id == next.comment && row.createdAt == clock
    requires row.todoId in TodoIds(db.todos) && row.userId in UserIds(db.users)
    ensures Wellformed(db.(comments := db.comments + [row]), next.(comment := next.comment + 1), clock + 1)
  {
    Tick(db, next, clock);
    SerialInsert(db.comments, row, CommentId, CommentCreatedAt, next.comment, clock);
  }

  /** A log row stamped with the next id and the clock, whose couple and user exist, keeps the database well formed. */
  lemma InsertLogRow(db: Db, next: Sequences, clock: int, row: ActivityLog)
    requires Wellformed(db, next, clock) && row.id == next.log && row.createdAt == clock
    requires row.coupleId in CoupleIds(db.couples) && row.userId in UserIds(db.users)
    ensures Wellformed(db.(logs := db.logs + [row]), next.(log := next.log + 1), clock + 1)
  {
    Tick(db, next, clock);
    SerialInsert(db.logs, row, LogId, LogCreatedAt, next.log, clock);
  }

  /** The rows `UPDATE todos SET <patch> WHERE id = <id>` leaves: every row with that id patched. */
  function PatchTodos(todos: seq<Todo>, id: int, patch: TodoPatch): (r: seq<Todo>)
    ensures |r| == |todos|
    ensures forall k :: 0 <= k < |r| ==> r[k].id == todos[k].id && r[k].createdAt == todos[k].createdAt
  {
    seq(|todos|, k requires 0 <= k < |todos| => if todos[k].id == id then ApplyPatch(todos[k], patch) else todos[k])
  }

  /** The columns a patch sets that are foreign keys name existing rows. */
  ghost predicate PatchReferencesExist(patch: TodoPatch, users: seq<User>, couples: seq<Couple>) {
    && (patch.coupleId.Some? ==> patch.coupleId.value in CoupleIds(couples))
    && (patch.createdBy.Some? ==> patch.createdBy.value in UserIds(users))
  }

  /** Patching the rows with one id keeps ids, stamps and, when the new references exist, every constraint. */
  lemma PatchKeepsConstraints(db: Db, id: int, patch: TodoPatch, nextId: int, clock: int)
    requires Consistent(db) && Serial(db.todos, TodoId, TodoCreatedAt, nextId, clock)
    requires PatchReferencesExist(patch, db.users, db.couples)
    ensures Consistent(db.(todos := PatchTodos(db.todos, id, patch)))
    ensures Serial(PatchTodos(db.todos, id, patch), TodoId, TodoCreatedAt, nextId, clock)
  {
    var todos := db.todos;
    var patched := PatchTodos(todos, id, patch);
    assert TodoIds(patched) == TodoIds(todos) by {
      forall x | x in TodoIds(todos) ensures x in TodoIds(patched) {
        var t :| t in todos && t.id == x;
        var k :| 0 <= k < |todos| && todos[k] == t;
        assert patched[k] in patched;
      }
      forall x | x in TodoIds(patched) ensures x in TodoIds(todos) {
        var t :| t in patched && t.id == x;
        var k :| 0 <= k < |patched| && patched[k] == t;
        assert todos[k] in todos;
      }
    }
    forall t | t in patched
      ensures t.coupleId in CoupleIds(db.couples) && t.createdBy in UserIds(db.users)
    {
      var k :| 0 <= k < |patched| && patched[k] == t;
      assert todos[k] in todos;
    }
  }

  /** Removing the rows with one id that no comment references keeps every constraint. */
  lemma DeleteKeepsConstraints(db: Db, id: int, nextId: int, clock: int)
    requires Consistent(db) && Serial(db.todos, TodoId, TodoCreatedAt, nextId, clock)
    requires !(id in TodoIds(db.todos) && id in CommentedTodoIds(db.comments))
    ensures Consistent(db.(todos := Filter(db.todos, OtherThan(id))))
    ensures Serial(Filter(db.todos, OtherThan(id)), TodoId, TodoCreatedAt, nextId, clock)
  {
    var kept := Filter(db.todos, OtherThan(id));
    FilterIncreasing(db.todos, OtherThan(id), TodoId);
    FilterIncreasing(db.todos, OtherThan(id), TodoCreatedAt);
    forall t | t in kept ensures t in db.todos {}
    forall i | 0 <= i < |kept| ensures 1 <= kept[i].id < nextId && 0 <= kept[i].createdAt < clock {
      assert kept[i] in db.todos;
      var k :| 0 <= k < |db.todos| && db.todos[k] == kept[i];
    }
    forall c | c in db.comments ensures c.todoId in TodoIds(kept) {
      assert c.todoId in CommentedTodoIds(db.comments);
      var t :| t in db.todos && t.id == c.todoId;
      assert t in kept;
    }
  }

  /** A patch whose new references exist keeps the database well formed. */
  lemma PatchKeepsWellformed(db: Db, id: int, patch: TodoPatch, next: Sequences, clock: int)
    requires Wellformed(db, next, clock) && PatchReferencesExist(patch, db.users, db.couples)
    ensures Wellformed(db.(todos := PatchTodos(db.todos, id, patch)), next, clock)
  {
    PatchKeepsConstraints(db, id, patch, next.todo, clock);
  }

  /** Deleting a todo no comment references keeps the database well formed. */
  lemma DeleteKeepsWellformed(db: Db, id: int, next: Sequences, clock: int)
    requires Wellformed(db, next, clock) && !(id in TodoIds(db.todos) && id in CommentedTodoIds(db.comments))
    ensures Wellformed(db.(todos := Filter(db.todos, OtherThan(id))), next, clock)
  {
    DeleteKeepsConstraints(db, id, next.todo, clock);
  }

  /** The database as one object whose tables its write methods change in place. */
  class DatabaseStorage {
    var users: seq<User>
    var couples: seq<Couple>
    var members: seq<CoupleMember>
    var todos: seq<Todo>
    var comments: seq<Comment>
    var logs: seq<ActivityLog>
    /** Each table's serial sequence. A failed insert still consumes its value. */
    var next: Sequences
    /** The logical clock behind `defaultNow()`; every stored row takes the current value. */
    var clock: int

    function Tables(): Db
      reads this
    {
      Db(users, couples, members, todos, comments, logs)
    }

    /** What the database guarantees between statements. */
    ghost predicate Valid()
      reads this
    {
      Wellformed(Tables(), next, clock)
    }

    /**
     * A freshly created database: the six tables of the schema, empty, with
     * every `serial` sequence at 1. The session store that the constructor in
     * server/storage.ts opens is not part of this model.
     */
    constructor ()
      ensures Valid()
      ensures Tables() == EmptyDb && next == Sequences(1, 1, 1, 1, 1, 1) && clock == 0
    {
      users, couples, members, todos, comments, logs := [], [], [], [], [], [];
      next := Sequences(1, 1, 1, 1, 1, 1);
      clock := 0;
      EmptyWellformed();
      new;
      assert Tables() == EmptyDb;
    }

    /** `createUser`: insert a user; a duplicate email violates the UNIQUE constraint. */
    method CreateUser(u: InsertUser) returns (r: Result<User, DbError>)
      requires Valid()
      modifies this
      ensures Valid()
      ensures next == old(next).(user := old(next.user) + 1)
      ensures r.Failure? <==> u.email in Emails(old(users))
      ensures r.Failure? ==> r.error == UniqueViolation && Tables() == old(Tables()) && clock == old(clock)
      ensures r.Success? ==> r.value == NewUser(old(next.user), old(clock), u)
                             && Tables() == old(Tables()).(users := old(users) + [r.value])
                             && clock == old(clock) + 1
    {
      ghost var db, seqs := Tables(), next;
      var id := next.user;
      next := next.(user := id + 1);
      ConsumeSequences(db, seqs, next, clock);
      if u.email in Emails(users) {
        return Failure(UniqueViolation);
      }
      var row := NewUser(id, clock, u);
      InsertUserRow(db, seqs, clock, row);
      users := users + [row];
      clock := clock + 1;
      assert Tables() == db.(users := db.users + [row]) && next == seqs.(user := seqs.user + 1);
      r := Success(row);
    }

    /** `createCouple`: insert a couple; an invite code already in use violates the UNIQUE constraint. */
    method CreateCouple(inviteCode: string) returns (r: Result<Couple, DbError>)
      requires Valid()
      modifies this
      ensures Valid()
      ensures next == old(next).(couple := old(next.couple) + 1)
      ensures r.Failure? <==> inviteCode in InviteCodes(old(couples))
      ensures r.Failure? ==> r.error == UniqueViolation && Tables() == old(Tables()) && clock == old(clock)
      ensures r.Success? ==> r.value == Couple(old(next.couple), inviteCode, old(clock))
                             && Tables() == old(Tables()).(couples := old(couples) + [r.value])
                             && clock == old(clock) + 1
    {
      ghost var db, seqs := Tables(), next;
      var id := next.couple;
      next := next.(couple := id + 1);
      ConsumeSequences(db, seqs, next, clock);
      if inviteCode in InviteCodes(couples) {
        return Failure(UniqueViolation);
      }
      var row := Couple(id, inviteCode, clock);
      InsertCoupleRow(db, seqs, clock, row);
      couples := couples + [row];
      clock := clock + 1;
      assert Tables() == db.(couples := db.couples + [row]) && next == seqs.(couple := seqs.couple + 1);
      r := Success(row);
    }

    /** `addCoupleMember`: insert a membership row; the user and the couple must exist. */
    method AddCoupleMember(userId: int, coupleId: int, role: string) returns (r: Result<CoupleMember, DbError>)
      requires Valid()
      modifies this
      ensures Valid()
      ensures next == old(next).(member := old(next.member) + 1)
      ensures r.Failure? <==> userId !in UserIds(old(users)) || coupleId !in CoupleIds(old(couples))
      ensures r.Failure? ==> r.error == ForeignKeyViolation && Tables() == old(Tables()) && clock == old(clock)
      ensures r.Success? ==> r.value == CoupleMember(old(next.member), userId, coupleId, role, old(clock))
                             && Tables() == old(Tables()).(members := old(members) + [r.value])
                             && clock == old(clock) + 1
    {
      ghost var db, seqs := Tables(), next;
      var id := next.member;
      next := next.(member := id + 1);
      ConsumeSequences(db, seqs, next, clock);
      if userId !in UserIds(users) || coupleId !in CoupleIds(couples) {
        return Failure(ForeignKeyViolation);
      }
      var row := CoupleMember(id, userId, coupleId, role, clock);
      InsertMemberRow(db, seqs, clock, row);
      members := members + [row];
      clock := clock + 1;
      assert Tables() == db.(members := db.members + [row]) && next == seqs.(member := seqs.member + 1);
      r := Success(row);
    }

    /** `createTodo`: insert a todo with the column defaults; its couple and author must exist. */
    method CreateTodo(t: InsertTodo) returns (r: Result<Todo, DbError>)
      requires Valid()
      modifies this
      ensures Valid()
      ensures next == old(next).(todo := old(next.todo) + 1)
      ensures r.Failure? <==> t.coupleId !in CoupleIds(old(couples)) || t.createdBy !in UserIds(old(users))
      ensures r.Failure? ==> r.error == ForeignKeyViolation && Tables() == old(Tables()) && clock == old(clock)
      ensures r.Success? ==> r.value == NewTodo(old(next.todo), old(clock), t)
                             && Tables() == old(Tables()).(todos := old(todos) + [r.value])
                             && clock == old(clock) + 1
    {
      ghost var db, seqs := Tables(), next;
      var id := next.todo;
      next := next.(todo := id + 1);
      ConsumeSequences(db, seqs, next, clock);
      if t.coupleId !in CoupleIds(couples) || t.createdBy !in UserIds(users) {
        return Failure(ForeignKeyViolation);
      }
      var row := NewTodo(id, clock, t);
      InsertTodoRow(db, seqs, clock, row);
      todos := todos + [row];
      clock := clock + 1;
      assert Tables() == db.(todos := db.todos + [row]) && next == seqs.(todo := seqs.todo + 1);
      r := Success(row);
    }

    /**
     * `updateTodo`: set the supplied columns of every row with this id and
     * return the first such row, or none when no row has the id. A patch that
     * points `coupleId` or `createdBy` at a missing row violates a foreign key.
     */
    method UpdateTodo(id: int, patch: TodoPatch) returns (r: Result<Option<Todo>, DbError>)
      requires Valid()
      modifies this
      ensures Valid()
      ensures next == old(next) && clock == old(clock)
      ensures r.Failure? <==> id in TodoIds(old(todos)) && !PatchReferencesExist(patch, old(users), old(couples))
      ensures r.Failure? ==> r.error == ForeignKeyViolation && Tables() == old(Tables())
      ensures r.Success? ==> Tables() == old(Tables()).(todos := PatchTodos(old(todos), id, patch))
                             && r.value == GetTodo(todos, id)
      ensures r.Success? ==> (r.value.None? <==> id !in TodoIds(old(todos)))
    {
      if id !in TodoIds(todos) {
        r := Success(None);
        assert PatchTodos(todos, id, patch) == todos;
        return;
      }
      if !(patch.coupleId.Some? ==> patch.coupleId.value in CoupleIds(couples))
         || !(patch.createdBy.Some? ==> patch.createdBy.value in UserIds(users)) {
        return Failure(ForeignKeyViolation);
      }
      ghost var db := Tables();
      var patched := PatchTodos(todos, id, patch);
      PatchKeepsWellformed(db, id, patch, next, clock);
      todos := patched;
      assert Tables() == db.(todos := PatchTodos(db.todos, id, patch));
      r := Success(GetTodo(todos, id));
    }

    /**
     * `deleteTodo`: remove every row with this id. Comments reference todos
     * without ON DELETE CASCADE, so deleting a todo that has comments fails.
     */
    method DeleteTodo(id: int) returns (r: Result<(), DbError>)
      requires Valid()
      modifies this
      ensures Valid()
      ensures next == old(next) && clock == old(clock)
      ensures r.Failure? <==> id in TodoIds(old(todos)) && id in CommentedTodoIds(old(comments))
      ensures r.Failure? ==> r.error == ForeignKeyViolation && Tables() == old(Tables())
      ensures r.Success? ==> Tables() == old(Tables()).(todos := Filter(old(todos), OtherThan(id)))
      ensures r.Success? ==> forall t :: t in todos <==> t in old(todos) && t.id != id
    {
      if id in TodoIds(todos) && id in CommentedTodoIds(comments) {
        return Failure(ForeignKeyViolation);
      }
      ghost var db := Tables();
      var kept := Filter(todos, OtherThan(id));
      DeleteKeepsWellformed(db, id, next, clock);
      todos := kept;
      assert Tables() == db.(todos := Filter(db.todos, OtherThan(id)));
      r := Success(());
    }

    /** `createComment`: insert a comment; its todo and its author must exist. */
    method CreateComment(todoId: int, userId: int, content: string) returns (r: Result<Comment, DbError>)
      requires Valid()
      modifies this
      ensures Valid()
      ensures next == old(next).(comment := old(next.comment) + 1)
      ensures r.Failure? <==> todoId !in TodoIds(old(todos)) || userId !in UserIds(old(users))
      ensures r.Failure? ==> r.error == ForeignKeyViolation && Tables() == old(Tables()) && clock == old(clock)
      ensures r.Success? ==> r.value == Comment(old(next.comment), todoId, userId, content, old(clock))
                             && Tables() == old(Tables()).(comments := old(comments) + [r.value])
                             && clock == old(clock) + 1
    {
      ghost var db, seqs := Tables(), next;
      var id := next.comment;
      next := next.(comment := id + 1);
      ConsumeSequences(db, seqs, next, clock);
      if todoId !in TodoIds(todos) || userId !in UserIds(users) {
        return Failure(ForeignKeyViolation);
      }
      var row := Comment(id, todoId, userId, content, clock);
      InsertCommentRow(db, seqs, clock, row);
      comments := comments + [row];
      clock := clock + 1;
      assert Tables() == db.(comments := db.comments + [row]) && next == seqs.(comment := seqs.comment + 1);
      r := Success(row);
    }

    /** `logActivity`: append a log row; its couple and its user must exist. */
    method LogActivity(coupleId: int, userId: int, action: string, details: string) returns (r: Result<ActivityLog, DbError>)
      requires Valid()
      modifies this
      ensures Valid()
      ensures next == old(next).(log := old(next.log) + 1)
      ensures r.Failure? <==> coupleId !in CoupleIds(old(couples)) || userId !in UserIds(old(users))
      ensures r.Failure? ==> r.error == ForeignKeyViolation && Tables() == old(Tables()) && clock == old(clock)
      ensures r.Success? ==> r.value == ActivityLog(old(next.log), coupleId, userId, action, Some(details), old(clock))
                             && Tables() == old(Tables()).(logs := old(logs) + [r.value])
                             && clock == old(clock) + 1
    {
      ghost var db, seqs := Tables(), next;
      var id := next.log;
      next := next.(log := id + 1);
      ConsumeSequences(db, seqs, next, clock);
      if coupleId !in CoupleIds(couples) || userId !in UserIds(users) {
        return Failure(ForeignKeyViolation);
      }
      var row := ActivityLog(id, coupleId, userId, action, Some(details), clock);
      InsertLogRow(db, seqs, clock, row);
      logs := logs + [row];
      clock := clock + 1;
      assert Tables() == db.(logs := db.logs + [row]) && next == seqs.(log := seqs.log + 1);
      r := Success(row);
    }
  }
}
