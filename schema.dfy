/**
 * The six tables of the couple workspace database: their rows, the insert shapes
 * that omit `id` and `createdAt`, the column defaults, and the unique and
 * foreign-key constraints the database enforces.
 *
 * Timestamps are the store's logical clock (an `int` that only grows); ids are
 * the values of each table's serial sequence, which starts at 1.
 */
module Schema {
  import opened Wrappers
  import opened Seqs

  // ---------------------------------------------------------------- rows

  /** A row of `users`. `password` is an opaque hash, null for identity-provider accounts. */
  datatype User = User(
    id: int, email: string, password: Option<string>, name: string,
    avatarUrl: Option<string>, createdAt: int)

  /** A row of `couples`. */
  datatype Couple = Couple(id: int, inviteCode: string, createdAt: int)

  /** A row of `couple_members`; `role` is free text ("admin" for the creator, "member" otherwise). */
  datatype CoupleMember = CoupleMember(id: int, userId: int, coupleId: int, role: string, joinedAt: int)

  /** A row of `todos`. `status`, `priority` and `assignedTo` are free text columns. */
  datatype Todo = Todo(
    id: int, coupleId: int, title: string, description: Option<string>,
    status: string, priority: string, dueDate: Option<int>,
    assignedTo: Option<string>, createdBy: int, createdAt: int)

  /** A row of `comments`. */
  datatype Comment = Comment(id: int, todoId: int, userId: int, content: string, createdAt: int)

  /** A row of `activity_logs`. */
  datatype ActivityLog = ActivityLog(
    id: int, coupleId: int, userId: int, action: string, details: Option<string>, createdAt: int)

  /** The whole database, each table in insertion order. */
  datatype Db = Db(
    users: seq<User>, couples: seq<Couple>, members: seq<CoupleMember>,
    todos: seq<Todo>, comments: seq<Comment>, logs: seq<ActivityLog>)

  const EmptyDb := Db([], [], [], [], [], [])

  // ------------------------------------------------------- insert shapes

  /** `insertUserSchema`: a user without `id` and `createdAt`. */
  datatype InsertUser = InsertUser(email: string, password: Option<string>, name: string, avatarUrl: Option<string>)

  /**
   * `insertTodoSchema`: a todo without `id` and `createdAt`. A `None` field is
   * omitted and takes the column default; `assignedTo` distinguishes an omitted
   * field (`None`) from an explicit null (`Some(None)`).
   */
  datatype InsertTodo = InsertTodo(
    coupleId: int, title: string, description: Option<string>,
    status: Option<string>, priority: Option<string>, dueDate: Option<int>,
    assignedTo: Option<Option<string>>, createdBy: int)

  /**
   * `Partial<InsertTodo>`: every todo column except `id` and `createdAt` may be
   * supplied; `None` leaves the column as it is, and the nullable columns take
   * `Some(None)` to be set to null.
   */
  datatype TodoPatch = TodoPatch(
    coupleId: Option<int>, title: Option<string>, description: Option<Option<string>>,
    status: Option<string>, priority: Option<string>, dueDate: Option<Option<int>>,
    assignedTo: Option<Option<string>>, createdBy: Option<int>)

  const NoChanges := TodoPatch(None, None, None, None, None, None, None, None)

  // ------------------------------------------------------------ defaults

  const DefaultStatus := "pending"
  const DefaultPriority := "medium"
  const DefaultAssignedTo := "both"

  function OrElse<T>(o: Option<T>, default: T): T {
    match o
    case Some(v) => v
    case None => default
  }

  /** The row the database stores for an inserted user. */
  function NewUser(id: int, at: int, u: InsertUser): (row: User)
    ensures row.id == id && row.createdAt == at
    ensures row.email == u.email && row.name == u.name
    ensures row.password == u.password && row.avatarUrl == u.avatarUrl
  {
    User(id, u.email, u.password, u.name, u.avatarUrl, at)
  }

  /**
   * The row the database stores for an inserted todo: the supplied columns as
   * given, and status "pending", priority "medium" and assignedTo "both" where
   * those columns were omitted. An omitted description or due date is null.
   */
  function NewTodo(id: int, at: int, t: InsertTodo): (row: Todo)
    ensures row.id == id && row.createdAt == at
    ensures row.coupleId == t.coupleId && row.createdBy == t.createdBy && row.title == t.title
    ensures row.description == t.description && row.dueDate == t.dueDate
    ensures t.status.None? ==> row.status == "pending"
    ensures t.status.Some? ==> row.status == t.status.value
    ensures t.priority.None? ==> row.priority == "medium"
    ensures t.priority.Some? ==> row.priority == t.priority.value
    ensures t.assignedTo.None? ==> row.assignedTo == Some("both")
    ensures t.assignedTo.Some? ==> row.assignedTo == t.assignedTo.value
  {
    Todo(id, t.coupleId, t.title, t.description,
         OrElse(t.status, DefaultStatus), OrElse(t.priority, DefaultPriority), t.dueDate,
         OrElse(t.assignedTo, Some(DefaultAssignedTo)), t.createdBy, at)
  }

  /**
   * `UPDATE todos SET <patch>` applied to one row: the supplied columns take
   * their new values, every other column (and `id`, `createdAt`) keeps its value.
   */
  function ApplyPatch(t: Todo, p: TodoPatch): (row: Todo)
    ensures row.id == t.id && row.createdAt == t.createdAt
    ensures row.coupleId == OrElse(p.coupleId, t.coupleId)
    ensures row.title == OrElse(p.title, t.title)
    ensures row.description == OrElse(p.description, t.description)
    ensures row.status == OrElse(p.status, t.status)
    ensures row.priority == OrElse(p.priority, t.priority)
    ensures row.dueDate == OrElse(p.dueDate, t.dueDate)
    ensures row.assignedTo == OrElse(p.assignedTo, t.assignedTo)
    ensures row.createdBy == OrElse(p.createdBy, t.createdBy)
    ensures p == NoChanges ==> row == t
  {
    t.(coupleId := OrElse(p.coupleId, t.coupleId),
       title := OrElse(p.title, t.title),
       description := OrElse(p.description, t.description),
       status := OrElse(p.status, t.status),
       priority := OrElse(p.priority, t.priority),
       dueDate := OrElse(p.dueDate, t.dueDate),
       assignedTo := OrElse(p.assignedTo, t.assignedTo),
       createdBy := OrElse(p.createdBy, t.createdBy))
  }

  // ------------------------------------------------- keys and projections

  function UserId(u: User): int { u.id }
  function UserCreatedAt(u: User): int { u.createdAt }
  function CoupleId(c: Couple): int { c.id }
  function CoupleCreatedAt(c: Couple): int { c.createdAt }
  function MemberId(m: CoupleMember): int { m.id }
  function MemberJoinedAt(m: CoupleMember): int { m.joinedAt }
  function TodoId(t: Todo): int { t.id }
  function TodoCreatedAt(t: Todo): int { t.createdAt }
  function CommentId(c: Comment): int { c.id }
  function CommentCreatedAt(c: Comment): int { c.createdAt }
  function LogId(l: ActivityLog): int { l.id }
  function LogCreatedAt(l: ActivityLog): int { l.createdAt }

  function UserIds(users: seq<User>): set<int> { set u | u in users :: u.id }
  function CoupleIds(couples: seq<Couple>): set<int> { set c | c in couples :: c.id }
  function TodoIds(todos: seq<Todo>): set<int> { set t | t in todos :: t.id }
  function Emails(users: seq<User>): set<string> { set u | u in users :: u.email }
  function InviteCodes(couples: seq<Couple>): set<string> { set c | c in couples :: c.inviteCode }

  /** Membership rows of one couple. */
  function InCouple(coupleId: int): CoupleMember -> bool {
    (m: CoupleMember) => m.coupleId == coupleId
  }

  /** How many membership rows name the couple. */
  function MemberCount(members: seq<CoupleMember>, coupleId: int): nat {
    |Filter(members, InCouple(coupleId))|
  }

  // --------------------------------------------------------- constraints

  /** `users.email` is UNIQUE. */
  ghost predicate EmailsUnique(users: seq<User>) {
    forall i, j :: 0 <= i < j < |users| ==> users[i].email != users[j].email
  }

  /** `couples.invite_code` is UNIQUE. */
  ghost predicate InviteCodesUnique(couples: seq<Couple>) {
    forall i, j :: 0 <= i < j < |couples| ==> couples[i].inviteCode != couples[j].inviteCode
  }

  /** Every REFERENCES clause of the schema holds. */
  ghost predicate ForeignKeysHold(db: Db) {
    && (forall m :: m in db.members ==> m.userId in UserIds(db.users) && m.coupleId in CoupleIds(db.couples))
    && (forall t :: t in db.todos ==> t.coupleId in CoupleIds(db.couples) && t.createdBy in UserIds(db.users))
    && (forall c :: c in db.comments ==> c.todoId in TodoIds(db.todos) && c.userId in UserIds(db.users))
    && (forall l :: l in db.logs ==> l.coupleId in CoupleIds(db.couples) && l.userId in UserIds(db.users))
  }

  /** The constraints the database itself enforces on every statement. */
  ghost predicate Consistent(db: Db) {
    EmailsUnique(db.users) && InviteCodesUnique(db.couples) && ForeignKeysHold(db)
  }

  /**
   * The rule of the couple workspace that lives only in the handlers: no couple
   * has more than two membership rows. The schema does not state it.
   */
  ghost predicate PairsBounded(members: seq<CoupleMember>) {
    forall c :: MemberCount(members, c) <= 2
  }

  // ----------------------------------------------- what the schema allows

  /** Three users, two couples, and memberships that put all three users in couple 1 and user 1 also in couple 2. */
  function CrowdedDb(): Db {
    Db([User(1, "a@example.com", None, "A", None, 0), User(2, "b@example.com", None, "B", None, 1),
        User(3, "c@example.com", None, "C", None, 2)],
       [Couple(1, "AAAAAA", 3), Couple(2, "BBBBBB", 4)],
       [CoupleMember(1, 1, 1, "admin", 5), CoupleMember(2, 2, 1, "member", 6),
        CoupleMember(3, 3, 1, "member", 7), CoupleMember(4, 1, 2, "member", 8)],
       [], [], [])
  }

  lemma CrowdedDbConsistent()
    ensures Consistent(CrowdedDb())
  {
    var db := CrowdedDb();
    assert UserIds(db.users) == {1, 2, 3} by {
      assert db.users[0] in db.users && db.users[1] in db.users && db.users[2] in db.users;
    }
    assert CoupleIds(db.couples) == {1, 2} by {
      assert db.couples[0] in db.couples && db.couples[1] in db.couples;
    }
  }

  lemma CrowdedDbCountsThree()
    ensures MemberCount(CrowdedDb().members, 1) == 3
  {
    var ms := CrowdedDb().members;
    assert ms == ms[..3] + [ms[3]];
    FilterAppend(ms[..3], ms[3], InCouple(1));
    assert ms[..3] == ms[..2] + [ms[2]];
    FilterAppend(ms[..2], ms[2], InCouple(1));
    assert ms[..2] == ms[..1] + [ms[1]];
    FilterAppend(ms[..1], ms[1], InCouple(1));
    assert ms[..1] == [] + [ms[0]];
    FilterAppend([], ms[0], InCouple(1));
  }

  /**
   * Nothing in the schema bounds the members of a couple or makes
   * `couple_members.user_id` unique: a database in which one couple has three
   * members and one user belongs to two couples satisfies every constraint.
   */
  lemma SchemaAllowsCrowdsAndDoublePairing()
    ensures exists db :: Consistent(db) && !PairsBounded(db.members)
                         && exists i, j :: 0 <= i < j < |db.members| && db.members[i].userId == db.members[j].userId
  {
    var db := CrowdedDb();
    CrowdedDbConsistent();
    CrowdedDbCountsThree();
    assert db.members[0].userId == db.members[3].userId;
  }
}
