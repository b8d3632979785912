/**
 * The demonstration workspace written at start-up: two users, Alex and Sam,
 * paired in the couple with invite code "LOVE24", three todos, one comment and
 * two activity entries. Seeding is skipped when Alex's account exists. The
 * inserts run one after another without a transaction, so an insert that
 * fails leaves the rows written before it in place.
 */
module Seed {
  import opened Wrappers
  import opened Seqs
  import opened Schema
  import opened Storage

  const HimEmail := "him@example.com"
  const HerEmail := "her@example.com"
  const SeedInviteCode := "LOVE24"
  /** Milliseconds in a day; due dates are instants in milliseconds. */
  const Day := 86400000

  function HimInput(hash: string): InsertUser {
    InsertUser(HimEmail, Some(hash), "Alex", Some("https://api.dicebear.com/7.x/avataaars/svg?seed=Alex"))
  }

  function HerInput(hash: string): InsertUser {
    InsertUser(HerEmail, Some(hash), "Sam", Some("https://api.dicebear.com/7.x/avataaars/svg?seed=Sam"))
  }

  function DinnerInput(coupleId: int, him: int, now: int): InsertTodo {
    InsertTodo(coupleId, "Plan our anniversary dinner", Some("Look for romantic Italian restaurants downtown"),
               Some("pending"), Some("high"), Some(now + Day * 7), Some(Some("both")), him)
  }

  function GroceriesInput(coupleId: int, her: int, now: int): InsertTodo {
    InsertTodo(coupleId, "Buy groceries for the week", Some("Milk, eggs, bread, and some snacks"),
               Some("pending"), Some("medium"), Some(now + Day * 2), Some(Some("him")), her)
  }

  function FlightInput(coupleId: int, him: int): InsertTodo {
    InsertTodo(coupleId, "Book flight tickets", Some("Summer vacation to Bali"),
               Some("completed"), Some("high"), None, Some(Some("her")), him)
  }

  const WindowSeats := "Done! I got the window seats :)"

  /** The store as the script sees it between two inserts: its tables, its sequences and its clock. */
  datatype Store = Store(db: Db, next: Sequences, clock: int)

  /** The current state of a storage object as a value. */
  function Snapshot(s: DatabaseStorage): Store
    reads s
  {
    Store(s.Tables(), s.next, s.clock)
  }

  // ------------------------------------------------- one insert at a time

  /** A successful `createUser`: the row takes the next id and the current clock. */
  function AddUser(st: Store, u: InsertUser): Store {
    Store(st.db.(users := st.db.users + [NewUser(st.next.user, st.clock, u)]),
          st.next.(user := st.next.user + 1), st.clock + 1)
  }

  /** A `createUser` the UNIQUE constraint rejects: only the sequence moves. */
  function RejectUser(st: Store): Store {
    st.(next := st.next.(user := st.next.user + 1))
  }

  /** A successful `createCouple`. */
  function AddCouple(st: Store, code: string): Store {
    Store(st.db.(couples := st.db.couples + [Couple(st.next.couple, code, st.clock)]),
          st.next.(couple := st.next.couple + 1), st.clock + 1)
  }

  /** A `createCouple` the UNIQUE constraint rejects. */
  function RejectCouple(st: Store): Store {
    st.(next := st.next.(couple := st.next.couple + 1))
  }

  /** A successful `addCoupleMember`. */
  function AddMember(st: Store, userId: int, coupleId: int, role: string): Store {
    Store(st.db.(members := st.db.members + [CoupleMember(st.next.member, userId, coupleId, role, st.clock)]),
          st.next.(member := st.next.member + 1), st.clock + 1)
  }

  /** A successful `createTodo`. */
  function AddTodo(st: Store, t: InsertTodo): Store {
    Store(st.db.(todos := st.db.todos + [NewTodo(st.next.todo, st.clock, t)]),
          st.next.(todo := st.next.todo + 1), st.clock + 1)
  }

  /** A successful `createComment`. */
  function AddComment(st: Store, todoId: int, userId: int, content: string): Store {
    Store(st.db.(comments := st.db.comments + [Comment(st.next.comment, todoId, userId, content, st.clock)]),
          st.next.(comment := st.next.comment + 1), st.clock + 1)
  }

  /** A successful `logActivity`. */
  function AddLog(st: Store, coupleId: int, userId: int, action: string, details: string): Store {
    Store(st.db.(logs := st.db.logs + [ActivityLog(st.next.log, coupleId, userId, action, Some(details), st.clock)]),
          st.next.(log := st.next.log + 1), st.clock + 1)
  }

  // ------------------------------------------------- the script, part by part

  /** Alex, then Sam; Sam's insert fails when the address is taken by then. Yields the two ids. */
  function UsersRun(st: Store, himHash: string, herHash: string): (Result<(int, int), DbError>, Store) {
    var withHim := AddUser(st, HimInput(himHash));
    if HerEmail in Emails(withHim.db.users) then
      (Failure(UniqueViolation), RejectUser(withHim))
    else
      (Success((st.next.user, st.next.user + 1)), AddUser(withHim, HerInput(herHash)))
  }

  /** Alex joins as admin, then Sam as member. */
  function MembersRun(st: Store, him: int, her: int, coupleId: int): Store {
    AddMember(AddMember(st, him, coupleId, "admin"), her, coupleId, "member")
  }

  /** The anniversary dinner, the groceries, then the completed flight booking. */
  function TodosRun(st: Store, coupleId: int, him: int, her: int, now: int): Store {
    AddTodo(AddTodo(AddTodo(st, DinnerInput(coupleId, him, now)), GroceriesInput(coupleId, her, now)),
            FlightInput(coupleId, him))
  }

  /** Sam's comment on the flight booking, then Alex's "create_todo" and Sam's "join_couple" entries. */
  function HistoryRun(st: Store, coupleId: int, him: int, her: int, flight: int): Store {
    var commented := AddComment(st, flight, her, WindowSeats);
    var created := AddLog(commented, coupleId, him, "create_todo", "Created task: Plan our anniversary dinner");
    AddLog(created, coupleId, her, "join_couple", "Joined the workspace")
  }

  /** The todos, then the history; the flight booking is the third todo. */
  function TasksRun(st: Store, coupleId: int, him: int, her: int, now: int): Store {
    HistoryRun(TodosRun(st, coupleId, him, her, now), coupleId, him, her, st.next.todo + 2)
  }

  /** The couple "LOVE24", its two members and its tasks; fails at once when the code is taken. */
  function WorkspaceRun(st: Store, him: int, her: int, now: int): (Result<(), DbError>, Store) {
    if SeedInviteCode in InviteCodes(st.db.couples) then
      (Failure(UniqueViolation), RejectCouple(st))
    else
      var coupleId := st.next.couple;
      (Success(()), TasksRun(MembersRun(AddCouple(st, SeedInviteCode), him, her, coupleId), coupleId, him, her, now))
  }

  datatype SeedOutcome = AlreadySeeded | Seeded | Aborted(error: DbError)

  /**
   * The whole of `seed` from a store: nothing when Alex's address is taken;
   * otherwise the users, then the workspace, stopping at the first insert
   * that fails. The store after a failure keeps the rows written before it.
   */
  function SeedRun(st: Store, himHash: string, herHash: string, now: int): (SeedOutcome, Store) {
    if HimEmail in Emails(st.db.users) then
      (AlreadySeeded, st)
    else
      var users := UsersRun(st, himHash, herHash);
      if users.0.Failure? then
        (Aborted(users.0.error), users.1)
      else
        var workspace := WorkspaceRun(users.1, users.0.value.0, users.0.value.1, now);
        (if workspace.0.Failure? then Aborted(workspace.0.error) else Seeded, workspace.1)
  }

  // ------------------------------------------------- running the script twice

  /** The workspace part writes no user row. */
  lemma WorkspaceKeepsUsers(st: Store, him: int, her: int, now: int)
    ensures WorkspaceRun(st, him, her, now).1.db.users == st.db.users
  {
    if SeedInviteCode !in InviteCodes(st.db.couples) {
      var c := st.next.couple;
      var seated := MembersRun(AddCouple(st, SeedInviteCode), him, her, c);
      assert seated.db.users == st.db.users;
      assert TodosRun(seated, c, him, her, now).db.users == st.db.users;
    }
  }

  /** Once a run has got past the existence check, Alex's row is in the store it leaves. */
  lemma RunLeavesAlex(st: Store, himHash: string, herHash: string, now: int)
    ensures HimEmail in Emails(SeedRun(st, himHash, herHash, now).1.db.users)
  {
    if HimEmail !in Emails(st.db.users) {
      var withHim := AddUser(st, HimInput(himHash));
      var alex := NewUser(st.next.user, st.clock, HimInput(himHash));
      assert alex in withHim.db.users;
      var users := UsersRun(st, himHash, herHash);
      assert alex in users.1.db.users;
      if users.0.Success? {
        WorkspaceKeepsUsers(users.1, users.0.value.0, users.0.value.1, now);
      }
      assert alex in SeedRun(st, himHash, herHash, now).1.db.users;
    }
  }

  /** Seeding again, with any hashes and clock reading, changes nothing: the script runs at most once. */
  lemma SeedIsIdempotent(st: Store, himHash: string, herHash: string, now: int,
                         himHash': string, herHash': string, now': int)
    ensures var after := SeedRun(st, himHash, herHash, now).1;
            SeedRun(after, himHash', herHash', now') == (AlreadySeeded, after)
  {
    RunLeavesAlex(st, himHash, herHash, now);
  }

  /** `b` keeps every row of `a` in place and its sequences and clock have not moved back. */
  ghost predicate Extends(a: Store, b: Store) {
    && a.db.users <= b.db.users && a.db.couples <= b.db.couples && a.db.members <= b.db.members
    && a.db.todos <= b.db.todos && a.db.comments <= b.db.comments && a.db.logs <= b.db.logs
    && a.next.user <= b.next.user && a.next.couple <= b.next.couple && a.next.member <= b.next.member
    && a.next.todo <= b.next.todo && a.next.comment <= b.next.comment && a.next.log <= b.next.log
    && a.clock <= b.clock
  }

  lemma ExtendsTransitive(a: Store, b: Store, c: Store)
    requires Extends(a, b) && Extends(b, c)
    ensures Extends(a, c)
  {
  }

  lemma TasksExtend(st: Store, coupleId: int, him: int, her: int, now: int)
    ensures Extends(st, TasksRun(st, coupleId, him, her, now))
  {
    var listed := TodosRun(st, coupleId, him, her, now);
    assert Extends(st, listed);
    assert Extends(listed, HistoryRun(listed, coupleId, him, her, st.next.todo + 2));
    ExtendsTransitive(st, listed, HistoryRun(listed, coupleId, him, her, st.next.todo + 2));
  }

  lemma WorkspaceExtends(st: Store, him: int, her: int, now: int)
    ensures Extends(st, WorkspaceRun(st, him, her, now).1)
  {
    if SeedInviteCode !in InviteCodes(st.db.couples) {
      var c := st.next.couple;
      var seated := MembersRun(AddCouple(st, SeedInviteCode), him, her, c);
      assert Extends(st, seated);
      TasksExtend(seated, c, him, her, now);
      ExtendsTransitive(st, seated, TasksRun(seated, c, him, her, now));
    }
  }

  /**
   * Seeding only appends: every row that was there stays where it was, even
   * when an insert fails part-way, and no sequence or clock moves back.
   */
  lemma SeedOnlyAppends(st: Store, himHash: string, herHash: string, now: int)
    ensures Extends(st, SeedRun(st, himHash, herHash, now).1)
  {
    if HimEmail !in Emails(st.db.users) {
      var users := UsersRun(st, himHash, herHash);
      assert Extends(st, users.1);
      if users.0.Success? {
        WorkspaceExtends(users.1, users.0.value.0, users.0.value.1, now);
        ExtendsTransitive(st, users.1, WorkspaceRun(users.1, users.0.value.0, users.0.value.1, now).1);
      }
    }
  }

  // ------------------------------------------------- what a complete run writes

  /** The two seed addresses differ. */
  lemma SeedEmailsDiffer()
    ensures HimEmail != HerEmail
  {
    assert HimEmail[1] != HerEmail[1];
  }

  /** Both users are written when Sam's address is free. */
  lemma UsersRows(st: Store, himHash: string, herHash: string)
    requires HimEmail !in Emails(st.db.users) && HerEmail !in Emails(st.db.users)
    ensures UsersRun(st, himHash, herHash)
            == (Success((st.next.user, st.next.user + 1)),
                Store(st.db.(users := st.db.users + [NewUser(st.next.user, st.clock, HimInput(himHash)),
                                                     NewUser(st.next.user + 1, st.clock + 1, HerInput(herHash))]),
                      st.next.(user := st.next.user + 2), st.clock + 2))
  {
    SeedEmailsDiffer();
    var him, her := NewUser(st.next.user, st.clock, HimInput(himHash)), NewUser(st.next.user + 1, st.clock + 1, HerInput(herHash));
    assert HerEmail !in Emails(AddUser(st, HimInput(himHash)).db.users);
    assert st.db.users + [him] + [her] == st.db.users + [him, her];
  }

  /** The two memberships. */
  lemma MembersRows(st: Store, him: int, her: int, c: int)
    ensures MembersRun(st, him, her, c)
            == Store(st.db.(members := st.db.members + [CoupleMember(st.next.member, him, c, "admin", st.clock),
                                                        CoupleMember(st.next.member + 1, her, c, "member", st.clock + 1)]),
                     st.next.(member := st.next.member + 2), st.clock + 2)
  {
  }

  /** The three todos, the comment on the third and the two log entries. */
  lemma TasksRows(st: Store, c: int, him: int, her: int, now: int)
    ensures var t, k := st.next.todo, st.clock;
            TasksRun(st, c, him, her, now)
            == Store(st.db.(todos := st.db.todos + [NewTodo(t, k, DinnerInput(c, him, now)),
                                                    NewTodo(t + 1, k + 1, GroceriesInput(c, her, now)),
                                                    NewTodo(t + 2, k + 2, FlightInput(c, him))],
                            comments := st.db.comments + [Comment(st.next.comment, t + 2, her, WindowSeats, k + 3)],
                            logs := st.db.logs + [ActivityLog(st.next.log, c, him, "create_todo", Some("Created task: Plan our anniversary dinner"), k + 4),
                                                  ActivityLog(st.next.log + 1, c, her, "join_couple", Some("Joined the workspace"), k + 5)]),
                     st.next.(todo := t + 3, comment := st.next.comment + 1, log := st.next.log + 2), k + 6)
  {
    var listed := TodosRun(st, c, him, her, now);
    assert listed.db.todos == st.db.todos + [NewTodo(st.next.todo, st.clock, DinnerInput(c, him, now)),
                                             NewTodo(st.next.todo + 1, st.clock + 1, GroceriesInput(c, her, now)),
                                             NewTodo(st.next.todo + 2, st.clock + 2, FlightInput(c, him))];
  }

  /** The three todos a complete run from `st` appends: the dinner, the groceries, the flight booking. */
  function SeedTodoRows(st: Store, now: int): seq<Todo> {
    var c, him, her, t, k := st.next.couple, st.next.user, st.next.user + 1, st.next.todo, st.clock;
    [NewTodo(t, k + 5, DinnerInput(c, him, now)), NewTodo(t + 1, k + 6, GroceriesInput(c, her, now)),
     NewTodo(t + 2, k + 7, FlightInput(c, him))]
  }

  /** Sam's comment on the flight booking. */
  function SeedComment(st: Store): Comment {
    Comment(st.next.comment, st.next.todo + 2, st.next.user + 1, WindowSeats, st.clock + 8)
  }

  /** The two activity entries: Alex's "create_todo", then Sam's "join_couple". */
  function SeedLogRows(st: Store): seq<ActivityLog> {
    var c, k := st.next.couple, st.clock;
    [ActivityLog(st.next.log, c, st.next.user, "create_todo", Some("Created task: Plan our anniversary dinner"), k + 9),
     ActivityLog(st.next.log + 1, c, st.next.user + 1, "join_couple", Some("Joined the workspace"), k + 10)]
  }

  /** The seeded todos all belong to the new couple: the dinner and the groceries pending, the flight booking completed. */
  lemma SeedTodoStatuses(st: Store, now: int)
    ensures var rows := SeedTodoRows(st, now);
            && |rows| == 3
            && (forall t :: t in rows ==> t.coupleId == st.next.couple)
            && rows[0].status == "pending" && rows[1].status == "pending" && rows[2].status == "completed"
            && SeedComment(st).todoId == rows[2].id
  {
  }

  /**
   * From a store where neither address nor the invite code is taken, the run
   * completes and appends exactly the script's rows: two users, the couple,
   * two memberships, three todos, one comment and two log entries, each with
   * the next id of its table and the next tick of the clock.
   */
  lemma SeededRows(st: Store, himHash: string, herHash: string, now: int)
    requires HimEmail !in Emails(st.db.users) && HerEmail !in Emails(st.db.users)
    requires SeedInviteCode !in InviteCodes(st.db.couples)
    ensures var run := SeedRun(st, himHash, herHash, now);
            var him, her, c, t, k := st.next.user, st.next.user + 1, st.next.couple, st.next.todo, st.clock;
            && run.0 == Seeded
            && run.1.db.users == st.db.users + [NewUser(him, k, HimInput(himHash)), NewUser(her, k + 1, HerInput(herHash))]
            && run.1.db.couples == st.db.couples + [Couple(c, SeedInviteCode, k + 2)]
            && run.1.db.members == st.db.members + [CoupleMember(st.next.member, him, c, "admin", k + 3),
                                                    CoupleMember(st.next.member + 1, her, c, "member", k + 4)]
            && run.1.db.todos == st.db.todos + SeedTodoRows(st, now)
            && run.1.db.comments == st.db.comments + [SeedComment(st)]
            && run.1.db.logs == st.db.logs + SeedLogRows(st)
            && run.1.clock == k + 11
  {
    var him, her, c := st.next.user, st.next.user + 1, st.next.couple;
    UsersRows(st, himHash, herHash);
    var paired := UsersRun(st, himHash, herHash).1;
    var founded := AddCouple(paired, SeedInviteCode);
    MembersRows(founded, him, her, c);
    var seated := MembersRun(founded, him, her, c);
    TasksRows(seated, c, him, her, now);
    assert SeedRun(st, himHash, herHash, now) == (Seeded, TasksRun(seated, c, him, her, now));
  }

  // ------------------------------------------------- what the workspace reads back

  /** A well-formed store where the script's two addresses and its invite code are free. */
  ghost predicate Unseeded(st: Store) {
    && Wellformed(st.db, st.next, st.clock)
    && HimEmail !in Emails(st.db.users) && HerEmail !in Emails(st.db.users)
    && SeedInviteCode !in InviteCodes(st.db.couples)
  }

  /** The store of a first start-up (no rows, every sequence at 1, the clock at 0) is unseeded. */
  lemma EmptyStoreUnseeded()
    ensures Unseeded(Store(EmptyDb, Sequences(1, 1, 1, 1, 1, 1), 0))
  {
    EmptyWellformed();
  }

  /** No existing row refers to the couple, the users or the todos the run is about to create. */
  lemma FreshIdsUnused(st: Store)
    requires Wellformed(st.db, st.next, st.clock)
    ensures forall x :: x in st.db.couples ==> x.id != st.next.couple
    ensures forall m :: m in st.db.members ==> m.coupleId != st.next.couple && m.userId < st.next.user
    ensures forall t :: t in st.db.todos ==> t.coupleId != st.next.couple
    ensures forall cm :: cm in st.db.comments ==> cm.todoId < st.next.todo
    ensures forall l :: l in st.db.logs ==> l.coupleId != st.next.couple
  {
    assert forall x :: x in st.db.couples ==> x.id < st.next.couple by {
      forall x | x in st.db.couples ensures x.id < st.next.couple {
        var i :| 0 <= i < |st.db.couples| && st.db.couples[i] == x;
        assert CoupleId(st.db.couples[i]) < st.next.couple;
      }
    }
    assert forall u :: u in st.db.users ==> u.id < st.next.user by {
      forall u | u in st.db.users ensures u.id < st.next.user {
        var i :| 0 <= i < |st.db.users| && st.db.users[i] == u;
        assert UserId(st.db.users[i]) < st.next.user;
      }
    }
    assert forall t :: t in st.db.todos ==> t.id < st.next.todo by {
      forall t | t in st.db.todos ensures t.id < st.next.todo {
        var i :| 0 <= i < |st.db.todos| && st.db.todos[i] == t;
        assert TodoId(st.db.todos[i]) < st.next.todo;
      }
    }
  }

  /** Two rows appended for a key no earlier row has are the only rows with it. */
  lemma TwoNewRows<T(!new)>(rows: seq<T>, x: T, y: T, mine: T -> bool)
    requires forall r :: r in rows ==> !mine(r)
    requires mine(x) && mine(y)
    ensures Filter(rows + [x, y], mine) == [x, y]
  {
    assert rows + [x, y] == rows + [x] + [y];
    FilterAppend(rows + [x], y, mine);
    FilterAppend(rows, x, mine);
    FilterNone(rows, mine);
  }

  /** Likewise for three rows. */
  lemma ThreeNewRows<T(!new)>(rows: seq<T>, x: T, y: T, z: T, mine: T -> bool)
    requires forall r :: r in rows ==> !mine(r)
    requires mine(x) && mine(y) && mine(z)
    ensures Filter(rows + [x, y, z], mine) == [x, y, z]
  {
    assert rows + [x, y, z] == rows + [x, y] + [z];
    TwoNewRows(rows, x, y, mine);
    FilterAppend(rows + [x, y], z, mine);
  }

  /** The comments on a todo when one new comment is appended and no earlier comment refers to it. */
  lemma OneNewComment(comments: seq<Comment>, cm: Comment, todoId: int)
    requires forall x :: x in comments ==> x.todoId != todoId
    ensures GetComments(comments + [cm], todoId) == if cm.todoId == todoId then [cm] else []
  {
    FilterAppend(comments, cm, OnTodo(todoId));
    FilterNone(comments, OnTodo(todoId));
  }

  /**
   * A couple whose only todos are three appended ones lists them newest first,
   * each with its own comments: here one new comment on the third.
   */
  lemma ThreeTodosNewestFirst(todos: seq<Todo>, comments: seq<Comment>, c: int, t1: Todo, t2: Todo, t3: Todo, cm: Comment)
    requires forall t :: t in todos ==> t.coupleId != c
    requires forall x :: x in comments ==> x.todoId != t1.id && x.todoId != t2.id && x.todoId != t3.id
    requires t1.coupleId == c && t2.coupleId == c && t3.coupleId == c
    requires cm.todoId == t3.id && t1.id != t3.id && t2.id != t3.id
    ensures GetTodos(todos + [t1, t2, t3], comments + [cm], c)
            == [TodoWithComments(t3, [cm]), TodoWithComments(t2, []), TodoWithComments(t1, [])]
  {
    ThreeNewRows(todos, t1, t2, t3, TodoInCouple(c));
    var newestFirst := Reverse([t1, t2, t3]);
    assert newestFirst[0] == t3 && newestFirst[1] == t2 && newestFirst[2] == t1;
    assert newestFirst == [t3, t2, t1];
    CommentGoesToNewest(comments, cm, t1, t2, t3);
  }

  /** Attaching comments to three todos when the one new comment belongs to the first. */
  lemma CommentGoesToNewest(comments: seq<Comment>, cm: Comment, t1: Todo, t2: Todo, t3: Todo)
    requires forall x :: x in comments ==> x.todoId != t1.id && x.todoId != t2.id && x.todoId != t3.id
    requires cm.todoId == t3.id && t1.id != t3.id && t2.id != t3.id
    ensures AttachComments([t3, t2, t1], comments + [cm])
            == [TodoWithComments(t3, [cm]), TodoWithComments(t2, []), TodoWithComments(t1, [])]
  {
    OneNewComment(comments, cm, t3.id);
    OneNewComment(comments, cm, t2.id);
    OneNewComment(comments, cm, t1.id);
    AttachToThree(comments + [cm], t1, t2, t3, [cm]);
  }

  /** Three todos paired with their comments, when only the first has any. */
  lemma AttachToThree(all: seq<Comment>, t1: Todo, t2: Todo, t3: Todo, mine: seq<Comment>)
    requires GetComments(all, t3.id) == mine && GetComments(all, t2.id) == [] && GetComments(all, t1.id) == []
    ensures AttachComments([t3, t2, t1], all)
            == [TodoWithComments(t3, mine), TodoWithComments(t2, []), TodoWithComments(t1, [])]
  {
    var r := AttachComments([t3, t2, t1], all);
    assert r[0] == TodoWithComments(t3, mine) && r[1] == TodoWithComments(t2, []) && r[2] == TodoWithComments(t1, []);
  }

  /** The activity of a couple whose only log rows are two appended ones lists the later first. */
  lemma TwoLogsNewestFirst(logs: seq<ActivityLog>, c: int, older: ActivityLog, newer: ActivityLog)
    requires forall l :: l in logs ==> l.coupleId != c
    requires older.coupleId == c && newer.coupleId == c
    ensures GetActivityLogs(logs + [older, newer], c) == [newer, older]
  {
    TwoNewRows(logs, older, newer, LogInCouple(c));
    var r := Reverse([older, newer]);
    assert r[0] == newer && r[1] == older;
    assert r == [newer, older];
  }

  /** The first membership row of a user among two appended rows, when no earlier row is theirs. */
  lemma FirstOwnRow(rows: seq<CoupleMember>, x: CoupleMember, y: CoupleMember, userId: int)
    requires forall m :: m in rows ==> m.userId != userId
    requires x.userId == userId || y.userId == userId
    ensures Find(rows + [x, y], OfUser(userId)) == Some(if x.userId == userId then x else y)
  {
    assert rows + [x, y] == rows + [x] + [y];
    FindAppend(rows, x, OfUser(userId));
    FindAppend(rows + [x], y, OfUser(userId));
  }

  /** After seeding a store where "LOVE24" is free, looking the code up finds the new couple. */
  lemma SeededCodeFindsCouple(st: Store, himHash: string, herHash: string, now: int)
    requires Unseeded(st)
    ensures GetCoupleByInviteCode(SeedRun(st, himHash, herHash, now).1.db.couples, SeedInviteCode)
            == Some(Couple(st.next.couple, SeedInviteCode, st.clock + 2))
  {
    SeededRows(st, himHash, herHash, now);
    FindAppend(st.db.couples, Couple(st.next.couple, SeedInviteCode, st.clock + 2), HasInviteCode(SeedInviteCode));
  }

  /** The seeded couple has exactly two membership rows: it is full. */
  lemma SeededCoupleHasTwoMembers(st: Store, himHash: string, herHash: string, now: int)
    requires Unseeded(st)
    ensures MemberCount(SeedRun(st, himHash, herHash, now).1.db.members, st.next.couple) == 2
  {
    var c := st.next.couple;
    var admin := CoupleMember(st.next.member, st.next.user, c, "admin", st.clock + 3);
    var member := CoupleMember(st.next.member + 1, st.next.user + 1, c, "member", st.clock + 4);
    SeededRows(st, himHash, herHash, now);
    assert Filter(st.db.members + [admin, member], InCouple(c)) == [admin, member] by {
      FreshIdsUnused(st);
      TwoNewRows(st.db.members, admin, member, InCouple(c));
    }
  }

  /** After seeding, both Alex and Sam resolve to the seeded couple. */
  lemma SeededUsersResolveToCouple(st: Store, himHash: string, herHash: string, now: int)
    requires Unseeded(st)
    ensures var db := SeedRun(st, himHash, herHash, now).1.db;
            var couple := Couple(st.next.couple, SeedInviteCode, st.clock + 2);
            && GetUserCouple(db.members, db.couples, st.next.user) == Some(couple)
            && GetUserCouple(db.members, db.couples, st.next.user + 1) == Some(couple)
  {
    var c := st.next.couple;
    var couple := Couple(c, SeedInviteCode, st.clock + 2);
    var admin := CoupleMember(st.next.member, st.next.user, c, "admin", st.clock + 3);
    var member := CoupleMember(st.next.member + 1, st.next.user + 1, c, "member", st.clock + 4);
    SeededRows(st, himHash, herHash, now);
    assert GetCoupleById(st.db.couples + [couple], c) == Some(couple) by {
      FreshIdsUnused(st);
      FindAppend(st.db.couples, couple, HasCoupleId(c));
    }
    assert Find(st.db.members + [admin, member], OfUser(st.next.user)) == Some(admin)
        && Find(st.db.members + [admin, member], OfUser(st.next.user + 1)) == Some(member) by {
      FreshIdsUnused(st);
      FirstOwnRow(st.db.members, admin, member, st.next.user);
      FirstOwnRow(st.db.members, admin, member, st.next.user + 1);
    }
  }

  /**
   * After seeding, the couple's todo list, read from the todos and comments
   * the run leaves, holds the booked flight (with Sam's comment), the
   * groceries and the dinner, newest first.
   */
  lemma SeededTodoList(st: Store, himHash: string, herHash: string, now: int)
    requires Unseeded(st)
    ensures var db, rows, cm := SeedRun(st, himHash, herHash, now).1.db, SeedTodoRows(st, now), SeedComment(st);
            && db.todos == st.db.todos + rows && db.comments == st.db.comments + [cm]
            && GetTodos(st.db.todos + rows, st.db.comments + [cm], st.next.couple)
               == [TodoWithComments(rows[2], [cm]), TodoWithComments(rows[1], []), TodoWithComments(rows[0], [])]
  {
    SeededRows(st, himHash, herHash, now);
    var rows := SeedTodoRows(st, now);
    FreshIdsUnused(st);
    ThreeTodosNewestFirst(st.db.todos, st.db.comments, st.next.couple, rows[0], rows[1], rows[2], SeedComment(st));
    assert rows == [rows[0], rows[1], rows[2]];
  }

  /**
   * After seeding, the couple's activity, read from the log rows the run
   * leaves, shows Sam's "join_couple" above Alex's "create_todo".
   */
  lemma SeededActivity(st: Store, himHash: string, herHash: string, now: int)
    requires Unseeded(st)
    ensures var logs, rows := SeedRun(st, himHash, herHash, now).1.db.logs, SeedLogRows(st);
            && logs == st.db.logs + rows
            && GetActivityLogs(st.db.logs + rows, st.next.couple) == [rows[1], rows[0]]
            && rows[1].action == "join_couple" && rows[0].action == "create_todo"
  {
    SeededRows(st, himHash, herHash, now);
    var rows := SeedLogRows(st);
    FreshIdsUnused(st);
    TwoLogsNewestFirst(st.db.logs, st.next.couple, rows[0], rows[1]);
    assert rows == [rows[0], rows[1]];
  }

  // ------------------------------------------------- the script against the storage object

  /**
   * `seed`: skipped when `getUserByUsername` finds Alex's address; otherwise
   * the inserts in order, each on the storage object, stopping at the first
   * that fails.
   */
  method Seed(s: DatabaseStorage, himHash: string, herHash: string, now: int) returns (outcome: SeedOutcome)
    requires s.Valid()
    modifies s
    ensures s.Valid()
    ensures outcome == AlreadySeeded <==> GetUserByUsername(old(s.users), HimEmail).Some?
    ensures outcome == AlreadySeeded ==> unchanged(s)
    ensures (outcome, Snapshot(s)) == SeedRun(old(Snapshot(s)), himHash, herHash, now)
  {
    var existing := GetUserByUsername(s.users, HimEmail);
    if existing.Some? {
      return AlreadySeeded;
    }
    var users := SeedUsers(s, himHash, herHash);
    if users.Failure? {
      return Aborted(users.error);
    }
    var workspace := SeedWorkspace(s, users.value.0, users.value.1, now);
    outcome := if workspace.Failure? then Aborted(workspace.error) else Seeded;
  }

  /** Alex and then Sam; returns their ids. */
  method SeedUsers(s: DatabaseStorage, himHash: string, herHash: string) returns (r: Result<(int, int), DbError>)
    requires s.Valid() && HimEmail !in Emails(s.users)
    modifies s
    ensures s.Valid()
    ensures r.Success? ==> r.value.0 in UserIds(s.users) && r.value.1 in UserIds(s.users)
    ensures var run := UsersRun(old(Snapshot(s)), himHash, herHash);
            r == run.0 && Snapshot(s) == run.1
  {
    ghost var st := Snapshot(s);
    var him := s.CreateUser(HimInput(himHash));
    assert him.Success?;
    assert him.value in s.users;
    ghost var withHim := Snapshot(s);
    assert withHim == AddUser(st, HimInput(himHash));
    var her := s.CreateUser(HerInput(herHash));
    if her.Failure? {
      assert Snapshot(s) == RejectUser(withHim);
      return Failure(her.error);
    }
    assert Snapshot(s) == AddUser(withHim, HerInput(herHash));
    assert her.value in s.users && him.value in s.users;
    r := Success((him.value.id, her.value.id));
  }

  /** The couple and everything in it. */
  method SeedWorkspace(s: DatabaseStorage, him: int, her: int, now: int) returns (r: Result<(), DbError>)
    requires s.Valid() && him in UserIds(s.users) && her in UserIds(s.users)
    modifies s
    ensures s.Valid()
    ensures var run := WorkspaceRun(old(Snapshot(s)), him, her, now);
            r == run.0 && Snapshot(s) == run.1
  {
    ghost var st := Snapshot(s);
    var couple := s.CreateCouple(SeedInviteCode);
    if couple.Failure? {
      return Failure(couple.error);
    }
    assert couple.value in s.couples && couple.value.id == st.next.couple;
    ghost var founded := Snapshot(s);
    assert founded == AddCouple(st, SeedInviteCode);
    SeedMembers(s, him, her, couple.value.id);
    ghost var seated := Snapshot(s);
    SeedTasks(s, couple.value.id, him, her, now);
    assert Snapshot(s) == TasksRun(seated, couple.value.id, him, her, now);
    r := Success(());
  }

  /** Alex joins as admin, then Sam as member. */
  method SeedMembers(s: DatabaseStorage, him: int, her: int, coupleId: int)
    requires s.Valid() && him in UserIds(s.users) && her in UserIds(s.users) && coupleId in CoupleIds(s.couples)
    modifies s
    ensures s.Valid() && s.users == old(s.users) && s.couples == old(s.couples)
    ensures Snapshot(s) == MembersRun(old(Snapshot(s)), him, her, coupleId)
  {
    ghost var st := Snapshot(s);
    var admin := s.AddCoupleMember(him, coupleId, "admin");
    assert admin.Success?;
    ghost var withAdmin := Snapshot(s);
    assert withAdmin == AddMember(st, him, coupleId, "admin");
    var member := s.AddCoupleMember(her, coupleId, "member");
    assert member.Success?;
    assert Snapshot(s) == AddMember(withAdmin, her, coupleId, "member");
  }

  /** The three todos, Sam's comment on the completed one and the two activity entries. */
  method SeedTasks(s: DatabaseStorage, coupleId: int, him: int, her: int, now: int)
    requires s.Valid() && coupleId in CoupleIds(s.couples) && him in UserIds(s.users) && her in UserIds(s.users)
    modifies s
    ensures s.Valid()
    ensures Snapshot(s) == TasksRun(old(Snapshot(s)), coupleId, him, her, now)
  {
    ghost var st := Snapshot(s);
    var flight := SeedTodos(s, coupleId, him, her, now);
    ghost var listed := Snapshot(s);
    assert listed == TodosRun(st, coupleId, him, her, now) && flight == st.next.todo + 2;
    SeedHistory(s, coupleId, him, her, flight);
    TasksSplit(st, listed, coupleId, him, her, now, flight);
  }

  lemma TasksSplit(st: Store, listed: Store, coupleId: int, him: int, her: int, now: int, flight: int)
    requires listed == TodosRun(st, coupleId, him, her, now) && flight == st.next.todo + 2
    ensures HistoryRun(listed, coupleId, him, her, flight) == TasksRun(st, coupleId, him, her, now)
  {
  }

  /** The three todos; returns the id of the completed one. */
  method SeedTodos(s: DatabaseStorage, coupleId: int, him: int, her: int, now: int) returns (flight: int)
    requires s.Valid() && coupleId in CoupleIds(s.couples) && him in UserIds(s.users) && her in UserIds(s.users)
    modifies s
    ensures s.Valid() && s.users == old(s.users) && s.couples == old(s.couples)
    ensures flight == old(s.next.todo) + 2 && flight in TodoIds(s.todos)
    ensures Snapshot(s) == TodosRun(old(Snapshot(s)), coupleId, him, her, now)
  {
    ghost var st := Snapshot(s);
    var dinner := s.CreateTodo(DinnerInput(coupleId, him, now));
    assert dinner.Success?;
    ghost var st1 := Snapshot(s);
    assert st1 == AddTodo(st, DinnerInput(coupleId, him, now));
    var groceries := s.CreateTodo(GroceriesInput(coupleId, her, now));
    assert groceries.Success?;
    ghost var st2 := Snapshot(s);
    assert st2 == AddTodo(st1, GroceriesInput(coupleId, her, now));
    var booked := s.CreateTodo(FlightInput(coupleId, him));
    assert booked.Success?;
    assert Snapshot(s) == AddTodo(st2, FlightInput(coupleId, him));
    assert booked.value in s.todos;
    flight := booked.value.id;
  }

  /** Sam's comment on the completed todo, then the two activity entries. */
  method SeedHistory(s: DatabaseStorage, coupleId: int, him: int, her: int, flight: int)
    requires s.Valid() && coupleId in CoupleIds(s.couples) && him in UserIds(s.users) && her in UserIds(s.users)
    requires flight in TodoIds(s.todos)
    modifies s
    ensures s.Valid()
    ensures Snapshot(s) == HistoryRun(old(Snapshot(s)), coupleId, him, her, flight)
  {
    ghost var st := Snapshot(s);
    var commented := s.CreateComment(flight, her, WindowSeats);
    assert commented.Success?;
    ghost var st1 := Snapshot(s);
    assert st1 == AddComment(st, flight, her, WindowSeats);
    var created := s.LogActivity(coupleId, him, "create_todo", "Created task: Plan our anniversary dinner");
    assert created.Success?;
    ghost var st2 := Snapshot(s);
    assert st2 == AddLog(st1, coupleId, him, "create_todo", "Created task: Plan our anniversary dinner");
    var joined := s.LogActivity(coupleId, her, "join_couple", "Joined the workspace");
    assert joined.Success?;
    assert Snapshot(s) == AddLog(st2, coupleId, her, "join_couple", "Joined the workspace");
  }
}
