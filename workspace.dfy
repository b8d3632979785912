/**
 * What the handlers guarantee together, stated over their outcomes: the
 * two-member rule, the couple a user resolves to after founding or joining,
 * where a new todo and a new log row show up in the lists, and that the
 * activity log only grows.
 */
module Workspace {
  import opened Wrappers
  import opened Seqs
  import opened Schema
  import opened Storage
  import opened Routes
  import Seed

  // ------------------------------------------------------ the two-member rule

  /** Seating a user in a couple with room keeps every couple at two members or fewer. */
  lemma SeatingKeepsPairsBounded(db: Db, next: Sequences, clock: int, userId: int, c: Couple, how: Seating,
                                 r: Response, db': Db)
    requires Seated(db, next, clock, userId, c, how, r, db')
    requires PairsBounded(db.members) && MemberCount(db.members, c.id) < 2
    ensures PairsBounded(db'.members)
  {
    if userId in UserIds(db.users) {
      AddMemberKeepsPairsBounded(db.members, CoupleMember(next.member, userId, c.id, how.role, clock));
    }
  }

  /** POST /api/couples/join never gives a couple a third member. */
  lemma JoiningKeepsPairsBounded(db: Db, next: Sequences, clock: int, userId: int, c: Couple, r: Response, db': Db)
    requires JoinedCouple(db, next, clock, userId, c, r, db') && PairsBounded(db.members)
    ensures PairsBounded(db'.members)
  {
    if MemberCount(db.members, c.id) < 2 {
      SeatingKeepsPairsBounded(db, next, clock, userId, c, AsMember, r, db');
    }
  }

  /** POST /api/couples seats its creator in a couple that had no member yet. */
  lemma FoundingKeepsPairsBounded(db: Db, next: Sequences, clock: int, userId: int, code: string, r: Response, db': Db)
    requires Wellformed(db, next, clock) && FoundedCouple(db, next, clock, userId, code, r, db')
    requires PairsBounded(db.members)
    ensures PairsBounded(db'.members)
  {
    if code !in InviteCodes(db.couples) {
      var c := Couple(next.couple, code, clock);
      FreshCoupleHasNoMembers(db, next.couple, clock);
      SeatingKeepsPairsBounded(db.(couples := db.couples + [c]), next.(couple := next.couple + 1), clock + 1,
                               userId, c, AsAdmin, r, db');
    }
  }

  // -------------------------------------------------- the couple a user resolves to

  /** With increasing ids, looking a couple up by its own id finds that couple. */
  lemma CoupleByIdFindsIt(couples: seq<Couple>, c: Couple)
    requires Increasing(couples, CoupleId) && c in couples
    ensures GetCoupleById(couples, c.id) == Some(c)
  {
    var found := GetCoupleById(couples, c.id);
    assert c.id in CoupleIds(couples);
    var i :| 0 <= i < |couples| && couples[i] == found.value;
    var j :| 0 <= j < |couples| && couples[j] == c;
    IncreasingInjective(couples, CoupleId, i, j);
  }

  /**
   * A membership row appended for a user who had none decides the user's
   * couple, provided that couple is found by its id.
   */
  lemma FirstRowDecides(members: seq<CoupleMember>, couples: seq<Couple>, m: CoupleMember, c: Couple)
    requires m.userId !in PairedUserIds(members) && m.coupleId == c.id
    requires GetCoupleById(couples, c.id) == Some(c)
    ensures GetUserCouple(members + [m], couples, m.userId) == Some(c)
  {
    forall x | x in members ensures !OfUser(m.userId)(x) {
      assert x.userId in PairedUserIds(members);
    }
    FindAppend(members, m, OfUser(m.userId));
  }

  /**
   * After POST /api/couples succeeds, the creator's couple is the new one, and
   * its invite code leads to it.
   */
  lemma FounderResolvesToNewCouple(db: Db, next: Sequences, clock: int, userId: int, code: string, r: Response, db': Db)
    requires Wellformed(db, next, clock) && FoundedCouple(db, next, clock, userId, code, r, db')
    requires userId !in PairedUserIds(db.members) && r.Reply?
    ensures r.body.CoupleJson? && r.body.couple.inviteCode == code
    ensures GetUserCouple(db'.members, db'.couples, userId) == Some(r.body.couple)
    ensures GetCoupleByInviteCode(db'.couples, code) == Some(r.body.couple)
  {
    var c := Couple(next.couple, code, clock);
    var couples := db.couples + [c];
    forall x | x in db.couples ensures !HasCoupleId(c.id)(x) && !HasInviteCode(code)(x) {
      var i :| 0 <= i < |db.couples| && db.couples[i] == x;
      assert CoupleId(db.couples[i]) < next.couple;
      assert x.inviteCode in InviteCodes(db.couples);
    }
    FindAppend(db.couples, c, HasCoupleId(c.id));
    FirstRowDecides(db.members, couples, CoupleMember(next.member, userId, c.id, "admin", clock + 1), c);
    FindAppend(db.couples, c, HasInviteCode(code));
  }

  /** After a successful join, a user who had no couple resolves to the joined one. */
  lemma JoinerResolvesToCouple(db: Db, next: Sequences, clock: int, userId: int, c: Couple, r: Response, db': Db)
    requires Wellformed(db, next, clock) && c in db.couples
    requires JoinedCouple(db, next, clock, userId, c, r, db') && r == Reply(200, CoupleJson(c))
    requires userId !in PairedUserIds(db.members)
    ensures GetUserCouple(db'.members, db'.couples, userId) == Some(c)
  {
    CoupleByIdFindsIt(db.couples, c);
    FirstRowDecides(db.members, db.couples, CoupleMember(next.member, userId, c.id, "member", clock), c);
  }

  /**
   * Joining does not ask whether the caller already has a couple: a paired
   * caller gains a membership row in a second couple. With membership rows
   * read in table order, the couple the handlers resolve for them stays the
   * first one.
   */
  lemma PairedJoinerKeepsFirstCouple(db: Db, next: Sequences, clock: int, userId: int, c: Couple, r: Response, db': Db)
    requires JoinedCouple(db, next, clock, userId, c, r, db') && userId in PairedUserIds(db.members)
    ensures GetUserCouple(db'.members, db'.couples, userId) == GetUserCouple(db.members, db.couples, userId)
    ensures r == Reply(200, CoupleJson(c)) ==> CouplesOf(db'.members, userId) == CouplesOf(db.members, userId) + {c.id}
  {
    if db'.members != db.members {
      var m := CoupleMember(next.member, userId, c.id, "member", clock);
      assert db'.members == db.members + [m];
      FindAppend(db.members, m, OfUser(userId));
      var m0 :| m0 in db.members && m0.userId == userId;
      assert Find(db.members, OfUser(userId)).Some?;
    }
  }

  /**
   * What holds whatever order the membership rows are read in: a paired
   * caller who joins a second couple still resolves to a couple, and it is
   * one of those they now hold a row in.
   */
  lemma PairedJoinerResolvesToOneOfTheirCouples(db: Db, next: Sequences, clock: int, userId: int, c: Couple, r: Response, db': Db)
    requires ForeignKeysHold(db)
    requires JoinedCouple(db, next, clock, userId, c, r, db') && userId in PairedUserIds(db.members)
    requires r == Reply(200, CoupleJson(c))
    ensures c.id in CouplesOf(db'.members, userId)
    ensures var found := GetUserCouple(db'.members, db'.couples, userId);
            found.Some? && found.value.id in CouplesOf(db'.members, userId)
  {
    PairedUserHasCouple(db, userId);
    PairedJoinerKeepsFirstCouple(db, next, clock, userId, c, r, db');
    var found := GetUserCouple(db.members, db.couples, userId).value;
    var m :| m in db.members && m.userId == userId && m.coupleId == found.id;
    assert m in db'.members;
  }

  // ------------------------------------------------ where new rows show up

  /** A row stamped with the clock is newer than every row already stored. */
  lemma NewestLast<T(!new)>(rows: seq<T>, x: T, id: T -> int, stamp: T -> int, nextId: int, clock: int)
    requires Serial(rows, id, stamp, nextId, clock) && 0 <= clock && stamp(x) == clock
    ensures Increasing(rows + [x], stamp)
    ensures forall y :: y in rows ==> stamp(y) < clock
  {
    AscendingAppend(rows, x, stamp, 0, clock);
  }

  /** Every stored comment refers to a todo id the sequence has already handed out. */
  lemma CommentsPredateNextTodo(db: Db, next: Sequences, clock: int)
    requires Wellformed(db, next, clock)
    ensures forall x :: x in db.comments ==> x.todoId < next.todo
  {
    forall x | x in db.comments ensures x.todoId < next.todo {
      assert x.todoId in TodoIds(db.todos);
      var i :| 0 <= i < |db.todos| && db.todos[i].id == x.todoId;
      assert TodoId(db.todos[i]) < next.todo;
    }
  }

  /** A todo appended after older ones heads its couple's list. */
  lemma LastTodoHeadsList(todos: seq<Todo>, comments: seq<Comment>, t: Todo)
    requires Increasing(todos + [t], TodoCreatedAt)
    ensures var list := GetTodos(todos + [t], comments, t.coupleId);
            |list| > 0 && list[0].todo == t
  {
    var all := todos + [t];
    var list := GetTodos(all, comments, t.coupleId);
    assert all[|todos|] == t;
    var k :| 0 <= k < |list| && list[k].todo == t;
    assert list[0].todo.createdAt >= t.createdAt by {
      if k > 0 {
        assert list[0].todo.createdAt > list[k].todo.createdAt;
      }
    }
    var i :| 0 <= i < |all| && all[i] == list[0].todo;
    assert i == |todos|;
  }

  /** The todo POST /api/todos creates heads its couple's list, with no comment yet. */
  lemma NewTodoListedFirst(db: Db, next: Sequences, clock: int, userId: int, c: Couple,
                           input: Api.CreateTodoInput, r: Response, db': Db)
    requires Wellformed(db, next, clock) && TodoCreated(db, next, clock, userId, c, input, r, db')
    ensures var list := GetTodos(db'.todos, db'.comments, c.id);
            |list| > 0 && list[0] == TodoWithComments(r.body.todo, [])
  {
    var t := r.body.todo;
    NewestLast(db.todos, t, TodoId, TodoCreatedAt, next.todo, clock);
    LastTodoHeadsList(db.todos, db.comments, t);
    CommentsPredateNextTodo(db, next, clock);
    var list := GetTodos(db'.todos, db'.comments, c.id);
    assert forall x :: x !in list[0].comments;
    NoMembersMeansEmpty(list[0].comments);
  }

  /** The log row POST /api/todos writes heads its couple's activity list. */
  lemma NewTodoLoggedFirst(db: Db, next: Sequences, clock: int, userId: int, c: Couple,
                           input: Api.CreateTodoInput, r: Response, db': Db)
    requires Wellformed(db, next, clock) && TodoCreated(db, next, clock, userId, c, input, r, db')
    ensures var feed := GetActivityLogs(db'.logs, c.id);
            |feed| > 0 && feed[0] == db'.logs[|db'.logs| - 1] && feed[0].action == "create_todo"
  {
    var l := db'.logs[|db'.logs| - 1];
    assert db'.logs == db.logs + [l];
    NewestLast(db.logs, l, LogId, LogCreatedAt, next.log, clock + 1);
    ActivityLogsAreTheNewest(db'.logs, c.id);
    var feed := GetActivityLogs(db'.logs, c.id);
    FilterAppend(db.logs, l, LogInCouple(c.id));
    assert MatchingLogs(db'.logs, c.id) > 0;
    assert feed[0] in db.logs + [l];
    assert l in feed by {
      assert feed[0] in feed;
    }
  }

  // ------------------------------------------------------- the log only grows

  /** No handler outcome removes or rewrites a log row. */
  lemma OutcomesOnlyAppendToLog(db: Db, next: Sequences, clock: int, userId: int, c: Couple, r: Response, db': Db)
    ensures forall code :: FoundedCouple(db, next, clock, userId, code, r, db') ==> db.logs <= db'.logs
    ensures JoinedCouple(db, next, clock, userId, c, r, db') ==> db.logs <= db'.logs
    ensures forall input :: TodoCreated(db, next, clock, userId, c, input, r, db') ==> db.logs <= db'.logs
    ensures forall id, patch :: TodoUpdated(db, next, clock, userId, c, id, patch, r, db') ==> db.logs <= db'.logs
  {
  }

  // ------------------------------------------------------- the seeded workspace

  /**
   * After seeding a fresh store, the demonstration couple is already full:
   * whoever joins with "LOVE24" is turned away and nothing is written.
   */
  lemma SeededCoupleTurnsJoinersAway(st: Seed.Store, himHash: string, herHash: string, now: int,
                                     userId: int, r: Response, db': Db)
    requires Seed.Unseeded(st)
    requires var after := Seed.SeedRun(st, himHash, herHash, now).1;
             var found := GetCoupleByInviteCode(after.db.couples, Seed.SeedInviteCode);
             found.Some? && JoinedCouple(after.db, after.next, after.clock, userId, found.value, r, db')
    ensures r == CoupleFull && db' == Seed.SeedRun(st, himHash, herHash, now).1.db
  {
    Seed.SeededCodeFindsCouple(st, himHash, herHash, now);
    Seed.SeededCoupleHasTwoMembers(st, himHash, herHash, now);
  }
}
