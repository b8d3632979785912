/**
 * The route table shared by client and server, the request bodies it declares,
 * and `buildUrl`, which fills the `:name` placeholders of a path.
 */
module Api {
  import opened Wrappers
  import opened JsText

  // ---------------------------------------------------------- route table

  datatype Verb = GET | POST | PATCH | DELETE

  /** One entry of the table: its HTTP method and its path pattern. */
  datatype Endpoint = Endpoint(verb: Verb, path: string)

  const Register := Endpoint(POST, "/api/register")
  const Login := Endpoint(POST, "/api/login")
  const Logout := Endpoint(POST, "/api/logout")
  const CurrentUser := Endpoint(GET, "/api/user")
  const CreateCouple := Endpoint(POST, "/api/couples")
  const JoinCouple := Endpoint(POST, "/api/couples/join")
  const GetCouple := Endpoint(GET, "/api/couple")
  const ListTodos := Endpoint(GET, "/api/todos")
  const CreateTodo := Endpoint(POST, "/api/todos")
  const UpdateTodo := Endpoint(PATCH, "/api/todos/:id")
  const DeleteTodo := Endpoint(DELETE, "/api/todos/:id")
  const CreateComment := Endpoint(POST, "/api/todos/:id/comments")
  const ListActivity := Endpoint(GET, "/api/activity")

  const Endpoints := [Register, Login, Logout, CurrentUser, CreateCouple, JoinCouple, GetCouple,
                      ListTodos, CreateTodo, UpdateTodo, DeleteTodo, CreateComment, ListActivity]

  /** No two entries of the table share both method and path, so a request selects one handler. */
  lemma EndpointsDistinct()
    ensures forall i, j :: 0 <= i < j < |Endpoints| ==> Endpoints[i] != Endpoints[j]
  {
  }

  // -------------------------------------------------------- request bodies

  /** The body of `POST /api/todos`: a todo without `coupleId` and `createdBy`, which the server fills in. */
  datatype CreateTodoInput = CreateTodoInput(
    title: string, description: Option<string>, status: Option<string>, priority: Option<string>,
    dueDate: Option<int>, assignedTo: Option<Option<string>>)

  /** The body of `POST /api/couples/join`. */
  datatype JoinInput = JoinInput(inviteCode: string)

  /** The body of `POST /api/todos/:id/comments`. */
  datatype CommentInput = CommentInput(content: string)

  // -------------------------------------------------------------- buildUrl

  /** A value of the params record: text or a number. */
  datatype ParamValue = Text(s: string) | Number(n: int)

  /** `String(value)`. */
  function Render(v: ParamValue): (r: string)
    ensures v.Number? ==> r == NumberToString(v.n) && '$' !in r
  {
    match v
    case Text(s) => s
    case Number(n) => NumberToString(n)
  }

  /**
   * The path after each entry in turn has replaced the first occurrence of
   * ":" followed by its key with the rendered value.
   */
  function Substituted(path: string, entries: seq<(string, ParamValue)>): string
    decreases |entries|
  {
    if |entries| == 0 then path
    else Substituted(Replace(path, ":" + entries[0].0, Render(entries[0].1)), entries[1..])
  }

  /** `buildUrl(path, params)`; the params record is given by its entries in enumeration order. */
  method BuildUrl(path: string, params: Option<seq<(string, ParamValue)>>) returns (url: string)
    ensures params.None? ==> url == path
    ensures params.Some? ==> url == Substituted(path, params.value)
  {
    url := path;
    if params.Some? {
      var entries := params.value;
      var i := 0;
      while i < |entries|
        invariant 0 <= i <= |entries|
        invariant Substituted(url, entries[i..]) == Substituted(path, entries)
      {
        var (key, value) := entries[i];
        assert entries[i..][1..] == entries[i + 1..];
        url := Replace(url, ":" + key, Render(value));
        i := i + 1;
      }
    }
  }

  /** A path without any of the params' placeholders comes back unchanged. */
  lemma {:induction false} SubstitutedWithoutPlaceholders(path: string, entries: seq<(string, ParamValue)>)
    requires forall e, k :: e in entries ==> !OccursAt(path, ":" + e.0, k)
    ensures Substituted(path, entries) == path
    decreases |entries|
  {
    if |entries| > 0 {
      assert entries[0] in entries;
      assert forall e :: e in entries[1..] ==> e in entries;
      SubstitutedWithoutPlaceholders(path, entries[1..]);
    }
  }

  /** One entry: one `replace`. */
  lemma SubstitutedOne(path: string, key: string, v: ParamValue)
    ensures Substituted(path, [(key, v)]) == Replace(path, ":" + key, Render(v))
  {
    assert [(key, v)][1..] == [];
  }

  /** The one colon of "/api/todos/:id" and "/api/todos/:id/comments" is at position 11. */
  lemma IdPlaceholderAt(path: string)
    requires path == UpdateTodo.path || path == CreateComment.path
    ensures FirstAt(path, ":id", 11)
  {
    forall k | 0 <= k < 11 ensures !OccursAt(path, ":id", k) {
      NotOccursAt(path, ":id", k);
    }
  }

  /** The client's `buildUrl(api.todos.update.path, { id })` for a numeric id. */
  lemma TodoUrl(n: int)
    ensures Substituted(UpdateTodo.path, [("id", Number(n))]) == "/api/todos/" + NumberToString(n)
  {
    var path, digits := UpdateTodo.path, NumberToString(n);
    SubstitutedOne(path, "id", Number(n));
    assert ":" + "id" == ":id";
    IdPlaceholderAt(path);
    ReplaceFirst(path, ":id", digits, 11);
    UpdatePathParts();
    assert path[..11] + digits + path[14..] == "/api/todos/" + digits;
  }

  lemma UpdatePathParts()
    ensures UpdateTodo.path[..11] == "/api/todos/" && UpdateTodo.path[14..] == ""
  {
  }

  /** The client's `buildUrl(api.comments.create.path, { id })` for a numeric id. */
  lemma CommentsUrl(n: int)
    ensures Substituted(CreateComment.path, [("id", Number(n))]) == "/api/todos/" + NumberToString(n) + "/comments"
  {
    var path, digits := CreateComment.path, NumberToString(n);
    SubstitutedOne(path, "id", Number(n));
    assert ":" + "id" == ":id";
    IdPlaceholderAt(path);
    ReplaceFirst(path, ":id", digits, 11);
    var prefix, suffix := "/api/todos/", "/comments";
    CommentsPathParts();
    calc {
      Substituted(path, [("id", Number(n))]);
      Replace(path, ":id", digits);
      prefix + digits + suffix;
      "/api/todos/" + digits + "/comments";
    }
  }

  lemma CommentsPathParts()
    ensures CreateComment.path[..11] == "/api/todos/" && CreateComment.path[14..] == "/comments"
  {
  }

  /** The route's `parseInt(req.params.id)` recovers the id the client put into the URL. */
  lemma IdSurvivesTheUrl(n: int)
    ensures var url := Substituted(UpdateTodo.path, [("id", Number(n))]);
            |url| >= 11 && ParseInt(url[11..]) == Some(n)
  {
    TodoUrl(n);
    var digits := NumberToString(n);
    assert ("/api/todos/" + digits)[11..] == digits;
    ParseIntReadsNumber(n);
  }

  /**
   * A text value goes through `replace`'s substitution patterns: "$&" puts the
   * placeholder itself back, so the path is left as it was.
   */
  lemma DollarAmpersandKeepsPlaceholder()
    ensures Substituted(UpdateTodo.path, [("id", Text("$&"))]) == UpdateTodo.path
  {
    var path := UpdateTodo.path;
    SubstitutedOne(path, "id", Text("$&"));
    assert ":" + "id" == ":id" && Render(Text("$&")) == "$&";
    IdPlaceholderAt(path);
    ReplaceWithMatch(path, ":id", 11);
  }

  /** Only the first occurrence of a placeholder is replaced. */
  lemma OnlyFirstOccurrence()
    ensures Substituted("/a/:id/:id", [("id", Number(7))]) == "/a/7/:id"
  {
    var path := "/a/:id/:id";
    SubstitutedOne(path, "id", Number(7));
    assert ":" + "id" == ":id" && Render(Number(7)) == "7";
    TwoPlaceholders();
    NoOccurrenceBefore(path, ":id", 3);
    ReplaceFirst(path, ":id", "7", 3);
  }

  lemma TwoPlaceholders()
    ensures var path := "/a/:id/:id";
            && OccursAt(path, ":id", 3) && ':' !in path[..3]
            && path[..3] + "7" + path[6..] == "/a/7/:id"
  {
    var path := "/a/:id/:id";
    assert path[3..6] == ":id";
    assert path[..3] == "/a/";
  }

  /**
   * Keys are matched as plain prefixes: a key "i" entered before "id" takes
   * the ":i" of ":id", and the "id" entry then finds nothing.
   */
  lemma PrefixKeyTakesPlaceholder()
    ensures Substituted(UpdateTodo.path, [("i", Number(1)), ("id", Number(2))]) == "/api/todos/1d"
  {
    var entries := [("i", Number(1)), ("id", Number(2))];
    assert entries[1..] == [("id", Number(2))];
    assert ":" + "i" == ":i" && Render(Number(1)) == "1";
    ShortKeyFirst();
    SubstitutedOne("/api/todos/1d", "id", Number(2));
    assert ":" + "id" == ":id";
    NoColon();
    NoOccurrence("/api/todos/1d", ":id");
  }

  lemma NoColon()
    ensures ':' !in "/api/todos/1d"
  {
  }

  lemma ShortKeyFirst()
    ensures Replace(UpdateTodo.path, ":i", "1") == "/api/todos/1d"
  {
    var path := UpdateTodo.path;
    TodoPathParts();
    NoOccurrenceBefore(path, ":i", 11);
    ReplaceFirst(path, ":i", "1", 11);
  }

  lemma TodoPathParts()
    ensures var path := UpdateTodo.path;
            && OccursAt(path, ":i", 11) && ':' !in path[..11]
            && path[..11] + "1" + path[13..] == "/api/todos/1d"
  {
    var path := UpdateTodo.path;
    assert path[11..13] == ":i";
    assert path[..11] == "/api/todos/";
  }
}
