/** The two records that cross process boundaries: a stored Todo and the
    TodoCommand published by the HTTP handlers and consumed by the worker,
    with their JSON wire forms (field tags and `omitempty`) and the Go
    decoding rules the worker and the cache rely on. */
module Models {
  import opened Wire

  /** A stored row. `completed` is a plain boolean. */
  datatype Todo = Todo(
    id: string,
    title: string,
    description: string,
    completed: bool,
    userId: string,
    createdAt: Time,
    updatedAt: Time)

  /** A write intent. `completed` is a pointer in Go: absent is None. */
  datatype TodoCommand = TodoCommand(
    action: string,
    id: string,
    title: string,
    description: string,
    completed: Option<bool>,
    userId: string,
    requestedAt: Time)

  const CreateAction := "create"
  const UpdateAction := "update"
  const DeleteAction := "delete"

  const ZeroTodo := Todo("", "", "", false, "", ZeroTime, ZeroTime)
  const ZeroCommand := TodoCommand("", "", "", "", None, "", ZeroTime)

  // ---------------------------------------------------------------------
  // Wire form of a command

  /** The members json.Marshal writes for a command, in declaration order;
      title and description are left out when empty, completed when nil. */
  function CommandMembers(c: TodoCommand): seq<(string, Json)> {
    [("action", JString(c.action)), ("id", JString(c.id))]
    + OmitEmpty("title", c.title)
    + OmitEmpty("description", c.description)
    + OmitNil("completed", c.completed)
    + [("user_id", JString(c.userId)), ("requested_at", JTime(c.requestedAt))]
  }

  /** A string member tagged `omitempty`. */
  function OmitEmpty(key: string, s: string): seq<(string, Json)> {
    if s == "" then [] else [(key, JString(s))]
  }

  /** A pointer member tagged `omitempty`. */
  function OmitNil(key: string, b: Option<bool>): seq<(string, Json)> {
    match b case None => [] case Some(v) => [(key, JBool(v))]
  }

  /** json.Marshal of a command: fails only when the request time cannot be written. */
  function EncodeCommand(c: TodoCommand): (r: Result<Bytes>)
    ensures r.Success? <==> Marshallable(c.requestedAt)
    ensures r.Failure? ==> r.error == UnsupportedTime
    ensures r.Success? ==> r.value.Doc? && r.value.doc.JObject? && !IsEmpty(r.value)
  {
    if Marshallable(c.requestedAt) then Success(Doc(JObject(CommandMembers(c))))
    else Failure(UnsupportedTime)
  }

  // ---------------------------------------------------------------------
  // Go decoding of single values into fields

  /** Into a string field: any string literal is stored as its text, time
      text included; null leaves the field as it was. */
  function DecodeString(v: Json, current: string): (r: Result<string>)
    ensures v.JString? ==> r == Success(v.s)
    ensures v.JTime? ==> r == Success(TimeText(v.t))
    ensures v.JNull? ==> r == Success(current)
    ensures r.Failure? <==> !(v.JString? || v.JTime? || v.JNull?)
  {
    match v
    case JNull => Success(current)
    case JString(s) => Success(s)
    case JTime(t) => Success(TimeText(t))
    case _ => Failure(TypeMismatch)
  }

  /** Into a plain bool field: null leaves the field as it was. */
  function DecodeBool(v: Json, current: bool): (r: Result<bool>)
    ensures v.JBool? ==> r == Success(v.b)
    ensures v.JNull? ==> r == Success(current)
    ensures r.Failure? <==> !(v.JBool? || v.JNull?)
  {
    match v
    case JNull => Success(current)
    case JBool(b) => Success(b)
    case _ => Failure(TypeMismatch)
  }

  /** Into a *bool field: null sets the pointer to nil. */
  function DecodeBoolPtr(v: Json): (r: Result<Option<bool>>)
    ensures v.JBool? ==> r == Success(Some(v.b))
    ensures v.JNull? ==> r == Success(None)
    ensures r.Failure? <==> !(v.JBool? || v.JNull?)
  {
    match v
    case JNull => Success(None)
    case JBool(b) => Success(Some(b))
    case _ => Failure(TypeMismatch)
  }

  /** Into a time.Time field: null leaves the field as it was. */
  function DecodeTime(v: Json, current: Time): (r: Result<Time>)
    ensures v.JTime? ==> r == Success(v.t)
    ensures v.JNull? ==> r == Success(current)
    ensures r.Failure? <==> !(v.JTime? || v.JNull?)
  {
    match v
    case JNull => Success(current)
    case JTime(t) => Success(t)
    case _ => Failure(TypeMismatch)
  }

  // ---------------------------------------------------------------------
  // Decoding a command

  /** One object member applied to a partly decoded command; unknown keys are ignored. */
  function SetCommandField(c: TodoCommand, key: string, v: Json): Result<TodoCommand> {
    if key == "action" then
      match DecodeString(v, c.action)
      case Success(s) => Success(c.(action := s))
      case Failure(e) => Failure(e)
    else if key == "id" then
      match DecodeString(v, c.id)
      case Success(s) => Success(c.(id := s))
      case Failure(e) => Failure(e)
    else if key == "title" then
      match DecodeString(v, c.title)
      case Success(s) => Success(c.(title := s))
      case Failure(e) => Failure(e)
    else if key == "description" then
      match DecodeString(v, c.description)
      case Success(s) => Success(c.(description := s))
      case Failure(e) => Failure(e)
    else if key == "completed" then
      match DecodeBoolPtr(v)
      case Success(b) => Success(c.(completed := b))
      case Failure(e) => Failure(e)
    else if key == "user_id" then
      match DecodeString(v, c.userId)
      case Success(s) => Success(c.(userId := s))
      case Failure(e) => Failure(e)
    else if key == "requested_at" then
      match DecodeTime(v, c.requestedAt)
      case Success(t) => Success(c.(requestedAt := t))
      case Failure(e) => Failure(e)
    else Success(c)
  }

  /** The members of an object, applied in order; a later duplicate overwrites an earlier one. */
  function DecodeCommandMembers(members: seq<(string, Json)>, c: TodoCommand): Result<TodoCommand>
    decreases |members|
  {
    if members == [] then Success(c)
    else
      match SetCommandField(c, members[0].0, members[0].1)
      case Failure(e) => Failure(e)
      case Success(c') => DecodeCommandMembers(members[1..], c')
  }

  /** json.Unmarshal into a zero TodoCommand. The document `null` leaves the
      zero command in place; any other non-object is a type error. */
  function DecodeCommand(b: Bytes): (r: Result<TodoCommand>)
    ensures b.Unparsable? ==> r == Failure(SyntaxError)
    ensures b == Doc(JNull) ==> r == Success(ZeroCommand)
    ensures b.Doc? && !(b.doc.JObject? || b.doc.JNull?) ==> r == Failure(TypeMismatch)
  {
    match Parse(b)
    case Failure(e) => Failure(e)
    case Success(JNull) => Success(ZeroCommand)
    case Success(JObject(members)) => DecodeCommandMembers(members, ZeroCommand)
    case Success(_) => Failure(TypeMismatch)
  }

  lemma {:induction false} DecodeCommandMembersAppend(a: seq<(string, Json)>, b: seq<(string, Json)>, c: TodoCommand)
    ensures DecodeCommandMembers(a + b, c) ==
      match DecodeCommandMembers(a, c)
      case Success(c') => DecodeCommandMembers(b, c')
      case Failure(e) => Failure(e)
    decreases |a|
  {
    if a == [] {
      assert a + b == b;
    } else {
      assert (a + b)[0] == a[0];
      assert (a + b)[1..] == a[1..] + b;
      match SetCommandField(c, a[0].0, a[0].1)
      case Failure(e) =>
      case Success(c') => DecodeCommandMembersAppend(a[1..], b, c');
    }
  }

  lemma DecodeCommandSingle(m: (string, Json), c: TodoCommand)
    ensures DecodeCommandMembers([m], c) == SetCommandField(c, m.0, m.1)
  {
    assert [m][1..] == [];
  }

  lemma DecodeCommandHead(c: TodoCommand, acc: TodoCommand)
    ensures DecodeCommandMembers([("action", JString(c.action)), ("id", JString(c.id))], acc)
         == Success(acc.(action := c.action, id := c.id))
  {
    var a, i := ("action", JString(c.action)), ("id", JString(c.id));
    assert [a, i] == [a] + [i];
    DecodeCommandSingle(a, acc);
    DecodeCommandSingle(i, acc.(action := c.action));
    DecodeCommandMembersAppend([a], [i], acc);
  }

  lemma DecodeCommandTail(c: TodoCommand, acc: TodoCommand)
    ensures DecodeCommandMembers([("user_id", JString(c.userId)), ("requested_at", JTime(c.requestedAt))], acc)
         == Success(acc.(userId := c.userId, requestedAt := c.requestedAt))
  {
    var u, r := ("user_id", JString(c.userId)), ("requested_at", JTime(c.requestedAt));
    assert [u, r] == [u] + [r];
    DecodeCommandSingle(u, acc);
    DecodeCommandSingle(r, acc.(userId := c.userId));
    DecodeCommandMembersAppend([u], [r], acc);
  }

  lemma DecodeCommandOptional(c: TodoCommand, acc: TodoCommand)
    ensures DecodeCommandMembers(OmitEmpty("title", c.title), acc) == Success(acc.(title := c.title))
            || acc.title != ""
    ensures DecodeCommandMembers(OmitEmpty("description", c.description), acc) == Success(acc.(description := c.description))
            || acc.description != ""
    ensures DecodeCommandMembers(OmitNil("completed", c.completed), acc) == Success(acc.(completed := c.completed))
            || acc.completed.Some?
  {
    if c.title != "" { DecodeCommandSingle(("title", JString(c.title)), acc); }
    if c.description != "" { DecodeCommandSingle(("description", JString(c.description)), acc); }
    if c.completed.Some? { DecodeCommandSingle(("completed", JBool(c.completed.value)), acc); }
  }

  /** Decoding what json.Marshal wrote gives back the very same command. */
  lemma CommandRoundTrip(c: TodoCommand)
    requires Marshallable(c.requestedAt)
    ensures DecodeCommand(EncodeCommand(c).value) == Success(c)
  {
    var h := [("action", JString(c.action)), ("id", JString(c.id))];
    var t := OmitEmpty("title", c.title);
    var d := OmitEmpty("description", c.description);
    var k := OmitNil("completed", c.completed);
    var u := [("user_id", JString(c.userId)), ("requested_at", JTime(c.requestedAt))];
    var c1 := ZeroCommand.(action := c.action, id := c.id);
    var c2 := c1.(title := c.title);
    var c3 := c2.(description := c.description);
    var c4 := c3.(completed := c.completed);
    DecodeCommandHead(c, ZeroCommand);
    DecodeCommandOptional(c, c1);
    DecodeCommandOptional(c, c2);
    DecodeCommandOptional(c, c3);
    DecodeCommandTail(c, c4);
    DecodeCommandMembersAppend(h, t, ZeroCommand);
    DecodeCommandMembersAppend(h + t, d, ZeroCommand);
    DecodeCommandMembersAppend(h + t + d, k, ZeroCommand);
    DecodeCommandMembersAppend(h + t + d + k, u, ZeroCommand);
  }

  /** Encoding is injective: two different commands never share a payload. */
  lemma CommandEncodingInjective(c1: TodoCommand, c2: TodoCommand)
    requires Marshallable(c1.requestedAt) && Marshallable(c2.requestedAt)
    requires c1 != c2
    ensures EncodeCommand(c1).value != EncodeCommand(c2).value
  {
    CommandRoundTrip(c1);
    CommandRoundTrip(c2);
  }

  /** Which members the wire form carries: action, id, user_id and requested_at
      always; title and description only when non-empty; completed only when set. */
  lemma CommandWireFields(c: TodoCommand)
    ensures var ks := Keys(CommandMembers(c));
      && ks == {"action", "id", "user_id", "requested_at"}
               + (if c.title != "" then {"title"} else {})
               + (if c.description != "" then {"description"} else {})
               + (if c.completed.Some? then {"completed"} else {})
      && ("title" in ks <==> c.title != "")
      && ("description" in ks <==> c.description != "")
      && ("completed" in ks <==> c.completed.Some?)
  {
    CommandKeys(c);
  }

  lemma CommandKeys(c: TodoCommand)
    ensures Keys(CommandMembers(c)) == {"action", "id", "user_id", "requested_at"}
               + (if c.title != "" then {"title"} else {})
               + (if c.description != "" then {"description"} else {})
               + (if c.completed.Some? then {"completed"} else {})
  {
    var a := [("action", JString(c.action)), ("id", JString(c.id))];
    var t := OmitEmpty("title", c.title);
    var d := OmitEmpty("description", c.description);
    var k := OmitNil("completed", c.completed);
    var u := [("user_id", JString(c.userId)), ("requested_at", JTime(c.requestedAt))];
    KeysAppend(a, t);
    KeysAppend(a + t, d);
    KeysAppend(a + t + d, k);
    KeysAppend(a + t + d + k, u);
    assert Keys(a) == {"action", "id"} by { assert a[1..][1..] == []; }
    assert Keys(u) == {"user_id", "requested_at"} by { assert u[1..][1..] == []; }
    if t != [] { KeysSingle(t[0]); }
    if d != [] { KeysSingle(d[0]); }
    if k != [] { KeysSingle(k[0]); }
  }

  /** An explicit `completed: false` is written out and survives decoding,
      distinct from an absent value. */
  lemma ExplicitFalseSurvives(c: TodoCommand)
    requires Marshallable(c.requestedAt)
    ensures var withFalse := c.(completed := Some(false));
      && DecodeCommand(EncodeCommand(withFalse).value) == Success(withFalse)
      && EncodeCommand(withFalse) != EncodeCommand(c.(completed := None))
  {
    CommandRoundTrip(c.(completed := Some(false)));
    CommandRoundTrip(c.(completed := None));
  }

  /** A payload with no title member decodes to an empty title, exactly what an
      empty title encodes to: the two cannot be told apart on the wire. */
  lemma {:induction false} AbsentTitleDecodesEmpty(members: seq<(string, Json)>, c: TodoCommand)
    requires "title" !in Keys(members)
    requires DecodeCommandMembers(members, c).Success?
    ensures DecodeCommandMembers(members, c).value.title == c.title
    decreases |members|
  {
    if members != [] {
      assert members[0].0 != "title";
      AbsentTitleDecodesEmpty(members[1..], SetCommandField(c, members[0].0, members[0].1).value);
    }
  }

  // ---------------------------------------------------------------------
  // Wire form of stored rows (every field always present)

  function TodoDoc(t: Todo): Json {
    JObject([
      ("id", JString(t.id)),
      ("title", JString(t.title)),
      ("description", JString(t.description)),
      ("completed", JBool(t.completed)),
      ("user_id", JString(t.userId)),
      ("created_at", JTime(t.createdAt)),
      ("updated_at", JTime(t.updatedAt))])
  }

  predicate TodoMarshallable(t: Todo) {
    Marshallable(t.createdAt) && Marshallable(t.updatedAt)
  }

  function TodoDocs(ts: seq<Todo>): (r: seq<Json>)
    ensures |r| == |ts|
    ensures forall i :: 0 <= i < |ts| ==> r[i] == TodoDoc(ts[i])
  {
    if ts == [] then [] else [TodoDoc(ts[0])] + TodoDocs(ts[1..])
  }

  /** json.Marshal of a []Todo. The repository builds its slice by appending
      to a nil slice, so an empty result is nil and is written as `null`. */
  function EncodeTodos(ts: seq<Todo>): (r: Result<Bytes>)
    ensures r.Success? <==> forall i :: 0 <= i < |ts| ==> TodoMarshallable(ts[i])
    ensures r.Failure? ==> r.error == UnsupportedTime
    ensures r.Success? ==> r.value.Doc? && !IsEmpty(r.value)
    ensures r.Success? && ts == [] ==> r.value == Doc(JNull)
  {
    if exists i :: 0 <= i < |ts| && !TodoMarshallable(ts[i]) then Failure(UnsupportedTime)
    else if ts == [] then Success(Doc(JNull))
    else Success(Doc(JArray(TodoDocs(ts))))
  }

  /** One object member applied to a partly decoded row; unknown keys are ignored. */
  function SetTodoField(t: Todo, key: string, v: Json): Result<Todo> {
    if key == "id" then
      match DecodeString(v, t.id) case Success(s) => Success(t.(id := s)) case Failure(e) => Failure(e)
    else if key == "title" then
      match DecodeString(v, t.title) case Success(s) => Success(t.(title := s)) case Failure(e) => Failure(e)
    else if key == "description" then
      match DecodeString(v, t.description) case Success(s) => Success(t.(description := s)) case Failure(e) => Failure(e)
    else if key == "completed" then
      match DecodeBool(v, t.completed) case Success(b) => Success(t.(completed := b)) case Failure(e) => Failure(e)
    else if key == "user_id" then
      match DecodeString(v, t.userId) case Success(s) => Success(t.(userId := s)) case Failure(e) => Failure(e)
    else if key == "created_at" then
      match DecodeTime(v, t.createdAt) case Success(x) => Success(t.(createdAt := x)) case Failure(e) => Failure(e)
    else if key == "updated_at" then
      match DecodeTime(v, t.updatedAt) case Success(x) => Success(t.(updatedAt := x)) case Failure(e) => Failure(e)
    else Success(t)
  }

  function DecodeTodoMembers(members: seq<(string, Json)>, t: Todo): Result<Todo>
    decreases |members|
  {
    if members == [] then Success(t)
    else
      match SetTodoField(t, members[0].0, members[0].1)
      case Failure(e) => Failure(e)
      case Success(t') => DecodeTodoMembers(members[1..], t')
  }

  /** One array element decoded into a fresh zero row (`null` leaves it zero). */
  function DecodeTodoElement(v: Json): Result<Todo> {
    match v
    case JNull => Success(ZeroTodo)
    case JObject(members) => DecodeTodoMembers(members, ZeroTodo)
    case _ => Failure(TypeMismatch)
  }

  function DecodeTodoElements(items: seq<Json>): (r: Result<seq<Todo>>)
    ensures r.Success? ==> |r.value| == |items|
  {
    if items == [] then Success([])
    else
      match DecodeTodoElement(items[0])
      case Failure(e) => Failure(e)
      case Success(t) =>
        match DecodeTodoElements(items[1..])
        case Failure(e) => Failure(e)
        case Success(rest) => Success([t] + rest)
  }

  /** json.Unmarshal into a nil []Todo: `null` leaves it empty. */
  function DecodeTodos(b: Bytes): (r: Result<seq<Todo>>)
    ensures b.Unparsable? ==> r == Failure(SyntaxError)
    ensures b == Doc(JNull) ==> r == Success([])
  {
    match Parse(b)
    case Failure(e) => Failure(e)
    case Success(JNull) => Success([])
    case Success(JArray(items)) => DecodeTodoElements(items)
    case Success(_) => Failure(TypeMismatch)
  }

  lemma DecodeTodoMembersStep(ms: seq<(string, Json)>, i: nat, t: Todo)
    requires i < |ms|
    ensures DecodeTodoMembers(ms[i..], t) ==
      match SetTodoField(t, ms[i].0, ms[i].1)
      case Failure(e) => Failure(e)
      case Success(t') => DecodeTodoMembers(ms[i + 1..], t')
  {
    assert ms[i..][0] == ms[i];
    assert ms[i..][1..] == ms[i + 1..];
  }

  /** The last three members restore the user and both timestamps. */
  lemma TodoTailRoundTrip(t: Todo)
    ensures DecodeTodoMembers(TodoDoc(t).members[4..], ZeroTodo.(id := t.id, title := t.title,
              description := t.description, completed := t.completed)) == Success(t)
  {
    var ms := TodoDoc(t).members;
    var z4 := ZeroTodo.(id := t.id, title := t.title, description := t.description, completed := t.completed);
    var z5 := z4.(userId := t.userId);
    var z6 := z5.(createdAt := t.createdAt);
    assert ms[7..] == [];
    DecodeTodoMembersStep(ms, 6, z6);
    DecodeTodoMembersStep(ms, 5, z5);
    DecodeTodoMembersStep(ms, 4, z4);
  }

  /** The first four members restore the id, title, description and flag. */
  lemma TodoHeadRoundTrip(t: Todo)
    ensures DecodeTodoMembers(TodoDoc(t).members, ZeroTodo)
         == DecodeTodoMembers(TodoDoc(t).members[4..], ZeroTodo.(id := t.id, title := t.title,
              description := t.description, completed := t.completed))
  {
    var ms := TodoDoc(t).members;
    var z1 := ZeroTodo.(id := t.id);
    var z2 := z1.(title := t.title);
    var z3 := z2.(description := t.description);
    DecodeTodoMembersStep(ms, 3, z3);
    DecodeTodoMembersStep(ms, 2, z2);
    DecodeTodoMembersStep(ms, 1, z1);
    DecodeTodoMembersStep(ms, 0, ZeroTodo);
    assert ms[0..] == ms;
  }

  /** A stored row read back from its wire form is the same row. */
  lemma TodoRoundTrip(t: Todo)
    ensures DecodeTodoElement(TodoDoc(t)) == Success(t)
  {
    TodoHeadRoundTrip(t);
    TodoTailRoundTrip(t);
  }

  lemma {:induction false} TodoElementsRoundTrip(ts: seq<Todo>)
    ensures DecodeTodoElements(TodoDocs(ts)) == Success(ts)
    decreases |ts|
  {
    if ts != [] {
      TodoRoundTrip(ts[0]);
      TodoElementsRoundTrip(ts[1..]);
      assert TodoDocs(ts)[1..] == TodoDocs(ts[1..]);
      assert [ts[0]] + ts[1..] == ts;
    }
  }

  /** What the cache stores for a list decodes back to that list. */
  lemma TodosRoundTrip(ts: seq<Todo>)
    requires EncodeTodos(ts).Success?
    ensures DecodeTodos(EncodeTodos(ts).value) == Success(ts)
  {
    if ts != [] {
      TodoElementsRoundTrip(ts);
    }
  }
}
