/** The HTTP handlers: the cache-aside list read and the three write handlers
    that validate a request, build a command and publish it. Request and
    response plumbing (gin, JWT) is replaced by the values the handlers read:
    the authenticated user, the path id, the body, the `limit` query value. */
module Controller {
  import opened Wire
  import opened Models
  import Strconv
  import opened Repository
  import opened Cache
  import opened Queue
  import Worker

  /** What a handler writes back. NoResponse: the handler returns without writing. */
  datatype Response =
    | Ok(body: Bytes)
    | Accepted(id: string)
    | BadRequest
    | Unauthorized
    | ServerError
    | Unavailable
    | NoResponse

  /** The HTTP status of a written response. */
  function Status(r: Response): (code: int)
    requires !r.NoResponse?
    ensures 200 <= code < 600
    ensures code == 200 <==> r.Ok?
    ensures code == 202 <==> r.Accepted?
  {
    match r
    case Ok(_) => 200
    case Accepted(_) => 202
    case BadRequest => 400
    case Unauthorized => 401
    case ServerError => 500
    case Unavailable => 503
  }

  // ---------------------------------------------------------------------
  // Reading the list

  /** The limit: strconv.Atoi of the query value ("0" when the parameter is
      absent), its error ignored. */
  function ParseLimit(query: Option<string>): int {
    Strconv.Atoi(if query.None? then "0" else query.value).0
  }

  /** The cache key of the requested shape: the limit view for a positive
      limit, the full list otherwise. */
  function ShapeKey(limit: int): string {
    if limit > 0 then LimitKey(limit) else ListKey
  }

  /** errors.Is(err, context.Canceled) || errors.Is(err, context.DeadlineExceeded). */
  predicate IsContextErr(err: Error) {
    err == Canceled || err == DeadlineExceeded
  }

  /** The answer to a failed fetch or encoding: nothing when the request's own
      context is done or the error is a cancellation, 500 otherwise. */
  function FailureResponse(err: Error, ctxDone: bool): (r: Response)
    ensures r.NoResponse? <==> ctxDone || IsContextErr(err)
    ensures !r.NoResponse? ==> r == ServerError
  {
    if ctxDone || IsContextErr(err) then NoResponse else ServerError
  }

  /** A missing parameter, an empty one, every one that strconv.Atoi rejects
      with a syntax error and every non-positive one take the full-list path;
      a rendered int64 comes back as itself. */
  lemma LimitParsing(n: int, junk: string)
    requires Strconv.MinInt64 <= n <= Strconv.MaxInt64
    requires Strconv.Body(junk) == [] || Strconv.ScanDigits(Strconv.Body(junk), 0).BadDigit?
    ensures ParseLimit(None) == 0 && ParseLimit(Some("")) == 0 && ParseLimit(Some(junk)) == 0
    ensures ParseLimit(Some(Strconv.Itoa(n))) == n
    ensures ShapeKey(ParseLimit(None)) == ListKey && ShapeKey(ParseLimit(Some(junk))) == ListKey
    ensures n <= 0 ==> ShapeKey(ParseLimit(Some(Strconv.Itoa(n)))) == ListKey
  {
    Strconv.AtoiItoa(n);
    Strconv.AtoiItoa(0);
    assert Strconv.Itoa(0) == "0";
  }

  /** Text with a non-digit among its first twenty characters after the
      sign, such as "10abc", "1.5" or "+x", lists everything. */
  lemma NonNumericLimitListsAll(t: string, k: nat)
    requires k < |Strconv.Body(t)| && k < 20 && !Strconv.IsDigit(Strconv.Body(t)[k])
    ensures ParseLimit(Some(t)) == 0 && ShapeKey(ParseLimit(Some(t))) == ListKey
  {
    Strconv.SyntaxErrorGivesZero(t, k);
  }

  /** Any run of digits not starting with 0 takes the limit path, however
      long: strconv.Atoi clamps a value past the int64 range to the largest
      int64 and, the error being ignored, that becomes the limit. */
  lemma DigitsTakeLimitPath(s: string)
    requires s != [] && Strconv.AllDigits(s) && s[0] != '0'
    ensures ParseLimit(Some(s)) > 0
    ensures Strconv.ScanDigits(s, 0).Overflow? ==> ParseLimit(Some(s)) == Strconv.MaxInt64
  {
    assert Strconv.IsDigit(s[0]);
    assert s[0] != '-' && s[0] != '+';
    var d := Strconv.DigitValue(s[0]);
    assert d >= 1;
    assert Strconv.ScanDigits(s, 0) == Strconv.ScanDigits(s[1..], d);
    Strconv.ScanDigitsGrows(s[1..], d);
    assert ParseLimit(Some(s)) == Strconv.Atoi(s).0;
    match Strconv.ScanDigits(s, 0)
    case Value(u) =>
      assert Strconv.Atoi(s).0 == if u > Strconv.MaxInt64 then Strconv.MaxInt64 else u;
    case Overflow =>
    case BadDigit =>
  }

  /** Every non-positive limit shares the full-list key; positive limits have
      keys of their own. */
  lemma ShapeKeysSeparate(a: int, b: int)
    ensures a <= 0 ==> ShapeKey(a) == ListKey
    ensures a > 0 ==> ShapeKey(a) != ListKey
    ensures a > 0 && b > 0 && a != b ==> ShapeKey(a) != ShapeKey(b)
  {
    LimitKeysDistinct(a, b);
  }

  /** The outside inputs of one list request: the Redis server's clock, Redis faults on the read and the
      background write, the database fault, whether the request's context is
      done, and the result of repository.GetRange, which is not part of this model. */
  datatype ReadEnv = ReadEnv(now: Millis, readFault: bool, writeFault: bool, dbFault: Option<Error>,
                             ctxDone: bool, range: Result<seq<Todo>>)

  // ---------------------------------------------------------------------
  // Writing: validation and command construction

  /** The fields a write body binds. */
  datatype Body = Body(title: string, description: string, completed: Option<bool>)

  /** One member of the body object; keys the body struct does not have are
      ignored (create's body has no `completed`). */
  function SetBodyField(body: Body, key: string, v: Json, withCompleted: bool): Result<Body> {
    if key == "title" then
      (match DecodeString(v, body.title)
       case Success(s) => Success(body.(title := s))
       case Failure(e) => Failure(e))
    else if key == "description" then
      (match DecodeString(v, body.description)
       case Success(s) => Success(body.(description := s))
       case Failure(e) => Failure(e))
    else if key == "completed" && withCompleted then
      (match DecodeBoolPtr(v)
       case Success(c) => Success(body.(completed := c))
       case Failure(e) => Failure(e))
    else Success(body)
  }

  function DecodeBodyMembers(members: seq<(string, Json)>, body: Body, withCompleted: bool): Result<Body>
    decreases |members|
  {
    if members == [] then Success(body)
    else
      match SetBodyField(body, members[0].0, members[0].1, withCompleted)
      case Failure(e) => Failure(e)
      case Success(next) => DecodeBodyMembers(members[1..], next, withCompleted)
  }

  /** ShouldBindJSON: a body the model holds as unparsable bytes, and JSON
      that is not an object or null or has a field of the wrong kind, are an
      invalid request. gin decodes only the first JSON value of the body; a
      body with bytes after that value is outside this model. */
  function BindBody(b: Bytes, withCompleted: bool): (r: Result<Body>)
    ensures b.Unparsable? ==> r == Failure(InvalidBody)
    ensures r.Failure? ==> r.error == InvalidBody
    ensures b == Doc(JNull) ==> r == Success(Body("", "", None))
    ensures !withCompleted && r.Success? ==> r.value.completed.None?
  {
    match Parse(b)
    case Failure(_) => Failure(InvalidBody)
    case Success(JNull) => Success(Body("", "", None))
    case Success(JObject(ms)) =>
      (match DecodeBodyMembers(ms, Body("", "", None), withCompleted)
       case Failure(_) => Failure(InvalidBody)
       case Success(body) =>
         if withCompleted then Success(body) else Success(body.(completed := None)))
    case Success(_) => Failure(InvalidBody)
  }

  /** A handler's verdict before publishing: a rejection, or the command to publish. */
  datatype Decision = Reject(resp: Response) | Publish(cmd: TodoCommand)

  /** CreateTodo: 401 without a user; 400 for a bad body or a missing title
      (binding:"required"); otherwise a create command with the fresh id. */
  function CreateDecision(user: string, body: Bytes, freshId: string, now: Time): Decision {
    if user == "" then Reject(Unauthorized)
    else
      match BindBody(body, false)
      case Failure(_) => Reject(BadRequest)
      case Success(b) =>
        if b.title == "" then Reject(BadRequest)
        else Publish(TodoCommand(CreateAction, freshId, b.title, b.description, None, user, now))
  }

  /** UpdateTodo: 401 without a user; 400 for an empty id or a bad body;
      otherwise an update command carrying the body's fields. */
  function UpdateDecision(user: string, id: string, body: Bytes, now: Time): Decision {
    if user == "" then Reject(Unauthorized)
    else if id == "" then Reject(BadRequest)
    else
      match BindBody(body, true)
      case Failure(_) => Reject(BadRequest)
      case Success(b) => Publish(TodoCommand(UpdateAction, id, b.title, b.description, b.completed, user, now))
  }

  /** DeleteTodo: 401 without a user; 400 for an empty id; otherwise a delete command. */
  function DeleteDecision(user: string, id: string, now: Time): Decision {
    if user == "" then Reject(Unauthorized)
    else if id == "" then Reject(BadRequest)
    else Publish(TodoCommand(DeleteAction, id, "", "", None, user, now))
  }

  /** Any write without an authenticated user is a 401 and publishes nothing. */
  lemma WritesNeedUser(body: Bytes, id: string, freshId: string, now: Time)
    ensures CreateDecision("", body, freshId, now) == Reject(Unauthorized)
    ensures UpdateDecision("", id, body, now) == Reject(Unauthorized)
    ensures DeleteDecision("", id, now) == Reject(Unauthorized)
  {
  }

  /** Update and delete without an id, and create without a title, are 400. */
  lemma MissingFieldsRejected(user: string, body: Bytes, freshId: string, now: Time)
    requires user != ""
    ensures UpdateDecision(user, "", body, now) == Reject(BadRequest)
    ensures DeleteDecision(user, "", now) == Reject(BadRequest)
    ensures BindBody(body, false).Success? && BindBody(body, false).value.title == "" ==>
              CreateDecision(user, body, freshId, now) == Reject(BadRequest)
    ensures CreateDecision(user, Doc(JNull), freshId, now) == Reject(BadRequest)
  {
  }

  /** A published create carries the fresh id, a non-empty title, the body's
      description, the user, the request time, and no completed value. */
  lemma CreateCommandShape(user: string, body: Bytes, freshId: string, now: Time)
    requires CreateDecision(user, body, freshId, now).Publish?
    ensures var c := CreateDecision(user, body, freshId, now).cmd;
            c.action == CreateAction && c.id == freshId && c.title != "" && c.completed.None?
            && c.userId == user && user != "" && c.requestedAt == now
            && c.title == BindBody(body, false).value.title
            && c.description == BindBody(body, false).value.description
  {
  }

  /** A published delete carries only action, id, user and time. */
  lemma DeleteCommandShape(user: string, id: string, now: Time)
    requires DeleteDecision(user, id, now).Publish?
    ensures var c := DeleteDecision(user, id, now).cmd;
            c.action == DeleteAction && c.id == id && id != "" && c.userId == user && c.requestedAt == now
            && c.title == "" && c.description == "" && c.completed.None?
            && Keys(CommandMembers(c)) == {"action", "id", "user_id", "requested_at"}
  {
    CommandWireFields(DeleteDecision(user, id, now).cmd);
  }

  /** A well-formed create body is published as exactly the expected command. */
  lemma WellFormedCreatePublishes(user: string, title: string, description: string, freshId: string, now: Time)
    requires user != "" && title != ""
    ensures CreateDecision(user, Doc(JObject([("title", JString(title)), ("description", JString(description))])), freshId, now)
            == Publish(TodoCommand(CreateAction, freshId, title, description, None, user, now))
  {
    var ms := [("title", JString(title)), ("description", JString(description))];
    var b0 := Body("", "", None);
    var b1 := b0.(title := title);
    var b2 := b1.(description := description);
    assert SetBodyField(b0, "title", JString(title), false) == Success(b1);
    assert SetBodyField(b1, "description", JString(description), false) == Success(b2);
    assert ms[1..][1..] == [];
    assert DecodeBodyMembers(ms[1..][1..], b2, false) == Success(b2);
    assert DecodeBodyMembers(ms[1..], b1, false) == Success(b2);
    assert DecodeBodyMembers(ms, b0, false) == Success(b2);
  }

  /** An update body's `completed: false` reaches the command as an explicit
      false, not as an absent value. */
  lemma UpdateKeepsExplicitFalse(user: string, id: string, now: Time)
    requires user != "" && id != ""
    ensures UpdateDecision(user, id, Doc(JObject([("completed", JBool(false))])), now)
            == Publish(TodoCommand(UpdateAction, id, "", "", Some(false), user, now))
  {
    var ms := [("completed", JBool(false))];
    assert ms[1..] == [];
  }

  /** A title that reads as a timestamp is still a title: the create is
      published with that text. */
  lemma TimeTextTitlePublishes(user: string, freshId: string, t: Time, now: Time)
    requires user != "" && freshId != ""
    ensures CreateDecision(user, Doc(JObject([("title", JTime(t))])), freshId, now)
            == Publish(TodoCommand(CreateAction, freshId, TimeText(t), "", None, user, now))
  {
    var ms := [("title", JTime(t))];
    var text := TimeText(t);
    assert |text| == 20;
    assert SetBodyField(Body("", "", None), "title", JTime(t), false) == Success(Body(text, "", None));
    assert ms[1..] == [];
    assert DecodeBodyMembers(ms, Body("", "", None), false) == Success(Body(text, "", None));
  }

  /** A todo created through the API is stored open: its command has no
      completed value, so the worker inserts completed == false. */
  lemma CreatedTodosStartOpen(user: string, body: Bytes, freshId: string, now: Time)
    requires CreateDecision(user, body, freshId, now).Publish?
    ensures var op := Worker.Dispatch(CreateDecision(user, body, freshId, now).cmd);
            op.Insert? && !op.row.completed && op.row.id == freshId && op.row.userId == user
  {
  }

  /** A read that misses caches the bytes it served under the same shape key,
      so the next read within the TTL (no faults) is a hit on those bytes. */
  lemma MissThenHit(entries: map<string, Entry>, limit: int, b: Bytes, ttl: int, at: Millis, now: Millis)
    requires !IsEmpty(b)
    requires ExpiresIn(ttl).None? || now < at + ExpiresIn(ttl).value
    ensures Live(Put(entries, true, false, ShapeKey(limit), b, ttl, at), ShapeKey(limit), now) == Some(b)
  {
    HitReturnsStoredBytes(entries, ShapeKey(limit), b, ttl, at, now);
  }

  class TodoHandlers {
    const table: TodoTable
    const cache: RedisCache
    const queue: CommandQueue

    constructor (table: TodoTable, cache: RedisCache, queue: CommandQueue)
      ensures this.table == table && this.cache == cache && this.queue == queue
    {
      this.table := table;
      this.cache := cache;
      this.queue := queue;
    }

    /** GetTodos: a hit answers with the cached bytes verbatim and fetches
        nothing; a miss fetches (GetRange for a positive limit, GetAll
        otherwise), encodes, answers and caches the same bytes under the same
        key; a failed fetch or encoding caches nothing. `fetched` is the list a
        full-list miss read from the table. */
    method GetTodos(query: Option<string>, env: ReadEnv) returns (resp: Response, ghost fetched: seq<Todo>)
      requires table.Valid()
      modifies cache
      ensures var key := ShapeKey(ParseLimit(query));
              var hit := cache.available && !env.readFault && Live(old(cache.entries), key, env.now).Some?;
              && (hit ==> resp == Ok(Live(old(cache.entries), key, env.now).value) && cache.entries == old(cache.entries))
              && (!hit && ParseLimit(query) > 0 ==>
                    match env.range
                    case Failure(e) => resp == FailureResponse(e, env.ctxDone) && cache.entries == old(cache.entries)
                    case Success(ts) =>
                      match EncodeTodos(ts)
                      case Failure(e) => resp == FailureResponse(e, env.ctxDone) && cache.entries == old(cache.entries)
                      case Success(b) =>
                        (resp == Ok(b)
                         && cache.entries == Put(old(cache.entries), cache.available, env.writeFault, key, b, cache.ttl, env.now)))
              && (!hit && ParseLimit(query) <= 0 && (!table.connected || env.dbFault.Some?) ==>
                    resp == FailureResponse(if table.connected then env.dbFault.value else ErrNoRows, env.ctxDone)
                    && cache.entries == old(cache.entries))
              && (!hit && ParseLimit(query) <= 0 && table.connected && env.dbFault.None? ==>
                    NewestFirst(fetched) && |fetched| == |table.rows|
                    && (forall k :: k in table.rows ==> table.rows[k] in fetched)
                    && (forall t :: t in fetched ==> t.id in table.rows && table.rows[t.id] == t)
                    && match EncodeTodos(fetched)
                       case Failure(e) => resp == FailureResponse(e, env.ctxDone) && cache.entries == old(cache.entries)
                       case Success(b) =>
                         (resp == Ok(b)
                          && cache.entries == Put(old(cache.entries), cache.available, env.writeFault, key, b, cache.ttl, env.now)))
    {
      fetched := [];
      var limit := ParseLimit(query);
      var key := ShapeKey(limit);
      var cached := cache.GetRaw(key, env.now, env.readFault);
      if cached.Some? {
        return Ok(cached.value), fetched;
      }
      var todos: seq<Todo>;
      if limit > 0 {
        if env.range.Failure? {
          return FailureResponse(env.range.error, env.ctxDone), fetched;
        }
        todos := env.range.value;
      } else {
        var err;
        todos, err := table.GetAll(env.dbFault);
        if err.Some? {
          return FailureResponse(err.value, env.ctxDone), fetched;
        }
        fetched := todos;
      }
      match EncodeTodos(todos)
      case Failure(e) =>
        return FailureResponse(e, env.ctxDone), fetched;
      case Success(b) =>
        resp := Ok(b);
        cache.SetRaw(key, b, env.now, env.writeFault);
    }

    /** Publishes a decided command: 202 with the command's id when publishing
        returned nil, 503 otherwise. A rejection publishes nothing. */
    method Answer(d: Decision, writerFault: Option<Error>) returns (resp: Response)
      modifies queue
      ensures d.Reject? ==> resp == d.resp && queue.outgoing == old(queue.outgoing) && queue.writer == old(queue.writer)
      ensures d.Publish? ==> (resp == Accepted(d.cmd.id) <==> EncodeCommand(d.cmd).Success? && writerFault.None?)
      ensures d.Publish? ==> (resp.Accepted? || resp == Unavailable)
      ensures d.Publish? && resp.Accepted? ==>
                (EncodeCommand(d.cmd).Success? &&
                 queue.outgoing == old(queue.outgoing) + [Message(MessageKey(d.cmd.userId, d.cmd.action), EncodeCommand(d.cmd).value)])
      ensures d.Publish? && !resp.Accepted? ==> queue.outgoing == old(queue.outgoing)
    {
      match d
      case Reject(r) =>
        return r;
      case Publish(cmd) =>
        var err := queue.PublishTodoCommand(cmd, writerFault);
        if err.Some? {
          return Unavailable;
        }
        return Accepted(cmd.id);
    }

    method CreateTodo(user: string, body: Bytes, freshId: string, now: Time, writerFault: Option<Error>)
      returns (resp: Response)
      modifies queue
      ensures var d := CreateDecision(user, body, freshId, now);
              && (d.Reject? ==> resp == d.resp && queue.outgoing == old(queue.outgoing))
              && (d.Publish? ==> (resp == Accepted(freshId) <==> EncodeCommand(d.cmd).Success? && writerFault.None?))
              && (d.Publish? && !resp.Accepted? ==> resp == Unavailable && queue.outgoing == old(queue.outgoing))
              && (d.Publish? && resp.Accepted? ==>
                    (EncodeCommand(d.cmd).Success?
                     && queue.outgoing == old(queue.outgoing) + [Message(MessageKey(user, CreateAction), EncodeCommand(d.cmd).value)]))
    {
      resp := Answer(CreateDecision(user, body, freshId, now), writerFault);
    }

    method UpdateTodo(user: string, id: string, body: Bytes, now: Time, writerFault: Option<Error>)
      returns (resp: Response)
      modifies queue
      ensures var d := UpdateDecision(user, id, body, now);
              && (d.Reject? ==> resp == d.resp && queue.outgoing == old(queue.outgoing))
              && (d.Publish? ==> (resp == Accepted(id) <==> EncodeCommand(d.cmd).Success? && writerFault.None?))
              && (d.Publish? && !resp.Accepted? ==> resp == Unavailable && queue.outgoing == old(queue.outgoing))
              && (d.Publish? && resp.Accepted? ==>
                    (EncodeCommand(d.cmd).Success?
                     && queue.outgoing == old(queue.outgoing) + [Message(MessageKey(user, UpdateAction), EncodeCommand(d.cmd).value)]))
    {
      resp := Answer(UpdateDecision(user, id, body, now), writerFault);
    }

    method DeleteTodo(user: string, id: string, now: Time, writerFault: Option<Error>)
      returns (resp: Response)
      modifies queue
      ensures var d := DeleteDecision(user, id, now);
              && (d.Reject? ==> resp == d.resp && queue.outgoing == old(queue.outgoing))
              && (d.Publish? ==> (resp == Accepted(id) <==> EncodeCommand(d.cmd).Success? && writerFault.None?))
              && (d.Publish? && !resp.Accepted? ==> resp == Unavailable && queue.outgoing == old(queue.outgoing))
              && (d.Publish? && resp.Accepted? ==>
                    (EncodeCommand(d.cmd).Success?
                     && queue.outgoing == old(queue.outgoing) + [Message(MessageKey(user, DeleteAction), EncodeCommand(d.cmd).value)]))
    {
      resp := Answer(DeleteDecision(user, id, now), writerFault);
    }
  }
}
