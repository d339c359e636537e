/** The command consumer: decodes each fetched command, applies it to the
    table, invalidates the full-list cache key after a successful apply, and
    commits every message whatever the outcome. The Kafka reader is replaced
    by the sequence of fetch results it would deliver. */
module Worker {
  import opened Wire
  import opened Models
  import opened Repository
  import opened Cache

  /** The inputs one message's handling draws from outside: the id uuid.New
      would give, the time.Now instant, and the database and Redis faults. */
  datatype Env = Env(freshId: string, now: Time, dbFault: Option<Error>, redisFault: bool)

  /** The repository call a command asks for. */
  datatype Op =
    | Insert(row: Todo)
    | Patch(id: string, userId: string, title: string, description: string, completed: Option<bool>)
    | Remove(id: string, userId: string)
    | Ignore

  /** handleMessage's switch on the action. */
  function Dispatch(cmd: TodoCommand): Op {
    if cmd.action == CreateAction then
      Insert(Todo(cmd.id, cmd.title, cmd.description,
                  if cmd.completed.Some? then cmd.completed.value else false,
                  cmd.userId, ZeroTime, ZeroTime))
    else if cmd.action == UpdateAction then
      Patch(cmd.id, cmd.userId, cmd.title, cmd.description, cmd.completed)
    else if cmd.action == DeleteAction then
      Remove(cmd.id, cmd.userId)
    else
      Ignore
  }

  /** The effect of the repository call on the table. */
  function Apply(rows: map<string, Todo>, connected: bool, op: Op, env: Env): Outcome {
    match op
    case Insert(row) => InsertOutcome(rows, connected, Stamp(row, env.freshId, env.now), env.dbFault)
    case Patch(id, userId, title, description, completed) =>
      PatchOutcome(rows, connected, id, userId, title, description, completed, env.now, env.dbFault)
    case Remove(id, userId) => RemoveOutcome(rows, connected, id, userId, env.dbFault)
    case Ignore => Outcome(rows, None)
  }

  /** The table, the cache and the error after handling one payload. */
  datatype Handled = Handled(rows: map<string, Todo>, entries: map<string, Entry>, err: Option<Error>)

  function Handle(rows: map<string, Todo>, connected: bool, entries: map<string, Entry>, cacheUp: bool,
                  payload: Bytes, env: Env): Handled
  {
    match DecodeCommand(payload)
    case Failure(e) => Handled(rows, entries, Some(e))
    case Success(cmd) =>
      var op := Dispatch(cmd);
      var o := Apply(rows, connected, op, env);
      if op.Ignore? then Handled(rows, entries, None)
      else if o.err.Some? then Handled(o.rows, entries, o.err)
      else Handled(o.rows, Invalidate(entries, cacheUp, env.redisFault), None)
  }

  /** One result of reader.FetchMessage: a message at an offset (with whether
      committing it will fail), or a fetch error (with whether the context
      was cancelled by then). */
  datatype Delivery =
    | Fetched(offset: nat, payload: Bytes, env: Env, commitFails: bool)
    | FetchFailed(cancelled: bool)

  /** The consumer's observable state: table, cache, processed counter, and
      the offsets committed so far. */
  datatype RunState = RunState(rows: map<string, Todo>, entries: map<string, Entry>, processed: nat, committed: seq<nat>)

  /** One iteration of Run's loop. A fetch error changes nothing. A message is
      handled, then committed (unless the commit fails) whether or not the
      handling failed; only a successful handling is counted. */
  function Step(st: RunState, connected: bool, cacheUp: bool, d: Delivery): RunState {
    match d
    case FetchFailed(_) => st
    case Fetched(offset, payload, env, commitFails) =>
      var h := Handle(st.rows, connected, st.entries, cacheUp, payload, env);
      RunState(h.rows, h.entries,
               st.processed + (if h.err.None? then 1 else 0),
               st.committed + (if commitFails then [] else [offset]))
  }

  function Replay(st: RunState, connected: bool, cacheUp: bool, ds: seq<Delivery>): RunState
    decreases |ds|
  {
    if ds == [] then st
    else Step(Replay(st, connected, cacheUp, ds[..|ds| - 1]), connected, cacheUp, ds[|ds| - 1])
  }

  lemma ReplayStep(st: RunState, connected: bool, cacheUp: bool, ds: seq<Delivery>, n: nat)
    requires n < |ds|
    ensures Replay(st, connected, cacheUp, ds[..n + 1]) == Step(Replay(st, connected, cacheUp, ds[..n]), connected, cacheUp, ds[n])
  {
    assert ds[..n + 1][..n] == ds[..n];
  }

  /** How many deliveries the loop consumes: up to the first fetch error seen
      after cancellation, which ends the loop. */
  function UntilCancelled(ds: seq<Delivery>): (n: nat)
    ensures n <= |ds|
    ensures forall i :: 0 <= i < n ==> !(ds[i].FetchFailed? && ds[i].cancelled)
    ensures n < |ds| ==> ds[n].FetchFailed? && ds[n].cancelled
  {
    if ds == [] then 0
    else if ds[0].FetchFailed? && ds[0].cancelled then 0
    else 1 + UntilCancelled(ds[1..])
  }

  /** The offsets whose commit succeeds, in fetch order. */
  function CommitLog(ds: seq<Delivery>): seq<nat>
    decreases |ds|
  {
    if ds == [] then []
    else
      var d := ds[|ds| - 1];
      CommitLog(ds[..|ds| - 1]) + (if d.Fetched? && !d.commitFails then [d.offset] else [])
  }

  /** The number of fetched messages. */
  function FetchedCount(ds: seq<Delivery>): (n: nat)
    ensures n <= |ds|
    decreases |ds|
  {
    if ds == [] then 0 else FetchedCount(ds[..|ds| - 1]) + (if ds[|ds| - 1].Fetched? then 1 else 0)
  }

  class Consumer {
    const table: TodoTable
    const cache: RedisCache
    /** The processed counter. */
    var processed: nat
    /** Offsets committed to the consumer group, in order. */
    var committed: seq<nat>

    constructor (table: TodoTable, cache: RedisCache)
      ensures this.table == table && this.cache == cache && processed == 0 && committed == []
    {
      this.table := table;
      this.cache := cache;
      processed := 0;
      committed := [];
    }

    function State(): RunState
      reads this, table, cache
    {
      RunState(table.rows, cache.entries, processed, committed)
    }

    /** handleMessage: decode, apply through the repository, invalidate. */
    method HandleMessage(payload: Bytes, env: Env) returns (err: Option<Error>)
      requires table.Valid()
      modifies table, cache
      ensures table.Valid()
      ensures Handled(table.rows, cache.entries, err)
              == Handle(old(table.rows), table.connected, old(cache.entries), cache.available, payload, env)
    {
      match DecodeCommand(payload)
      case Failure(e) =>
        return Some(e);
      case Success(cmd) =>
        if cmd.action == CreateAction {
          var todo := Todo(cmd.id, cmd.title, cmd.description, false, cmd.userId, ZeroTime, ZeroTime);
          if cmd.completed.Some? {
            todo := todo.(completed := cmd.completed.value);
          }
          var _, e := table.Create(todo, env.freshId, env.now, env.dbFault);
          if e.Some? {
            return e;
          }
        } else if cmd.action == UpdateAction {
          var e := table.Update(cmd.id, cmd.userId, cmd.title, cmd.description, cmd.completed, env.now, env.dbFault);
          if e.Some? {
            return e;
          }
        } else if cmd.action == DeleteAction {
          var e := table.Delete(cmd.id, cmd.userId, env.dbFault);
          if e.Some? {
            return e;
          }
        } else {
          return None;
        }
        cache.InvalidateTodos(env.redisFault);
        return None;
    }

    /** Run: with no brokers it returns at once; otherwise it fetches, handles
        and commits until a fetch fails after cancellation. */
    method Run(brokers: seq<string>, deliveries: seq<Delivery>)
      requires table.Valid()
      modifies this, table, cache
      ensures table.Valid()
      ensures brokers == [] ==> State() == old(State())
      ensures brokers != [] ==>
                State() == Replay(old(State()), table.connected, cache.available, deliveries[..UntilCancelled(deliveries)])
    {
      if |brokers| == 0 {
        return;
      }
      ghost var start := State();
      var i := 0;
      while i < |deliveries|
        invariant i <= UntilCancelled(deliveries)
        invariant table.Valid()
        invariant State() == Replay(start, table.connected, cache.available, deliveries[..i])
        decreases |deliveries| - i
      {
        ReplayStep(start, table.connected, cache.available, deliveries, i);
        match deliveries[i] {
          case FetchFailed(cancelled) =>
            if cancelled {
              return;
            }
          case Fetched(offset, payload, env, commitFails) =>
            var err := HandleMessage(payload, env);
            if err.Some? {
              if !commitFails {
                committed := committed + [offset];
              }
            } else {
              if !commitFails {
                committed := committed + [offset];
              }
              processed := processed + 1;
            }
        }
        i := i + 1;
      }
      assert deliveries[..i] == deliveries[..UntilCancelled(deliveries)];
    }
  }

  // ---------------------------------------------------------------------
  // Properties of message handling

  /** A payload that does not decode is an error and touches neither the table nor the cache. */
  lemma UndecodablePayloadChangesNothing(rows: map<string, Todo>, connected: bool, entries: map<string, Entry>,
                                         cacheUp: bool, payload: Bytes, env: Env)
    requires DecodeCommand(payload).Failure?
    ensures var h := Handle(rows, connected, entries, cacheUp, payload, env);
            h.err.Some? && h.rows == rows && h.entries == entries
  {
  }

  /** A create inserts a row with the command's id, title, description and
      user; completed is the command's value when present and false otherwise. */
  lemma CreateCarriesCommandFields(cmd: TodoCommand)
    requires cmd.action == CreateAction
    ensures Dispatch(cmd).Insert?
    ensures var t := Dispatch(cmd).row;
            t.id == cmd.id && t.title == cmd.title && t.description == cmd.description && t.userId == cmd.userId
            && (cmd.completed.Some? ==> t.completed == cmd.completed.value)
            && (cmd.completed.None? ==> !t.completed)
  {
  }

  /** Update and delete reach the repository with exactly the command's (id, user) pair and fields. */
  lemma UpdateDeleteUseCommandPair(cmd: TodoCommand)
    ensures cmd.action == UpdateAction ==>
              Dispatch(cmd) == Patch(cmd.id, cmd.userId, cmd.title, cmd.description, cmd.completed)
    ensures cmd.action == DeleteAction ==> Dispatch(cmd) == Remove(cmd.id, cmd.userId)
  {
  }

  /** An unknown action succeeds, changes nothing and does not invalidate. */
  lemma UnknownActionIgnored(rows: map<string, Todo>, connected: bool, entries: map<string, Entry>,
                             cacheUp: bool, payload: Bytes, env: Env)
    requires DecodeCommand(payload).Success?
    requires DecodeCommand(payload).value.action !in {CreateAction, UpdateAction, DeleteAction}
    ensures Handle(rows, connected, entries, cacheUp, payload, env) == Handled(rows, entries, None)
  {
  }

  /** The full-list key is deleted exactly when the action is create, update or
      delete and the repository call returned no error. */
  lemma InvalidatesIffApplied(rows: map<string, Todo>, connected: bool, entries: map<string, Entry>,
                              payload: Bytes, env: Env)
    requires ListKey in entries && !env.redisFault
    ensures var h := Handle(rows, connected, entries, true, payload, env);
            (ListKey !in h.entries) <==>
              (DecodeCommand(payload).Success?
               && DecodeCommand(payload).value.action in {CreateAction, UpdateAction, DeleteAction}
               && h.err.None?)
    ensures var h := Handle(rows, connected, entries, true, payload, env);
            h.entries == entries || h.entries == entries - {ListKey}
  {
  }

  /** An update that matches no row (another user's id) still returns nil and
      so still invalidates the full list. */
  lemma NoOpUpdateStillInvalidates(rows: map<string, Todo>, entries: map<string, Entry>, cmd: TodoCommand, env: Env)
    requires cmd.action == UpdateAction && Marshallable(cmd.requestedAt)
    requires !Owns(rows, cmd.id, cmd.userId) && env.dbFault.None? && !env.redisFault
    ensures var h := Handle(rows, true, entries, true, EncodeCommand(cmd).value, env);
            h.rows == rows && h.err.None? && ListKey !in h.entries
  {
    CommandRoundTrip(cmd);
    ForeignRowUntouched(rows, cmd.id, cmd.userId, cmd.title, cmd.description, cmd.completed, env.now);
  }

  /** A redelivered create fails on the primary key: the worker reports the
      error and leaves table and cache as the first delivery left them. */
  lemma RedeliveredCreateFails(rows: map<string, Todo>, entries: map<string, Entry>, cmd: TodoCommand, env: Env)
    requires cmd.action == CreateAction && cmd.id != "" && Marshallable(cmd.requestedAt)
    requires env.dbFault.None?
    requires Handle(rows, true, entries, true, EncodeCommand(cmd).value, env).err.None?
    ensures var first := Handle(rows, true, entries, true, EncodeCommand(cmd).value, env);
            Handle(first.rows, true, first.entries, true, EncodeCommand(cmd).value, env)
              == Handled(first.rows, first.entries, Some(UniqueViolation))
  {
    CommandRoundTrip(cmd);
    RedeliveredInsertFails(rows, Stamp(Dispatch(cmd).row, env.freshId, env.now));
  }

  // ---------------------------------------------------------------------
  // Properties of the consume loop

  /** Every fetched message is committed (unless the commit itself fails),
      whatever its handling did: the committed offsets depend on the deliveries alone. */
  lemma {:induction false} CommitsEveryMessage(st: RunState, connected: bool, cacheUp: bool, ds: seq<Delivery>)
    ensures Replay(st, connected, cacheUp, ds).committed == st.committed + CommitLog(ds)
    decreases |ds|
  {
    if ds != [] {
      CommitsEveryMessage(st, connected, cacheUp, ds[..|ds| - 1]);
    }
  }

  /** The processed counter grows by at most one per fetched message. */
  lemma {:induction false} ProcessedBounded(st: RunState, connected: bool, cacheUp: bool, ds: seq<Delivery>)
    ensures st.processed <= Replay(st, connected, cacheUp, ds).processed <= st.processed + FetchedCount(ds)
    decreases |ds|
  {
    if ds != [] {
      ProcessedBounded(st, connected, cacheUp, ds[..|ds| - 1]);
    }
  }

  /** A message counts exactly when its handling succeeds, even if its commit
      fails; a failed one is still committed and not counted. */
  lemma StepCountsSuccessOnly(st: RunState, connected: bool, cacheUp: bool,
                              offset: nat, payload: Bytes, env: Env, commitFails: bool)
    ensures var h := Handle(st.rows, connected, st.entries, cacheUp, payload, env);
            var next := Step(st, connected, cacheUp, Fetched(offset, payload, env, commitFails));
            && (next.processed == st.processed + 1 <==> h.err.None?)
            && (next.processed == st.processed <==> h.err.Some?)
            && (!commitFails ==> next.committed == st.committed + [offset])
  {
  }

  /** A poison message (one that does not decode) is committed and skipped. */
  lemma PoisonMessageSkipped(st: RunState, connected: bool, cacheUp: bool, offset: nat, raw: seq<bv8>, env: Env)
    ensures Step(st, connected, cacheUp, Fetched(offset, Unparsable(raw), env, false))
            == st.(committed := st.committed + [offset])
  {
  }

  /** A fetch error commits nothing and changes nothing. */
  lemma FetchErrorChangesNothing(st: RunState, connected: bool, cacheUp: bool, cancelled: bool)
    ensures Step(st, connected, cacheUp, FetchFailed(cancelled)) == st
  {
  }
}
