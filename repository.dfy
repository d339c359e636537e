/** The todos table and the four statements the core issues against it
    (list, insert, merge-patch update, owner-scoped delete). The table is a
    map from id to row: id is the PRIMARY KEY, so each id names at most one
    row. The SQL text is not modelled; each statement is given its effect on
    the map. A database error on a statement is an input (`fault`). */
module Repository {
  import opened Wire
  import opened Models

  /** The table's contents: every row is stored under its own id. */
  ghost predicate KeyedById(rows: map<string, Todo>) {
    forall id :: id in rows ==> rows[id].id == id
  }

  /** ORDER BY created_at DESC: no row is followed by a strictly newer one. */
  predicate NewestFirst(ts: seq<Todo>) {
    forall i, j :: 0 <= i < j < |ts| ==> ts[i].createdAt >= ts[j].createdAt
  }

  /** No row of `ts` is newer than `at`. */
  predicate NoneNewer(at: Time, ts: seq<Todo>) {
    forall j :: 0 <= j < |ts| ==> ts[j].createdAt <= at
  }

  /** Places a row among rows already ordered newest first: before the first
      row that is not newer than it. */
  function InsertNewestFirst(t: Todo, ts: seq<Todo>): (r: seq<Todo>)
    ensures multiset(r) == multiset(ts) + multiset{t}
  {
    if ts == [] || ts[0].createdAt <= t.createdAt then [t] + ts
    else
      assert ts == [ts[0]] + ts[1..];
      [ts[0]] + InsertNewestFirst(t, ts[1..])
  }

  lemma NewestFirstCons(t: Todo, ts: seq<Todo>)
    requires NoneNewer(t.createdAt, ts) && NewestFirst(ts)
    ensures NewestFirst([t] + ts)
  {
    var r := [t] + ts;
    forall i, j | 0 <= i < j < |r|
      ensures r[i].createdAt >= r[j].createdAt
    {
      assert r[j] == ts[j - 1];
      if i > 0 {
        assert r[i] == ts[i - 1];
      }
    }
  }

  lemma {:induction false} InsertBounded(at: Time, t: Todo, ts: seq<Todo>)
    requires NoneNewer(at, ts) && t.createdAt <= at
    ensures NoneNewer(at, InsertNewestFirst(t, ts))
  {
    var r := InsertNewestFirst(t, ts);
    forall j | 0 <= j < |r|
      ensures r[j].createdAt <= at
    {
      assert r[j] in multiset(r);
      assert r[j] == t || r[j] in multiset(ts);
    }
  }

  lemma {:induction false} InsertKeepsNewestFirst(t: Todo, ts: seq<Todo>)
    requires NewestFirst(ts)
    ensures NewestFirst(InsertNewestFirst(t, ts))
    decreases |ts|
  {
    if ts == [] || ts[0].createdAt <= t.createdAt {
      NewestFirstCons(t, ts);
    } else {
      var tail := ts[1..];
      assert NewestFirst(tail) by {
        forall i, j | 0 <= i < j < |tail| ensures tail[i].createdAt >= tail[j].createdAt {
          assert tail[i] == ts[i + 1] && tail[j] == ts[j + 1];
        }
      }
      assert NoneNewer(ts[0].createdAt, tail) by {
        forall j | 0 <= j < |tail| ensures tail[j].createdAt <= ts[0].createdAt {
          assert tail[j] == ts[j + 1];
        }
      }
      InsertKeepsNewestFirst(t, tail);
      InsertBounded(ts[0].createdAt, t, tail);
      NewestFirstCons(ts[0], InsertNewestFirst(t, tail));
    }
  }

  /** A statement's effect: the table afterwards and the error it returns. */
  datatype Outcome = Outcome(rows: map<string, Todo>, err: Option<Error>)

  /** The row `Create` writes: a fresh id only when none was given, and one
      instant for both timestamps. */
  function Stamp(todo: Todo, freshId: string, now: Time): Todo {
    todo.(id := if todo.id == "" then freshId else todo.id, createdAt := now, updatedAt := now)
  }

  /** INSERT of a stamped row. */
  function InsertOutcome(rows: map<string, Todo>, connected: bool, row: Todo, fault: Option<Error>): Outcome {
    if !connected then Outcome(rows, Some(ErrNoRows))
    else if fault.Some? then Outcome(rows, fault)
    else if row.id in rows then Outcome(rows, Some(UniqueViolation))
    else Outcome(rows[row.id := row], None)
  }

  /** The caller owns the row with this id. */
  predicate Owns(rows: map<string, Todo>, id: string, userId: string) {
    id in rows && rows[id].userId == userId
  }

  /** Nothing to change: empty title, empty description, nil completed. */
  predicate EmptyPatch(title: string, description: string, completed: Option<bool>) {
    title == "" && description == "" && completed.None?
  }

  /** COALESCE(NULLIF(new, ''), old) on text, COALESCE(new, old) on completed. */
  function MergePatch(t: Todo, title: string, description: string, completed: Option<bool>, now: Time): Todo {
    t.(title := if title != "" then title else t.title,
       description := if description != "" then description else t.description,
       completed := if completed.Some? then completed.value else t.completed,
       updatedAt := now)
  }

  /** UPDATE ... WHERE id = $5 AND user_id = $6, skipped for an empty patch. */
  function PatchOutcome(rows: map<string, Todo>, connected: bool, id: string, userId: string,
                        title: string, description: string, completed: Option<bool>,
                        now: Time, fault: Option<Error>): Outcome
  {
    if !connected then Outcome(rows, Some(ErrNoRows))
    else if EmptyPatch(title, description, completed) then Outcome(rows, None)
    else if fault.Some? then Outcome(rows, fault)
    else if Owns(rows, id, userId) then Outcome(rows[id := MergePatch(rows[id], title, description, completed, now)], None)
    else Outcome(rows, None)
  }

  /** DELETE ... WHERE id = $1 AND user_id = $2. */
  function RemoveOutcome(rows: map<string, Todo>, connected: bool, id: string, userId: string, fault: Option<Error>): Outcome {
    if !connected then Outcome(rows, Some(ErrNoRows))
    else if fault.Some? then Outcome(rows, fault)
    else if Owns(rows, id, userId) then Outcome(rows - {id}, None)
    else Outcome(rows, None)
  }

  class TodoTable {
    /** Whether a database handle exists (database.DB returned non-nil). */
    const connected: bool
    var rows: map<string, Todo>

    ghost predicate Valid()
      reads this
    {
      KeyedById(rows)
    }

    constructor (connected: bool, rows: map<string, Todo>)
      requires KeyedById(rows)
      ensures Valid() && this.connected == connected && this.rows == rows
    {
      this.connected := connected;
      this.rows := rows;
    }

    /** SELECT ... ORDER BY created_at DESC, scanned row by row. A query or scan
        error yields no rows and the error. */
    method GetAll(fault: Option<Error>) returns (todos: seq<Todo>, err: Option<Error>)
      requires Valid()
      ensures !connected ==> todos == [] && err == Some(ErrNoRows)
      ensures connected && fault.Some? ==> todos == [] && err == fault
      ensures connected && fault.None? ==> err.None?
      ensures err.None? ==> NewestFirst(todos) && |todos| == |rows|
      ensures err.None? ==> forall k :: k in rows ==> rows[k] in todos
      ensures err.None? ==> forall t :: t in todos ==> t.id in rows && rows[t.id] == t
    {
      if !connected {
        return [], Some(ErrNoRows);
      }
      if fault.Some? {
        return [], fault;
      }
      todos := [];
      var remaining := rows.Keys;
      ghost var seen: set<string> := {};
      while remaining != {}
        invariant remaining <= rows.Keys && seen == rows.Keys - remaining
        invariant NewestFirst(todos) && |todos| == |seen|
        invariant forall k :: k in seen ==> rows[k] in todos
        invariant forall t :: t in todos ==> t.id in rows && rows[t.id] == t
        decreases remaining
      {
        var k :| k in remaining;
        var row := rows[k];
        InsertKeepsNewestFirst(row, todos);
        var next := InsertNewestFirst(row, todos);
        forall t | t in next
          ensures t == row || t in todos
        {
          assert t in multiset(next);
        }
        forall t | t in todos || t == row
          ensures t in next
        {
          assert t in multiset(todos) + multiset{row};
        }
        todos := next;
        remaining := remaining - {k};
        seen := seen + {k};
      }
      err := None;
    }

    /** INSERT of the command's row. The id and timestamps are stamped before the
        statement runs, so a failing statement still returns the stamped row. */
    method Create(todo: Todo, freshId: string, now: Time, fault: Option<Error>) returns (stamped: Todo, err: Option<Error>)
      requires Valid()
      modifies this
      ensures Valid()
      ensures stamped == if connected then Stamp(todo, freshId, now) else todo
      ensures Outcome(rows, err) == InsertOutcome(old(rows), connected, Stamp(todo, freshId, now), fault)
    {
      if !connected {
        return todo, Some(ErrNoRows);
      }
      stamped := todo;
      if stamped.id == "" {
        stamped := stamped.(id := freshId);
      }
      stamped := stamped.(createdAt := now, updatedAt := now);
      if fault.Some? {
        return stamped, fault;
      }
      if stamped.id in rows {
        return stamped, Some(UniqueViolation);
      }
      rows := rows[stamped.id := stamped];
      err := None;
    }

    /** Merge-patch of the caller's row. */
    method Update(id: string, userId: string, title: string, description: string, completed: Option<bool>,
                  now: Time, fault: Option<Error>) returns (err: Option<Error>)
      requires Valid()
      modifies this
      ensures Valid()
      ensures Outcome(rows, err) == PatchOutcome(old(rows), connected, id, userId, title, description, completed, now, fault)
    {
      if !connected {
        return Some(ErrNoRows);
      }
      if title != "" || description != "" || completed.Some? {
        if fault.Some? {
          return fault;
        }
        if id in rows && rows[id].userId == userId {
          rows := rows[id := MergePatch(rows[id], title, description, completed, now)];
        }
        return None;
      }
      return None;
    }

    /** Owner-scoped delete. */
    method Delete(id: string, userId: string, fault: Option<Error>) returns (err: Option<Error>)
      requires Valid()
      modifies this
      ensures Valid()
      ensures Outcome(rows, err) == RemoveOutcome(old(rows), connected, id, userId, fault)
    {
      if !connected {
        return Some(ErrNoRows);
      }
      if fault.Some? {
        return fault;
      }
      if id in rows && rows[id].userId == userId {
        rows := rows - {id};
      }
      err := None;
    }
  }

  // ---------------------------------------------------------------------
  // Properties of the statements

  /** Without a database handle every write returns sql.ErrNoRows and changes nothing. */
  lemma NoHandleChangesNothing(rows: map<string, Todo>, row: Todo, id: string, userId: string,
                               title: string, description: string, completed: Option<bool>,
                               now: Time, fault: Option<Error>)
    ensures InsertOutcome(rows, false, row, fault) == Outcome(rows, Some(ErrNoRows))
    ensures PatchOutcome(rows, false, id, userId, title, description, completed, now, fault) == Outcome(rows, Some(ErrNoRows))
    ensures RemoveOutcome(rows, false, id, userId, fault) == Outcome(rows, Some(ErrNoRows))
  {
  }

  /** A stamped row keeps the caller's id when there is one, takes the fresh id
      otherwise, keeps every other field, and has created_at == updated_at == now. */
  lemma StampFields(todo: Todo, freshId: string, now: Time)
    ensures var s := Stamp(todo, freshId, now);
      && (todo.id != "" ==> s.id == todo.id)
      && (todo.id == "" ==> s.id == freshId)
      && s.createdAt == now && s.updatedAt == s.createdAt
      && s.title == todo.title && s.description == todo.description
      && s.completed == todo.completed && s.userId == todo.userId
  {
  }

  /** A successful insert adds exactly the stamped row under its id; a failed one changes nothing. */
  lemma InsertEffect(rows: map<string, Todo>, row: Todo, fault: Option<Error>)
    ensures var o := InsertOutcome(rows, true, row, fault);
      && (o.err.None? <==> fault.None? && row.id !in rows)
      && (o.err.None? ==> o.rows.Keys == rows.Keys + {row.id} && o.rows[row.id] == row
                          && forall k :: k in rows ==> o.rows[k] == rows[k])
      && (o.err.Some? ==> o.rows == rows)
  {
  }

  /** The command stream is at-least-once: inserting the same row again fails on
      the primary key and leaves the table as the first insert left it. */
  lemma RedeliveredInsertFails(rows: map<string, Todo>, row: Todo)
    requires InsertOutcome(rows, true, row, None).err.None?
    ensures var once := InsertOutcome(rows, true, row, None).rows;
      InsertOutcome(once, true, row, None) == Outcome(once, Some(UniqueViolation))
  {
  }

  /** An update with nothing to change returns nil and does not even touch updated_at. */
  lemma EmptyPatchIsNoOp(rows: map<string, Todo>, id: string, userId: string, now: Time, fault: Option<Error>)
    ensures PatchOutcome(rows, true, id, userId, "", "", None, now, fault) == Outcome(rows, None)
  {
  }

  /** Merge-patch: on the caller's own row, a non-empty title or description
      replaces, an empty one keeps, a set completed replaces, and updated_at is
      now; id, owner and created_at never change, and no other row changes. */
  lemma MergePatchEffect(rows: map<string, Todo>, id: string, userId: string,
                         title: string, description: string, completed: Option<bool>, now: Time)
    requires Owns(rows, id, userId)
    requires !EmptyPatch(title, description, completed)
    ensures var o := PatchOutcome(rows, true, id, userId, title, description, completed, now, None);
      var old_ := rows[id]; var new_ := o.rows[id];
      && o.err.None? && o.rows.Keys == rows.Keys
      && new_.title == (if title == "" then old_.title else title)
      && new_.description == (if description == "" then old_.description else description)
      && new_.completed == (if completed.None? then old_.completed else completed.value)
      && new_.updatedAt == now
      && new_.id == old_.id && new_.userId == old_.userId && new_.createdAt == old_.createdAt
      && forall k :: k in rows && k != id ==> o.rows[k] == rows[k]
  {
  }

  /** Updating only `completed` leaves title and description as they were. */
  lemma CompletedOnlyPatchKeepsText(rows: map<string, Todo>, id: string, userId: string, done: bool, now: Time)
    requires Owns(rows, id, userId)
    ensures var t := PatchOutcome(rows, true, id, userId, "", "", Some(done), now, None).rows[id];
      t.title == rows[id].title && t.description == rows[id].description && t.completed == done
  {
  }

  /** Update and delete on a missing id, or on another user's row, return nil and change nothing. */
  lemma ForeignRowUntouched(rows: map<string, Todo>, id: string, userId: string,
                            title: string, description: string, completed: Option<bool>, now: Time)
    requires !Owns(rows, id, userId)
    ensures PatchOutcome(rows, true, id, userId, title, description, completed, now, None) == Outcome(rows, None)
    ensures RemoveOutcome(rows, true, id, userId, None) == Outcome(rows, None)
  {
  }

  /** Delete is idempotent: the second delete of the same (id, user) returns nil
      and leaves the table as the first left it. */
  lemma DeleteIdempotent(rows: map<string, Todo>, id: string, userId: string)
    ensures var once := RemoveOutcome(rows, true, id, userId, None).rows;
      && once.Keys == (if Owns(rows, id, userId) then rows.Keys - {id} else rows.Keys)
      && RemoveOutcome(once, true, id, userId, None) == Outcome(once, None)
  {
  }

  /** Every statement keeps each row stored under its own id. */
  lemma OutcomesKeepKeying(rows: map<string, Todo>, connected: bool, todo: Todo, freshId: string,
                           id: string, userId: string, title: string, description: string,
                           completed: Option<bool>, now: Time, fault: Option<Error>)
    requires KeyedById(rows)
    ensures KeyedById(InsertOutcome(rows, connected, Stamp(todo, freshId, now), fault).rows)
    ensures KeyedById(PatchOutcome(rows, connected, id, userId, title, description, completed, now, fault).rows)
    ensures KeyedById(RemoveOutcome(rows, connected, id, userId, fault).rows)
  {
  }
}
