/**
 The vault's create/update/delete layer and its append-only audit log, for one generic table
 keyed by entity type and id.

 A session works on an identity map: a deleted object is only *marked* until the next flush,
 and until then a lookup by id still finds it.  `State` holds what the database has committed
 and what the session has not; `Step` is the specification of each operation, the class
 `Session` performs them in place.
 */
module AuditTrail {
  import opened Wrappers

  // ---------------------------------------------------------------- rows and snapshots

  datatype Value = Null | Text(s: string) | Number(n: int) | Flag(b: bool) | Json(j: string)
                 | Printed(s: string)  // a Decimal, date or timestamp, known by what it prints as

  type Row = map<string, Value>

  function Coerce(v: Value): Value {
    match v
    case Printed(s) => Text(s)
    case _ => v
  }

  /** The plain dictionary that the log stores for a row. */
  function Snapshot(row: Row): Row {
    map k | k in row :: Coerce(row[k])
  }

  datatype Key = Key(kind: string, id: nat)

  datatype Entry = Entry(actor: string, action: string, key: Key, before: Option<Row>, after: Option<Row>)

  function Snapshots(rows: map<Key, Row>): map<Key, Row> {
    map k | k in rows :: Snapshot(rows[k])
  }

  // ---------------------------------------------------------------- replaying a log

  function Applied(view: map<Key, Row>, e: Entry): map<Key, Row> {
    match e.after
    case Some(row) => view[e.key := row]
    case None => view - {e.key}
  }

  /** The vault that the log alone describes, starting from an empty one. */
  function Replay(log: seq<Entry>): map<Key, Row> {
    if log == [] then map[] else Applied(Replay(log[..|log| - 1]), log[|log| - 1])
  }

  function Lookup(view: map<Key, Row>, k: Key): Option<Row> {
    if k in view then Some(view[k]) else None
  }

  /** Every entry's `before` is the `after` that the log last recorded for the same entity. */
  ghost predicate Chained(log: seq<Entry>) {
    forall i :: 0 <= i < |log| ==> log[i].before == Lookup(Replay(log[..i]), log[i].key)
  }

  // ---------------------------------------------------------------- one session, as a value

  datatype State = State(
    rows: map<Key, Row>,       // committed rows
    log: seq<Entry>,           // committed audit log
    live: map<Key, Row>,       // what the session's lookups find
    marked: set<Key>,          // deleted in this session, not flushed yet
    pending: seq<Entry>,       // audit entries not committed yet
    nextId: map<string, nat>)  // id sequences, which never step back

  function NextId(s: State, kind: string): nat {
    if kind in s.nextId then s.nextId[kind] else 1
  }

  datatype Op =
    | Create(kind: string, data: Row, defaults: Row, actor: string, flushOk: bool)
    | Update(key: Key, fields: Row, actor: string, flushOk: bool)
    | Delete(key: Key, actor: string)
    | Autoflush  // any query flushes first; it may come before or between the other operations
    | Commit(ok: bool)
    | Rollback

  const EMPTY_VAULT: State := State(map[], [], map[], {}, [], map[])

  function Flushed(s: State): State {
    s.(live := s.live - s.marked, marked := {})
  }

  function RolledBack(s: State): State {
    s.(live := s.rows, marked := {}, pending := [])
  }

  function Committed(s: State): State {
    var f := Flushed(s);
    f.(rows := f.live, log := f.log + f.pending, pending := [])
  }

  function NewKey(s: State, kind: string): Key {
    Key(kind, NextId(s, kind))
  }

  function Stored(s: State, op: Op): Row
    requires op.Create?
  {
    (op.defaults + op.data)["id" := Number(NextId(s, op.kind))]
  }

  /** The row as the session holds it once an update's fields are assigned. */
  function Assigned(s: State, op: Op): Row
    requires op.Update? && op.key in s.live
  {
    s.live[op.key] + op.fields
  }

  function Step(s: State, op: Op): State {
    match op
    case Create(kind, data, defaults, actor, flushOk) =>
      var k := NewKey(s, kind);
      var t := s.(nextId := s.nextId[kind := k.id + 1]);
      if !flushOk then RolledBack(t)
      else
        var f := Flushed(t);
        f.(live := f.live[k := Stored(s, op)],
           pending := f.pending + [Entry(actor, "create", k, None, Some(Snapshot(Stored(s, op))))])
    case Update(k, fields, actor, flushOk) =>
      if k !in s.live then s
      else if !flushOk then RolledBack(s)
      else
        // The flush deletes a marked object; its assigned fields reach only the log.
        var f := Flushed(s.(live := s.live[k := Assigned(s, op)]));
        f.(pending := f.pending
             + [Entry(actor, "update", k, Some(Snapshot(s.live[k])), Some(Snapshot(Assigned(s, op))))])
    case Delete(k, actor) =>
      if k !in s.live then s
      else
        s.(marked := s.marked + {k},
           pending := s.pending + [Entry(actor, "delete", k, Some(Snapshot(s.live[k])), None)])
    case Autoflush => Flushed(s)
    case Commit(ok) => if ok then Committed(s) else RolledBack(s)
    case Rollback => RolledBack(s)
  }

  /**
   A lookup by id, which queries only for an object that the session does not hold; a marked
   object is held until it is flushed.
   */
  function Looked(s: State, key: Key, queried: bool): State {
    if queried && key !in s.marked then Step(s, Autoflush) else s
  }

  function Run(s: State, ops: seq<Op>): State
    decreases |ops|
  {
    if ops == [] then s else Run(Step(s, ops[0]), ops[1..])
  }

  // ---------------------------------------------------------------- the session, in place

  /** The dictionary that a sequence of assignments builds: the last one to a field wins. */
  function Collected(fields: seq<(string, Value)>): Row {
    if fields == [] then map[]
    else Collected(fields[..|fields| - 1])[fields[|fields| - 1].0 := fields[|fields| - 1].1]
  }

  lemma {:induction false} RunAppend(s: State, a: seq<Op>, b: seq<Op>)
    ensures Run(s, a + b) == Run(Run(s, a), b)
    decreases |a|
  {
    if a == [] {
      assert a + b == b;
    } else {
      assert (a + b)[1..] == a[1..] + b;
      RunAppend(Step(s, a[0]), a[1..], b);
    }
  }

  lemma RunSnoc(s: State, ops: seq<Op>, op: Op)
    ensures Run(s, ops + [op]) == Step(Run(s, ops), op)
  {
    RunAppend(s, ops, [op]);
    assert [op][1..] == [];
  }

  lemma OneField(field: string, value: Value)
    ensures Collected([(field, value)]) == map[field := value]
  {
    assert [(field, value)][..0] == [];
  }

  /** The updates of a value refresh: one for each property that has an estimate, in order. */
  function RefreshOps(estimates: seq<(Key, Option<Value>)>, actor: string): seq<Op> {
    if estimates == [] then []
    else
      var (key, price) := estimates[|estimates| - 1];
      RefreshOps(estimates[..|estimates| - 1], actor)
      + if price.Some? then [Op.Update(key, map["current_value" := price.value], actor, true)] else []
  }

  class Session {
    var rows: map<Key, Row>
    var log: seq<Entry>
    var live: map<Key, Row>
    var marked: set<Key>
    var pending: seq<Entry>
    var nextId: map<string, nat>

    function Now(): State
      reads this
    {
      State(rows, log, live, marked, pending, nextId)
    }

    constructor ()
      ensures Now() == EMPTY_VAULT
    {
      rows, log, live, marked, pending, nextId := map[], [], map[], {}, [], map[];
    }

    method Flush()
      modifies this
      ensures Now() == Step(old(Now()), Op.Autoflush)
    {
      live := live - marked;
      marked := {};
    }

    method Get(key: Key, queried: bool) returns (found: bool)
      modifies this
      ensures Now() == Looked(old(Now()), key, queried)
      ensures found == (key in live)
    {
      if queried && key !in marked {
        Flush();
      }
      return key in live;
    }

    method WriteAuditLog(entry: Entry)
      modifies this`pending
      ensures pending == old(pending) + [entry]
    {
      pending := pending + [entry];
    }

    method Rollback()
      modifies this
      ensures Now() == Step(old(Now()), Op.Rollback)
    {
      live, marked, pending := rows, {}, [];
    }

    method Commit(ok: bool)
      modifies this
      ensures Now() == Step(old(Now()), Op.Commit(ok))
    {
      if !ok {
        Rollback();
        return;
      }
      Flush();
      rows, log, pending := live, log + pending, [];
    }

    method Create(kind: string, data: Row, defaults: Row, actor: string, flushOk: bool)
      returns (created: Option<Key>)
      modifies this
      ensures Now() == Step(old(Now()), Op.Create(kind, data, defaults, actor, flushOk))
      ensures created == if flushOk then Some(NewKey(old(Now()), kind)) else None
    {
      hide Snapshot, NextId;
      var key := NewKey(Now(), kind);
      var row := (defaults + data)["id" := Number(key.id)];
      nextId := nextId[kind := key.id + 1];
      if !flushOk {
        Rollback();
        return None;
      }
      Flush();
      live := live[key := row];
      WriteAuditLog(Entry(actor, "create", key, None, Some(Snapshot(row))));
      return Some(key);
    }

    method Update(key: Key, fields: seq<(string, Value)>, actor: string, queried: bool, flushOk: bool)
      returns (updated: Option<Row>)
      modifies this
      ensures Now() == Step(Looked(old(Now()), key, queried), Op.Update(key, Collected(fields), actor, flushOk))
      ensures updated == if key in Looked(old(Now()), key, queried).live && flushOk
                         then Some(old(live)[key] + Collected(fields)) else None
    {
      var found := Get(key, queried);
      if !found {
        return None;
      }
      var before := Snapshot(live[key]);
      var row := live[key];
      var i := 0;
      while i < |fields|
        invariant 0 <= i <= |fields|
        invariant row == live[key] + Collected(fields[..i])
      {
        row := row[fields[i].0 := fields[i].1];
        assert fields[..i + 1][..i] == fields[..i];
        i := i + 1;
      }
      assert fields[..i] == fields;
      if !flushOk {
        Rollback();
        return None;
      }
      live := live[key := row];
      Flush();
      WriteAuditLog(Entry(actor, "update", key, Some(before), Some(Snapshot(row))));
      return Some(row);
    }

    method Delete(key: Key, actor: string, queried: bool) returns (deleted: bool)
      modifies this
      ensures Now() == Step(Looked(old(Now()), key, queried), Op.Delete(key, actor))
      ensures deleted == (key in Looked(old(Now()), key, queried).live)
    {
      var found := Get(key, queried);
      if !found {
        return false;
      }
      WriteAuditLog(Entry(actor, "delete", key, Some(Snapshot(live[key])), None));
      marked := marked + {key};
      return true;
    }

    /** The rows were just loaded, so no lookup queries; a property without an estimate is skipped. */
    method RefreshValues(estimates: seq<(Key, Option<Value>)>, actor: string)
      modifies this
      ensures Now() == Run(old(Now()), RefreshOps(estimates, actor))
    {
      ghost var start := Now();
      for i := 0 to |estimates|
        invariant Now() == Run(start, RefreshOps(estimates[..i], actor))
      {
        hide Step, Run;
        assert estimates[..i + 1][..i] == estimates[..i];
        var (key, price) := estimates[i];
        ghost var ops := RefreshOps(estimates[..i], actor);
        if price.Some? {
          OneField("current_value", price.value);
          var _ := Update(key, [("current_value", price.value)], actor, false, true);
          RunSnoc(start, ops, Op.Update(key, map["current_value" := price.value], actor, true));
        } else {
          assert ops + [] == ops;
        }
      }
      assert estimates[..|estimates|] == estimates;
    }
  }

  // ---------------------------------------------------------------- what the log misses

  /** The operation reaches an object that this session already deleted but has not flushed. */
  predicate Reuses(s: State, op: Op) {
    match op
    case Update(k, _, _, flushOk) => k in s.live && k in s.marked && flushOk
    case Delete(k, _) => k in s.live && k in s.marked
    case _ => false
  }

  predicate Discards(s: State, op: Op) {
    match op
    case Create(_, _, _, _, flushOk) => !flushOk
    case Update(k, _, _, flushOk) => k in s.live && !flushOk
    case Delete(_, _) => false
    case Autoflush => false
    case Commit(ok) => !ok
    case Rollback => true
  }

  /** Reuses counted over a run: those in the open unit of work, and those committed. */
  datatype Tally = Tally(open: set<Key>, lost: set<Key>, openReuse: bool, reused: bool)

  const NO_REUSE: Tally := Tally({}, {}, false, false)

  function Tallied(s: State, op: Op, t: Tally): Tally {
    if Discards(s, op) then t.(open := {}, openReuse := false)
    else if op.Commit? then Tally({}, t.lost + t.open, false, t.reused || t.openReuse)
    else if Reuses(s, op) then
      t.(open := if op.Update? then t.open + {op.key} else t.open, openReuse := true)
    else t
  }

  function TallyOf(s: State, ops: seq<Op>, t: Tally): Tally
    decreases |ops|
  {
    if ops == [] then t else TallyOf(Step(s, ops[0]), ops[1..], Tallied(s, ops[0], t))
  }

  /** `view` holds the snapshots of `rows`, and beside them exactly the keys `extra`. */
  ghost predicate Agrees(view: map<Key, Row>, rows: map<Key, Row>, extra: set<Key>) {
    && view.Keys == rows.Keys + extra
    && rows.Keys !! extra
    && forall k :: k in rows ==> view[k] == Snapshot(rows[k])
  }

  ghost predicate Known(s: State, keys: set<Key>) {
    forall k :: k in keys ==> k.id < NextId(s, k.kind)
  }

  /** Marked objects are live, every id in sight was issued, and misreported keys never come back. */
  ghost predicate Tidy(s: State, t: Tally) {
    && s.marked <= s.live.Keys
    && Known(s, s.rows.Keys) && Known(s, s.live.Keys) && Known(s, t.lost) && Known(s, t.open)
    && s.live.Keys !! t.lost && s.live.Keys !! t.open
  }

  ghost predicate Inv(s: State, t: Tally) {
    && Tidy(s, t)
    && Agrees(Replay(s.log), s.rows, t.lost)
    && Agrees(Replay(s.log + s.pending), s.live - s.marked, t.lost + t.open)
    && (Chained(s.log) <==> !t.reused)
    && (Chained(s.log + s.pending) <==> !t.reused && !t.openReuse)
  }

  lemma ReplaySnoc(log: seq<Entry>, e: Entry)
    ensures Replay(log + [e]) == Applied(Replay(log), e)
    ensures Chained(log + [e]) <==> Chained(log) && e.before == Lookup(Replay(log), e.key)
  {
    var longer := log + [e];
    assert longer[..|log|] == log;
    assert forall i :: 0 <= i < |log| ==> longer[i] == log[i] && longer[..i] == log[..i];
    if Chained(longer) {
      assert longer[|log|].before == Lookup(Replay(longer[..|log|]), e.key);
    }
  }

  lemma DiscardKeeps(s: State, t: Tally)
    requires Inv(s, t)
    ensures Inv(RolledBack(s), t.(open := {}, openReuse := false))
  {
    assert s.log + [] == s.log;
    assert s.rows - {} == s.rows;
    assert t.lost + {} == t.lost;
  }

  lemma CommitKeeps(s: State, t: Tally)
    requires Inv(s, t)
    ensures Inv(Committed(s), Tally({}, t.lost + t.open, false, t.reused || t.openReuse))
  {
    var c := Committed(s);
    assert c.log + [] == c.log;
    assert c.rows - {} == c.rows;
    assert t.lost + t.open + {} == t.lost + t.open;
  }

  lemma AgreesPut(view: map<Key, Row>, rows: map<Key, Row>, extra: set<Key>, k: Key, row: Row)
    requires Agrees(view, rows, extra) && k !in extra
    ensures Agrees(view[k := Snapshot(row)], rows[k := row], extra)
  {
  }

  lemma AgreesDrop(view: map<Key, Row>, rows: map<Key, Row>, extra: set<Key>, k: Key)
    requires Agrees(view, rows, extra) && k !in extra
    ensures Agrees(view - {k}, rows - {k}, extra)
  {
  }

  lemma AgreesLose(view: map<Key, Row>, rows: map<Key, Row>, extra: set<Key>, k: Key, row: Row)
    requires Agrees(view, rows, extra) && k !in rows
    ensures Agrees(view[k := row], rows, extra + {k})
  {
  }

  /** Appending one pending entry keeps the invariant when the entry fits the session's new view. */
  lemma PendingKeeps(s: State, t: Tally, s': State, t': Tally, e: Entry)
    requires Inv(s, t)
    requires s'.rows == s.rows && s'.log == s.log && s'.pending == s.pending + [e]
    requires t'.lost == t.lost && t'.reused == t.reused
    requires Tidy(s', t')
    requires Agrees(Applied(Replay(s.log + s.pending), e), s'.live - s'.marked, t'.lost + t'.open)
    requires t'.openReuse <==> t.openReuse || e.before != Lookup(Replay(s.log + s.pending), e.key)
    ensures Inv(s', t')
  {
    ReplaySnoc(s.log + s.pending, e);
    assert s'.log + s'.pending == (s.log + s.pending) + [e];
  }

  /** The session after a flush that stored `live`, with one more audit entry waiting. */
  function FlushedWith(s: State, live: map<Key, Row>, e: Entry): State {
    s.(live := live, marked := {}, pending := s.pending + [e])
  }

  lemma NothingToFlush(live: map<Key, Row>)
    ensures live - {} == live
  {
  }

  lemma FlushKeeps(s: State, t: Tally)
    requires Inv(s, t)
    ensures Inv(Flushed(s), t)
  {
    NothingToFlush(s.live - s.marked);
  }

  lemma TidyPut(s: State, t: Tally, k: Key, row: Row, e: Entry)
    requires Tidy(s, t) && k !in t.lost && k !in t.open && k.id < NextId(s, k.kind)
    ensures Tidy(FlushedWith(s, (s.live - s.marked)[k := row], e), t)
  {
  }

  lemma StoreKeeps(s: State, t: Tally, row: Row, e: Entry)
    requires Inv(s, t) && e.key !in t.lost && e.key !in t.open && e.key.id < NextId(s, e.key.kind)
    requires e.before == Lookup(Replay(s.log + s.pending), e.key) && e.after == Some(Snapshot(row))
    ensures Inv(FlushedWith(s, (s.live - s.marked)[e.key := row], e), t)
  {
    var s' := FlushedWith(s, (s.live - s.marked)[e.key := row], e);
    NothingToFlush(s'.live);
    TidyPut(s, t, e.key, row, e);
    AgreesPut(Replay(s.log + s.pending), s.live - s.marked, t.lost + t.open, e.key, row);
    PendingKeeps(s, t, s', t, e);
  }

  lemma IssueKeeps(s: State, t: Tally, kind: string)
    requires Inv(s, t)
    ensures Inv(s.(nextId := s.nextId[kind := NextId(s, kind) + 1]), t)
  {
  }

  lemma CreateKeeps(s: State, t: Tally, op: Op)
    requires Inv(s, t) && op.Create?
    ensures Inv(Step(s, op), Tallied(s, op, t))
  {
    hide Replay, Chained, Snapshot;
    var k := NewKey(s, op.kind);
    var u := s.(nextId := s.nextId[op.kind := k.id + 1]);
    IssueKeeps(s, t, op.kind);
    if op.flushOk {
      assert k !in s.live && k !in t.lost && k !in t.open;
      StoreKeeps(u, t, Stored(s, op), Entry(op.actor, "create", k, None, Some(Snapshot(Stored(s, op)))));
    } else {
      DiscardKeeps(u, t);
    }
  }

  lemma PutThenFlush(live: map<Key, Row>, marked: set<Key>, k: Key, row: Row)
    ensures k !in marked ==> live[k := row] - marked == (live - marked)[k := row]
    ensures k in marked ==> live[k := row] - marked == live - marked
  {
  }

  lemma LostUpdateKeeps(s: State, t: Tally, row: Row, e: Entry)
    requires Inv(s, t) && e.key in s.live && e.key in s.marked
    requires e.before.Some? && e.after == Some(row)
    ensures Inv(FlushedWith(s, s.live - s.marked, e), t.(open := t.open + {e.key}, openReuse := true))
  {
    hide Replay, Chained;
    var s' := FlushedWith(s, s.live - s.marked, e);
    var t' := t.(open := t.open + {e.key}, openReuse := true);
    NothingToFlush(s'.live);
    AgreesLose(Replay(s.log + s.pending), s.live - s.marked, t.lost + t.open, e.key, row);
    assert t'.lost + t'.open == t.lost + t.open + {e.key};
    PendingKeeps(s, t, s', t', e);
  }

  lemma UpdateKeeps(s: State, t: Tally, op: Op)
    requires Inv(s, t) && op.Update?
    ensures Inv(Step(s, op), Tallied(s, op, t))
  {
    hide Replay, Chained, Snapshot;
    if op.key in s.live {
      var row := Assigned(s, op);
      var e := Entry(op.actor, "update", op.key, Some(Snapshot(s.live[op.key])), Some(Snapshot(row)));
      PutThenFlush(s.live, s.marked, op.key, row);
      if !op.flushOk {
        DiscardKeeps(s, t);
      } else if op.key in s.marked {
        LostUpdateKeeps(s, t, Snapshot(row), e);
      } else {
        StoreKeeps(s, t, row, e);
      }
    }
  }

  lemma MarkOneMore(live: map<Key, Row>, marked: set<Key>, k: Key)
    ensures live - (marked + {k}) == live - marked - {k}
  {
  }

  lemma TidyMark(s: State, t: Tally, op: Op)
    requires Tidy(s, t) && op.Delete? && op.key in s.live
    ensures Tidy(Step(s, op), Tallied(s, op, t))
    ensures op.key !in t.lost && op.key !in t.open
  {
  }

  /** What the log last recorded for a live object: its snapshot, unless it is already marked. */
  lemma UnmarkedInView(s: State, t: Tally, k: Key)
    requires Inv(s, t) && k in s.live
    ensures Some(Snapshot(s.live[k])) != Lookup(Replay(s.log + s.pending), k) <==> k in s.marked
  {
    hide Replay, Chained, Snapshot;
  }

  lemma DeleteKeeps(s: State, t: Tally, op: Op)
    requires Inv(s, t) && op.Delete?
    ensures Inv(Step(s, op), Tallied(s, op, t))
  {
    var k := op.key;
    if k in s.live {
      var s', t' := Step(s, op), Tallied(s, op, t);
      TidyMark(s, t, op);
      UnmarkedInView(s, t, k);
      hide Replay, Chained, Snapshot, Agrees, Tidy;
      AgreesDrop(Replay(s.log + s.pending), s.live - s.marked, t.lost + t.open, k);
      MarkOneMore(s.live, s.marked, k);
      PendingKeeps(s, t, s', t', Entry(op.actor, "delete", k, Some(Snapshot(s.live[k])), None));
    }
  }

  lemma StepKeeps(s: State, t: Tally, op: Op)
    requires Inv(s, t)
    ensures Inv(Step(s, op), Tallied(s, op, t))
  {
    hide Inv;
    match op
    case Create(_, _, _, _, _) => CreateKeeps(s, t, op);
    case Update(_, _, _, _) => UpdateKeeps(s, t, op);
    case Delete(_, _) => DeleteKeeps(s, t, op);
    case Autoflush => FlushKeeps(s, t);
    case Commit(ok) => if ok { CommitKeeps(s, t); } else { DiscardKeeps(s, t); }
    case Rollback => DiscardKeeps(s, t);
  }

  lemma {:induction false} RunKeeps(s: State, t: Tally, ops: seq<Op>)
    requires Inv(s, t)
    ensures Inv(Run(s, ops), TallyOf(s, ops, t))
    decreases |ops|
  {
    if ops != [] {
      StepKeeps(s, t, ops[0]);
      RunKeeps(Step(s, ops[0]), Tallied(s, ops[0], t), ops[1..]);
    }
  }

  // ---------------------------------------------------------------- main results

  lemma AgreesExactly(view: map<Key, Row>, rows: map<Key, Row>, extra: set<Key>)
    requires Agrees(view, rows, extra)
    ensures view == Snapshots(rows) <==> extra == {}
  {
    assert Snapshots(rows).Keys == rows.Keys;
    if extra != {} {
      var k :| k in extra;
      assert k in view && k !in Snapshots(rows);
    }
  }

  /**
   For every run from the empty vault, wherever queries flush in between, replaying the
   committed log rebuilds every committed
   row's snapshot; beside them it shows exactly the entities whose committed update came after
   their unflushed delete.  So the rebuilt vault is the committed one iff there are none.
   */
  lemma ReplayRebuildsVault(ops: seq<Op>)
    ensures var s, lost := Run(EMPTY_VAULT, ops), TallyOf(EMPTY_VAULT, ops, NO_REUSE).lost;
      && Agrees(Replay(s.log), s.rows, lost)
      && (Replay(s.log) == Snapshots(s.rows) <==> lost == {})
  {
    RunKeeps(EMPTY_VAULT, NO_REUSE, ops);
    var s, lost := Run(EMPTY_VAULT, ops), TallyOf(EMPTY_VAULT, ops, NO_REUSE).lost;
    AgreesExactly(Replay(s.log), s.rows, lost);
  }

  /** The before/after chain of the committed log is unbroken iff no committed unit reused a deleted object. */
  lemma ChainIsUnbroken(ops: seq<Op>)
    ensures Chained(Run(EMPTY_VAULT, ops).log) <==> !TallyOf(EMPTY_VAULT, ops, NO_REUSE).reused
  {
    RunKeeps(EMPTY_VAULT, NO_REUSE, ops);
  }

  /** A concrete run in which the log disagrees with the vault: delete, then update, in one unit. */
  lemma ReplayCanDiffer()
    ensures var k := Key("account", 1);
      var ops := [Create("account", map[], map[], "owner", true), Commit(true),
                  Delete(k, "owner"), Update(k, map[], "owner", true), Commit(true)];
      k in Replay(Run(EMPTY_VAULT, ops).log) && k !in Run(EMPTY_VAULT, ops).rows
  {
    var k := Key("account", 1);
    var create, commit := Create("account", map[], map[], "owner", true), Commit(true);
    var delete, update := Delete(k, "owner"), Update(k, map[], "owner", true);
    var ops := [create, commit, delete, update, commit];
    var s1 := Step(EMPTY_VAULT, create);
    assert s1.live.Keys == {k} && s1.marked == {};
    var s2 := Step(s1, commit);
    assert s2.live.Keys == {k} && s2.marked == {};
    var s3 := Step(s2, delete);
    var s4 := Step(s3, update);
    var t := Tally({k}, {}, true, false);
    assert Tallied(s3, update, NO_REUSE) == t;
    assert ops[1..] == [commit, delete, update, commit];
    assert ops[1..][1..] == [delete, update, commit];
    assert ops[1..][1..][1..] == [update, commit];
    assert ops[1..][1..][1..][1..] == [commit];
    assert TallyOf(s4, [commit], t).lost == {k};
    assert TallyOf(s3, [update, commit], NO_REUSE).lost == {k};
    assert TallyOf(s2, [delete, update, commit], NO_REUSE).lost == {k};
    assert Tallied(s1, commit, NO_REUSE) == NO_REUSE && Tallied(EMPTY_VAULT, create, NO_REUSE) == NO_REUSE;
    assert TallyOf(s1, [commit, delete, update, commit], NO_REUSE).lost == {k};
    assert TallyOf(EMPTY_VAULT, ops, NO_REUSE).lost == {k};
    ReplayRebuildsVault(ops);
  }

  /** How the log shows a value: dates and decimals as the text they print as, the rest unchanged. */
  predicate ShownAs(v: Value, shown: Value) {
    if v.Printed? then shown == Text(v.s) else shown == v
  }

  /** Exactly the row's fields, each shown. */
  ghost predicate ImageOf(row: Row, image: Row) {
    image.Keys == row.Keys && forall f :: f in row ==> ShownAs(row[f], image[f])
  }

  lemma SnapshotIsImage(row: Row)
    ensures ImageOf(row, Snapshot(row))
  {
  }

  /**
   For every run, the replayed log holds for every committed row all its fields and no others, each as
   it prints; beside them it holds nothing, given that no update was lost.
   */
  lemma LogKeepsEveryField(ops: seq<Op>)
    ensures var s, view := Run(EMPTY_VAULT, ops), Replay(Run(EMPTY_VAULT, ops).log);
      && (forall k :: k in s.rows ==> k in view && ImageOf(s.rows[k], view[k]))
      && (TallyOf(EMPTY_VAULT, ops, NO_REUSE).lost == {} ==> view.Keys == s.rows.Keys)
  {
    ReplayRebuildsVault(ops);
    var s := Run(EMPTY_VAULT, ops);
    hide Run, Replay, TallyOf, Snapshot;
    forall k | k in s.rows
      ensures ImageOf(s.rows[k], Snapshot(s.rows[k]))
    {
      SnapshotIsImage(s.rows[k]);
    }
  }

  /** Values that print alike. */
  predicate PrintAlike(v: Value, w: Value) {
    || v == w
    || (v.Printed? && w == Text(v.s))
    || (w.Printed? && v == Text(w.s))
  }

  /** Rows with equal images in the log agree field by field, up to printing. */
  lemma EqualImagesAgree(row1: Row, row2: Row, image: Row)
    requires ImageOf(row1, image) && ImageOf(row2, image)
    ensures row1.Keys == row2.Keys && forall f :: f in row1 ==> PrintAlike(row1[f], row2[f])
  {
    assert forall f :: f in row1 <==> f in image.Keys;
    assert forall f :: f in row2 <==> f in image.Keys;
  }

  // ---------------------------------------------------------------- one operation, committed

  /** A session with no work of its own. */
  predicate Clean(s: State) {
    s.live == s.rows && s.marked == {} && s.pending == []
  }

  lemma RunCommitted(s: State, op: Op)
    ensures Run(s, [op, Commit(true)]) == Step(Step(s, op), Commit(true))
  {
    assert [op, Commit(true)][1..] == [Commit(true)] && [Commit(true)][1..] == [];
  }

  /** The committed log is one entry longer, by the given actor, with the given images. */
  ghost predicate Logged(s: State, t: State, actor: string, action: string, k: Key) {
    && |t.log| == |s.log| + 1 && s.log <= t.log
    && t.log[|s.log|].actor == actor && t.log[|s.log|].action == action && t.log[|s.log|].key == k
    && (t.log[|s.log|].before.Some? <==> k in s.rows)
    && (k in s.rows ==> ImageOf(s.rows[k], t.log[|s.log|].before.value))
    && (t.log[|s.log|].after.Some? <==> k in t.rows)
    && (k in t.rows ==> ImageOf(t.rows[k], t.log[|s.log|].after.value))
  }

  lemma CleanCommit(s: State, op: Op)
    requires Clean(s)
    ensures var u := Step(s, op); Step(u, Commit(true)).rows == u.live - u.marked
    ensures Step(Step(s, op), Commit(true)).log == Step(s, op).log + Step(s, op).pending
  {
  }

  /** A committed create adds one row: the given fields over the defaults, and its own new id. */
  lemma CreateCommitted(s: State, kind: string, data: Row, defaults: Row, actor: string)
    requires Clean(s) && NewKey(s, kind) !in s.rows
    ensures var k, t := NewKey(s, kind), Run(s, [Create(kind, data, defaults, actor, true), Commit(true)]);
      && t.rows.Keys == s.rows.Keys + {k} && (forall j :: j in s.rows ==> t.rows[j] == s.rows[j])
      && t.rows[k].Keys == data.Keys + defaults.Keys + {"id"}
      && t.rows[k]["id"] == Number(k.id)
      && (forall f :: f in data && f != "id" ==> t.rows[k][f] == data[f])
      && (forall f :: f in defaults && f !in data && f != "id" ==> t.rows[k][f] == defaults[f])
      && Logged(s, t, actor, "create", k)
      && NextId(t, kind) == k.id + 1
  {
    var op := Create(kind, data, defaults, actor, true);
    RunCommitted(s, op);
    CleanCommit(s, op);
    SnapshotIsImage(Stored(s, op));
    hide Run, Snapshot, ImageOf;
    NothingToFlush(s.live);
    NothingToFlush(Step(s, op).live);
    assert s.log + Step(s, op).pending == s.log + [Step(s, op).pending[0]];
  }

  /** A committed update changes one row: the assigned fields, and no other. */
  lemma UpdateCommitted(s: State, k: Key, fields: Row, actor: string)
    requires Clean(s) && k in s.rows
    ensures var t := Run(s, [Update(k, fields, actor, true), Commit(true)]);
      && t.rows.Keys == s.rows.Keys && (forall j :: j in s.rows && j != k ==> t.rows[j] == s.rows[j])
      && t.rows[k].Keys == s.rows[k].Keys + fields.Keys
      && (forall f :: f in fields ==> t.rows[k][f] == fields[f])
      && (forall f :: f in s.rows[k] && f !in fields ==> t.rows[k][f] == s.rows[k][f])
      && Logged(s, t, actor, "update", k)
  {
    var op := Update(k, fields, actor, true);
    RunCommitted(s, op);
    CleanCommit(s, op);
    SnapshotIsImage(s.rows[k]);
    SnapshotIsImage(Assigned(s, op));
    hide Run, Snapshot, ImageOf;
    NothingToFlush(s.live[k := Assigned(s, op)]);
    assert s.log + Step(s, op).pending == s.log + [Step(s, op).pending[0]];
  }

  /** A committed delete removes one row. */
  lemma DeleteCommitted(s: State, k: Key, actor: string)
    requires Clean(s) && k in s.rows
    ensures var t := Run(s, [Delete(k, actor), Commit(true)]);
      t.rows == s.rows - {k} && Logged(s, t, actor, "delete", k)
  {
    var op := Delete(k, actor);
    RunCommitted(s, op);
    CleanCommit(s, op);
    SnapshotIsImage(s.rows[k]);
    hide Run, Snapshot, ImageOf;
    assert Step(s, op).marked == {k};
    assert s.log + Step(s, op).pending == s.log + [Step(s, op).pending[0]];
  }

  /** The same operations with a flush between them leave an exact log: the update finds nothing. */
  lemma FlushInBetweenIsExact(s: State, k: Key, fields: Row, actor: string, flushOk: bool)
    requires k in s.live
    ensures var u := Step(Step(s, Delete(k, actor)), Autoflush);
      k !in u.live && Step(u, Update(k, fields, actor, flushOk)) == u && !Reuses(u, Update(k, fields, actor, flushOk))
  {
  }

  /** The committed log only ever grows at its end. */
  lemma {:induction false} LogGrows(s: State, ops: seq<Op>)
    ensures s.log <= Run(s, ops).log
    decreases |ops|
  {
    if ops != [] {
      LogGrows(Step(s, ops[0]), ops[1..]);
    }
  }

  /** Until a commit succeeds, nothing a session does reaches the committed rows or log. */
  lemma {:induction false} UncommittedLeavesNoTrace(s: State, ops: seq<Op>)
    requires forall i :: 0 <= i < |ops| ==> ops[i] != Commit(true)
    ensures Run(s, ops).rows == s.rows && Run(s, ops).log == s.log
    decreases |ops|
  {
    if ops != [] {
      UncommittedLeavesNoTrace(Step(s, ops[0]), ops[1..]);
    }
  }

  /** The log as it stands later still holds, as a prefix, the vault as it stood earlier. */
  lemma EarlierVaultIsRecoverable(earlier: seq<Op>, later: seq<Op>)
    requires TallyOf(EMPTY_VAULT, earlier, NO_REUSE).lost == {}
    ensures var past, now := Run(EMPTY_VAULT, earlier), Run(EMPTY_VAULT, earlier + later);
      |past.log| <= |now.log| && Replay(now.log[..|past.log|]) == Snapshots(past.rows)
  {
    RunAppend(EMPTY_VAULT, earlier, later);
    LogGrows(Run(EMPTY_VAULT, earlier), later);
    ReplayRebuildsVault(earlier);
    var past, now := Run(EMPTY_VAULT, earlier), Run(EMPTY_VAULT, earlier + later);
    assert now.log[..|past.log|] == past.log;
  }

  // ---------------------------------------------------------------- how the endpoints use it

  /** An endpoint's one unit of work: its operations, then one commit, which may fail. */
  datatype Request = Request(ops: seq<Op>, ok: bool)

  function Units(requests: seq<Request>): seq<Op> {
    if requests == [] then []
    else requests[0].ops + ([Commit(requests[0].ok)] + Units(requests[1..]))
  }

  predicate Targets(op: Op, k: Key) {
    (op.Update? || op.Delete?) && op.key == k
  }

  /** No commit of its own, and nothing asked of an object after its delete. */
  predicate KeepsApart(ops: seq<Op>) {
    && (forall i :: 0 <= i < |ops| ==> !ops[i].Commit?)
    && (forall i, j :: 0 <= i < j < |ops| && ops[i].Delete? ==> !Targets(ops[j], ops[i].key))
  }

  predicate AvoidsMarked(s: State, ops: seq<Op>) {
    forall i, k :: 0 <= i < |ops| && k in s.marked ==> !Targets(ops[i], k)
  }

  lemma AvoidsAfter(s: State, ops: seq<Op>)
    requires KeepsApart(ops) && AvoidsMarked(s, ops) && ops != []
    ensures KeepsApart(ops[1..]) && AvoidsMarked(Step(s, ops[0]), ops[1..])
    ensures Tallied(s, ops[0], NO_REUSE) == NO_REUSE
  {
    var s' := Step(s, ops[0]);
    assert forall k :: k in s'.marked ==> k in s.marked || (ops[0].Delete? && k == ops[0].key);
    assert !Reuses(s, ops[0]);
  }

  lemma {:induction false} UnitNeverReuses(s: State, ops: seq<Op>, rest: seq<Op>)
    requires KeepsApart(ops) && AvoidsMarked(s, ops)
    ensures TallyOf(s, ops + rest, NO_REUSE) == TallyOf(Run(s, ops), rest, NO_REUSE)
    decreases |ops|
  {
    if ops == [] {
      assert ops + rest == rest;
    } else {
      AvoidsAfter(s, ops);
      assert (ops + rest)[1..] == ops[1..] + rest;
      hide KeepsApart, AvoidsMarked, Step, Tallied;
      UnitNeverReuses(Step(s, ops[0]), ops[1..], rest);
    }
  }

  predicate AllKeepApart(requests: seq<Request>) {
    forall i :: 0 <= i < |requests| ==> KeepsApart(requests[i].ops)
  }

  lemma CommitClears(s: State, ok: bool, rest: seq<Op>)
    ensures Step(s, Commit(ok)).marked == {}
    ensures TallyOf(s, [Commit(ok)] + rest, NO_REUSE) == TallyOf(Step(s, Commit(ok)), rest, NO_REUSE)
  {
    assert ([Commit(ok)] + rest)[1..] == rest;
    assert Tallied(s, Commit(ok), NO_REUSE) == NO_REUSE;
  }

  lemma {:induction false} EndpointsNeverReuse(s: State, requests: seq<Request>)
    requires s.marked == {} && AllKeepApart(requests)
    ensures TallyOf(s, Units(requests), NO_REUSE) == NO_REUSE
    decreases |requests|
  {
    if requests != [] {
      var r := requests[0];
      var s1 := Run(s, r.ops);
      assert KeepsApart(r.ops) && AllKeepApart(requests[1..]);
      assert AvoidsMarked(s, r.ops);
      hide Run, Step, KeepsApart, TallyOf;
      UnitNeverReuses(s, r.ops, [Commit(r.ok)] + Units(requests[1..]));
      CommitClears(s1, r.ok, Units(requests[1..]));
      EndpointsNeverReuse(Step(s1, Commit(r.ok)), requests[1..]);
    }
  }

  /**
   So for every run of requests that ask nothing of an object after deleting it, log and vault agree
   and the chain is unbroken.
   */
  lemma {:induction false} EndpointRunsAreExact(requests: seq<Request>)
    requires AllKeepApart(requests)
    ensures var s := Run(EMPTY_VAULT, Units(requests));
      Replay(s.log) == Snapshots(s.rows) && Chained(s.log)
  {
    EndpointsNeverReuse(EMPTY_VAULT, requests);
    ReplayRebuildsVault(Units(requests));
    ChainIsUnbroken(Units(requests));
  }

  lemma {:induction false} RefreshOnlyUpdates(estimates: seq<(Key, Option<Value>)>, actor: string)
    ensures forall i :: 0 <= i < |RefreshOps(estimates, actor)| ==> RefreshOps(estimates, actor)[i].Update?
    decreases |estimates|
  {
    if estimates != [] {
      RefreshOnlyUpdates(estimates[..|estimates| - 1], actor);
    }
  }

  /** The endpoints that change one entity, and the refresh that updates many, are such requests. */
  lemma EndpointsKeepApart(op: Op, estimates: seq<(Key, Option<Value>)>, actor: string)
    requires !op.Commit?
    ensures KeepsApart([op]) && KeepsApart(RefreshOps(estimates, actor))
  {
    RefreshOnlyUpdates(estimates, actor);
  }

  /** Each property is named once. */
  predicate DistinctKeys(estimates: seq<(Key, Option<Value>)>) {
    forall i, j :: 0 <= i < j < |estimates| ==> estimates[i].0 != estimates[j].0
  }

  function Repriced(row: Row, price: Option<Value>): Row {
    match price
    case Some(v) => row["current_value" := v]
    case None => row
  }

  lemma LiveUpdate(s: State, k: Key, price: Value, actor: string)
    requires s.marked == {} && k in s.live
    ensures var t := Step(s, Update(k, map["current_value" := price], actor, true));
      t.marked == {} && t.live == s.live[k := Repriced(s.live[k], Some(price))]
  {
    NothingToFlush(s.live[k := s.live[k] + map["current_value" := price]]);
    assert s.live[k] + map["current_value" := price] == s.live[k]["current_value" := price];
  }

  /** The refreshed part of the vault, and the rest as it was. */
  ghost predicate RefreshedFrom(s: State, t: State, estimates: seq<(Key, Option<Value>)>) {
    && t.marked == {} && t.live.Keys == s.live.Keys
    && (forall i :: 0 <= i < |estimates| && estimates[i].0 in s.live ==>
          t.live[estimates[i].0] == Repriced(s.live[estimates[i].0], estimates[i].1))
    && (forall k :: k in s.live && (forall i :: 0 <= i < |estimates| ==> estimates[i].0 != k) ==>
          t.live[k] == s.live[k])
  }

  lemma RefreshedSnoc(s: State, u: State, t: State, init: seq<(Key, Option<Value>)>, key: Key, price: Option<Value>)
    requires RefreshedFrom(s, u, init) && key in s.live
    requires forall i :: 0 <= i < |init| ==> init[i].0 != key
    requires t.marked == {} && t.live == u.live[key := Repriced(u.live[key], price)]
    ensures RefreshedFrom(s, t, init + [(key, price)])
  {
    hide Repriced;
    var all := init + [(key, price)];
    assert all[|init|] == (key, price);
    assert forall i :: 0 <= i < |init| ==> all[i] == init[i];
  }

  /** A refresh sets the value of exactly the properties with an estimate, and no other field. */
  lemma {:induction false} RefreshSetsValues(s: State, estimates: seq<(Key, Option<Value>)>, actor: string)
    requires s.marked == {} && DistinctKeys(estimates)
    requires forall i :: 0 <= i < |estimates| ==> estimates[i].0 in s.live
    ensures RefreshedFrom(s, Run(s, RefreshOps(estimates, actor)), estimates)
    decreases |estimates|
  {
    if estimates != [] {
      var n := |estimates| - 1;
      var (key, price) := estimates[n];
      var init := estimates[..n];
      var ops := RefreshOps(init, actor);
      assert estimates == init + [(key, price)];
      RefreshSetsValues(s, init, actor);
      var u := Run(s, ops);
      assert u.marked == {} && key in u.live;
      hide Run, Step, RefreshedFrom;
      if price.Some? {
        RunSnoc(s, ops, Update(key, map["current_value" := price.value], actor, true));
        LiveUpdate(u, key, price.value, actor);
      } else {
        assert ops + [] == ops && u.live == u.live[key := Repriced(u.live[key], price)];
      }
      RefreshedSnoc(s, u, Run(s, RefreshOps(estimates, actor)), init, key, price);
    }
  }
}
