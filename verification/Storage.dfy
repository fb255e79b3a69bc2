/** The in-memory record store and its transactions (src/RuntimeStorage.ts,
    `makeInMemoryRuntimeStorageService`). Programs are what a caller may run against the
    store: operations that depend on everything read so far, branching, failure, recovery and
    nested transactions. Outside writes during a transaction are not part of this model. */
module Storage {
  import opened Wrappers
  import opened OrderedMap
  import opened Paths
  import opened Records
  import opened Patches

  type Rows = Table<Record>

  datatype Error = DuplicateRecord(id: string) | ReadonlyRecord(id: string) | Raised(reason: string)

  datatype Op =
    | CreateOp(record: Record)
    | ReadOp(query: Query)
    | UpsertOp(record: Record)
    | UpdateOp(query: Query, patch: Patch)
    | DeleteOp(query: Query)

  datatype Reply =
    | Done
    | Refused(error: Error)
    | Selected(rows: seq<Record>)
    | Updated(matched: nat, updated: nat)
    | Deleted(deleted: nat)

  datatype Event = Event(op: Op, reply: Reply)

  /** Every key is the id of its row, and no key is bound twice. */
  ghost predicate Keyed(t: Rows) {
    Distinct(t) && forall i | 0 <= i < |t| :: t[i].key == t[i].value.id
  }

  predicate Protected(t: Rows, id: string) {
    Get(t, id).Some? && IsReadonly(Get(t, id).value)
  }

  /** Row `r` after an update that selected `rows`. */
  function Rewritten(r: Record, rows: seq<Record>, patch: Patch): Record {
    if r in rows && !IsReadonly(r) then ApplyPatch(r, patch) else r
  }

  /** The table after an update: every binding keeps its key and its position. */
  function RewriteRows(t: Rows, rows: seq<Record>, patch: Patch): (u: Rows)
    ensures |u| == |t|
    ensures forall i | 0 <= i < |t| :: u[i] == Binding(t[i].key, Rewritten(t[i].value, rows, patch))
  {
    seq(|t|, i requires 0 <= i < |t| => Binding(t[i].key, Rewritten(t[i].value, rows, patch)))
  }

  predicate Removable(r: Record, rows: seq<Record>, includeReadonly: bool) {
    r in rows && (includeReadonly || !IsReadonly(r))
  }

  /** The table after a delete: the other bindings keep their order. */
  function RemoveRows(t: Rows, rows: seq<Record>, includeReadonly: bool): (u: Rows)
    ensures |u| <= |t|
  {
    if t == [] then []
    else (if Removable(t[0].value, rows, includeReadonly) then [] else [t[0]])
         + RemoveRows(t[1..], rows, includeReadonly)
  }

  function Writable(rows: seq<Record>): nat {
    if rows == [] then 0 else Writable(rows[..|rows| - 1]) + if IsReadonly(rows[|rows| - 1]) then 0 else 1
  }

  /** What one operation does to the table and what it answers. */
  function Perform(collate: Collation, t: Rows, op: Op): (Rows, Reply) {
    match op
    case CreateOp(r) => if Has(t, r.id) then (t, Refused(DuplicateRecord(r.id))) else (Set(t, r.id, r), Done)
    case ReadOp(q) => (t, Selected(Select(collate, Values(t), q)))
    case UpsertOp(r) => if Protected(t, r.id) then (t, Refused(ReadonlyRecord(r.id))) else (Set(t, r.id, r), Done)
    case UpdateOp(q, patch) =>
      var rows := Select(collate, Values(t), q);
      (RewriteRows(t, rows, patch), Updated(|rows|, Writable(rows)))
    case DeleteOp(q) =>
      var u := RemoveRows(t, Select(collate, Values(t), q), IncludesReadonlyTrue(q.filter));
      (u, Deleted(|t| - |u|))
  }

  // ---- programs ----

  type Transcript = seq<Event>

  /** A program; every choice may depend on the replies so far. */
  datatype Program =
    | Skip
    | Fail(error: Error)
    | Call(op: Transcript -> Op)
    | Seq(first: Program, second: Program)
    | Choose(test: Transcript -> bool, yes: Program, no: Program)
    | Catch(body: Program, handler: Program)
    | Transaction(body: Program)

  datatype Exit = Success | Failure(error: Error)

  datatype Outcome = Outcome(exit: Exit, log: Transcript, table: Rows)

  /** The meaning of a program. A transaction runs its body on a copy of the table: a success
      makes the copy the table, a failure drops it. */
  function Execute(collate: Collation, p: Program, log: Transcript, t: Rows): Outcome {
    match p
    case Skip => Outcome(Success, log, t)
    case Fail(error) => Outcome(Failure(error), log, t)
    case Call(op) =>
      var (u, reply) := Perform(collate, t, op(log));
      Outcome(if reply.Refused? then Failure(reply.error) else Success, log + [Event(op(log), reply)], u)
    case Seq(first, second) =>
      var o := Execute(collate, first, log, t);
      if o.exit.Failure? then o else Execute(collate, second, o.log, o.table)
    case Choose(test, yes, no) => if test(log) then Execute(collate, yes, log, t) else Execute(collate, no, log, t)
    case Catch(body, handler) =>
      var o := Execute(collate, body, log, t);
      if o.exit.Success? then o else Execute(collate, handler, o.log, o.table)
    case Transaction(body) =>
      var o := Execute(collate, body, log, t);
      if o.exit.Success? then o else Outcome(o.exit, o.log, t)
  }

  // ---- tables stay keyed ----

  /** A stored row is bound under its own id. */
  lemma StandsByKey(t: Rows, r: Record)
    requires Keyed(t)
    ensures r in Values(t) <==> Binding(r.id, r) in t
  {
    if r in Values(t) {
      var i :| 0 <= i < |t| && Values(t)[i] == r;
      assert t[i] == Binding(r.id, r);
    }
    if Binding(r.id, r) in t {
      var i :| 0 <= i < |t| && t[i] == Binding(r.id, r);
      assert Values(t)[i] == r;
    }
  }

  lemma TailIsKeyed(t: Rows)
    requires Keyed(t) && t != []
    ensures Keyed(t[1..])
    ensures t[0].key == t[0].value.id
    ensures forall b | b in t[1..] :: b.key != t[0].key && b.value != t[0].value
  {
    forall b | b in t[1..]
      ensures b.key != t[0].key && b.value != t[0].value
    {
      var i :| 0 <= i < |t[1..]| && t[1..][i] == b;
      assert t[i + 1] == b;
    }
  }

  lemma SetKeepsKeyed(t: Rows, r: Record)
    requires Keyed(t)
    ensures Keyed(Set(t, r.id, r))
  {
    if Has(t, r.id) {
      var i :| 0 <= i < |t| && t[i].key == r.id;
      SetPresent(t, i, r);
    } else {
      SetAbsent(t, r.id, r);
    }
  }

  lemma RewriteKeepsKeyed(t: Rows, rows: seq<Record>, patch: Patch)
    requires Keyed(t)
    ensures Keyed(RewriteRows(t, rows, patch))
  {
  }

  lemma {:induction false} RemoveMembers(t: Rows, rows: seq<Record>, includeReadonly: bool)
    ensures forall b :: b in RemoveRows(t, rows, includeReadonly) <==>
                        b in t && !Removable(b.value, rows, includeReadonly)
  {
    if t != [] {
      RemoveMembers(t[1..], rows, includeReadonly);
      assert t == [t[0]] + t[1..];
    }
  }

  /** The rows that stay keep their order. */
  lemma {:induction false} RemoveInOrder(t: Rows, u: Rows, rows: seq<Record>, includeReadonly: bool)
    ensures RemoveRows(t + u, rows, includeReadonly) ==
            RemoveRows(t, rows, includeReadonly) + RemoveRows(u, rows, includeReadonly)
    ensures forall b :: RemoveRows([b], rows, includeReadonly) ==
                        if Removable(b.value, rows, includeReadonly) then [] else [b]
  {
    if t == [] {
      assert t + u == u;
    } else {
      RemoveInOrder(t[1..], u, rows, includeReadonly);
      HeadOfConcat(t, u);
      ConcatTwice(if Removable(t[0].value, rows, includeReadonly) then [] else [t[0]],
                  RemoveRows(t[1..], rows, includeReadonly), RemoveRows(u, rows, includeReadonly));
    }
  }

  lemma {:induction false} RemoveKeepsKeyed(t: Rows, rows: seq<Record>, includeReadonly: bool)
    requires Keyed(t)
    ensures Keyed(RemoveRows(t, rows, includeReadonly))
  {
    if t != [] {
      TailIsKeyed(t);
      RemoveKeepsKeyed(t[1..], rows, includeReadonly);
      RemoveMembers(t[1..], rows, includeReadonly);
      ConsKeepsKeyed(t[0], RemoveRows(t[1..], rows, includeReadonly));
    }
  }

  lemma ConsKeepsKeyed(b: Binding<Record>, t: Rows)
    requires Keyed(t) && b.key == b.value.id && forall c | c in t :: c.key != b.key
    ensures Keyed([b] + t) && [] + t == t
  {
  }

  lemma PerformKeepsKeyed(collate: Collation, t: Rows, op: Op)
    requires Keyed(t)
    ensures Keyed(Perform(collate, t, op).0)
  {
    match op
    case CreateOp(r) => SetKeepsKeyed(t, r);
    case ReadOp(_) =>
    case UpsertOp(r) => SetKeepsKeyed(t, r);
    case UpdateOp(q, patch) => RewriteKeepsKeyed(t, Select(collate, Values(t), q), patch);
    case DeleteOp(q) =>
      RemoveKeepsKeyed(t, Select(collate, Values(t), q), IncludesReadonlyTrue(q.filter));
  }

  /** After any program the key of every row is its id, and no id occurs twice. */
  lemma {:induction false} ProgramsKeepKeyed(collate: Collation, p: Program, log: Transcript, t: Rows)
    requires Keyed(t)
    ensures Keyed(Execute(collate, p, log, t).table)
  {
    match p
    case Skip =>
    case Fail(_) =>
    case Call(op) => PerformKeepsKeyed(collate, t, op(log));
    case Seq(first, second) =>
      ProgramsKeepKeyed(collate, first, log, t);
      var o := Execute(collate, first, log, t);
      ProgramsKeepKeyed(collate, second, o.log, o.table);
    case Choose(_, yes, no) =>
      ProgramsKeepKeyed(collate, yes, log, t);
      ProgramsKeepKeyed(collate, no, log, t);
    case Catch(body, handler) =>
      ProgramsKeepKeyed(collate, body, log, t);
      var o := Execute(collate, body, log, t);
      ProgramsKeepKeyed(collate, handler, o.log, o.table);
    case Transaction(body) => ProgramsKeepKeyed(collate, body, log, t);
  }

  // ---- transactions ----

  /** The program with every transaction replaced by its body. */
  function Inline(p: Program): Program {
    match p
    case Seq(first, second) => Seq(Inline(first), Inline(second))
    case Choose(test, yes, no) => Choose(test, Inline(yes), Inline(no))
    case Catch(body, handler) => Catch(Inline(body), Inline(handler))
    case Transaction(body) => Inline(body)
    case _ => p
  }

  /** No transaction fails along this execution, at any depth. */
  predicate NothingRolledBack(collate: Collation, p: Program, log: Transcript, t: Rows) {
    match p
    case Seq(first, second) =>
      var o := Execute(collate, first, log, t);
      && NothingRolledBack(collate, first, log, t)
      && (o.exit.Success? ==> NothingRolledBack(collate, second, o.log, o.table))
    case Choose(test, yes, no) =>
      if test(log) then NothingRolledBack(collate, yes, log, t) else NothingRolledBack(collate, no, log, t)
    case Catch(body, handler) =>
      var o := Execute(collate, body, log, t);
      && NothingRolledBack(collate, body, log, t)
      && (o.exit.Failure? ==> NothingRolledBack(collate, handler, o.log, o.table))
    case Transaction(body) =>
      NothingRolledBack(collate, body, log, t) && Execute(collate, body, log, t).exit.Success?
    case _ => true
  }

  /** Successful transactions, nested to any depth, leave exactly the exit, the replies and
      the table, with its order, that the same operations leave when run directly. */
  lemma {:induction false} CommittedIsDirect(collate: Collation, p: Program, log: Transcript, t: Rows)
    requires NothingRolledBack(collate, p, log, t)
    ensures Execute(collate, p, log, t) == Execute(collate, Inline(p), log, t)
  {
    match p
    case Seq(first, second) =>
      CommittedIsDirect(collate, first, log, t);
      var o := Execute(collate, first, log, t);
      if o.exit.Success? {
        CommittedIsDirect(collate, second, o.log, o.table);
      }
    case Choose(test, yes, no) =>
      if test(log) {
        CommittedIsDirect(collate, yes, log, t);
      } else {
        CommittedIsDirect(collate, no, log, t);
      }
    case Catch(body, handler) =>
      CommittedIsDirect(collate, body, log, t);
      var o := Execute(collate, body, log, t);
      if o.exit.Failure? {
        CommittedIsDirect(collate, handler, o.log, o.table);
      }
    case Transaction(body) => CommittedIsDirect(collate, body, log, t);
    case _ =>
  }

  /** The operations of an execution that last: those of a transaction that failed, at any
      depth, do not. */
  function Committed(collate: Collation, p: Program, log: Transcript, t: Rows): seq<Op>
    decreases p
  {
    match p
    case Call(op) => [op(log)]
    case Seq(first, second) =>
      var o := Execute(collate, first, log, t);
      Committed(collate, first, log, t) + if o.exit.Success? then Committed(collate, second, o.log, o.table) else []
    case Choose(test, yes, no) =>
      if test(log) then Committed(collate, yes, log, t) else Committed(collate, no, log, t)
    case Catch(body, handler) =>
      var o := Execute(collate, body, log, t);
      Committed(collate, body, log, t) + if o.exit.Failure? then Committed(collate, handler, o.log, o.table) else []
    case Transaction(body) =>
      if Execute(collate, body, log, t).exit.Success? then Committed(collate, body, log, t) else []
    case _ => []
  }

  /** The table after plain operations, one after another. */
  function Replay(collate: Collation, t: Rows, ops: seq<Op>): Rows
    decreases |ops|
  {
    if ops == [] then t else Replay(collate, Perform(collate, t, ops[0]).0, ops[1..])
  }

  lemma {:induction false} ReplayConcat(collate: Collation, t: Rows, a: seq<Op>, b: seq<Op>)
    ensures Replay(collate, t, a + b) == Replay(collate, Replay(collate, t, a), b)
    decreases |a|
  {
    if a == [] {
      assert a + b == b;
    } else {
      var u := Perform(collate, t, a[0]).0;
      ReplayConcat(collate, u, a[1..], b);
      HeadOfConcat(a, b);
    }
  }

  /** Whatever succeeds, fails, is recovered from or is rolled back along a program, its table
      is the starting table with the lasting operations performed on it, in order. */
  lemma {:induction false} TableIsReplayOfCommitted(collate: Collation, p: Program, log: Transcript, t: Rows)
    ensures Execute(collate, p, log, t).table == Replay(collate, t, Committed(collate, p, log, t))
    decreases p
  {
    match p
    case Skip =>
    case Fail(_) =>
    case Call(op) => OneOperation(collate, t, op(log));
    case Seq(first, second) =>
      var o := Execute(collate, first, log, t);
      TableIsReplayOfCommitted(collate, first, log, t);
      if o.exit.Success? {
        TableIsReplayOfCommitted(collate, second, o.log, o.table);
        ReplayConcat(collate, t, Committed(collate, first, log, t), Committed(collate, second, o.log, o.table));
      } else {
        NothingMore(Committed(collate, first, log, t));
      }
    case Choose(test, yes, no) =>
      if test(log) {
        TableIsReplayOfCommitted(collate, yes, log, t);
      } else {
        TableIsReplayOfCommitted(collate, no, log, t);
      }
    case Catch(body, handler) =>
      var o := Execute(collate, body, log, t);
      TableIsReplayOfCommitted(collate, body, log, t);
      if o.exit.Failure? {
        TableIsReplayOfCommitted(collate, handler, o.log, o.table);
        ReplayConcat(collate, t, Committed(collate, body, log, t), Committed(collate, handler, o.log, o.table));
      } else {
        NothingMore(Committed(collate, body, log, t));
      }
    case Transaction(body) => TableIsReplayOfCommitted(collate, body, log, t);
  }

  lemma OneOperation(collate: Collation, t: Rows, op: Op)
    ensures Replay(collate, t, [op]) == Perform(collate, t, op).0
  {
    assert [op][1..] == [];
  }

  lemma NothingMore(ops: seq<Op>)
    ensures ops + [] == ops
  {
  }

  // ---- readonly rows ----

  predicate LiftsProtection(op: Op) {
    op.DeleteOp? && IncludesReadonlyTrue(op.query.filter)
  }

  ghost predicate Holds(t: Rows, r: Record) {
    Binding(r.id, r) in t
  }

  lemma PerformKeepsReadonly(collate: Collation, t: Rows, op: Op, r: Record)
    requires Keyed(t) && Holds(t, r) && IsReadonly(r) && !LiftsProtection(op)
    ensures Holds(Perform(collate, t, op).0, r)
  {
    var i :| 0 <= i < |t| && t[i] == Binding(r.id, r);
    GetAt(t, i);
    assert Has(t, r.id) by { assert t[i].key == r.id; }
    match op
    case CreateOp(w) => SetElsewhere(t, i, w);
    case ReadOp(_) =>
    case UpsertOp(w) => SetElsewhere(t, i, w);
    case UpdateOp(q, patch) => assert RewriteRows(t, Select(collate, Values(t), q), patch)[i] == t[i];
    case DeleteOp(q) => RemoveMembers(t, Select(collate, Values(t), q), false);
  }

  lemma SetElsewhere(t: Rows, i: nat, w: Record)
    requires Keyed(t) && i < |t|
    ensures w.id != t[i].key ==> t[i] in Set(t, w.id, w)
  {
    if w.id != t[i].key {
      if Has(t, w.id) {
        var j :| 0 <= j < |t| && t[j].key == w.id;
        SetPresent(t, j, w);
        assert t[j := Binding(w.id, w)][i] == t[i];
      } else {
        SetAbsent(t, w.id, w);
      }
    }
  }

  lemma {:induction false} LogGrows(collate: Collation, p: Program, log: Transcript, t: Rows)
    ensures log <= Execute(collate, p, log, t).log
  {
    match p
    case Seq(first, second) =>
      LogGrows(collate, first, log, t);
      var o := Execute(collate, first, log, t);
      LogGrows(collate, second, o.log, o.table);
    case Choose(_, yes, no) =>
      LogGrows(collate, yes, log, t);
      LogGrows(collate, no, log, t);
    case Catch(body, handler) =>
      LogGrows(collate, body, log, t);
      var o := Execute(collate, body, log, t);
      LogGrows(collate, handler, o.log, o.table);
    case Transaction(body) => LogGrows(collate, body, log, t);
    case _ =>
  }

  /** No operation recorded in the transcript mentions readonly = true in a delete. */
  predicate NeverLifts(log: Transcript) {
    forall e | e in log :: !LiftsProtection(e.op)
  }

  lemma PrefixNeverLifts(a: Transcript, b: Transcript)
    requires a <= b && NeverLifts(b)
    ensures NeverLifts(a)
  {
    forall e | e in a
      ensures !LiftsProtection(e.op)
    {
      assert b[..|a|] == a;
      assert e in b;
    }
  }

  /** A readonly row stays identical through any program, transactions included, until a
      delete whose predicate mentions readonly = true. */
  lemma {:induction false} ReadonlyRowsStand(collate: Collation, p: Program, log: Transcript, t: Rows, r: Record)
    requires Keyed(t) && Holds(t, r) && IsReadonly(r)
    requires NeverLifts(Execute(collate, p, log, t).log)
    ensures Holds(Execute(collate, p, log, t).table, r)
  {
    match p
    case Skip =>
    case Fail(_) =>
    case Call(op) =>
      var e := Event(op(log), Perform(collate, t, op(log)).1);
      assert e in Execute(collate, p, log, t).log;
      PerformKeepsReadonly(collate, t, op(log), r);
    case Seq(first, second) =>
      var o := Execute(collate, first, log, t);
      LogGrows(collate, second, o.log, o.table);
      PrefixNeverLifts(o.log, Execute(collate, p, log, t).log);
      ReadonlyRowsStand(collate, first, log, t, r);
      ProgramsKeepKeyed(collate, first, log, t);
      if o.exit.Success? {
        ReadonlyRowsStand(collate, second, o.log, o.table, r);
      }
    case Choose(test, yes, no) =>
      if test(log) {
        ReadonlyRowsStand(collate, yes, log, t, r);
      } else {
        ReadonlyRowsStand(collate, no, log, t, r);
      }
    case Catch(body, handler) =>
      var o := Execute(collate, body, log, t);
      LogGrows(collate, handler, o.log, o.table);
      PrefixNeverLifts(o.log, Execute(collate, p, log, t).log);
      ReadonlyRowsStand(collate, body, log, t, r);
      ProgramsKeepKeyed(collate, body, log, t);
      if o.exit.Failure? {
        ReadonlyRowsStand(collate, handler, o.log, o.table, r);
      }
    case Transaction(body) => ReadonlyRowsStand(collate, body, log, t, r);
  }

  /** A delete whose predicate pins readonly = true removes readonly rows only. */
  lemma PinnedDeleteRemovesReadonlyOnly(collate: Collation, t: Rows, q: Query, b: Binding<Record>)
    requires q.filter.Some? && Pins(q.filter.value)
    requires b in t && b !in Perform(collate, t, DeleteOp(q)).0
    ensures IsReadonly(b.value)
  {
    DeletedMatches(collate, t, q, b);
    PinnedMatchIsReadonly(b.value, q.filter.value);
  }

  /** What a delete removes matches its predicate. */
  lemma DeletedMatches(collate: Collation, t: Rows, q: Query, b: Binding<Record>)
    requires b in t && b !in Perform(collate, t, DeleteOp(q)).0
    ensures MatchesOptional(b.value, q.filter)
  {
    var rows := Select(collate, Values(t), q);
    RemoveMembers(t, rows, IncludesReadonlyTrue(q.filter));
    assert b.value in rows;
    SelectMembers(collate, Values(t), q);
  }

  /** A delete whose predicate mentions readonly = true and is free of `Or` removes readonly
      rows only. */
  lemma OrFreeLiftRemovesReadonlyOnly(collate: Collation, t: Rows, q: Query, b: Binding<Record>)
    requires IncludesReadonlyTrue(q.filter) && OrFree(q.filter.value)
    requires b in t && b !in Perform(collate, t, DeleteOp(q)).0
    ensures IsReadonly(b.value)
  {
    OrFreeMentionPins(q.filter.value);
    PinnedDeleteRemovesReadonlyOnly(collate, t, q, b);
  }

  // ---- writes ----

  /** A create is refused exactly on a bound id and an upsert exactly on a readonly row, and
      then nothing changes. Otherwise the row reads back under its id, every other id reads
      what it did, and the keys keep their order, a new one at the end. */
  lemma {:induction false} WriteChangesOneBinding(collate: Collation, t: Rows, op: Op, key: string)
    requires Keyed(t) && (op.CreateOp? || op.UpsertOp?)
    ensures var (u, reply) := Perform(collate, t, op); var id := op.record.id;
      && (reply.Refused? <==> if op.CreateOp? then Has(t, id) else Protected(t, id))
      && (reply.Refused? ==> u == t)
      && reply == (if !reply.Refused? then Done
                   else Refused(if op.CreateOp? then DuplicateRecord(id) else ReadonlyRecord(id)))
      && (!reply.Refused? ==> Get(u, key) == if key == id then Some(op.record) else Get(t, key))
      && (!reply.Refused? ==> KeysOf(u) == if Has(t, id) then KeysOf(t) else KeysOf(t) + [id])
  {
    GetAfterSet(t, op.record.id, op.record, key);
    KeysAfterSet(t, op.record.id, op.record);
  }

  /** A delete leaves exactly the rows it did not select, and the readonly ones among those it
      did, unless the test readonly = true occurs in its predicate. */
  lemma DeleteRemovesExactly(collate: Collation, t: Rows, q: Query, b: Binding<Record>)
    ensures var rows := Select(collate, Values(t), q);
      var lifts := q.filter.Some? && IsPart(Equals(Readonly, Bool(true)), q.filter.value);
      b in Perform(collate, t, DeleteOp(q)).0 <==>
      b in t && (b.value !in rows || (b.value.readonly == Some(true) && !lifts))
  {
    RemoveMembers(t, Select(collate, Values(t), q), IncludesReadonlyTrue(q.filter));
    if q.filter.Some? {
      MentionsIffPart(q.filter.value);
    }
  }

  /** An update rewrites in place: every binding keeps its key and its position, a selected row
      that is not readonly has the patch carried out, and every other row is as it was. */
  ghost predicate UpdatesRows(t: Rows, u: Rows, rows: seq<Record>, patch: Patch) {
    && |u| == |t|
    && forall i | 0 <= i < |t| ::
         && u[i].key == t[i].key
         && (if t[i].value in rows && t[i].value.readonly != Some(true)
             then CarriedOut(patch, t[i].value, u[i].value) else u[i].value == t[i].value)
  }

  lemma UpdateCarriesOut(collate: Collation, t: Rows, q: Query, patch: Patch)
    ensures UpdatesRows(t, Perform(collate, t, UpdateOp(q, patch)).0, Select(collate, Values(t), q), patch)
  {
    forall i | 0 <= i < |t|
      ensures CarriedOut(patch, t[i].value, ApplyPatch(t[i].value, patch))
    {
      PatchIsCarriedOut(t[i].value, patch);
    }
  }

  // ---- counts ----

  /** The positions of the rows an update selected and may change. */
  function Touched(t: Rows, rows: seq<Record>): set<int> {
    set i | 0 <= i < |t| && t[i].value in rows && !IsReadonly(t[i].value)
  }

  lemma {:induction false} WritableIsTouched(t: Rows, rows: seq<Record>)
    requires Keyed(t) && multiset(rows) <= multiset(Values(t))
    ensures Writable(rows) == |Touched(t, rows)|
  {
    if rows == [] {
      assert Touched(t, rows) == {};
    } else {
      var init, last := rows[..|rows| - 1], rows[|rows| - 1];
      assert rows == init + [last];
      LastIsNew(t, init, last);
      WritableIsTouched(t, init);
      InMultiset(last, rows, Values(t));
      TouchOneMore(t, init, last);
    }
  }

  lemma TouchOneMore(t: Rows, init: seq<Record>, last: Record)
    requires Keyed(t) && last in Values(t) && last !in init
    ensures |Touched(t, init + [last])| == |Touched(t, init)| + if IsReadonly(last) then 0 else 1
  {
    StandsByKey(t, last);
    var i :| 0 <= i < |t| && t[i] == Binding(last.id, last);
    var rows := init + [last];
    forall j | 0 <= j < |t|
      ensures t[j].value in rows <==> t[j].value in init || j == i
    {
      if t[j].value == last { assert t[j].key == t[i].key; }
    }
    if IsReadonly(last) {
      assert Touched(t, rows) == Touched(t, init);
    } else {
      assert Touched(t, rows) == Touched(t, init) + {i};
    }
  }

  lemma LastIsNew(t: Rows, init: seq<Record>, last: Record)
    requires Keyed(t) && multiset(init + [last]) <= multiset(Values(t))
    ensures last !in init && multiset(init) <= multiset(Values(t))
  {
    var all := multiset(init + [last]);
    assert all == multiset(init) + multiset{last};
    if last in init {
      assert all[last] >= 2;
      OncePerTable(t, last);
    }
  }

  lemma {:induction false} OncePerTable(t: Rows, r: Record)
    requires Keyed(t)
    ensures multiset(Values(t))[r] <= 1
  {
    if t != [] {
      TailIsKeyed(t);
      OncePerTable(t[1..], r);
      assert Values(t) == [t[0].value] + Values(t[1..]);
      if t[0].value == r {
        StandsByKey(t[1..], r);
        assert r !in Values(t[1..]);
      }
    }
  }

  /** The selected rows a delete may remove. */
  function Unprotected(rows: seq<Record>, includeReadonly: bool): nat {
    if includeReadonly then |rows| else Writable(rows)
  }

  /** Selecting one more stored row removes one more row, unless it is protected. */
  lemma {:induction false} RemoveOneFewer(t: Rows, rows: seq<Record>, r: Record, includeReadonly: bool)
    requires Keyed(t) && r !in rows
    ensures |RemoveRows(t, rows + [r], includeReadonly)| ==
            |RemoveRows(t, rows, includeReadonly)| -
            if r in Values(t) && (includeReadonly || !IsReadonly(r)) then 1 else 0
  {
    if t != [] {
      TailIsKeyed(t);
      RemoveOneFewer(t[1..], rows, r, includeReadonly);
      assert Values(t) == [t[0].value] + Values(t[1..]);
      StandsByKey(t[1..], r);
      RemovableOneMore(t[0].value, rows, r, includeReadonly);
    }
  }

  lemma RemovableOneMore(x: Record, rows: seq<Record>, r: Record, includeReadonly: bool)
    ensures Removable(x, rows + [r], includeReadonly) <==>
            Removable(x, rows, includeReadonly) || (x == r && (includeReadonly || !IsReadonly(r)))
  {
  }

  lemma {:induction false} RemovedIsUnprotected(t: Rows, rows: seq<Record>, includeReadonly: bool)
    requires Keyed(t) && multiset(rows) <= multiset(Values(t))
    ensures |t| - |RemoveRows(t, rows, includeReadonly)| == Unprotected(rows, includeReadonly)
  {
    if rows == [] {
      RemoveNone(t, includeReadonly);
    } else {
      var init, last := rows[..|rows| - 1], rows[|rows| - 1];
      assert rows == init + [last];
      LastIsNew(t, init, last);
      InMultiset(last, rows, Values(t));
      RemovedIsUnprotected(t, init, includeReadonly);
      RemoveOneFewer(t, init, last, includeReadonly);
    }
  }

  lemma {:induction false} RemoveNone(t: Rows, includeReadonly: bool)
    ensures RemoveRows(t, [], includeReadonly) == t
  {
    if t != [] {
      RemoveNone(t[1..], includeReadonly);
    }
  }

  /** The counts an update and a delete answer are the numbers of rows they rewrote and
      removed: an update's `matched` also counts the readonly rows it skipped, and a delete
      counts every selected row that is not protected. */
  lemma CountsAreExact(collate: Collation, t: Rows, q: Query, rows: seq<Record>)
    requires Keyed(t) && rows == Select(collate, Values(t), q)
    ensures forall patch :: Perform(collate, t, UpdateOp(q, patch)).1 == Updated(|rows|, |Touched(t, rows)|)
    ensures Perform(collate, t, DeleteOp(q)).1.deleted == |t| - |Perform(collate, t, DeleteOp(q)).0|
    ensures Perform(collate, t, DeleteOp(q)).1.deleted == Unprotected(rows, IncludesReadonlyTrue(q.filter))
  {
    SelectMembers(collate, Values(t), q);
    WritableIsTouched(t, rows);
    RemovedIsUnprotected(t, rows, IncludesReadonlyTrue(q.filter));
  }

  // ---- effects built early ----

  /** The effect `create` or `upsert` returns: its guard is decided when the effect is built,
      the write happens when it is run. */
  datatype Prepared = Refusal(error: Error) | Write(record: Record)

  function PrepareCreate(t: Rows, r: Record): Prepared {
    if Has(t, r.id) then Refusal(DuplicateRecord(r.id)) else Write(r)
  }

  function PrepareUpsert(t: Rows, r: Record): Prepared {
    if Protected(t, r.id) then Refusal(ReadonlyRecord(r.id)) else Write(r)
  }

  function RunPrepared(t: Rows, p: Prepared): (Rows, Reply) {
    match p
    case Refusal(error) => (t, Refused(error))
    case Write(r) => (Set(t, r.id, r), Done)
  }

  /** An effect built on table `t` and run on table `u` does what the operation does on `u`
      exactly when the guard decides the same on both. */
  lemma LateEffectsAreCurrentIff(collate: Collation, t: Rows, u: Rows, r: Record)
    ensures RunPrepared(u, PrepareCreate(t, r)) == Perform(collate, u, CreateOp(r)) <==>
            (Has(t, r.id) <==> Has(u, r.id))
    ensures RunPrepared(u, PrepareUpsert(t, r)) == Perform(collate, u, UpsertOp(r)) <==>
            (Protected(t, r.id) <==> Protected(u, r.id))
  {
  }

  /** An upsert built before its row became readonly still replaces the readonly row, unless
      it writes the very same row. */
  lemma LateUpsertReplacesReadonly(t: Rows, u: Rows, i: nat, r: Record)
    requires Keyed(u) && i < |u| && u[i].value.id == r.id && IsReadonly(u[i].value) && !Protected(t, r.id)
    ensures Holds(RunPrepared(u, PrepareUpsert(t, r)).0, u[i].value) <==> r == u[i].value
  {
    SetPresent(u, i, r);
    var v := RunPrepared(u, PrepareUpsert(t, r)).0;
    SetKeepsKeyed(u, r);
    assert v == u[i := Binding(r.id, r)] && v[i] == Binding(r.id, r);
  }
}
