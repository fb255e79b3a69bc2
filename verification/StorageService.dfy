/** The store as an object over one mutable map, with the loops of the source
    (src/RuntimeStorage.ts, `makeInMemoryRuntimeStorageService`), proved to do what the
    specification of each operation and of each program says. */
module StorageService {
  import opened OrderedMap
  import opened Records
  import opened Patches
  import opened Storage
  import opened SelectionLaws

  class MemoryStorage {
    const collate: Collation
    var records: Rows

    constructor (collate: Collation)
      ensures this.collate == collate && records == []
    {
      this.collate, records := collate, [];
    }

    /** A map with the bindings of another one. */
    constructor CopyOf(collate: Collation, source: Rows)
      requires Keyed(source)
      ensures this.collate == collate && records == source
    {
      this.collate, records := collate, [];
      new;
      Fill(source);
    }

    /** Set every binding of `source`, in order, in an empty map. */
    method Fill(source: Rows)
      requires Keyed(source) && records == []
      modifies this
      ensures records == source
    {
      for i := 0 to |source|
        invariant records == source[..i]
      {
        assert !Has(records, source[i].key);
        SetAbsent(records, source[i].key, source[i].value);
        records := Set(records, source[i].key, source[i].value);
      }
    }

    /** `create` up to the effect it returns: the guard is decided here. */
    method BuildCreate(record: Record) returns (effect: Prepared)
      ensures effect == PrepareCreate(records, record)
    {
      if Has(records, record.id) {
        return Refusal(DuplicateRecord(record.id));
      }
      return Write(record);
    }

    /** `upsert` up to the effect it returns. */
    method BuildUpsert(record: Record) returns (effect: Prepared)
      ensures effect == PrepareUpsert(records, record)
    {
      if Protected(records, record.id) {
        return Refusal(ReadonlyRecord(record.id));
      }
      return Write(record);
    }

    /** Running such an effect, on whatever the map holds by then. */
    method RunEffect(effect: Prepared) returns (reply: Reply)
      modifies this
      ensures (records, reply) == RunPrepared(old(records), effect)
    {
      match effect {
        case Refusal(error) => return Refused(error);
        case Write(record) =>
          records := Set(records, record.id, record);
          return Done;
      }
    }

    method Create(record: Record) returns (reply: Reply)
      modifies this
      ensures (records, reply) == Perform(collate, old(records), CreateOp(record))
    {
      var effect := BuildCreate(record);
      reply := RunEffect(effect);
    }

    method Read(query: Query) returns (rows: seq<Record>)
      ensures (records, Selected(rows)) == Perform(collate, records, ReadOp(query))
      ensures forall i, j | 0 <= i < j < |rows| :: InOrder(collate, Orders(query), rows[i], rows[j])
      ensures forall r | r in rows :: r in Values(records) && MatchesOptional(r, query.filter)
    {
      rows := Select(collate, Values(records), query);
      SelectMembers(collate, Values(records), query);
      forall i, j | 0 <= i < j < |rows|
        ensures InOrder(collate, Orders(query), rows[i], rows[j])
      {
        SelectIsOrdered(collate, Values(records), query, i, j);
      }
    }

    method Upsert(record: Record) returns (reply: Reply)
      modifies this
      ensures (records, reply) == Perform(collate, old(records), UpsertOp(record))
    {
      var effect := BuildUpsert(record);
      reply := RunEffect(effect);
    }

    method Update(query: Query, patch: Patch) returns (reply: Reply)
      requires Keyed(records)
      modifies this
      ensures (records, reply) == Perform(collate, old(records), UpdateOp(query, patch))
      ensures UpdatesRows(old(records), records, Select(collate, Values(old(records)), query), patch)
    {
      UpdateCarriesOut(collate, records, query, patch);
      var rows := Select(collate, Values(records), query);
      SelectMembers(collate, Values(records), query);
      var updated := PatchRows(rows, patch);
      return Updated(|rows|, updated);
    }

    /** The loop of `update`: readonly rows are matched but not written. */
    method PatchRows(rows: seq<Record>, patch: Patch) returns (updated: nat)
      requires Keyed(records) && forall r | r in rows :: r in Values(records)
      modifies this
      ensures records == RewriteRows(old(records), rows, patch) && updated == Writable(rows)
    {
      ghost var before := records;
      updated := 0;
      assert records == RewriteRows(before, [], patch);
      for k := 0 to |rows|
        invariant updated == Writable(rows[..k])
        invariant records == RewriteRows(before, rows[..k], patch)
      {
        var record := rows[k];
        assert rows[..k + 1] == rows[..k] + [record] && rows[..k + 1][..k] == rows[..k];
        RewriteOneMore(before, rows[..k], record, patch);
        if IsReadonly(record) {
          continue;
        }
        records := Set(records, record.id, ApplyPatch(record, patch));
        updated := updated + 1;
      }
      assert rows[..|rows|] == rows;
    }

    method Delete(query: Query) returns (reply: Reply)
      requires Keyed(records)
      modifies this
      ensures (records, reply) == Perform(collate, old(records), DeleteOp(query))
      ensures reply.deleted ==
              Unprotected(Select(collate, Values(old(records)), query), IncludesReadonlyTrue(query.filter))
    {
      DeleteCounts(collate, records, query);
      var rows := Select(collate, Values(records), query);
      var deleted := DeleteRows(rows, IncludesReadonlyTrue(query.filter));
      reply := Deleted(deleted);
    }

    /** The loop of `delete` over the selected rows. */
    method DeleteRows(rows: seq<Record>, includeReadonly: bool) returns (deleted: nat)
      requires Keyed(records) && forall r | r in rows :: r in Values(records)
      modifies this
      ensures records == RemoveRows(old(records), rows, includeReadonly)
      ensures deleted == |old(records)| - |records|
    {
      ghost var before := records;
      deleted := 0;
      RemoveNone(before, includeReadonly);
      for k := 0 to |rows|
        invariant records == RemoveRows(before, rows[..k], includeReadonly)
        invariant deleted == |before| - |records|
      {
        var record := rows[k];
        assert rows[..k + 1] == rows[..k] + [record];
        RemoveOneMore(before, rows[..k], record, includeReadonly);
        if IsReadonly(record) && !includeReadonly {
          continue;
        }
        if Has(records, record.id) {
          DeleteShrinks(records, record.id);
          records := OrderedMap.Delete(records, record.id);
          deleted := deleted + 1;
        }
      }
      assert rows[..|rows|] == rows;
    }

    method PerformOp(op: Op) returns (reply: Reply)
      requires Keyed(records)
      modifies this
      ensures (records, reply) == Perform(collate, old(records), op)
      ensures Keyed(records)
    {
      PerformKeepsKeyed(collate, records, op);
      match op
      case CreateOp(record) => reply := Create(record);
      case ReadOp(query) =>
        var rows := Read(query);
        reply := Selected(rows);
      case UpsertOp(record) => reply := Upsert(record);
      case UpdateOp(query, patch) => reply := Update(query, patch);
      case DeleteOp(query) => reply := Delete(query);
    }

    /** Run a program. A transaction runs on a second store over a copy of the map; on success
        the map is cleared and refilled from the copy, on failure the copy is dropped. */
    method Run(program: Program, log: Transcript) returns (exit: Exit, replies: Transcript)
      requires Keyed(records)
      modifies this
      ensures Outcome(exit, replies, records) == Execute(collate, program, log, old(records))
      ensures Keyed(records)
      decreases program, 0
    {
      ProgramsKeepKeyed(collate, program, log, records);
      match program
      case Skip => return Success, log;
      case Fail(error) => return Failure(error), log;
      case Call(op) =>
        var reply := PerformOp(op(log));
        return if reply.Refused? then Failure(reply.error) else Success, log + [Event(op(log), reply)];
      case Seq(first, second) =>
        exit, replies := Run(first, log);
        if exit.Success? {
          exit, replies := Run(second, replies);
        }
      case Choose(test, yes, no) =>
        if test(log) {
          exit, replies := Run(yes, log);
        } else {
          exit, replies := Run(no, log);
        }
      case Catch(body, handler) =>
        exit, replies := Run(body, log);
        if exit.Failure? {
          exit, replies := Run(handler, replies);
        }
      case Transaction(body) =>
        exit, replies := RunTransaction(body, log);
    }

    method RunTransaction(body: Program, log: Transcript) returns (exit: Exit, replies: Transcript)
      requires Keyed(records)
      modifies this
      ensures Outcome(exit, replies, records) == Execute(collate, Transaction(body), log, old(records))
      ensures exit.Failure? ==> records == old(records)
      ensures exit.Success? ==> records == Execute(collate, body, log, old(records)).table
      decreases body, 1
    {
      var tx := new MemoryStorage.CopyOf(collate, records);
      exit, replies := tx.Run(body, log);
      if exit.Success? {
        records := [];
        Fill(tx.records);
      }
    }
  }

  /** What a delete selects is stored, and how many of those rows it removes. */
  lemma DeleteCounts(collate: Collation, t: Rows, query: Query)
    requires Keyed(t)
    ensures var rows, lift := Select(collate, Values(t), query), IncludesReadonlyTrue(query.filter);
      (forall r | r in rows :: r in Values(t)) && |t| - |RemoveRows(t, rows, lift)| == Unprotected(rows, lift)
  {
    SelectMembers(collate, Values(t), query);
    RemovedIsUnprotected(t, Select(collate, Values(t), query), IncludesReadonlyTrue(query.filter));
  }

  lemma RewrittenOneMore(x: Record, rows: seq<Record>, r: Record, patch: Patch)
    ensures Rewritten(x, rows + [r], patch) ==
            if x == r && !IsReadonly(r) then ApplyPatch(r, patch) else Rewritten(x, rows, patch)
  {
  }

  /** One more row of the loop of `update`. */
  lemma RewriteOneMore(t: Rows, rows: seq<Record>, r: Record, patch: Patch)
    requires Keyed(t) && r in Values(t)
    ensures RewriteRows(t, rows + [r], patch) ==
            if IsReadonly(r) then RewriteRows(t, rows, patch)
            else Set(RewriteRows(t, rows, patch), r.id, ApplyPatch(r, patch))
  {
    StandsByKey(t, r);
    var i :| 0 <= i < |t| && t[i] == Binding(r.id, r);
    var u, v := RewriteRows(t, rows, patch), RewriteRows(t, rows + [r], patch);
    forall j | 0 <= j < |t|
      ensures v[j] == if j == i && !IsReadonly(r) then Binding(r.id, ApplyPatch(r, patch)) else u[j]
    {
      RewrittenAt(t, rows, r, patch, i, j);
    }
    if IsReadonly(r) {
      assert v == u;
    } else {
      RewriteKeepsKeyed(t, rows, patch);
      SetAt(u, i, r.id, ApplyPatch(r, patch));
      assert v == u[i := Binding(r.id, ApplyPatch(r, patch))];
    }
  }

  lemma RewrittenAt(t: Rows, rows: seq<Record>, r: Record, patch: Patch, i: nat, j: nat)
    requires Keyed(t) && i < |t| && j < |t| && t[i] == Binding(r.id, r)
    ensures RewriteRows(t, rows + [r], patch)[j] ==
            if j == i && !IsReadonly(r) then Binding(r.id, ApplyPatch(r, patch)) else RewriteRows(t, rows, patch)[j]
  {
    RewrittenOneMore(t[j].value, rows, r, patch);
    if j != i {
      assert t[j].key != t[i].key;
    }
  }

  lemma SetAt(u: Rows, i: nat, key: string, value: Record)
    requires i < |u| && Distinct(u) && u[i].key == key
    ensures Set(u, key, value) == u[i := Binding(key, value)]
  {
    SetPresent(u, i, value);
  }

  /** One more row of the loop of `delete`. */
  lemma {:induction false} RemoveOneMore(t: Rows, rows: seq<Record>, r: Record, includeReadonly: bool)
    requires Keyed(t)
    ensures var u := RemoveRows(t, rows, includeReadonly);
      RemoveRows(t, rows + [r], includeReadonly) ==
      if r in Values(t) && (includeReadonly || !IsReadonly(r)) && Has(u, r.id) then OrderedMap.Delete(u, r.id) else u
  {
    if t != [] {
      var rest := RemoveRows(t[1..], rows, includeReadonly);
      TailIsKeyed(t);
      RemoveOneMore(t[1..], rows, r, includeReadonly);
      RemoveMembers(t[1..], rows, includeReadonly);
      StandsByKey(t, r);
      StandsByKey(t[1..], r);
      assert t == [t[0]] + t[1..];
      if t[0].key == r.id {
        assert !Has(rest, r.id) by { assert forall b | b in rest :: b.key != r.id; }
        assert r !in Values(t[1..]);
        RemoveHead(t, rows, r, includeReadonly);
      } else {
        RemoveLater(t, rows, r, includeReadonly);
      }
    }
  }

  lemma RemoveLater(t: Rows, rows: seq<Record>, r: Record, includeReadonly: bool)
    requires t != [] && t[0].key != r.id && t[0].value != r
    requires r in Values(t) <==> r in Values(t[1..])
    requires var u := RemoveRows(t[1..], rows, includeReadonly);
      RemoveRows(t[1..], rows + [r], includeReadonly) ==
      if r in Values(t[1..]) && (includeReadonly || !IsReadonly(r)) && Has(u, r.id) then OrderedMap.Delete(u, r.id) else u
    ensures var u := RemoveRows(t, rows, includeReadonly);
      RemoveRows(t, rows + [r], includeReadonly) ==
      if r in Values(t) && (includeReadonly || !IsReadonly(r)) && Has(u, r.id) then OrderedMap.Delete(u, r.id) else u
  {
    SkipHead(t[0], RemoveRows(t[1..], rows, includeReadonly), r.id);
  }

  lemma RemoveHead(t: Rows, rows: seq<Record>, r: Record, includeReadonly: bool)
    requires Keyed(t) && t != [] && t[0].key == r.id
    requires !Has(RemoveRows(t[1..], rows, includeReadonly), r.id)
    requires RemoveRows(t[1..], rows + [r], includeReadonly) == RemoveRows(t[1..], rows, includeReadonly)
    requires r in Values(t) <==> t[0].value == r
    ensures var u := RemoveRows(t, rows, includeReadonly);
      RemoveRows(t, rows + [r], includeReadonly) ==
      if r in Values(t) && (includeReadonly || !IsReadonly(r)) && Has(u, r.id) then OrderedMap.Delete(u, r.id) else u
  {
    var rest := RemoveRows(t[1..], rows, includeReadonly);
    assert [] + rest == rest && ([t[0]] + rest)[1..] == rest && ([t[0]] + rest)[0].key == r.id;
  }

  lemma SkipHead(b: Binding<Record>, t: Rows, key: string)
    requires b.key != key
    ensures Has([b] + t, key) <==> Has(t, key)
    ensures OrderedMap.Delete([b] + t, key) == [b] + OrderedMap.Delete(t, key)
    ensures [] + t == t
  {
    assert ([b] + t)[1..] == t;
    HasTail([b] + t, key);
  }

  lemma {:induction false} DeleteShrinks(t: Rows, key: string)
    requires Has(t, key)
    ensures |OrderedMap.Delete(t, key)| == |t| - 1
  {
    if t[0].key != key {
      HasTail(t, key);
      DeleteShrinks(t[1..], key);
    }
  }
}
