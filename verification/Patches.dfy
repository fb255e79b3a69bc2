/** Patches of runtime records (src/Query.ts, `patchFromAssignments`, `Update`;
    src/RuntimeStorage.ts, `applyRuntimeRecordPatch`). */
module Patches {
  import opened Wrappers
  import opened Records

  /** The value an assignment carries: `undefined`, `null`, or a value. */
  datatype Change = Keep | Unset | Put(value: Value)

  datatype Assignment = Assignment(column: Column, change: Change)

  /** A patch object; an absent property reads as `undefined`. */
  type Patch = map<Column, Change>

  function ChangeOf(p: Patch, c: Column): Change {
    if c in p then p[c] else Keep
  }

  /** One column of a patched row: `null` unsets an optional column and is ignored on a
      required one, like `undefined`. */
  function NextCell(c: Column, cell: Option<Value>, change: Change): Option<Value> {
    match change
    case Keep => cell
    case Unset => if Required(c) then cell else None
    case Put(value) => Some(value)
  }

  function ApplyPatch(r: Record, p: Patch): Record {
    r.(cells := map c | c in COLUMNS && NextCell(c, Cell(r, c), ChangeOf(p, c)).Some? ::
                  NextCell(c, Cell(r, c), ChangeOf(p, c)).value)
  }

  /** The patch object built from a list of assignments: last write per property wins. */
  function PatchOf(assignments: seq<Assignment>): Patch {
    if assignments == [] then map[]
    else
      var last := assignments[|assignments| - 1];
      PatchOf(assignments[..|assignments| - 1])[last.column := last.change]
  }

  /** Assignment `i` is the last one to its property. */
  predicate LastWrite(assignments: seq<Assignment>, i: nat)
    requires i < |assignments|
  {
    forall j | i < j < |assignments| :: assignments[j].column != assignments[i].column
  }

  lemma {:induction false} LastWriteHolds(assignments: seq<Assignment>, i: nat)
    requires i < |assignments| && LastWrite(assignments, i)
    ensures var c := assignments[i].column;
      c in PatchOf(assignments) && PatchOf(assignments)[c] == assignments[i].change
  {
    var init := assignments[..|assignments| - 1];
    if i < |init| {
      assert assignments[|init|].column != assignments[i].column;
      assert forall j | i < j < |init| :: init[j].column == assignments[j].column;
      LastWriteHolds(init, i);
    }
  }

  lemma {:induction false} PropertyIsAssigned(assignments: seq<Assignment>, c: Column)
    requires c in PatchOf(assignments)
    ensures exists i :: 0 <= i < |assignments| && assignments[i].column == c
  {
    var init, last := assignments[..|assignments| - 1], assignments[|assignments| - 1];
    if last.column == c {
      assert assignments[|init|].column == c;
    } else {
      PropertyIsAssigned(init, c);
      var i :| 0 <= i < |init| && init[i].column == c;
      assert assignments[i].column == c;
    }
  }

  method PatchFromAssignments(assignments: seq<Assignment>) returns (patch: Patch)
    ensures patch == PatchOf(assignments)
    ensures forall i | 0 <= i < |assignments| && LastWrite(assignments, i) ::
      assignments[i].column in patch && patch[assignments[i].column] == assignments[i].change
    ensures forall c | c in patch :: exists i :: 0 <= i < |assignments| && assignments[i].column == c
  {
    forall i | 0 <= i < |assignments| && LastWrite(assignments, i)
      ensures assignments[i].column in PatchOf(assignments)
      ensures PatchOf(assignments)[assignments[i].column] == assignments[i].change
    {
      LastWriteHolds(assignments, i);
    }
    forall c | c in PatchOf(assignments)
      ensures exists i :: 0 <= i < |assignments| && assignments[i].column == c
    {
      PropertyIsAssigned(assignments, c);
    }
    patch := map[];
    for i := 0 to |assignments|
      invariant patch == PatchOf(assignments[..i])
    {
      assert assignments[..i + 1][..i] == assignments[..i];
      patch := patch[assignments[i].column := assignments[i].change];
    }
    assert assignments[..|assignments|] == assignments;
  }

  /** Each assignment applied as a patch of its own, in order. */
  function ApplyEach(r: Record, assignments: seq<Assignment>): Record {
    if assignments == [] then r
    else
      var last := assignments[|assignments| - 1];
      ApplyPatch(ApplyEach(r, assignments[..|assignments| - 1]), map[last.column := last.change])
  }

  /** `s` is `r` with the patch carried out: a value put into any column is there, `null` empties
      an optional column and leaves one of the five required ones, and a column the patch does
      not name, or names with `undefined`, is as it was. */
  ghost predicate CarriedOut(p: Patch, r: Record, s: Record) {
    && s.id == r.id && s.createdAt == r.createdAt && s.readonly == r.readonly
    && forall c :: ColumnCarriedOut(p, r, s, c)
  }

  ghost predicate ColumnCarriedOut(p: Patch, r: Record, s: Record, c: Column) {
    if c !in p || p[c] == Keep then Cell(s, c) == Cell(r, c)
    else if p[c] == Unset then
      if c in {Type, OccurredAt, RunId, ProcessType, ProcessId} then Cell(s, c) == Cell(r, c) else c !in s.cells
    else c in s.cells && Put(s.cells[c]) == p[c]
  }

  lemma PatchIsCarriedOut(r: Record, p: Patch)
    ensures CarriedOut(p, r, ApplyPatch(r, p))
  {
    forall c
      ensures ColumnCarriedOut(p, r, ApplyPatch(r, p), c)
    {
      PatchedCell(r, p, c);
    }
  }

  /** Nothing else is: one row alone has the patch carried out on `r`. */
  lemma CarriedOutOnce(p: Patch, r: Record, s: Record)
    requires CarriedOut(p, r, s)
    ensures s == ApplyPatch(r, p)
  {
    var t := ApplyPatch(r, p);
    PatchIsCarriedOut(r, p);
    forall c
      ensures Cell(s, c) == Cell(t, c)
    {
      assert ColumnCarriedOut(p, r, s, c) && ColumnCarriedOut(p, r, t, c);
    }
    SameCellsSameRecord(s, t);
  }

  /** A patch changes columns only: identity, creation time and protection stay. */
  lemma PatchKeepsIdentity(r: Record, p: Patch)
    ensures var q := ApplyPatch(r, p);
      q.id == r.id && q.createdAt == r.createdAt && q.readonly == r.readonly
    ensures forall c :: Cell(ApplyPatch(r, p), c) == NextCell(c, Cell(r, c), ChangeOf(p, c))
  {
    forall c
      ensures Cell(ApplyPatch(r, p), c) == NextCell(c, Cell(r, c), ChangeOf(p, c))
    {
      PatchedCell(r, p, c);
    }
  }

  lemma PatchedCell(r: Record, p: Patch, c: Column)
    ensures Cell(ApplyPatch(r, p), c) == NextCell(c, Cell(r, c), ChangeOf(p, c))
  {
    EveryColumn(c);
  }

  lemma SameCellsSameRecord(r: Record, s: Record)
    requires r.id == s.id && r.createdAt == s.createdAt && r.readonly == s.readonly
    requires forall c :: Cell(r, c) == Cell(s, c)
    ensures r == s
  {
    assert forall c :: c in r.cells <==> Cell(r, c).Some?;
    assert forall c :: c in s.cells <==> Cell(s, c).Some?;
    assert r.cells.Keys == s.cells.Keys;
    assert forall c | c in r.cells :: Some(r.cells[c]) == Cell(r, c) && Some(s.cells[c]) == Cell(s, c);
    assert r.cells == s.cells;
  }

  /** The change has an effect whatever the column holds. */
  predicate Effective(c: Column, change: Change) {
    change.Put? || (change.Unset? && !Required(c))
  }

  /** The last assignment to a column. */
  function LastTo(assignments: seq<Assignment>, c: Column): Change {
    ChangeOf(PatchOf(assignments), c)
  }

  /** The last assignment to a column that has an effect, `Keep` if there is none. */
  function LastEffective(assignments: seq<Assignment>, c: Column): Change {
    if assignments == [] then Keep
    else
      var last := assignments[|assignments| - 1];
      if last.column == c && Effective(c, last.change) then last.change
      else LastEffective(assignments[..|assignments| - 1], c)
  }

  lemma OneAssignment(r: Record, a: Assignment, c: Column)
    ensures Cell(ApplyPatch(r, map[a.column := a.change]), c) ==
            if a.column == c && Effective(c, a.change) then NextCell(c, None, a.change) else Cell(r, c)
  {
    PatchedCell(r, map[a.column := a.change], c);
  }

  lemma {:induction false} EachIdentity(r: Record, assignments: seq<Assignment>)
    ensures var s := ApplyEach(r, assignments);
      s.id == r.id && s.createdAt == r.createdAt && s.readonly == r.readonly
  {
    if assignments != [] {
      EachIdentity(r, assignments[..|assignments| - 1]);
    }
  }

  lemma {:induction false} LastEffectiveIsEffective(assignments: seq<Assignment>, c: Column)
    ensures LastEffective(assignments, c) == Keep || Effective(c, LastEffective(assignments, c))
  {
    if assignments != [] {
      LastEffectiveIsEffective(assignments[..|assignments| - 1], c);
    }
  }

  lemma {:induction false} EachCell(r: Record, assignments: seq<Assignment>, c: Column)
    ensures Cell(ApplyEach(r, assignments), c) == NextCell(c, Cell(r, c), LastEffective(assignments, c))
  {
    if assignments != [] {
      var init, last := assignments[..|assignments| - 1], assignments[|assignments| - 1];
      EachCell(r, init, c);
      OneAssignment(ApplyEach(r, init), last, c);
      EffectForgets(c, last.change, Cell(r, c));
    }
  }

  /** What an effective change leaves in a column does not depend on what was there. */
  lemma EffectForgets(c: Column, change: Change, cell: Option<Value>)
    ensures Effective(c, change) ==> NextCell(c, cell, change) == NextCell(c, None, change)
    ensures !Effective(c, change) ==> NextCell(c, cell, change) == cell
  {
  }

  /** An ineffective assignment never comes last on a column that an effective one wrote. */
  ghost predicate NothingSwallowed(assignments: seq<Assignment>) {
    forall c :: LastEffective(assignments, c) != Keep ==> Effective(c, LastTo(assignments, c))
  }

  lemma {:induction false} LastToIsLastEffective(assignments: seq<Assignment>, c: Column)
    requires Effective(c, LastTo(assignments, c))
    ensures LastEffective(assignments, c) == LastTo(assignments, c)
  {
    if assignments != [] && assignments[|assignments| - 1].column != c {
      LastToIsLastEffective(assignments[..|assignments| - 1], c);
    }
  }

  ghost predicate WellFormed(r: Record) {
    forall c | Required(c) :: c in r.cells
  }

  /** A well-formed row whose column `c` differs from `cell`. */
  lemma RowDifferingAt(c: Column, cell: Option<Value>) returns (r: Record)
    requires Required(c) ==> cell.Some?
    ensures WellFormed(r) && Cell(r, c) != cell
  {
    var other := if cell == Some(Text("")) then Text("x") else Text("");
    r := Record("row", 0, None, map[
      Type := Text(""), OccurredAt := Instant(0), RunId := Text(""),
      ProcessType := Text(""), ProcessId := Text("")][c := other]);
  }

  /** `Update(a1, …, an)` does on every row what the single assignments do one after another
      exactly when no `undefined`, and no `null` on a required column, is assigned last to a
      column that an earlier assignment changed. The column helpers `set` and `unset` never
      build such an assignment. */
  lemma {:induction false} UpdateIsSequential(assignments: seq<Assignment>)
    ensures (forall r | WellFormed(r) :: ApplyPatch(r, PatchOf(assignments)) == ApplyEach(r, assignments))
       <==> NothingSwallowed(assignments)
  {
    if NothingSwallowed(assignments) {
      forall r | WellFormed(r)
        ensures ApplyPatch(r, PatchOf(assignments)) == ApplyEach(r, assignments)
      {
        SequentialRow(r, assignments);
      }
    } else {
      var c :| LastEffective(assignments, c) != Keep && !Effective(c, LastTo(assignments, c));
      SwallowedWrite(assignments, c);
    }
  }

  lemma SequentialRow(r: Record, assignments: seq<Assignment>)
    requires NothingSwallowed(assignments)
    ensures ApplyPatch(r, PatchOf(assignments)) == ApplyEach(r, assignments)
  {
    var p, s := ApplyPatch(r, PatchOf(assignments)), ApplyEach(r, assignments);
    PatchKeepsIdentity(r, PatchOf(assignments));
    EachIdentity(r, assignments);
    forall c
      ensures Cell(p, c) == Cell(s, c)
    {
      EachCell(r, assignments, c);
      if Effective(c, LastTo(assignments, c)) {
        LastToIsLastEffective(assignments, c);
      } else {
        assert LastEffective(assignments, c) == Keep;
      }
    }
    SameCellsSameRecord(p, s);
  }

  lemma SwallowedWrite(assignments: seq<Assignment>, c: Column)
    requires LastEffective(assignments, c) != Keep && !Effective(c, LastTo(assignments, c))
    ensures exists r :: WellFormed(r) && ApplyPatch(r, PatchOf(assignments)) != ApplyEach(r, assignments)
  {
    var change := LastEffective(assignments, c);
    LastEffectiveIsEffective(assignments, c);
    var r := RowDifferingAt(c, NextCell(c, None, change));
    EachCell(r, assignments, c);
    PatchKeepsIdentity(r, PatchOf(assignments));
    assert Cell(ApplyEach(r, assignments), c) == NextCell(c, None, change) != Cell(r, c);
    assert Cell(ApplyPatch(r, PatchOf(assignments)), c) == Cell(r, c);
  }

  /** No `undefined` or ignored `null` of the second patch hides a change of the first. */
  ghost predicate NothingHidden(p: Patch, q: Patch) {
    forall c | c in q && Effective(c, ChangeOf(p, c)) :: Effective(c, q[c])
  }

  /** Two patches compose to their right-biased merge exactly when the second one hides no
      change of the first behind a value without effect. */
  lemma {:induction false} PatchesCompose(p: Patch, q: Patch)
    ensures (forall r | WellFormed(r) :: ApplyPatch(ApplyPatch(r, p), q) == ApplyPatch(r, p + q))
       <==> NothingHidden(p, q)
  {
    if NothingHidden(p, q) {
      forall r | WellFormed(r)
        ensures ApplyPatch(ApplyPatch(r, p), q) == ApplyPatch(r, p + q)
      {
        ComposedRow(r, p, q);
      }
    } else {
      var c :| c in q && Effective(c, ChangeOf(p, c)) && !Effective(c, q[c]);
      var r := HiddenChange(p, q, c);
    }
  }

  /** A column after two patches, and after their merge. */
  lemma ComposedCell(r: Record, p: Patch, q: Patch, c: Column)
    ensures Cell(ApplyPatch(ApplyPatch(r, p), q), c) ==
            NextCell(c, NextCell(c, Cell(r, c), ChangeOf(p, c)), ChangeOf(q, c))
    ensures Cell(ApplyPatch(r, p + q), c) ==
            NextCell(c, Cell(r, c), if c in q then q[c] else ChangeOf(p, c))
  {
    PatchedCell(r, p, c);
    PatchedCell(ApplyPatch(r, p), q, c);
    PatchedCell(r, p + q, c);
  }

  lemma ComposedRow(r: Record, p: Patch, q: Patch)
    requires NothingHidden(p, q)
    ensures ApplyPatch(ApplyPatch(r, p), q) == ApplyPatch(r, p + q)
  {
    var s, t := ApplyPatch(ApplyPatch(r, p), q), ApplyPatch(r, p + q);
    forall c
      ensures Cell(s, c) == Cell(t, c)
    {
      ComposedCell(r, p, q, c);
      EffectForgets(c, ChangeOf(p, c), Cell(r, c));
      EffectForgets(c, ChangeOf(q, c), Cell(r, c));
      EffectForgets(c, ChangeOf(q, c), NextCell(c, Cell(r, c), ChangeOf(p, c)));
    }
    SameCellsSameRecord(s, t);
  }

  /** A row on which the merge loses the first patch's change of `c`. */
  lemma HiddenChange(p: Patch, q: Patch, c: Column) returns (r: Record)
    requires c in q && Effective(c, ChangeOf(p, c)) && !Effective(c, q[c])
    ensures WellFormed(r) && ApplyPatch(ApplyPatch(r, p), q) != ApplyPatch(r, p + q)
  {
    r := RowDifferingAt(c, NextCell(c, None, p[c]));
    ComposedCell(r, p, q, c);
    EffectForgets(c, p[c], Cell(r, c));
    EffectForgets(c, q[c], NextCell(c, Cell(r, c), p[c]));
    EffectForgets(c, q[c], Cell(r, c));
  }
}
