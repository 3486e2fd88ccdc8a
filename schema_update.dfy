/**
 * `updatePaymentsTable`: the migration that brings the `payments` table to
 * its current columns. The table is its column names (as the information
 * schema reports them, in any case) and its rows, each a map from lower-case
 * column name to cell. Which statements throw is the parameter `failing`.
 */
module SchemaUpdate {
  import opened Text
  import opened Seqs

  datatype Cell = Null | Num(n: int) | Str(s: string)

  type Row = map<string, Cell>

  datatype Schema = Schema(columns: seq<string>, rows: seq<Row>)

  /** The statements the migration runs, any of which may throw. */
  datatype Step = ReadColumns | AddColumn(name: string) | BackfillAmounts

  /** The state after a run, and `success` of the object it returns. */
  datatype Run = Run(schema: Schema, success: bool)

  /** The columns the migration adds when absent, in the order it checks them. */
  const NewColumns: seq<string> := ["parcel_id", "amount_due", "amount_paid", "balance", "paid_date"]

  /** Each new column's DEFAULT: NULL for the id and the date, 0.00 for the amounts. */
  function Default(name: string): Cell {
    if name == "parcel_id" || name == "paid_date" then Null else Num(0)
  }

  /** `columns.map(c => c.toLowerCase())`, taken once before any change. */
  function Snapshot(columns: seq<string>): (names: seq<string>)
    ensures |names| == |columns|
    ensures forall i :: 0 <= i < |columns| ==> names[i] == Lower(columns[i])
  {
    Map(columns, Lower)
  }

  function AddCell(name: string): Row -> Row {
    (r: Row) => r[name := Default(name)]
  }

  /** `ALTER TABLE payments ADD COLUMN name ... DEFAULT d`: every row gets the default. */
  function WithColumn(s: Schema, name: string): (t: Schema)
    ensures t.columns == s.columns + [name]
    ensures |t.rows| == |s.rows|
    ensures forall i :: 0 <= i < |s.rows| ==> t.rows[i] == s.rows[i][name := Default(name)]
  {
    Schema(s.columns + [name], Map(s.rows, AddCell(name)))
  }

  /** `WHERE amount_paid = 0`. */
  predicate Unpaid(r: Row) {
    "amount_paid" in r && r["amount_paid"] == Num(0)
  }

  /**
   * `SET amount_paid = amount, amount_due = amount, balance = 0 WHERE
   * amount_paid = 0` on one row: a selected row gets the three cells and
   * keeps every other one; a row with another `amount_paid` is untouched.
   */
  function BackfillRow(r: Row): (t: Row)
    ensures !Unpaid(r) || "amount" !in r ==> t == r
    ensures Unpaid(r) && "amount" in r ==>
              t.Keys == r.Keys + {"amount_due", "balance"}
              && t["amount_paid"] == r["amount"] && t["amount_due"] == r["amount"] && t["balance"] == Num(0)
              && t["amount"] == r["amount"]
              && forall k :: k in r && k !in {"amount_paid", "amount_due", "balance"} ==> t[k] == r[k]
  {
    if Unpaid(r) && "amount" in r then r["amount_paid" := r["amount"]]["amount_due" := r["amount"]]["balance" := Num(0)]
    else r
  }

  /** The backfill `UPDATE`. */
  function Backfill(s: Schema): (t: Schema)
    ensures t.columns == s.columns && |t.rows| == |s.rows|
    ensures forall i :: 0 <= i < |s.rows| ==> t.rows[i] == BackfillRow(s.rows[i])
  {
    Schema(s.columns, Map(s.rows, BackfillRow))
  }

  /** The `ALTER`s for `names`, each one only when the snapshot lacks it, stopping at the first that throws. */
  function AddMissing(s: Schema, snapshot: seq<string>, names: seq<string>, failing: set<Step>): (r: Run)
    decreases names
    ensures |r.schema.rows| == |s.rows|
    ensures |r.schema.columns| >= |s.columns| && r.schema.columns[..|s.columns|] == s.columns
  {
    if names == [] then Run(s, true)
    else if names[0] in snapshot then AddMissing(s, snapshot, names[1..], failing)
    else if AddColumn(names[0]) in failing then Run(s, false)
    else AddMissing(WithColumn(s, names[0]), snapshot, names[1..], failing)
  }

  /** One `ALTER` step, as `AddColumnIfAbsent` states it, advances `AddMissing` by one name. */
  lemma AddMissingStep(s: Schema, t: Schema, ok: bool, snapshot: seq<string>, names: seq<string>, failing: set<Step>)
    requires names != []
    requires names[0] in snapshot ==> t == s && ok
    requires names[0] !in snapshot && AddColumn(names[0]) in failing ==> t == s && !ok
    requires names[0] !in snapshot && AddColumn(names[0]) !in failing ==> t == WithColumn(s, names[0]) && ok
    ensures ok ==> AddMissing(t, snapshot, names[1..], failing) == AddMissing(s, snapshot, names, failing)
    ensures !ok ==> Run(t, false) == AddMissing(s, snapshot, names, failing)
  {
  }

  /**
   * A whole run: read the columns, add the missing ones, and backfill the
   * amounts only if the snapshot had both `amount` and `amount_paid`. A
   * throwing statement ends the run with `success` false, and what ran
   * before it stays done.
   */
  function Migrate(s: Schema, failing: set<Step>): (r: Run)
    ensures ReadColumns in failing ==> r == Run(s, false)
    ensures ReadColumns !in failing ==> r.schema.columns == AddMissing(s, Snapshot(s.columns), NewColumns, failing).schema.columns
    ensures |r.schema.columns| >= |s.columns| && r.schema.columns[..|s.columns|] == s.columns
    ensures |r.schema.rows| == |s.rows|
  {
    if ReadColumns in failing then Run(s, false)
    else
      var snapshot := Snapshot(s.columns);
      var added := AddMissing(s, snapshot, NewColumns, failing);
      if !added.success then added
      else if "amount" in snapshot && "amount_paid" in snapshot then
        if BackfillAmounts in failing then Run(added.schema, false) else Run(Backfill(added.schema), true)
      else added
  }

  /** The new column names are already lower case, so the snapshot of an added column is its own name. */
  lemma NewColumnsLowerCase()
    ensures forall i :: 0 <= i < |NewColumns| ==> NoUpper(NewColumns[i])
  {
  }

  /** Extending the columns extends their snapshot. */
  lemma SnapshotPrefix(columns: seq<string>, more: seq<string>)
    requires |more| >= |columns| && more[..|columns|] == columns
    ensures forall i :: 0 <= i < |columns| ==> Snapshot(more)[i] == Snapshot(columns)[i]
  {
  }

  /** A name in the snapshot stays in the snapshot of any extension of the columns. */
  lemma SnapshotKeeps(columns: seq<string>, more: seq<string>, name: string)
    requires |more| >= |columns| && more[..|columns|] == columns
    requires name in Snapshot(columns)
    ensures name in Snapshot(more)
  {
    var j :| 0 <= j < |columns| && Snapshot(columns)[j] == name;
    SnapshotPrefix(columns, more);
    assert Snapshot(more)[j] == name;
  }

  /** After a successful pass every name was already in the snapshot or has been added. */
  lemma {:induction false} AddMissingCovers(s: Schema, snapshot: seq<string>, names: seq<string>, failing: set<Step>)
    requires AddMissing(s, snapshot, names, failing).success
    decreases names
    ensures forall i :: 0 <= i < |names| ==> names[i] in snapshot || names[i] in AddMissing(s, snapshot, names, failing).schema.columns
  {
    if names != [] {
      var next := if names[0] in snapshot then s else WithColumn(s, names[0]);
      AddMissingCovers(next, snapshot, names[1..], failing);
      var r := AddMissing(next, snapshot, names[1..], failing);
      assert r.schema.columns[..|next.columns|] == next.columns;
      if names[0] !in snapshot {
        assert next.columns[|s.columns|] == names[0];
        assert r.schema.columns[|s.columns|] == names[0];
      }
    }
  }

  /** A pass over names the snapshot already holds issues no statement. */
  lemma {:induction false} AddMissingNoop(s: Schema, snapshot: seq<string>, names: seq<string>, failing: set<Step>)
    requires forall i :: 0 <= i < |names| ==> names[i] in snapshot
    ensures AddMissing(s, snapshot, names, failing) == Run(s, true)
  {
    if names != [] {
      AddMissingNoop(s, snapshot, names[1..], failing);
    }
  }

  /** What a pass does to one row: other keys keep their cells, and each added column holds its default. */
  lemma {:induction false} AddMissingRow(s: Schema, snapshot: seq<string>, names: seq<string>, failing: set<Step>, i: nat, key: string)
    requires i < |s.rows|
    decreases names
    ensures var r := AddMissing(s, snapshot, names, failing).schema;
            && (key !in names ==> (key in r.rows[i] <==> key in s.rows[i]) && (key in s.rows[i] ==> r.rows[i][key] == s.rows[i][key]))
            && (AddMissing(s, snapshot, names, failing).success && key in names && key !in snapshot ==>
                  key in r.rows[i] && r.rows[i][key] == Default(key))
  {
    if names != [] {
      var next := if names[0] in snapshot then s else WithColumn(s, names[0]);
      AddMissingRow(next, snapshot, names[1..], failing, i, key);
      if names[0] != key && key !in names[1..] {
        assert key !in names;
      }
    }
  }

  /** After a successful pass over lower-case names, each of them is in the snapshot of the new columns. */
  lemma AddedInSnapshot(s: Schema, names: seq<string>, failing: set<Step>)
    requires AddMissing(s, Snapshot(s.columns), names, failing).success
    requires forall i :: 0 <= i < |names| ==> NoUpper(names[i])
    ensures var after := AddMissing(s, Snapshot(s.columns), names, failing).schema.columns;
            forall i :: 0 <= i < |names| ==> names[i] in Snapshot(after)
  {
    var snapshot := Snapshot(s.columns);
    AddMissingCovers(s, snapshot, names, failing);
    var after := AddMissing(s, snapshot, names, failing).schema.columns;
    SnapshotPrefix(s.columns, after);
    forall k | 0 <= k < |names|
      ensures names[k] in Snapshot(after)
    {
      if names[k] in snapshot {
        var j :| 0 <= j < |snapshot| && snapshot[j] == names[k];
        assert Snapshot(after)[j] == names[k];
      } else {
        var j :| 0 <= j < |after| && after[j] == names[k];
        LowerOfLower(names[k]);
        assert Snapshot(after)[j] == names[k];
      }
    }
  }

  /** After a successful run all five columns exist, whatever case the existing ones were reported in. */
  lemma AllColumnsPresent(s: Schema, failing: set<Step>)
    requires Migrate(s, failing).success
    ensures forall i :: 0 <= i < |NewColumns| ==> NewColumns[i] in Snapshot(Migrate(s, failing).schema.columns)
  {
    NewColumnsLowerCase();
    AddedInSnapshot(s, NewColumns, failing);
  }

  /** Running the migration again on a migrated table issues no `ALTER`: the columns stay as they are. */
  lemma SecondRunAddsNothing(s: Schema, failing: set<Step>, again: set<Step>)
    requires Migrate(s, failing).success
    ensures var t := Migrate(s, failing).schema;
            Migrate(t, again).schema.columns == t.columns
  {
    var t := Migrate(s, failing).schema;
    if ReadColumns !in again {
      AllColumnsPresent(s, failing);
      AddMissingNoop(t, Snapshot(t.columns), NewColumns, again);
    }
  }

  /** A second backfill changes nothing the first has done. */
  lemma BackfillIdempotent(s: Schema)
    ensures Backfill(Backfill(s)) == Backfill(s)
  {
    var once, twice := Backfill(s), Backfill(Backfill(s));
    forall i | 0 <= i < |s.rows|
      ensures twice.rows[i] == once.rows[i]
    {
      var r := s.rows[i];
      if Unpaid(r) && "amount" in r {
        var r1 := BackfillRow(r);
        if Unpaid(r1) {
          assert r1["amount"] == Num(0);
          assert BackfillRow(r1) == r1;
        }
      }
    }
  }

  /** A pass in which no statement throws succeeds. */
  lemma {:induction false} AddMissingSucceeds(s: Schema, snapshot: seq<string>, names: seq<string>)
    decreases names
    ensures AddMissing(s, snapshot, names, {}).success
  {
    if names != [] {
      var next := if names[0] in snapshot then s else WithColumn(s, names[0]);
      AddMissingSucceeds(next, snapshot, names[1..]);
    }
  }

  /** Without the two columns in the snapshot, a run in which nothing throws is the pass of `ALTER`s alone. */
  lemma RunWithoutBackfill(s: Schema)
    requires "amount_paid" !in Snapshot(s.columns)
    ensures Migrate(s, {}) == AddMissing(s, Snapshot(s.columns), NewColumns, {})
    ensures Migrate(s, {}).success
  {
    AddMissingSucceeds(s, Snapshot(s.columns), NewColumns);
  }

  /** The migration adds `amount_paid`, with default 0, and leaves `amount` alone. */
  lemma AmountColumns()
    ensures "amount" !in NewColumns && "amount_paid" in NewColumns && Default("amount_paid") == Num(0)
  {
    assert NewColumns[2] == "amount_paid";
  }

  /**
   * On a table that has `amount` but not yet `amount_paid`, the run that
   * adds `amount_paid` does not backfill: the snapshot it tests was taken
   * before the column existed, so every row keeps the default 0.
   */
  lemma FirstRunSkipsBackfill(s: Schema, t: Schema)
    requires "amount_paid" !in Snapshot(s.columns)
    requires forall i :: 0 <= i < |s.rows| ==> "amount" in s.rows[i]
    requires t == Migrate(s, {}).schema
    ensures Migrate(s, {}).success && |t.rows| == |s.rows|
    ensures forall i :: 0 <= i < |s.rows| ==>
              Unpaid(t.rows[i]) && "amount" in t.rows[i] && t.rows[i]["amount"] == s.rows[i]["amount"]
  {
    RunWithoutBackfill(s);
    var snapshot := Snapshot(s.columns);
    AmountColumns();
    forall i | 0 <= i < |s.rows|
      ensures Unpaid(t.rows[i]) && "amount" in t.rows[i] && t.rows[i]["amount"] == s.rows[i]["amount"]
    {
      AddMissingRow(s, snapshot, NewColumns, {}, i, "amount_paid");
      AddMissingRow(s, snapshot, NewColumns, {}, i, "amount");
    }
  }

  /** The next run sees both columns in its snapshot and copies every row's amount into `amount_paid`. */
  lemma BackfillNeedsSecondRun(s: Schema, t: Schema)
    requires "amount" in Snapshot(s.columns) && "amount_paid" !in Snapshot(s.columns)
    requires forall i :: 0 <= i < |s.rows| ==> "amount" in s.rows[i]
    requires t == Migrate(s, {}).schema
    ensures Migrate(t, {}).success && |Migrate(t, {}).schema.rows| == |s.rows|
    ensures forall i :: 0 <= i < |s.rows| ==>
              "amount_paid" in Migrate(t, {}).schema.rows[i] && Migrate(t, {}).schema.rows[i]["amount_paid"] == s.rows[i]["amount"]
  {
    FirstRunSkipsBackfill(s, t);
    BothInSnapshot(s, t);
    SecondRunCopies(t, s.rows);
  }

  /** A run over a migrated table whose rows are all unpaid copies each row's amount into `amount_paid`. */
  lemma SecondRunCopies(t: Schema, before: seq<Row>)
    requires forall i :: 0 <= i < |NewColumns| ==> NewColumns[i] in Snapshot(t.columns)
    requires "amount" in Snapshot(t.columns) && "amount_paid" in Snapshot(t.columns)
    requires |t.rows| == |before|
    requires forall i :: 0 <= i < |before| ==>
               Unpaid(t.rows[i]) && "amount" in t.rows[i] && "amount" in before[i] && t.rows[i]["amount"] == before[i]["amount"]
    ensures Migrate(t, {}).success && |Migrate(t, {}).schema.rows| == |before|
    ensures forall i :: 0 <= i < |before| ==>
              "amount_paid" in Migrate(t, {}).schema.rows[i] && Migrate(t, {}).schema.rows[i]["amount_paid"] == before[i]["amount"]
  {
    RunWithBackfill(t);
    forall i | 0 <= i < |before|
      ensures "amount_paid" in Backfill(t).rows[i] && Backfill(t).rows[i]["amount_paid"] == before[i]["amount"]
    {
      BackfillCopies(t.rows[i], before[i]["amount"]);
    }
  }

  /** The backfill copies the amount into an unpaid row. */
  lemma BackfillCopies(r: Row, amount: Cell)
    requires Unpaid(r) && "amount" in r && r["amount"] == amount
    ensures "amount_paid" in BackfillRow(r) && BackfillRow(r)["amount_paid"] == amount
  {
  }

  /** With every column already present and both amounts in the snapshot, a run is the backfill alone. */
  lemma RunWithBackfill(t: Schema)
    requires forall i :: 0 <= i < |NewColumns| ==> NewColumns[i] in Snapshot(t.columns)
    requires "amount" in Snapshot(t.columns) && "amount_paid" in Snapshot(t.columns)
    ensures Migrate(t, {}) == Run(Backfill(t), true)
  {
    AddMissingNoop(t, Snapshot(t.columns), NewColumns, {});
  }

  /** After the first run, the snapshot has both `amount` and `amount_paid`. */
  lemma BothInSnapshot(s: Schema, t: Schema)
    requires "amount" in Snapshot(s.columns)
    requires Migrate(s, {}).success && t == Migrate(s, {}).schema
    ensures "amount" in Snapshot(t.columns) && "amount_paid" in Snapshot(t.columns)
    ensures forall i :: 0 <= i < |NewColumns| ==> NewColumns[i] in Snapshot(t.columns)
  {
    AllColumnsPresent(s, {});
    SnapshotKeeps(s.columns, t.columns, "amount");
    assert NewColumns[2] == "amount_paid";
  }

  /** The `payments` table the migration alters. */
  class PaymentsTable {
    var columns: seq<string>
    var rows: seq<Row>

    constructor (columns: seq<string>, rows: seq<Row>)
      ensures this.columns == columns && this.rows == rows
    {
      this.columns := columns;
      this.rows := rows;
    }

    function State(): Schema
      reads this
    {
      Schema(columns, rows)
    }

    /** `if (!columns.includes(name)) ALTER TABLE ...`; `ok` is false when the statement throws. */
    method AddColumnIfAbsent(snapshot: seq<string>, name: string, failing: set<Step>) returns (ok: bool)
      modifies this
      ensures name in snapshot ==> State() == old(State()) && ok
      ensures name !in snapshot && AddColumn(name) in failing ==> State() == old(State()) && !ok
      ensures name !in snapshot && AddColumn(name) !in failing ==> State() == WithColumn(old(State()), name) && ok
    {
      if name !in snapshot {
        if AddColumn(name) in failing {
          return false;
        }
        columns := columns + [name];
        rows := Map(rows, AddCell(name));
      }
      return true;
    }

    /** The conditional `ALTER`s for `names`, in order, stopping at the first that throws. */
    method AddMissingColumns(snapshot: seq<string>, names: seq<string>, failing: set<Step>) returns (ok: bool)
      modifies this
      decreases names
      ensures Run(State(), ok) == AddMissing(old(State()), snapshot, names, failing)
    {
      if names == [] {
        return true;
      }
      ghost var before := State();
      ok := AddColumnIfAbsent(snapshot, names[0], failing);
      AddMissingStep(before, State(), ok, snapshot, names, failing);
      if !ok {
        return false;
      }
      ok := AddMissingColumns(snapshot, names[1..], failing);
    }

    /** The migration, statement by statement. */
    method UpdatePaymentsTable(failing: set<Step>) returns (success: bool)
      modifies this
      ensures Run(State(), success) == Migrate(old(State()), failing)
    {
      if ReadColumns in failing {
        return false;
      }
      var snapshot := Snapshot(columns);
      var ok := AddMissingColumns(snapshot, NewColumns, failing);
      if !ok {
        return false;
      }
      if "amount" in snapshot && "amount_paid" in snapshot {
        if BackfillAmounts in failing {
          return false;
        }
        rows := Map(rows, BackfillRow);
      }
      return true;
    }
  }
}
