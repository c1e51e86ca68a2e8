/**
 * The builder of src/select/mod.rs as a mutable object. Rust moves the
 * command buffer and the argument collection from one stage type to the
 * next; here one object holds them, with a `stage` field in place of the
 * type, and every method is proved to leave exactly the state the
 * matching function of `SelectSpec` computes.
 */
module Select {
  import opened Wrappers
  import opened Buffers
  import opened FormatNum
  import Macros
  import opened SelectSpec

  lemma Regroup(x: string, a: string, b: string, rest: string)
    ensures x + a + b + rest == x + (a + b + rest)
  {
  }

  class Builder<T> {
    var stage: Stage
    /** The command text, its allocated capacity and the allocator's limit. */
    var command: string
    var capacity: nat
    const limit: nat
    /** Appends that made the buffer reallocate without a reservation. */
    ghost var unreserved: nat
    /** The bound values, and the capacity of a fixed-size collection. */
    var arguments: seq<T>
    const argCapacity: Option<nat>

    /** The builder's state as a value of the specification. */
    ghost function Snapshot(): Sql<T>
      reads this
    {
      Sql(stage, Text(command, capacity, limit, unreserved), Args(arguments, argCapacity))
    }

    /**
     * A transition that either succeeded, leaving the state `r` computes,
     * or failed with the error `r` reports, leaving the state `failed`.
     */
    ghost predicate Became(err: Option<Error>, r: Result<Sql<T>, Error>, failed: Sql<T>)
      reads this
    {
      match r
      case Success(s) => err == None && Snapshot() == s
      case Failure(e) => err == Some(e) && Snapshot() == failed
    }

    /** `select`, `select_all`, `select_distinct`. */
    constructor (q: Macros.SetQuantifier, arguments: seq<T>, argCapacity: Option<nat>, limit: nat)
      ensures Snapshot() == Start(q, Args(arguments, argCapacity), limit)
    {
      var keyword := match q
        case Plain => "SELECT"
        case All => "SELECT ALL"
        case Distinct => "SELECT DISTINCT";
      stage := Stage.Select;
      command := keyword;
      capacity := |keyword|;
      this.limit := limit;
      unreserved := 0;
      this.arguments := arguments;
      this.argCapacity := argCapacity;
    }

    /** `String::try_reserve(n)` on the command buffer. */
    method ReserveText(n: nat) returns (ok: bool)
      modifies this
      ensures match TryReserve(old(Snapshot()).command, n)
              case None => !ok && Snapshot() == old(Snapshot())
              case Some(t) => ok && Snapshot() == old(Snapshot()).(command := t)
    {
      var required := |command| + n;
      if required > ISIZE_MAX {
        return false;
      }
      if required <= capacity {
        return true;
      }
      if required <= limit {
        capacity := required;
        return true;
      }
      return false;
    }

    /** `String::push_str(s)` on the command buffer. */
    method AppendText(s: string)
      modifies this
      ensures Snapshot() == old(Snapshot()).(command := PushStr(old(Snapshot()).command, s))
    {
      if |command| + |s| > capacity {
        capacity := |command| + |s|;
        unreserved := unreserved + 1;
      }
      command := command + s;
    }

    /** `ArgumentBuffer::push(v)`. */
    method PushArgument(v: T) returns (err: Option<PushError>)
      modifies this
      ensures match Push(old(Snapshot()).arguments, v)
              case Failure(e) => err == Some(e) && Snapshot() == old(Snapshot())
              case Success(a) => err == None && Snapshot() == old(Snapshot()).(arguments := a)
    {
      if argCapacity.Some? && |arguments| >= argCapacity.value {
        return Some(Full(argCapacity.value));
      }
      arguments := arguments + [v];
      return None;
    }

    /**
     * Reserve `n`, then write `first` and `second`; together they are
     * exactly `n` long, so neither write reallocates.
     */
    method ReserveThenWrite(n: nat, first: string, second: string, next: Stage) returns (err: Option<Error>)
      requires n == |first| + |second|
      modifies this
      ensures Became(err, Write(old(Snapshot()), n, first + second, next), old(Snapshot()))
    {
      var ok := ReserveText(n);
      if !ok {
        return Some(Reserve);
      }
      ghost var t := Snapshot().command;
      AppendText(first);
      AppendText(second);
      PushStrTwice(t, first, second);
      stage := next;
      return None;
    }

    /** `Select::column` and `SelectColumn::column`. */
    method Column(column: string) returns (err: Option<Error>)
      requires stage == Stage.Select || stage == Stage.SelectColumn
      modifies this
      ensures Became(err, SelectSpec.Column(old(Snapshot()), column), old(Snapshot()))
    {
      err := ReserveThenWrite(|column| + 1, " ", column, Stage.PushColumn);
    }

    /** `Select::column_as` and `SelectColumn::column_as`. */
    method ColumnAs(column: string, alias: string) returns (err: Option<Error>)
      requires stage == Stage.Select || stage == Stage.SelectColumn
      modifies this
      ensures Became(err, SelectSpec.ColumnAs(old(Snapshot()), column, alias), old(Snapshot()))
    {
      err := ReserveThenWrite(|column| + |alias| + 5, " " + column, " AS " + alias, Stage.PushColumn);
      assert " " + column + (" AS " + alias) == " " + column + " AS " + alias;
    }

    /**
     * `Select::columns` and `SelectColumn::columns`: one reservation for the
     * whole list, then the first column after a space and every later one
     * after `", "`.
     */
    method Columns(columns: seq<string>) returns (err: Option<Error>)
      requires stage == Stage.Select || stage == Stage.SelectColumn
      modifies this
      ensures Became(err, SelectSpec.Columns(old(Snapshot()), columns), old(Snapshot()))
    {
      if columns == [] {
        return Some(ArgumentNotFound);
      }
      ColumnsReservationExact(columns);
      var ok := ReserveText(ColumnsWidth(columns) - 1);
      if !ok {
        return Some(Reserve);
      }
      ghost var reserved := Snapshot();
      ghost var text := " " + Macros.CommaSeparated(columns);
      ghost var target := command + text;
      AppendText(" ");
      AppendText(columns[0]);
      assert command + Macros.Continuation(columns[1..]) == target;
      var i := 1;
      while i < |columns|
        invariant 1 <= i <= |columns|
        invariant command + Macros.Continuation(columns[i..]) == target
        invariant capacity == reserved.command.capacity && |target| <= capacity
        invariant Snapshot() == reserved.(command := reserved.command.(chars := command))
      {
        assert columns[i..][1..] == columns[i + 1..];
        Regroup(command, ", ", columns[i], Macros.Continuation(columns[i + 1..]));
        AppendText(", ");
        AppendText(columns[i]);
        i := i + 1;
      }
      assert columns[i..] == [];
      assert command == reserved.command.chars + text;
      stage := Stage.PushColumn;
      assert Snapshot() == Sql(Stage.PushColumn, PushStr(reserved.command, text), reserved.arguments);
      return None;
    }

    /** `Select::static_columns` and `SelectColumn::static_columns`, reserving the space too. */
    method StaticColumns(columns: Macros.Columns) returns (err: Option<Error>)
      requires stage == Stage.Select || stage == Stage.SelectColumn
      modifies this
      ensures Became(err, SelectSpec.StaticColumns(old(Snapshot()), columns), old(Snapshot()))
    {
      err := ReserveThenWrite(|columns.text| + 1, " ", columns.text, Stage.FromTable);
    }

    /** `PushColumn::column`. */
    method NextColumn(column: string) returns (err: Option<Error>)
      requires stage == Stage.PushColumn
      modifies this
      ensures Became(err, SelectSpec.NextColumn(old(Snapshot()), column), old(Snapshot()))
    {
      err := ReserveThenWrite(|column| + 2, ", ", column, Stage.PushColumn);
    }

    /** `FromTable::from_table` and `PushColumn::from_table`. */
    method StartFrom(table: string) returns (err: Option<Error>)
      requires stage == Stage.PushColumn || stage == Stage.FromTable
      modifies this
      ensures Became(err, SelectSpec.StartFrom(old(Snapshot()), table), old(Snapshot()))
    {
      err := ReserveThenWrite(|table| + 6, " FROM ", table, Stage.PushFromTable);
    }

    /** `FromTable::static_from_tables` and `PushColumn::static_from_tables`. */
    method StaticFromTables(tables: Macros.Tables) returns (err: Option<Error>)
      requires stage == Stage.PushColumn || stage == Stage.FromTable
      modifies this
      ensures Became(err, SelectSpec.StaticFromTables(old(Snapshot()), tables), old(Snapshot()))
    {
      err := ReserveThenWrite(|tables.text| + 6, " FROM ", tables.text, Stage.PushFromTable);
    }

    /** `PushFromTable::from`. */
    method From(table: string) returns (err: Option<Error>)
      requires stage == Stage.PushFromTable
      modifies this
      ensures Became(err, SelectSpec.From(old(Snapshot()), table), old(Snapshot()))
    {
      err := ReserveThenWrite(|table| + 2, ", ", table, Stage.PushFromTable);
    }

    /** `PushFromTable::where_clause`. */
    method WhereClause()
      requires stage == Stage.PushFromTable
      modifies this
      ensures Snapshot() == SelectSpec.WhereClause(old(Snapshot()))
    {
      stage := Stage.PushWhereClause;
    }

    /** `end` on every stage that has one. */
    method End()
      requires CanEnd(stage)
      modifies this
      ensures Snapshot() == SelectSpec.End(old(Snapshot()))
    {
      stage := Stage.Command;
    }

    /** Push a value, then write `separator` and the new count, as `value` does. */
    method BindValue(v: T, separator: string, next: Stage) returns (err: Option<Error>)
      modifies this
      ensures Became(err, Bind(old(Snapshot()), v, separator, next), old(Snapshot()))
    {
      var e := PushArgument(v);
      if e.Some? {
        return Some(Argument(e.value));
      }
      AppendText(separator);
      AppendText(Decimal(|arguments|));
      stage := next;
      return None;
    }

    /** `Select::value`. */
    method Value(v: T) returns (err: Option<Error>)
      requires stage == Stage.Select
      modifies this
      ensures Became(err, SelectSpec.Value(old(Snapshot()), v), old(Snapshot()))
    {
      err := BindValue(v, " $", Stage.PushValue);
    }

    /** `PushValue::value`. */
    method NextValue(v: T) returns (err: Option<Error>)
      requires stage == Stage.PushValue
      modifies this
      ensures Became(err, SelectSpec.NextValue(old(Snapshot()), v), old(Snapshot()))
    {
      err := BindValue(v, ", $", Stage.PushValue);
    }

    /**
     * `Select::values`: the first value as by `value`, then the loop over
     * the rest as by `PushValue::value`. An empty list changes nothing; any
     * other failure consumes the builder, so only the error is promised then.
     */
    method Values(values: seq<T>) returns (err: Option<Error>)
      requires stage == Stage.Select
      modifies this
      ensures match SelectSpec.Values(old(Snapshot()), values)
              case Success(r) => err == None && Snapshot() == r
              case Failure(e) => err == Some(e)
      ensures values == [] ==> Snapshot() == old(Snapshot())
    {
      if values == [] {
        return Some(ArgumentNotFound);
      }
      err := BindValue(values[0], " $", Stage.PushValue);
      if err.Some? {
        return;
      }
      ghost var first := Snapshot();
      assert SelectSpec.Value(old(Snapshot()), values[0]) == Success(first);
      var i := 1;
      while i < |values|
        invariant 1 <= i <= |values|
        invariant stage == Stage.PushValue && err == None
        invariant NextValues(Snapshot(), values[i..]) == NextValues(first, values[1..])
      {
        assert values[i..][1..] == values[i + 1..];
        err := BindValue(values[i], ", $", Stage.PushValue);
        if err.Some? {
          return;
        }
        i := i + 1;
      }
      assert values[i..] == [];
      assert NextValues(first, values[1..]) == Success(Snapshot());
      stage := Stage.Command;
    }
  }
}
