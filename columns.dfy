/**
 * src/select/columns.rs: another `SelectColumn` stage, not wired into the
 * builder, in which the stage stays `SelectColumn` while columns are added.
 * Each public method first appends `','` with no reservation and then calls
 * a `transition_*` method that reserves and writes the column.
 */
module SelectColumns {
  import opened Wrappers
  import opened Buffers
  import Macros
  import opened SelectSpec
  import Select

  /** The `','` each public method appends before it reserves anything. */
  function PushComma<T>(s: Sql<T>): (r: Sql<T>)
    ensures r.stage == s.stage && r.arguments == s.arguments
    ensures r.command == PushStr(s.command, ",")
  {
    s.(command := PushStr(s.command, ","))
  }

  /** `transition_column`: reserve the column and its space, then write ` column`. */
  function TransitionColumn<T>(s: Sql<T>, column: string): (r: Result<Sql<T>, Error>)
    requires s.stage == Stage.SelectColumn
    ensures r.Success? <==> Fits(s.command, |" " + column|)
    ensures r.Failure? ==> r.error == Reserve
    ensures r.Success? ==> Appended(s, r.value, " " + column, Stage.SelectColumn)
  {
    Write(s, |column| + 1, " " + column, Stage.SelectColumn)
  }

  /** `SelectColumn::column`: `','`, then as by `transition_column`. */
  function Column<T>(s: Sql<T>, column: string): (r: Result<Sql<T>, Error>)
    requires s.stage == Stage.SelectColumn
    ensures r.Success? <==> Fits(PushStr(s.command, ","), |" " + column|)
    ensures r.Failure? ==> r.error == Reserve
    ensures r.Success? ==> && r.value.stage == Stage.SelectColumn && r.value.arguments == s.arguments
                           && AsStr(r.value) == AsStr(s) + ", " + column
  {
    TransitionColumn(PushComma(s), column)
  }

  /** `transition_column_as`: reserve, then write ` column AS alias`. */
  function TransitionColumnAs<T>(s: Sql<T>, column: string, alias: string): (r: Result<Sql<T>, Error>)
    requires s.stage == Stage.SelectColumn
    ensures r.Success? <==> Fits(s.command, |" " + column + " AS " + alias|)
    ensures r.Failure? ==> r.error == Reserve
    ensures r.Success? ==> Appended(s, r.value, " " + column + " AS " + alias, Stage.SelectColumn)
  {
    Write(s, |column| + |alias| + 5, " " + column + " AS " + alias, Stage.SelectColumn)
  }

  /** `SelectColumn::column_as`: `','`, then as by `transition_column_as`. */
  function ColumnAs<T>(s: Sql<T>, column: string, alias: string): (r: Result<Sql<T>, Error>)
    requires s.stage == Stage.SelectColumn
    ensures r.Success? <==> Fits(PushStr(s.command, ","), |" " + column + " AS " + alias|)
    ensures r.Failure? ==> r.error == Reserve
    ensures r.Success? ==> && r.value.stage == Stage.SelectColumn && r.value.arguments == s.arguments
                           && AsStr(r.value) == AsStr(s) + ", " + column + " AS " + alias
  {
    TransitionColumnAs(PushComma(s), column, alias)
  }

  /** `transition_static_columns`: reserve the fragment and its space, then write both. */
  function TransitionStaticColumns<T>(s: Sql<T>, columns: Macros.Columns): (r: Result<Sql<T>, Error>)
    requires s.stage == Stage.SelectColumn
    ensures r.Success? <==> Fits(s.command, |" " + columns.text|)
    ensures r.Failure? ==> r.error == Reserve
    ensures r.Success? ==> Appended(s, r.value, " " + columns.text, Stage.SelectColumn)
  {
    Write(s, |columns.text| + 1, " " + columns.text, Stage.SelectColumn)
  }

  /** `SelectColumn::static_columns`: `','`, then as by `transition_static_columns`. */
  function StaticColumns<T>(s: Sql<T>, columns: Macros.Columns): (r: Result<Sql<T>, Error>)
    requires s.stage == Stage.SelectColumn
    ensures r.Success? <==> Fits(PushStr(s.command, ","), |" " + columns.text|)
    ensures r.Failure? ==> r.error == Reserve
    ensures r.Success? ==> && r.value.stage == Stage.SelectColumn && r.value.arguments == s.arguments
                           && AsStr(r.value) == AsStr(s) + ", " + columns.text
  {
    TransitionStaticColumns(PushComma(s), columns)
  }

  /**
   * `from` and `static_from`, up to the hand-over: the stage becomes
   * `FromTable` and ` FROM` is appended without a reservation.
   */
  function FromKeyword<T>(s: Sql<T>): (r: Sql<T>)
    requires s.stage == Stage.SelectColumn
    ensures r.stage == Stage.FromTable && r.arguments == s.arguments
    ensures r.command == PushStr(s.command, " FROM")
  {
    Sql(Stage.FromTable, PushStr(s.command, " FROM"), s.arguments)
  }

  /**
   * A later column succeeds exactly when `PushColumn::column` of
   * src/select/mod.rs would, and renders the same text; only that method
   * reserves the comma as well, so only it never reallocates unasked.
   */
  lemma ColumnRendersAsNextColumn<T>(s: Sql<T>, column: string)
    requires s.stage == Stage.SelectColumn
    ensures var p := s.(stage := Stage.PushColumn);
            && (Column(s, column).Success? <==> NextColumn(p, column).Success?)
            && (Column(s, column).Success? ==> AsStr(NextColumn(p, column).value) == AsStr(Column(s, column).value))
  {
  }

  /** The comma makes the buffer reallocate unasked whenever the buffer was exactly full. */
  lemma CommaIsUnreserved<T>(s: Sql<T>, column: string)
    requires s.stage == Stage.SelectColumn && |s.command.chars| == s.command.capacity
    requires Column(s, column).Success?
    ensures Column(s, column).value.command.unreserved == s.command.unreserved + 1
    ensures var p := s.(stage := Stage.PushColumn);
            NextColumn(p, column).Success? ==> NextColumn(p, column).value.command.unreserved == s.command.unreserved
  {
  }

  /**
   * A first column and a later one render as ` first, second`, whenever
   * the allocator can hold both.
   */
  lemma FirstThenLater<T>(s: Sql<T>, first: string, second: string)
    requires s.stage == Stage.SelectColumn
    requires |s.command.chars| + |first| + |second| + 3 <= s.command.limit <= ISIZE_MAX
    ensures TransitionColumn(s, first).Success?
    ensures Column(TransitionColumn(s, first).value, second).Success?
    ensures AsStr(Column(TransitionColumn(s, first).value, second).value) == AsStr(s) + " " + first + ", " + second
  {
    var s1 := TransitionColumn(s, first).value;
    assert |PushStr(s1.command, ",").chars| == |s.command.chars| + |first| + 2;
  }

  /** The same for columns with aliases: ` c1 AS a1, c2 AS a2`. */
  lemma FirstThenLaterAs<T>(s: Sql<T>, c1: string, a1: string, c2: string, a2: string)
    requires s.stage == Stage.SelectColumn
    requires |s.command.chars| + |c1| + |a1| + |c2| + |a2| + 11 <= s.command.limit <= ISIZE_MAX
    ensures TransitionColumnAs(s, c1, a1).Success?
    ensures ColumnAs(TransitionColumnAs(s, c1, a1).value, c2, a2).Success?
    ensures AsStr(ColumnAs(TransitionColumnAs(s, c1, a1).value, c2, a2).value)
         == AsStr(s) + " " + c1 + " AS " + a1 + ", " + c2 + " AS " + a2
  {
    var s1 := TransitionColumnAs(s, c1, a1).value;
    assert |PushStr(s1.command, ",").chars| == |s.command.chars| + |c1| + |a1| + 6;
  }

  /** The example of lines 17-22: `first_name`, then `last_name`, after `SELECT`. */
  lemma ColumnExample<T>(s: Sql<T>)
    requires s.stage == Stage.SelectColumn && AsStr(s) == "SELECT" && 100 <= s.command.limit <= ISIZE_MAX
    ensures TransitionColumn(s, "first_name").Success?
    ensures Column(TransitionColumn(s, "first_name").value, "last_name").Success?
    ensures AsStr(Column(TransitionColumn(s, "first_name").value, "last_name").value)
         == "SELECT first_name, last_name"
  {
    FirstThenLater(s, "first_name", "last_name");
  }

  // ------------------------------------------------- the same on the builder

  /** `SelectColumn::transition_column` on the builder. */
  method TransitionColumnOn<T>(b: Select.Builder<T>, column: string) returns (err: Option<Error>)
    requires b.stage == Stage.SelectColumn
    modifies b
    ensures b.Became(err, TransitionColumn(old(b.Snapshot()), column), old(b.Snapshot()))
  {
    err := b.ReserveThenWrite(|column| + 1, " ", column, Stage.SelectColumn);
  }

  /** `SelectColumn::column` on the builder: after a failure the comma stays written. */
  method ColumnOn<T>(b: Select.Builder<T>, column: string) returns (err: Option<Error>)
    requires b.stage == Stage.SelectColumn
    modifies b
    ensures b.Became(err, Column(old(b.Snapshot()), column), PushComma(old(b.Snapshot())))
  {
    b.AppendText(",");
    err := TransitionColumnOn(b, column);
  }

  /** `SelectColumn::transition_column_as` on the builder. */
  method TransitionColumnAsOn<T>(b: Select.Builder<T>, column: string, alias: string) returns (err: Option<Error>)
    requires b.stage == Stage.SelectColumn
    modifies b
    ensures b.Became(err, TransitionColumnAs(old(b.Snapshot()), column, alias), old(b.Snapshot()))
  {
    err := b.ReserveThenWrite(|column| + |alias| + 5, " " + column, " AS " + alias, Stage.SelectColumn);
    assert " " + column + (" AS " + alias) == " " + column + " AS " + alias;
  }

  /** `SelectColumn::column_as` on the builder: after a failure the comma stays written. */
  method ColumnAsOn<T>(b: Select.Builder<T>, column: string, alias: string) returns (err: Option<Error>)
    requires b.stage == Stage.SelectColumn
    modifies b
    ensures b.Became(err, ColumnAs(old(b.Snapshot()), column, alias), PushComma(old(b.Snapshot())))
  {
    b.AppendText(",");
    err := TransitionColumnAsOn(b, column, alias);
  }

  /** `SelectColumn::transition_static_columns` on the builder. */
  method TransitionStaticColumnsOn<T>(b: Select.Builder<T>, columns: Macros.Columns) returns (err: Option<Error>)
    requires b.stage == Stage.SelectColumn
    modifies b
    ensures b.Became(err, TransitionStaticColumns(old(b.Snapshot()), columns), old(b.Snapshot()))
  {
    err := b.ReserveThenWrite(|columns.text| + 1, " ", columns.text, Stage.SelectColumn);
  }

  /** `SelectColumn::static_columns` on the builder: after a failure the comma stays written. */
  method StaticColumnsOn<T>(b: Select.Builder<T>, columns: Macros.Columns) returns (err: Option<Error>)
    requires b.stage == Stage.SelectColumn
    modifies b
    ensures b.Became(err, StaticColumns(old(b.Snapshot()), columns), PushComma(old(b.Snapshot())))
  {
    b.AppendText(",");
    err := TransitionStaticColumnsOn(b, columns);
  }

  /** `from` and `static_from` on the builder, up to the hand-over. */
  method FromKeywordOn<T>(b: Select.Builder<T>)
    requires b.stage == Stage.SelectColumn
    modifies b
    ensures b.Snapshot() == FromKeyword(old(b.Snapshot()))
  {
    b.AppendText(" FROM");
    b.stage := Stage.FromTable;
  }
}
