/**
 * The `SELECT` builder as a state machine over values: each stage holds the
 * command text and the argument collection, and each transition of
 * src/select/mod.rs is a function from the state before to the state after
 * (or the error it returns). The class in select.dfy performs the same
 * transitions step by step and is proved to agree with these functions.
 */
module SelectSpec {
  import opened Wrappers
  import opened Buffers
  import opened FormatNum
  import Macros

  /** Which builder type the value currently is; `Command` is the finished `SqlCommand`. */
  datatype Stage = Select | SelectColumn | PushValue | PushColumn | FromTable | PushFromTable | PushWhereClause | Command

  /** A builder stage: the stage tag, the command buffer and the argument collection. */
  datatype Sql<T> = Sql(stage: Stage, command: Text, arguments: Args<T>)

  type Error = SqlError<PushError>

  /** The text a stage renders to (the read-only view every stage displays). */
  function AsStr<T>(s: Sql<T>): string {
    s.command.chars
  }

  /**
   * `to` is `from` with `text` appended, now at stage `next`, with the same
   * arguments, and no append outgrew the capacity that was reserved for it.
   */
  ghost predicate Appended<T>(from: Sql<T>, to: Sql<T>, text: string, next: Stage) {
    && to.stage == next
    && to.arguments == from.arguments
    && to.command.chars == from.command.chars + text
    && to.command.limit == from.command.limit
    && to.command.unreserved == from.command.unreserved
  }

  function Keyword(q: Macros.SetQuantifier): string {
    "SELECT" + match q
      case Plain => ""
      case All => " ALL"
      case Distinct => " DISTINCT"
  }

  /** `select`, `select_all`, `select_distinct`: the keyword, and the arguments as given. */
  function Start<T>(q: Macros.SetQuantifier, arguments: Args<T>, limit: nat): (s: Sql<T>)
    ensures s.stage == Stage.Select && s.arguments == arguments
    ensures q == Macros.Plain ==> AsStr(s) == "SELECT"
    ensures q == Macros.All ==> AsStr(s) == "SELECT ALL"
    ensures q == Macros.Distinct ==> AsStr(s) == "SELECT DISTINCT"
    ensures s.command.Valid() && s.command.unreserved == 0 && s.command.limit == limit
  {
    Sql(Stage.Select, FromStr(Keyword(q), limit), arguments)
  }

  /** Reserve `n` bytes and, when that succeeds, append `text` and move to `next`. */
  function Write<T>(s: Sql<T>, n: nat, text: string, next: Stage): Result<Sql<T>, Error> {
    match TryReserve(s.command, n)
    case None => Failure(Reserve)
    case Some(t) => Success(Sql(next, PushStr(t, text), s.arguments))
  }

  /** A reservation of exactly the bytes then written. */
  function WriteExact<T>(s: Sql<T>, text: string, next: Stage): (r: Result<Sql<T>, Error>)
    ensures r.Success? <==> Fits(s.command, |text|)
    ensures r.Failure? ==> r.error == Reserve
    ensures r.Success? ==> Appended(s, r.value, text, next)
  {
    match Grow(s.command, text)
    case None => Failure(Reserve)
    case Some(t) => Success(Sql(next, t, s.arguments))
  }

  lemma WriteIsExact<T>(s: Sql<T>, text: string, next: Stage)
    ensures Write(s, |text|, text, next) == WriteExact(s, text, next)
  {
  }

  // ---------------------------------------------------------------- columns

  /** `Select::column` / `SelectColumn::column`: the first column, preceded by a space. */
  function Column<T>(s: Sql<T>, column: string): (r: Result<Sql<T>, Error>)
    requires s.stage == Stage.Select || s.stage == Stage.SelectColumn
    ensures r.Success? <==> Fits(s.command, |" " + column|)
    ensures r.Failure? ==> r.error == Reserve
    ensures r.Success? ==> Appended(s, r.value, " " + column, Stage.PushColumn)
  {
    Write(s, |column| + 1, " " + column, Stage.PushColumn)
  }

  /** `Select::column_as` / `SelectColumn::column_as`: ` column AS alias`. */
  function ColumnAs<T>(s: Sql<T>, column: string, alias: string): (r: Result<Sql<T>, Error>)
    requires s.stage == Stage.Select || s.stage == Stage.SelectColumn
    ensures r.Success? <==> Fits(s.command, |" " + column + " AS " + alias|)
    ensures r.Failure? ==> r.error == Reserve
    ensures r.Success? ==> Appended(s, r.value, " " + column + " AS " + alias, Stage.PushColumn)
  {
    Write(s, |column| + |alias| + 5, " " + column + " AS " + alias, Stage.PushColumn)
  }

  /** `PushColumn::column`: every later column, preceded by `", "`. */
  function NextColumn<T>(s: Sql<T>, column: string): (r: Result<Sql<T>, Error>)
    requires s.stage == Stage.PushColumn
    ensures r.Success? <==> Fits(s.command, |", " + column|)
    ensures r.Failure? ==> r.error == Reserve
    ensures r.Success? ==> Appended(s, r.value, ", " + column, Stage.PushColumn)
  {
    Write(s, |column| + 2, ", " + column, Stage.PushColumn)
  }

  /** Each column's length plus two, summed: the source's reservation for `columns` is this minus one. */
  function ColumnsWidth(columns: seq<string>): nat {
    if columns == [] then 0 else |columns[0]| + 2 + ColumnsWidth(columns[1..])
  }

  lemma {:induction false} ContinuationWidth(columns: seq<string>)
    ensures |Macros.Continuation(columns)| == ColumnsWidth(columns)
  {
    if columns != [] {
      ContinuationWidth(columns[1..]);
    }
  }

  /** `Σ(len + 2) - 1` is exactly the length of ` c0, c1, …, cn`. */
  lemma ColumnsReservationExact(columns: seq<string>)
    requires |columns| > 0
    ensures ColumnsWidth(columns) - 1 == |" " + Macros.CommaSeparated(columns)|
  {
    ContinuationWidth(columns[1..]);
  }

  /**
   * `SelectColumn::columns`, with the emptiness check made before the
   * reservation: an empty list is `ArgumentNotFound`; otherwise the columns
   * are written comma-separated after one space.
   */
  function Columns<T>(s: Sql<T>, columns: seq<string>): (r: Result<Sql<T>, Error>)
    requires s.stage == Stage.Select || s.stage == Stage.SelectColumn
    ensures columns == [] ==> r == Failure(ArgumentNotFound)
    ensures columns != [] ==> (r.Success? <==> Fits(s.command, |" " + Macros.CommaSeparated(columns)|))
    ensures columns != [] && r.Failure? ==> r.error == Reserve
    ensures r.Success? ==> columns != [] && Appended(s, r.value, " " + Macros.CommaSeparated(columns), Stage.PushColumn)
  {
    if columns == [] then Failure(ArgumentNotFound)
    else
      ColumnsReservationExact(columns);
      Write(s, ColumnsWidth(columns) - 1, " " + Macros.CommaSeparated(columns), Stage.PushColumn)
  }

  /**
   * `SelectColumn::columns` as written: the reservation `Σ(len + 2) - 1` is
   * computed in `usize` before the list is checked, so an empty list wraps
   * round to `usize::MAX` (in a release build; a debug build panics).
   */
  function ColumnsAsWritten<T>(s: Sql<T>, columns: seq<string>): Result<Sql<T>, Error>
    requires s.stage == Stage.Select || s.stage == Stage.SelectColumn
  {
    var total := (ColumnsWidth(columns) - 1) % USIZE_MODULUS;
    match TryReserve(s.command, total)
    case None => Failure(Reserve)
    case Some(t) =>
      if columns == [] then Failure(ArgumentNotFound)
      else Success(Sql(Stage.PushColumn, PushStr(t, " " + Macros.CommaSeparated(columns)), s.arguments))
  }

  /** As written, an empty column list is reported as a failed reservation. */
  lemma ColumnsAsWrittenEmptyIsReserveError<T>(s: Sql<T>)
    requires s.stage == Stage.Select || s.stage == Stage.SelectColumn
    ensures ColumnsAsWritten(s, []) == Failure(Reserve)
    ensures Columns(s, []) == Failure(ArgumentNotFound)
  {
    assert (ColumnsWidth([]) - 1) % USIZE_MODULUS == USIZE_MODULUS - 1;
  }

  /** As written, `ArgumentNotFound` can never be returned. */
  lemma ColumnsAsWrittenNeverArgumentNotFound<T>(s: Sql<T>, columns: seq<string>)
    requires s.stage == Stage.Select || s.stage == Stage.SelectColumn
    ensures ColumnsAsWritten(s, columns) != Failure(ArgumentNotFound)
  {
    if columns == [] {
      ColumnsAsWrittenEmptyIsReserveError(s);
    }
  }

  /** On every non-empty list whose width fits a `usize`, the two agree. */
  lemma ColumnsAsWrittenAgreesOnNonEmpty<T>(s: Sql<T>, columns: seq<string>)
    requires s.stage == Stage.Select || s.stage == Stage.SelectColumn
    requires columns != [] && ColumnsWidth(columns) <= USIZE_MODULUS
    ensures ColumnsAsWritten(s, columns) == Columns(s, columns)
  {
    ColumnsReservationExact(columns);
  }

  /** `PushColumn::column` over each of `columns`, in order, stopping at the first error. */
  function NextColumns<T>(s: Sql<T>, columns: seq<string>): Result<Sql<T>, Error>
    requires s.stage == Stage.PushColumn
    decreases |columns|
  {
    if columns == [] then Success(s)
    else match NextColumn(s, columns[0])
      case Failure(e) => Failure(e)
      case Success(s') => NextColumns(s', columns[1..])
  }

  /** `column(c0).column(c1)…column(cn)`: the first column, then every later one. */
  function ColumnChain<T>(s: Sql<T>, columns: seq<string>): Result<Sql<T>, Error>
    requires s.stage == Stage.Select || s.stage == Stage.SelectColumn
    requires columns != []
  {
    match Column(s, columns[0])
    case Failure(e) => Failure(e)
    case Success(s') => NextColumns(s', columns[1..])
  }

  lemma {:induction false} NextColumnsIsOneWrite<T>(s: Sql<T>, columns: seq<string>)
    requires s.stage == Stage.PushColumn && columns != []
    ensures NextColumns(s, columns) == WriteExact(s, Macros.Continuation(columns), Stage.PushColumn)
    decreases |columns|
  {
    var head := ", " + columns[0];
    var tail := Macros.Continuation(columns[1..]);
    assert Macros.Continuation(columns) == head + tail;
    WriteIsExact(s, head, Stage.PushColumn);
    GrowTwice(s.command, head, tail);
    match Grow(s.command, head)
    case None =>
      assert NextColumn(s, columns[0]) == Failure(Reserve);
    case Some(t) =>
      var s' := Sql(Stage.PushColumn, t, s.arguments);
      assert NextColumn(s, columns[0]) == Success(s');
      if |columns| == 1 {
        assert tail == "" && head + tail == head;
      } else {
        NextColumnsIsOneWrite(s', columns[1..]);
      }
  }

  /**
   * Adding the columns one at a time and adding them all at once with
   * `columns` render the same text and fail in the same cases.
   */
  lemma ColumnChainIsColumns<T>(s: Sql<T>, columns: seq<string>)
    requires s.stage == Stage.Select || s.stage == Stage.SelectColumn
    requires columns != []
    ensures ColumnChain(s, columns) == Columns(s, columns)
  {
    var head := " " + columns[0];
    var tail := Macros.Continuation(columns[1..]);
    assert " " + Macros.CommaSeparated(columns) == head + tail;
    ColumnsReservationExact(columns);
    WriteIsExact(s, head, Stage.PushColumn);
    WriteIsExact(s, head + tail, Stage.PushColumn);
    GrowTwice(s.command, head, tail);
    match Grow(s.command, head)
    case None =>
      assert Column(s, columns[0]) == Failure(Reserve);
    case Some(t) =>
      var s' := Sql(Stage.PushColumn, t, s.arguments);
      assert Column(s, columns[0]) == Success(s');
      if |columns| == 1 {
        assert tail == "" && head + tail == head;
      } else {
        NextColumnsIsOneWrite(s', columns[1..]);
      }
  }

  /** `SelectColumn::static_columns`, reserving the space it writes as well as the fragment. */
  function StaticColumns<T>(s: Sql<T>, columns: Macros.Columns): (r: Result<Sql<T>, Error>)
    requires s.stage == Stage.Select || s.stage == Stage.SelectColumn
    ensures r.Success? <==> Fits(s.command, |" " + columns.text|)
    ensures r.Failure? ==> r.error == Reserve
    ensures r.Success? ==> Appended(s, r.value, " " + columns.text, Stage.FromTable)
  {
    Write(s, |columns.text| + 1, " " + columns.text, Stage.FromTable)
  }

  /** `SelectColumn::static_columns` as written: it reserves the fragment's length only. */
  function StaticColumnsAsWritten<T>(s: Sql<T>, columns: Macros.Columns): Result<Sql<T>, Error>
    requires s.stage == Stage.Select || s.stage == Stage.SelectColumn
  {
    match TryReserve(s.command, |columns.text|)
    case None => Failure(Reserve)
    case Some(t) => Success(Sql(Stage.FromTable, PushStr(PushStr(t, " "), columns.text), s.arguments))
  }

  /**
   * As written, whatever the allocator does: the transition succeeds exactly
   * when `len` bytes can be reserved, and then writes `len + 1` bytes.
   */
  lemma StaticColumnsAsWrittenReservesOneShort<T>(s: Sql<T>, columns: Macros.Columns)
    requires s.stage == Stage.Select || s.stage == Stage.SelectColumn
    ensures StaticColumnsAsWritten(s, columns).Success? <==> Fits(s.command, |columns.text|)
    ensures StaticColumnsAsWritten(s, columns).Success? ==>
              && AsStr(StaticColumnsAsWritten(s, columns).value) == AsStr(s) + " " + columns.text
              && |AsStr(StaticColumnsAsWritten(s, columns).value)| == |AsStr(s)| + |columns.text| + 1
  {
  }

  /**
   * As written, whenever the reservation leaves no more room than was asked
   * for (always so when the buffer already had exactly that room, and, with
   * the exact growth of `TryReserve`, whenever it grew), the write overruns
   * the buffer by the one byte of the space and it reallocates unasked.
   */
  lemma StaticColumnsAsWrittenOverruns<T>(s: Sql<T>, columns: Macros.Columns)
    requires s.stage == Stage.Select || s.stage == Stage.SelectColumn
    requires Fits(s.command, |columns.text|) && |s.command.chars| + |columns.text| >= s.command.capacity
    ensures StaticColumnsAsWritten(s, columns).Success?
    ensures StaticColumnsAsWritten(s, columns).value.command.unreserved == s.command.unreserved + 1
  {
  }

  /**
   * `select(..).static_columns(Columns("a, b, c"))` on a fresh buffer: the
   * reservation asks for 13 bytes and 14 are written. This overruns under
   * Rust's amortized growth as well, which grows a capacity of 6 to 13.
   */
  lemma StaticColumnsAsWrittenExample()
    ensures var s := Start<int>(Macros.Plain, Args([], None), 100);
            && s.command.capacity == 6
            && StaticColumnsAsWritten(s, Macros.Columns("a, b, c")).Success?
            && |AsStr(StaticColumnsAsWritten(s, Macros.Columns("a, b, c")).value)| == 14
            && StaticColumnsAsWritten(s, Macros.Columns("a, b, c")).value.command.unreserved == 1
            && StaticColumns(s, Macros.Columns("a, b, c")).Success?
            && StaticColumns(s, Macros.Columns("a, b, c")).value.command.unreserved == 0
  {
    var s := Start<int>(Macros.Plain, Args([], None), 100);
    StaticColumnsAsWrittenOverruns(s, Macros.Columns("a, b, c"));
  }

  // ----------------------------------------------------------------- tables

  /** `FromTable::from_table` (and `PushColumn::from_table`): ` FROM table`. */
  function StartFrom<T>(s: Sql<T>, table: string): (r: Result<Sql<T>, Error>)
    requires s.stage == Stage.PushColumn || s.stage == Stage.FromTable
    ensures r.Success? <==> Fits(s.command, |" FROM " + table|)
    ensures r.Failure? ==> r.error == Reserve
    ensures r.Success? ==> Appended(s, r.value, " FROM " + table, Stage.PushFromTable)
  {
    Write(s, |table| + 6, " FROM " + table, Stage.PushFromTable)
  }

  /** `FromTable::static_from_tables` (and `PushColumn::static_from_tables`): ` FROM` and the fragment. */
  function StaticFromTables<T>(s: Sql<T>, tables: Macros.Tables): (r: Result<Sql<T>, Error>)
    requires s.stage == Stage.PushColumn || s.stage == Stage.FromTable
    ensures r.Success? <==> Fits(s.command, |" FROM " + tables.text|)
    ensures r.Failure? ==> r.error == Reserve
    ensures r.Success? ==> Appended(s, r.value, " FROM " + tables.text, Stage.PushFromTable)
  {
    Write(s, |tables.text| + 6, " FROM " + tables.text, Stage.PushFromTable)
  }

  /** `PushFromTable::from`: every later table, preceded by `", "`. */
  function From<T>(s: Sql<T>, table: string): (r: Result<Sql<T>, Error>)
    requires s.stage == Stage.PushFromTable
    ensures r.Success? <==> Fits(s.command, |", " + table|)
    ensures r.Failure? ==> r.error == Reserve
    ensures r.Success? ==> Appended(s, r.value, ", " + table, Stage.PushFromTable)
  {
    Write(s, |table| + 2, ", " + table, Stage.PushFromTable)
  }

  /** `PushFromTable::where_clause`: a change of stage only. */
  function WhereClause<T>(s: Sql<T>): (r: Sql<T>)
    requires s.stage == Stage.PushFromTable
    ensures r.stage == Stage.PushWhereClause && r.command == s.command && r.arguments == s.arguments
  {
    s.(stage := Stage.PushWhereClause)
  }

  /** The stages that can be finished with `end`. */
  predicate CanEnd(stage: Stage) {
    stage == Stage.PushValue || stage == Stage.FromTable || stage == Stage.PushFromTable || stage == Stage.PushWhereClause
  }

  /** `end`: the finished command holds the same text and arguments. */
  function End<T>(s: Sql<T>): (r: Sql<T>)
    requires CanEnd(s.stage)
    ensures r.stage == Stage.Command && r.command == s.command && r.arguments == s.arguments
  {
    s.(stage := Stage.Command)
  }

  // ----------------------------------------------------------------- values

  /** The placeholder written for the `n`-th bound value. */
  function Placeholder(n: nat): string {
    "$" + Decimal(n)
  }

  /** The placeholders `$from`, `$from+1`, … (`count` of them). */
  function Placeholders(from: nat, count: nat): (r: seq<string>)
    ensures |r| == count
    decreases count
  {
    if count == 0 then [] else [Placeholder(from)] + Placeholders(from + 1, count - 1)
  }

  /** The i-th placeholder of the run is numbered `from + i`. */
  lemma {:induction false} PlaceholderAt(from: nat, count: nat, i: nat)
    requires i < count
    ensures Placeholders(from, count)[i] == Placeholder(from + i)
    decreases count
  {
    if i > 0 {
      PlaceholderAt(from + 1, count - 1, i - 1);
    }
  }

  /** No two values of one run share a placeholder. */
  lemma PlaceholdersDistinct(from: nat, count: nat, i: nat, j: nat)
    requires i < count && j < count && i != j
    ensures Placeholders(from, count)[i] != Placeholders(from, count)[j]
  {
    PlaceholderAt(from, count, i);
    PlaceholderAt(from, count, j);
    var a, b := Placeholder(from + i), Placeholder(from + j);
    if a == b {
      assert a[1..] == Decimal(from + i) && b[1..] == Decimal(from + j);
      DecimalInjective(from + i, from + j);
    }
  }

  /**
   * Push the value, then write `separator` and the placeholder numbered by
   * the new count; a refused push is returned as `Argument` with nothing written.
   */
  function Bind<T>(s: Sql<T>, v: T, separator: string, next: Stage): Result<Sql<T>, Error> {
    match Push(s.arguments, v)
    case Failure(e) => Failure(Argument(e))
    case Success(a) => Success(Sql(next, PushStr(PushStr(s.command, separator), Decimal(a.Count())), a))
  }

  /** `Select::value`: the first value, written ` $N` where N is the new count. */
  function Value<T>(s: Sql<T>, v: T): (r: Result<Sql<T>, Error>)
    requires s.stage == Stage.Select
    ensures r.Success? <==> s.arguments.HasRoom(1)
    ensures r.Failure? ==> r.error == Argument(Full(s.arguments.capacity.value))
    ensures r.Success? ==> && r.value.stage == Stage.PushValue
                           && r.value.arguments.items == s.arguments.items + [v]
                           && r.value.arguments.capacity == s.arguments.capacity
                           && AsStr(r.value) == AsStr(s) + " " + Placeholder(r.value.arguments.Count())
                           && r.value.arguments.Count() == s.arguments.Count() + 1
  {
    Bind(s, v, " $", Stage.PushValue)
  }

  /** `PushValue::value`: every later value, written `, $N` where N is the new count. */
  function NextValue<T>(s: Sql<T>, v: T): (r: Result<Sql<T>, Error>)
    requires s.stage == Stage.PushValue
    ensures r.Success? <==> s.arguments.HasRoom(1)
    ensures r.Failure? ==> r.error == Argument(Full(s.arguments.capacity.value))
    ensures r.Success? ==> && r.value.stage == Stage.PushValue
                           && r.value.arguments.items == s.arguments.items + [v]
                           && r.value.arguments.capacity == s.arguments.capacity
                           && AsStr(r.value) == AsStr(s) + ", " + Placeholder(r.value.arguments.Count())
                           && r.value.arguments.Count() == s.arguments.Count() + 1
  {
    Bind(s, v, ", $", Stage.PushValue)
  }

  /** `PushValue::value` over each of `values`, in order, stopping at the first error. */
  function NextValues<T>(s: Sql<T>, values: seq<T>): (r: Result<Sql<T>, Error>)
    requires s.stage == Stage.PushValue
    ensures r.Success? ==> r.value.stage == Stage.PushValue
    decreases |values|
  {
    if values == [] then Success(s)
    else match NextValue(s, values[0])
      case Failure(e) => Failure(e)
      case Success(s') => NextValues(s', values[1..])
  }

  /**
   * `Select::values`: `ArgumentNotFound` for no values; otherwise the first
   * value as by `value`, every later one as by `PushValue::value`, and the
   * finished command.
   */
  function Values<T>(s: Sql<T>, values: seq<T>): (r: Result<Sql<T>, Error>)
    requires s.stage == Stage.Select
    ensures values == [] ==> r == Failure(ArgumentNotFound)
    ensures r.Success? ==> r.value.stage == Stage.Command
  {
    if values == [] then Failure(ArgumentNotFound)
    else match Value(s, values[0])
      case Failure(e) => Failure(e)
      case Success(s1) =>
        match NextValues(s1, values[1..])
        case Failure(e) => Failure(e)
        case Success(s2) => Success(End(s2))
  }

  lemma ContinuationOfPlaceholders(from: nat, count: nat)
    requires count > 0
    ensures Macros.Continuation(Placeholders(from, count))
         == ", " + Placeholder(from) + Macros.Continuation(Placeholders(from + 1, count - 1))
  {
    assert Placeholders(from, count)[1..] == Placeholders(from + 1, count - 1);
  }

  lemma CommaSeparatedOfPlaceholders(from: nat, count: nat)
    requires count > 0
    ensures Macros.CommaSeparated(Placeholders(from, count))
         == Placeholder(from) + Macros.Continuation(Placeholders(from + 1, count - 1))
  {
    assert Placeholders(from, count)[1..] == Placeholders(from + 1, count - 1);
  }

  lemma PushThenRest<T>(items: seq<T>, values: seq<T>)
    requires values != []
    ensures (items + [values[0]]) + values[1..] == items + values
  {
    assert values == [values[0]] + values[1..];
  }

  lemma {:induction false} NextValuesGrow<T>(s: Sql<T>, values: seq<T>)
    requires s.stage == Stage.PushValue
    requires s.arguments.HasRoom(|values|)
    ensures NextValues(s, values).Success?
    ensures NextValues(s, values).value.arguments == s.arguments.(items := s.arguments.items + values)
    decreases |values|
  {
    if values != [] {
      var s' := NextValue(s, values[0]).value;
      assert NextValues(s, values) == NextValues(s', values[1..]);
      NextValuesGrow(s', values[1..]);
      PushThenRest(s.arguments.items, values);
    }
  }

  lemma NextValuesStep<T>(s: Sql<T>, values: seq<T>)
    requires s.stage == Stage.PushValue && values != [] && s.arguments.HasRoom(1)
    ensures NextValue(s, values[0]).Success?
    ensures NextValues(s, values) == NextValues(NextValue(s, values[0]).value, values[1..])
  {
  }

  lemma AppendAssociates(x: string, y: string, z: string, p: string, rest: string)
    requires y == x + p && z == y + rest
    ensures z == x + (p + rest)
  {
  }

  lemma {:induction false} NextValuesRender<T>(s: Sql<T>, values: seq<T>)
    requires s.stage == Stage.PushValue
    requires s.arguments.HasRoom(|values|)
    ensures NextValues(s, values).Success?
    ensures AsStr(NextValues(s, values).value)
         == AsStr(s) + Macros.Continuation(Placeholders(s.arguments.Count() + 1, |values|))
    decreases |values|
  {
    assert NextValues(s, values).Success? by {
      NextValuesGrow(s, values);
    }
    if values != [] {
      var c := s.arguments.Count();
      NextValuesStep(s, values);
      var s' := NextValue(s, values[0]).value;
      var head := ", " + Placeholder(c + 1);
      var rest := Macros.Continuation(Placeholders(c + 2, |values| - 1));
      assert AsStr(s') == AsStr(s) + head;
      assert s'.arguments.Count() + 1 == c + 2 && |values[1..]| == |values| - 1;
      assert AsStr(NextValues(s', values[1..]).value) == AsStr(s') + rest by {
        NextValuesRender(s', values[1..]);
      }
      assert Macros.Continuation(Placeholders(c + 1, |values|)) == head + rest by {
        ContinuationOfPlaceholders(c + 1, |values|);
      }
      AppendAssociates(AsStr(s), AsStr(s'), AsStr(NextValues(s', values[1..]).value), head, rest);
    }
  }

  lemma {:induction false} NextValuesFull<T>(s: Sql<T>, values: seq<T>)
    requires s.stage == Stage.PushValue
    requires values != [] && !s.arguments.HasRoom(|values|)
    ensures NextValues(s, values) == Failure(Argument(Full(s.arguments.capacity.value)))
    decreases |values|
  {
    if s.arguments.HasRoom(1) {
      var s' := NextValue(s, values[0]).value;
      assert NextValues(s, values) == NextValues(s', values[1..]);
      NextValuesFull(s', values[1..]);
    }
  }

  lemma ValuesStep<T>(s: Sql<T>, values: seq<T>)
    requires s.stage == Stage.Select && values != []
    requires Value(s, values[0]).Success? && NextValues(Value(s, values[0]).value, values[1..]).Success?
    ensures Values(s, values) == Success(End(NextValues(Value(s, values[0]).value, values[1..]).value))
  {
  }

  /**
   * N values bound to a collection holding c values, when it has room for
   * them all, render as ` $c+1, $c+2, …, $c+N` and the collection grows by
   * exactly those values, in push order.
   */
  lemma ValuesRender<T>(s: Sql<T>, values: seq<T>)
    requires s.stage == Stage.Select && values != []
    requires s.arguments.HasRoom(|values|)
    ensures Values(s, values).Success?
    ensures Values(s, values).value.arguments.items == s.arguments.items + values
    ensures AsStr(Values(s, values).value)
         == AsStr(s) + " " + Macros.CommaSeparated(Placeholders(s.arguments.Count() + 1, |values|))
  {
    var c := s.arguments.Count();
    var s1 := Value(s, values[0]).value;
    var later := values[1..];
    assert s1.arguments.Count() == c + 1 && |later| == |values| - 1;
    NextValuesGrow(s1, later);
    NextValuesRender(s1, later);
    ValuesStep(s, values);
    PushThenRest(s.arguments.items, values);
    var s2 := NextValues(s1, later).value;
    PlaceholdersText(AsStr(s), AsStr(s1), AsStr(s2), c, |values|);
  }

  /** Gluing the first placeholder to the text of the later ones. */
  lemma PlaceholdersText(x: string, y: string, z: string, c: nat, n: nat)
    requires n > 0
    requires y == x + " " + Placeholder(c + 1)
    requires z == y + Macros.Continuation(Placeholders(c + 2, n - 1))
    ensures z == x + " " + Macros.CommaSeparated(Placeholders(c + 1, n))
  {
    CommaSeparatedOfPlaceholders(c + 1, n);
    AppendAssociates(x + " ", y, z, Placeholder(c + 1), Macros.Continuation(Placeholders(c + 2, n - 1)));
  }

  /** A collection without room for all the values makes `values` fail with the collection's own error. */
  lemma ValuesFull<T>(s: Sql<T>, values: seq<T>)
    requires s.stage == Stage.Select && values != []
    requires !s.arguments.HasRoom(|values|)
    ensures Values(s, values) == Failure(Argument(Full(s.arguments.capacity.value)))
  {
    if s.arguments.HasRoom(1) {
      var s1 := Value(s, values[0]).value;
      NextValuesFull(s1, values[1..]);
    }
  }

  // --------------------------------------------------------------- examples

  /** `select(..).column("a").column("b")` renders `SELECT a, b`. */
  lemma TwoColumnsExample()
    ensures var s0 := Start<int>(Macros.Plain, Args([], None), 100);
            var s1 := Column(s0, "a");
            && s1.Success?
            && NextColumn(s1.value, "b").Success?
            && AsStr(NextColumn(s1.value, "b").value) == "SELECT a, b"
  {
  }

  /** `columns(&["x", "y"]).from_table("t").from("u").end()` after `SELECT` renders `SELECT x, y FROM t, u`. */
  lemma ColumnsFromExample<T>(s: Sql<T>)
    requires s.stage == Stage.Select && AsStr(s) == "SELECT" && 100 <= s.command.limit <= ISIZE_MAX
    ensures var s1 := Columns(s, ["x", "y"]);
            && s1.Success?
            && StartFrom(s1.value, "t").Success?
            && From(StartFrom(s1.value, "t").value, "u").Success?
            && AsStr(End(From(StartFrom(s1.value, "t").value, "u").value)) == "SELECT x, y FROM t, u"
  {
    assert Macros.CommaSeparated(["x", "y"]) == "x, y";
  }

  /** `select(..).value(42).value(7).end()` renders `SELECT $1, $2` and holds `[42, 7]`. */
  lemma TwoValuesExample()
    ensures var s0 := Start<int>(Macros.Plain, Args([], None), 100);
            var s1 := Value(s0, 42);
            && s1.Success?
            && NextValue(s1.value, 7).Success?
            && var s2 := End(NextValue(s1.value, 7).value);
            && AsStr(s2) == "SELECT $1, $2"
            && s2.arguments.items == [42, 7]
  {
    assert Placeholder(1) == "$1" && Placeholder(2) == "$2";
  }

  /** A value bound after two others is numbered `$3`. */
  lemma ThirdValueExample<T>(s: Sql<T>, v: T)
    requires s.stage == Stage.PushValue && s.arguments.Count() == 2 && s.arguments.capacity.None?
    ensures NextValue(s, v).Success?
    ensures AsStr(NextValue(s, v).value) == AsStr(s) + ", $3"
  {
    assert Placeholder(3) == "$3";
  }
}
