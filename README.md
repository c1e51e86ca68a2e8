# squeal-builder `SELECT` builder, modelled in Dafny

squeal-builder assembles PostgreSQL `SELECT` commands through a chain of
builder stages. `Select`, `SelectColumn`, `PushColumn`, `PushValue`,
`FromTable`, `PushFromTable` and `PushWhereClause` lead to a finished
`SqlCommand`. Each stage owns the same two things: the command text (a Rust
`String`) and an argument collection.

There are two kinds of step:

- **Text transitions** first ask the string for room with `try_reserve`. A
  refusal is returned as an error. Otherwise they append literal text.
- **Value transitions** push the value onto the collection. They then append
  ` $N` (first value) or `, $N` (later values), where `N` is the new number
  of bound values.

Fixed fragments (column lists, table lists, joins, conditions, `GROUP BY`,
`ORDER BY`) are built at compile time by `macro_rules!` macros that
concatenate literals.

The project has eight modules:

- `Wrappers` (wrappers.dfy): `Option` and `Result`.
- `Buffers` (buffers.dfy): the command buffer as a `Text` value and the
  argument collection as an `Args` value. `Text` holds the characters, the
  allocated capacity, the most the allocator will grant, and a count of
  appends that outgrew the reserved capacity. `Args` holds the bound values
  and an optional fixed capacity. Also here: `try_reserve`, `push_str`,
  `ArgumentBuffer::push` and the `SqlError` type.
- `FormatNum` (format_num.dfy): the decimal digits written after `$`, with
  their inverse.
- `Macros` (macros.dfy): the fragment builders of src/select/macros.rs. Each
  macro invocation's token list becomes a datatype value.
- `MacroExamples` (macro_examples.dfy): the expected outputs of the macros'
  unit tests, proved of the `Macros` functions.
- `SelectSpec` (select_spec.dfy): the builder as a state machine over values.
  There is one function per transition of src/select/mod.rs. Lemmas state
  what the chains render, how much they reserve, and the two defects listed
  under Findings.
- `Select` (select.dfy): the builder as a class, `Builder<T>`. A `stage`
  field stands in for the stage type, and the text, capacity and arguments
  are fields updated in place. Every method, including the loops of
  `columns` and `values`, is proved to leave exactly the state that the
  matching `SelectSpec` function computes, or to fail with its error.
- `SelectColumns` (columns.dfy): the second, unwired `SelectColumn` of
  src/select/columns.rs. Its `column`, `column_as` and `static_columns`
  append a comma before reserving. It is modelled both as functions and as
  methods on `Builder<T>`.

The doc example of `column_as` (src/select/mod.rs:84-87) chains a second
`column_as` after the first. `PushColumn` (src/select/mod.rs:266-286) has no
`column_as`, and the example is marked `ignore`. The model follows the code:
only the first column may carry an alias.

## Model

| member | source | states |
|---|---|---|
| Buffers.FromStr | src/select/mod.rs:36 | `String::from` holds exactly the literal, with capacity equal to its length and nothing reallocated yet |
| Buffers.TryReserve | src/select/mod.rs:174 | `try_reserve(n)` succeeds exactly when `len + n` stays within `isize::MAX` and either fits the capacity or is granted by the allocator; on success the text is unchanged and the capacity is at least `len + n` |
| Buffers.PushStr | src/select/mod.rs:175-176 | `push_str` appends exactly the given text; within the capacity nothing reallocates, beyond it one unreserved reallocation is recorded |
| Buffers.PushStrTwice | src/select/mod.rs:175-176 | two appends inside reserved room equal one append of the concatenation |
| Buffers.GrowIsReserved | src/select/mod.rs:174-176 | reserving exactly the bytes then written always succeeds when they fit, appends them, and never reallocates unasked |
| Buffers.GrowTwice | src/select/mod.rs:268-270 | reserve-then-write of `a` followed by reserve-then-write of `b` fails in the same cases and leaves the same buffer as reserve-then-write of `a + b` |
| Buffers.Push | src/select/mod.rs:115 | `ArgumentBuffer::push` succeeds exactly when the collection has room, then appends the value at the end and raises the count by one; otherwise it fails with `Full(capacity)` |
| FormatNum.Digit | src/select/mod.rs:117-120 | a digit below ten renders as the character between `'0'` and `'9'` that stands for it |
| FormatNum.DecimalDigits | src/select/mod.rs:117-120 | the rendering of the count is a non-empty run of digits with no leading zero except for zero itself |
| FormatNum.DecimalRoundTrip | src/select/mod.rs:117-120 | reading the rendered digits back gives the count that was rendered |
| FormatNum.DecimalInjective | src/select/mod.rs:117-120 | distinct counts render differently |
| FormatNum.DecimalFitsBuffer | src/select/mod.rs:117 | a number below `10^w` renders in at most `w` digits |
| FormatNum.U32FitsTenDigits | src/select/mod.rs:117 | every `u32` count fits the ten-byte buffer the formatter writes into |
| Macros.ContinuationLength | src/select/macros.rs:9-11 | the text after the first item is as long as the later items plus two bytes per separator |
| Macros.CommaSeparatedLength | src/select/macros.rs:4-12 | `comma_separated!` output is as long as all items plus two bytes per separator |
| Macros.CommaSeparatedSingle | src/select/macros.rs:5-7 | one literal is returned unchanged |
| Macros.ContinuationSnoc | src/select/macros.rs:9-11 | one more item appends `", "` and that item at the end |
| Macros.CommaSeparatedSnoc | src/select/macros.rs:9-11 | a further literal appends `", "` and the literal, keeping the order of the earlier ones |
| Macros.CommaSeparatedCons | src/select/macros.rs:9-11 | a list of two or more is its first item, `", "`, then the list of the rest |
| Macros.FirstComma | src/select/macros.rs:9-11 | finds the first comma, or the end when there is none, with no comma before it |
| Macros.Split | src/select/macros.rs:9-11 | the inverse reading of a comma list always yields at least one item |
| Macros.FirstCommaAfter | src/select/macros.rs:9-11 | in `a, rest` with comma-free `a` the first comma is right after `a` |
| Macros.SplitCommaSeparated | src/select/macros.rs:4-12 | splitting `comma_separated!` of comma-free literals gives back exactly those literals, in order |
| Macros.Using | src/select/macros.rs:19-27 | `using!` is `USING (`, the comma-separated columns, then `)` |
| Macros.UsingRecoversColumns | src/select/macros.rs:19-27 | the columns of a `USING` list can be read back from between its parentheses |
| Macros.ComparisonText | src/select/macros.rs:62-81 | every comparison token stands for itself except `!=`, which becomes `<>` |
| Macros.ComparisonRoundTrip | src/select/macros.rs:62-81 | each operator renders to text that reads back as that operator, so no two operators share a rendering |
| Macros.ConditionSingle | src/select/macros.rs:85-87 | a one-term condition is `a op b` with single spaces and the rendered operator |
| Macros.ConnectivesSnoc | src/select/macros.rs:89-99 | each further connected term goes after the earlier ones |
| Macros.ConditionAppend | src/select/macros.rs:89-99 | appending a term to a condition appends ` AND term` or ` OR term` to its text and changes nothing before it |
| Macros.TableRefText | src/select/macros.rs:104-110 | a table entry is its name, or `name AS alias` when aliased |
| Macros.TableRefTexts | src/select/macros.rs:112-114 | every entry is rendered, one text per entry, in order |
| Macros.StaticTablesWithoutAliases | src/select/macros.rs:103-115 | without aliases `static_tables!` is the comma-separated list of the table names |
| Macros.TablesOf | src/select/macros.rs:118-129 | `tables!` wraps exactly the `static_tables!` text |
| Macros.JoinKeyword | src/select/macros.rs:133-209 | the first word of every join is four or five letters with no space: `CROSS` or the qualified kind |
| Macros.JoinTextHead | src/select/macros.rs:133-209 | every join begins with its keyword, ` JOIN ` and the table, whatever follows |
| Macros.JoinTypeRoundTrip | src/select/macros.rs:133-209 | the join type, `CROSS` or one of the four qualified kinds, reads back from the first word of the text, so no two types share a rendering |
| Macros.JoinUsingRecoversColumns | src/select/macros.rs:147-153 | the columns of a `USING` join read back, in order, from between the parentheses after the table |
| Macros.GroupByRecoversItems | src/select/macros.rs:212-222 | the items of `group_by!`, with or without `ALL`/`DISTINCT`, read back in order from the text after the quantifier |
| Macros.GroupingElementRecoversItems | src/select/macros.rs:225-238 | a grouping element opens with nothing, `ROLLUP (`, `CUBE (` or `GROUPING SETS (`, and its items read back in order from between that opening and the closing parenthesis |
| Macros.OrderByRoundTrip | src/select/macros.rs:242-271 | the direction and nulls placement, or the `USING` operator, of `order_by!` read back from the text after the expression |
| MacroExamples.CommaSeparatedExamples | src/select/macros.rs:295-304 | the five expected outputs of `comma_separated_test` |
| MacroExamples.StaticTablesExamples | src/select/macros.rs:308-314 | the four single-table expected outputs of `static_tables_test`, quoted names included |
| MacroExamples.StaticTablesListExamples | src/select/macros.rs:315-323 | the three list outputs of `static_tables_test`, including the one with aliases |
| MacroExamples.UsingExamples | src/select/macros.rs:328-333 | the three expected outputs of `using_test` |
| MacroExamples.JoinTestConditions | src/select/macros.rs:345-350 | the `ON` conditions of `join_test` render as `user.id = access_history.user_id`, alone or followed by `AND`/`OR` and `user.updated < access_history.created` |
| MacroExamples.InnerJoinExamples | src/select/macros.rs:338-351 | `CROSS JOIN user` and the three `INNER` outputs of `join_test` |
| MacroExamples.LeftJoinExamples | src/select/macros.rs:353-364 | the three `LEFT` outputs of `join_test` |
| MacroExamples.RightJoinExamples | src/select/macros.rs:366-377 | the three `RIGHT` outputs of `join_test` |
| MacroExamples.FullJoinExamples | src/select/macros.rs:379-390 | the three `FULL` outputs of `join_test` |
| SelectSpec.Start | src/select/mod.rs:33-60 | `select`, `select_all`, `select_distinct` start at `SELECT`, `SELECT ALL`, `SELECT DISTINCT` with the arguments as given |
| SelectSpec.WriteExact | src/select/mod.rs:174-177 | a reservation of exactly the text's length succeeds iff it fits, and then appends the text with nothing reallocated unasked and the arguments untouched |
| SelectSpec.WriteIsExact | src/select/mod.rs:174-177 | a transition that reserves the length of what it writes is a reserve-exact write |
| SelectSpec.Column | src/select/mod.rs:173-178 | the first column succeeds iff `len + 1` can be reserved, then appends exactly ` column` within the reservation, moves to `PushColumn`, and fails with `Reserve` otherwise |
| SelectSpec.ColumnAs | src/select/mod.rs:191-202 | reserves `len(column) + len(alias) + 5`, exactly the length of ` column AS alias`, and appends it within the reservation |
| SelectSpec.NextColumn | src/select/mod.rs:267-272 | a later column reserves `len + 2` and appends exactly `, column` within it |
| SelectSpec.ContinuationWidth | src/select/mod.rs:206 | each later column takes its length plus two bytes |
| SelectSpec.ColumnsReservationExact | src/select/mod.rs:205-206 | for a non-empty list, `Σ(len + 2) - 1` is exactly the length of ` c0, c1, …, cn` |
| SelectSpec.Columns | src/select/mod.rs:204-219 | an empty list is `ArgumentNotFound`; otherwise the reservation succeeds iff the whole list fits, and then ` c0, c1, …, cn` is appended within it |
| SelectSpec.ColumnsAsWrittenEmptyIsReserveError | src/select/mod.rs:206-209 | as written, an empty list fails the reservation (wrapped `usize::MAX`) and is reported as `Reserve`, where the emptiness test that follows intends `ArgumentNotFound` |
| SelectSpec.ColumnsAsWrittenNeverArgumentNotFound | src/select/mod.rs:206-209 | as written, `ArgumentNotFound` is unreachable |
| SelectSpec.ColumnsAsWrittenAgreesOnNonEmpty | src/select/mod.rs:204-219 | on every non-empty list the code as written and the corrected transition agree |
| SelectSpec.NextColumnsIsOneWrite | src/select/mod.rs:267-272 | a run of `PushColumn::column` calls fails and succeeds exactly like one reserve-exact write of `, c1, …, cn` |
| SelectSpec.ColumnChainIsColumns | src/select/mod.rs:204-219 | `column(c0).column(c1)…` and `columns(&[c0, c1, …])` give the same text, stage and errors |
| SelectSpec.StaticColumns | src/select/mod.rs:221-231 | (corrected) reserves the fragment and its space and appends ` fragment` within the reservation, moving to `FromTable` |
| SelectSpec.StaticColumnsAsWrittenReservesOneShort | src/select/mod.rs:225-228 | as written, the call succeeds exactly when `len(fragment)` more bytes can be reserved, yet it appends ` fragment`, one byte more than it reserved |
| SelectSpec.StaticColumnsAsWrittenOverruns | src/select/mod.rs:225-228 | as written, when the reservation leaves no spare byte, writing ` fragment` outgrows it and the buffer reallocates unasked |
| SelectSpec.StaticColumnsAsWrittenExample | src/select/mod.rs:225-228 | `static_columns(Columns("a, b, c"))` straight after `select` writes 14 bytes where the reservation asked for 13, so it reallocates unasked as written and not when corrected |
| SelectSpec.StartFrom | src/select/mod.rs:297-302 | reserves `len + 6` and appends exactly ` FROM table` within it, moving to `PushFromTable` (also `PushColumn::from_table`, lines 274-277) |
| SelectSpec.StaticFromTables | src/select/mod.rs:304-312 | reserves `len + 6` and appends exactly ` FROM fragment` within it (also `PushColumn::static_from_tables`, lines 279-285) |
| SelectSpec.From | src/select/mod.rs:329-334 | a later table reserves `len + 2` and appends exactly `, table` within it |
| SelectSpec.WhereClause | src/select/mod.rs:336-338 | only the stage changes; text and arguments are untouched |
| SelectSpec.End | src/select/mod.rs:254-256 | `end` (here and at lines 314-316, 340-342, 353-355) only retags to the finished command; text and arguments are untouched |
| SelectSpec.Placeholders | src/select/mod.rs:142-148 | a run of N values yields N placeholders |
| SelectSpec.PlaceholderAt | src/select/mod.rs:142-148 | the i-th placeholder of a run starting after count c is `$` and the digits of `c + 1 + i` |
| SelectSpec.PlaceholdersDistinct | src/select/mod.rs:142-148 | no two values of one run get the same placeholder |
| SelectSpec.Value | src/select/mod.rs:108-123 | succeeds iff the collection has room; then the value is pushed at the end and ` $N` is appended, where N is the new count; otherwise it fails with the collection's error and writes nothing |
| SelectSpec.NextValue | src/select/mod.rs:240-252 | as `value`, writing `, $N` |
| SelectSpec.NextValues | src/select/mod.rs:142-148 | the loop stays at `PushValue` |
| SelectSpec.Values | src/select/mod.rs:125-151 | no values is `ArgumentNotFound`; success is the finished command |
| SelectSpec.ContinuationOfPlaceholders | src/select/mod.rs:145-147 | the placeholders after the first are each preceded by `, ` |
| SelectSpec.CommaSeparatedOfPlaceholders | src/select/mod.rs:138-147 | a placeholder list is the first placeholder followed by `, $N` for each later one |
| SelectSpec.NextValuesGrow | src/select/mod.rs:142-148 | with room for them all, the loop succeeds and the collection grows by exactly those values in order |
| SelectSpec.NextValuesStep | src/select/mod.rs:143-147 | one iteration of the loop is one `PushValue::value` |
| SelectSpec.NextValuesRender | src/select/mod.rs:142-148 | with room, the loop appends `, $c+1, $c+2, …` numbered from the count before it |
| SelectSpec.NextValuesFull | src/select/mod.rs:143 | without room for all the values the loop fails with the collection's own `Full` error |
| SelectSpec.ValuesStep | src/select/mod.rs:133-150 | `values` is the first value, then the loop, then the finished command |
| SelectSpec.ValuesRender | src/select/mod.rs:125-151 | with room for N values after c bound ones, `values` succeeds, appends ` $c+1, $c+2, …, $c+N` and grows the collection by exactly those values in push order |
| SelectSpec.ValuesFull | src/select/mod.rs:134-143 | without room for all the values, `values` fails with the collection's own `Full` error |
| SelectSpec.TwoColumnsExample | src/select/mod.rs:173-178 | `select(..).column("a").column("b")` renders `SELECT a, b` |
| SelectSpec.ColumnsFromExample | src/select/mod.rs:204-219 | `columns(&["x", "y"]).from_table("t").from("u").end()` after `SELECT` renders `SELECT x, y FROM t, u` |
| SelectSpec.TwoValuesExample | src/select/mod.rs:108-123 | `value(42).value(7).end()` renders `SELECT $1, $2` and binds `[42, 7]` |
| SelectSpec.ThirdValueExample | src/select/mod.rs:240-252 | a value bound after two others is written `, $3` |
| Select.Builder.constructor | src/select/mod.rs:33-60 | the new builder is in the state `Start` describes |
| Select.Builder.ReserveText | src/select/mod.rs:174 | `try_reserve` in place: reports success and grows the capacity exactly as `TryReserve`, changes nothing on failure |
| Select.Builder.AppendText | src/select/mod.rs:175-176 | `push_str` in place, as `PushStr` |
| Select.Builder.PushArgument | src/select/mod.rs:115 | `push` in place, as `Push`; nothing changes when the collection is full |
| Select.Builder.ReserveThenWrite | src/select/mod.rs:174-177 | reserve `n` then write two pieces of total length `n`: the state `Write` computes, or unchanged with `Reserve` |
| Select.Builder.Column | src/select/mod.rs:173-178 | leaves the state `SelectSpec.Column` computes, or unchanged with its error |
| Select.Builder.ColumnAs | src/select/mod.rs:191-202 | leaves the state `SelectSpec.ColumnAs` computes, or unchanged with its error |
| Select.Builder.Columns | src/select/mod.rs:204-219 | the loop over the columns leaves the state `SelectSpec.Columns` computes, or unchanged with its error |
| Select.Builder.StaticColumns | src/select/mod.rs:221-231 | leaves the state the corrected `SelectSpec.StaticColumns` computes, or unchanged with its error |
| Select.Builder.NextColumn | src/select/mod.rs:267-272 | leaves the state `SelectSpec.NextColumn` computes, or unchanged with its error |
| Select.Builder.StartFrom | src/select/mod.rs:297-302 | leaves the state `SelectSpec.StartFrom` computes, or unchanged with its error |
| Select.Builder.StaticFromTables | src/select/mod.rs:304-312 | leaves the state `SelectSpec.StaticFromTables` computes, or unchanged with its error |
| Select.Builder.From | src/select/mod.rs:329-334 | leaves the state `SelectSpec.From` computes, or unchanged with its error |
| Select.Builder.WhereClause | src/select/mod.rs:336-338 | leaves the state `SelectSpec.WhereClause` computes |
| Select.Builder.End | src/select/mod.rs:254-256 | leaves the state `SelectSpec.End` computes |
| Select.Builder.BindValue | src/select/mod.rs:115-120 | push, then write the separator and the new count: the state `Bind` computes, or unchanged with `Argument(e)` |
| Select.Builder.Value | src/select/mod.rs:108-123 | leaves the state `SelectSpec.Value` computes, or unchanged with its error |
| Select.Builder.NextValue | src/select/mod.rs:240-252 | leaves the state `SelectSpec.NextValue` computes, or unchanged with its error |
| Select.Builder.Values | src/select/mod.rs:125-151 | the loop over the values ends in the state `SelectSpec.Values` computes, or returns its error; an empty list changes nothing |
| SelectColumns.PushComma | src/select/columns.rs:25 | the comma is appended with no reservation; stage and arguments unchanged |
| SelectColumns.TransitionColumn | src/select/columns.rs:29-34 | reserves `len + 1`, exactly the length of ` column`, and appends it within the reservation, staying in `SelectColumn` |
| SelectColumns.Column | src/select/columns.rs:24-27 | a further column appends `, column` and stays in `SelectColumn`; the reservation is asked after the comma is written |
| SelectColumns.TransitionColumnAs | src/select/columns.rs:53-64 | reserves exactly the length of ` column AS alias` and appends it within the reservation |
| SelectColumns.ColumnAs | src/select/columns.rs:48-51 | appends `, column AS alias` and stays in `SelectColumn` |
| SelectColumns.TransitionStaticColumns | src/select/columns.rs:71-79 | reserves `len + 1`, exactly the length of ` fragment`, and appends it within the reservation |
| SelectColumns.StaticColumns | src/select/columns.rs:66-69 | appends `, fragment` and stays in `SelectColumn` |
| SelectColumns.FromKeyword | src/select/columns.rs:81-91 | ` FROM` is appended with no reservation and the stage becomes `FromTable`, arguments unchanged |
| SelectColumns.ColumnRendersAsNextColumn | src/select/columns.rs:24-27 | a later column succeeds exactly when `PushColumn::column` of src/select/mod.rs does, and then renders the same text |
| SelectColumns.CommaIsUnreserved | src/select/columns.rs:25 | on a full buffer the comma reallocates unasked, which `PushColumn::column` never does |
| SelectColumns.FirstThenLater | src/select/columns.rs:17-33 | a first column and a later one render ` first, second` whenever the allocator can hold them |
| SelectColumns.FirstThenLaterAs | src/select/columns.rs:40-64 | two aliased columns render ` c1 AS a1, c2 AS a2` whenever the allocator can hold them |
| SelectColumns.ColumnExample | src/select/columns.rs:18-22 | `column("first_name")` then `column("last_name")` after `SELECT` renders `SELECT first_name, last_name` |
| SelectColumns.TransitionColumnOn | src/select/columns.rs:29-34 | on the builder, leaves the state `TransitionColumn` computes, or unchanged with its error |
| SelectColumns.ColumnOn | src/select/columns.rs:24-27 | on the builder, leaves the state `Column` computes; on failure the comma stays written |
| SelectColumns.TransitionColumnAsOn | src/select/columns.rs:53-64 | on the builder, leaves the state `TransitionColumnAs` computes, or unchanged with its error |
| SelectColumns.ColumnAsOn | src/select/columns.rs:48-51 | on the builder, leaves the state `ColumnAs` computes; on failure the comma stays written |
| SelectColumns.TransitionStaticColumnsOn | src/select/columns.rs:71-79 | on the builder, leaves the state `TransitionStaticColumns` computes, or unchanged with its error |
| SelectColumns.StaticColumnsOn | src/select/columns.rs:66-69 | on the builder, leaves the state `StaticColumns` computes; on failure the comma stays written |
| SelectColumns.FromKeywordOn | src/select/columns.rs:81-89 | on the builder, ` FROM` is appended and the stage becomes `FromTable` |

## Left out

- `format_u32_base10` is not part of this model. Its rendering is defined here directly as `FormatNum.Decimal`: the base-10 digits of the count, most significant first.
- The argument count is an unbounded number. The wrap of a `u32` count beyond 4294967295 is not modelled.
- The allocator's growth policy is abstracted: a granted reservation grows the capacity to exactly what is needed, up to a `limit` parameter. Allocation failure is the request exceeding that limit. Real memory is not modelled.
- `map_intermediate_sql!` and `display_sql_command!` are not part of this model. Moving the text and the arguments into the next stage is a change of the `stage` tag, and the displayed text is `AsStr`.
- The `ArgumentBuffer` trait is not part of this model. It is a sequence with an optional fixed capacity, whose only error is `Full`.
- Rust's type-state encoding, ownership moves and lifetimes are not modelled. The stage each method needs is a precondition on the `stage` tag.
- `FromTable::transition_from` and `transition_static_from`, which `from` and `static_from` of src/select/columns.rs call, are not part of this model. Those two methods are modelled only up to the hand-over (`SelectColumns.FromKeyword`).
- Macro-expansion mechanics (token matching, optional trailing commas, compile errors) are not modelled. A trailing comma is simply not represented in the datatype.
- The `tables!(x AS y)` arm (src/select/macros.rs:123-124) expands to an invocation no `static_tables!` arm accepts. It is modelled as the intended `Tables(static_tables(x AS y))`.
- `expression!` and `limit!` (src/select/macros.rs:48-56, 275-279) are not exported or used. `logical_op!` is modelled only as part of `condition!`.
- A `join!` with a one-column `USING` list hands `using!` a trailing comma (src/select/macros.rs:147-153), and the `concat!` that `using!` then produces has an empty item and does not compile. `Macros.WellFormedJoin` therefore requires two or more `USING` columns; `using!` itself accepts one.
- MacroExamples.InnerJoinExamples, LeftJoinExamples, RightJoinExamples, FullJoinExamples, JoinTestConditions: the expected text of a compound `ON` condition is written as three string literals joined by `+` (first term, connective, second term). The value is the same string as in `join_test`.
- The doc example of src/select/columns.rs:41-46 is covered by `SelectColumns.FirstThenLaterAs` for every allocator that can hold the text, not as a literal example.
- Strings are sequences of characters. UTF-8 byte length versus character count is not modelled.
- The debug-build panic on `usize` underflow is not modelled. The release-build wrap-around is (see Findings).
- The test module declared at src/select/mod.rs:360-361 is not part of this model.
- Select.Builder.Values: after a failure other than an empty list, only the error is promised and not the state left behind, because in the source the failed builder is consumed and never observed again.

## Findings

| source | as written | input that shows it | evidently intended | confidence | as-written member | corrected member |
|---|---|---|---|---|---|---|
| src/select/mod.rs:206-209 | the reservation `Σ(len + 2) - 1` is computed before the emptiness check, so an empty slice wraps to `usize::MAX`, `try_reserve` fails, and `Reserve` is returned instead of `ArgumentNotFound` (a debug build panics) | `select(args).columns(&[])` | check for an empty slice first and return `ArgumentNotFound` | not executed | SelectSpec.ColumnsAsWrittenEmptyIsReserveError | SelectSpec.Columns |
| src/select/mod.rs:225-228 | `static_columns` reserves `columns.0.len()` but writes a space and the fragment, one byte more, so when the reservation leaves no spare byte the buffer reallocates outside the fallible reservation | `select(args).static_columns(Columns("a, b, c"))` on the fresh `"SELECT"` buffer: 6 + 7 = 13 bytes are reserved and 14 written. Rust's amortized growth also stops at 13 here, because doubling 6 gives only 12 | reserve `len + 1`, as `transition_static_columns` in src/select/columns.rs:75 does | not executed | SelectSpec.StaticColumnsAsWrittenExample | SelectSpec.StaticColumns |
