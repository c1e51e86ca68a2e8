/**
 * The literal fragment builders: compile-time concatenations of string
 * literals that produce PostgreSQL `SELECT` syntax (a comma-separated list,
 * `USING (...)`, comparison operators, `ON` conditions, table lists, joins,
 * `GROUP BY`, grouping elements and `ORDER BY`). A macro invocation's token
 * list becomes a datatype value here; lists that the macro grammar demands be
 * non-empty carry that as a precondition.
 */
module Macros {
  import opened Wrappers

  /** The text after the first item: each further item preceded by `", "`. */
  function Continuation(items: seq<string>): string {
    if items == [] then "" else ", " + items[0] + Continuation(items[1..])
  }

  /** `comma_separated!`: the first literal, then `", "` and each further one. */
  function CommaSeparated(items: seq<string>): string
    requires |items| > 0
  {
    items[0] + Continuation(items[1..])
  }

  function TotalLength(items: seq<string>): nat {
    if items == [] then 0 else |items[0]| + TotalLength(items[1..])
  }

  lemma {:induction false} ContinuationLength(items: seq<string>)
    ensures |Continuation(items)| == TotalLength(items) + 2 * |items|
  {
    if items != [] {
      ContinuationLength(items[1..]);
    }
  }

  /** The list is as long as its items plus two bytes per separator. */
  lemma CommaSeparatedLength(items: seq<string>)
    requires |items| > 0
    ensures |CommaSeparated(items)| == TotalLength(items) + 2 * (|items| - 1)
  {
    ContinuationLength(items[1..]);
  }

  /** A single literal is left as it is. */
  lemma CommaSeparatedSingle(item: string)
    ensures CommaSeparated([item]) == item
  {
  }

  /** Appending one more literal appends `", "` and that literal, in order. */
  lemma {:induction false} ContinuationSnoc(items: seq<string>, last: string)
    ensures Continuation(items + [last]) == Continuation(items) + ", " + last
  {
    if items != [] {
      assert (items + [last])[1..] == items[1..] + [last];
      ContinuationSnoc(items[1..], last);
    } else {
      assert items + [last] == [last];
    }
  }

  lemma CommaSeparatedSnoc(items: seq<string>, last: string)
    requires |items| > 0
    ensures CommaSeparated(items + [last]) == CommaSeparated(items) + ", " + last
  {
    assert (items + [last])[1..] == items[1..] + [last];
    ContinuationSnoc(items[1..], last);
  }

  /** A list of two or more is its first item, `", "`, and the list of the rest. */
  lemma CommaSeparatedCons(first: string, rest: seq<string>)
    requires |rest| > 0
    ensures CommaSeparated([first] + rest) == first + ", " + CommaSeparated(rest)
  {
    assert ([first] + rest)[1..] == rest;
  }

  // Reading a list back: split at each comma and drop the space after it.

  /** Index of the first comma, or the length when there is none. */
  function FirstComma(s: string): (k: nat)
    ensures k <= |s|
    ensures k < |s| ==> s[k] == ','
    ensures forall i :: 0 <= i < k ==> s[i] != ','
  {
    if s == [] then 0
    else if s[0] == ',' then 0
    else 1 + FirstComma(s[1..])
  }

  function Split(s: string): (r: seq<string>)
    ensures |r| > 0
    decreases |s|
  {
    var k := FirstComma(s);
    if k == |s| then [s]
    else [s[..k]] + Split(s[if k + 2 <= |s| then k + 2 else |s|..])
  }

  predicate NoComma(items: seq<string>) {
    forall i :: 0 <= i < |items| ==> ',' !in items[i]
  }

  lemma FirstCommaAfter(a: string, rest: string)
    requires ',' !in a
    ensures FirstComma(a + ", " + rest) == |a|
  {
    var s := a + ", " + rest;
    var k := FirstComma(s);
    assert s[|a|] == ',';
    assert forall i :: 0 <= i < |a| ==> s[i] == a[i];
  }

  /** Splitting a list of comma-free literals gives back exactly those literals. */
  lemma {:induction false} SplitCommaSeparated(items: seq<string>)
    requires |items| > 0 && NoComma(items)
    ensures Split(CommaSeparated(items)) == items
  {
    var first := items[0];
    assert ',' !in first;
    if |items| == 1 {
      assert CommaSeparated(items) == first;
      assert forall i :: 0 <= i < |first| ==> first[i] in first;
    } else {
      var rest := items[1..];
      assert items == [first] + rest;
      CommaSeparatedCons(first, rest);
      var s := first + ", " + CommaSeparated(rest);
      FirstCommaAfter(first, CommaSeparated(rest));
      assert s[..|first|] == first;
      assert s[|first| + 2..] == CommaSeparated(rest);
      assert NoComma(rest) by {
        forall i | 0 <= i < |rest| ensures ',' !in rest[i] { assert rest[i] == items[i + 1]; }
      }
      SplitCommaSeparated(rest);
    }
  }

  /** `using!`: the shared column list of a join, `USING (a, b, ...)`. */
  function Using(columns: seq<string>): (r: string)
    requires |columns| > 0
    ensures |r| == |CommaSeparated(columns)| + 8
    ensures r[..7] == "USING (" && r[|r| - 1] == ')'
    ensures r[7..|r| - 1] == CommaSeparated(columns)
  {
    "USING (" + CommaSeparated(columns) + ")"
  }

  /** The columns of a `USING` list can be read back from its text. */
  lemma UsingRecoversColumns(columns: seq<string>)
    requires |columns| > 0 && NoComma(columns)
    ensures var r := Using(columns); Split(r[7..|r| - 1]) == columns
  {
    SplitCommaSeparated(columns);
  }

  /** `logical_op!`. */
  datatype LogicalOp = And | Or

  function LogicalOpText(op: LogicalOp): string {
    match op
    case And => "AND"
    case Or => "OR"
  }

  /** The comparison tokens `comparison!` accepts. */
  datatype Comparison = Eq | Ne | Gt | Lt | Ge | Le

  /** The token as written in the macro invocation. */
  function Token(op: Comparison): string {
    match op
    case Eq => "=" case Ne => "!=" case Gt => ">" case Lt => "<" case Ge => ">=" case Le => "<="
  }

  /** `comparison!`: every token stands for itself in SQL except `!=`, which becomes `<>`. */
  function ComparisonText(op: Comparison): (r: string)
    ensures r == if op == Ne then "<>" else Token(op)
  {
    match op
    case Eq => "=" case Ne => "<>" case Gt => ">" case Lt => "<" case Ge => ">=" case Le => "<="
  }

  /** The operator a rendered comparison stands for. */
  function ParseComparison(s: string): Option<Comparison> {
    if s == "=" then Some(Eq)
    else if s == "<>" then Some(Ne)
    else if s == ">" then Some(Gt)
    else if s == "<" then Some(Lt)
    else if s == ">=" then Some(Ge)
    else if s == "<=" then Some(Le)
    else None
  }

  /** Each operator renders to text that reads back as that operator. */
  lemma ComparisonRoundTrip(op: Comparison)
    ensures ParseComparison(ComparisonText(op)) == Some(op)
  {
  }

  /** One comparison `a op b`. */
  datatype Term = Term(left: string, op: Comparison, right: string)

  /** A further term joined by `AND` or `OR`. */
  datatype Connective = Connective(logic: LogicalOp, term: Term)

  /** `condition!`: a first comparison followed by any number of connected ones. */
  datatype Condition = Condition(first: Term, rest: seq<Connective>)

  function TermText(t: Term): string {
    t.left + " " + ComparisonText(t.op) + " " + t.right
  }

  /** One further term with its connective: ` AND t` or ` OR t`. */
  function ConnectiveText(c: Connective): string {
    " " + LogicalOpText(c.logic) + " " + TermText(c.term)
  }

  function ConnectivesText(cs: seq<Connective>): string {
    if cs == [] then "" else ConnectiveText(cs[0]) + ConnectivesText(cs[1..])
  }

  function ConditionText(c: Condition): string {
    TermText(c.first) + ConnectivesText(c.rest)
  }

  /** A condition with one comparison is `a op b` with single spaces. */
  lemma ConditionSingle(t: Term)
    ensures ConditionText(Condition(t, [])) == t.left + " " + ComparisonText(t.op) + " " + t.right
  {
  }

  lemma {:induction false} ConnectivesSnoc(cs: seq<Connective>, c: Connective)
    ensures ConnectivesText(cs + [c]) == ConnectivesText(cs) + ConnectiveText(c)
  {
    if cs != [] {
      assert (cs + [c])[1..] == cs[1..] + [c];
      ConnectivesSnoc(cs[1..], c);
    } else {
      assert cs + [c] == [c];
    }
  }

  /** Each further term is appended after what came before, as ` AND t` or ` OR t`. */
  lemma ConditionAppend(cond: Condition, c: Connective)
    ensures ConditionText(Condition(cond.first, cond.rest + [c])) == ConditionText(cond) + ConnectiveText(c)
  {
    ConnectivesSnoc(cond.rest, c);
  }

  /** An entry of `static_tables!`: a table, optionally `AS` an alias. */
  datatype TableRef = TableRef(table: string, alias: Option<string>)

  function TableRefText(t: TableRef): (r: string)
    ensures t.alias.None? ==> r == t.table
    ensures t.alias.Some? ==> r == t.table + " AS " + t.alias.value
  {
    match t.alias
    case None => t.table
    case Some(a) => t.table + " AS " + a
  }

  function TableRefTexts(tables: seq<TableRef>): (r: seq<string>)
    ensures |r| == |tables|
    ensures forall i :: 0 <= i < |tables| ==> r[i] == TableRefText(tables[i])
  {
    if tables == [] then [] else [TableRefText(tables[0])] + TableRefTexts(tables[1..])
  }

  /** `static_tables!`: each entry rendered, entries separated by `", "`. */
  function StaticTables(tables: seq<TableRef>): string
    requires |tables| > 0
  {
    CommaSeparated(TableRefTexts(tables))
  }

  /** Without aliases, a table list is the comma-separated list of the names. */
  lemma StaticTablesWithoutAliases(tables: seq<TableRef>)
    requires |tables| > 0
    requires forall i :: 0 <= i < |tables| ==> tables[i].alias.None?
    ensures StaticTables(tables) == CommaSeparated(seq(|tables|, i requires 0 <= i < |tables| => tables[i].table))
  {
    assert TableRefTexts(tables) == seq(|tables|, i requires 0 <= i < |tables| => tables[i].table);
  }

  /** A pre-assembled table list handed whole to the builder (`Tables`). */
  datatype Tables = Tables(text: string)

  /** A pre-assembled column list handed whole to the builder (`Columns`). */
  datatype Columns = Columns(text: string)

  /** `tables!`: the `static_tables!` text wrapped as a `Tables` fragment. */
  function TablesOf(tables: seq<TableRef>): (r: Tables)
    requires |tables| > 0
    ensures r.text == StaticTables(tables)
  {
    Tables(StaticTables(tables))
  }

  datatype JoinKind = Inner | Left | Right | Full

  function JoinKindText(k: JoinKind): string {
    match k
    case Inner => "INNER" case Left => "LEFT" case Right => "RIGHT" case Full => "FULL"
  }

  datatype JoinConstraint = On(condition: Condition) | UsingColumns(columns: seq<string>)

  /** `join!`: a cross join, or a qualified join with an `ON` condition or a `USING` list. */
  datatype Join = Cross(table: string) | Qualified(kind: JoinKind, table: string, constraint: JoinConstraint)

  /**
   * The joins `join!` expands to: a `USING` list of one column leaves an
   * empty item in the `concat!` that `using!` produces, which does not
   * compile, so a `USING` join names two or more columns.
   */
  predicate WellFormedJoin(j: Join) {
    j.Qualified? && j.constraint.UsingColumns? ==> |j.constraint.columns| >= 2
  }

  function JoinText(j: Join): (r: string)
    requires WellFormedJoin(j)
    ensures j.Cross? ==> r == "CROSS JOIN " + j.table
    ensures j.Qualified? && j.constraint.On? ==>
      r == JoinKindText(j.kind) + " JOIN " + j.table + " ON " + ConditionText(j.constraint.condition)
    ensures j.Qualified? && j.constraint.UsingColumns? ==>
      r == JoinKindText(j.kind) + " JOIN " + j.table + " " + Using(j.constraint.columns)
  {
    match j
    case Cross(t) => "CROSS JOIN " + t
    case Qualified(k, t, On(c)) => JoinKindText(k) + " JOIN " + t + " ON " + ConditionText(c)
    case Qualified(k, t, UsingColumns(cols)) => JoinKindText(k) + " JOIN " + t + " " + Using(cols)
  }

  /** The first word of a rendered join: `CROSS` or the kind of a qualified join. */
  function JoinKeyword(j: Join): (w: string)
    ensures |w| == 4 || |w| == 5
    ensures ' ' !in w
  {
    match j
    case Cross(_) => "CROSS"
    case Qualified(k, _, _) => JoinKindText(k)
  }

  /** The join type a rendered join names with its first word: `None` for a cross join. */
  function ParseJoinType(r: string): Option<Option<JoinKind>> {
    var w := if |r| > 4 && r[4] == ' ' then r[..4] else if |r| > 5 then r[..5] else r;
    if w == "CROSS" then Some(None)
    else if w == "INNER" then Some(Some(Inner))
    else if w == "LEFT" then Some(Some(Left))
    else if w == "RIGHT" then Some(Some(Right))
    else if w == "FULL" then Some(Some(Full))
    else None
  }

  /** Every join renders to text that begins with `<keyword> JOIN <table>`. */
  lemma JoinTextHead(j: Join)
    requires WellFormedJoin(j)
    ensures var r, w := JoinText(j), JoinKeyword(j);
      |r| >= |w| + 6 + |j.table| && r[..|w|] == w && r[|w|..|w| + 6] == " JOIN "
      && r[|w| + 6..|w| + 6 + |j.table|] == j.table
  {
    var r, w := JoinText(j), JoinKeyword(j);
    var rest := match j
      case Cross(_) => ""
      case Qualified(_, _, On(c)) => " ON " + ConditionText(c)
      case Qualified(_, _, UsingColumns(cols)) => " " + Using(cols);
    assert r == w + " JOIN " + j.table + rest;
  }

  /** The type of a join, cross or the kind of a qualified one, reads back from its text. */
  lemma JoinTypeRoundTrip(j: Join)
    requires WellFormedJoin(j)
    ensures ParseJoinType(JoinText(j)) == Some(if j.Cross? then None else Some(j.kind))
  {
    var r, w := JoinText(j), JoinKeyword(j);
    JoinTextHead(j);
    assert r[|w|] == r[|w|..|w| + 6][0] == " JOIN "[0] == ' ';
    if |w| == 5 {
      assert r[4] == w[4];
      assert r[..5] == w;
    } else {
      assert r[..4] == w;
    }
  }

  /** A slice of the second part of a concatenation. */
  lemma SliceAfter(a: string, b: string, i: nat, k: nat)
    requires i <= k <= |b|
    ensures (a + b)[|a| + i..|a| + k] == b[i..k]
  {
  }

  /** The columns of a `USING` join read back from the text after its table. */
  lemma JoinUsingRecoversColumns(k: JoinKind, table: string, columns: seq<string>)
    requires |columns| >= 2 && NoComma(columns)
    ensures var r, n := JoinText(Qualified(k, table, UsingColumns(columns))), |JoinKindText(k)| + 7 + |table| + 7;
      |r| >= n + 1 && Split(r[n..|r| - 1]) == columns
  {
    var head := JoinKindText(k) + " JOIN " + table + " ";
    UsingAfterHead(head, columns);
    JoinUsingText(k, table, columns, head);
  }

  lemma JoinUsingText(k: JoinKind, table: string, columns: seq<string>, head: string)
    requires |columns| >= 2 && head == JoinKindText(k) + " JOIN " + table + " "
    ensures JoinText(Qualified(k, table, UsingColumns(columns))) == head + Using(columns)
    ensures |JoinKindText(k)| + 7 + |table| + 7 == |head| + 7
  {
  }

  /** After any head, the text between `USING (` and `)` splits into the columns. */
  lemma UsingAfterHead(head: string, columns: seq<string>)
    requires |columns| > 0 && NoComma(columns)
    ensures var r := head + Using(columns); |r| >= |head| + 8 && Split(r[|head| + 7..|r| - 1]) == columns
  {
    var u := Using(columns);
    SliceAfter(head, u, 7, |u| - 1);
    UsingRecoversColumns(columns);
  }

  /** `ALL` or `DISTINCT`, or neither. */
  datatype SetQuantifier = Plain | All | Distinct

  function QuantifierPrefix(q: SetQuantifier): string {
    match q
    case Plain => "" case All => "ALL " case Distinct => "DISTINCT "
  }

  /** `group_by!`: `GROUP BY`, an optional quantifier, then the comma-separated list. */
  function GroupBy(q: SetQuantifier, items: seq<string>): (r: string)
    requires |items| > 0
    ensures |r| >= 9 && r[..9] == "GROUP BY "
    ensures r[9..] == QuantifierPrefix(q) + CommaSeparated(items)
  {
    "GROUP BY " + QuantifierPrefix(q) + CommaSeparated(items)
  }

  /** The items of a `GROUP BY` clause read back from the text after its quantifier. */
  lemma GroupByRecoversItems(q: SetQuantifier, items: seq<string>)
    requires |items| > 0 && NoComma(items)
    ensures var r, n := GroupBy(q, items), 9 + |QuantifierPrefix(q)|;
      |r| >= n && Split(r[n..]) == items
  {
    var r, p := GroupBy(q, items), QuantifierPrefix(q);
    assert r == "GROUP BY " + p + CommaSeparated(items);
    SliceAfter("GROUP BY " + p, CommaSeparated(items), 0, |CommaSeparated(items)|);
    assert r[9 + |p|..] == CommaSeparated(items);
    SplitCommaSeparated(items);
  }

  datatype GroupingKind = List | Rollup | Cube | GroupingSets

  /** `grouping_element!`: the bare list, or the list wrapped in `ROLLUP`, `CUBE` or `GROUPING SETS`. */
  function GroupingElement(kind: GroupingKind, items: seq<string>): (r: string)
    requires |items| > 0
    ensures kind == List ==> r == CommaSeparated(items)
    ensures kind != List ==> |r| > 0 && r[|r| - 1] == ')'
    ensures kind == Rollup ==> r == "ROLLUP (" + CommaSeparated(items) + ")"
    ensures kind == Cube ==> r == "CUBE (" + CommaSeparated(items) + ")"
    ensures kind == GroupingSets ==> r == "GROUPING SETS (" + CommaSeparated(items) + ")"
  {
    match kind
    case List => CommaSeparated(items)
    case Rollup => "ROLLUP (" + CommaSeparated(items) + ")"
    case Cube => "CUBE (" + CommaSeparated(items) + ")"
    case GroupingSets => "GROUPING SETS (" + CommaSeparated(items) + ")"
  }

  /** The text a grouping element opens with: nothing for a bare list. */
  function GroupingOpening(kind: GroupingKind): string {
    match kind
    case List => ""
    case Rollup => "ROLLUP ("
    case Cube => "CUBE ("
    case GroupingSets => "GROUPING SETS ("
  }

  /** The items of a grouping element read back from between its opening and its closing parenthesis. */
  lemma GroupingElementRecoversItems(kind: GroupingKind, items: seq<string>)
    requires |items| > 0 && NoComma(items)
    ensures var r, n, c := GroupingElement(kind, items), |GroupingOpening(kind)|, if kind == List then 0 else 1;
      |r| >= n + c && r[..n] == GroupingOpening(kind) && Split(r[n..|r| - c]) == items
  {
    var r, o, list := GroupingElement(kind, items), GroupingOpening(kind), CommaSeparated(items);
    var c := if kind == List then 0 else 1;
    var closing := if kind == List then "" else ")";
    assert r == o + (list + closing);
    SliceAfter(o, list + closing, 0, |list|);
    assert r[|o|..|r| - c] == list;
    SplitCommaSeparated(items);
  }

  datatype Nulls = NullsFirst | NullsLast

  /** The ordering of one `ORDER BY` expression. */
  datatype Ordering = Asc(nulls: Option<Nulls>) | Desc(nulls: Option<Nulls>) | UsingOperator(op: Comparison)

  function NullsText(n: Option<Nulls>): string {
    match n
    case None => ""
    case Some(NullsFirst) => " NULLS FIRST"
    case Some(NullsLast) => " NULLS LAST"
  }

  /** `order_by!`: `ORDER BY expr` then `ASC`/`DESC` with optional nulls placement, or `USING op`. */
  function OrderBy(expr: string, o: Ordering): (r: string)
    ensures |r| >= 9 + |expr| && r[..9] == "ORDER BY " && r[9..9 + |expr|] == expr
    ensures o.Asc? ==> r[9 + |expr|..] == " ASC" + NullsText(o.nulls)
    ensures o.Desc? ==> r[9 + |expr|..] == " DESC" + NullsText(o.nulls)
    ensures o.UsingOperator? ==> r[9 + |expr|..] == " USING " + ComparisonText(o.op)
  {
    "ORDER BY " + expr +
      match o
      case Asc(n) => " ASC" + NullsText(n)
      case Desc(n) => " DESC" + NullsText(n)
      case UsingOperator(op) => " USING " + ComparisonText(op)
  }

  /** The nulls placement a rendered suffix names; `None` when it names none of them. */
  function ParseNulls(s: string): Option<Option<Nulls>> {
    if s == "" then Some(None)
    else if s == " NULLS FIRST" then Some(Some(NullsFirst))
    else if s == " NULLS LAST" then Some(Some(NullsLast))
    else None
  }

  /** The ordering a rendered `ORDER BY` suffix names: its direction and nulls placement, or its operator. */
  function ParseOrdering(s: string): Option<Ordering> {
    if |s| >= 4 && s[..4] == " ASC" then
      match ParseNulls(s[4..])
      case Some(n) => Some(Asc(n))
      case None => None
    else if |s| >= 5 && s[..5] == " DESC" then
      match ParseNulls(s[5..])
      case Some(n) => Some(Desc(n))
      case None => None
    else if |s| >= 7 && s[..7] == " USING " then
      match ParseComparison(s[7..])
      case Some(op) => Some(UsingOperator(op))
      case None => None
    else None
  }

  lemma NullsRoundTrip(n: Option<Nulls>)
    ensures ParseNulls(NullsText(n)) == Some(n)
  {
  }

  /** The ordering of an `ORDER BY` clause reads back from the text after its expression. */
  lemma OrderByRoundTrip(expr: string, o: Ordering)
    ensures var r := OrderBy(expr, o); ParseOrdering(r[9 + |expr|..]) == Some(o)
  {
    var s := OrderBy(expr, o)[9 + |expr|..];
    match o
    case Asc(n) =>
      assert s == " ASC" + NullsText(n);
      assert s[..4] == " ASC" && s[4..] == NullsText(n);
      NullsRoundTrip(n);
    case Desc(n) =>
      assert s == " DESC" + NullsText(n);
      assert s[1] == 'D';
      assert s[..5] == " DESC" && s[5..] == NullsText(n);
      NullsRoundTrip(n);
    case UsingOperator(op) =>
      assert s == " USING " + ComparisonText(op);
      assert s[1] == 'U';
      assert s[..7] == " USING " && s[7..] == ComparisonText(op);
      ComparisonRoundTrip(op);
  }
}
