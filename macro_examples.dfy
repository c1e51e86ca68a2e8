/**
 * The expected outputs of the unit tests of src/select/macros.rs, proved of
 * the fragment builders of `Macros`. Comparing a long string literal with a
 * concatenation is costly for the solver, so every expected string is
 * assembled by a lemma of its own (the `...Text` lemmas, which state facts
 * about literals only); the example lemmas then combine those with the
 * structure of each fragment.
 */
module MacroExamples {
  import opened Wrappers
  import opened Macros

  // ------------------------------------------------------ lists of literals

  lemma CommaSeparatedTwo(a: string, b: string)
    ensures CommaSeparated([a, b]) == a + ", " + b
  {
    assert [a, b][1..] == [b];
    assert [b][1..] == [];
    assert Continuation([b]) == ", " + b;
  }

  lemma CommaSeparatedThree(a: string, b: string, c: string)
    ensures CommaSeparated([a, b, c]) == a + ", " + b + ", " + c
  {
    assert [a, b, c][1..] == [b, c];
    assert [b, c][1..] == [c];
    assert [c][1..] == [];
    assert Continuation([c]) == ", " + c;
    assert Continuation([b, c]) == ", " + b + (", " + c);
  }

  lemma CommaSeparatedFour(a: string, b: string, c: string, d: string)
    ensures CommaSeparated([a, b, c, d]) == a + ", " + b + ", " + c + ", " + d
  {
    assert [a, b, c, d][1..] == [b, c, d];
    assert [b, c, d][1..] == [c, d];
    assert [c, d][1..] == [d];
    assert [d][1..] == [];
    assert Continuation([d]) == ", " + d;
    assert Continuation([c, d]) == ", " + c + (", " + d);
    assert Continuation([b, c, d]) == ", " + b + (", " + c + ", " + d);
  }

  /** `comma_separated_test` (src/select/macros.rs:295-304). */
  lemma CommaSeparatedExamples()
    ensures CommaSeparated(["id"]) == "id"
    ensures CommaSeparated(["'quoted column'"]) == "'quoted column'"
    ensures CommaSeparated(["id", "name"]) == "id, name"
    ensures CommaSeparated(["id", "name", "age"]) == "id, name, age"
    ensures CommaSeparated(["id", "name", "age", "email"]) == "id, name, age, email"
  {
    CommaSeparatedTwo("id", "name");
    CommaSeparatedThree("id", "name", "age");
    CommaSeparatedFour("id", "name", "age", "email");
  }

  // ---------------------------------------------------------------- tables

  /** The single-table cases of `static_tables_test` (src/select/macros.rs:308-314). */
  lemma StaticTablesExamples()
    ensures StaticTables([TableRef("user", None)]) == "user"
    ensures StaticTables([TableRef("user", Some("u"))]) == "user AS u"
    ensures StaticTables([TableRef("'quoted table'", None)]) == "'quoted table'"
    ensures StaticTables([TableRef("'quoted table'", Some("'other'"))]) == "'quoted table' AS 'other'"
  {
  }

  lemma TableListText()
    ensures "user" + ", " + "customer" == "user, customer"
    ensures "user" + ", " + "customer" + ", " + "organization" == "user, customer, organization"
  {
    assert "user" + ", " == "user, ";
    assert "user, " + "customer" == "user, customer";
    assert "user, customer" + ", " == "user, customer, ";
  }

  lemma AliasTexts()
    ensures "customer" + " AS " + "c" == "customer AS c"
    ensures "product" + " AS " + "p" == "product AS p"
  {
  }

  lemma AliasedTableListText()
    ensures "user" + ", " + "customer AS c" + ", " + "organization" + ", " + "product AS p"
         == "user, customer AS c, organization, product AS p"
  {
    assert "user" + ", " == "user, ";
    assert "user, " + "customer AS c" == "user, customer AS c";
    assert "user, customer AS c" + ", " == "user, customer AS c, ";
    assert "user, customer AS c, " + "organization" == "user, customer AS c, organization";
    assert "user, customer AS c, organization" + ", " == "user, customer AS c, organization, ";
  }

  /** The lists of `static_tables_test` (src/select/macros.rs:315-323), with and without aliases. */
  lemma StaticTablesListExamples()
    ensures StaticTables([TableRef("user", None), TableRef("customer", None)]) == "user, customer"
    ensures StaticTables([TableRef("user", None), TableRef("customer", None), TableRef("organization", None)])
         == "user, customer, organization"
    ensures StaticTables([TableRef("user", None), TableRef("customer", Some("c")),
                          TableRef("organization", None), TableRef("product", Some("p"))])
         == "user, customer AS c, organization, product AS p"
  {
    TableListText();
    AliasTexts();
    AliasedTableListText();
    var two := [TableRef("user", None), TableRef("customer", None)];
    assert TableRefTexts(two) == ["user", "customer"];
    CommaSeparatedTwo("user", "customer");
    var three := [TableRef("user", None), TableRef("customer", None), TableRef("organization", None)];
    assert TableRefTexts(three) == ["user", "customer", "organization"];
    CommaSeparatedThree("user", "customer", "organization");
    var four := [TableRef("user", None), TableRef("customer", Some("c")),
                 TableRef("organization", None), TableRef("product", Some("p"))];
    assert TableRefTexts(four) == ["user", "customer AS c", "organization", "product AS p"];
    CommaSeparatedFour("user", "customer AS c", "organization", "product AS p");
  }

  // ----------------------------------------------------------------- using

  lemma UsingText()
    ensures "USING (" + "id" + ")" == "USING (id)"
    ensures "id" + ", " + "customer_id" == "id, customer_id"
    ensures "USING (" + "id, customer_id" + ")" == "USING (id, customer_id)"
    ensures "id" + ", " + "department" == "id, department"
    ensures "USING (" + "id, department" + ")" == "USING (id, department)"
  {
    assert "id" + ", " == "id, ";
  }

  lemma UsingThreeText()
    ensures "id" + ", " + "sale_id" + ", " + "customer_id" == "id, sale_id, customer_id"
    ensures "USING (" + "id, sale_id, customer_id" + ")" == "USING (id, sale_id, customer_id)"
  {
    assert "id" + ", " == "id, ";
    assert "id, " + "sale_id" == "id, sale_id";
    assert "id, sale_id" + ", " == "id, sale_id, ";
  }

  /** `using_test` (src/select/macros.rs:328-333). */
  lemma UsingExamples()
    ensures Using(["id"]) == "USING (id)"
    ensures Using(["id", "customer_id"]) == "USING (id, customer_id)"
    ensures Using(["id", "sale_id", "customer_id"]) == "USING (id, sale_id, customer_id)"
  {
    UsingText();
    UsingThreeText();
    CommaSeparatedTwo("id", "customer_id");
    CommaSeparatedThree("id", "sale_id", "customer_id");
  }

  // ----------------------------------------------------------------- joins

  /** `user.id = access_history.user_id`. */
  function UserIdMatches(): Term {
    Term("user.id", Eq, "access_history.user_id")
  }

  /** `user.updated < access_history.created`. */
  function UpdatedBeforeCreated(): Term {
    Term("user.updated", Lt, "access_history.created")
  }

  /** The `ON` conditions of `join_test`: the id match, alone or followed by `AND`/`OR` the timestamps. */
  function JoinTestCondition(logic: Option<LogicalOp>): Condition {
    match logic
    case None => Condition(UserIdMatches(), [])
    case Some(l) => Condition(UserIdMatches(), [Connective(l, UpdatedBeforeCreated())])
  }

  lemma UserIdMatchesText()
    ensures "user.id" + " " + "=" + " " + "access_history.user_id" == "user.id = access_history.user_id"
  {
    assert "user.id" + " " + "=" + " " == "user.id = ";
  }

  lemma UpdatedBeforeCreatedText()
    ensures "user.updated" + " " + "<" + " " + "access_history.created" == "user.updated < access_history.created"
  {
    assert "user.updated" + " " + "<" + " " == "user.updated < ";
  }

  lemma ConnectiveKeywords()
    ensures " " + "AND" + " " == " AND "
    ensures " " + "OR" + " " == " OR "
  {
  }

  /**
   * The three conditions render as `join_test` spells them; a compound
   * condition is written as its first term, its connective and its second
   * term.
   */
  lemma JoinTestConditions()
    ensures ConditionText(JoinTestCondition(None)) == "user.id = access_history.user_id"
    ensures ConditionText(JoinTestCondition(Some(And)))
         == "user.id = access_history.user_id" + " AND " + "user.updated < access_history.created"
    ensures ConditionText(JoinTestCondition(Some(Or)))
         == "user.id = access_history.user_id" + " OR " + "user.updated < access_history.created"
  {
    UserIdMatchesText();
    UpdatedBeforeCreatedText();
    ConnectiveKeywords();
    var first := "user.id = access_history.user_id";
    var second := "user.updated < access_history.created";
    assert ConnectivesText([Connective(And, UpdatedBeforeCreated())]) == " AND " + second + "";
    assert ConnectivesText([Connective(Or, UpdatedBeforeCreated())]) == " OR " + second + "";
    Associative(first, " AND ", second);
    Associative(first, " OR ", second);
  }

  lemma Associative(a: string, b: string, c: string)
    ensures a + (b + c) == a + b + c
  {
  }

  /** The two heads of a qualified join on `user`: before `ON` and before `USING`. */
  lemma JoinHeadText(k: string)
    ensures k + " JOIN " + "user" + " ON " == k + " JOIN user ON "
    ensures k + " JOIN " + "user" + " " == k + " JOIN user "
  {
    assert k + " JOIN " + "user" + " ON " == k + (" JOIN " + "user" + " ON ");
    assert k + " JOIN " + "user" + " " == k + (" JOIN " + "user" + " ");
    assert " JOIN " + "user" == " JOIN user";
  }

  /** Each qualified join of `join_test` is its head followed by the `USING` list or the first term. */
  lemma QualifiedJoinParts(k: JoinKind)
    ensures JoinText(Qualified(k, "user", UsingColumns(["id", "department"])))
         == JoinKindText(k) + " JOIN user " + "USING (id, department)"
    ensures JoinText(Qualified(k, "user", On(JoinTestCondition(None))))
         == JoinKindText(k) + " JOIN user ON " + "user.id = access_history.user_id"
    ensures JoinText(Qualified(k, "user", On(JoinTestCondition(Some(And)))))
         == JoinKindText(k) + " JOIN user ON " + "user.id = access_history.user_id" + " AND " + "user.updated < access_history.created"
    ensures JoinText(Qualified(k, "user", On(JoinTestCondition(Some(Or)))))
         == JoinKindText(k) + " JOIN user ON " + "user.id = access_history.user_id" + " OR " + "user.updated < access_history.created"
  {
    JoinHeadText(JoinKindText(k));
    JoinTestConditions();
    UsingText();
    CommaSeparatedTwo("id", "department");
    var head := JoinKindText(k) + " JOIN user ON ";
    var first := "user.id = access_history.user_id";
    var second := "user.updated < access_history.created";
    Associative(head, first + " AND ", second);
    Associative(head, first, " AND ");
    Associative(head, first + " OR ", second);
    Associative(head, first, " OR ");
  }

  lemma InnerJoinUsingText()
    ensures "INNER" + " JOIN user " + "USING (id, department)" == "INNER JOIN user USING (id, department)"
  {
    assert "INNER" + " JOIN user " == "INNER JOIN user ";
  }

  lemma InnerJoinOnText()
    ensures "INNER" + " JOIN user ON " + "user.id = access_history.user_id" == "INNER JOIN user ON user.id = access_history.user_id"
  {
    assert "INNER" + " JOIN user ON " == "INNER JOIN user ON ";
  }

  lemma LeftJoinUsingText()
    ensures "LEFT" + " JOIN user " + "USING (id, department)" == "LEFT JOIN user USING (id, department)"
  {
    assert "LEFT" + " JOIN user " == "LEFT JOIN user ";
  }

  lemma LeftJoinOnText()
    ensures "LEFT" + " JOIN user ON " + "user.id = access_history.user_id" == "LEFT JOIN user ON user.id = access_history.user_id"
  {
    assert "LEFT" + " JOIN user ON " == "LEFT JOIN user ON ";
  }

  lemma RightJoinUsingText()
    ensures "RIGHT" + " JOIN user " + "USING (id, department)" == "RIGHT JOIN user USING (id, department)"
  {
    assert "RIGHT" + " JOIN user " == "RIGHT JOIN user ";
  }

  lemma RightJoinOnText()
    ensures "RIGHT" + " JOIN user ON " + "user.id = access_history.user_id" == "RIGHT JOIN user ON user.id = access_history.user_id"
  {
    assert "RIGHT" + " JOIN user ON " == "RIGHT JOIN user ON ";
  }

  lemma FullJoinUsingText()
    ensures "FULL" + " JOIN user " + "USING (id, department)" == "FULL JOIN user USING (id, department)"
  {
    assert "FULL" + " JOIN user " == "FULL JOIN user ";
  }

  lemma FullJoinOnText()
    ensures "FULL" + " JOIN user ON " + "user.id = access_history.user_id" == "FULL JOIN user ON user.id = access_history.user_id"
  {
    assert "FULL" + " JOIN user ON " == "FULL JOIN user ON ";
  }

  /**
   * `join_test`, the cross join and the `INNER` joins (src/select/macros.rs:338-351); a compound
   * condition is written as its first term, its connective and its second
   * term.
   */
  lemma InnerJoinExamples()
    ensures JoinText(Cross("user")) == "CROSS JOIN user"
    ensures JoinText(Qualified(Inner, "user", UsingColumns(["id", "department"])))
         == "INNER JOIN user USING (id, department)"
    ensures JoinText(Qualified(Inner, "user", On(JoinTestCondition(None))))
         == "INNER JOIN user ON user.id = access_history.user_id"
    ensures JoinText(Qualified(Inner, "user", On(JoinTestCondition(Some(And)))))
         == "INNER JOIN user ON user.id = access_history.user_id" + " AND " + "user.updated < access_history.created"
  {
    QualifiedJoinParts(Inner);
    InnerJoinUsingText();
    InnerJoinOnText();
  }

  /**
   * `join_test`, the `LEFT` joins (src/select/macros.rs:353-364); a compound
   * condition is written as its first term, its connective and its second
   * term.
   */
  lemma LeftJoinExamples()
    ensures JoinText(Qualified(Left, "user", UsingColumns(["id", "department"])))
         == "LEFT JOIN user USING (id, department)"
    ensures JoinText(Qualified(Left, "user", On(JoinTestCondition(None))))
         == "LEFT JOIN user ON user.id = access_history.user_id"
    ensures JoinText(Qualified(Left, "user", On(JoinTestCondition(Some(Or)))))
         == "LEFT JOIN user ON user.id = access_history.user_id" + " OR " + "user.updated < access_history.created"
  {
    QualifiedJoinParts(Left);
    LeftJoinUsingText();
    LeftJoinOnText();
  }

  /**
   * `join_test`, the `RIGHT` joins (src/select/macros.rs:366-377); a compound
   * condition is written as its first term, its connective and its second
   * term.
   */
  lemma RightJoinExamples()
    ensures JoinText(Qualified(Right, "user", UsingColumns(["id", "department"])))
         == "RIGHT JOIN user USING (id, department)"
    ensures JoinText(Qualified(Right, "user", On(JoinTestCondition(None))))
         == "RIGHT JOIN user ON user.id = access_history.user_id"
    ensures JoinText(Qualified(Right, "user", On(JoinTestCondition(Some(And)))))
         == "RIGHT JOIN user ON user.id = access_history.user_id" + " AND " + "user.updated < access_history.created"
  {
    QualifiedJoinParts(Right);
    RightJoinUsingText();
    RightJoinOnText();
  }

  /**
   * `join_test`, the `FULL` joins (src/select/macros.rs:379-390); a compound
   * condition is written as its first term, its connective and its second
   * term.
   */
  lemma FullJoinExamples()
    ensures JoinText(Qualified(Full, "user", UsingColumns(["id", "department"])))
         == "FULL JOIN user USING (id, department)"
    ensures JoinText(Qualified(Full, "user", On(JoinTestCondition(None))))
         == "FULL JOIN user ON user.id = access_history.user_id"
    ensures JoinText(Qualified(Full, "user", On(JoinTestCondition(Some(Or)))))
         == "FULL JOIN user ON user.id = access_history.user_id" + " OR " + "user.updated < access_history.created"
  {
    QualifiedJoinParts(Full);
    FullJoinUsingText();
    FullJoinOnText();
  }
}
