/** The query builder's rule tree and its flat table: QueryBuilder.cs and DataHelper.QueryBuilderToDataTable, with a
    decoder that shows nothing but spelling is lost. */
module QueryTable {
  import opened Options
  import opened Sequences

  datatype Condition = AND | OR

  datatype Operator =
    | Equals | NotEquals | LessThan | LessThanOrEquals | GreaterThan | GreaterThanOrEqual
    | Is | IsNot | In | NotIn | Between | NotBetween | IsNull | IsNotNull

  /** A rule with a condition is a nested group, whatever else it carries. A list of rules may hold null rules; a list
      that is null is treated everywhere like an empty one, and is empty here. */
  datatype QueryRule = QueryRule(field: Option<string>, op: Option<Operator>, value1: Option<string>,
                                 value2: Option<string>, rules: seq<Option<QueryRule>>,
                                 condition: Option<Condition>)

  datatype Direction = ASC | DESC

  datatype QueryOrder = QueryOrder(direction: Direction, field: Option<string>)

  datatype QueryBuilder = QueryBuilder(condition: Option<Condition>, rules: seq<Option<QueryRule>>,
                                       negated: Option<bool>, valid: Option<bool>,
                                       count: Option<int>, orderBy: seq<Option<QueryOrder>>,
                                       offset: Option<int>, pageSize: Option<int>)

  datatype RowType = ConditionRow | NotRow | CountRow | OrderRow | OffsetRow | RowCountRow | TotalCountRow | RuleRow

  /** The text of a cell: a word, or the decimal digits of a number. */
  datatype Text = Word(word: string) | Number(number: int)

  /** A row; a cell that is not set is None. */
  datatype Row = Row(group: int, parentGroup: Option<int>, kind: RowType, field: Text,
                     condition: Option<string>, value1: Option<string>, value2: Option<Text>)

  function ConditionName(c: Condition): string {
    if c == AND then "AND" else "OR"
  }

  function DirectionName(d: Direction): string {
    if d == ASC then "ASC" else "DESC"
  }

  function OperatorText(op: Option<Operator>): string {
    match op
    case Some(Equals) => "=" case Some(Is) => "="
    case Some(NotEquals) => "<>" case Some(IsNot) => "<>"
    case Some(GreaterThan) => ">" case Some(GreaterThanOrEqual) => ">="
    case Some(LessThan) => "<" case Some(LessThanOrEquals) => "<="
    case Some(In) => "IN" case Some(NotIn) => "NOT IN"
    case Some(Between) => "BETWEEN" case Some(NotBetween) => "NOT BETWEEN"
    case Some(IsNull) => "IS NULL" case Some(IsNotNull) => "IS NOT NULL"
    case None => ""
  }

  function TextOr(s: Option<string>): string {
    if s.Some? then s.value else ""
  }

  function RuleValue(r: QueryRule, value: Option<string>): Option<string> {
    if r.op == Some(IsNull) || r.op == Some(IsNotNull) then None else value
  }

  function RuleCells(r: QueryRule, group: int, parentGroup: Option<int>): Row {
    Row(group, parentGroup, RuleRow, Word(TextOr(r.field)), Some(OperatorText(r.op)), RuleValue(r, r.value1),
        if RuleValue(r, r.value2).Some? then Some(Word(RuleValue(r, r.value2).value)) else None)
  }

  /** What writing the table leaves of the rules: an IS NULL or IS NOT NULL rule loses its values. */
  function NulledRules(rules: seq<Option<QueryRule>>): seq<Option<QueryRule>>
    decreases rules
  {
    if rules == [] then [] else [NulledRule(rules[0])] + NulledRules(rules[1..])
  }

  function NulledRule(rule: Option<QueryRule>): Option<QueryRule>
    decreases rule
  {
    match rule
    case None => None
    case Some(r) =>
      if r.condition.None? then Some(r.(value1 := RuleValue(r, r.value1), value2 := RuleValue(r, r.value2)))
      else Some(r.(rules := NulledRules(r.rules)))
  }

  function PlainRow(group: int, parentGroup: Option<int>, kind: RowType, field: Text): Row {
    Row(group, parentGroup, kind, field, None, None, None)
  }

  /** The rows of a list of rules, in a group of the given number. */
  function RuleRows(rules: seq<Option<QueryRule>>, group: int, parentGroup: Option<int>): seq<Row>
    decreases rules
  {
    if rules == [] then []
    else OneRuleRows(rules[0], group, parentGroup) + RuleRows(rules[1..], group, parentGroup)
  }

  function OneRuleRows(rule: Option<QueryRule>, group: int, parentGroup: Option<int>): seq<Row>
    decreases rule
  {
    match rule
    case None => []
    case Some(r) =>
      if r.condition.None? then [RuleCells(r, group, parentGroup)]
      else
        [PlainRow(group + 1, Some(group), ConditionRow, Word(ConditionName(r.condition.value)))]
        + RuleRows(r.rules, group + 1, Some(group))
  }

  function OptionalRow(kind: RowType, field: Option<Text>): seq<Row> {
    if field.Some? then [PlainRow(1, None, kind, field.value)] else []
  }

  function NumberText(n: Option<int>): Option<Text> {
    if n.Some? then Some(Number(n.value)) else None
  }

  function ConditionText(c: Option<Condition>): Option<Text> {
    if c.Some? then Some(Word(ConditionName(c.value))) else None
  }

  function NotText(negated: Option<bool>): Option<Text> {
    if negated == Some(true) then Some(Word("NOT")) else None
  }

  /** The rows of the orders from the i-th on; a null order is passed over but counted. */
  function OrderRows(orders: seq<Option<QueryOrder>>, i: nat): seq<Row>
    requires i <= |orders|
    decreases |orders| - i
  {
    if i == |orders| then [] else OneOrderRow(orders[i], i) + OrderRows(orders, i + 1)
  }

  function OneOrderRow(order: Option<QueryOrder>, i: nat): seq<Row> {
    if order.None? then [] else [OrderCells(order.value, i)]
  }

  function OrderCells(o: QueryOrder, i: nat): Row {
    Row(1, None, OrderRow, Word(TextOr(o.field)), Some(DirectionName(o.direction)), None, Some(Number(i)))
  }

  /** The rows of a whole builder, part by part from the last to the first. */
  function FromTotalCount(qb: QueryBuilder): seq<Row> {
    OptionalRow(TotalCountRow, NumberText(qb.pageSize)) + RuleRows(qb.rules, 1, None)
  }

  function FromRowCount(qb: QueryBuilder): seq<Row> {
    OptionalRow(RowCountRow, NumberText(qb.pageSize)) + FromTotalCount(qb)
  }

  function FromOffset(qb: QueryBuilder): seq<Row> {
    OptionalRow(OffsetRow, NumberText(qb.offset)) + FromRowCount(qb)
  }

  function FromOrders(qb: QueryBuilder): seq<Row> {
    OrderRows(qb.orderBy, 0) + FromOffset(qb)
  }

  function FromCount(qb: QueryBuilder): seq<Row> {
    OptionalRow(CountRow, NumberText(qb.count)) + FromOrders(qb)
  }

  function FromNot(qb: QueryBuilder): seq<Row> {
    OptionalRow(NotRow, NotText(qb.negated)) + FromCount(qb)
  }

  function TableRows(qb: QueryBuilder): seq<Row> {
    OptionalRow(ConditionRow, ConditionText(qb.condition)) + FromNot(qb)
  }

  // ---- The table as an object ----

  class DataTable {
    var columns: seq<string>
    var rows: seq<Row>

    constructor ()
      ensures columns == [] && rows == []
    {
      columns, rows := [], [];
    }

    method Add(row: Row)
      modifies this`rows
      ensures rows == old(rows) + [row]
    {
      rows := rows + [row];
    }
  }

  const COLUMNS: seq<string> := ["Group", "ParentGroup", "Type", "Field", "Condition", "Value1", "Value2"]

  ghost function RowsOf(dataTable: DataTable?): seq<Row>
    reads dataTable
  {
    if dataTable == null then [] else dataTable.rows
  }

  ghost function ColumnsOf(dataTable: DataTable?): seq<string>
    reads dataTable
  {
    if dataTable == null then [] else dataTable.columns
  }

  /** The first call, with level null. An exception (ok is false) is thrown for a missing table when there is a row to
      add. The rules are updated on the way; left is the builder with the rules as they are afterwards. */
  method QueryBuilderToDataTable(qb: QueryBuilder, dataTable: DataTable?) returns (ok: bool, left: QueryBuilder)
    modifies dataTable
    ensures dataTable == null ==> (ok <==> TableRows(qb) == [])
    ensures dataTable != null ==>
              ok && dataTable.rows == old(dataTable.rows) + TableRows(qb)
              && dataTable.columns ==
                 if old(dataTable.columns) != [] then old(dataTable.columns)
                 else ["Group", "ParentGroup", "Type", "Field", "Condition", "Value1", "Value2"]
    ensures ok ==> left == qb.(rules := NulledRules(qb.rules))
  {
    left := qb;
    if dataTable != null && |dataTable.columns| == 0 {
      dataTable.columns := COLUMNS;
    }
    ok := AddSettings(dataTable, qb);
    if ok {
      var rules;
      ok, rules := AddPaging(dataTable, qb);
      left := qb.(rules := rules);
    }
  }

  method AddSettings(dataTable: DataTable?, qb: QueryBuilder) returns (ok: bool)
    modifies dataTable
    ensures ColumnsOf(dataTable) == old(ColumnsOf(dataTable))
    ensures ok ==> RowsOf(dataTable) + FromOffset(qb) == old(RowsOf(dataTable)) + TableRows(qb)
    ensures !ok ==> dataTable == null && TableRows(qb) != []
  {
    ok := AddOptional(dataTable, ConditionRow, ConditionText(qb.condition), FromNot(qb));
    if ok {
      ok := AddOptional(dataTable, NotRow, NotText(qb.negated), FromCount(qb));
    }
    if ok {
      ok := AddOptional(dataTable, CountRow, NumberText(qb.count), FromOrders(qb));
    }
    if ok {
      ok := AddOrders(dataTable, qb.orderBy, FromOffset(qb));
    }
  }

  method AddPaging(dataTable: DataTable?, qb: QueryBuilder) returns (ok: bool, left: seq<Option<QueryRule>>)
    modifies dataTable
    ensures ColumnsOf(dataTable) == old(ColumnsOf(dataTable))
    ensures ok ==> RowsOf(dataTable) == old(RowsOf(dataTable)) + FromOffset(qb) && left == NulledRules(qb.rules)
    ensures !ok ==> dataTable == null && FromOffset(qb) != []
  {
    left := qb.rules;
    ok := AddOptional(dataTable, OffsetRow, NumberText(qb.offset), FromRowCount(qb));
    if ok {
      ok := AddOptional(dataTable, RowCountRow, NumberText(qb.pageSize), FromTotalCount(qb));
    }
    if ok {
      ok := AddOptional(dataTable, TotalCountRow, NumberText(qb.pageSize), RuleRows(qb.rules, 1, None));
    }
    if ok {
      ok, left := AddRules(dataTable, qb.rules, 1, None);
    }
  }

  /** One row, if there is a table. */
  method AddRow(dataTable: DataTable?, row: Row) returns (ok: bool)
    modifies dataTable
    ensures ColumnsOf(dataTable) == old(ColumnsOf(dataTable))
    ensures ok <==> dataTable != null
    ensures ok ==> RowsOf(dataTable) == old(RowsOf(dataTable)) + [row]
  {
    if dataTable == null {
      return false;
    }
    dataTable.Add(row);
    return true;
  }

  /** Adds one row or none; rest is what will be added later. */
  method AddOptional(dataTable: DataTable?, kind: RowType, field: Option<Text>, ghost rest: seq<Row>) returns (ok: bool)
    modifies dataTable
    ensures ColumnsOf(dataTable) == old(ColumnsOf(dataTable))
    ensures ok ==> RowsOf(dataTable) + rest == old(RowsOf(dataTable)) + (OptionalRow(kind, field) + rest)
    ensures !ok ==> dataTable == null && OptionalRow(kind, field) + rest != []
  {
    ghost var now := RowsOf(dataTable);
    ok := true;
    if field.Some? {
      ok := AddRow(dataTable, PlainRow(1, None, kind, field.value));
    }
    assert ok ==> RowsOf(dataTable) == now + OptionalRow(kind, field);
    Associative(now, OptionalRow(kind, field), rest);
  }

  method AddOrders(dataTable: DataTable?, orders: seq<Option<QueryOrder>>, ghost rest: seq<Row>) returns (ok: bool)
    modifies dataTable
    ensures ColumnsOf(dataTable) == old(ColumnsOf(dataTable))
    ensures ok ==> RowsOf(dataTable) + rest == old(RowsOf(dataTable)) + (OrderRows(orders, 0) + rest)
    ensures !ok ==> dataTable == null && OrderRows(orders, 0) + rest != []
  {
    ghost var was := RowsOf(dataTable);
    for i := 0 to |orders|
      invariant ColumnsOf(dataTable) == old(ColumnsOf(dataTable))
      invariant RowsOf(dataTable) + OrderRows(orders, i) == was + OrderRows(orders, 0)
    {
      ghost var now := RowsOf(dataTable);
      ok := AddOrder(dataTable, orders[i], i);
      if !ok {
        assert now == was == [];
        assert [] + OrderRows(orders, 0) == OrderRows(orders, 0);
        return;
      }
      Associative(now, OneOrderRow(orders[i], i), OrderRows(orders, i + 1));
    }
    Associative(was, OrderRows(orders, 0), rest);
    ok := true;
  }

  method AddOrder(dataTable: DataTable?, order: Option<QueryOrder>, i: nat) returns (ok: bool)
    modifies dataTable
    ensures ColumnsOf(dataTable) == old(ColumnsOf(dataTable))
    ensures ok ==> RowsOf(dataTable) == old(RowsOf(dataTable)) + OneOrderRow(order, i)
    ensures !ok ==> dataTable == null && OneOrderRow(order, i) != []
  {
    ok := true;
    if order.Some? {
      ok := AddRow(dataTable, OrderCells(order.value, i));
    }
  }

  /** The loop over the rules; a nested group is a call with the next level. */
  method AddRules(dataTable: DataTable?, rules: seq<Option<QueryRule>>, group: int, parentGroup: Option<int>)
    returns (ok: bool, left: seq<Option<QueryRule>>)
    modifies dataTable
    ensures ColumnsOf(dataTable) == old(ColumnsOf(dataTable))
    ensures ok ==> RowsOf(dataTable) == old(RowsOf(dataTable)) + RuleRows(rules, group, parentGroup)
    ensures ok ==> left == NulledRules(rules)
    ensures !ok ==> dataTable == null && RuleRows(rules, group, parentGroup) != []
    decreases rules
  {
    ghost var was := RowsOf(dataTable);
    ghost var all := RuleRows(rules, group, parentGroup);
    left := [];
    assert rules[0..] == rules;
    for i := 0 to |rules|
      invariant ColumnsOf(dataTable) == old(ColumnsOf(dataTable))
      invariant RowsOf(dataTable) + RuleRows(rules[i..], group, parentGroup) == was + all
      invariant left + NulledRules(rules[i..]) == NulledRules(rules)
    {
      ghost var now := RowsOf(dataTable);
      RulesFrom(rules, i, group, parentGroup);
      var rule;
      ok, rule := AddRule(dataTable, rules[i], group, parentGroup);
      if !ok {
        assert now == was == [];
        return;
      }
      Associative(now, OneRuleRows(rules[i], group, parentGroup), RuleRows(rules[i + 1..], group, parentGroup));
      Associative(left, [rule], NulledRules(rules[i + 1..]));
      left := left + [rule];
    }
    ok := true;
  }

  lemma RulesFrom(rules: seq<Option<QueryRule>>, i: nat, group: int, parentGroup: Option<int>)
    requires i < |rules|
    ensures RuleRows(rules[i..], group, parentGroup) ==
            OneRuleRows(rules[i], group, parentGroup) + RuleRows(rules[i + 1..], group, parentGroup)
    ensures NulledRules(rules[i..]) == [NulledRule(rules[i])] + NulledRules(rules[i + 1..])
  {
    assert rules[i..][0] == rules[i] && rules[i..][1..] == rules[i + 1..];
  }

  method AddRule(dataTable: DataTable?, rule: Option<QueryRule>, group: int, parentGroup: Option<int>)
    returns (ok: bool, left: Option<QueryRule>)
    modifies dataTable
    ensures ColumnsOf(dataTable) == old(ColumnsOf(dataTable))
    ensures ok ==> RowsOf(dataTable) == old(RowsOf(dataTable)) + OneRuleRows(rule, group, parentGroup)
    ensures ok ==> left == NulledRule(rule)
    ensures !ok ==> dataTable == null && OneRuleRows(rule, group, parentGroup) != []
    decreases rule
  {
    ok, left := true, rule;
    match rule {
      case None =>
      case Some(r) =>
        if r.condition.None? {
          var nulled := r;
          if r.op == Some(IsNull) || r.op == Some(IsNotNull) {
            nulled := r.(value1 := None, value2 := None);
          }
          left := Some(nulled);
          SameCells(r, group, parentGroup);
          ok := AddRow(dataTable, RuleCells(nulled, group, parentGroup));
        } else {
          ok := AddRow(dataTable,
                       PlainRow(group + 1, Some(group), ConditionRow, Word(ConditionName(r.condition.value))));
          if ok {
            var rules;
            ok, rules := AddRules(dataTable, r.rules, group + 1, Some(group));
            left := Some(r.(rules := rules));
          }
        }
    }
  }

  lemma SameCells(r: QueryRule, group: int, parentGroup: Option<int>)
    ensures RuleCells(r.(value1 := RuleValue(r, r.value1), value2 := RuleValue(r, r.value2)), group, parentGroup) ==
            RuleCells(r, group, parentGroup)
  {
  }

  /** The values that the rules lose are not in the table anyway: writing what is left gives the same rows again. */
  lemma {:induction false} NulledRowsAgain(rules: seq<Option<QueryRule>>, group: int, parentGroup: Option<int>)
    ensures RuleRows(NulledRules(rules), group, parentGroup) == RuleRows(rules, group, parentGroup)
    decreases rules, 1
  {
    if rules != [] {
      NulledRowsAgain(rules[1..], group, parentGroup);
      NulledRowAgain(rules[0], group, parentGroup);
      assert NulledRules(rules)[1..] == NulledRules(rules[1..]);
    }
  }

  lemma {:induction false} NulledRowAgain(rule: Option<QueryRule>, group: int, parentGroup: Option<int>)
    ensures OneRuleRows(NulledRule(rule), group, parentGroup) == OneRuleRows(rule, group, parentGroup)
    decreases rule, 0
  {
    if rule.Some? {
      if rule.value.condition.None? {
        SameCells(rule.value, group, parentGroup);
      } else {
        NulledRowsAgain(rule.value.rules, group + 1, Some(group));
      }
    }
  }

  lemma SameTableAgain(qb: QueryBuilder)
    ensures TableRows(qb.(rules := NulledRules(qb.rules))) == TableRows(qb)
  {
    NulledRowsAgain(qb.rules, 1, None);
  }

  // ---- What the table means ----

  /** A rule tree without nulls and with operators spelled out. */
  datatype Node = Leaf(field: string, op: Option<Operator>, value1: Option<string>, value2: Option<string>)
                | Group(condition: Condition, children: seq<Node>)

  datatype Query = Query(condition: Option<Condition>, negated: bool, count: Option<int>,
                         orders: seq<(string, Direction, nat)>, offset: Option<int>, pageSize: Option<int>,
                         children: seq<Node>)

  function NormalRules(rules: seq<Option<QueryRule>>): seq<Node>
    decreases rules
  {
    if rules == [] then [] else NormalRule(rules[0]) + NormalRules(rules[1..])
  }

  function NormalRule(rule: Option<QueryRule>): seq<Node>
    decreases rule
  {
    match rule
    case None => []
    case Some(r) =>
      if r.condition.None? then [NormalLeaf(r)] else [Group(r.condition.value, NormalRules(r.rules))]
  }

  /** A rule by itself: a missing field is the empty text, the values of IS NULL and IS NOT NULL do not matter, and
      operators with one meaning are one. */
  function NormalLeaf(r: QueryRule): Node {
    var field := match r.field { case Some(name) => name case None => "" };
    match r.op
    case Some(IsNull) => Leaf(field, Some(IsNull), None, None)
    case Some(IsNotNull) => Leaf(field, Some(IsNotNull), None, None)
    case _ => Leaf(field, SameMeaning(r.op), r.value1, r.value2)
  }

  function SameMeaning(op: Option<Operator>): Option<Operator> {
    match op
    case Some(Is) => Some(Equals)
    case Some(IsNot) => Some(NotEquals)
    case _ => op
  }

  function NormalOrders(orders: seq<Option<QueryOrder>>, i: nat): seq<(string, Direction, nat)>
    requires i <= |orders|
    decreases |orders| - i
  {
    if i == |orders| then [] else NormalOrder(orders[i], i) + NormalOrders(orders, i + 1)
  }

  function NormalOrder(order: Option<QueryOrder>, i: nat): seq<(string, Direction, nat)> {
    match order
    case None => []
    case Some(QueryOrder(direction, Some(name))) => [(name, direction, i)]
    case Some(QueryOrder(direction, None)) => [("", direction, i)]
  }

  /** The builder up to the spelling of operators, nulls, and what the table never shows. */
  function Normal(qb: QueryBuilder): Query {
    Query(qb.condition, qb.negated == Some(true), qb.count, NormalOrders(qb.orderBy, 0), qb.offset, qb.pageSize,
          NormalRules(qb.rules))
  }

  // ---- The decoder: it looks at the order of the rows, their type, their group and their payload ----

  function ConditionNamed(t: Text): Condition {
    if t == Word("AND") then AND else OR
  }

  function WordOf(t: Text): string {
    if t.Word? then t.word else ""
  }

  function NumberOf(t: Text): int {
    if t.Number? then t.number else 0
  }

  /** The operator that a text stands for in SQL. */
  function OperatorOf(text: string): Option<Operator> {
    if text == "=" then Some(Equals)
    else if text == "<>" then Some(NotEquals)
    else if text == "<" then Some(LessThan)
    else if text == "<=" then Some(LessThanOrEquals)
    else if text == ">" then Some(GreaterThan)
    else if text == ">=" then Some(GreaterThanOrEqual)
    else if text == "IN" then Some(In)
    else if text == "NOT IN" then Some(NotIn)
    else if text == "BETWEEN" then Some(Between)
    else if text == "NOT BETWEEN" then Some(NotBetween)
    else if text == "IS NULL" then Some(IsNull)
    else if text == "IS NOT NULL" then Some(IsNotNull)
    else None
  }

  /** The text of an operator is read as an operator of the same meaning. */
  lemma OperatorReadBack(op: Option<Operator>)
    ensures OperatorOf(OperatorText(op)) == SameMeaning(op)
  {
  }

  function LeafOf(r: Row): Node {
    Leaf(WordOf(r.field), OperatorOf(if r.condition.Some? then r.condition.value else ""), r.value1,
         if r.value2.Some? then Some(WordOf(r.value2.value)) else None)
  }

  /** The nodes of the group with the given number at the head of the rows, and the rows after them. */
  function ReadNodes(rows: seq<Row>, group: int): (r: (seq<Node>, seq<Row>))
    ensures |r.1| <= |rows|
    decreases |rows|
  {
    if rows == [] then ([], [])
    else if rows[0].kind == RuleRow && rows[0].group == group then
      var (nodes, rest) := ReadNodes(rows[1..], group);
      ([LeafOf(rows[0])] + nodes, rest)
    else if rows[0].kind == ConditionRow && rows[0].group == group + 1 then
      var (children, after) := ReadNodes(rows[1..], group + 1);
      var (nodes, rest) := ReadNodes(after, group);
      ([Group(ConditionNamed(rows[0].field), children)] + nodes, rest)
    else ([], rows)
  }

  predicate StartsWith(rows: seq<Row>, kind: RowType) {
    rows != [] && rows[0].kind == kind && rows[0].group == 1
  }

  function ReadOptional(rows: seq<Row>, kind: RowType): (Option<Text>, seq<Row>) {
    if StartsWith(rows, kind) then (Some(rows[0].field), rows[1..]) else (None, rows)
  }

  function ReadOrders(rows: seq<Row>): (seq<(string, Direction, nat)>, seq<Row>) {
    if !StartsWith(rows, OrderRow) then ([], rows)
    else
      var (orders, rest) := ReadOrders(rows[1..]);
      ([OrderOf(rows[0])] + orders, rest)
  }

  function OrderOf(r: Row): (string, Direction, nat) {
    var i := if r.value2.Some? then NumberOf(r.value2.value) else 0;
    (WordOf(r.field), if r.condition == Some("ASC") then ASC else DESC, if i < 0 then 0 else i)
  }

  function ReadNumber(t: Option<Text>): Option<int> {
    if t.Some? then Some(NumberOf(t.value)) else None
  }

  /** The offset, the page size and the rules. */
  function ReadPaging(rows: seq<Row>): (Option<int>, Option<int>, seq<Node>) {
    var (offset, r1) := ReadOptional(rows, OffsetRow);
    var (pageSize, r2) := ReadOptional(r1, RowCountRow);
    var (_, r3) := ReadOptional(r2, TotalCountRow);
    (ReadNumber(offset), ReadNumber(pageSize), ReadNodes(r3, 1).0)
  }

  function ReadTable(rows: seq<Row>): Query {
    var (condition, r1) := ReadOptional(rows, ConditionRow);
    var (negated, r2) := ReadOptional(r1, NotRow);
    var (count, r3) := ReadOptional(r2, CountRow);
    var (orders, r4) := ReadOrders(r3);
    var (offset, pageSize, nodes) := ReadPaging(r4);
    Query(if condition.Some? then Some(ConditionNamed(condition.value)) else None, negated.Some?, ReadNumber(count),
          orders, offset, pageSize, nodes)
  }

  /** The rows do not go on with nodes of this group. */
  predicate Ends(rows: seq<Row>, group: int) {
    rows == [] || rows[0].group < group || (rows[0].group == group && rows[0].kind == ConditionRow)
  }

  lemma {:induction false} RowsStart(rules: seq<Option<QueryRule>>, group: int, parentGroup: Option<int>,
                                     rest: seq<Row>)
    requires Ends(rest, group + 1)
    ensures Ends(RuleRows(rules, group, parentGroup) + rest, group + 1)
    decreases |rules|
  {
    if rules == [] {
      assert [] + rest == rest;
    } else {
      RowsStart(rules[1..], group, parentGroup, rest);
      RuleStart(rules[0], group, parentGroup, RuleRows(rules[1..], group, parentGroup) + rest);
      Associative(OneRuleRows(rules[0], group, parentGroup), RuleRows(rules[1..], group, parentGroup), rest);
    }
  }

  lemma RuleStart(rule: Option<QueryRule>, group: int, parentGroup: Option<int>, more: seq<Row>)
    requires Ends(more, group + 1)
    ensures Ends(OneRuleRows(rule, group, parentGroup) + more, group + 1)
  {
    if rule.None? {
      assert [] + more == more;
    } else {
      assert (OneRuleRows(rule, group, parentGroup) + more)[0] == OneRuleRows(rule, group, parentGroup)[0];
    }
  }

  /** The nodes of a list of rules are read back, at any depth, and reading stops where the list stops. */
  lemma {:induction false} NodesRoundTrip(rules: seq<Option<QueryRule>>, group: int, parentGroup: Option<int>,
                                          rest: seq<Row>)
    requires Ends(rest, group)
    ensures ReadNodes(RuleRows(rules, group, parentGroup) + rest, group) == (NormalRules(rules), rest)
    decreases rules, 1
  {
    if rules == [] {
      assert RuleRows(rules, group, parentGroup) + rest == rest;
    } else {
      var more := RuleRows(rules[1..], group, parentGroup) + rest;
      Associative(OneRuleRows(rules[0], group, parentGroup), RuleRows(rules[1..], group, parentGroup), rest);
      NodesRoundTrip(rules[1..], group, parentGroup, rest);
      RowsStart(rules[1..], group, parentGroup, rest);
      NodeRoundTrip(rules[0], group, parentGroup, more);
    }
  }

  lemma {:induction false} NodeRoundTrip(rule: Option<QueryRule>, group: int, parentGroup: Option<int>, more: seq<Row>)
    requires Ends(more, group + 1)
    ensures var (nodes, rest) := ReadNodes(more, group);
            ReadNodes(OneRuleRows(rule, group, parentGroup) + more, group) == (NormalRule(rule) + nodes, rest)
    decreases rule, 0
  {
    match rule {
      case None =>
        assert OneRuleRows(rule, group, parentGroup) + more == more;
        assert NormalRule(rule) + ReadNodes(more, group).0 == ReadNodes(more, group).0;
      case Some(r) =>
        if r.condition.None? {
          LeafReadBack(r, group, parentGroup, more);
        } else {
          NodesRoundTrip(r.rules, group + 1, Some(group), more);
          GroupReadBack(r, group, NormalRules(r.rules), more);
        }
    }
  }

  lemma LeafReadBack(r: QueryRule, group: int, parentGroup: Option<int>, more: seq<Row>)
    ensures var (nodes, rest) := ReadNodes(more, group);
            ReadNodes([RuleCells(r, group, parentGroup)] + more, group) == ([NormalLeaf(r)] + nodes, rest)
  {
    assert ([RuleCells(r, group, parentGroup)] + more)[1..] == more;
    CellsReadBack(r, group, parentGroup);
  }

  /** The cells of a rule say everything about it that matters. */
  lemma CellsReadBack(r: QueryRule, group: int, parentGroup: Option<int>)
    ensures LeafOf(RuleCells(r, group, parentGroup)) == NormalLeaf(r)
  {
    OperatorReadBack(r.op);
  }

  lemma GroupReadBack(r: QueryRule, group: int, children: seq<Node>, more: seq<Row>)
    requires r.condition.Some?
    requires ReadNodes(RuleRows(r.rules, group + 1, Some(group)) + more, group + 1) == (children, more)
    ensures var (nodes, rest) := ReadNodes(more, group);
            ReadNodes(OneRuleRows(Some(r), group, None) + more, group) ==
            ([Group(r.condition.value, children)] + nodes, rest)
  {
    var rows := OneRuleRows(Some(r), group, None) + more;
    assert rows[1..] == RuleRows(r.rules, group + 1, Some(group)) + more;
    assert ConditionName(OR) != ConditionName(AND);
  }

  lemma ReadOptionalRoundTrip(kind: RowType, field: Option<Text>, rest: seq<Row>)
    requires !StartsWith(rest, kind)
    ensures ReadOptional(OptionalRow(kind, field) + rest, kind) == (field, rest)
  {
    if field.None? {
      assert OptionalRow(kind, field) + rest == rest;
    } else {
      assert (OptionalRow(kind, field) + rest)[1..] == rest;
    }
  }

  lemma OtherKind(kind: RowType, field: Option<Text>, rest: seq<Row>, other: RowType)
    requires !StartsWith(rest, other) && other != kind
    ensures !StartsWith(OptionalRow(kind, field) + rest, other)
  {
    if field.None? {
      assert OptionalRow(kind, field) + rest == rest;
    }
  }

  lemma OrderKind(orders: seq<Option<QueryOrder>>, i: nat, rest: seq<Row>, other: RowType)
    requires i <= |orders| && !StartsWith(rest, other) && other != OrderRow
    ensures !StartsWith(OrderRows(orders, i) + rest, other)
    decreases |orders| - i
  {
    if i == |orders| {
      assert OrderRows(orders, i) + rest == rest;
    } else if orders[i].None? {
      OrderKind(orders, i + 1, rest, other);
      assert OrderRows(orders, i) == OrderRows(orders, i + 1);
    } else {
      assert (OrderRows(orders, i) + rest)[0] == OrderCells(orders[i].value, i);
    }
  }

  lemma {:induction false} OrdersRoundTrip(orders: seq<Option<QueryOrder>>, i: nat, rest: seq<Row>)
    requires i <= |orders| && !StartsWith(rest, OrderRow)
    ensures ReadOrders(OrderRows(orders, i) + rest) == (NormalOrders(orders, i), rest)
    decreases |orders| - i
  {
    if i == |orders| {
      assert OrderRows(orders, i) + rest == rest;
    } else {
      OrdersRoundTrip(orders, i + 1, rest);
      var more := OrderRows(orders, i + 1) + rest;
      Associative(OneOrderRow(orders[i], i), OrderRows(orders, i + 1), rest);
      OrderRoundTrip(orders[i], i, more);
    }
  }

  lemma OrderRoundTrip(order: Option<QueryOrder>, i: nat, more: seq<Row>)
    ensures var (orders, rest) := ReadOrders(more);
            ReadOrders(OneOrderRow(order, i) + more) == (NormalOrder(order, i) + orders, rest)
  {
    if order.None? {
      assert OneOrderRow(order, i) + more == more;
      assert NormalOrder(order, i) + ReadOrders(more).0 == ReadOrders(more).0;
    } else {
      var rows := OneOrderRow(order, i) + more;
      assert rows[0] == OrderCells(order.value, i) && rows[1..] == more;
      OrderCellsReadBack(order.value, i);
    }
  }

  lemma OrderCellsReadBack(o: QueryOrder, i: nat)
    ensures OrderOf(OrderCells(o, i)) == (TextOr(o.field), o.direction, i)
  {
    assert DirectionName(DESC) != DirectionName(ASC);
  }

  /** The table can be decoded: reading it back gives the builder's normal form, for every builder. */
  lemma TableRoundTrip(qb: QueryBuilder)
    ensures ReadTable(TableRows(qb)) == Normal(qb)
  {
    PagingRoundTrip(qb);
    CountRoundTrip(qb);
    NotRoundTrip(qb);
    ReadOptionalRoundTrip(ConditionRow, ConditionText(qb.condition), FromNot(qb));
    assert ConditionName(OR) != ConditionName(AND);
  }

  lemma NotRoundTrip(qb: QueryBuilder)
    ensures ReadOptional(FromNot(qb), NotRow) == (NotText(qb.negated), FromCount(qb))
    ensures !StartsWith(FromNot(qb), ConditionRow)
  {
    CountRoundTrip(qb);
    ReadOptionalRoundTrip(NotRow, NotText(qb.negated), FromCount(qb));
    OtherKind(NotRow, NotText(qb.negated), FromCount(qb), ConditionRow);
  }

  lemma CountRoundTrip(qb: QueryBuilder)
    ensures ReadOptional(FromCount(qb), CountRow) == (NumberText(qb.count), FromOrders(qb))
    ensures ReadOrders(FromOrders(qb)) == (NormalOrders(qb.orderBy, 0), FromOffset(qb))
    ensures !StartsWith(FromCount(qb), NotRow) && !StartsWith(FromCount(qb), ConditionRow)
  {
    OffsetKinds(qb);
    OrdersRoundTrip(qb.orderBy, 0, FromOffset(qb));
    OrderKind(qb.orderBy, 0, FromOffset(qb), CountRow);
    ReadOptionalRoundTrip(CountRow, NumberText(qb.count), FromOrders(qb));
    forall kind | kind == NotRow || kind == ConditionRow ensures !StartsWith(FromCount(qb), kind) {
      OrderKind(qb.orderBy, 0, FromOffset(qb), kind);
      OtherKind(CountRow, NumberText(qb.count), FromOrders(qb), kind);
    }
  }

  lemma OffsetKinds(qb: QueryBuilder)
    ensures forall kind | kind in {ConditionRow, NotRow, CountRow, OrderRow} :: !StartsWith(FromOffset(qb), kind)
  {
    HeaderFree(qb.rules);
    forall kind | kind in {ConditionRow, NotRow, CountRow, OrderRow} ensures !StartsWith(FromOffset(qb), kind) {
      OtherKind(TotalCountRow, NumberText(qb.pageSize), RuleRows(qb.rules, 1, None), kind);
      OtherKind(RowCountRow, NumberText(qb.pageSize), FromTotalCount(qb), kind);
      OtherKind(OffsetRow, NumberText(qb.offset), FromRowCount(qb), kind);
    }
  }

  lemma PagingRoundTrip(qb: QueryBuilder)
    ensures ReadPaging(FromOffset(qb)) == (qb.offset, qb.pageSize, NormalRules(qb.rules))
  {
    RulesReadBack(qb.rules);
    HeaderFree(qb.rules);
    var rules := RuleRows(qb.rules, 1, None);
    var total, rowCount := NumberText(qb.pageSize), FromTotalCount(qb);
    ReadOptionalRoundTrip(TotalCountRow, total, rules);
    OtherKind(TotalCountRow, total, rules, RowCountRow);
    ReadOptionalRoundTrip(RowCountRow, total, rowCount);
    OtherKind(TotalCountRow, total, rules, OffsetRow);
    OtherKind(RowCountRow, total, rowCount, OffsetRow);
    ReadOptionalRoundTrip(OffsetRow, NumberText(qb.offset), FromRowCount(qb));
  }

  lemma RulesReadBack(rules: seq<Option<QueryRule>>)
    ensures ReadNodes(RuleRows(rules, 1, None), 1).0 == NormalRules(rules)
  {
    NodesRoundTrip(rules, 1, None, []);
    assert RuleRows(rules, 1, None) + [] == RuleRows(rules, 1, None);
  }

  /** Rows of rules never look like rows of a builder's own settings. */
  lemma HeaderFree(rules: seq<Option<QueryRule>>)
    ensures forall kind | kind != RuleRow :: !StartsWith(RuleRows(rules, 1, None), kind)
    decreases |rules|
  {
    if rules != [] {
      HeaderFree(rules[1..]);
      if OneRuleRows(rules[0], 1, None) == [] {
        assert RuleRows(rules, 1, None) == RuleRows(rules[1..], 1, None);
      } else {
        assert RuleRows(rules, 1, None)[0] == OneRuleRows(rules[0], 1, None)[0];
      }
    }
  }

  // ---- What else the cells say ----

  /** Reading a comparison of numbers as SQL does. */
  predicate TextCompares(text: string, a: int, b: int) {
    || (text == "=" && a == b) || (text == "<>" && a != b)
    || (text == "<" && a < b) || (text == "<=" && a <= b)
    || (text == ">" && a > b) || (text == ">=" && a >= b)
  }

  /** What the comparisons mean on numbers. */
  predicate Compares(op: Operator, a: int, b: int) {
    match op
    case Equals => a == b
    case Is => a == b
    case NotEquals => a != b
    case IsNot => a != b
    case LessThan => a < b
    case LessThanOrEquals => !(b < a)
    case GreaterThan => b < a
    case GreaterThanOrEqual => !(a < b)
    case _ => false
  }

  /** The condition cell of a comparison holds of two numbers exactly when the comparison does. */
  lemma PrintedComparison(r: QueryRule, group: int, parentGroup: Option<int>, a: int, b: int)
    requires r.op.Some?
    ensures RuleCells(r, group, parentGroup).condition.Some?
    ensures TextCompares(RuleCells(r, group, parentGroup).condition.value, a, b) <==> Compares(r.op.value, a, b)
  {
  }

  /** A row of a builder's own settings is in group 1 and has no parent; a row of its rules says which group it is in
      and that the group before it is its parent. */
  predicate SaysItsGroup(row: Row) {
    && row.group >= 1 && row.parentGroup == (if row.group == 1 then None else Some(row.group - 1))
    && LeavesCellsUnset(row)
  }

  /** Only a rule has values to compare with, and only an order has a direction and an index besides. */
  predicate LeavesCellsUnset(row: Row) {
    || (row.kind == RuleRow && row.condition.Some?)
    || (row.kind == OrderRow && row.condition.Some? && row.value1 == None && row.value2.Some?)
    || (row.kind != RuleRow && row.kind != OrderRow && row.condition == row.value1 == None && row.value2 == None)
  }

  predicate AllSayTheirGroup(rows: seq<Row>) {
    forall i | 0 <= i < |rows| :: SaysItsGroup(rows[i])
  }

  lemma {:induction false} RulesSayTheirGroup(rules: seq<Option<QueryRule>>, group: int, parentGroup: Option<int>)
    requires group >= 1 && parentGroup == if group == 1 then None else Some(group - 1)
    ensures AllSayTheirGroup(RuleRows(rules, group, parentGroup))
    decreases rules, 1
  {
    if rules != [] {
      RulesSayTheirGroup(rules[1..], group, parentGroup);
      RuleSaysItsGroup(rules[0], group, parentGroup);
    }
  }

  lemma {:induction false} RuleSaysItsGroup(rule: Option<QueryRule>, group: int, parentGroup: Option<int>)
    requires group >= 1 && parentGroup == if group == 1 then None else Some(group - 1)
    ensures AllSayTheirGroup(OneRuleRows(rule, group, parentGroup))
    decreases rule, 0
  {
    if rule.Some? && rule.value.condition.Some? {
      RulesSayTheirGroup(rule.value.rules, group + 1, Some(group));
    }
  }

  lemma OrdersSayTheirGroup(orders: seq<Option<QueryOrder>>, i: nat)
    requires i <= |orders|
    ensures AllSayTheirGroup(OrderRows(orders, i))
    decreases |orders| - i
  {
    if i < |orders| {
      OrdersSayTheirGroup(orders, i + 1);
    }
  }

  lemma OneAfterTheOther(first: seq<Row>, second: seq<Row>)
    requires AllSayTheirGroup(first) && AllSayTheirGroup(second)
    ensures AllSayTheirGroup(first + second)
  {
  }

  lemma OffsetSaysItsGroup(qb: QueryBuilder)
    ensures AllSayTheirGroup(FromOffset(qb))
  {
    RulesSayTheirGroup(qb.rules, 1, None);
    OneAfterTheOther(OptionalRow(TotalCountRow, NumberText(qb.pageSize)), RuleRows(qb.rules, 1, None));
    OneAfterTheOther(OptionalRow(RowCountRow, NumberText(qb.pageSize)), FromTotalCount(qb));
    OneAfterTheOther(OptionalRow(OffsetRow, NumberText(qb.offset)), FromRowCount(qb));
  }

  lemma RowsSayTheirGroup(qb: QueryBuilder)
    ensures AllSayTheirGroup(TableRows(qb))
  {
    OffsetSaysItsGroup(qb);
    OrdersSayTheirGroup(qb.orderBy, 0);
    OneAfterTheOther(OrderRows(qb.orderBy, 0), FromOffset(qb));
    OneAfterTheOther(OptionalRow(CountRow, NumberText(qb.count)), FromOrders(qb));
    OneAfterTheOther(OptionalRow(NotRow, NotText(qb.negated)), FromCount(qb));
    OneAfterTheOther(OptionalRow(ConditionRow, ConditionText(qb.condition)), FromNot(qb));
  }

  /** A negated builder says so right after its condition. */
  lemma NegationIsWritten(qb: QueryBuilder)
    ensures var at := if qb.condition.Some? then 1 else 0;
            qb.negated == Some(true) ==>
              |TableRows(qb)| > at && TableRows(qb)[at] == Row(1, None, NotRow, Word("NOT"), None, None, None)
  {
  }

  predicate IsPlainRule(rule: Option<QueryRule>) {
    rule.Some? && rule.value.condition.None?
  }

  /** What writing the table leaves of each rule. */
  lemma {:induction false} LeftOfRule(rules: seq<Option<QueryRule>>, i: nat)
    requires i < |rules|
    ensures |NulledRules(rules)| == |rules|
    ensures rules[i].None? ==> NulledRules(rules)[i] == None
    ensures rules[i].Some? && rules[i].value.condition.Some? ==>
              NulledRules(rules)[i] == Some(rules[i].value.(rules := NulledRules(rules[i].value.rules)))
    ensures IsPlainRule(rules[i]) && rules[i].value.op in {Some(IsNull), Some(IsNotNull)} ==>
              NulledRules(rules)[i] == Some(rules[i].value.(value1 := None, value2 := None))
    ensures IsPlainRule(rules[i]) && rules[i].value.op !in {Some(IsNull), Some(IsNotNull)} ==>
              NulledRules(rules)[i] == rules[i]
    decreases |rules|
  {
    if i > 0 {
      LeftOfRule(rules[1..], i - 1);
    } else {
      NulledLength(rules[1..]);
    }
  }

  lemma {:induction false} NulledLength(rules: seq<Option<QueryRule>>)
    ensures |NulledRules(rules)| == |rules|
    decreases |rules|
  {
    if rules != [] {
      NulledLength(rules[1..]);
    }
  }

  // ---- FromJson ----

  /** Every rule below, in preorder; None when a null rule is met on the way. */
  function Preorder(rules: seq<Option<QueryRule>>): Option<seq<QueryRule>>
    decreases rules
  {
    if rules == [] then Some([])
    else
      var first := PreorderOf(rules[0]);
      var others := Preorder(rules[1..]);
      if first.None? || others.None? then None else Some(first.value + others.value)
  }

  function PreorderOf(rule: Option<QueryRule>): Option<seq<QueryRule>>
    decreases rule
  {
    match rule
    case None => None
    case Some(r) =>
      var below := Preorder(r.rules);
      if below.None? then None else Some([r] + below.value)
  }

  function WithField(rules: seq<QueryRule>): seq<QueryRule> {
    if rules == [] then [] else WithFieldOf(rules[0]) + WithField(rules[1..])
  }

  function WithFieldOf(rule: QueryRule): seq<QueryRule> {
    if rule.field.Some? then [rule] else []
  }

  /** The constructor QueryRule(field, operator, value1, value2); valueOf is the private ValueOf. */
  function MakeRule(valueOf: Option<string> -> Option<string>, r: QueryRule): QueryRule {
    QueryRule(r.field, Some(if r.op.Some? then r.op.value else Equals), valueOf(r.value1), valueOf(r.value2), [], None)
  }

  function MakeRules(valueOf: Option<string> -> Option<string>, rules: seq<QueryRule>): (made: seq<Option<QueryRule>>)
    ensures |made| == |rules| && forall i | 0 <= i < |rules| :: made[i] == Some(MakeRule(valueOf, rules[i]))
  {
    seq(|rules|, i requires 0 <= i < |rules| => Some(MakeRule(valueOf, rules[i])))
  }

  /** GetQueryRules: a null rule anywhere it looks is a NullReferenceException (ok is false). */
  method GetQueryRules(valueOf: Option<string> -> Option<string>, rules: seq<Option<QueryRule>>)
    returns (ok: bool, result: seq<Option<QueryRule>>)
    ensures ok <==> Preorder(rules).Some?
    ensures ok ==> result == MakeRules(valueOf, WithField(Preorder(rules).value))
    decreases rules, 1
  {
    result := [];
    ghost var seen: seq<QueryRule> := [];
    assert rules[0..] == rules;
    for i := 0 to |rules|
      invariant Split(rules, seen, rules[i..])
      invariant result == MakeRules(valueOf, WithField(seen))
    {
      var okOne, one := GetRuleWithNested(valueOf, rules[i]);
      SplitStep(valueOf, rules, seen, i);
      if !okOne {
        return false, [];
      }
      result := result + one;
      seen := seen + PreorderOf(rules[i]).value;
    }
    assert rules[|rules|..] == [] && seen + [] == seen;
    return true, result;
  }

  /** The preorder of the rules is what was seen and then the preorder of the rest. */
  ghost predicate Split(rules: seq<Option<QueryRule>>, seen: seq<QueryRule>, rest: seq<Option<QueryRule>>) {
    && (Preorder(rules).Some? <==> Preorder(rest).Some?)
    && (Preorder(rules).Some? ==> Preorder(rules).value == seen + Preorder(rest).value)
  }

  lemma SplitStep(valueOf: Option<string> -> Option<string>, rules: seq<Option<QueryRule>>, seen: seq<QueryRule>,
                  i: nat)
    requires i < |rules| && Split(rules, seen, rules[i..])
    ensures PreorderOf(rules[i]).None? ==> Preorder(rules).None?
    ensures PreorderOf(rules[i]).Some? ==>
              var one := PreorderOf(rules[i]).value;
              Split(rules, seen + one, rules[i + 1..])
              && MakeRules(valueOf, WithField(seen)) + MakeRules(valueOf, WithField(one)) ==
                MakeRules(valueOf, WithField(seen + one))
  {
    assert rules[i..][0] == rules[i] && rules[i..][1..] == rules[i + 1..];
    if PreorderOf(rules[i]).Some? {
      var one := PreorderOf(rules[i]).value;
      WithFieldConcat(seen, one);
      MakeRulesConcat(valueOf, WithField(seen), WithField(one));
      if Preorder(rules[i + 1..]).Some? {
        Associative(seen, one, Preorder(rules[i + 1..]).value);
      }
    }
  }

  lemma MakeRulesConcat(valueOf: Option<string> -> Option<string>, a: seq<QueryRule>, b: seq<QueryRule>)
    ensures MakeRules(valueOf, a) + MakeRules(valueOf, b) == MakeRules(valueOf, a + b)
  {
  }

  /** The body of that loop. */
  method GetRuleWithNested(valueOf: Option<string> -> Option<string>, rule: Option<QueryRule>)
    returns (ok: bool, result: seq<Option<QueryRule>>)
    ensures ok <==> PreorderOf(rule).Some?
    ensures ok ==> result == MakeRules(valueOf, WithField(PreorderOf(rule).value))
    decreases rule, 0
  {
    match rule {
      case None => return false, [];
      case Some(r) =>
        result := [];
        if r.field.Some? {
          result := result + [Some(MakeRule(valueOf, r))];
        }
        if |r.rules| > 0 {
          var okBelow, below := GetQueryRules(valueOf, r.rules);
          if !okBelow {
            return false, [];
          }
          result := result + below;
        }
        NestedRules(valueOf, r);
        return true, result;
    }
  }

  lemma NestedRules(valueOf: Option<string> -> Option<string>, r: QueryRule)
    requires Preorder(r.rules).Some?
    ensures PreorderOf(Some(r)).Some?
    ensures MakeRules(valueOf, WithField(PreorderOf(Some(r)).value)) ==
            (if r.field.Some? then [Some(MakeRule(valueOf, r))] else [])
            + MakeRules(valueOf, WithField(Preorder(r.rules).value))
  {
    var below := Preorder(r.rules).value;
    WithFieldFirst(r, below);
    MakeRulesConcat(valueOf, WithFieldOf(r), WithField(below));
    MakeOne(valueOf, r);
  }

  lemma WithFieldFirst(r: QueryRule, below: seq<QueryRule>)
    ensures WithField([r] + below) == WithFieldOf(r) + WithField(below)
  {
    assert ([r] + below)[1..] == below;
  }

  lemma MakeOne(valueOf: Option<string> -> Option<string>, r: QueryRule)
    ensures MakeRules(valueOf, WithFieldOf(r)) == if r.field.Some? then [Some(MakeRule(valueOf, r))] else []
  {
  }

  lemma {:induction false} WithFieldConcat(a: seq<QueryRule>, b: seq<QueryRule>)
    ensures WithField(a + b) == WithField(a) + WithField(b)
  {
    if a == [] {
      assert a + b == b && [] + WithField(b) == WithField(b);
    } else {
      assert (a + b)[0] == a[0] && (a + b)[1..] == a[1..] + b;
      WithFieldConcat(a[1..], b);
      Associative(WithFieldOf(a[0]), WithField(a[1..]), WithField(b));
    }
  }

  /** FromJson on what the JSON library has parsed. */
  method FromJson(valueOf: Option<string> -> Option<string>, parsed: Option<QueryBuilder>)
    returns (ok: bool, qb: QueryBuilder)
    ensures parsed.None? ==> ok && qb == QueryBuilder(None, [], None, None, None, [], None, None)
    ensures parsed.Some? ==> (ok <==> Preorder(parsed.value.rules).Some?)
    ensures parsed.Some? && ok ==>
              qb == parsed.value.(rules := MakeRules(valueOf, WithField(Preorder(parsed.value.rules).value)))
  {
    if parsed.None? {
      return true, QueryBuilder(None, [], None, None, None, [], None, None);
    }
    var rules;
    ok, rules := GetQueryRules(valueOf, parsed.value.rules);
    qb := parsed.value.(rules := rules);
  }

  function RuleRowsOnly(rows: seq<Row>): seq<Row> {
    if rows == [] then [] else (if rows[0].kind == RuleRow then [rows[0]] else []) + RuleRowsOnly(rows[1..])
  }

  /** For a builder that comes from FromJson, the table has one rule row for each rule of the original tree that has a
      field, in preorder, and all of them are in group 1: the nesting is gone. */
  lemma FromJsonFlattens(valueOf: Option<string> -> Option<string>, parsed: QueryBuilder)
    requires Preorder(parsed.rules).Some?
    ensures var original := WithField(Preorder(parsed.rules).value);
            var qb := parsed.(rules := MakeRules(valueOf, original));
            var rows := RuleRowsOnly(TableRows(qb));
            |rows| == |original|
            && forall i | 0 <= i < |rows| :: rows[i] == RuleCells(MakeRule(valueOf, original[i]), 1, None)
  {
    var original := WithField(Preorder(parsed.rules).value);
    var made := MakeRules(valueOf, original);
    var qb := parsed.(rules := made);
    FlatRows(made);
    var rules := RuleRows(made, 1, None);
    RuleRowsOnlyAll(rules);
    SkipOptional(TotalCountRow, NumberText(qb.pageSize), rules);
    SkipOptional(RowCountRow, NumberText(qb.pageSize), FromTotalCount(qb));
    SkipOptional(OffsetRow, NumberText(qb.offset), FromRowCount(qb));
    SkipOrders(qb.orderBy, 0, FromOffset(qb));
    SkipOptional(CountRow, NumberText(qb.count), FromOrders(qb));
    SkipOptional(NotRow, NotText(qb.negated), FromCount(qb));
    SkipOptional(ConditionRow, ConditionText(qb.condition), FromNot(qb));
  }

  lemma {:induction false} FlatRows(rules: seq<Option<QueryRule>>)
    requires forall i | 0 <= i < |rules| :: rules[i].Some? && rules[i].value.condition.None?
    ensures |RuleRows(rules, 1, None)| == |rules|
    ensures forall i | 0 <= i < |rules| :: RuleRows(rules, 1, None)[i] == RuleCells(rules[i].value, 1, None)
    decreases |rules|
  {
    if rules != [] {
      FlatRows(rules[1..]);
    }
  }

  lemma {:induction false} RuleRowsOnlyAll(rows: seq<Row>)
    requires forall i | 0 <= i < |rows| :: rows[i].kind == RuleRow
    ensures RuleRowsOnly(rows) == rows
  {
    if rows != [] {
      RuleRowsOnlyAll(rows[1..]);
    }
  }

  lemma SkipOptional(kind: RowType, field: Option<Text>, rest: seq<Row>)
    requires kind != RuleRow
    ensures RuleRowsOnly(OptionalRow(kind, field) + rest) == RuleRowsOnly(rest)
  {
    if field.None? {
      assert OptionalRow(kind, field) + rest == rest;
    } else {
      assert (OptionalRow(kind, field) + rest)[1..] == rest;
    }
  }

  lemma {:induction false} SkipOrders(orders: seq<Option<QueryOrder>>, i: nat, rest: seq<Row>)
    requires i <= |orders|
    ensures RuleRowsOnly(OrderRows(orders, i) + rest) == RuleRowsOnly(rest)
    decreases |orders| - i
  {
    if i == |orders| {
      assert OrderRows(orders, i) + rest == rest;
    } else {
      SkipOrders(orders, i + 1, rest);
      var more := OrderRows(orders, i + 1) + rest;
      Associative(OneOrderRow(orders[i], i), OrderRows(orders, i + 1), rest);
      SkipOrder(orders[i], i, more);
    }
  }

  lemma SkipOrder(order: Option<QueryOrder>, i: nat, more: seq<Row>)
    ensures RuleRowsOnly(OneOrderRow(order, i) + more) == RuleRowsOnly(more)
  {
    if order.None? {
      assert OneOrderRow(order, i) + more == more;
    } else {
      assert (OneOrderRow(order, i) + more)[1..] == more;
    }
  }

  // ---- When the tree survives FromJson ----

  lemma {:induction false} FlatNodes(rules: seq<Option<QueryRule>>)
    requires forall i | 0 <= i < |rules| :: rules[i].Some? && rules[i].value.condition.None?
    ensures |NormalRules(rules)| == |rules|
    ensures forall i | 0 <= i < |rules| :: NormalRules(rules)[i] == NormalLeaf(rules[i].value)
    decreases |rules|
  {
    if rules != [] {
      FlatNodes(rules[1..]);
    }
  }

  /** For a builder that comes from FromJson the table never decodes to a nested group: it decodes to one leaf for each
      rule of the original tree that has a field, in preorder. */
  lemma NoGroupsFromJson(valueOf: Option<string> -> Option<string>, parsed: QueryBuilder)
    requires Preorder(parsed.rules).Some?
    ensures var original := WithField(Preorder(parsed.rules).value);
            var children := ReadTable(TableRows(parsed.(rules := MakeRules(valueOf, original)))).children;
            |children| == |original|
            && forall i | 0 <= i < |children| ::
                 children[i].Leaf? && children[i] == NormalLeaf(MakeRule(valueOf, original[i]))
  {
    var made := MakeRules(valueOf, WithField(Preorder(parsed.rules).value));
    TableRoundTrip(parsed.(rules := made));
    FlatNodes(made);
  }

  /** FromJson gives a rule without an operator the operator =, and leaves any other as it is. */
  lemma MadeOperator(valueOf: Option<string> -> Option<string>, r: QueryRule)
    ensures r.op.None? ==> NormalLeaf(MakeRule(valueOf, r)).op == Some(Equals)
    ensures r.op.Some? ==> MakeRule(valueOf, r).op == r.op
    ensures MakeRule(valueOf, r).field == r.field
    ensures MakeRule(valueOf, r).value1 == valueOf(r.value1) && MakeRule(valueOf, r).value2 == valueOf(r.value2)
  {
  }

  /** A rule comes right before everything below it, and the rules of one list come one after the other. */
  lemma ParentFirst(r: QueryRule)
    requires Preorder([Some(r)]).Some?
    ensures Preorder(r.rules).Some? && |Preorder([Some(r)]).value| == 1 + |Preorder(r.rules).value|
    ensures Preorder([Some(r)]).value[0] == r && Preorder([Some(r)]).value[1..] == Preorder(r.rules).value
  {
    assert Preorder([Some(r)]) == Some(PreorderOf(Some(r)).value + []);
  }

  lemma {:induction false} PreorderConcat(a: seq<Option<QueryRule>>, b: seq<Option<QueryRule>>)
    ensures Preorder(a + b).Some? <==> Preorder(a).Some? && Preorder(b).Some?
    ensures Preorder(a + b).Some? ==> Preorder(a + b).value == Preorder(a).value + Preorder(b).value
  {
    if a == [] {
      assert a + b == b;
    } else {
      assert (a + b)[0] == a[0] && (a + b)[1..] == a[1..] + b;
      PreorderConcat(a[1..], b);
      if PreorderOf(a[0]).Some? && Preorder(a[1..]).Some? && Preorder(b).Some? {
        Associative(PreorderOf(a[0]).value, Preorder(a[1..]).value, Preorder(b).value);
      }
    }
  }

  /** Exactly the rules with a field are kept, each as often as it occurs. */
  lemma {:induction false} KeptIfField(rules: seq<QueryRule>, r: QueryRule)
    ensures multiset(WithField(rules))[r] == if r.field.Some? then multiset(rules)[r] else 0
  {
    if rules != [] {
      KeptIfField(rules[1..], r);
      assert rules == [rules[0]] + rules[1..];
    }
  }

  /** A rule that FromJson can keep as it is. */
  predicate IsPlain(rule: Option<QueryRule>) {
    rule.Some? && rule.value.condition.None? && rule.value.op.Some? && rule.value.rules == []
  }

  lemma {:induction false} AllHaveField(rules: seq<QueryRule>)
    requires forall i | 0 <= i < |rules| :: rules[i].field.Some?
    ensures WithField(rules) == rules
  {
    if rules != [] {
      AllHaveField(rules[1..]);
      assert rules == [rules[0]] + rules[1..];
    }
  }

  /** Every rule in the list is met, and more than one where there is something below it. */
  lemma {:induction false} PreorderLength(rules: seq<Option<QueryRule>>)
    requires Preorder(rules).Some?
    ensures |Preorder(rules).value| >= |rules| && forall i | 0 <= i < |rules| :: rules[i].Some?
    ensures |Preorder(rules).value| == |rules| ==> forall i | 0 <= i < |rules| :: rules[i].value.rules == []
    decreases rules
  {
    if rules != [] {
      PreorderLength(rules[1..]);
      var r := rules[0].value;
      if r.rules != [] {
        PreorderNotEmpty(r.rules);
      }
      assert forall i | 1 <= i < |rules| :: rules[i] == rules[1..][i - 1];
    }
  }

  lemma PreorderNotEmpty(rules: seq<Option<QueryRule>>)
    requires rules != [] && Preorder(rules).Some?
    ensures Preorder(rules).value != []
  {
    assert PreorderOf(rules[0]).value != [];
  }

  lemma {:induction false} PlainPreorder(rules: seq<Option<QueryRule>>)
    requires forall i | 0 <= i < |rules| :: IsPlain(rules[i])
    ensures Preorder(rules).Some? && |Preorder(rules).value| == |rules|
    ensures forall i | 0 <= i < |rules| :: Some(Preorder(rules).value[i]) == rules[i]
    decreases |rules|
  {
    if rules != [] {
      PlainPreorder(rules[1..]);
      var r := rules[0].value;
      assert IsPlain(rules[0]);
      assert Preorder(r.rules) == Some([]) && [r] + [] == [r];
    }
  }

  /** When every rule has a field and values are kept as they are, the rules survive FromJson and the table exactly when
      each of them is plain: without a condition, with an operator, and with nothing below it. */
  lemma TreeSurvivesIff(valueOf: Option<string> -> Option<string>, parsed: QueryBuilder)
    requires forall v :: valueOf(v) == v
    requires Preorder(parsed.rules).Some?
    requires forall i | 0 <= i < |Preorder(parsed.rules).value| :: Preorder(parsed.rules).value[i].field.Some?
    ensures var qb := parsed.(rules := MakeRules(valueOf, WithField(Preorder(parsed.rules).value)));
            ReadTable(TableRows(qb)).children == NormalRules(parsed.rules) <==>
            forall i | 0 <= i < |parsed.rules| :: IsPlain(parsed.rules[i])
  {
    var rules, original := parsed.rules, Preorder(parsed.rules).value;
    AllHaveField(original);
    NoGroupsFromJson(valueOf, parsed);
    var children := ReadTable(TableRows(parsed.(rules := MakeRules(valueOf, original)))).children;
    if forall i | 0 <= i < |rules| :: IsPlain(rules[i]) {
      PlainSurvives(valueOf, rules, original, children);
    } else if children == NormalRules(rules) {
      SurvivorsArePlain(valueOf, rules, original, children);
    }
  }

  lemma PlainSurvives(valueOf: Option<string> -> Option<string>, rules: seq<Option<QueryRule>>,
                      original: seq<QueryRule>, children: seq<Node>)
    requires forall v :: valueOf(v) == v
    requires forall i | 0 <= i < |rules| :: IsPlain(rules[i])
    requires Preorder(rules) == Some(original) && |children| == |original|
    requires forall i | 0 <= i < |children| :: children[i] == NormalLeaf(MakeRule(valueOf, original[i]))
    ensures children == NormalRules(rules)
  {
    PlainPreorder(rules);
    forall i | 0 <= i < |rules| ensures rules[i].Some? && rules[i].value.condition.None? {
      assert IsPlain(rules[i]);
    }
    FlatNodes(rules);
    PlainLeaves(valueOf, original, children, NormalRules(rules));
  }

  lemma PlainLeaves(valueOf: Option<string> -> Option<string>, rules: seq<QueryRule>, made: seq<Node>,
                    normal: seq<Node>)
    requires forall v :: valueOf(v) == v
    requires |made| == |normal| == |rules| && forall i | 0 <= i < |rules| :: IsPlain(Some(rules[i]))
    requires forall i | 0 <= i < |rules| :: made[i] == NormalLeaf(MakeRule(valueOf, rules[i]))
    requires forall i | 0 <= i < |rules| :: normal[i] == NormalLeaf(rules[i])
    ensures made == normal
  {
    forall i | 0 <= i < |rules| ensures made[i] == normal[i] {
      MadeFromPlain(valueOf, rules[i]);
    }
  }

  lemma MadeFromPlain(valueOf: Option<string> -> Option<string>, r: QueryRule)
    requires (forall v :: valueOf(v) == v) && IsPlain(Some(r))
    ensures NormalLeaf(MakeRule(valueOf, r)) == NormalLeaf(r)
  {
  }

  lemma SurvivorsArePlain(valueOf: Option<string> -> Option<string>, rules: seq<Option<QueryRule>>,
                          original: seq<QueryRule>, children: seq<Node>)
    requires Preorder(rules) == Some(original) && |children| == |original|
    requires forall i | 0 <= i < |children| :: children[i] == NormalLeaf(MakeRule(valueOf, original[i]))
    requires children == NormalRules(rules)
    ensures forall i | 0 <= i < |rules| :: IsPlain(rules[i])
  {
    PreorderLength(rules);
    NodePerRule(rules);
    forall i | 0 <= i < |rules| ensures IsPlain(rules[i]) {
      MadeHasOperator(valueOf, original[i]);
      assert NormalRule(rules[i]) == [NormalRules(rules)[i]];
    }
  }

  lemma MadeHasOperator(valueOf: Option<string> -> Option<string>, r: QueryRule)
    ensures NormalLeaf(MakeRule(valueOf, r)).op.Some?
  {
    var made := MakeRule(valueOf, r);
    assert made.op.Some?;
  }

  lemma {:induction false} NodePerRule(rules: seq<Option<QueryRule>>)
    requires forall i | 0 <= i < |rules| :: rules[i].Some?
    ensures |NormalRules(rules)| == |rules|
    ensures forall i | 0 <= i < |rules| :: NormalRule(rules[i]) == [NormalRules(rules)[i]]
    decreases |rules|
  {
    if rules != [] {
      NodePerRule(rules[1..]);
    }
  }
}
