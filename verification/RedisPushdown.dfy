/**
  Filters over Redis hashes, and the key selectors they are compiled to.

  A table's rows are the hashes whose key starts with the table's prefix; the rest of the key is a column of
  type string. A selector is one key, or a glob for a scan.
 */
module RedisPushdown {
  import opened Options
  import opened RedisLike
  import opened RedisPrefixes
  import opened Texts

  datatype Outcome<+T> = Good(value: T) | Bad

  /** Column values, by how they compare. `raw` is the text a value is stored as. */
  datatype Value =
    | Null
    | Text(text: string)
    | OtherText(text: string)
    | Number(raw: string, number: real)
    | BadNumber(raw: string)
    | Binary(raw: string)
    | Boolean(flag: bool)
    | Unsupported

  datatype ComparisonOp = Equal | NotEqual | Less | LessOrEqual | Greater | GreaterOrEqual | NoComparison

  datatype LogicalOp = And | Or | OtherLogical

  datatype NullOp = IsNull | IsNotNull | NoNullOp

  datatype PatternOp = Like | NotLike | NoPatternOp

  datatype Expr =
    | Missing
    | Field(name: string)
    | Literal(literal: Option<Value>)
    | Comparison(comparison: ComparisonOp, left: Expr, right: Expr)
    | Logical(logical: LogicalOp, operands: seq<Expr>)
    | NullPredicate(nullOp: NullOp, operand: Expr)
    | Pattern(patternOp: PatternOp, subject: Expr, pattern: Expr, escape: Option<string>)
    | OtherExpr

  datatype Table = Table(prefix: string, keyName: string)

  /** The values by upper-case column name. */
  datatype Row = Row(key: string, values: map<string, Value>)

  // ---------- Evaluating filters ----------

  function ValueOf(row: Row, name: string): Outcome<Value> {
    if Upper(name) in row.values then Good(row.values[Upper(name)]) else Bad
  }

  function Sign(less: bool, equal: bool): int {
    if equal then 0 else if less then -1 else 1
  }

  predicate IsText(v: Value) {
    v.Text? || v.OtherText?
  }

  function CompareValues(left: Value, right: Value): Outcome<int> {
    if left.Number? then
      if right.Number? then Good(Sign(left.number < right.number, left.number == right.number)) else Bad
    else if left.Binary? then
      if right.Binary? then Good(Sign(TextLess(left.raw, right.raw), left.raw == right.raw)) else Bad
    else if IsText(left) && IsText(right) then Good(Sign(TextLess(left.text, right.text), left.text == right.text))
    else if left.Boolean? && right.Boolean? then Good(Sign(!left.flag, left.flag == right.flag))
    else Bad
  }

  function Compared(op: ComparisonOp, order: int): Outcome<Value> {
    match op
    case Equal => Good(Boolean(order == 0))
    case NotEqual => Good(Boolean(order != 0))
    case Less => Good(Boolean(order < 0))
    case LessOrEqual => Good(Boolean(order <= 0))
    case Greater => Good(Boolean(order > 0))
    case GreaterOrEqual => Good(Boolean(order >= 0))
    case NoComparison => Bad
  }

  /** The regular expression compiled from the pattern decides. */
  function MatchLike(op: PatternOp, value: Value, pattern: Value, escape: Option<string>): Outcome<Value> {
    if value.Null? || pattern.Null? then Good(Boolean(false))
    else if !value.Text? || !pattern.Text? then Bad
    else
      match Compiled(pattern.text, escape)
      case None => Bad
      case Some(pieces) =>
        var matched := Accepts(pieces, value.text, false);
        match op
        case Like => Good(Boolean(matched))
        case NotLike => Good(Boolean(!matched))
        case NoPatternOp => Bad
  }

  function EvaluateExpression(row: Row, e: Expr): Outcome<Value>
    decreases e, 0
  {
    match e
    case Missing => Bad
    case Field(name) => if name == "" then Bad else ValueOf(row, name)
    case Literal(literal) => if literal.Some? then Good(literal.value) else Bad
    case Comparison(op, left, right) =>
      var l := EvaluateExpression(row, left);
      var r := EvaluateExpression(row, right);
      if l.Bad? || r.Bad? then Bad
      else if l.value.Null? || r.value.Null? then Good(Boolean(false))
      else
        var order := CompareValues(l.value, r.value);
        if order.Bad? then Bad else Compared(op, order.value)
    case Logical(op, operands) =>
      if |operands| < 2 then Bad
      else
        (match op
         case And => EvaluateAll(row, operands)
         case Or => EvaluateAny(row, operands)
         case OtherLogical => Bad)
    case NullPredicate(op, operand) =>
      var v := EvaluateExpression(row, operand);
      if v.Bad? then Bad
      else
        (match op
         case IsNull => Good(Boolean(v.value.Null?))
         case IsNotNull => Good(Boolean(!v.value.Null?))
         case NoNullOp => Bad)
    case Pattern(op, subject, pattern, escape) =>
      var v := EvaluateExpression(row, subject);
      var p := EvaluateExpression(row, pattern);
      if v.Bad? || p.Bad? then Bad else MatchLike(op, v.value, p.value, escape)
    case OtherExpr => Bad
  }

  /** AND in operand order, up to the first operand that fails or is not true. */
  function EvaluateAll(row: Row, operands: seq<Expr>): Outcome<Value>
    decreases operands, 0
  {
    if operands == [] then Good(Boolean(true))
    else
      var first := EvaluateFilter(row, operands[0]);
      if first.Bad? then Bad
      else if !first.value then Good(Boolean(false))
      else EvaluateAll(row, operands[1..])
  }

  function EvaluateAny(row: Row, operands: seq<Expr>): Outcome<Value>
    decreases operands, 0
  {
    if operands == [] then Good(Boolean(false))
    else
      var first := EvaluateFilter(row, operands[0]);
      if first.Bad? then Bad
      else if first.value then Good(Boolean(true))
      else EvaluateAny(row, operands[1..])
  }

  /** No filter keeps every row; a null result keeps none. */
  function EvaluateFilter(row: Row, e: Expr): Outcome<bool>
    decreases e, 1
  {
    if e.Missing? then Good(true)
    else
      var v := EvaluateExpression(row, e);
      if v.Bad? then Bad
      else if v.value.Null? then Good(false)
      else if v.value.Boolean? then Good(v.value.flag)
      else Bad
  }

  // ---------- Key selectors ----------

  datatype Selector = Exact(key: string) | Glob(pattern: string)

  datatype Plan = Plan(selectors: seq<Selector>, covered: bool)

  const NO_PLAN := Plan([], false)

  /** The text a literal is stored as in a string column. */
  function Encoded(v: Value): Outcome<string>
    requires !v.Null?
  {
    match v
    case Text(text) => Good(text)
    case OtherText(text) => Good(text)
    case Number(raw, _) => Good(raw)
    case BadNumber(raw) => Good(raw)
    case Binary(raw) => Good(raw)
    case Boolean(flag) => Good(if flag then "true" else "false")
    case Unsupported => Bad
  }

  /** A field compared with a literal, on either side. */
  function FieldAndLiteral(left: Expr, right: Expr): Option<(string, Option<Value>)> {
    if left.Field? && right.Literal? then Some((left.name, right.literal))
    else if right.Field? && left.Literal? then Some((right.name, left.literal))
    else None
  }

  function ComparisonPlan(table: Table, op: ComparisonOp, left: Expr, right: Expr): Outcome<Plan> {
    var pair := FieldAndLiteral(left, right);
    if !op.Equal? || pair.None? || !EqualFold(pair.value.0, table.keyName) then Good(NO_PLAN)
    else if pair.value.1.None? || pair.value.1.value.Null? then Bad
    else
      var raw := Encoded(pair.value.1.value);
      if raw.Bad? then Bad else Good(Plan([Exact(table.prefix + raw.value)], true))
  }

  function PatternPlan(table: Table, op: PatternOp, subject: Expr, pattern: Expr, escape: Option<string>): Outcome<Plan> {
    if !op.Like? || !subject.Field? || !pattern.Literal? || !EqualFold(subject.name, table.keyName) then Good(NO_PLAN)
    else if pattern.literal.None? || !pattern.literal.value.Text? then Bad
    else
      match Compiled(pattern.literal.value.text, escape)
      case None => Bad
      case Some(pieces) => Good(Plan([Glob(table.prefix + GlobOf(pieces))], true))
  }

  function KeySelectors(table: Table, e: Expr): Outcome<Plan>
    decreases e, 0
  {
    match e
    case Comparison(op, left, right) => ComparisonPlan(table, op, left, right)
    case Pattern(op, subject, pattern, escape) => PatternPlan(table, op, subject, pattern, escape)
    case Logical(op, operands) =>
      if |operands| < 2 then Bad
      else
        (match op
         case And => AllSelectors(table, operands)
         case Or => AnySelectors(table, operands)
         case OtherLogical => Bad)
    case _ => Good(NO_PLAN)
  }

  /** AND is covered by any of its operands, and takes the selectors of all. */
  function AllSelectors(table: Table, operands: seq<Expr>): Outcome<Plan>
    decreases operands, 0
  {
    if operands == [] then Good(NO_PLAN)
    else
      var first := KeySelectors(table, operands[0]);
      if first.Bad? then Bad
      else
        var rest := AllSelectors(table, operands[1..]);
        if rest.Bad? then Bad
        else Good(Plan(first.value.selectors + rest.value.selectors, first.value.covered || rest.value.covered))
  }

  /** OR is covered only by all of its operands, and gives up at the first that is not. */
  function AnySelectors(table: Table, operands: seq<Expr>): Outcome<Plan>
    decreases operands, 0
  {
    if operands == [] then Good(Plan([], true))
    else
      var first := KeySelectors(table, operands[0]);
      if first.Bad? then Bad
      else if !first.value.covered then Good(NO_PLAN)
      else
        var rest := AnySelectors(table, operands[1..]);
        if rest.Bad? then Bad
        else if !rest.value.covered then Good(NO_PLAN)
        else Good(Plan(first.value.selectors + rest.value.selectors, true))
  }

  // ---------- Nothing is lost ----------

  predicate Selects(s: Selector, key: string) {
    match s
    case Exact(k) => key == k
    case Glob(pattern) => GlobMatch(pattern, key)
  }

  predicate Selected(selectors: seq<Selector>, key: string) {
    exists i :: 0 <= i < |selectors| && Selects(selectors[i], key)
  }

  /** The row's key is the prefix followed by the text of its key column. */
  predicate IsRowOf(table: Table, row: Row) {
    && Upper(table.keyName) in row.values
    && row.values[Upper(table.keyName)].Text?
    && row.key == table.prefix + row.values[Upper(table.keyName)].text
  }

  /** A plan that does not cover its filter selects nothing; one that does selects something. */
  lemma {:induction false} CoveredExactlyWhenSelecting(table: Table, e: Expr)
    requires KeySelectors(table, e).Good?
    ensures KeySelectors(table, e).value.covered <==> KeySelectors(table, e).value.selectors != []
    decreases e, 0
  {
    if e.Logical? {
      CoveredOperands(table, e.operands);
    }
  }

  lemma {:induction false} CoveredOperands(table: Table, operands: seq<Expr>)
    ensures var plan := AllSelectors(table, operands);
            plan.Good? ==> (plan.value.covered <==> plan.value.selectors != [])
    ensures var plan := AnySelectors(table, operands);
            plan.Good? && operands != [] ==> (plan.value.covered <==> plan.value.selectors != [])
    decreases operands, 0
  {
    if operands != [] {
      if KeySelectors(table, operands[0]).Good? {
        CoveredExactlyWhenSelecting(table, operands[0]);
      }
      CoveredOperands(table, operands[1..]);
    }
  }

  lemma ComparisonCovers(table: Table, row: Row, e: Expr)
    requires e.Comparison? && IsRowOf(table, row)
    requires KeySelectors(table, e).Good? && KeySelectors(table, e).value.covered
    requires EvaluateFilter(row, e) == Good(true)
    ensures Selected(KeySelectors(table, e).value.selectors, row.key)
  {
    var part := row.values[Upper(table.keyName)];
    var literal := FieldAndLiteral(e.left, e.right).value.1.value;
    var l, r := EvaluateExpression(row, e.left), EvaluateExpression(row, e.right);
    assert (l == Good(part) && r == Good(literal)) || (l == Good(literal) && r == Good(part));
    assert CompareValues(l.value, r.value) == Good(0) by {
      assert EvaluateExpression(row, e).Good? && EvaluateExpression(row, e).value == Boolean(true);
    }
    assert IsText(literal) && literal.text == part.text;
    assert Selects(KeySelectors(table, e).value.selectors[0], row.key);
  }

  lemma PatternCovers(table: Table, row: Row, e: Expr)
    requires e.Pattern? && IsRowOf(table, row) && SuitsPatterns(table.prefix)
    requires KeySelectors(table, e).Good? && KeySelectors(table, e).value.covered
    requires EvaluateFilter(row, e) == Good(true)
    ensures Selected(KeySelectors(table, e).value.selectors, row.key)
  {
    var part := row.values[Upper(table.keyName)].text;
    var pieces := Compiled(e.pattern.literal.value.text, e.escape).value;
    assert EvaluateExpression(row, e.subject) == Good(Text(part));
    assert EvaluateExpression(row, e.pattern) == Good(e.pattern.literal.value);
    assert Accepts(pieces, part, false);
    RegexIsLike(pieces, part);
    GlobIsLike(pieces, part);
    SuitedIsCarried(table.prefix, pieces, part);
    assert Selects(KeySelectors(table, e).value.selectors[0], row.key);
  }

  /** Some selector is a glob, put behind the prefix. */
  predicate UsesGlobs(selectors: seq<Selector>) {
    exists i :: 0 <= i < |selectors| && selectors[i].Glob?
  }

  lemma PartsUseGlobs(a: seq<Selector>, b: seq<Selector>)
    ensures UsesGlobs(a) || UsesGlobs(b) ==> UsesGlobs(a + b)
  {
    if i :| 0 <= i < |a| && a[i].Glob? {
      assert (a + b)[i].Glob?;
    }
    if i :| 0 <= i < |b| && b[i].Glob? {
      assert (a + b)[|a| + i].Glob?;
    }
  }

  /** Through any nesting of AND and OR, a covering plan selects the key of every row the filter keeps. */
  lemma {:induction false} PushdownCovers(table: Table, row: Row, e: Expr)
    requires IsRowOf(table, row)
    requires KeySelectors(table, e).Good? && KeySelectors(table, e).value.covered
    requires UsesGlobs(KeySelectors(table, e).value.selectors) ==> SuitsPatterns(table.prefix)
    requires EvaluateFilter(row, e) == Good(true)
    ensures Selected(KeySelectors(table, e).value.selectors, row.key)
    decreases e, 0
  {
    match e
    case Comparison(_, _, _) => ComparisonCovers(table, row, e);
    case Pattern(_, _, _, _) =>
      assert KeySelectors(table, e).value.selectors[0].Glob?;
      PatternCovers(table, row, e);
    case Logical(op, operands) =>
      if op.And? { AllCovers(table, row, operands); } else { AnyCovers(table, row, operands); }
  }

  lemma SelectedByPart(a: seq<Selector>, b: seq<Selector>, key: string)
    ensures Selected(a + b, key) <==> Selected(a, key) || Selected(b, key)
  {
    if i :| 0 <= i < |a| && Selects(a[i], key) {
      assert Selects((a + b)[i], key);
    }
    if i :| 0 <= i < |b| && Selects(b[i], key) {
      assert Selects((a + b)[|a| + i], key);
    }
  }

  lemma {:induction false} AllCovers(table: Table, row: Row, operands: seq<Expr>)
    requires IsRowOf(table, row)
    requires AllSelectors(table, operands).Good? && AllSelectors(table, operands).value.covered
    requires UsesGlobs(AllSelectors(table, operands).value.selectors) ==> SuitsPatterns(table.prefix)
    requires EvaluateAll(row, operands) == Good(Boolean(true))
    ensures Selected(AllSelectors(table, operands).value.selectors, row.key)
    decreases operands, 0
  {
    var first, rest := KeySelectors(table, operands[0]).value, AllSelectors(table, operands[1..]).value;
    SelectedByPart(first.selectors, rest.selectors, row.key);
    PartsUseGlobs(first.selectors, rest.selectors);
    if first.covered {
      PushdownCovers(table, row, operands[0]);
    } else {
      AllCovers(table, row, operands[1..]);
    }
  }

  lemma {:induction false} AnyCovers(table: Table, row: Row, operands: seq<Expr>)
    requires IsRowOf(table, row)
    requires AnySelectors(table, operands).Good? && AnySelectors(table, operands).value.covered
    requires UsesGlobs(AnySelectors(table, operands).value.selectors) ==> SuitsPatterns(table.prefix)
    requires EvaluateAny(row, operands) == Good(Boolean(true))
    ensures Selected(AnySelectors(table, operands).value.selectors, row.key)
    decreases operands, 0
  {
    var first, rest := KeySelectors(table, operands[0]).value, AnySelectors(table, operands[1..]).value;
    SelectedByPart(first.selectors, rest.selectors, row.key);
    PartsUseGlobs(first.selectors, rest.selectors);
    if EvaluateFilter(row, operands[0]) == Good(true) {
      PushdownCovers(table, row, operands[0]);
    } else {
      AnyCovers(table, row, operands[1..]);
    }
  }
}
