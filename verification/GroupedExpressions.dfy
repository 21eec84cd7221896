/**
  Expressions of the in-memory query engine: evaluated on one row, or on a group of rows with one of them as
  the representative; and the check that decides which expressions a grouped query may use.
 */
module GroupedExpressions {
  import opened Options
  import opened Texts

  /**
    Numbers of any numeric type by their exact value and, for decimals and big integers of rows and literals, the text
    they are written as, or that text alone if it is no number; kinds without an order by their content.
   */
  datatype Value =
    | NullValue
    | StringValue(text: string)
    | BooleanValue(flag: bool)
    | NumberValue(kind: NumberKind, number: real, written: Option<string>)
    | MalformedNumber(kind: NumberKind, content: string)
    | OtherValue(typeName: int, content: string)

  datatype NumberKind = Byte | Short | Integer | Long | BigInteger | BigDecimal

  /** The types of results, by the values that have them. */
  datatype ResultType = NumberType(kind: NumberKind) | StringType | BooleanType | OtherType(typeName: int)

  datatype Reason =
    | MissingExpression | MissingName | NoRow | UnknownField | MissingLiteral | NotComparable | MissingOperator
    | WrongOperandCount | NotBoolean | Unsupported | NotGrouped | WrongArguments | NotNumeric | Overflow | MissingType

  datatype Outcome<+T> = Good(value: T) | Fails(reason: Reason)

  datatype ComparisonOp = Equal | NotEqual | Less | LessOrEqual | Greater | GreaterOrEqual | NoComparison

  datatype LogicalOp = And | Or | Not | NoLogical

  datatype NullOp = IsNull | IsNotNull | NoNullOp

  datatype Function = CountStar | Count | Min | Max | Sum | Avg | NoFunction

  datatype Expr =
    | Missing
    | Field(name: string)
    | Literal(literal: Option<Value>)
    | Comparison(comparison: ComparisonOp, left: Expr, right: Expr)
    | Logical(logical: LogicalOp, operands: seq<Expr>)
    | NullPredicate(nullOp: NullOp, operand: Expr)
    | Pattern(subject: Expr, pattern: Expr)
    | FunctionCall(arguments: seq<Expr>)
    | Aggregate(operation: Function, arguments: seq<Expr>, distinct: bool, resultType: Option<ResultType>)
    | NoKind

  /** The values by lower-case column name. */
  datatype Row = Row(key: string, values: map<string, Value>)

  /** What an expression is evaluated on: a representative row if there is one, and the rows of the group. */
  datatype Context = Context(row: Option<Row>, rows: seq<Row>, grouped: bool)

  function RowContext(row: Row): Context {
    Context(Some(row), [], false)
  }

  /** The group's own context: its first row represents it. */
  function GroupContext(rows: seq<Row>): Context {
    Context(if rows == [] then None else Some(rows[0]), rows, true)
  }

  // ---------- Values ----------

  function Sign(less: bool, equal: bool): int {
    if equal then 0 else if less then -1 else 1
  }

  function CompareValues(left: Value, right: Value): Outcome<int> {
    if left.NumberValue? && right.NumberValue? then Good(Sign(left.number < right.number, left.number == right.number))
    else if left.StringValue? && right.StringValue? then
      Good(Sign(TextLess(left.text, right.text), left.text == right.text))
    else if left.BooleanValue? && right.BooleanValue? then Good(Sign(!left.flag, left.flag == right.flag))
    else Fails(NotComparable)
  }

  function Compared(op: ComparisonOp, order: int): Outcome<Value> {
    match op
    case Equal => Good(BooleanValue(order == 0))
    case NotEqual => Good(BooleanValue(order != 0))
    case Less => Good(BooleanValue(order < 0))
    case LessOrEqual => Good(BooleanValue(order <= 0))
    case Greater => Good(BooleanValue(order > 0))
    case GreaterOrEqual => Good(BooleanValue(order >= 0))
    case NoComparison => Fails(MissingOperator)
  }

  predicate InRange(kind: NumberKind, n: int) {
    match kind
    case Byte => -0x80 <= n < 0x80
    case Short => -0x8000 <= n < 0x8000
    case Integer => -0x8000_0000 <= n < 0x8000_0000
    case Long => -0x8000_0000_0000_0000 <= n < 0x8000_0000_0000_0000
    case _ => true
  }

  /** An aggregate's number as the type it declares. */
  function NumberResult(n: real, resultType: Option<ResultType>): Outcome<Value> {
    match resultType
    case None => Fails(MissingType)
    case Some(NumberType(BigDecimal)) => Good(NumberValue(BigDecimal, n, None))
    case Some(NumberType(k)) =>
      if n != n.Floor as real then Fails(NotNumeric)
      else if !InRange(k, n.Floor) then Fails(Overflow)
      else Good(NumberValue(k, n, None))
    case _ => Fails(NotNumeric)
  }

  function TypeOf(v: Value): Option<ResultType> {
    match v
    case NullValue => None
    case StringValue(_) => Some(StringType)
    case BooleanValue(_) => Some(BooleanType)
    case NumberValue(kind, _, _) => Some(NumberType(kind))
    case MalformedNumber(kind, _) => Some(NumberType(kind))
    case OtherValue(typeName, _) => Some(OtherType(typeName))
  }

  /** A value of the declared type is the result as it is. */
  function CoercedResult(v: Value, resultType: Option<ResultType>): Outcome<Value> {
    if resultType.None? then Fails(MissingType)
    else if TypeOf(v) == resultType then Good(v)
    else if !v.NumberValue? then Fails(NotNumeric)
    else NumberResult(v.number, resultType)
  }

  // ---------- Evaluation ----------

  function Evaluate(c: Context, e: Expr): Outcome<Value>
    decreases e, 0
  {
    match e
    case Missing => Fails(MissingExpression)
    case Field(name) =>
      if name == "" then Fails(MissingName)
      else if c.row.None? then Fails(NoRow)
      else if Lower(name) in c.row.value.values then Good(c.row.value.values[Lower(name)])
      else Fails(UnknownField)
    case Literal(literal) => if literal.None? then Fails(MissingLiteral) else Good(literal.value)
    case Comparison(op, left, right) =>
      var l := Evaluate(c, left);
      if l.Fails? then l
      else
        var r := Evaluate(c, right);
        if r.Fails? then r
        else if l.value.NullValue? || r.value.NullValue? then Good(BooleanValue(false))
        else
          var order := CompareValues(l.value, r.value);
          if order.Fails? then Fails(order.reason) else Compared(op, order.value)
    case Logical(op, operands) =>
      (match op
       case And => if |operands| < 2 then Fails(WrongOperandCount) else EvaluateAll(c, operands)
       case Or => if |operands| < 2 then Fails(WrongOperandCount) else EvaluateAny(c, operands)
       case Not =>
         if |operands| != 1 then Fails(WrongOperandCount)
         else
           var b := EvaluateBoolean(c, operands[0]);
           if b.Fails? then Fails(b.reason) else Good(BooleanValue(!b.value))
       case NoLogical => Fails(MissingOperator))
    case NullPredicate(op, operand) =>
      var v := Evaluate(c, operand);
      if v.Fails? then v
      else
        (match op
         case IsNull => Good(BooleanValue(v.value.NullValue?))
         case IsNotNull => Good(BooleanValue(!v.value.NullValue?))
         case NoNullOp => Fails(MissingOperator))
    case Pattern(_, _) => Fails(MissingExpression)
    case FunctionCall(_) => Fails(Unsupported)
    case Aggregate(operation, arguments, distinct, resultType) =>
      if !c.grouped then Fails(NotGrouped)
      else if operation.CountStar? then
        if arguments != [] || distinct then Fails(WrongArguments) else NumberResult(|c.rows| as real, resultType)
      else if |arguments| != 1 then Fails(WrongArguments)
      else
        var values := Arguments(c.rows, arguments[0], distinct);
        if values.Fails? then Fails(values.reason) else Aggregated(operation, values.value, resultType)
    case NoKind => Fails(MissingExpression)
  }

  /** AND in operand order, up to the first operand that fails or is not true. */
  function EvaluateAll(c: Context, operands: seq<Expr>): Outcome<Value>
    decreases operands, 0
  {
    if operands == [] then Good(BooleanValue(true))
    else
      var first := EvaluateBoolean(c, operands[0]);
      if first.Fails? then Fails(first.reason)
      else if !first.value then Good(BooleanValue(false))
      else EvaluateAll(c, operands[1..])
  }

  function EvaluateAny(c: Context, operands: seq<Expr>): Outcome<Value>
    decreases operands, 0
  {
    if operands == [] then Good(BooleanValue(false))
    else
      var first := EvaluateBoolean(c, operands[0]);
      if first.Fails? then Fails(first.reason)
      else if first.value then Good(BooleanValue(true))
      else EvaluateAny(c, operands[1..])
  }

  function EvaluateBoolean(c: Context, e: Expr): Outcome<bool>
    decreases e, 1
  {
    var v := Evaluate(c, e);
    if v.Fails? then Fails(v.reason)
    else if v.value.NullValue? then Good(false)
    else if v.value.BooleanValue? then Good(v.value.flag)
    else Fails(NotBoolean)
  }

  /** The non-null values of the argument over the rows, in order; with `distinct`, each value once. */
  function Arguments(rows: seq<Row>, e: Expr, distinct: bool): Outcome<seq<Value>>
    decreases e, |rows| + 1
  {
    if rows == [] then Good([])
    else
      var before := Arguments(rows[..|rows| - 1], e, distinct);
      if before.Fails? then before
      else
        var v := Evaluate(RowContext(rows[|rows| - 1]), e);
        if v.Fails? then Fails(v.reason)
        else if v.value.NullValue? || (distinct && v.value in before.value) then before
        else Good(before.value + [v.value])
  }

  function Aggregated(operation: Function, values: seq<Value>, resultType: Option<ResultType>): Outcome<Value> {
    match operation
    case Count => NumberResult(|values| as real, resultType)
    case Min => if values == [] then Good(NullValue) else Selected(values, resultType, true)
    case Max => if values == [] then Good(NullValue) else Selected(values, resultType, false)
    case Sum =>
      if values == [] then Good(NullValue)
      else
        var total := Total(values);
        if total.Fails? then Fails(total.reason) else NumberResult(total.value, resultType)
    case Avg =>
      if values == [] then Good(NullValue)
      else
        var total := Total(values);
        if total.Fails? then Fails(total.reason) else NumberResult(total.value / |values| as real, resultType)
    case _ => Fails(Unsupported)
  }

  function Selected(values: seq<Value>, resultType: Option<ResultType>, smallest: bool): Outcome<Value>
    requires values != []
  {
    var best := Best(values, smallest);
    if best.Fails? then best else CoercedResult(best.value, resultType)
  }

  /** The smallest or largest value, the first of equals. */
  function Best(values: seq<Value>, smallest: bool): Outcome<Value>
    requires values != []
  {
    if |values| == 1 then Good(values[0])
    else
      var before := Best(values[..|values| - 1], smallest);
      if before.Fails? then before
      else
        var candidate := values[|values| - 1];
        var order := CompareValues(candidate, before.value);
        if order.Fails? then Fails(order.reason)
        else if (if smallest then order.value < 0 else order.value > 0) then Good(candidate)
        else before
  }

  function Total(values: seq<Value>): Outcome<real> {
    if values == [] then Good(0.0)
    else
      var before := Total(values[..|values| - 1]);
      if before.Fails? then before
      else if !values[|values| - 1].NumberValue? then Fails(NotNumeric)
      else Good(before.value + values[|values| - 1].number)
  }

  // ---------- Which expressions a grouped query may use ----------

  predicate ContainsAggregate(e: Expr) {
    match e
    case Aggregate(_, _, _, _) => true
    case Comparison(_, left, right) => ContainsAggregate(left) || ContainsAggregate(right)
    case Logical(_, operands) => exists i :: 0 <= i < |operands| && ContainsAggregate(operands[i])
    case NullPredicate(_, operand) => ContainsAggregate(operand)
    case Pattern(subject, pattern) => ContainsAggregate(subject) || ContainsAggregate(pattern)
    case FunctionCall(arguments) => exists i :: 0 <= i < |arguments| && ContainsAggregate(arguments[i])
    case _ => false
  }

  /** The check of a projection, HAVING or ORDER BY expression against the GROUP BY list. */
  predicate ValidGrouped(e: Expr, groupBy: seq<Expr>, insideAggregate: bool) {
    if e.Missing? then true
    else if !insideAggregate && e in groupBy then true
    else
      match e
      case Field(_) => insideAggregate
      case Literal(_) => true
      case Aggregate(_, arguments, _, _) =>
        && !insideAggregate
        && forall i :: 0 <= i < |arguments| ==> ValidGrouped(arguments[i], groupBy, true)
      case Comparison(_, left, right) =>
        ValidGrouped(left, groupBy, insideAggregate) && ValidGrouped(right, groupBy, insideAggregate)
      case Logical(_, operands) =>
        forall i :: 0 <= i < |operands| ==> ValidGrouped(operands[i], groupBy, insideAggregate)
      case NullPredicate(_, operand) => ValidGrouped(operand, groupBy, insideAggregate)
      case FunctionCall(arguments) =>
        forall i :: 0 <= i < |arguments| ==> ValidGrouped(arguments[i], groupBy, insideAggregate)
      case Pattern(subject, pattern) =>
        ValidGrouped(subject, groupBy, insideAggregate) && ValidGrouped(pattern, groupBy, insideAggregate)
      case NoKind => false
  }

  /** A list of group-by expressions a query accepts: none is missing or contains an aggregate. */
  predicate ValidGroupBy(groupBy: seq<Expr>) {
    forall i :: 0 <= i < |groupBy| ==> !groupBy[i].Missing? && !ContainsAggregate(groupBy[i])
  }

  /** Every part of the expression has a kind. */
  predicate WellKinded(e: Expr) {
    match e
    case NoKind => false
    case Comparison(_, left, right) => WellKinded(left) && WellKinded(right)
    case Logical(_, operands) => forall i :: 0 <= i < |operands| ==> WellKinded(operands[i])
    case NullPredicate(_, operand) => WellKinded(operand)
    case Pattern(subject, pattern) => WellKinded(subject) && WellKinded(pattern)
    case FunctionCall(arguments) => forall i :: 0 <= i < |arguments| ==> WellKinded(arguments[i])
    case Aggregate(_, arguments, _, _) => forall i :: 0 <= i < |arguments| ==> WellKinded(arguments[i])
    case _ => true
  }

  /** An aggregate's argument may use any field, exactly when it contains no aggregate itself. */
  lemma {:induction false} ArgumentsUseAnyField(e: Expr, groupBy: seq<Expr>)
    requires WellKinded(e)
    ensures ValidGrouped(e, groupBy, true) <==> !ContainsAggregate(e)
  {
    match e
    case Comparison(_, left, right) =>
      ArgumentsUseAnyField(left, groupBy);
      ArgumentsUseAnyField(right, groupBy);
    case Logical(_, operands) =>
      forall i | 0 <= i < |operands| ensures ValidGrouped(operands[i], groupBy, true) <==> !ContainsAggregate(operands[i]) {
        ArgumentsUseAnyField(operands[i], groupBy);
      }
    case NullPredicate(_, operand) => ArgumentsUseAnyField(operand, groupBy);
    case Pattern(subject, pattern) =>
      ArgumentsUseAnyField(subject, groupBy);
      ArgumentsUseAnyField(pattern, groupBy);
    case FunctionCall(arguments) =>
      forall i | 0 <= i < |arguments|
        ensures ValidGrouped(arguments[i], groupBy, true) <==> !ContainsAggregate(arguments[i])
      {
        ArgumentsUseAnyField(arguments[i], groupBy);
      }
    case _ =>
  }

  // ---------- Any row represents its group ----------

  /** The rows agree on every group-by expression, and both have a value for it. */
  predicate SameGroup(groupBy: seq<Expr>, r: Row, s: Row) {
    forall i :: 0 <= i < |groupBy| ==>
      Evaluate(RowContext(r), groupBy[i]).Good?
          && Evaluate(RowContext(r), groupBy[i]) == Evaluate(RowContext(s), groupBy[i])
  }

  /** Without aggregates an expression depends on the representative row alone. */
  lemma {:induction false} RowExpression(c: Context, d: Context, e: Expr)
    requires c.row == d.row && !ContainsAggregate(e)
    ensures Evaluate(c, e) == Evaluate(d, e)
    decreases e, 0
  {
    match e
    case Comparison(_, left, right) =>
      RowExpression(c, d, left);
      RowExpression(c, d, right);
    case Logical(_, operands) =>
      forall i | 0 <= i < |operands| ensures Evaluate(c, operands[i]) == Evaluate(d, operands[i]) {
        RowExpression(c, d, operands[i]);
      }
      SameOperands(c, d, operands);
    case NullPredicate(_, operand) => RowExpression(c, d, operand);
    case _ =>
  }

  lemma {:induction false} SameOperands(c: Context, d: Context, operands: seq<Expr>)
    requires forall i :: 0 <= i < |operands| ==> Evaluate(c, operands[i]) == Evaluate(d, operands[i])
    ensures EvaluateAll(c, operands) == EvaluateAll(d, operands)
    ensures EvaluateAny(c, operands) == EvaluateAny(d, operands)
  {
    if operands != [] {
      SameOperands(c, d, operands[1..]);
    }
  }

  /** What two choices of a representative, or none at all, may differ in without a valid expression seeing it. */
  ghost predicate Interchangeable(groupBy: seq<Expr>, r: Option<Row>, s: Option<Row>) {
    if r.Some? && s.Some? then SameGroup(groupBy, r.value, s.value) else groupBy == []
  }

  /**
    A valid expression has the same value, or fails for the same reason, whichever row of the group
    represents it; and without GROUP BY it needs no row at all.
   */
  lemma {:induction false} AnyRepresentative(e: Expr, groupBy: seq<Expr>, rows: seq<Row>, r: Option<Row>, s: Option<Row>)
    requires ValidGroupBy(groupBy) && ValidGrouped(e, groupBy, false) && Interchangeable(groupBy, r, s)
    ensures Evaluate(Context(r, rows, true), e) == Evaluate(Context(s, rows, true), e)
    decreases e, 0
  {
    var c, d := Context(r, rows, true), Context(s, rows, true);
    if e in groupBy {
      RowExpression(c, RowContext(r.value), e);
      RowExpression(d, RowContext(s.value), e);
    } else {
      match e
      case Comparison(_, left, right) =>
        AnyRepresentative(left, groupBy, rows, r, s);
        AnyRepresentative(right, groupBy, rows, r, s);
      case Logical(_, operands) =>
        forall i | 0 <= i < |operands| ensures Evaluate(c, operands[i]) == Evaluate(d, operands[i]) {
          AnyRepresentative(operands[i], groupBy, rows, r, s);
        }
        SameOperands(c, d, operands);
      case NullPredicate(_, operand) => AnyRepresentative(operand, groupBy, rows, r, s);
      case _ =>
    }
  }

  /** The empty group of a query without GROUP BY: no valid expression misses a row. */
  lemma {:induction false} EmptyGroupNeedsNoRow(e: Expr, rows: seq<Row>)
    requires ValidGrouped(e, [], false)
    ensures forall row :: Evaluate(Context(None, rows, true), e) == Evaluate(Context(Some(row), rows, true), e)
  {
    forall row ensures Evaluate(Context(None, rows, true), e) == Evaluate(Context(Some(row), rows, true), e) {
      AnyRepresentative(e, [], rows, None, Some(row));
    }
  }
}
