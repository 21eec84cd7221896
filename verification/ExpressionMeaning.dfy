/** What expressions of the in-memory engine and its aggregates mean, told from operands, rows and values. */
module ExpressionMeaning {
  import opened Options
  import opened Texts
  import opened GroupedExpressions

  // ---------- Comparisons ----------

  /** Both are numbers, texts or truth values. */
  predicate Comparable(a: Value, b: Value) {
    (a.NumberValue? && b.NumberValue?) || (a.StringValue? && b.StringValue?) || (a.BooleanValue? && b.BooleanValue?)
  }

  predicate Same(a: Value, b: Value)
    requires Comparable(a, b)
  {
    if a.NumberValue? then a.number == b.number else if a.StringValue? then a.text == b.text else a.flag == b.flag
  }

  predicate Below(a: Value, b: Value)
    requires Comparable(a, b)
  {
    if a.NumberValue? then a.number < b.number else if a.StringValue? then TextLess(a.text, b.text) else !a.flag && b.flag
  }

  /** The two values stand in the relation that the operator names. */
  predicate Stands(op: ComparisonOp, a: Value, b: Value)
    requires Comparable(a, b)
  {
    match op
    case Equal => Same(a, b)
    case NotEqual => !Same(a, b)
    case Less => Below(a, b)
    case LessOrEqual => Below(a, b) || Same(a, b)
    case Greater => Below(b, a)
    case GreaterOrEqual => Below(b, a) || Same(a, b)
    case NoComparison => false
  }

  lemma ComparedMeans(a: Value, b: Value)
    ensures CompareValues(a, b).Good? <==> Comparable(a, b)
    ensures Comparable(a, b) ==>
              var order := CompareValues(a, b).value;
              && (order < 0 <==> Below(a, b)) && (order == 0 <==> Same(a, b)) && (order > 0 <==> Below(b, a))
              && forall op :: Compared(op, order) ==
                   if op.NoComparison? then Fails(MissingOperator) else Good(BooleanValue(Stands(op, a, b)))
  {
    if a.StringValue? && b.StringValue? {
      TextLessTotal(a.text, b.text);
    }
  }

  /**
    A comparison of two comparable values is whether they stand in its relation, and of a null with anything is false; it
    fails exactly if an operand does, the values do not compare or the operator is none.
   */
  lemma ComparisonMeans(c: Context, op: ComparisonOp, left: Expr, right: Expr)
    ensures var l, r, v := Evaluate(c, left), Evaluate(c, right), Evaluate(c, Comparison(op, left, right));
            if l.Fails? || r.Fails? then v == if l.Fails? then l else r
            else if l.value.NullValue? || r.value.NullValue? then v == Good(BooleanValue(false))
            else if Comparable(l.value, r.value) && !op.NoComparison? then
              v == Good(BooleanValue(Stands(op, l.value, r.value)))
            else v.Fails?
  {
    var l, r := Evaluate(c, left), Evaluate(c, right);
    if l.Good? && r.Good? {
      ComparedMeans(l.value, r.value);
    }
    hide Stands, Compared, CompareValues;
  }

  /** Fields are found by their names without regard to case. */
  lemma FieldsIgnoreCase(c: Context, one: string, other: string)
    requires EqualFold(one, other)
    ensures Evaluate(c, Field(one)) == Evaluate(c, Field(other))
    ensures one != "" && c.row.Some? && Lower(one) in c.row.value.values ==>
              Evaluate(c, Field(one)) == Good(c.row.value.values[Lower(one)])
  {
    EqualFoldExactlyWhen(one, other);
    SameLower(one, other);
  }

  /**
    A literal is its value and a field that of the row's column; where a truth value is asked for, a null is false. What has
    no kind, patterns, function calls, aggregates outside a group and those with the wrong arguments fail.
   */
  lemma OperandsMean(c: Context, e: Expr, b: bool)
    ensures e.Literal? ==> if e.literal.Some? then Evaluate(c, e) == Good(e.literal.value) else Evaluate(c, e).Fails?
    ensures e.Field? ==>
              (Evaluate(c, e).Good? <==> e.name != "" && c.row.Some? && Lower(e.name) in c.row.value.values)
    ensures e.Missing? || e.NoKind? || e.Pattern? || e.FunctionCall? ==> Evaluate(c, e).Fails?
    ensures e.Aggregate? && (!c.grouped || (e.operation.CountStar? && e.distinct)) ==> Evaluate(c, e).Fails?
    ensures e.Aggregate? && |e.arguments| != (if e.operation.CountStar? then 0 else 1) ==> Evaluate(c, e).Fails?
    ensures EvaluateBoolean(c, e) == Good(b) <==>
              Evaluate(c, e) == Good(BooleanValue(b)) || (!b && Evaluate(c, e) == Good(NullValue))
  {
  }

  // ---------- NOT, AND, OR and null tests ----------

  /** The first operand that does not have the given truth value fails. */
  ghost predicate FailsFirst(c: Context, operands: seq<Expr>, passed: bool) {
    exists i :: 0 <= i < |operands| && EvaluateBoolean(c, operands[i]).Fails?
                && forall j :: 0 <= j < i ==> EvaluateBoolean(c, operands[j]) == Good(passed)
  }

  lemma FailsFirstFront(c: Context, operands: seq<Expr>, passed: bool)
    requires operands != []
    ensures FailsFirst(c, operands, passed) <==>
              EvaluateBoolean(c, operands[0]).Fails? ||
              (EvaluateBoolean(c, operands[0]) == Good(passed) && FailsFirst(c, operands[1..], passed))
  {
    var rest := operands[1..];
    hide EvaluateBoolean;
    if i :| 0 <= i < |rest| && EvaluateBoolean(c, rest[i]).Fails?
            && forall j :: 0 <= j < i ==> EvaluateBoolean(c, rest[j]) == Good(passed) {
      if EvaluateBoolean(c, operands[0]) == Good(passed) {
        assert operands[i + 1] == rest[i];
        forall j | 0 <= j < i + 1 ensures EvaluateBoolean(c, operands[j]) == Good(passed) {
          assert j > 0 ==> operands[j] == rest[j - 1];
        }
      }
    }
    if i :| 0 <= i < |operands| && EvaluateBoolean(c, operands[i]).Fails?
            && forall j :: 0 <= j < i ==> EvaluateBoolean(c, operands[j]) == Good(passed) {
      if i > 0 {
        assert rest[i - 1] == operands[i];
        assert forall j :: 0 <= j < i - 1 ==> rest[j] == operands[j + 1];
      }
    }
  }

  /**
    AND is true exactly if every operand is, OR false exactly if every operand is; the first that does not pass decides.
   */
  lemma {:induction false} JunctionMeans(c: Context, operands: seq<Expr>)
    ensures var all, any := EvaluateAll(c, operands), EvaluateAny(c, operands);
            && (all == Good(BooleanValue(true)) <==>
                 forall i :: 0 <= i < |operands| ==> EvaluateBoolean(c, operands[i]) == Good(true))
            && (any == Good(BooleanValue(false)) <==>
                 forall i :: 0 <= i < |operands| ==> EvaluateBoolean(c, operands[i]) == Good(false))
            && (all.Fails? <==> FailsFirst(c, operands, true)) && (any.Fails? <==> FailsFirst(c, operands, false))
            && (all.Good? ==> all.value.BooleanValue?) && (any.Good? ==> any.value.BooleanValue?)
  {
    if operands != [] {
      JunctionMeans(c, operands[1..]);
      FailsFirstFront(c, operands, true);
      FailsFirstFront(c, operands, false);
      hide EvaluateBoolean, FailsFirst;
      var rest := operands[1..];
      assert forall i :: 0 < i < |operands| ==> operands[i] == rest[i - 1];
    }
  }

  /** NOT turns its only operand round, AND and OR take two operands or more, and null tests tell nulls. */
  lemma LogicMeans(c: Context, op: LogicalOp, operands: seq<Expr>, test: NullOp, operand: Expr)
    ensures var v := Evaluate(c, Logical(op, operands));
            && (op.And? && |operands| >= 2 ==> v == EvaluateAll(c, operands))
            && (op.Or? && |operands| >= 2 ==> v == EvaluateAny(c, operands))
            && (op.Not? && |operands| == 1 && EvaluateBoolean(c, operands[0]).Good? ==>
                 v == Good(BooleanValue(EvaluateBoolean(c, operands[0]) == Good(false))))
            && (op.NoLogical? || (if op.Not? then |operands| != 1 else |operands| < 2) ==> v.Fails?)
            && (op.Not? && |operands| == 1 && EvaluateBoolean(c, operands[0]).Fails? ==> v.Fails?)
    ensures var v, tested := Evaluate(c, operand), Evaluate(c, NullPredicate(test, operand));
            && (tested.Fails? <==> v.Fails? || test.NoNullOp?)
            && (tested.Good? ==> tested.value == BooleanValue(v.value.NullValue? == test.IsNull?))
  {
    hide EvaluateAll, EvaluateAny;
  }

  // ---------- The values an aggregate is over ----------

  /** The argument's value on the row, unless it is null. */
  ghost predicate Counts(rows: seq<Row>, e: Expr, i: int, v: Value) {
    0 <= i < |rows| && Evaluate(RowContext(rows[i]), e) == Good(v) && !v.NullValue?
  }

  ghost function RowsWith(rows: seq<Row>, e: Expr, v: Value): set<int> {
    set i | 0 <= i < |rows| && Counts(rows, e, i, v)
  }

  /** An aggregate is over each value as often as a row has it, with DISTINCT once, and never over a null. */
  ghost predicate ValuesOf(rows: seq<Row>, e: Expr, distinct: bool, values: seq<Value>) {
    forall v :: multiset(values)[v] ==
      if distinct then (if RowsWith(rows, e, v) != {} then 1 else 0) else |RowsWith(rows, e, v)|
  }

  lemma RowsWithOneMore(rows: seq<Row>, row: Row, e: Expr, v: Value)
    ensures var before, after := RowsWith(rows, e, v), RowsWith(rows + [row], e, v);
            if Evaluate(RowContext(row), e) == Good(v) && !v.NullValue?
            then after == before + {|rows|} && |after| == |before| + 1
            else after == before
  {
    var all, n := rows + [row], |rows|;
    hide Evaluate;
    assert Counts(all, e, n, v) <==> Evaluate(RowContext(row), e) == Good(v) && !v.NullValue? by { assert all[n] == row; }
    forall i | i != n ensures Counts(all, e, i, v) <==> Counts(rows, e, i, v) {
      assert 0 <= i < n ==> all[i] == rows[i];
    }
    assert !Counts(rows, e, n, v);
    SameIndices(all, rows, e, v);
    OneMoreIndex(RowsWith(rows, e, v), n);
    hide Counts, RowsWith;
  }

  lemma SameIndices(all: seq<Row>, rows: seq<Row>, e: Expr, v: Value)
    requires |all| == |rows| + 1 && !Counts(rows, e, |rows|, v)
    requires forall i :: i != |rows| ==> (Counts(all, e, i, v) <==> Counts(rows, e, i, v))
    ensures RowsWith(all, e, v) == if Counts(all, e, |rows|, v) then RowsWith(rows, e, v) + {|rows|} else RowsWith(rows, e, v)
    ensures |rows| !in RowsWith(rows, e, v)
  {
    hide Evaluate;
    assert forall i :: Counts(rows, e, i, v) ==> 0 <= i < |rows|;
    assert forall i :: Counts(all, e, i, v) ==> 0 <= i < |all|;
    hide Counts;
    assert forall i :: i in RowsWith(rows, e, v) <==> Counts(rows, e, i, v);
    assert forall i :: i in RowsWith(all, e, v) <==> Counts(all, e, i, v);
  }

  lemma OneMoreIndex(s: set<int>, n: int)
    requires n !in s
    ensures |s + {n}| == |s| + 1
  {
  }

  /** Whether and over what an aggregate is computed: it fails on its argument exactly if some row does. */
  lemma {:induction false} ArgumentsMean(rows: seq<Row>, e: Expr, distinct: bool)
    ensures Arguments(rows, e, distinct).Good? <==> forall row :: row in rows ==> Evaluate(RowContext(row), e).Good?
    ensures Arguments(rows, e, distinct).Good? ==> ValuesOf(rows, e, distinct, Arguments(rows, e, distinct).value)
  {
    if rows == [] {
      assert forall v :: RowsWith(rows, e, v) == {};
    } else {
      var front, last := rows[..|rows| - 1], rows[|rows| - 1];
      assert rows == front + [last];
      ArgumentsMean(front, e, distinct);
      assert forall row :: row in rows <==> row in front || row == last;
      hide Evaluate;
      if Arguments(rows, e, distinct).Good? {
        var v := Evaluate(RowContext(last), e).value;
        ArgumentTaken(front, last, e, distinct, Arguments(front, e, distinct).value, v);
      }
    }
  }

  lemma ArgumentTaken(rows: seq<Row>, row: Row, e: Expr, distinct: bool, before: seq<Value>, v: Value)
    requires ValuesOf(rows, e, distinct, before) && Evaluate(RowContext(row), e) == Good(v)
    ensures ValuesOf(rows + [row], e, distinct, if v.NullValue? || (distinct && v in before) then before else before + [v])
  {
    var after := if v.NullValue? || (distinct && v in before) then before else before + [v];
    hide RowsWith;
    forall x
      ensures multiset(after)[x] ==
              if distinct then (if RowsWith(rows + [row], e, x) != {} then 1 else 0) else |RowsWith(rows + [row], e, x)|
    {
      RowsWithOneMore(rows, row, e, x);
      assert x in before <==> multiset(before)[x] > 0;
    }
  }

  // ---------- Least and greatest values ----------

  /** None of the values is below the given one, or above it. */
  ghost predicate IsExtreme(values: seq<Value>, best: Value, smallest: bool) {
    && best in values
    && forall v :: v in values ==> v == best
                                   || (Comparable(v, best) && !(if smallest then Below(v, best) else Below(best, v)))
  }

  ghost predicate AllComparable(values: seq<Value>) {
    forall v, w :: v in values && w in values ==> Comparable(v, w)
  }

  lemma OrderFacts(a: Value, b: Value, c: Value)
    requires Comparable(a, b) && Comparable(b, c)
    ensures Comparable(a, c) && Comparable(b, a) && Comparable(a, a)
    ensures !(Below(a, b) && Below(b, a)) && (Below(a, b) || Same(a, b) || Below(b, a)) && (Same(a, b) ==> !Below(a, b))
    ensures Below(a, b) && !Below(c, b) ==> Below(a, c)
    ensures !Below(b, a) && !Below(c, b) ==> !Below(c, a)
    ensures Same(a, b) && Same(b, c) ==> Same(a, c)
  {
    if a.StringValue? {
      TextLessTotal(a.text, b.text);
      TextLessTotal(b.text, c.text);
      if TextLess(a.text, b.text) && TextLess(b.text, c.text) { TextLessTransitive(a.text, b.text, c.text); }
      if TextLess(c.text, a.text) && TextLess(a.text, b.text) { TextLessTransitive(c.text, a.text, b.text); }
      if TextLess(b.text, c.text) && TextLess(c.text, a.text) { TextLessTransitive(b.text, c.text, a.text); }
      TextLessTotal(a.text, c.text);
    }
  }

  /** The first of the values that equal the best. */
  ghost predicate IsFirst(values: seq<Value>, best: Value) {
    exists i :: 0 <= i < |values| && values[i] == best &&
                forall j :: 0 <= j < i ==> Comparable(values[j], best) && !Same(values[j], best)
  }

  /**
    A least or greatest value is found exactly if there is only one value or all compare; it is the first of its equals.
   */
  lemma {:induction false} BestMeans(values: seq<Value>, smallest: bool)
    requires values != []
    ensures Best(values, smallest).Good? <==> |values| == 1 || AllComparable(values)
    ensures Best(values, smallest).Good? ==>
              IsExtreme(values, Best(values, smallest).value, smallest) && IsFirst(values, Best(values, smallest).value)
  {
    var front, last := values[..|values| - 1], values[|values| - 1];
    assert values == front + [last];
    if |values| > 1 {
      BestMeans(front, smallest);
      if Best(front, smallest).Good? {
        OneMoreCandidate(front, last, Best(front, smallest).value, smallest);
        ComparedMeans(last, Best(front, smallest).value);
      } else {
        assert forall v :: v in front ==> v in values;
      }
      hide AllComparable, IsExtreme, IsFirst;
    }
  }

  lemma OneMoreCandidate(front: seq<Value>, last: Value, best: Value, smallest: bool)
    requires front != [] && IsExtreme(front, best, smallest) && IsFirst(front, best)
               && (|front| == 1 || AllComparable(front))
    ensures var values := front + [last];
            && (Comparable(last, best) <==> AllComparable(values))
            && (Comparable(last, best) ==>
                 var b := if (if smallest then Below(last, best) else Below(best, last)) then last else best;
                 IsExtreme(values, b, smallest) && IsFirst(values, b))
  {
    var values := front + [last];
    assert last in values && best in values;
    if Comparable(last, best) {
      forall v, w | v in values && w in values ensures Comparable(v, w) {
        assert v == last || v == best || Comparable(v, best);
        assert w == last || w == best || Comparable(w, best);
      }
      CandidateWins(front, last, best, smallest);
    }
  }

  lemma CandidateWins(front: seq<Value>, last: Value, best: Value, smallest: bool)
    requires front != [] && IsExtreme(front, best, smallest) && IsFirst(front, best)
    requires AllComparable(front + [last])
    ensures var values := front + [last];
            && Comparable(last, best)
            && var b := if (if smallest then Below(last, best) else Below(best, last)) then last else best;
               IsExtreme(values, b, smallest) && IsFirst(values, b)
  {
    var values := front + [last];
    assert last in values && best in values;
    var better := if smallest then Below(last, best) else Below(best, last);
    var b := if better then last else best;
    forall v | v in values
      ensures Comparable(v, b) && !(if smallest then Below(v, b) else Below(b, v))
      ensures better && v in front ==> !Same(v, b)
    {
      OrderFacts(last, best, v);
      OrderFacts(v, best, last);
      OrderFacts(best, v, last);
      OrderFacts(v, v, v);
    }
    hide IsExtreme, Comparable, Below, Same, AllComparable;
    if better {
      assert values[|front|] == last;
      assert forall j :: 0 <= j < |front| ==> values[j] == front[j] && front[j] in front && values[j] in values;
    } else {
      var i :| 0 <= i < |front| && front[i] == best && forall j :: 0 <= j < i ==> Comparable(front[j], best)
                                                                                  && !Same(front[j], best);
      assert values[i] == best && forall j :: 0 <= j < i ==> values[j] == front[j];
    }
  }

  // ---------- Totals and results ----------

  ghost predicate AllNumbers(values: seq<Value>) {
    forall v :: v in values ==> v.NumberValue?
  }

  /**
    A total is found exactly if all values are numbers; it is none of nothing,
    a single number's own, and adds up over parts.
   */
  lemma {:induction false} TotalMeans(a: seq<Value>, b: seq<Value>)
    ensures Total([]) == Good(0.0) && (Total(a).Good? <==> AllNumbers(a))
    ensures |a| == 1 && a[0].NumberValue? ==> Total(a) == Good(a[0].number)
    ensures Total(a).Good? && Total(b).Good? ==> Total(a + b) == Good(Total(a).value + Total(b).value)
    decreases |a| + |b|
  {
    if b != [] {
      var front, last := b[..|b| - 1], b[|b| - 1];
      TotalMeans(a, front);
      assert b == front + [last] && (a + b)[..|a + b| - 1] == a + front;
    } else {
      assert a + b == a;
      if a != [] {
        var front, last := a[..|a| - 1], a[|a| - 1];
        assert a == front + [last];
        TotalMeans(front, []);
      }
    }
  }

  /** The bounds of the bounded types. */
  predicate Within(kind: NumberKind, n: real) {
    match kind
    case Byte => -128.0 <= n <= 127.0
    case Short => -32768.0 <= n <= 32767.0
    case Integer => -2147483648.0 <= n <= 2147483647.0
    case Long => -9223372036854775808.0 <= n <= 9223372036854775807.0
    case _ => true
  }

  /**
    A number is the result exactly if the declared type can hold it: a
    decimal any, the others whole numbers within bounds.
   */
  lemma NumberResultMeans(n: real, t: Option<ResultType>)
    ensures NumberResult(n, t).Good? <==>
              t.Some? && t.value.NumberType? &&
              (t.value.kind.BigDecimal? || (n.Floor as real == n && Within(t.value.kind, n)))
    ensures NumberResult(n, t).Good? ==> NumberResult(n, t) == Good(NumberValue(t.value.kind, n, None))
  {
  }

  /** So is a least or greatest value, or any other value of just the declared type. */
  lemma CoercedResultMeans(v: Value, t: Option<ResultType>)
    requires !v.NullValue?
    ensures TypeOf(v) == Some(StringType) <==> v.StringValue?
    ensures TypeOf(v) == Some(BooleanType) <==> v.BooleanValue?
    ensures forall kind :: TypeOf(v) == Some(NumberType(kind)) <==>
                           (v.NumberValue? || v.MalformedNumber?) && v.kind == kind
    ensures forall name :: TypeOf(v) == Some(OtherType(name)) <==> v.OtherValue? && v.typeName == name
    ensures CoercedResult(v, t).Good? <==> TypeOf(v) == t || (v.NumberValue? && NumberResult(v.number, t).Good?)
    ensures CoercedResult(v, t).Good? ==>
              CoercedResult(v, t) == if TypeOf(v) == t then Good(v) else NumberResult(v.number, t)
  {
  }

  lemma ExtremesMean(operation: Function, values: seq<Value>, t: Option<ResultType>)
    requires (operation.Min? || operation.Max?) && values != []
    ensures var v := Aggregated(operation, values, t);
            if |values| == 1 || AllComparable(values) then
              exists best :: IsExtreme(values, best, operation.Min?) && IsFirst(values, best) && v == CoercedResult(best, t)
            else v.Fails?
  {
    BestMeans(values, operation.Min?);
    hide Best, CoercedResult, IsExtreme, IsFirst, AllComparable;
  }

  lemma TotalsMean(operation: Function, values: seq<Value>, t: Option<ResultType>)
    requires (operation.Sum? || operation.Avg?) && values != []
    ensures Total(values).Good? <==> AllNumbers(values)
    ensures var v := Aggregated(operation, values, t);
            if !AllNumbers(values) then v.Fails?
            else if operation.Sum? then v == NumberResult(Total(values).value, t)
            else exists mean :: mean * |values| as real == Total(values).value && v == NumberResult(mean, t)
  {
    TotalMeans(values, []);
    if AllNumbers(values) {
      var mean := Total(values).value / |values| as real;
      DividedBack(Total(values).value, |values|);
      assert operation.Avg? ==> Aggregated(operation, values, t) == NumberResult(mean, t);
      assert mean * |values| as real == Total(values).value;
    }
    hide Total, NumberResult, AllNumbers;
  }

  lemma DividedBack(x: real, n: nat)
    requires n > 0
    ensures (x / n as real) * n as real == x
  {
  }

  /**
    What an aggregate of a group is: the number of rows; or over the argument's values, their number, their least or
    greatest, their total, or that divided by their number, null if there are none; as a value of the declared type.
   */
  lemma AggregateMeans(c: Context, operation: Function, e: Expr, distinct: bool, t: Option<ResultType>)
    requires c.grouped
    ensures Evaluate(c, Aggregate(CountStar, [], false, t)) == NumberResult(|c.rows| as real, t)
    ensures var v, over := Evaluate(c, Aggregate(operation, [e], distinct, t)), Arguments(c.rows, e, distinct);
            && (over.Fails? || operation.CountStar? || operation.NoFunction? ==> v.Fails?)
            && (over.Good? && operation.Count? ==> v == NumberResult(|over.value| as real, t))
            && (over == Good([]) && !operation.CountStar? && !operation.Count? && !operation.NoFunction? ==>
                v == Good(NullValue))
            && (over.Good? && over.value != [] && (operation.Min? || operation.Max?) ==>
                 if |over.value| == 1 || AllComparable(over.value) then
                   exists best :: IsExtreme(over.value, best, operation.Min?) && IsFirst(over.value, best)
                                  && v == CoercedResult(best, t)
                 else v.Fails?)
            && (over.Good? && over.value != [] && (operation.Sum? || operation.Avg?) ==>
                 && (Total(over.value).Good? <==> AllNumbers(over.value))
                 && if !AllNumbers(over.value) then v.Fails?
                    else if operation.Sum? then v == NumberResult(Total(over.value).value, t)
                    else exists mean :: mean * |over.value| as real == Total(over.value).value
                                        && v == NumberResult(mean, t))
  {
    var over := Arguments(c.rows, e, distinct);
    hide Arguments, Best, Total, NumberResult, CoercedResult, IsExtreme, IsFirst, AllComparable, AllNumbers;
    assert over.Good? && !operation.CountStar? ==>
        Evaluate(c, Aggregate(operation, [e], distinct, t)) == Aggregated(operation, over.value, t);
    if over.Good? && over.value != [] {
      if operation.Min? || operation.Max? {
        ExtremesMean(operation, over.value, t);
      } else if operation.Sum? || operation.Avg? {
        TotalsMean(operation, over.value, t);
      }
    }
  }

  // ---------- Which expressions a grouped query may use ----------

  function Parts(e: Expr): seq<Expr> {
    match e
    case Comparison(_, left, right) => [left, right]
    case Logical(_, operands) => operands
    case NullPredicate(_, operand) => [operand]
    case Pattern(subject, pattern) => [subject, pattern]
    case FunctionCall(arguments) => arguments
    case Aggregate(_, arguments, _, _) => arguments
    case _ => []
  }

  /** Each expression is a part of the one before. */
  ghost predicate IsPath(path: seq<Expr>) {
    path != [] && forall i :: 0 < i < |path| ==> path[i] in Parts(path[i - 1])
  }

  /** The i-th expression of the path is inside an aggregate. */
  ghost predicate InAggregate(path: seq<Expr>, i: int, inside: bool) {
    inside || exists j :: 0 <= j < i && j < |path| && path[j].Aggregate?
  }

  /**
    The path leads, past no group-by expression outside an aggregate, to a field outside an aggregate, to an aggregate
    inside another, or to what has no kind.
   */
  ghost predicate Offends(path: seq<Expr>, groupBy: seq<Expr>, inside: bool) {
    && IsPath(path)
    && (forall i :: 0 <= i < |path| && path[i] in groupBy && !path[i].Missing? ==> InAggregate(path, i, inside))
    && var n := |path| - 1;
       path[n].NoKind? || (path[n].Field? && !InAggregate(path, n, inside))
           || (path[n].Aggregate? && InAggregate(path, n, inside))
  }

  ghost predicate HasOffence(e: Expr, groupBy: seq<Expr>, inside: bool) {
    exists path :: Offends(path, groupBy, inside) && path[0] == e
  }

  /** An expression is accepted in a grouped query exactly if nothing in it offends. */
  lemma {:induction false} ValidGroupedExactlyWhen(e: Expr, groupBy: seq<Expr>, inside: bool)
    ensures ValidGrouped(e, groupBy, inside) <==> !HasOffence(e, groupBy, inside)
    decreases e
  {
    OffenceFirst(e, groupBy, inside);
    forall part | part in Parts(e)
      ensures ValidGrouped(part, groupBy, inside || e.Aggregate?) <==> !HasOffence(part, groupBy, inside || e.Aggregate?)
    {
      ValidGroupedExactlyWhen(part, groupBy, inside || e.Aggregate?);
    }
    PartsAreChecked(e, groupBy, inside);
    hide ValidGrouped, HasOffence, Parts;
  }

  lemma PartsAreChecked(e: Expr, groupBy: seq<Expr>, inside: bool)
    ensures ValidGrouped(e, groupBy, inside) <==>
              e.Missing? || (!inside && e in groupBy) ||
              (!OffendsAlone(e, inside) && forall part :: part in Parts(e) ==>
                  ValidGrouped(part, groupBy, inside || e.Aggregate?))
  {
    match e
    case Comparison(_, left, right) => assert left in Parts(e) && right in Parts(e);
    case NullPredicate(_, operand) => assert operand in Parts(e);
    case Pattern(subject, pattern) => assert subject in Parts(e) && pattern in Parts(e);
    case Logical(_, operands) =>
      EachPart(e, operands, groupBy, inside);
      hide ValidGrouped;
      assert Parts(e) == operands;
    case FunctionCall(arguments) =>
      EachPart(e, arguments, groupBy, inside);
      hide ValidGrouped;
      assert Parts(e) == arguments;
    case Aggregate(_, arguments, _, _) =>
      EachPart(e, arguments, groupBy, inside);
      hide ValidGrouped;
      assert Parts(e) == arguments;
    case _ =>
  }

  lemma EachPart(e: Expr, parts: seq<Expr>, groupBy: seq<Expr>, inside: bool)
    requires (e.Logical? && parts == e.operands) || ((e.FunctionCall? || e.Aggregate?) && parts == e.arguments)
    ensures ValidGrouped(e, groupBy, inside) <==>
              (!inside && e in groupBy) ||
              (!(e.Aggregate? && inside) && forall part :: part in parts ==>
                  ValidGrouped(part, groupBy, inside || e.Aggregate?))
  {
    var within := inside || e.Aggregate?;
    assert ValidGrouped(e, groupBy, inside) <==>
        (!inside && e in groupBy) ||
        (!(e.Aggregate? && inside) && forall i :: 0 <= i < |parts| ==> ValidGrouped(parts[i], groupBy, within));
    hide ValidGrouped;
    assert forall i :: 0 <= i < |parts| ==> parts[i] in parts;
  }

  predicate OffendsAlone(e: Expr, inside: bool) {
    e.NoKind? || (e.Field? && !inside) || (e.Aggregate? && inside)
  }

  lemma OffenceFirst(e: Expr, groupBy: seq<Expr>, inside: bool)
    ensures HasOffence(e, groupBy, inside) <==>
              (e in groupBy && !e.Missing? ==> inside) &&
              (OffendsAlone(e, inside) || exists part :: part in Parts(e)
                                                         && HasOffence(part, groupBy, inside || e.Aggregate?))
  {
    if HasOffence(e, groupBy, inside) {
      var path :| Offends(path, groupBy, inside) && path[0] == e;
      OffenceAhead(path, groupBy, inside);
    }
    if (e in groupBy && !e.Missing? ==> inside) && OffendsAlone(e, inside) {
      assert Offends([e], groupBy, inside) && [e][0] == e;
    }
    if part :| (e in groupBy && !e.Missing? ==> inside) && part in Parts(e)
               && HasOffence(part, groupBy, inside || e.Aggregate?) {
      var path :| Offends(path, groupBy, inside || e.Aggregate?) && path[0] == part;
      OffenceBehind(e, path, groupBy, inside);
      assert ([e] + path)[0] == e;
    }
  }

  lemma OffenceAhead(path: seq<Expr>, groupBy: seq<Expr>, inside: bool)
    requires Offends(path, groupBy, inside)
    ensures var e := path[0];
            && (e in groupBy && !e.Missing? ==> inside)
            && (OffendsAlone(e, inside) || exists part :: part in Parts(e)
                                                          && HasOffence(part, groupBy, inside || e.Aggregate?))
  {
    var e, rest, within := path[0], path[1..], inside || path[0].Aggregate?;
    assert InAggregate(path, 0, inside) ==> inside;
    if rest != [] {
      assert path == [e] + rest;
      Shifted(e, rest, inside);
      hide Parts, InAggregate, HasOffence;
      assert forall i :: 0 <= i < |rest| ==> rest[i] == path[i + 1];
      forall i | 0 <= i < |rest| && rest[i] in groupBy && !rest[i].Missing? ensures InAggregate(rest, i, within) {
        assert InAggregate(path, i + 1, inside);
      }
      assert rest[0] in Parts(e) && Offends(rest, groupBy, within);
      OffenceOf(rest, groupBy, within);
    }
  }

  lemma OffenceOf(path: seq<Expr>, groupBy: seq<Expr>, inside: bool)
    requires Offends(path, groupBy, inside)
    ensures HasOffence(path[0], groupBy, inside)
  {
  }

  lemma OffenceBehind(e: Expr, path: seq<Expr>, groupBy: seq<Expr>, inside: bool)
    requires (e in groupBy && !e.Missing? ==> inside) && Offends(path, groupBy, inside || e.Aggregate?)
               && path[0] in Parts(e)
    ensures Offends([e] + path, groupBy, inside)
  {
    var all := [e] + path;
    Shifted(e, path, inside);
    assert InAggregate(all, 0, inside) <==> inside;
    hide Parts, InAggregate;
    assert forall i :: 0 < i < |all| ==> all[i] == path[i - 1];
    forall i | 0 <= i < |all| && all[i] in groupBy && !all[i].Missing? ensures InAggregate(all, i, inside) {
      if i > 0 {
        assert InAggregate(path, i - 1, inside || e.Aggregate?);
      }
    }
  }

  /** One step further, what is inside an aggregate is so by what comes first or by the rest. */
  lemma Shifted(e: Expr, path: seq<Expr>, inside: bool)
    ensures forall i :: 0 < i <= |path| + 1 ==>
              (InAggregate([e] + path, i, inside) <==> InAggregate(path, i - 1, inside || e.Aggregate?))
  {
    var all := [e] + path;
    forall i | 0 < i <= |path| + 1
      ensures InAggregate(all, i, inside) <==> InAggregate(path, i - 1, inside || e.Aggregate?)
    {
      if e.Aggregate? {
        assert all[0].Aggregate?;
      }
      if j :| 0 <= j < i - 1 && j < |path| && path[j].Aggregate? {
        assert all[j + 1].Aggregate?;
      }
      if j :| 0 <= j < i && j < |all| && all[j].Aggregate? {
        assert j > 0 ==> path[j - 1] == all[j];
      }
    }
  }
}
