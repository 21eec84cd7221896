/** What filters over Redis hashes keep, and which of them cannot be planned, told from the filter and its operands. */
module RedisFilters {
  import opened Options
  import opened RedisLike
  import opened RedisPushdown
  import opened Texts

  // ---------- Comparisons ----------

  datatype Kind = Numbers | Characters | Bytes | Truths | NoOrder

  function KindOf(v: Value): Kind {
    match v
    case Number(_, _) => Numbers
    case Text(_) => Characters
    case OtherText(_) => Characters
    case Binary(_) => Bytes
    case Boolean(_) => Truths
    case _ => NoOrder
  }

  predicate Comparable(a: Value, b: Value) {
    KindOf(a) == KindOf(b) != NoOrder
  }

  predicate Same(a: Value, b: Value)
    requires Comparable(a, b)
  {
    if a.Number? then a.number == b.number
    else if IsText(a) then a.text == b.text
    else if a.Binary? then a.raw == b.raw
    else a.flag == b.flag
  }

  predicate Below(a: Value, b: Value)
    requires Comparable(a, b)
  {
    if a.Number? then a.number < b.number
    else if IsText(a) then TextLess(a.text, b.text)
    else if a.Binary? then TextLess(a.raw, b.raw)
    else !a.flag && b.flag
  }

  /** The two values stand in the relation that the operator names. */
  predicate Stands(op: ComparisonOp, a: Value, b: Value)
    requires Comparable(a, b)
  {
    match op
    case Equal => Same(a, b)
    case NotEqual => !Same(a, b)
    case Less => Below(a, b)
    case LessOrEqual => Below(a, b) || Same(a, b)
    case Greater => Below(b, a)
    case GreaterOrEqual => Below(b, a) || Same(a, b)
    case NoComparison => false
  }

  /**
    A comparison of two values of one kind keeps a row exactly if they stand in its relation; with a null on either side it
    keeps none; and it fails exactly if an operand does, the kinds differ or the operator is none.
   */
  lemma ComparisonKeeps(row: Row, op: ComparisonOp, left: Expr, right: Expr)
    ensures var l, r := EvaluateExpression(row, left), EvaluateExpression(row, right);
            var kept := EvaluateFilter(row, Comparison(op, left, right));
            if l.Bad? || r.Bad? then kept == Bad
            else if l.value.Null? || r.value.Null? then kept == Good(false)
            else if Comparable(l.value, r.value) && !op.NoComparison? then kept == Good(Stands(op, l.value, r.value))
            else kept == Bad
  {
    var l, r := EvaluateExpression(row, left), EvaluateExpression(row, right);
    if l.Good? && r.Good? && Comparable(l.value, r.value) {
      ComparedMeans(op, l.value, r.value);
    }
    hide Compared, Stands;
    assert EvaluateExpression(row, Comparison(op, left, right)).Good? ==>
        EvaluateExpression(row, Comparison(op, left, right)).value.Boolean?;
  }

  lemma ComparedMeans(op: ComparisonOp, a: Value, b: Value)
    requires Comparable(a, b)
    ensures CompareValues(a, b).Good?
    ensures Compared(op, CompareValues(a, b).value) == if op.NoComparison? then Bad else Good(Boolean(Stands(op, a, b)))
  {
    if IsText(a) {
      TextLessTotal(a.text, b.text);
    } else if a.Binary? {
      TextLessTotal(a.raw, b.raw);
    }
  }

  // ---------- Null tests and patterns ----------

  /** IS NULL and IS NOT NULL keep a row exactly if the operand is, or is not, null. */
  lemma NullTestKeeps(row: Row, op: NullOp, operand: Expr)
    ensures var v, kept := EvaluateExpression(row, operand), EvaluateFilter(row, NullPredicate(op, operand));
            && (kept.Bad? <==> v.Bad? || op.NoNullOp?)
            && (kept.Good? ==> kept.value == (v.value.Null? == op.IsNull?))
  {
  }

  /** LIKE keeps a row exactly if the text matches, NOT LIKE if it does not; neither keeps a null. */
  lemma PatternKeeps(row: Row, op: PatternOp, subject: Expr, pattern: Expr, escape: Option<string>)
    ensures var v, p := EvaluateExpression(row, subject), EvaluateExpression(row, pattern);
            var kept := EvaluateFilter(row, Pattern(op, subject, pattern, escape));
            if v.Bad? || p.Bad? then kept == Bad
            else if v.value.Null? || p.value.Null? then kept == Good(false)
            else if v.value.Text? && p.value.Text? && Compiled(p.value.text, escape).Some? && !op.NoPatternOp? then
              kept == Good(Accepts(Compiled(p.value.text, escape).value, v.value.text, false) == op.Like?)
            else kept == Bad
  {
    hide Accepts, Compiled;
  }

  // ---------- Operands ----------

  /**
    A literal is its value and a field that of the row's column; as a filter a truth value decides, a null keeps nothing and
    anything else fails; without a filter every row is kept.
   */
  lemma OperandsKeep(row: Row, e: Expr, b: bool)
    ensures e.Literal? ==> EvaluateExpression(row, e) == if e.literal.Some? then Good(e.literal.value) else Bad
    ensures e.Field? ==>
              EvaluateExpression(row, e) ==
              if e.name != "" && Upper(e.name) in row.values then Good(row.values[Upper(e.name)]) else Bad
    ensures e.Missing? || e.OtherExpr? ==> EvaluateExpression(row, e) == Bad
    ensures EvaluateFilter(row, Missing) == Good(true)
    ensures !e.Missing? ==>
              (EvaluateFilter(row, e) == Good(b) <==>
               EvaluateExpression(row, e) == Good(Boolean(b)) || (!b && EvaluateExpression(row, e) == Good(Null)))
  {
  }

  // ---------- AND and OR ----------

  /** The first operand that is not of the given truth value fails. */
  ghost predicate FailsFirst(row: Row, operands: seq<Expr>, passed: bool) {
    exists i :: 0 <= i < |operands| && EvaluateFilter(row, operands[i]) == Bad
                && forall j :: 0 <= j < i ==> EvaluateFilter(row, operands[j]) == Good(passed)
  }

  /** AND keeps a row exactly if every operand does, and fails exactly if the first that does not keep it fails. */
  lemma AndKeeps(row: Row, operands: seq<Expr>)
    requires |operands| >= 2
    ensures var kept := EvaluateFilter(row, Logical(And, operands));
            && (kept == Good(true) <==> forall i :: 0 <= i < |operands| ==> EvaluateFilter(row, operands[i]) == Good(true))
            && (kept == Bad <==> FailsFirst(row, operands, true))
  {
    AllMeans(row, operands);
    assert EvaluateExpression(row, Logical(And, operands)) == EvaluateAll(row, operands);
  }

  /** OR keeps a row exactly if some operand does and none before it fails, and fails exactly if one before fails. */
  lemma OrKeeps(row: Row, operands: seq<Expr>)
    requires |operands| >= 2
    ensures var kept := EvaluateFilter(row, Logical(Or, operands));
            && (kept == Good(false) <==> forall i :: 0 <= i < |operands| ==>
                EvaluateFilter(row, operands[i]) == Good(false))
            && (kept == Bad <==> FailsFirst(row, operands, false))
  {
    AnyMeans(row, operands);
    assert EvaluateExpression(row, Logical(Or, operands)) == EvaluateAny(row, operands);
  }

  /** Fewer than two operands, or another operator, fail. */
  lemma OtherLogicalFails(row: Row, op: LogicalOp, operands: seq<Expr>)
    requires |operands| < 2 || op.OtherLogical?
    ensures EvaluateFilter(row, Logical(op, operands)) == Bad
  {
  }

  lemma FailsFirstFront(row: Row, operands: seq<Expr>, passed: bool)
    requires operands != []
    ensures FailsFirst(row, operands, passed) <==>
              EvaluateFilter(row, operands[0]) == Bad ||
              (EvaluateFilter(row, operands[0]) == Good(passed) && FailsFirst(row, operands[1..], passed))
  {
    var rest := operands[1..];
    hide EvaluateFilter;
    if i :| 0 <= i < |rest| && EvaluateFilter(row, rest[i]) == Bad
            && forall j :: 0 <= j < i ==> EvaluateFilter(row, rest[j]) == Good(passed) {
      if EvaluateFilter(row, operands[0]) == Good(passed) {
        assert operands[i + 1] == rest[i];
        forall j | 0 <= j < i + 1 ensures EvaluateFilter(row, operands[j]) == Good(passed) {
          assert j > 0 ==> operands[j] == rest[j - 1];
        }
      }
    }
    if i :| 0 <= i < |operands| && EvaluateFilter(row, operands[i]) == Bad
            && forall j :: 0 <= j < i ==> EvaluateFilter(row, operands[j]) == Good(passed) {
      if i > 0 {
        assert rest[i - 1] == operands[i];
        forall j | 0 <= j < i - 1 ensures EvaluateFilter(row, rest[j]) == Good(passed) {
          assert rest[j] == operands[j + 1];
        }
      }
    }
  }

  lemma {:induction false} AllMeans(row: Row, operands: seq<Expr>)
    ensures var all := EvaluateAll(row, operands);
            && (all.Good? ==> all.value.Boolean?)
            && (all == Good(Boolean(true)) <==> forall i :: 0 <= i < |operands| ==>
                EvaluateFilter(row, operands[i]) == Good(true))
            && (all == Bad <==> FailsFirst(row, operands, true))
  {
    if operands != [] {
      AllMeans(row, operands[1..]);
      FailsFirstFront(row, operands, true);
      hide EvaluateFilter, FailsFirst;
      var rest := operands[1..];
      assert forall i :: 0 < i < |operands| ==> operands[i] == rest[i - 1];
    }
  }

  lemma {:induction false} AnyMeans(row: Row, operands: seq<Expr>)
    ensures var any := EvaluateAny(row, operands);
            && (any.Good? ==> any.value.Boolean?)
            && (any == Good(Boolean(false)) <==> forall i :: 0 <= i < |operands| ==>
                EvaluateFilter(row, operands[i]) == Good(false))
            && (any == Bad <==> FailsFirst(row, operands, false))
  {
    if operands != [] {
      AnyMeans(row, operands[1..]);
      FailsFirstFront(row, operands, false);
      hide EvaluateFilter, FailsFirst;
      var rest := operands[1..];
      assert forall i :: 0 < i < |operands| ==> operands[i] == rest[i - 1];
    }
  }

  // ---------- Filters that cannot be planned ----------

  /** The key column is compared for equality with the literal. */
  predicate KeyEquals(table: Table, e: Expr, literal: Option<Value>) {
    && e.Comparison? && e.comparison.Equal?
    && ((e.left.Field? && EqualFold(e.left.name, table.keyName) && e.right == Literal(literal)) ||
        (e.right.Field? && EqualFold(e.right.name, table.keyName) && e.left == Literal(literal)))
  }

  /** The key column is matched with the literal. */
  predicate KeyLike(table: Table, e: Expr, literal: Option<Value>) {
    && e.Pattern? && e.patternOp.Like? && e.subject.Field? && EqualFold(e.subject.name, table.keyName)
    && e.pattern == Literal(literal)
  }

  predicate HasText(literal: Option<Value>) {
    literal.Some? && !literal.value.Null? && !literal.value.Unsupported?
  }

  predicate HasPattern(literal: Option<Value>, escape: Option<string>) {
    literal.Some? && literal.value.Text? && Compiled(literal.value.text, escape).Some?
  }

  /** The filter restricts the key column, through any nesting. */
  ghost predicate Restricts(table: Table, e: Expr)
    decreases e
  {
    match e
    case Logical(op, operands) =>
      (op.And? && exists i :: 0 <= i < |operands| && Restricts(table, operands[i])) ||
      (op.Or? && forall i :: 0 <= i < |operands| ==> Restricts(table, operands[i]))
    case _ => exists literal :: KeyEquals(table, e, literal) || KeyLike(table, e, literal)
  }

  /**
    The key column is compared with what cannot be a key, or a logical operator is malformed; in an OR only as far as the
    operands before restrict the key column.
   */
  ghost predicate Refused(table: Table, e: Expr)
    decreases e
  {
    match e
    case Logical(op, operands) =>
      || |operands| < 2 || op.OtherLogical?
      || (exists i :: 0 <= i < |operands| && Refused(table, operands[i])
                      && (op.Or? ==> forall j :: 0 <= j < i ==> Restricts(table, operands[j])))
    case _ =>
      exists literal ::
        (KeyEquals(table, e, literal) && !HasText(literal)) ||
        (KeyLike(table, e, literal) && !HasPattern(literal, e.escape))
  }

  lemma ComparisonRefused(table: Table, e: Expr)
    requires e.Comparison?
    ensures KeySelectors(table, e).Bad? <==> Refused(table, e)
    ensures KeySelectors(table, e).Good? ==> (KeySelectors(table, e).value.covered <==> Restricts(table, e))
  {
    var pair := FieldAndLiteral(e.left, e.right);
    assert forall literal :: KeyEquals(table, e, literal) <==>
        e.comparison.Equal? && pair.Some? && EqualFold(pair.value.0, table.keyName) && pair.value.1 == literal;
    if pair.Some? && KeyEquals(table, e, pair.value.1) {
      assert Restricts(table, e);
    }
    hide EqualFold;
  }

  lemma PatternRefused(table: Table, e: Expr)
    requires e.Pattern?
    ensures KeySelectors(table, e).Bad? <==> Refused(table, e)
    ensures KeySelectors(table, e).Good? ==> (KeySelectors(table, e).value.covered <==> Restricts(table, e))
  {
    assert forall literal :: !KeyEquals(table, e, literal);
    if e.pattern.Literal? && KeyLike(table, e, e.pattern.literal) {
      assert Restricts(table, e);
    }
    hide EqualFold, Compiled;
  }

  /** Some operand is refused; as far as the operands before restrict the key column, if `restricted` says so. */
  ghost predicate RefusedIn(table: Table, operands: seq<Expr>, restricted: bool) {
    exists i :: RefusedAt(table, operands, restricted, i)
  }

  ghost predicate RefusedAt(table: Table, operands: seq<Expr>, restricted: bool, i: int) {
    && 0 <= i < |operands| && Refused(table, operands[i])
    && (restricted ==> forall j :: 0 <= j < i ==> Restricts(table, operands[j]))
  }

  lemma LogicalRefused(table: Table, op: LogicalOp, operands: seq<Expr>)
    ensures Refused(table, Logical(op, operands)) <==> |operands| < 2 || op.OtherLogical?
                                                       || RefusedIn(table, operands, op.Or?)
  {
    hide Restricts;
    if i :| RefusedAt(table, operands, op.Or?, i) {
      assert Refused(table, operands[i]);
    }
    if i :| 0 <= i < |operands| && Refused(table, operands[i])
            && (op.Or? ==> forall j :: 0 <= j < i ==> Restricts(table, operands[j])) {
      assert RefusedAt(table, operands, op.Or?, i);
    }
  }

  lemma RefusedInFront(table: Table, operands: seq<Expr>, restricted: bool)
    requires operands != []
    ensures RefusedIn(table, operands, restricted) <==>
              Refused(table, operands[0]) ||
              ((restricted ==> Restricts(table, operands[0])) && RefusedIn(table, operands[1..], restricted))
  {
    var rest := operands[1..];
    hide Refused, Restricts;
    assert forall i :: 0 <= i < |rest| ==> rest[i] == operands[i + 1];
    if i :| RefusedAt(table, rest, restricted, i) {
      if restricted ==> Restricts(table, operands[0]) {
        assert restricted ==> forall j :: 0 < j < i + 1 ==> operands[j] == rest[j - 1];
        assert RefusedAt(table, operands, restricted, i + 1);
      }
    }
    if i :| RefusedAt(table, operands, restricted, i) {
      if i > 0 {
        assert RefusedAt(table, rest, restricted, i - 1);
      }
    }
    if Refused(table, operands[0]) {
      assert RefusedAt(table, operands, restricted, 0);
    }
  }

  lemma {:induction false} OperandsRefused(table: Table, operands: seq<Expr>)
    ensures AllSelectors(table, operands).Bad? <==> RefusedIn(table, operands, false)
    ensures AllSelectors(table, operands).Good? ==>
              (AllSelectors(table, operands).value.covered <==>
               exists i :: 0 <= i < |operands| && Restricts(table, operands[i]))
    ensures AnySelectors(table, operands).Bad? <==> RefusedIn(table, operands, true)
    ensures AnySelectors(table, operands).Good? ==>
              (AnySelectors(table, operands).value.covered <==>
               forall i :: 0 <= i < |operands| ==> Restricts(table, operands[i]))
    decreases operands, 0
  {
    if operands != [] {
      var rest := operands[1..];
      RefusedExactlyWhen(table, operands[0]);
      OperandsRefused(table, rest);
      RefusedInFront(table, operands, false);
      RefusedInFront(table, operands, true);
      hide Refused, Restricts, RefusedIn, KeySelectors;
      assert forall i :: 0 < i < |operands| ==> operands[i] == rest[i - 1];
      assert forall i :: 0 <= i < |rest| ==> rest[i] == operands[i + 1];
    }
  }

  /** The text that a key holds if its column is equal to the literal. */
  function KeyText(v: Value): string
    requires HasText(Some(v))
  {
    if v.Boolean? then (if v.flag then "true" else "false") else if IsText(v) then v.text else v.raw
  }

  /**
    A restriction of the key column alone selects just the key, or the
    keys that the pattern's glob behind the prefix does.
   */
  lemma LeafPlans(table: Table, e: Expr, literal: Value)
    ensures KeyEquals(table, e, Some(literal)) && HasText(Some(literal)) ==>
              KeySelectors(table, e) == Good(Plan([Exact(table.prefix + KeyText(literal))], true))
    ensures KeyLike(table, e, Some(literal)) && HasPattern(Some(literal), e.escape) ==>
              KeySelectors(table, e) ==
              Good(Plan([Glob(table.prefix + GlobOf(Compiled(literal.text, e.escape).value))], true))
  {
    hide EqualFold, Compiled, GlobOf;
  }

  /** AND selects what any of its operands selects, and so does OR where it is covered. */
  lemma {:induction false} JunctionPlans(table: Table, operands: seq<Expr>, key: string)
    ensures AllSelectors(table, operands).Good? ==>
              (Selected(AllSelectors(table, operands).value.selectors, key) <==> SelectedByOne(table, operands, key))
    ensures AnySelectors(table, operands).Good? && AnySelectors(table, operands).value.covered ==>
              (Selected(AnySelectors(table, operands).value.selectors, key) <==> SelectedByOne(table, operands, key))
  {
    if operands != [] {
      var rest := operands[1..];
      JunctionPlans(table, rest, key);
      SelectedByOneFront(table, operands, key);
      if KeySelectors(table, operands[0]).Good? {
        var first := KeySelectors(table, operands[0]).value.selectors;
        if AllSelectors(table, rest).Good? { SelectedByPart(first, AllSelectors(table, rest).value.selectors, key); }
        if AnySelectors(table, rest).Good? { SelectedByPart(first, AnySelectors(table, rest).value.selectors, key); }
      }
      hide KeySelectors, Selected, SelectedByOne;
    }
  }

  ghost predicate SelectedByOne(table: Table, operands: seq<Expr>, key: string) {
    exists i :: 0 <= i < |operands| && KeySelectors(table, operands[i]).Good?
                && Selected(KeySelectors(table, operands[i]).value.selectors, key)
  }

  lemma SelectedByOneFront(table: Table, operands: seq<Expr>, key: string)
    requires operands != []
    ensures SelectedByOne(table, operands, key) <==>
              (KeySelectors(table, operands[0]).Good? && Selected(KeySelectors(table, operands[0]).value.selectors, key))
              || SelectedByOne(table, operands[1..], key)
  {
    var rest := operands[1..];
    hide KeySelectors, Selected;
    assert forall i :: 0 <= i < |rest| ==> rest[i] == operands[i + 1];
    assert forall i :: 0 < i < |operands| ==> operands[i] == rest[i - 1];
  }

  /** Fields are found by their names without regard to case. */
  lemma FieldsIgnoreCase(row: Row, one: string, other: string)
    requires EqualFold(one, other)
    ensures EvaluateExpression(row, Field(one)) == EvaluateExpression(row, Field(other))
    ensures one != "" && Upper(one) in row.values ==> EvaluateExpression(row, Field(one)) == Good(row.values[Upper(one)])
  {
    EqualFoldExactlyWhen(one, other);
  }

  /**
    A filter cannot be planned exactly if it is refused; a plan covers exactly the filters that restrict the key column.
   */
  lemma {:induction false} RefusedExactlyWhen(table: Table, e: Expr)
    ensures KeySelectors(table, e).Bad? <==> Refused(table, e)
    ensures KeySelectors(table, e).Good? ==> (KeySelectors(table, e).value.covered <==> Restricts(table, e))
    decreases e, 0
  {
    match e
    case Comparison(_, _, _) => ComparisonRefused(table, e);
    case Pattern(_, _, _, _) => PatternRefused(table, e);
    case Logical(op, operands) =>
      OperandsRefused(table, operands);
      LogicalRefused(table, op, operands);
      hide Refused, RefusedIn;
    case _ =>
  }
}
