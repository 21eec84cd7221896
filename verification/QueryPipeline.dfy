/**
  A plain query of the in-memory engine: filter, sort, slice and project, then deliver in batches. Rows come
  from a map, so in any order; the result does not depend on it.
 */
module QueryPipeline {
  import opened Options
  import opened Texts
  import opened GroupedExpressions
  import opened ExpressionMeaning

  datatype NullOrdering = Unspecified | First | Last

  datatype OrderBy = OrderBy(expression: Expr, descending: bool, nulls: NullOrdering)

  datatype PlannedRow = PlannedRow(row: Row, orderValues: seq<Value>)

  // ---------- Comparing ----------

  /** Nulls come last unless they are to come first, whatever the direction. */
  function CompareOrdered(left: Value, right: Value, o: OrderBy): Outcome<int> {
    if left.NullValue? && right.NullValue? then Good(0)
    else if left.NullValue? then Good(if o.nulls.First? then -1 else 1)
    else if right.NullValue? then Good(if o.nulls.First? then 1 else -1)
    else
      var order := CompareValues(left, right);
      if order.Fails? then order else Good(if o.descending then -order.value else order.value)
  }

  /** The order values decide from left to right; rows they do not tell apart go by key. */
  function Before(p: PlannedRow, q: PlannedRow, orderBy: seq<OrderBy>, i: nat): Outcome<bool>
    requires i <= |orderBy| == |p.orderValues| == |q.orderValues|
    decreases |orderBy| - i
  {
    if i == |orderBy| then Good(TextLess(p.row.key, q.row.key))
    else
      var order := CompareOrdered(p.orderValues[i], q.orderValues[i], orderBy[i]);
      if order.Fails? then Fails(order.reason)
      else if order.value != 0 then Good(order.value < 0)
      else Before(p, q, orderBy, i + 1)
  }

  // ---------- What the comparator decides ----------

  /** A column leaves the two apart: one of them is null, or they compare. */
  predicate ColumnOrders(a: Value, b: Value) {
    a.NullValue? || b.NullValue? || Comparable(a, b)
  }

  /** A column does not tell the two apart. */
  predicate ColumnTies(a: Value, b: Value) {
    if a.NullValue? || b.NullValue? then a == b else Comparable(a, b) && Same(a, b)
  }

  /** A column puts the first in front: nulls at the end asked for, other values in the direction asked for. */
  predicate ColumnPuts(a: Value, b: Value, o: OrderBy) {
    if a.NullValue? || b.NullValue? then a != b && (a.NullValue? == o.nulls.First?)
    else Comparable(a, b) && if o.descending then Below(b, a) else Below(a, b)
  }

  ghost predicate TiesUpTo(p: PlannedRow, q: PlannedRow, orderBy: seq<OrderBy>, i: nat, k: int)
    requires i <= k <= |orderBy| == |p.orderValues| == |q.orderValues|
  {
    forall j :: i <= j < k ==> ColumnTies(p.orderValues[j], q.orderValues[j])
  }

  /**
    The first column from the i-th on that tells the rows apart puts `p`
    in front, or `p` has the lesser key if none does.
   */
  ghost predicate Precedes(p: PlannedRow, q: PlannedRow, orderBy: seq<OrderBy>, i: nat)
    requires i <= |orderBy| == |p.orderValues| == |q.orderValues|
  {
    exists k :: i <= k <= |orderBy| && TiesUpTo(p, q, orderBy, i, k) &&
                if k == |orderBy| then TextLess(p.row.key, q.row.key)
                else ColumnPuts(p.orderValues[k], q.orderValues[k], orderBy[k])
  }

  /** The first column from the i-th on that does not tie has values that do not compare. */
  ghost predicate Incomparable(p: PlannedRow, q: PlannedRow, orderBy: seq<OrderBy>, i: nat)
    requires i <= |orderBy| == |p.orderValues| == |q.orderValues|
  {
    exists k :: i <= k < |orderBy| && TiesUpTo(p, q, orderBy, i, k) && !ColumnOrders(p.orderValues[k], q.orderValues[k])
  }

  lemma ColumnMeans(a: Value, b: Value, o: OrderBy)
    ensures CompareOrdered(a, b, o).Good? <==> ColumnOrders(a, b)
    ensures ColumnOrders(a, b) ==>
              && (CompareOrdered(a, b, o).value == 0 <==> ColumnTies(a, b))
              && (CompareOrdered(a, b, o).value < 0 <==> ColumnPuts(a, b, o))
  {
    ComparedMeans(a, b);
    hide CompareValues;
  }

  /**
    The comparator puts a row in front exactly if the first column that
    tells the rows apart does, and fails exactly there.
   */
  lemma {:induction false} BeforeExactlyWhen(p: PlannedRow, q: PlannedRow, orderBy: seq<OrderBy>, i: nat)
    requires i <= |orderBy| == |p.orderValues| == |q.orderValues|
    ensures Before(p, q, orderBy, i) == Good(true) <==> Precedes(p, q, orderBy, i)
    ensures Before(p, q, orderBy, i).Fails? <==> Incomparable(p, q, orderBy, i)
    decreases |orderBy| - i
  {
    if i == |orderBy| {
      assert TiesUpTo(p, q, orderBy, i, i);
    } else {
      BeforeExactlyWhen(p, q, orderBy, i + 1);
      ColumnMeans(p.orderValues[i], q.orderValues[i], orderBy[i]);
      FirstColumnOrRest(p, q, orderBy, i);
      hide CompareOrdered, ColumnPuts, ColumnTies, ColumnOrders, Precedes, Incomparable;
    }
  }

  lemma FirstColumnOrRest(p: PlannedRow, q: PlannedRow, orderBy: seq<OrderBy>, i: nat)
    requires i < |orderBy| == |p.orderValues| == |q.orderValues|
    ensures var a, b := p.orderValues[i], q.orderValues[i];
            && (Precedes(p, q, orderBy, i) <==> ColumnPuts(a, b, orderBy[i])
                                                || (ColumnTies(a, b) && Precedes(p, q, orderBy, i + 1)))
            && (Incomparable(p, q, orderBy, i) <==> !ColumnOrders(a, b)
                                                    || (ColumnTies(a, b) && Incomparable(p, q, orderBy, i + 1)))
  {
    hide ColumnPuts, ColumnTies, ColumnOrders;
    assert TiesUpTo(p, q, orderBy, i, i);
    forall k | i < k <= |orderBy|
      ensures TiesUpTo(p, q, orderBy, i, k) <==>
                ColumnTies(p.orderValues[i], q.orderValues[i]) && TiesUpTo(p, q, orderBy, i + 1, k)
    {
    }
    hide TiesUpTo;
  }

  /** Values with an order among themselves: numbers, texts or truth values. */
  datatype Family = Numbers | Texts | Truths | NoOrder

  function FamilyOf(v: Value): Family {
    match v
    case NumberValue(_, _, _) => Numbers
    case StringValue(_) => Texts
    case BooleanValue(_) => Truths
    case _ => NoOrder
  }

  predicate InFamily(v: Value, f: Family) {
    v.NullValue? || (FamilyOf(v) == f && f != NoOrder)
  }

  /** Every row has its order values, and each column of them is null or of one family. */
  ghost predicate Ordered(rows: seq<PlannedRow>, orderBy: seq<OrderBy>, families: seq<Family>) {
    && |families| == |orderBy|
    && forall p :: p in rows ==> Fits(p, orderBy, families)
  }

  predicate Fits(p: PlannedRow, orderBy: seq<OrderBy>, families: seq<Family>)
    requires |families| == |orderBy|
  {
    && |p.orderValues| == |orderBy|
    && forall i :: 0 <= i < |orderBy| ==> InFamily(p.orderValues[i], families[i])
  }

  lemma {:induction false} TextLessFacts(a: string, b: string, c: string)
    ensures TextLess(a, b) || a == b || TextLess(b, a)
    ensures !(TextLess(a, b) && TextLess(b, a)) && !TextLess(a, a)
    ensures TextLess(a, b) && TextLess(b, c) ==> TextLess(a, c)
  {
    TextLessTotal(a, b);
    if TextLess(a, b) && TextLess(b, c) {
      TextLessTransitive(a, b, c);
    }
  }

  /** On one column: comparable, antisymmetric, and transitive also where values count as equal. */
  lemma ColumnOrder(a: Value, b: Value, c: Value, o: OrderBy, f: Family)
    requires InFamily(a, f) && InFamily(b, f) && InFamily(c, f)
    ensures CompareOrdered(a, b, o).Good? && CompareOrdered(b, c, o).Good? && CompareOrdered(a, c, o).Good?
    ensures CompareOrdered(b, a, o) == Good(-CompareOrdered(a, b, o).value)
    ensures var x, y, z := CompareOrdered(a, b, o).value, CompareOrdered(b, c, o).value, CompareOrdered(a, c, o).value;
            && (x == 0 ==> z == y) && (y == 0 ==> z == x)
            && (x < 0 && y < 0 ==> z < 0)
  {
    if a.StringValue? && b.StringValue? {
      TextLessFacts(a.text, b.text, if c.StringValue? then c.text else a.text);
      if c.StringValue? {
        TextLessFacts(b.text, c.text, a.text);
        TextLessFacts(c.text, a.text, b.text);
        TextLessFacts(c.text, b.text, a.text);
        TextLessFacts(a.text, c.text, b.text);
      }
    }
    if b.StringValue? && c.StringValue? { TextLessFacts(b.text, c.text, b.text); }
    if a.StringValue? && c.StringValue? { TextLessFacts(a.text, c.text, a.text); }
  }

  /** On fitting rows with different keys the comparator never fails, orders every pair one way, and is transitive. */
  lemma {:induction false} BeforeIsStrictOrder(p: PlannedRow, q: PlannedRow, r: PlannedRow,
                                               orderBy: seq<OrderBy>, families: seq<Family>, i: nat)
    requires |families| == |orderBy| && i <= |orderBy|
    requires Fits(p, orderBy, families) && Fits(q, orderBy, families) && Fits(r, orderBy, families)
    ensures Before(p, q, orderBy, i).Good? && Before(q, r, orderBy, i).Good? && Before(p, r, orderBy, i).Good?
    ensures Before(q, p, orderBy, i).Good?
    ensures !(Before(p, q, orderBy, i).value && Before(q, p, orderBy, i).value)
    ensures p.row.key != q.row.key ==> Before(p, q, orderBy, i).value || Before(q, p, orderBy, i).value
    ensures Before(p, q, orderBy, i).value && Before(q, r, orderBy, i).value ==> Before(p, r, orderBy, i).value
    decreases |orderBy| - i
  {
    if i == |orderBy| {
      TextLessFacts(p.row.key, q.row.key, r.row.key);
    } else {
      ColumnOrder(p.orderValues[i], q.orderValues[i], r.orderValues[i], orderBy[i], families[i]);
      BeforeIsStrictOrder(p, q, r, orderBy, families, i + 1);
    }
  }

  // ---------- Comparing what may not compare ----------

  /** A column orders two values the same way from both sides, or fails from both. */
  lemma ColumnTurns(a: Value, b: Value, o: OrderBy)
    ensures CompareOrdered(a, b, o).Good? <==> CompareOrdered(b, a, o).Good?
    ensures CompareOrdered(a, b, o).Good? ==> CompareOrdered(b, a, o) == Good(-CompareOrdered(a, b, o).value)
  {
    if a.StringValue? && b.StringValue? {
      TextLessTotal(a.text, b.text);
    }
  }

  /** On one column, where neither of two steps goes down, they make one that does not, down to failing. */
  lemma ColumnSteps(a: Value, b: Value, c: Value, o: OrderBy)
    requires CompareOrdered(a, b, o).Good? && CompareOrdered(b, c, o).Good?
    requires CompareOrdered(a, b, o).value <= 0 && CompareOrdered(b, c, o).value <= 0
    ensures CompareOrdered(a, c, o).Good? && CompareOrdered(a, c, o).value <= 0
    ensures CompareOrdered(a, c, o).value == 0 <==> CompareOrdered(a, b, o).value == 0 && CompareOrdered(b, c, o).value == 0
  {
    if a.StringValue? && b.StringValue? && c.StringValue? {
      TextLessFacts(a.text, b.text, c.text);
      TextLessFacts(c.text, b.text, a.text);
      TextLessFacts(b.text, c.text, a.text);
      TextLessTotal(a.text, c.text);
    }
  }

  /** The comparator fails from both sides, or orders two different keys one way. */
  lemma {:induction false} BeforeTurns(p: PlannedRow, q: PlannedRow, orderBy: seq<OrderBy>, i: nat)
    requires i <= |orderBy| == |p.orderValues| == |q.orderValues|
    ensures Before(p, q, orderBy, i).Good? <==> Before(q, p, orderBy, i).Good?
    ensures Before(p, q, orderBy, i) == Good(true) ==> Before(q, p, orderBy, i) == Good(false)
    ensures Before(p, q, orderBy, i) == Good(false) && p.row.key != q.row.key ==> Before(q, p, orderBy, i) == Good(true)
    decreases |orderBy| - i
  {
    if i == |orderBy| {
      TextLessTotal(p.row.key, q.row.key);
    } else {
      ColumnTurns(p.orderValues[i], q.orderValues[i], orderBy[i]);
      BeforeTurns(p, q, orderBy, i + 1);
    }
  }

  /** Rows of whatever values: two steps of the comparator that succeed make one that succeeds. */
  lemma {:induction false} BeforeIsTransitive(p: PlannedRow, q: PlannedRow, r: PlannedRow, orderBy: seq<OrderBy>, i: nat)
    requires i <= |orderBy| == |p.orderValues| == |q.orderValues| == |r.orderValues|
    requires Before(p, q, orderBy, i) == Good(true) && Before(q, r, orderBy, i) == Good(true)
    ensures Before(p, r, orderBy, i) == Good(true)
    decreases |orderBy| - i
  {
    if i == |orderBy| {
      TextLessTransitive(p.row.key, q.row.key, r.row.key);
    } else {
      ColumnSteps(p.orderValues[i], q.orderValues[i], r.orderValues[i], orderBy[i]);
      if CompareOrdered(p.orderValues[i], q.orderValues[i], orderBy[i]).value == 0 &&
         CompareOrdered(q.orderValues[i], r.orderValues[i], orderBy[i]).value == 0 {
        BeforeIsTransitive(p, q, r, orderBy, i + 1);
      }
    }
  }

  // ---------- Sorting ----------

  predicate Sized(p: PlannedRow, orderBy: seq<OrderBy>) {
    |p.orderValues| == |orderBy|
  }

  predicate AllSized(rows: seq<PlannedRow>, orderBy: seq<OrderBy>) {
    forall p :: p in rows ==> Sized(p, orderBy)
  }

  predicate Less(p: PlannedRow, q: PlannedRow, orderBy: seq<OrderBy>) {
    Sized(p, orderBy) && Sized(q, orderBy) && Before(p, q, orderBy, 0) == Good(true)
  }

  ghost predicate Sorted(rows: seq<PlannedRow>, orderBy: seq<OrderBy>) {
    forall i, j :: 0 <= i < j < |rows| ==> Less(rows[i], rows[j], orderBy)
  }

  ghost predicate DistinctKeys(rows: seq<PlannedRow>) {
    forall i, j :: 0 <= i < j < |rows| ==> rows[i].row.key != rows[j].row.key
  }

  /** The comparator does not fail on the two. */
  predicate Compare(p: PlannedRow, q: PlannedRow, orderBy: seq<OrderBy>) {
    Sized(p, orderBy) && Sized(q, orderBy) && Before(p, q, orderBy, 0).Good?
  }

  /** No two different rows fail to compare. */
  ghost predicate AllCompare(rows: seq<PlannedRow>, orderBy: seq<OrderBy>) {
    forall p, q :: p in rows && q in rows && p.row.key != q.row.key ==> Compare(p, q, orderBy)
  }

  /** Rows whose order values are, column by column, null or of one family all compare. */
  lemma OrderedCompare(rows: seq<PlannedRow>, orderBy: seq<OrderBy>, families: seq<Family>)
    requires Ordered(rows, orderBy, families)
    ensures AllSized(rows, orderBy) && AllCompare(rows, orderBy)
  {
    forall p, q | p in rows && q in rows ensures Compare(p, q, orderBy) {
      assert Fits(p, orderBy, families) && Fits(q, orderBy, families);
      BeforeIsStrictOrder(p, q, q, orderBy, families, 0);
    }
  }

  /** Puts a row where it belongs, comparing it with one row after another. */
  function Insert(sorted: seq<PlannedRow>, p: PlannedRow, orderBy: seq<OrderBy>): Outcome<seq<PlannedRow>>
    requires AllSized(sorted, orderBy) && Sized(p, orderBy)
  {
    if sorted == [] then Good([p])
    else
      assert sorted[0] in sorted;
      var before := Before(p, sorted[0], orderBy, 0);
      if before.Fails? then Fails(before.reason)
      else if before.value then Good([p] + sorted)
      else
        var rest := Insert(sorted[1..], p, orderBy);
        if rest.Fails? then rest else Good([sorted[0]] + rest.value)
  }

  lemma {:induction false} InsertKeepsAll(sorted: seq<PlannedRow>, p: PlannedRow, orderBy: seq<OrderBy>)
    requires AllSized(sorted, orderBy) && Sized(p, orderBy)
    ensures var r := Insert(sorted, p, orderBy);
            if r.Good? then multiset(r.value) == multiset(sorted) + multiset{p}
            else exists q :: q in sorted && !Compare(p, q, orderBy)
  {
    if sorted != [] {
      assert sorted[0] in sorted;
      if Before(p, sorted[0], orderBy, 0).Good? {
        assert sorted == [sorted[0]] + sorted[1..];
        InsertKeepsAll(sorted[1..], p, orderBy);
        hide Compare, Before, Sized;
      } else {
        assert !Compare(p, sorted[0], orderBy);
      }
    }
  }

  lemma {:induction false} InsertKeepsSorted(sorted: seq<PlannedRow>, p: PlannedRow, orderBy: seq<OrderBy>)
    requires Sorted(sorted, orderBy) && AllSized(sorted, orderBy) && Sized(p, orderBy)
    requires forall q :: q in sorted ==> q.row.key != p.row.key
    requires Insert(sorted, p, orderBy).Good?
    ensures Sorted(Insert(sorted, p, orderBy).value, orderBy)
  {
    if sorted != [] {
      assert sorted[0] in sorted;
      BeforeTurns(p, sorted[0], orderBy, 0);
      if Before(p, sorted[0], orderBy, 0).value {
        forall q | q in sorted ensures Less(p, q, orderBy) {
          if q != sorted[0] { BeforeIsTransitive(p, sorted[0], q, orderBy, 0); }
        }
      } else {
        var rest := sorted[1..];
        InsertKeepsSorted(rest, p, orderBy);
        InsertKeepsAll(rest, p, orderBy);
        var more := Insert(rest, p, orderBy).value;
        forall q | q in more ensures Less(sorted[0], q, orderBy) {
          assert q in multiset(more);
        }
      }
    }
  }

  /** What sorting returns: the same rows, in strict order. */
  ghost predicate IsSorting(rows: seq<PlannedRow>, orderBy: seq<OrderBy>, sorted: seq<PlannedRow>) {
    Sorted(sorted, orderBy) && multiset(sorted) == multiset(rows)
  }

  /** Rows that have been sorted all compare: a comparison that fails cannot go unnoticed. */
  lemma SortedCompare(rows: seq<PlannedRow>, orderBy: seq<OrderBy>, sorted: seq<PlannedRow>)
    requires IsSorting(rows, orderBy, sorted) && AllSized(rows, orderBy)
    ensures AllCompare(rows, orderBy)
  {
    forall p, q | p in rows && q in rows && p.row.key != q.row.key ensures Compare(p, q, orderBy) {
      assert p in multiset(sorted) && q in multiset(sorted);
      var i :| 0 <= i < |sorted| && sorted[i] == p;
      var j :| 0 <= j < |sorted| && sorted[j] == q;
      assert Less(sorted[if i < j then i else j], sorted[if i < j then j else i], orderBy);
      BeforeTurns(p, q, orderBy, 0);
    }
  }

  /** Sorts the rows, or fails exactly if two of them do not compare. */
  method SortPlannedRows(rows: seq<PlannedRow>, orderBy: seq<OrderBy>) returns (r: Outcome<seq<PlannedRow>>)
    requires AllSized(rows, orderBy) && DistinctKeys(rows)
    ensures r.Good? <==> AllCompare(rows, orderBy)
    ensures r.Good? ==> IsSorting(rows, orderBy, r.value)
  {
    var sorted: seq<PlannedRow> := [];
    for i := 0 to |rows|
      invariant Sorted(sorted, orderBy) && multiset(sorted) == multiset(rows[..i])
    {
      assert rows[..i + 1] == rows[..i] + [rows[i]];
      forall q | q in sorted ensures q in rows && q.row.key != rows[i].row.key {
        assert q in multiset(rows[..i]);
      }
      var next := Insert(sorted, rows[i], orderBy);
      InsertKeepsAll(sorted, rows[i], orderBy);
      if next.Fails? {
        assert rows[i] in rows && !AllCompare(rows, orderBy);
        return next;
      }
      InsertKeepsSorted(sorted, rows[i], orderBy);
      sorted := next.value;
    }
    assert rows[..|rows|] == rows;
    SortedCompare(rows, orderBy, sorted);
    return Good(sorted);
  }

  /** There is only one way to sort: any two sorted arrangements of the same rows are equal. */
  lemma {:induction false} SortingIsUnique(a: seq<PlannedRow>, b: seq<PlannedRow>, orderBy: seq<OrderBy>)
    requires Sorted(a, orderBy) && Sorted(b, orderBy) && multiset(a) == multiset(b)
    ensures a == b
  {
    if a == [] {
      assert |multiset(a)| == |multiset(b)|;
    } else {
      SameFirst(a, b, orderBy);
      SortedRest(a, orderBy);
      SortedRest(b, orderBy);
      hide Sorted;
      SortingIsUnique(a[1..], b[1..], orderBy);
      assert a == [a[0]] + a[1..] && b == [b[0]] + b[1..];
    }
  }

  lemma SortedRest(a: seq<PlannedRow>, orderBy: seq<OrderBy>)
    requires Sorted(a, orderBy) && a != []
    ensures Sorted(a[1..], orderBy) && multiset(a[1..]) == multiset(a) - multiset{a[0]}
  {
    assert a == [a[0]] + a[1..];
    hide Less;
  }

  lemma SameFirst(a: seq<PlannedRow>, b: seq<PlannedRow>, orderBy: seq<OrderBy>)
    requires Sorted(a, orderBy) && Sorted(b, orderBy) && multiset(a) == multiset(b) && a != []
    ensures b != [] && a[0] == b[0]
  {
    assert |multiset(a)| == |multiset(b)|;
    assert a[0] in multiset(b) && b[0] in multiset(a);
    if a[0] != b[0] {
      var i :| 0 <= i < |b| && b[i] == a[0];
      var j :| 0 <= j < |a| && a[j] == b[0];
      assert Less(b[0], b[i], orderBy) && Less(a[0], a[j], orderBy);
      BeforeTurns(a[0], b[0], orderBy, 0);
    }
  }

  /** In a sorting the first ORDER BY column runs in its direction, with nulls at the end it asks for. */
  lemma FirstColumnRuns(sorted: seq<PlannedRow>, orderBy: seq<OrderBy>, i: nat, j: nat)
    requires Sorted(sorted, orderBy) && orderBy != [] && i < j < |sorted|
    ensures Sized(sorted[i], orderBy) && Sized(sorted[j], orderBy)
    ensures var a, b, o := sorted[i].orderValues[0], sorted[j].orderValues[0], orderBy[0];
            && (o.nulls.First? && b.NullValue? ==> a.NullValue?)
            && (!o.nulls.First? && a.NullValue? ==> b.NullValue?)
            && (!a.NullValue? && !b.NullValue? ==> FamilyOf(a) == FamilyOf(b) != NoOrder)
            && (a.NumberValue? && b.NumberValue? ==> if o.descending then a.number >= b.number else a.number <= b.number)
            && (a.StringValue? && b.StringValue? && a.text != b.text ==>
                 if o.descending then TextLess(b.text, a.text) else TextLess(a.text, b.text))
            && (a.BooleanValue? && b.BooleanValue? && a.flag != b.flag ==> b.flag == !o.descending)
  {
    assert Less(sorted[i], sorted[j], orderBy);
    var a, b := sorted[i].orderValues[0], sorted[j].orderValues[0];
    if a.StringValue? && b.StringValue? {
      TextLessTotal(a.text, b.text);
    }
  }

  // ---------- The pipeline ----------

  function Keeps(row: Row, filter: Expr): Outcome<bool> {
    if filter.Missing? then Good(true) else EvaluateBoolean(RowContext(row), filter)
  }

  function OrderValues(row: Row, orderBy: seq<OrderBy>): Outcome<seq<Value>> {
    if orderBy == [] then Good([])
    else
      var before := OrderValues(row, orderBy[..|orderBy| - 1]);
      if before.Fails? then before
      else
        var v := Evaluate(RowContext(row), orderBy[|orderBy| - 1].expression);
        if v.Fails? then Fails(v.reason) else Good(before.value + [v.value])
  }

  /** The rows that pass the filter, with their order values, or the first failure. */
  function Planned(rows: seq<Row>, filter: Expr, orderBy: seq<OrderBy>): Outcome<seq<PlannedRow>> {
    if rows == [] then Good([])
    else
      var before := Planned(rows[..|rows| - 1], filter, orderBy);
      if before.Fails? then before else PlannedOneMore(before.value, rows[|rows| - 1], filter, orderBy)
  }

  function PlannedOneMore(planned: seq<PlannedRow>, row: Row, filter: Expr,
                          orderBy: seq<OrderBy>): Outcome<seq<PlannedRow>> {
    var keeps := Keeps(row, filter);
    if keeps.Fails? then Fails(keeps.reason)
    else if !keeps.value then Good(planned)
    else
      var values := OrderValues(row, orderBy);
      if values.Fails? then Fails(values.reason) else Good(planned + [PlannedRow(row, values.value)])
  }

  /** The page a query asks for; `limit` None asks for all that remain. */
  function Page<T>(rows: seq<T>, offset: nat, limit: Option<nat>): seq<T> {
    if offset >= |rows| then []
    else if limit.Some? && limit.value < |rows| - offset then rows[offset..offset + limit.value]
    else rows[offset..]
  }

  function RowsOf(planned: seq<PlannedRow>): seq<Row> {
    if planned == [] then [] else RowsOf(planned[..|planned| - 1]) + [planned[|planned| - 1].row]
  }

  /** The page of sorted rows: from the offset on, as many as the limit allows and the rows are. */
  ghost predicate IsPage(answer: seq<Row>, sorted: seq<PlannedRow>, offset: nat, limit: Option<nat>) {
    var left := if offset < |sorted| then |sorted| - offset else 0;
    && |answer| == (if limit.Some? && limit.value < left then limit.value else left)
    && forall k :: 0 <= k < |answer| ==> answer[k] == sorted[offset + k].row
  }

  lemma {:induction false} RowsOfAt(planned: seq<PlannedRow>)
    ensures |RowsOf(planned)| == |planned| && forall k :: 0 <= k < |planned| ==> RowsOf(planned)[k] == planned[k].row
  {
    if planned != [] {
      RowsOfAt(planned[..|planned| - 1]);
    }
  }

  lemma PageIsPage(sorted: seq<PlannedRow>, offset: nat, limit: Option<nat>)
    ensures IsPage(Page(RowsOf(sorted), offset, limit), sorted, offset, limit)
  {
    RowsOfAt(sorted);
    hide RowsOf;
  }

  /**
    The rows of an answer, before projection: the page of the sorted rows
    that pass the filter, each as often as it is listed.
   */
  ghost predicate Answers(rows: seq<Row>, filter: Expr, orderBy: seq<OrderBy>, offset: nat, limit: Option<nat>,
                          answer: seq<Row>) {
    exists sorted :: AnswersBy(rows, filter, orderBy, offset, limit, answer, sorted)
  }

  ghost predicate AnswersBy(rows: seq<Row>, filter: Expr, orderBy: seq<OrderBy>, offset: nat, limit: Option<nat>,
                            answer: seq<Row>, sorted: seq<PlannedRow>)
  {
    && AllPlannable(rows, filter, orderBy)
    && Sorted(sorted, orderBy) && PlansAll(sorted, rows, filter, orderBy)
    && IsPage(answer, sorted, offset, limit)
  }

  /** What one row contributes: nothing, or itself with its order values. */
  predicate Contributes(p: PlannedRow, filter: Expr, orderBy: seq<OrderBy>) {
    Keeps(p.row, filter) == Good(true) && OrderValues(p.row, orderBy) == Good(p.orderValues)
  }

  /**
    A row contributes exactly if the filter, if there is one, is true on it, with the value of each ORDER BY expression; a
    filter that is neither a truth value nor null fails.
   */
  lemma {:induction false} ContributesExactlyWhen(p: PlannedRow, filter: Expr, orderBy: seq<OrderBy>)
    ensures OrderValues(p.row, orderBy) == Good(p.orderValues) <==>
              |p.orderValues| == |orderBy| &&
              forall i :: 0 <= i < |orderBy| ==>
                  Evaluate(RowContext(p.row), orderBy[i].expression) == Good(p.orderValues[i])
    ensures Keeps(p.row, filter) == Good(true) <==> filter.Missing?
                                                    || Evaluate(RowContext(p.row), filter) == Good(BooleanValue(true))
    ensures Keeps(p.row, filter).Fails? <==>
              !filter.Missing? && Evaluate(RowContext(p.row), filter) !in
                {Good(NullValue), Good(BooleanValue(false)), Good(BooleanValue(true))}
    decreases |orderBy|
  {
    if orderBy != [] && p.orderValues != [] {
      var n, m := |orderBy| - 1, |p.orderValues| - 1;
      ContributesExactlyWhen(p.(orderValues := p.orderValues[..m]), filter, orderBy[..n]);
      assert p.orderValues == p.orderValues[..m] + [p.orderValues[m]];
      hide Evaluate;
      if OrderValues(p.row, orderBy) == Good(p.orderValues) {
        assert OrderValues(p.row, orderBy[..n]).value == p.orderValues[..m];
      }
    }
  }

  predicate Plannable(row: Row, filter: Expr, orderBy: seq<OrderBy>) {
    Keeps(row, filter).Good? && (Keeps(row, filter).value ==> OrderValues(row, orderBy).Good?)
  }

  ghost predicate AllPlannable(rows: seq<Row>, filter: Expr, orderBy: seq<OrderBy>) {
    forall row :: row in rows ==> Plannable(row, filter, orderBy)
  }

  /** Each row that passes the filter is planned as often as it is listed, with its own order values. */
  ghost predicate PlansAll(planned: seq<PlannedRow>, rows: seq<Row>, filter: Expr, orderBy: seq<OrderBy>) {
    forall p :: multiset(planned)[p] == if Contributes(p, filter, orderBy) then multiset(rows)[p.row] else 0
  }

  lemma OnlyOneContributes(row: Row, x: PlannedRow, filter: Expr, orderBy: seq<OrderBy>)
    requires Plannable(row, filter, orderBy) && Keeps(row, filter).value
    requires x == PlannedRow(row, OrderValues(row, orderBy).value)
    ensures forall p: PlannedRow :: p.row == row ==> (Contributes(p, filter, orderBy) <==> p == x)
  {
    hide Keeps, OrderValues;
  }

  lemma NoneContributes(before: seq<PlannedRow>, rows: seq<Row>, row: Row, filter: Expr, orderBy: seq<OrderBy>)
    requires PlansAll(before, rows, filter, orderBy) && Keeps(row, filter) == Good(false)
    ensures PlansAll(before, rows + [row], filter, orderBy)
  {
    hide Keeps, OrderValues;
  }

  lemma OneMorePlanned(before: seq<PlannedRow>, rows: seq<Row>, row: Row, filter: Expr, orderBy: seq<OrderBy>)
    requires PlansAll(before, rows, filter, orderBy)
    ensures PlannedOneMore(before, row, filter, orderBy).Good? <==> Plannable(row, filter, orderBy)
    ensures Plannable(row, filter, orderBy) ==>
              PlansAll(PlannedOneMore(before, row, filter, orderBy).value, rows + [row], filter, orderBy)
  {
    hide Keeps, OrderValues, Contributes, PlansAll;
    if Plannable(row, filter, orderBy) {
      if Keeps(row, filter).value {
        var x := PlannedRow(row, OrderValues(row, orderBy).value);
        OnlyOneContributes(row, x, filter, orderBy);
        AddedOnce(before, rows, x, filter, orderBy);
      } else {
        NoneContributes(before, rows, row, filter, orderBy);
      }
    }
  }

  lemma AddedOnce(before: seq<PlannedRow>, rows: seq<Row>, x: PlannedRow, filter: Expr, orderBy: seq<OrderBy>)
    requires PlansAll(before, rows, filter, orderBy)
    requires forall p: PlannedRow :: p.row == x.row ==> (Contributes(p, filter, orderBy) <==> p == x)
    ensures PlansAll(before + [x], rows + [x.row], filter, orderBy)
  {
    hide Contributes;
  }

  lemma OneMorePlannable(rows: seq<Row>, row: Row, filter: Expr, orderBy: seq<OrderBy>)
    ensures AllPlannable(rows + [row], filter, orderBy) <==>
            AllPlannable(rows, filter, orderBy) && Plannable(row, filter, orderBy)
  {
    assert forall x :: x in rows + [row] <==> x in rows || x == row;
    hide Plannable;
  }

  /** Whether planning fails does not depend on the order of the rows, nor does what it plans. */
  lemma {:induction false} PlannedFacts(rows: seq<Row>, filter: Expr, orderBy: seq<OrderBy>)
    ensures Planned(rows, filter, orderBy).Good? <==> AllPlannable(rows, filter, orderBy)
    ensures Planned(rows, filter, orderBy).Good? ==> PlansAll(Planned(rows, filter, orderBy).value, rows, filter, orderBy)
  {
    if rows != [] {
      var front, last := rows[..|rows| - 1], rows[|rows| - 1];
      assert rows == front + [last];
      PlannedFacts(front, filter, orderBy);
      OneMorePlannable(front, last, filter, orderBy);
      hide AllPlannable, PlansAll, Plannable, PlannedOneMore;
      if Planned(front, filter, orderBy).Good? {
        OneMorePlanned(Planned(front, filter, orderBy).value, front, last, filter, orderBy);
      }
    }
  }

  /**
    The answer does not depend on the order in which the store lists the rows: any two listings of the same
    rows give the same answer, and fail or succeed together.
   */
  lemma AnswerIsDetermined(a: seq<Row>, b: seq<Row>, filter: Expr, orderBy: seq<OrderBy>, offset: nat, limit: Option<nat>,
                           one: seq<Row>, other: seq<Row>)
    requires multiset(a) == multiset(b)
    requires Answers(a, filter, orderBy, offset, limit, one) && Answers(b, filter, orderBy, offset, limit, other)
    ensures one == other
  {
    var s :| AnswersBy(a, filter, orderBy, offset, limit, one, s);
    var t :| AnswersBy(b, filter, orderBy, offset, limit, other, t);
    assert multiset(s) == multiset(t) by {
      hide Contributes, Sorted, IsPage, AllPlannable;
    }
    SortingIsUnique(s, t, orderBy);
  }

  /** The row is listed and passes the filter. */
  predicate Passes(p: PlannedRow, rows: seq<Row>, filter: Expr, orderBy: seq<OrderBy>) {
    p.row in rows && Contributes(p, filter, orderBy)
  }

  /** The query is answered: every row can be planned, and no two of those that pass the filter fail to compare. */
  ghost predicate Answerable(rows: seq<Row>, filter: Expr, orderBy: seq<OrderBy>) {
    AllPlannable(rows, filter, orderBy) &&
    forall p, q :: Passes(p, rows, filter, orderBy) && Passes(q, rows, filter, orderBy) && p.row.key != q.row.key ==>
      Compare(p, q, orderBy)
  }

  lemma PlannedPass(planned: seq<PlannedRow>, rows: seq<Row>, filter: Expr, orderBy: seq<OrderBy>)
    requires PlansAll(planned, rows, filter, orderBy)
    ensures forall p :: p in planned <==> Passes(p, rows, filter, orderBy)
  {
    hide Contributes;
    forall p ensures p in planned <==> Passes(p, rows, filter, orderBy) {
      assert p in planned <==> multiset(planned)[p] > 0;
      assert p.row in rows <==> multiset(rows)[p.row] > 0;
    }
  }

  /** Nor does it depend on that order whether a query is answered. */
  lemma AnswerableIsDetermined(a: seq<Row>, b: seq<Row>, filter: Expr, orderBy: seq<OrderBy>)
    requires multiset(a) == multiset(b)
    ensures Answerable(a, filter, orderBy) <==> Answerable(b, filter, orderBy)
  {
    if Answerable(a, filter, orderBy) {
      HalfDetermined(a, b, filter, orderBy);
    } else if Answerable(b, filter, orderBy) {
      HalfDetermined(b, a, filter, orderBy);
    }
  }

  lemma HalfDetermined(a: seq<Row>, b: seq<Row>, filter: Expr, orderBy: seq<OrderBy>)
    requires multiset(a) == multiset(b) && Answerable(a, filter, orderBy)
    ensures Answerable(b, filter, orderBy)
  {
    forall row | row in b ensures row in a {
      assert row in multiset(b);
    }
    hide Compare, Contributes, Plannable;
  }

  lemma {:induction false} OrderValuesAreSized(row: Row, orderBy: seq<OrderBy>)
    requires OrderValues(row, orderBy).Good?
    ensures |OrderValues(row, orderBy).value| == |orderBy|
  {
    if orderBy != [] {
      OrderValuesAreSized(row, orderBy[..|orderBy| - 1]);
    }
  }

  ghost predicate DistinctRows(rows: seq<Row>) {
    forall i, j :: 0 <= i < j < |rows| ==> rows[i].key != rows[j].key
  }

  /** What is planned has the keys of the rows, each once, and all order values. */
  ghost predicate PlannedOf(planned: seq<PlannedRow>, rows: seq<Row>, orderBy: seq<OrderBy>) {
    DistinctKeys(planned) && AllSized(planned, orderBy) && forall p :: p in planned ==> p.row in rows
  }

  lemma {:induction false} PlannedIsDistinct(rows: seq<Row>, filter: Expr, orderBy: seq<OrderBy>)
    requires DistinctRows(rows) && Planned(rows, filter, orderBy).Good?
    ensures PlannedOf(Planned(rows, filter, orderBy).value, rows, orderBy)
  {
    if rows != [] {
      var front, last := rows[..|rows| - 1], rows[|rows| - 1];
      assert rows == front + [last] && DistinctRows(front);
      hide DistinctRows, PlannedOf, PlannedOneMore;
      PlannedIsDistinct(front, filter, orderBy);
      OneMoreIsDistinct(Planned(front, filter, orderBy).value, front, last, filter, orderBy);
    }
  }

  lemma OneMoreIsDistinct(before: seq<PlannedRow>, rows: seq<Row>, row: Row, filter: Expr, orderBy: seq<OrderBy>)
    requires DistinctRows(rows + [row]) && PlannedOf(before, rows, orderBy)
    requires PlannedOneMore(before, row, filter, orderBy).Good?
    ensures PlannedOf(PlannedOneMore(before, row, filter, orderBy).value, rows + [row], orderBy)
  {
    hide Keeps, OrderValues;
    forall p | p in before ensures p.row.key != row.key && p.row in rows + [row] {
      var k :| 0 <= k < |rows| && rows[k] == p.row;
      assert (rows + [row])[k] == p.row && (rows + [row])[|rows|] == row;
    }
    if OrderValues(row, orderBy).Good? {
      OrderValuesAreSized(row, orderBy);
    }
  }

  /** Plans row after row, up to the first that fails. */
  method PlanRows(rows: seq<Row>, filter: Expr, orderBy: seq<OrderBy>) returns (r: Outcome<seq<PlannedRow>>)
    ensures r.Good? <==> AllPlannable(rows, filter, orderBy)
    ensures r.Good? ==> Planned(rows, filter, orderBy) == r
  {
    var planned: seq<PlannedRow> := [];
    for i := 0 to |rows|
      invariant Planned(rows[..i], filter, orderBy) == Good(planned)
    {
      assert rows[..i + 1][..i] == rows[..i];
      var more := PlannedOneMore(planned, rows[i], filter, orderBy);
      if more.Fails? {
        assert rows[i] in rows && !Plannable(rows[i], filter, orderBy);
        return Fails(more.reason);
      }
      planned := more.value;
    }
    assert rows[..|rows|] == rows;
    PlannedFacts(rows, filter, orderBy);
    return Good(planned);
  }

  lemma SortedPlansAll(planned: seq<PlannedRow>, sorted: seq<PlannedRow>, rows: seq<Row>, filter: Expr,
                       orderBy: seq<OrderBy>)
    requires IsSorting(planned, orderBy, sorted) && PlansAll(planned, rows, filter, orderBy)
    ensures Sorted(sorted, orderBy) && PlansAll(sorted, rows, filter, orderBy)
  {
    hide Contributes, Sorted;
  }

  /** A query over the rows of a store, which have different keys, is answered exactly if it is answerable. */
  method Query(rows: seq<Row>, filter: Expr, orderBy: seq<OrderBy>, offset: nat, limit: Option<nat>)
    returns (r: Outcome<seq<Row>>)
    requires DistinctRows(rows)
    ensures r.Good? <==> Answerable(rows, filter, orderBy)
    ensures r.Good? ==> Answers(rows, filter, orderBy, offset, limit, r.value)
  {
    hide Planned, AllPlannable, IsSorting, DistinctKeys, AllSized, Compare, Contributes, IsPage, Page, RowsOf;
    var planned := PlanRows(rows, filter, orderBy);
    if planned.Fails? {
      return Fails(planned.reason);
    }
    PlannedFacts(rows, filter, orderBy);
    PlannedPass(planned.value, rows, filter, orderBy);
    PlannedIsDistinct(rows, filter, orderBy);
    var sorted := SortPlannedRows(planned.value, orderBy);
    if sorted.Fails? {
      return Fails(sorted.reason);
    }
    SortedPlansAll(planned.value, sorted.value, rows, filter, orderBy);
    PageIsPage(sorted.value, offset, limit);
    var page := Page(RowsOf(sorted.value), offset, limit);
    assert AnswersBy(rows, filter, orderBy, offset, limit, page, sorted.value);
    return Good(page);
  }

  // ---------- Batches ----------

  class ResultStream {
    const tuples: seq<Row>
    const batchSize: nat
    var index: nat
    var closed: bool

    ghost predicate Valid()
      reads this
    {
      index <= |tuples| && batchSize > 0
    }

    /** What is still to be delivered. */
    ghost function Remaining(): seq<Row>
      requires Valid()
      reads this
    {
      if closed then [] else tuples[index..]
    }

    constructor (tuples: seq<Row>, batchSize: nat)
      requires batchSize > 0
      ensures Valid() && Remaining() == tuples && this.batchSize == batchSize
    {
      this.tuples, this.batchSize, index, closed := tuples, batchSize, 0, false;
    }

    /** A batch is never empty, and full except for the last. */
    method Next() returns (batch: Option<seq<Row>>)
      requires Valid()
      modifies this`index
      ensures Valid()
      ensures batch.None? <==> old(Remaining()) == []
      ensures batch.None? ==> Remaining() == []
      ensures batch.Some? ==> batch.value != [] && old(Remaining()) == batch.value + Remaining()
      ensures batch.Some? ==> |batch.value| <= batchSize && (|batch.value| < batchSize ==> Remaining() == [])
    {
      if closed || index >= |tuples| {
        return None;
      }
      var end := index + batchSize;
      if end > |tuples| {
        end := |tuples|;
      }
      batch := Some(tuples[index..end]);
      index := end;
    }

    method Close()
      requires Valid()
      modifies this`closed
      ensures Valid() && Remaining() == []
    {
      closed := true;
    }
  }
}
