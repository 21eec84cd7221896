/** Grouping rows by the encoded values of the group-by expressions. */
module Grouping {
  import opened Options
  import opened Texts
  import opened GroupedExpressions

  // ---------- Keys ----------

  /** The last `k` bytes of a number, the most significant first. */
  function BigEndian(n: nat, k: nat): (bytes: string)
    ensures |bytes| == k
  {
    if k == 0 then "" else BigEndian(n / 0x100, k - 1) + [(n % 0x100) as char]
  }

  function Width(k: nat): nat {
    if k == 0 then 1 else 0x100 * Width(k - 1)
  }

  lemma {:induction false} BigEndianInjective(n: nat, m: nat, k: nat)
    requires BigEndian(n, k) == BigEndian(m, k) && n < Width(k) && m < Width(k)
    ensures n == m
  {
    if k > 0 {
      var a, b := BigEndian(n, k), BigEndian(m, k);
      assert a[..k - 1] == BigEndian(n / 0x100, k - 1) && b[..k - 1] == BigEndian(m / 0x100, k - 1);
      assert a[k - 1] == (n % 0x100) as char && b[k - 1] == (m % 0x100) as char;
      BigEndianInjective(n / 0x100, m / 0x100, k - 1);
    }
  }

  /** The deterministic encoding of a value as bytes. */
  type Encoder = Value -> string

  /** Different values have different encodings, of a length that fits eight bytes. */
  ghost predicate EncoderOk(encode: Encoder) {
    && (forall v, w :: encode(v) == encode(w) ==> v == w)
    && (forall v :: |encode(v)| < Width(8))
  }

  function Piece(encode: Encoder, v: Value): string {
    BigEndian(|encode(v)|, 8) + encode(v)
  }

  /** The encodings one after the other, each preceded by its length. */
  function Key(encode: Encoder, values: seq<Value>): string {
    if values == [] then "" else Key(encode, values[..|values| - 1]) + Piece(encode, values[|values| - 1])
  }

  method AggregateValuesKey(encode: Encoder, values: seq<Value>) returns (key: string)
    ensures key == Key(encode, values)
  {
    key := "";
    for i := 0 to |values|
      invariant key == Key(encode, values[..i])
    {
      var encoded := encode(values[i]);
      assert values[..i + 1][..i] == values[..i];
      assert key + (BigEndian(|encoded|, 8) + encoded) == key + BigEndian(|encoded|, 8) + encoded;
      key := key + BigEndian(|encoded|, 8);
      key := key + encoded;
    }
    assert values[..|values|] == values;
  }

  lemma KeyOneMore(encode: Encoder, values: seq<Value>, v: Value)
    ensures Key(encode, values + [v]) == Key(encode, values) + Piece(encode, v)
  {
    assert (values + [v])[..|values|] == values;
  }

  lemma Assoc(a: string, b: string, c: string)
    ensures a + (b + c) == a + b + c
  {
  }

  lemma {:induction false} KeyFront(encode: Encoder, v: Value, values: seq<Value>)
    ensures Key(encode, [v] + values) == Piece(encode, v) + Key(encode, values)
  {
    hide Piece;
    if values == [] {
      KeyOneMore(encode, [], v);
      assert [] + [v] == [v] + values;
    } else {
      hide Key;
      var front, last := values[..|values| - 1], values[|values| - 1];
      calc {
        Key(encode, [v] + values);
        { assert [v] + values == [v] + front + [last]; }
        Key(encode, [v] + front + [last]);
        { KeyOneMore(encode, [v] + front, last); }
        Key(encode, [v] + front) + Piece(encode, last);
        { KeyFront(encode, v, front); }
        Piece(encode, v) + Key(encode, front) + Piece(encode, last);
        { Assoc(Piece(encode, v), Key(encode, front), Piece(encode, last)); }
        Piece(encode, v) + (Key(encode, front) + Piece(encode, last));
        { KeyOneMore(encode, front, last); assert front + [last] == values; }
        Piece(encode, v) + Key(encode, values);
      }
    }
  }

  /** Two pieces with any texts behind them agree only if both parts do. */
  lemma PieceInjective(encode: Encoder, v: Value, w: Value, a: string, b: string)
    requires EncoderOk(encode) && Piece(encode, v) + a == Piece(encode, w) + b
    ensures v == w && a == b
  {
    var x, y := Piece(encode, v) + a, Piece(encode, w) + b;
    assert x[..8] == BigEndian(|encode(v)|, 8) && y[..8] == BigEndian(|encode(w)|, 8);
    BigEndianInjective(|encode(v)|, |encode(w)|, 8);
    var n := |encode(v)|;
    assert x[8..8 + n] == encode(v) && y[8..8 + n] == encode(w);
    assert x[8 + n..] == a && y[8 + n..] == b;
  }

  /** The length prefixes make the key unambiguous: equal keys mean equal values, one by one. */
  lemma {:induction false} KeyInjective(encode: Encoder, vs: seq<Value>, ws: seq<Value>)
    requires EncoderOk(encode) && Key(encode, vs) == Key(encode, ws)
    ensures vs == ws
  {
    if vs != [] { KeyFront(encode, vs[0], vs[1..]); assert vs == [vs[0]] + vs[1..]; }
    if ws != [] { KeyFront(encode, ws[0], ws[1..]); assert ws == [ws[0]] + ws[1..]; }
    if vs != [] && ws != [] {
      PieceInjective(encode, vs[0], ws[0], Key(encode, vs[1..]), Key(encode, ws[1..]));
      KeyInjective(encode, vs[1..], ws[1..]);
    }
  }

  lemma {:induction false} BigEndianOrder(n: nat, m: nat, k: nat)
    requires n < Width(k) && m < Width(k)
    ensures TextLess(BigEndian(n, k), BigEndian(m, k)) <==> n < m
  {
    if k > 0 {
      var a, b, c, d := BigEndian(n / 0x100, k - 1), BigEndian(m / 0x100, k - 1), (n % 0x100) as char, (m % 0x100) as char;
      BigEndianOrder(n / 0x100, m / 0x100, k - 1);
      if n / 0x100 == m / 0x100 {
        TextLessBehind(a, [c], [d]);
      } else {
        if a == b { BigEndianInjective(n / 0x100, m / 0x100, k - 1); }
        TextLessAhead(a, b, [c], [d]);
      }
    }
  }

  /** A value's encoding is shorter, or as long and below the other in the order of texts. */
  predicate EncodedBefore(encode: Encoder, v: Value, w: Value) {
    |encode(v)| < |encode(w)| || (|encode(v)| == |encode(w)| && TextLess(encode(v), encode(w)))
  }

  lemma PieceOrder(encode: Encoder, v: Value, w: Value, x: string, y: string)
    requires EncoderOk(encode) && v != w
    ensures TextLess(Piece(encode, v) + x, Piece(encode, w) + y) <==> EncodedBefore(encode, v, w)
  {
    var a, b, n, m := encode(v), encode(w), BigEndian(|encode(v)|, 8), BigEndian(|encode(w)|, 8);
    Assoc(n, a, x);
    Assoc(m, b, y);
    BigEndianOrder(|a|, |b|, 8);
    hide BigEndian, TextLess, Width;
    if |a| == |b| {
      TextLessBehind(n, a + x, b + y);
      TextLessAhead(a, b, x, y);
    } else {
      if n == m { BigEndianInjective(|a|, |b|, 8); }
      TextLessAhead(n, m, a + x, b + y);
    }
  }

  /** The first values that differ: one list's comes before the other's; or one list begins the other. */
  ghost predicate Earlier(encode: Encoder, vs: seq<Value>, ws: seq<Value>) {
    || (vs <= ws && vs != ws)
    || exists i :: 0 <= i < |vs| && i < |ws| && vs[..i] == ws[..i] && vs[i] != ws[i] && EncodedBefore(encode, vs[i], ws[i])
  }

  lemma EarlierFront(encode: Encoder, vs: seq<Value>, ws: seq<Value>)
    requires vs != [] && ws != []
    ensures Earlier(encode, vs, ws) <==>
              if vs[0] == ws[0] then Earlier(encode, vs[1..], ws[1..]) else EncodedBefore(encode, vs[0], ws[0])
  {
    var c, d := vs[1..], ws[1..];
    hide EncodedBefore;
    assert vs == [vs[0]] + c && ws == [ws[0]] + d;
    if vs[0] == ws[0] {
      assert vs <= ws <==> c <= d;
      forall i | 0 < i <= |vs| && i <= |ws| ensures vs[..i] == ws[..i] <==> c[..i - 1] == d[..i - 1] {
        assert vs[..i] == [vs[0]] + c[..i - 1] && ws[..i] == [ws[0]] + d[..i - 1];
        assert vs[..i][1..] == c[..i - 1] && ws[..i][1..] == d[..i - 1];
      }
      if i :| 0 <= i < |c| && i < |d| && c[..i] == d[..i] && c[i] != d[i] && EncodedBefore(encode, c[i], d[i]) {
        assert vs[..i + 1] == ws[..i + 1] && vs[i + 1] != ws[i + 1] && EncodedBefore(encode, vs[i + 1], ws[i + 1]);
      }
      if i :| 0 <= i < |vs| && i < |ws| && vs[..i] == ws[..i] && vs[i] != ws[i] && EncodedBefore(encode, vs[i], ws[i]) {
        assert c[..i - 1] == d[..i - 1] && c[i - 1] != d[i - 1] && EncodedBefore(encode, c[i - 1], d[i - 1]);
      }
    } else {
      assert vs[..0] == ws[..0];
      assert forall i :: 0 < i <= |vs| && i <= |ws| ==> vs[..i][0] != ws[..i][0];
    }
  }

  lemma KeyOrderFront(encode: Encoder, v: Value, w: Value, vs: seq<Value>, ws: seq<Value>)
    requires EncoderOk(encode)
    requires v == w ==> (TextLess(Key(encode, vs), Key(encode, ws)) <==> Earlier(encode, vs, ws))
    ensures TextLess(Key(encode, [v] + vs), Key(encode, [w] + ws)) <==> Earlier(encode, [v] + vs, [w] + ws)
  {
    hide EncoderOk, EncodedBefore, Earlier, TextLess, Piece, Key;
    KeyFront(encode, v, vs);
    KeyFront(encode, w, ws);
    EarlierFront(encode, [v] + vs, [w] + ws);
    assert ([v] + vs)[1..] == vs && ([w] + ws)[1..] == ws;
    if v == w {
      TextLessBehind(Piece(encode, v), Key(encode, vs), Key(encode, ws));
    } else {
      PieceOrder(encode, v, w, Key(encode, vs), Key(encode, ws));
    }
  }

  lemma KeyOfSome(encode: Encoder, vs: seq<Value>)
    ensures Key(encode, []) == "" && (vs != [] ==> Key(encode, vs) != "")
  {
  }

  /** Keys are in order exactly as the first values that differ, of which the one with the shorter encoding comes first. */
  lemma {:induction false} KeyOrder(encode: Encoder, vs: seq<Value>, ws: seq<Value>)
    requires EncoderOk(encode)
    ensures TextLess(Key(encode, vs), Key(encode, ws)) <==> Earlier(encode, vs, ws)
  {
    if vs == [] || ws == [] {
      KeyOfSome(encode, vs);
      KeyOfSome(encode, ws);
      hide Key;
    } else {
      hide EncoderOk, EncodedBefore, Earlier, TextLess, Key;
      if vs[0] == ws[0] {
        KeyOrder(encode, vs[1..], ws[1..]);
      }
      KeyOrderFront(encode, vs[0], ws[0], vs[1..], ws[1..]);
      assert vs == [vs[0]] + vs[1..] && ws == [ws[0]] + ws[1..];
    }
  }

  // ---------- Groups ----------

  datatype Group = Group(key: string, rows: seq<Row>)

  /** The group-by values of a row, or the first failure. */
  function GroupValues(row: Row, groupBy: seq<Expr>): Outcome<seq<Value>> {
    if groupBy == [] then Good([])
    else
      var before := GroupValues(row, groupBy[..|groupBy| - 1]);
      if before.Fails? then before
      else
        var v := Evaluate(RowContext(row), groupBy[|groupBy| - 1]);
        if v.Fails? then Fails(v.reason) else Good(before.value + [v.value])
  }

  lemma {:induction false} GroupValuesAt(row: Row, groupBy: seq<Expr>)
    requires GroupValues(row, groupBy).Good?
    ensures |GroupValues(row, groupBy).value| == |groupBy|
    ensures forall i :: 0 <= i < |groupBy| ==>
              Evaluate(RowContext(row), groupBy[i]) == Good(GroupValues(row, groupBy).value[i])
  {
    if groupBy != [] {
      GroupValuesAt(row, groupBy[..|groupBy| - 1]);
    }
  }

  function GroupKey(encode: Encoder, row: Row, groupBy: seq<Expr>): Outcome<string> {
    var values := GroupValues(row, groupBy);
    if values.Fails? then Fails(values.reason) else Good(Key(encode, values.value))
  }

  /** Rows have the same key exactly when they agree on every group-by expression. */
  lemma KeysMeanSameGroup(encode: Encoder, groupBy: seq<Expr>, r: Row, s: Row)
    requires EncoderOk(encode) && GroupKey(encode, r, groupBy).Good? && GroupKey(encode, s, groupBy).Good?
    ensures GroupKey(encode, r, groupBy) == GroupKey(encode, s, groupBy) <==> SameGroup(groupBy, r, s)
  {
    GroupValuesAt(r, groupBy);
    GroupValuesAt(s, groupBy);
    var vs, ws := GroupValues(r, groupBy).value, GroupValues(s, groupBy).value;
    if Key(encode, vs) == Key(encode, ws) {
      KeyInjective(encode, vs, ws);
    }
    if SameGroup(groupBy, r, s) {
      assert forall i :: 0 <= i < |groupBy| ==> vs[i] == ws[i];
      assert vs == ws;
    }
  }

  /** The rows with a key, in their order. */
  function Members(encode: Encoder, groupBy: seq<Expr>, rows: seq<Row>, key: string): seq<Row> {
    if rows == [] then []
    else
      var last := rows[|rows| - 1];
      Members(encode, groupBy, rows[..|rows| - 1], key) +
      (if GroupKey(encode, last, groupBy) == Good(key) then [last] else [])
  }

  ghost predicate AllHaveKeys(encode: Encoder, groupBy: seq<Expr>, rows: seq<Row>) {
    forall i :: 0 <= i < |rows| ==> GroupKey(encode, rows[i], groupBy).Good?
  }

  lemma MembersOneMore(encode: Encoder, groupBy: seq<Expr>, rows: seq<Row>, row: Row, key: string)
    ensures Members(encode, groupBy, rows + [row], key) ==
            Members(encode, groupBy, rows, key) + (if GroupKey(encode, row, groupBy) == Good(key) then [row] else [])
  {
    assert (rows + [row])[..|rows|] == rows;
  }

  lemma {:induction false} MemberExactly(encode: Encoder, groupBy: seq<Expr>, rows: seq<Row>, key: string, row: Row)
    ensures row in Members(encode, groupBy, rows, key) <==> row in rows && GroupKey(encode, row, groupBy) == Good(key)
  {
    if rows != [] {
      var front, last := rows[..|rows| - 1], rows[|rows| - 1];
      MemberExactly(encode, groupBy, front, key, row);
      assert row in rows <==> row in front || row == last;
    }
  }

  /** The map a grouping loop fills: under each key seen, the rows with that key. */
  ghost predicate Filled(encode: Encoder, groupBy: seq<Expr>, rows: seq<Row>, byKey: map<string, seq<Row>>) {
    && AllHaveKeys(encode, groupBy, rows)
    && (forall key :: key in byKey ==> byKey[key] == Members(encode, groupBy, rows, key) != [])
    && (forall key :: key !in byKey ==> Members(encode, groupBy, rows, key) == [])
  }

  lemma NothingIsFilled(encode: Encoder, groupBy: seq<Expr>)
    ensures Filled(encode, groupBy, [], map[])
  {
  }

  lemma FilledOneMore(encode: Encoder, groupBy: seq<Expr>, rows: seq<Row>, byKey: map<string, seq<Row>>, row: Row)
    requires Filled(encode, groupBy, rows, byKey) && GroupKey(encode, row, groupBy).Good?
    ensures var key := GroupKey(encode, row, groupBy).value;
            Filled(encode, groupBy, rows + [row],
                   byKey[key := (if key in byKey then byKey[key] else []) + [row]])
  {
    var k := GroupKey(encode, row, groupBy).value;
    var after := byKey[k := (if k in byKey then byKey[k] else []) + [row]];
    assert AllHaveKeys(encode, groupBy, rows + [row]);
    hide Members, GroupKey;
    forall key
      ensures key in after ==> after[key] == Members(encode, groupBy, rows + [row], key) != []
      ensures key !in after ==> Members(encode, groupBy, rows + [row], key) == []
    {
      MembersOneMore(encode, groupBy, rows, row, key);
      assert key != k ==> Members(encode, groupBy, rows + [row], key) == Members(encode, groupBy, rows, key);
    }
  }

  ghost predicate KeysSorted(groups: seq<Group>) {
    forall i, j :: 0 <= i < j < |groups| ==> TextLess(groups[i].key, groups[j].key)
  }

  ghost predicate HasGroup(groups: seq<Group>, key: string) {
    exists j :: 0 <= j < |groups| && groups[j].key == key
  }

  /** What grouping promises: groups in key order, each holding exactly the rows with its key, and every row in one. */
  ghost predicate Grouped(encode: Encoder, groupBy: seq<Expr>, rows: seq<Row>, groups: seq<Group>) {
    if groupBy == [] then groups == [Group("", rows)]
    else
      && KeysSorted(groups)
      && (forall i :: 0 <= i < |groups| ==>
           groups[i].rows == Members(encode, groupBy, rows, groups[i].key) != [])
      && AllHaveKeys(encode, groupBy, rows)
      && (forall i :: 0 <= i < |rows| ==> HasGroup(groups, GroupKey(encode, rows[i], groupBy).value))
  }

  /** Fails exactly when some row has no key, and otherwise groups. */
  method GroupAggregateRows(encode: Encoder, rows: seq<Row>, groupBy: seq<Expr>) returns (r: Outcome<seq<Group>>)
    ensures r.Good? <==> groupBy == [] || AllHaveKeys(encode, groupBy, rows)
    ensures r.Good? ==> Grouped(encode, groupBy, rows, r.value)
  {
    if groupBy == [] {
      return Good([Group("", rows)]);
    }
    var byKey: map<string, seq<Row>> := map[];
    NothingIsFilled(encode, groupBy);
    hide Filled, Grouped, KeysSorted, Evaluate;
    for i := 0 to |rows|
      invariant Filled(encode, groupBy, rows[..i], byKey)
    {
      var values: seq<Value> := [];
      for j := 0 to |groupBy|
        invariant GroupValues(rows[i], groupBy[..j]) == Good(values)
      {
        var v := Evaluate(RowContext(rows[i]), groupBy[j]);
        assert groupBy[..j + 1][..j] == groupBy[..j];
        if v.Fails? {
          FirstFailure(rows[i], groupBy, j);
          return Fails(v.reason);
        }
        values := values + [v.value];
      }
      assert groupBy[..|groupBy|] == groupBy;
      var key := AggregateValuesKey(encode, values);
      FilledOneMore(encode, groupBy, rows[..i], byKey, rows[i]);
      assert rows[..i + 1] == rows[..i] + [rows[i]];
      byKey := byKey[key := (if key in byKey then byKey[key] else []) + [rows[i]]];
    }
    assert rows[..|rows|] == rows;
    var groups := SortedGroups(byKey);
    FilledIsGrouped(encode, groupBy, rows, byKey, groups);
    return Good(groups);
  }

  lemma {:induction false} FirstFailure(row: Row, groupBy: seq<Expr>, j: nat)
    requires j < |groupBy| && GroupValues(row, groupBy[..j + 1]).Fails?
    ensures GroupValues(row, groupBy).Fails?
    decreases |groupBy|
  {
    if j + 1 < |groupBy| {
      assert groupBy[..|groupBy| - 1][..j + 1] == groupBy[..j + 1];
      FirstFailure(row, groupBy[..|groupBy| - 1], j);
    } else {
      assert groupBy[..j + 1] == groupBy;
    }
  }

  /** The map's groups in key order. */
  method SortedGroups(byKey: map<string, seq<Row>>) returns (groups: seq<Group>)
    ensures KeysSorted(groups)
    ensures forall g :: g in groups ==> g.key in byKey && g.rows == byKey[g.key]
    ensures forall key :: key in byKey ==> Group(key, byKey[key]) in groups
  {
    var keys: seq<string> := [];
    var rest := byKey.Keys;
    while rest != {}
      invariant rest <= byKey.Keys && StrictlySorted(keys)
      invariant forall key :: key in keys <==> key in byKey && key !in rest
      decreases rest
    {
      var key :| key in rest;
      InsertSorts(keys, key);
      forall x ensures x in Insert(keys, key) <==> x == key || x in keys {
        InsertHas(keys, key, x);
      }
      keys := Insert(keys, key);
      rest := rest - {key};
    }
    groups := [];
    for i := 0 to |keys|
      invariant |groups| == i
      invariant forall j :: 0 <= j < i ==> groups[j] == Group(keys[j], byKey[keys[j]])
    {
      assert keys[i] in keys;
      groups := groups + [Group(keys[i], byKey[keys[i]])];
    }
    forall key | key in byKey ensures Group(key, byKey[key]) in groups {
      assert key in keys;
      var j :| 0 <= j < |keys| && keys[j] == key;
      assert groups[j] == Group(key, byKey[key]);
    }
    assert forall j :: 0 <= j < |keys| ==> keys[j] in keys;
  }

  lemma FilledIsGrouped(encode: Encoder, groupBy: seq<Expr>, rows: seq<Row>, byKey: map<string, seq<Row>>,
                        groups: seq<Group>)
    requires groupBy != [] && Filled(encode, groupBy, rows, byKey) && KeysSorted(groups)
    requires forall g :: g in groups ==> g.key in byKey && g.rows == byKey[g.key]
    requires forall key :: key in byKey ==> Group(key, byKey[key]) in groups
    ensures Grouped(encode, groupBy, rows, groups)
  {
    forall i | 0 <= i < |groups|
      ensures groups[i].rows == Members(encode, groupBy, rows, groups[i].key) != []
    {
      assert groups[i] in groups;
    }
    hide Members, GroupKey;
    forall i | 0 <= i < |rows| ensures HasGroup(groups, GroupKey(encode, rows[i], groupBy).value) {
      var key := GroupKey(encode, rows[i], groupBy).value;
      MemberExactly(encode, groupBy, rows, key, rows[i]);
      assert key in byKey && Group(key, byKey[key]) in groups;
      var j :| 0 <= j < |groups| && groups[j] == Group(key, byKey[key]);
      assert groups[j].key == key;
    }
  }

  // ---------- Groups partition the rows ----------

  function Flattened(groups: seq<Group>): seq<Row> {
    if groups == [] then [] else Flattened(groups[..|groups| - 1]) + groups[|groups| - 1].rows
  }

  function KeysOf(groups: seq<Group>): seq<string> {
    if groups == [] then [] else KeysOf(groups[..|groups| - 1]) + [groups[|groups| - 1].key]
  }

  /** The members of the keys, key by key. */
  function MembersOfAll(encode: Encoder, groupBy: seq<Expr>, rows: seq<Row>, keys: seq<string>): seq<Row> {
    if keys == [] then []
    else
      MembersOfAll(encode, groupBy, rows, keys[..|keys| - 1]) + Members(encode, groupBy, rows, keys[|keys| - 1])
  }

  lemma {:induction false} KeysOfGroups(groups: seq<Group>)
    ensures |KeysOf(groups)| == |groups| && forall i :: 0 <= i < |groups| ==> KeysOf(groups)[i] == groups[i].key
  {
    if groups != [] {
      KeysOfGroups(groups[..|groups| - 1]);
    }
  }

  lemma {:induction false} FlattenedByKeys(encode: Encoder, groupBy: seq<Expr>, rows: seq<Row>, groups: seq<Group>)
    requires forall i :: 0 <= i < |groups| ==> groups[i].rows == Members(encode, groupBy, rows, groups[i].key)
    ensures Flattened(groups) == MembersOfAll(encode, groupBy, rows, KeysOf(groups))
  {
    if groups != [] {
      FlattenedByKeys(encode, groupBy, rows, groups[..|groups| - 1]);
      var keys := KeysOf(groups);
      assert keys[..|keys| - 1] == KeysOf(groups[..|groups| - 1]);
    }
  }

  predicate Distinct(keys: seq<string>) {
    forall i, j :: 0 <= i < j < |keys| ==> keys[i] != keys[j]
  }

  lemma JoinsOnePart(a: seq<Row>, b: seq<Row>, moreA: seq<Row>, moreB: seq<Row>, row: Row, inA: bool, inB: bool)
    requires multiset(moreA) == multiset(a) + (if inA then multiset{row} else multiset{})
    requires moreB == b + (if inB then [row] else []) && !(inA && inB)
    ensures multiset(moreA + moreB) == multiset(a + b) + (if inA || inB then multiset{row} else multiset{})
  {
  }

  /** One more row joins the members of exactly one of the keys, if its key is among them. */
  lemma {:induction false} OneMoreMember(encode: Encoder, groupBy: seq<Expr>, rows: seq<Row>, row: Row, keys: seq<string>)
    requires Distinct(keys) && GroupKey(encode, row, groupBy).Good?
    ensures multiset(MembersOfAll(encode, groupBy, rows + [row], keys)) ==
            multiset(MembersOfAll(encode, groupBy, rows, keys)) +
            (if GroupKey(encode, row, groupBy).value in keys then multiset{row} else multiset{})
  {
    hide Members, GroupKey;
    if keys != [] {
      var front, last := keys[..|keys| - 1], keys[|keys| - 1];
      var k := GroupKey(encode, row, groupBy).value;
      assert k in keys <==> k in front || k == last by { assert keys == front + [last]; }
      assert k == last ==> k !in front;
      OneMoreMember(encode, groupBy, rows, row, front);
      MembersOneMore(encode, groupBy, rows, row, last);
      JoinsOnePart(MembersOfAll(encode, groupBy, rows, front), Members(encode, groupBy, rows, last),
                   MembersOfAll(encode, groupBy, rows + [row], front), Members(encode, groupBy, rows + [row], last),
                   row, k in front, k == last);
    }
  }

  ghost predicate KeysIn(encode: Encoder, groupBy: seq<Expr>, rows: seq<Row>, keys: seq<string>) {
    forall row :: row in rows ==> GroupKey(encode, row, groupBy).Good? && GroupKey(encode, row, groupBy).value in keys
  }

  lemma {:induction false} MembersAreAll(encode: Encoder, groupBy: seq<Expr>, rows: seq<Row>, keys: seq<string>)
    requires Distinct(keys) && KeysIn(encode, groupBy, rows, keys)
    ensures multiset(MembersOfAll(encode, groupBy, rows, keys)) == multiset(rows)
  {
    if rows == [] {
      NoMembers(encode, groupBy, keys);
    } else {
      var front, last := rows[..|rows| - 1], rows[|rows| - 1];
      assert last in rows && KeysIn(encode, groupBy, front, keys);
      hide MembersOfAll, GroupKey, Distinct, KeysIn;
      calc {
        multiset(MembersOfAll(encode, groupBy, rows, keys));
        { assert rows == front + [last]; }
        multiset(MembersOfAll(encode, groupBy, front + [last], keys));
        { OneMoreMember(encode, groupBy, front, last, keys); }
        multiset(MembersOfAll(encode, groupBy, front, keys)) + multiset{last};
        { MembersAreAll(encode, groupBy, front, keys); }
        multiset(front) + multiset{last};
        { assert rows == front + [last]; }
        multiset(rows);
      }
    }
  }

  lemma {:induction false} NoMembers(encode: Encoder, groupBy: seq<Expr>, keys: seq<string>)
    ensures MembersOfAll(encode, groupBy, [], keys) == []
  {
    if keys != [] {
      NoMembers(encode, groupBy, keys[..|keys| - 1]);
    }
  }

  lemma KeysDiffer(groups: seq<Group>)
    requires KeysSorted(groups)
    ensures Distinct(KeysOf(groups))
  {
    KeysOfGroups(groups);
    var keys := KeysOf(groups);
    hide KeysOf, TextLess;
    forall i, j | 0 <= i < j < |keys| ensures keys[i] != keys[j] {
      assert TextLess(groups[i].key, groups[j].key);
      TextLessTotal(keys[i], keys[j]);
    }
  }

  lemma EveryKeyIsListed(encode: Encoder, groupBy: seq<Expr>, rows: seq<Row>, groups: seq<Group>)
    requires groupBy != [] && Grouped(encode, groupBy, rows, groups)
    ensures KeysIn(encode, groupBy, rows, KeysOf(groups))
  {
    KeysOfGroups(groups);
    var keys := KeysOf(groups);
    hide KeysOf, Members, TextLess, GroupKey, KeysSorted;
    forall row | row in rows
      ensures GroupKey(encode, row, groupBy).Good? && GroupKey(encode, row, groupBy).value in keys
    {
      var i :| 0 <= i < |rows| && rows[i] == row;
      assert HasGroup(groups, GroupKey(encode, rows[i], groupBy).value);
      var j :| 0 <= j < |groups| && groups[j].key == GroupKey(encode, rows[i], groupBy).value;
      assert keys[j] == groups[j].key;
    }
  }

  /** The groups hold the rows, each exactly once; so their sizes add up to the number of rows. */
  lemma GroupsPartition(encode: Encoder, groupBy: seq<Expr>, rows: seq<Row>, groups: seq<Group>)
    requires Grouped(encode, groupBy, rows, groups)
    ensures multiset(Flattened(groups)) == multiset(rows)
    ensures groupBy == [] ==> |groups| == 1
  {
    if groupBy == [] {
      assert Flattened(groups[..0]) == [];
      assert [] + rows == rows;
    } else {
      hide TextLess, Members, MembersOfAll, GroupKey, GroupValues, KeysOf, Flattened, Distinct, KeysIn, HasGroup;
      KeysDiffer(groups);
      FlattenedByKeys(encode, groupBy, rows, groups);
      EveryKeyIsListed(encode, groupBy, rows, groups);
      MembersAreAll(encode, groupBy, rows, KeysOf(groups));
    }
  }

  /** Two rows are in one group exactly when they agree on every group-by expression. */
  lemma TogetherExactlyWhenSame(encode: Encoder, groupBy: seq<Expr>, rows: seq<Row>, groups: seq<Group>, r: Row, s: Row)
    requires EncoderOk(encode) && Grouped(encode, groupBy, rows, groups) && r in rows && s in rows
    ensures (exists g :: g in groups && r in g.rows && s in g.rows) <==> SameGroup(groupBy, r, s)
  {
    if groupBy == [] {
      assert groups[0] in groups;
    } else {
      KeysMeanSameGroup(encode, groupBy, r, s);
      forall key ensures r in Members(encode, groupBy, rows, key) <==> GroupKey(encode, r, groupBy) == Good(key) {
        MemberExactly(encode, groupBy, rows, key, r);
      }
      forall key ensures s in Members(encode, groupBy, rows, key) <==> GroupKey(encode, s, groupBy) == Good(key) {
        MemberExactly(encode, groupBy, rows, key, s);
      }
      var i :| 0 <= i < |rows| && rows[i] == r;
      var j :| 0 <= j < |groups| && groups[j].key == GroupKey(encode, rows[i], groupBy).value;
      assert groups[j] in groups && r in groups[j].rows;
    }
  }

  /** Any row of a group may represent it, and the empty group needs none. */
  lemma GroupsHaveNoFavourite(encode: Encoder, groupBy: seq<Expr>, rows: seq<Row>, groups: seq<Group>, g: Group, e: Expr)
    requires EncoderOk(encode) && ValidGroupBy(groupBy) && ValidGrouped(e, groupBy, false)
    requires Grouped(encode, groupBy, rows, groups) && g in groups
    ensures forall row :: row in g.rows ==>
              Evaluate(GroupContext(g.rows), e) == Evaluate(Context(Some(row), g.rows, true), e)
  {
    forall row | row in g.rows
      ensures Evaluate(GroupContext(g.rows), e) == Evaluate(Context(Some(row), g.rows, true), e)
    {
      if groupBy != [] {
        MemberExactly(encode, groupBy, rows, g.key, row);
        MemberExactly(encode, groupBy, rows, g.key, g.rows[0]);
        KeysMeanSameGroup(encode, groupBy, g.rows[0], row);
      }
      AnyRepresentative(e, groupBy, g.rows, Some(g.rows[0]), Some(row));
    }
  }
}
