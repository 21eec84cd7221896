/**
  The bounded in-memory store behind the cache.

  The specification works on the recency list as a value, most recently used entry first. Class
  MemoryStore keeps the source's own structures (a map into a recency list, and a byte counter) and is
  proved against it.
 */
module LruStore {
  import opened CacheTypes
  import opened Options

  datatype Entry = Entry(key: QueryKey, result: CachedResult, expiresAt: int)

  datatype Limits = Limits(maxEntries: nat, maxBytes: nat, ttl: int)

  // ---------- Specification on recency lists ----------

  ghost predicate DistinctKeys(l: seq<Entry>) {
    forall i, j :: 0 <= i < j < |l| ==> l[i].key != l[j].key
  }

  function Bytes(l: seq<Entry>): nat {
    if l == [] then 0 else Bytes(l[..|l| - 1]) + l[|l| - 1].result.size
  }

  function Has(l: seq<Entry>, key: QueryKey): bool {
    exists i :: 0 <= i < |l| && l[i].key == key
  }

  function Position(l: seq<Entry>, key: QueryKey): (i: nat)
    requires Has(l, key)
    ensures i < |l| && l[i].key == key
  {
    if l[0].key == key then 0 else
    assert Has(l[1..], key) by {
      var i :| 0 <= i < |l| && l[i].key == key;
      assert l[1..][i - 1] == l[i];
    }
    1 + Position(l[1..], key)
  }

  function RemoveAt(l: seq<Entry>, i: nat): seq<Entry>
    requires i < |l|
  {
    l[..i] + l[i + 1..]
  }

  function Without(l: seq<Entry>, key: QueryKey): seq<Entry> {
    if Has(l, key) then RemoveAt(l, Position(l, key)) else l
  }

  predicate Fits(l: seq<Entry>, limits: Limits) {
    |l| <= limits.maxEntries && Bytes(l) <= limits.maxBytes
  }

  /** The number of entries left when the list, cut to its first `n`, is popped from the back until it fits. */
  function KeptLength(l: seq<Entry>, n: nat, limits: Limits): (kept: nat)
    requires n <= |l|
    ensures kept <= n
  {
    if n == 0 || Fits(l[..n], limits) then n else KeptLength(l, n - 1, limits)
  }

  function Evict(l: seq<Entry>, limits: Limits): seq<Entry> {
    l[..KeptLength(l, |l|, limits)]
  }

  /** A lookup at time `now`: an expired entry is dropped, a live one moves to the front. */
  function Get(l: seq<Entry>, key: QueryKey, now: int): (Option<CachedResult>, seq<Entry>) {
    if !Has(l, key) then (None, l)
    else
      var entry := l[Position(l, key)];
      if !(now < entry.expiresAt) then (None, Without(l, key))
      else (Some(entry.result), [entry] + Without(l, key))
  }

  function Set(l: seq<Entry>, key: QueryKey, result: CachedResult, now: int, limits: Limits): seq<Entry> {
    if result.size > limits.maxBytes then l
    else Evict([Entry(key, result, now + limits.ttl)] + Without(l, key), limits)
  }

  // ---------- Facts about the specification ----------

  lemma {:induction false} BytesRemove(l: seq<Entry>, i: nat)
    requires i < |l|
    ensures Bytes(RemoveAt(l, i)) == Bytes(l) - l[i].result.size
  {
    var last := |l| - 1;
    if i == last {
      assert RemoveAt(l, i) == l[..last];
    } else {
      var front := l[..last];
      BytesRemove(front, i);
      assert RemoveAt(l, i)[..last - 1] == RemoveAt(front, i);
      assert RemoveAt(l, i)[last - 1] == l[last];
    }
  }

  lemma {:induction false} BytesPushFront(e: Entry, l: seq<Entry>)
    ensures Bytes([e] + l) == e.result.size + Bytes(l)
  {
    if l == [] {
      assert [e] + l == [e];
      assert Bytes([e]) == Bytes([e][..0]) + e.result.size;
    } else {
      BytesPushFront(e, l[..|l| - 1]);
      assert ([e] + l)[..|l|] == [e] + l[..|l| - 1];
    }
  }

  lemma {:induction false} BytesPrefix(l: seq<Entry>, n: nat)
    requires n <= |l|
    ensures Bytes(l[..n]) <= Bytes(l)
  {
    if n < |l| {
      BytesPrefix(l[..|l| - 1], n);
      assert l[..|l| - 1][..n] == l[..n];
    } else {
      assert l[..n] == l;
    }
  }

  lemma {:induction false} KeptLengthIsLongest(l: seq<Entry>, n: nat, limits: Limits)
    requires n <= |l|
    ensures var kept := KeptLength(l, n, limits);
            Fits(l[..kept], limits) && forall m :: kept < m <= n ==> !Fits(l[..m], limits)
  {
    if n == 0 {
      assert l[..0] == [];
    } else if !Fits(l[..n], limits) {
      KeptLengthIsLongest(l, n - 1, limits);
    }
  }

  /**
    Eviction keeps the longest prefix within both limits: what it drops is a least
    recently used suffix, and no shorter suffix would do.
   */
  lemma EvictionIsMinimal(l: seq<Entry>, limits: Limits)
    ensures Evict(l, limits) <= l
    ensures |Evict(l, limits)| <= limits.maxEntries && Bytes(Evict(l, limits)) <= limits.maxBytes
    ensures forall m :: |Evict(l, limits)| < m <= |l| ==> m > limits.maxEntries || Bytes(l[..m]) > limits.maxBytes
  {
    KeptLengthIsLongest(l, |l|, limits);
  }

  lemma WithoutFacts(l: seq<Entry>, key: QueryKey)
    requires DistinctKeys(l)
    ensures DistinctKeys(Without(l, key))
    ensures !Has(Without(l, key), key)
    ensures forall e :: e in Without(l, key) <==> e in l && e.key != key
  {
    if Has(l, key) {
      var i := Position(l, key);
      var r := Without(l, key);
      assert forall j :: 0 <= j < |r| ==> r[j] == (if j < i then l[j] else l[j + 1]);
      forall e | e in l && e.key != key
        ensures e in r
      {
        var j :| 0 <= j < |l| && l[j] == e;
        assert r[if j < i then j else j - 1] == e;
      }
    }
  }

  /** The entries under other keys, in order. */
  function Others(l: seq<Entry>, key: QueryKey): seq<Entry> {
    if l == [] then []
    else Others(l[..|l| - 1], key) + (if l[|l| - 1].key == key then [] else [l[|l| - 1]])
  }

  lemma {:induction false} WithoutIsOthers(l: seq<Entry>, key: QueryKey)
    requires DistinctKeys(l)
    ensures Without(l, key) == Others(l, key)
  {
    if l != [] {
      var front, last := l[..|l| - 1], l[|l| - 1];
      assert l == front + [last];
      WithoutIsOthers(front, key);
      if last.key == key {
        SamePosition(l, key, |l| - 1);
        assert !Has(front, key) && RemoveAt(l, |l| - 1) == front;
      } else if Has(front, key) {
        var i := Position(front, key);
        assert l[i] == front[i];
        SamePosition(l, key, i);
        assert RemoveAt(l, i) == RemoveAt(front, i) + [last];
      } else {
        assert !Has(l, key);
      }
    }
  }

  lemma {:induction false} OthersFacts(l: seq<Entry>, key: QueryKey, i: nat)
    requires i < |l|
    ensures Others(l[..i + 1], key) <= Others(l, key)
    ensures l[i].key != key ==> var upTo := Others(l[..i + 1], key); upTo != [] && upTo[|upTo| - 1] == l[i]
    decreases |l|
  {
    if i == |l| - 1 {
      assert l[..i + 1] == l;
    } else {
      var front := l[..|l| - 1];
      OthersFacts(front, key, i);
      assert front[..i + 1] == l[..i + 1];
    }
  }

  /**
    A store that is refused for its size changes nothing. One that is accepted puts its entry in front of those under other
    keys, and of these drops as few as the limits allow, from the back.
   */
  lemma SetFacts(l: seq<Entry>, key: QueryKey, result: CachedResult, now: int, limits: Limits)
    requires DistinctKeys(l) && limits.maxEntries >= 1
    ensures var r, all := Set(l, key, result, now, limits), [Entry(key, result, now + limits.ttl)] + Others(l, key);
            && DistinctKeys(r)
            && (forall e :: e in r ==> e in l || e == Entry(key, result, now + limits.ttl))
            && (Fits(l, limits) || result.size <= limits.maxBytes ==> Fits(r, limits))
            && (if result.size <= limits.maxBytes then |r| > 0 && r[0] == Entry(key, result, now + limits.ttl) else r == l)
            && (result.size <= limits.maxBytes ==>
                 r <= all && forall n :: |r| < n <= |all| ==> !Fits(all[..n], limits))
  {
    hide Without, Fits, Evict, Others, Has, DistinctKeys;
    if result.size <= limits.maxBytes {
      var first := Entry(key, result, now + limits.ttl);
      WithoutFacts(l, key);
      WithoutIsOthers(l, key);
      EvictedFacts(first, Without(l, key), limits);
      assert Set(l, key, result, now, limits) == Evict([first] + Others(l, key), limits);
      hide Set;
    }
  }

  lemma EvictedFacts(first: Entry, r: seq<Entry>, limits: Limits)
    requires limits.maxEntries >= 1 && first.result.size <= limits.maxBytes
    requires DistinctKeys(r) && !Has(r, first.key)
    ensures var all, kept := [first] + r, Evict([first] + r, limits);
            && |kept| > 0 && kept[0] == first && kept <= all && DistinctKeys(kept) && Fits(kept, limits)
            && (forall n :: |kept| < n <= |all| ==> !Fits(all[..n], limits))
            && (forall e :: e in kept ==> e == first || e in r)
  {
    FrontSurvives(first, r, limits);
    EvictionIsMinimal([first] + r, limits);
    hide Fits, Evict;
    var kept := Evict([first] + r, limits);
    assert forall j :: 0 < j < |kept| ==> kept[j] == r[j - 1] && kept[j] in r;
  }

  /** The other entries used no earlier than the i-th leave room for it beside the new one. */
  ghost predicate LeavesRoom(l: seq<Entry>, i: nat, first: Entry, limits: Limits)
    requires i < |l|
  {
    Fits([first] + Others(l[..i + 1], first.key), limits)
  }

  /** An accepted store drops an entry under another key exactly if there is no room for it. */
  lemma StaysExactlyWhen(l: seq<Entry>, i: nat, key: QueryKey, result: CachedResult, now: int, limits: Limits)
    requires DistinctKeys(l) && limits.maxEntries >= 1 && result.size <= limits.maxBytes
    requires i < |l| && l[i].key != key
    ensures l[i] in Set(l, key, result, now, limits) <==> LeavesRoom(l, i, Entry(key, result, now + limits.ttl), limits)
  {
    var first := Entry(key, result, now + limits.ttl);
    var others, upTo := Others(l, key), Others(l[..i + 1], key);
    SetFacts(l, key, result, now, limits);
    OthersFacts(l, key, i);
    OtherKeysOnce(l, key);
    hide Set, Others, Fits, Bytes, DistinctKeys;
    PrefixBehindFirst(first, others, upTo);
    InLongestPrefix([first] + others, Set(l, key, result, now, limits), |upTo|, limits);
  }

  lemma PrefixBehindFirst(first: Entry, l: seq<Entry>, upTo: seq<Entry>)
    requires upTo <= l && upTo != []
    ensures ([first] + l)[..|upTo| + 1] == [first] + upTo && ([first] + l)[|upTo|] == upTo[|upTo| - 1]
  {
  }

  /** Where keys differ, an entry is in the longest prefix that fits exactly if the list up to it fits. */
  lemma InLongestPrefix(all: seq<Entry>, r: seq<Entry>, i: nat, limits: Limits)
    requires DistinctKeys(all) && r <= all && i < |all| && Fits(r, limits)
    requires forall n :: |r| < n <= |all| ==> !Fits(all[..n], limits)
    ensures all[i] in r <==> Fits(all[..i + 1], limits)
  {
    hide Fits, Bytes;
    if i < |r| {
      PrefixFits(r, i + 1, limits);
      assert r[..i + 1] == all[..i + 1] && r[i] == all[i];
    } else {
      assert forall j :: 0 <= j < |r| ==> r[j] == all[j] && all[j].key != all[i].key;
    }
  }

  lemma PrefixFits(l: seq<Entry>, n: nat, limits: Limits)
    requires n <= |l| && Fits(l, limits)
    ensures Fits(l[..n], limits)
  {
    BytesPrefix(l, n);
  }

  lemma OtherKeysOnce(l: seq<Entry>, key: QueryKey)
    requires DistinctKeys(l)
    ensures DistinctKeys(Others(l, key)) && forall e: Entry :: e.key == key ==> DistinctKeys([e] + Others(l, key))
  {
    WithoutFacts(l, key);
    WithoutIsOthers(l, key);
    forall e: Entry | e.key == key ensures DistinctKeys([e] + Others(l, key)) {
      FrontFacts(e, Without(l, key));
    }
  }

  /**
    A lookup finds exactly what is stored under the key and has not expired. It drops an entry only if it expired under the
    key, puts the one it finds in front, and leaves the others in order.
   */
  lemma GetFacts(l: seq<Entry>, key: QueryKey, now: int)
    requires DistinctKeys(l)
    ensures var (found, r) := Get(l, key, now);
            && DistinctKeys(r)
            && (forall v :: found == Some(v) <==> exists e :: e in l && e.key == key && e.result == v && now < e.expiresAt)
            && (forall e :: e in r <==> e in l && (e.key == key ==> now < e.expiresAt))
            && (found.Some? ==> r != [] && r[0].key == key)
            && Others(r, key) == Others(l, key)
  {
    WithoutFacts(l, key);
    WithoutIsOthers(l, key);
    OthersOfOthers(l, key);
    hide Without, Others, DistinctKeys;
    if Has(l, key) {
      var entry := l[Position(l, key)];
      OnlyOne(l, Position(l, key));
      if now < entry.expiresAt {
        OthersOfFront(entry, Without(l, key));
        FrontFacts(entry, Without(l, key));
        assert Get(l, key, now) == (Some(entry.result), [entry] + Without(l, key));
      } else {
        assert Get(l, key, now) == (None, Without(l, key));
      }
      hide Get, Has;
    }
  }

  lemma GetAddsNothing(l: seq<Entry>, key: QueryKey, now: int)
    requires DistinctKeys(l)
    ensures DistinctKeys(Get(l, key, now).1) && forall e :: e in Get(l, key, now).1 ==> e in l
  {
    GetFacts(l, key, now);
  }

  lemma FrontFacts(e: Entry, l: seq<Entry>)
    requires DistinctKeys(l) && !Has(l, e.key)
    ensures DistinctKeys([e] + l) && forall x :: x in [e] + l <==> x == e || x in l
  {
  }

  lemma OnlyOne(l: seq<Entry>, i: nat)
    requires DistinctKeys(l) && i < |l|
    ensures forall e :: e in l && e.key == l[i].key <==> e == l[i]
  {
    assert l[i] in l;
  }

  lemma {:induction false} OthersOfFront(e: Entry, l: seq<Entry>)
    requires !Has(l, e.key)
    ensures Others([e] + l, e.key) == l && Others(l, e.key) == l
  {
    if l == [] {
      assert [e] + l == [e] && [e][..0] == [];
    } else {
      var front := l[..|l| - 1];
      OthersOfFront(e, front);
      assert ([e] + l)[..|l|] == [e] + front;
    }
  }

  lemma OthersOfOthers(l: seq<Entry>, key: QueryKey)
    requires DistinctKeys(l)
    ensures Others(Others(l, key), key) == Others(l, key)
  {
    WithoutFacts(l, key);
    WithoutIsOthers(l, key);
    WithoutIsOthers(Without(l, key), key);
  }

  // ---------- Whole runs of the store ----------

  datatype Op = GetOp(key: QueryKey, now: int) | SetOp(key: QueryKey, result: CachedResult, now: int)

  function Apply(l: seq<Entry>, op: Op, limits: Limits): seq<Entry> {
    match op
    case GetOp(key, now) => Get(l, key, now).1
    case SetOp(key, result, now) => Set(l, key, result, now, limits)
  }

  function Run(ops: seq<Op>, limits: Limits): seq<Entry> {
    if ops == [] then [] else Apply(Run(ops[..|ops| - 1], limits), ops[|ops| - 1], limits)
  }

  /** An operation refreshes its key, except a store that is refused for its size. */
  predicate Uses(op: Op, key: QueryKey, limits: Limits) {
    op.key == key && (op.GetOp? || op.result.size <= limits.maxBytes)
  }

  /** Index of the last operation that used the key, or -1. */
  function LastUse(ops: seq<Op>, key: QueryKey, limits: Limits): int {
    if ops == [] then -1
    else if Uses(ops[|ops| - 1], key, limits) then |ops| - 1
    else LastUse(ops[..|ops| - 1], key, limits)
  }

  /** Index of the last accepted store under the key, or -1. */
  function LastSet(ops: seq<Op>, key: QueryKey, limits: Limits): (i: int)
    ensures -1 <= i < |ops|
    ensures i >= 0 ==> ops[i].SetOp? && ops[i].key == key && ops[i].result.size <= limits.maxBytes
  {
    if ops == [] then -1
    else if ops[|ops| - 1].SetOp? && Uses(ops[|ops| - 1], key, limits) then |ops| - 1
    else LastSet(ops[..|ops| - 1], key, limits)
  }

  /** The entry is the latest accepted store under its key, with that store's expiry. */
  ghost predicate IsLatest(e: Entry, ops: seq<Op>, limits: Limits) {
    var i := LastSet(ops, e.key, limits);
    i >= 0 && e.result == ops[i].result && e.expiresAt == ops[i].now + limits.ttl
  }

  ghost predicate RecencyOrder(l: seq<Entry>, ops: seq<Op>, limits: Limits) {
    forall i, j :: 0 <= i < j < |l| ==> LastUse(ops, l[i].key, limits) > LastUse(ops, l[j].key, limits)
  }

  /** What holds of the recency list after any run: limits, one entry per key, latest values, and recency order. */
  ghost predicate RunShape(l: seq<Entry>, ops: seq<Op>, limits: Limits) {
    && DistinctKeys(l)
    && Fits(l, limits)
    && (forall i :: 0 <= i < |l| ==> IsLatest(l[i], ops, limits))
    && RecencyOrder(l, ops, limits)
  }

  lemma {:induction false} LastUseBounds(ops: seq<Op>, key: QueryKey, limits: Limits)
    ensures -1 <= LastUse(ops, key, limits) < |ops|
  {
    if ops != [] {
      LastUseBounds(ops[..|ops| - 1], key, limits);
    }
  }

  lemma OtherKeysKeepShape(ops: seq<Op>, e: Entry, limits: Limits)
    requires ops != [] && !Uses(ops[|ops| - 1], e.key, limits)
    ensures LastUse(ops, e.key, limits) == LastUse(ops[..|ops| - 1], e.key, limits)
    ensures IsLatest(e, ops[..|ops| - 1], limits) ==> IsLatest(e, ops, limits)
  {
  }

  /** The recency list is ordered by last use and holds only latest values, after every run. */
  lemma {:induction false} EveryRunIsLru(ops: seq<Op>, limits: Limits)
    requires limits.maxEntries >= 1
    ensures RunShape(Run(ops, limits), ops, limits)
  {
    if ops != [] {
      EveryRunIsLru(ops[..|ops| - 1], limits);
      OneMoreOp(Run(ops[..|ops| - 1], limits), ops, limits);
    }
  }

  lemma OneMoreOp(l: seq<Entry>, ops: seq<Op>, limits: Limits)
    requires limits.maxEntries >= 1 && ops != [] && RunShape(l, ops[..|ops| - 1], limits)
    ensures RunShape(Apply(l, ops[|ops| - 1], limits), ops, limits)
  {
    match ops[|ops| - 1]
    case SetOp(key, result, now) =>
      OneMoreSet(l, ops, key, result, now, limits);
    case GetOp(key, now) =>
      OneMoreGet(l, ops, key, now, limits);
  }

  lemma OneMoreSet(l: seq<Entry>, ops: seq<Op>, key: QueryKey, result: CachedResult, now: int, limits: Limits)
    requires limits.maxEntries >= 1 && ops != [] && RunShape(l, ops[..|ops| - 1], limits)
    requires ops[|ops| - 1] == SetOp(key, result, now)
    ensures RunShape(Set(l, key, result, now, limits), ops, limits)
  {
    hide Evict, Without, Fits, RunShape;
    if result.size > limits.maxBytes {
      RefusedKeepsShape(l, ops, limits);
    } else {
      var r := OthersAfterUse(l, ops, limits);
      SetKeepsShape(r, Entry(key, result, now + limits.ttl), ops, limits);
    }
  }

  lemma OneMoreGet(l: seq<Entry>, ops: seq<Op>, key: QueryKey, now: int, limits: Limits)
    requires limits.maxEntries >= 1 && ops != [] && RunShape(l, ops[..|ops| - 1], limits)
    requires ops[|ops| - 1] == GetOp(key, now)
    ensures RunShape(Get(l, key, now).1, ops, limits)
  {
    var r := OthersAfterUse(l, ops, limits);
    if Has(l, key) {
      var i := Position(l, key);
      HitKeepsShape(l, i, ops, limits);
      assert Get(l, key, now).1 == r || Get(l, key, now).1 == [l[i]] + RemoveAt(l, i);
    } else {
      assert Get(l, key, now).1 == r;
    }
  }

  lemma RefusedKeepsShape(l: seq<Entry>, ops: seq<Op>, limits: Limits)
    requires ops != [] && RunShape(l, ops[..|ops| - 1], limits)
    requires ops[|ops| - 1].SetOp? && ops[|ops| - 1].result.size > limits.maxBytes
    ensures RunShape(l, ops, limits)
  {
    forall i | 0 <= i < |l|
      ensures IsLatest(l[i], ops, limits)
      ensures LastUse(ops, l[i].key, limits) == LastUse(ops[..|ops| - 1], l[i].key, limits)
    {
      OtherKeysKeepShape(ops, l[i], limits);
    }
  }

  /** Removing the key an operation uses leaves the others in shape, all of them used earlier than it. */
  lemma OthersAfterUse(l: seq<Entry>, ops: seq<Op>, limits: Limits) returns (r: seq<Entry>)
    requires ops != [] && RunShape(l, ops[..|ops| - 1], limits)
    requires Uses(ops[|ops| - 1], ops[|ops| - 1].key, limits)
    ensures r == Without(l, ops[|ops| - 1].key)
    ensures RunShape(r, ops, limits)
    ensures forall i :: 0 <= i < |r| ==> LastUse(ops, r[i].key, limits) < |ops| - 1
    ensures !Has(r, ops[|ops| - 1].key)
  {
    var key := ops[|ops| - 1].key;
    r := Without(l, key);
    WithoutFacts(l, key);
    forall i | 0 <= i < |r|
      ensures IsLatest(r[i], ops, limits)
      ensures LastUse(ops, r[i].key, limits) == LastUse(ops[..|ops| - 1], r[i].key, limits) < |ops| - 1
    {
      assert r[i] in r;
      OtherKeysKeepShape(ops, r[i], limits);
      LastUseBounds(ops[..|ops| - 1], r[i].key, limits);
    }
    if Has(l, key) {
      var p := Position(l, key);
      BytesRemove(l, p);
      RemovalKeepsOrder(l, p, ops[..|ops| - 1], limits);
    }
    SameUsesSameOrder(r, ops[..|ops| - 1], ops, limits);
  }

  lemma RemovalKeepsOrder(l: seq<Entry>, p: nat, ops: seq<Op>, limits: Limits)
    requires p < |l| && RecencyOrder(l, ops, limits)
    ensures RecencyOrder(RemoveAt(l, p), ops, limits)
  {
    var r := RemoveAt(l, p);
    assert forall i :: 0 <= i < |r| ==> r[i] == l[if i < p then i else i + 1];
  }

  lemma SameUsesSameOrder(r: seq<Entry>, before: seq<Op>, ops: seq<Op>, limits: Limits)
    requires RecencyOrder(r, before, limits)
    requires forall i :: 0 <= i < |r| ==> LastUse(ops, r[i].key, limits) == LastUse(before, r[i].key, limits)
    ensures RecencyOrder(r, ops, limits)
  {
  }

  lemma PushFrontShape(e: Entry, r: seq<Entry>, ops: seq<Op>, limits: Limits)
    requires ops != [] && RunShape(r, ops, limits) && !Has(r, e.key)
    requires IsLatest(e, ops, limits) && Uses(ops[|ops| - 1], e.key, limits)
    requires forall i :: 0 <= i < |r| ==> LastUse(ops, r[i].key, limits) < |ops| - 1
    requires Fits([e] + r, limits)
    ensures RunShape([e] + r, ops, limits)
  {
    var l := [e] + r;
    assert forall i :: 0 < i < |l| ==> l[i] == r[i - 1];
  }

  lemma PrefixKeepsShape(r: seq<Entry>, n: nat, ops: seq<Op>, limits: Limits)
    requires n <= |r| && RunShape(r, ops, limits)
    ensures RunShape(r[..n], ops, limits)
  {
    BytesPrefix(r, n);
  }

  /** With room for one entry and an accepted size, eviction never reaches the front. */
  lemma FrontSurvives(first: Entry, r: seq<Entry>, limits: Limits)
    requires limits.maxEntries >= 1 && first.result.size <= limits.maxBytes
    ensures var kept := Evict([first] + r, limits);
            |kept| >= 1 && |kept| - 1 <= |r| && kept == [first] + r[..|kept| - 1] && Fits(kept, limits)
  {
    var pushed := [first] + r;
    EvictionIsMinimal(pushed, limits);
    assert pushed[..1] == [first];
    assert Bytes([first]) == Bytes([first][..0]) + first.result.size;
    assert Fits(pushed[..1], limits);
    var kept := Evict(pushed, limits);
    assert kept == pushed[..|kept|] == [first] + r[..|kept| - 1];
  }

  lemma SetKeepsShape(r: seq<Entry>, first: Entry, ops: seq<Op>, limits: Limits)
    requires limits.maxEntries >= 1 && first.result.size <= limits.maxBytes
    requires ops != [] && RunShape(r, ops, limits) && !Has(r, first.key)
    requires IsLatest(first, ops, limits) && Uses(ops[|ops| - 1], first.key, limits)
    requires forall i :: 0 <= i < |r| ==> LastUse(ops, r[i].key, limits) < |ops| - 1
    ensures RunShape(Evict([first] + r, limits), ops, limits)
  {
    FrontSurvives(first, r, limits);
    var n := |Evict([first] + r, limits)| - 1;
    PrefixKeepsShape(r, n, ops, limits);
    assert forall i :: 0 <= i < n ==> r[..n][i] == r[i];
    PushFrontShape(first, r[..n], ops, limits);
  }

  lemma HitKeepsShape(l: seq<Entry>, i: nat, ops: seq<Op>, limits: Limits)
    requires ops != [] && ops[|ops| - 1].GetOp? && i < |l| && l[i].key == ops[|ops| - 1].key
    requires RunShape(l, ops[..|ops| - 1], limits)
    requires var r := RemoveAt(l, i);
             && RunShape(r, ops, limits)
             && (forall i :: 0 <= i < |r| ==> LastUse(ops, r[i].key, limits) < |ops| - 1)
             && !Has(r, l[i].key)
    ensures RunShape([l[i]] + RemoveAt(l, i), ops, limits)
  {
    BytesRemove(l, i);
    BytesPushFront(l[i], RemoveAt(l, i));
    PushFrontShape(l[i], RemoveAt(l, i), ops, limits);
  }

  /** After any run, a served result is the latest accepted one for its key and has not expired. */
  lemma ServedIsLatestAndLive(ops: seq<Op>, key: QueryKey, now: int, limits: Limits)
    requires limits.maxEntries >= 1
    ensures var (found, _) := Get(Run(ops, limits), key, now);
            found.Some? ==>
              var i := LastSet(ops, key, limits);
              i >= 0 && found.value == ops[i].result && now < ops[i].now + limits.ttl
  {
    EveryRunIsLru(ops, limits);
    var l := Run(ops, limits);
    if Has(l, key) {
      assert IsLatest(l[Position(l, key)], ops, limits);
    }
  }

  // ---------- What is served over whole runs ----------

  function StoredBy(op: Op, limits: Limits): Entry
    requires op.SetOp?
  {
    Entry(op.key, op.result, op.now + limits.ttl)
  }

  /** A lookup spares what has not expired or is under another key; an accepted store what it leaves room for. */
  ghost predicate Spares(l: seq<Entry>, op: Op, e: Entry, limits: Limits) {
    match op
    case GetOp(key, now) => key == e.key ==> now < e.expiresAt
    case SetOp(key, result, now) =>
      result.size <= limits.maxBytes ==>
        key != e.key && forall i :: 0 <= i < |l| && l[i] == e ==> LeavesRoom(l, i, StoredBy(op, limits), limits)
  }

  lemma SparedExactlyWhen(l: seq<Entry>, op: Op, e: Entry, limits: Limits)
    requires DistinctKeys(l) && limits.maxEntries >= 1
    requires op.SetOp? && op.key == e.key ==> op.result.size > limits.maxBytes
    ensures e in Apply(l, op, limits) <==> e in l && Spares(l, op, e, limits)
  {
    if op.GetOp? {
      GetFacts(l, op.key, op.now);
      hide Get, Others, DistinctKeys;
    } else if op.result.size <= limits.maxBytes {
      StoreSparesExactlyWhen(l, op, e, limits);
      hide Set;
    }
  }

  lemma StoreSparesExactlyWhen(l: seq<Entry>, op: Op, e: Entry, limits: Limits)
    requires DistinctKeys(l) && limits.maxEntries >= 1
    requires op.SetOp? && op.key != e.key && op.result.size <= limits.maxBytes
    ensures e in Set(l, op.key, op.result, op.now, limits) <==> e in l && Spares(l, op, e, limits)
  {
    SetFacts(l, op.key, op.result, op.now, limits);
    hide Set, Others, LeavesRoom, Fits, Bytes;
    forall i | 0 <= i < |l| && l[i] == e
      ensures e in Set(l, op.key, op.result, op.now, limits) <==> LeavesRoom(l, i, StoredBy(op, limits), limits)
    {
      StaysExactlyWhen(l, i, op.key, op.result, op.now, limits);
    }
    hide DistinctKeys;
  }

  /** Every operation after the i-th has spared the entry. */
  ghost predicate SparedSince(ops: seq<Op>, i: nat, e: Entry, limits: Limits) {
    forall j :: i < j < |ops| ==> Spares(Run(ops[..j], limits), ops[j], e, limits)
  }

  lemma SparedOneMore(ops: seq<Op>, i: nat, e: Entry, limits: Limits)
    requires i < |ops| - 1
    ensures var last := |ops| - 1;
            SparedSince(ops, i, e, limits) <==>
              SparedSince(ops[..last], i, e, limits) && Spares(Run(ops[..last], limits), ops[last], e, limits)
  {
    hide Run, Spares;
    var before := ops[..|ops| - 1];
    assert forall j :: 0 <= j < |before| ==> before[j] == ops[j] && before[..j] == ops[..j];
  }

  /** The latest accepted store under the key has been spared by every operation since. */
  ghost predicate Unspoilt(ops: seq<Op>, key: QueryKey, limits: Limits) {
    var i := LastSet(ops, key, limits);
    i >= 0 && SparedSince(ops, i, StoredBy(ops[i], limits), limits)
  }

  lemma {:induction false} HeldExactlyWhen(ops: seq<Op>, key: QueryKey, limits: Limits)
    requires limits.maxEntries >= 1 && LastSet(ops, key, limits) >= 0
    ensures StoredBy(ops[LastSet(ops, key, limits)], limits) in Run(ops, limits) <==> Unspoilt(ops, key, limits)
  {
    var i, last := LastSet(ops, key, limits), |ops| - 1;
    var e, before := StoredBy(ops[i], limits), ops[..last];
    EveryRunIsLru(before, limits);
    hide Spares, Fits, IsLatest, RecencyOrder;
    if i == last {
      SetFacts(Run(before, limits), key, ops[i].result, ops[i].now, limits);
      hide Set;
      assert Run(ops, limits)[0] == e;
    } else {
      HeldExactlyWhen(before, key, limits);
      SparedExactlyWhen(Run(before, limits), ops[last], e, limits);
      SparedOneMore(ops, i, e, limits);
      hide SparedSince, Apply, DistinctKeys;
    }
  }

  /**
    After every run a key is served exactly if its latest accepted store has not expired and each operation since has
    spared it: no lookup found it expired, and no accepted store left it no room beside what was used since.
   */
  lemma ServedExactlyWhen(ops: seq<Op>, key: QueryKey, now: int, v: CachedResult, limits: Limits)
    requires limits.maxEntries >= 1
    ensures Get(Run(ops, limits), key, now).0 == Some(v) <==>
              Unspoilt(ops, key, limits) && ops[LastSet(ops, key, limits)].result == v
              && now < ops[LastSet(ops, key, limits)].now + limits.ttl
  {
    var i := LastSet(ops, key, limits);
    EveryRunIsLru(ops, limits);
    GetFacts(Run(ops, limits), key, now);
    if i >= 0 {
      HeldExactlyWhen(ops, key, limits);
    }
    hide Get, Run, Unspoilt;
    forall e | e in Run(ops, limits) && e.key == key ensures i >= 0 && e == StoredBy(ops[i], limits) {
      assert IsLatest(e, ops, limits);
    }
  }

  // ---------- The store itself ----------

  function KeysOf(l: seq<Entry>): set<QueryKey> {
    set e | e in l :: e.key
  }

  /** The map and the recency list are in bijection, and the counter is the sum of the sizes. */
  ghost predicate Linked(entries: map<QueryKey, Entry>, recency: seq<Entry>, bytes: int) {
    && DistinctKeys(recency)
    && entries.Keys == KeysOf(recency)
    && (forall e :: e in recency ==> entries[e.key] == e)
    && bytes == Bytes(recency)
  }

  lemma {:induction false} MapSize(entries: map<QueryKey, Entry>, recency: seq<Entry>, bytes: int)
    requires Linked(entries, recency, bytes)
    ensures |entries| == |recency|
  {
    if recency == [] {
      assert entries.Keys == {};
    } else {
      UnlinkKeepsLinked(entries, recency, bytes, 0);
      MapSize(entries - {recency[0].key}, RemoveAt(recency, 0), bytes - recency[0].result.size);
      assert (entries - {recency[0].key}).Keys == entries.Keys - {recency[0].key};
      assert recency[0] in recency;
    }
  }

  lemma UnlinkKeepsLinked(entries: map<QueryKey, Entry>, recency: seq<Entry>, bytes: int, i: nat)
    requires Linked(entries, recency, bytes) && i < |recency|
    ensures Linked(entries - {recency[i].key}, RemoveAt(recency, i), bytes - recency[i].result.size)
  {
    var key := recency[i].key;
    SamePosition(recency, key, i);
    WithoutFacts(recency, key);
    BytesRemove(recency, i);
    assert KeysOf(Without(recency, key)) == KeysOf(recency) - {key};
  }

  lemma PushKeepsLinked(entries: map<QueryKey, Entry>, recency: seq<Entry>, bytes: int, e: Entry)
    requires Linked(entries, recency, bytes) && e.key !in entries
    ensures Linked(entries[e.key := e], [e] + recency, bytes + e.result.size)
  {
    var r := [e] + recency;
    BytesPushFront(e, recency);
    assert forall j :: 0 < j < |r| ==> r[j] == recency[j - 1] && r[j] in recency;
    assert KeysOf(r) == KeysOf(recency) + {e.key} by {
      assert forall x :: x in r <==> x == e || x in recency;
    }
  }

  lemma KeyIsListed(entries: map<QueryKey, Entry>, recency: seq<Entry>, bytes: int, key: QueryKey)
    requires Linked(entries, recency, bytes)
    ensures key in entries <==> Has(recency, key)
    ensures key in entries ==> entries[key] == recency[Position(recency, key)]
  {
    if Has(recency, key) {
      assert recency[Position(recency, key)] in recency;
    }
  }

  lemma {:induction false} SamePosition(l: seq<Entry>, key: QueryKey, i: nat)
    requires DistinctKeys(l) && i < |l| && l[i].key == key
    ensures Has(l, key) && Position(l, key) == i
  {
  }

  lemma PopStep(l: seq<Entry>, n: nat, limits: Limits)
    requires n <= |l| && !Fits(l[..n], limits)
    ensures n > 0
    ensures KeptLength(l, n, limits) == KeptLength(l, n - 1, limits)
    ensures l[..n][..n - 1] == l[..n - 1]
  {
    if n == 0 {
      assert Bytes(l[..0]) == 0;
    }
  }

  /** What is left so far is a prefix that eviction still has to cut in the same way. */
  ghost predicate Evicting(l: seq<Entry>, left: seq<Entry>, limits: Limits) {
    left <= l && KeptLength(l, |left|, limits) == KeptLength(l, |l|, limits)
  }

  lemma EvictingStarts(l: seq<Entry>, limits: Limits)
    ensures Evicting(l, l, limits)
  {
  }

  lemma EvictingGoesOn(entries: map<QueryKey, Entry>, left: seq<Entry>, bytes: int, l: seq<Entry>, limits: Limits)
    requires Linked(entries, left, bytes) && Evicting(l, left, limits)
    requires |entries| > limits.maxEntries || bytes > limits.maxBytes
    ensures left != [] && Evicting(l, left[..|left| - 1], limits)
  {
    MapSize(entries, left, bytes);
    assert l[..|left|] == left && !Fits(left, limits);
    hide Linked, Fits, Bytes;
    PopStep(l, |left|, limits);
    assert left[..|left| - 1] == l[..|left| - 1];
  }

  lemma EvictingEnds(entries: map<QueryKey, Entry>, left: seq<Entry>, bytes: int, l: seq<Entry>, limits: Limits)
    requires Linked(entries, left, bytes) && Evicting(l, left, limits)
    requires |entries| <= limits.maxEntries && bytes <= limits.maxBytes
    ensures left == Evict(l, limits) && Fits(left, limits)
  {
    MapSize(entries, left, bytes);
    assert l[..|left|] == left;
  }

  class MemoryStore {
    var entries: map<QueryKey, Entry>
    var recency: seq<Entry>
    var bytes: int
    const limits: Limits

    ghost predicate Valid()
      reads this
    {
      && limits.maxEntries >= 1
      && Linked(entries, recency, bytes)
      && Fits(recency, limits)
    }

    constructor (limits: Limits)
      requires limits.maxEntries >= 1
      ensures Valid() && recency == [] && this.limits == limits
    {
      entries := map[];
      recency := [];
      bytes := 0;
      this.limits := limits;
    }

    method Lookup(key: QueryKey, now: int) returns (found: Option<CachedResult>)
      requires Valid()
      modifies this
      ensures Valid()
      ensures (found, recency) == Get(old(recency), key, now)
    {
      KeyIsListed(entries, recency, bytes, key);
      if key !in entries {
        return None;
      }
      var element := entries[key];
      BytesRemove(recency, Position(recency, key));
      BytesPushFront(element, Without(recency, key));
      Remove(element);
      if !(now < element.expiresAt) {
        return None;
      }
      // MoveToFront: the element is linked again at the head of the list.
      PushFront(element);
      return Some(element.result);
    }

    method Store(key: QueryKey, result: CachedResult, now: int)
      requires Valid()
      modifies this
      ensures Valid()
      ensures recency == Set(old(recency), key, result, now, limits)
    {
      hide Evict, Without, Linked, Fits;
      if result.size > limits.maxBytes {
        return;
      }
      Drop(key);
      PushFront(Entry(key, result, now + limits.ttl));
      EvictOverflow();
    }

    method Drop(key: QueryKey)
      requires Linked(entries, recency, bytes)
      modifies this
      ensures Linked(entries, recency, bytes) && key !in entries
      ensures recency == Without(old(recency), key)
    {
      KeyIsListed(entries, recency, bytes, key);
      if key in entries {
        Remove(entries[key]);
      }
    }

    method EvictOverflow()
      requires Linked(entries, recency, bytes)
      modifies this
      ensures Linked(entries, recency, bytes)
      ensures recency == Evict(old(recency), limits) && Fits(recency, limits)
    {
      ghost var l := recency;
      EvictingStarts(recency, limits);
      hide Linked, Evicting, Evict, Fits;
      while |entries| > limits.maxEntries || bytes > limits.maxBytes
        invariant Linked(entries, recency, bytes) && Evicting(l, recency, limits)
        decreases |recency|
      {
        EvictingGoesOn(entries, recency, bytes, l, limits);
        PopBack();
      }
      EvictingEnds(entries, recency, bytes, l, limits);
    }

    /** Unlinks the least recently used element. */
    method PopBack()
      requires Linked(entries, recency, bytes) && recency != []
      modifies this
      ensures Linked(entries, recency, bytes) && |entries| == |recency| && bytes == Bytes(recency)
      ensures recency == old(recency)[..|old(recency)| - 1]
    {
      ghost var n := |recency| - 1;
      SamePosition(recency, recency[n].key, n);
      assert RemoveAt(recency, n) == recency[..n];
      Remove(recency[|recency| - 1]);
      MapSize(entries, recency, bytes);
    }

    /** Unlinks one element from the map, the list and the byte count. */
    method Remove(element: Entry)
      requires Linked(entries, recency, bytes) && element in recency
      modifies this
      ensures Linked(entries, recency, bytes)
      ensures recency == Without(old(recency), element.key)
      ensures entries == old(entries) - {element.key}
    {
      var i := Position(recency, element.key);
      assert recency[i] == element;
      UnlinkKeepsLinked(entries, recency, bytes, i);
      entries := entries - {element.key};
      recency := RemoveAt(recency, i);
      bytes := bytes - element.result.size;
    }

    method PushFront(element: Entry)
      requires Linked(entries, recency, bytes) && element.key !in entries
      modifies this
      ensures Linked(entries, recency, bytes)
      ensures recency == [element] + old(recency)
      ensures entries == old(entries)[element.key := element]
    {
      PushKeepsLinked(entries, recency, bytes, element);
      recency := [element] + recency;
      entries := entries[element.key := element];
      bytes := bytes + element.result.size;
    }
  }
}
