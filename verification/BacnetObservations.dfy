/** What a refresh of a BACnet scope makes of its observations: which stand, and which devices conflict. */
module BacnetObservations {
  import opened Options
  import opened Texts

  // ---------- Sorting by rank ----------

  /** Ranks compare by number first, then by text. */
  type Rank = (nat, string)

  predicate RankLess(a: Rank, b: Rank) {
    a.0 < b.0 || (a.0 == b.0 && TextLess(a.1, b.1))
  }

  lemma RankLessTotal(a: Rank, b: Rank)
    ensures RankLess(a, b) || a == b || RankLess(b, a)
    ensures !(RankLess(a, b) && RankLess(b, a)) && !RankLess(a, a)
  {
    TextLessTotal(a.1, b.1);
    TextLessTotal(a.1, a.1);
  }

  lemma RankLessTransitive(a: Rank, b: Rank, c: Rank)
    requires RankLess(a, b) && RankLess(b, c)
    ensures RankLess(a, c)
  {
    if a.0 == b.0 == c.0 {
      TextLessTransitive(a.1, b.1, c.1);
    }
  }

  predicate Ranked<T>(items: seq<T>, rank: T -> Rank) {
    forall i, j :: 0 <= i < j < |items| ==> RankLess(rank(items[i]), rank(items[j]))
  }

  predicate DistinctRanks<T>(items: seq<T>, rank: T -> Rank) {
    forall i, j :: 0 <= i < j < |items| ==> rank(items[i]) != rank(items[j])
  }

  /** Equal ranks are found in one place only. */
  lemma SameRankSameItem<T>(items: seq<T>, rank: T -> Rank, x: T, y: T)
    requires DistinctRanks(items, rank) && x in items && y in items && rank(x) == rank(y)
    ensures x == y
  {
    var i :| 0 <= i < |items| && items[i] == x;
    var j :| 0 <= j < |items| && items[j] == y;
    assert i < j ==> rank(items[i]) != rank(items[j]);
    assert j < i ==> rank(items[j]) != rank(items[i]);
  }

  lemma RankedIsDistinct<T>(items: seq<T>, rank: T -> Rank)
    requires Ranked(items, rank)
    ensures DistinctRanks(items, rank)
  {
    forall i, j | 0 <= i < j < |items| ensures rank(items[i]) != rank(items[j]) {
      RankLessTotal(rank(items[i]), rank(items[j]));
    }
  }

  /** A ranked sequence is determined by its items. */
  lemma {:induction false} RankedIsUnique<T>(a: seq<T>, b: seq<T>, rank: T -> Rank)
    requires Ranked(a, rank) && Ranked(b, rank) && forall x :: x in a <==> x in b
    ensures a == b
    decreases |a|
  {
    assert b != [] ==> b[0] in b;
    if a != [] {
      assert a[0] in b && b[0] in a;
      RankLessTotal(rank(a[0]), rank(b[0]));
      assert a[0] == b[0];
      forall x ensures x in a[1..] <==> x in b[1..] {
        RestOfRanked(a, rank, x);
        RestOfRanked(b, rank, x);
      }
      RankedIsUnique(a[1..], b[1..], rank);
      assert a == [a[0]] + a[1..] && b == [b[0]] + b[1..];
    }
  }

  lemma RestOfRanked<T>(a: seq<T>, rank: T -> Rank, x: T)
    requires a != [] && Ranked(a, rank)
    ensures x in a[1..] <==> x in a && x != a[0]
  {
    RankLessTotal(rank(a[0]), rank(a[0]));
    if x in a && x != a[0] {
      var i :| 0 < i < |a| && a[i] == x;
      assert a[1..][i - 1] == x;
    }
  }

  /** Where an item belongs in a ranked sequence. */
  method PlaceOf<T>(sorted: seq<T>, x: T, rank: T -> Rank) returns (i: nat)
    requires Ranked(sorted, rank) && forall y :: y in sorted ==> rank(y) != rank(x)
    ensures i <= |sorted| && Ranked(sorted[..i] + [x] + sorted[i..], rank)
  {
    i := 0;
    while i < |sorted| && RankLess(rank(sorted[i]), rank(x))
      invariant i <= |sorted|
      invariant forall k :: 0 <= k < i ==> RankLess(rank(sorted[k]), rank(x))
    {
      i := i + 1;
    }
    forall k | i <= k < |sorted| ensures RankLess(rank(x), rank(sorted[k])) {
      assert sorted[i] in sorted;
      RankLessTotal(rank(sorted[i]), rank(x));
      if i < k {
        RankLessTransitive(rank(x), rank(sorted[i]), rank(sorted[k]));
      }
    }
  }

  /** Items of distinct ranks, sorted. */
  method SortBy<T>(items: seq<T>, rank: T -> Rank) returns (sorted: seq<T>)
    requires DistinctRanks(items, rank)
    ensures Ranked(sorted, rank) && |sorted| == |items|
    ensures forall x :: x in sorted <==> x in items
  {
    sorted := [];
    for n := 0 to |items|
      invariant Ranked(sorted, rank) && |sorted| == n
      invariant forall x :: x in sorted <==> x in items[..n]
    {
      var x := items[n];
      forall y | y in sorted ensures rank(y) != rank(x) {
        var k :| 0 <= k < n && items[k] == y;
      }
      var i := PlaceOf(sorted, x, rank);
      var next := sorted[..i] + [x] + sorted[i..];
      forall y ensures y in next <==> y == x || y in sorted {
        assert sorted == sorted[..i] + sorted[i..];
      }
      assert items[..n + 1] == items[..n] + [x];
      sorted := next;
    }
    assert items[..|items|] == items;
  }

  // ---------- Observations ----------

  /** A route by its canonical text; routes of the same text may differ in the size of message they allow. */
  datatype Route = Route(canonical: string, valid: bool, maxApdu: nat)

  /** A sighting of a device, or a configured route to one; the time 0 is no time. */
  datatype Observation = Observation(instance: nat, route: Route, lastSeen: nat, vendor: Option<nat>, configured: bool)

  datatype Bounds = Bounds(low: Option<nat>, high: Option<nat>)

  predicate InBounds(instance: nat, b: Bounds) {
    (b.low.None? || instance >= b.low.value) && (b.high.None? || instance <= b.high.value)
  }

  function KeyOf(o: Observation): Rank {
    (o.instance, o.route.canonical)
  }

  predicate Usable(o: Observation, b: Bounds) {
    InBounds(o.instance, b) && o.route.valid
  }

  /** The observation that stands for a device and route: later ones replace it if newer or configured. */
  function Kept(input: seq<Observation>, b: Bounds, key: Rank): (r: Option<Observation>)
    ensures r.Some? ==> KeyOf(r.value) == key && Usable(r.value, b) && r.value in input
  {
    if input == [] then None
    else
      var earlier, o := Kept(input[..|input| - 1], b, key), input[|input| - 1];
      if !Usable(o, b) || KeyOf(o) != key then earlier
      else if earlier.None? || o.lastSeen > earlier.value.lastSeen || o.configured then Some(o)
      else earlier
  }

  /** Every usable observation has one standing for its device and route. */
  lemma {:induction false} UsableIsKept(input: seq<Observation>, b: Bounds, o: Observation)
    requires o in input && Usable(o, b)
    ensures Kept(input, b, KeyOf(o)).Some?
  {
    var start := input[..|input| - 1];
    assert input == start + [input[|input| - 1]];
    if o in start {
      UsableIsKept(start, b, o);
    }
  }

  /** The i-th configured route is the last of its kind. */
  ghost predicate LastConfigured(configured: seq<Observation>, b: Bounds, key: Rank, o: Observation, i: int) {
    && 0 <= i < |configured| && configured[i] == o
    && forall j :: i < j < |configured| ==> !(Usable(configured[j], b) && KeyOf(configured[j]) == key)
  }

  /** The i-th sighting is the newest of its kind, and the first as new as it is. */
  ghost predicate FirstNewest(sightings: seq<Observation>, b: Bounds, key: Rank, o: Observation, i: int) {
    && 0 <= i < |sightings| && sightings[i] == o
    && forall j :: 0 <= j < |sightings| && Usable(sightings[j], b) && KeyOf(sightings[j]) == key ==>
         sightings[j].lastSeen <= o.lastSeen && (j < i ==> sightings[j].lastSeen < o.lastSeen)
  }

  /** With the configured routes last, the last of those stands if there is one, and otherwise the first newest sighting. */
  lemma {:induction false} WhichIsKept(sightings: seq<Observation>, configured: seq<Observation>, b: Bounds, key: Rank)
    requires forall o :: o in sightings ==> !o.configured
    requires forall o :: o in configured ==> o.configured
    ensures var r := Kept(sightings + configured, b, key);
            && (r.Some? && r.value.configured <==> exists o :: o in configured && Usable(o, b) && KeyOf(o) == key)
            && (r.Some? && r.value.configured ==> exists i :: LastConfigured(configured, b, key, r.value, i))
            && (r.Some? && !r.value.configured ==> exists i :: FirstNewest(sightings, b, key, r.value, i))
    decreases |configured|
  {
    var input := sightings + configured;
    if configured == [] {
      assert input == sightings;
      NewestIsKept(sightings, b, key);
    } else {
      var start, last := configured[..|configured| - 1], configured[|configured| - 1];
      assert input[..|input| - 1] == sightings + start && configured == start + [last];
      WhichIsKept(sightings, start, b, key);
      hide FirstNewest;
      var r := Kept(input, b, key);
      if r.Some? && r.value.configured {
        if Usable(last, b) && KeyOf(last) == key {
          assert LastConfigured(configured, b, key, last, |start|);
        } else {
          var i :| LastConfigured(start, b, key, r.value, i);
          assert LastConfigured(configured, b, key, r.value, i);
        }
      }
    }
  }

  lemma {:induction false} NewestIsKept(sightings: seq<Observation>, b: Bounds, key: Rank)
    requires forall o :: o in sightings ==> !o.configured
    ensures var r := Kept(sightings, b, key);
            r.Some? ==> !r.value.configured && exists i :: FirstNewest(sightings, b, key, r.value, i)
  {
    if sightings != [] {
      var start, last := sightings[..|sightings| - 1], sightings[|sightings| - 1];
      assert sightings == start + [last];
      NewestIsKept(start, b, key);
      var earlier, r := Kept(start, b, key), Kept(sightings, b, key);
      forall o | o in start && Usable(o, b) && KeyOf(o) == key ensures earlier.Some? {
        UsableIsKept(start, b, o);
      }
      if earlier.Some? {
        var i :| FirstNewest(start, b, key, earlier.value, i);
        OneMoreSighting(start, last, b, key, earlier.value, i);
      } else if r.Some? {
        assert forall j :: 0 <= j < |start| ==> start[j] in start && sightings[j] == start[j];
        assert FirstNewest(sightings, b, key, last, |start|);
      }
      hide FirstNewest;
    }
  }

  lemma OneMoreSighting(start: seq<Observation>, last: Observation, b: Bounds, key: Rank, earlier: Observation, i: int)
    requires FirstNewest(start, b, key, earlier, i)
    ensures var newer := Usable(last, b) && KeyOf(last) == key && last.lastSeen > earlier.lastSeen;
            FirstNewest(start + [last], b, key, if newer then last else earlier, if newer then |start| else i)
  {
    var all := start + [last];
    assert forall j :: 0 <= j < |start| ==> all[j] == start[j];
  }

  /** The kept observations, one for each device and route, in order. */
  ghost predicate Normalized(input: seq<Observation>, b: Bounds, normal: seq<Observation>) {
    && Ranked(normal, KeyOf)
    && (forall o :: o in normal <==> Kept(input, b, KeyOf(o)) == Some(o))
  }

  method NormalizeObservations(input: seq<Observation>, b: Bounds) returns (normal: seq<Observation>)
    ensures Normalized(input, b, normal)
  {
    var byRoute: map<Rank, Observation> := map[];
    for i := 0 to |input|
      invariant forall key :: key in byRoute <==> Kept(input[..i], b, key).Some?
      invariant forall key :: key in byRoute ==> Kept(input[..i], b, key) == Some(byRoute[key])
    {
      assert input[..i + 1][..i] == input[..i];
      var o := input[i];
      if Usable(o, b) {
        var key := KeyOf(o);
        if key !in byRoute || o.lastSeen > byRoute[key].lastSeen || o.configured {
          byRoute := byRoute[key := o];
        }
      }
    }
    assert input[..|input|] == input;
    var values: seq<Observation>, rest := [], byRoute.Keys;
    while rest != {}
      invariant rest <= byRoute.Keys && DistinctRanks(values, KeyOf)
      invariant forall o :: o in values <==> KeyOf(o) in byRoute && KeyOf(o) !in rest && byRoute[KeyOf(o)] == o
      decreases rest
    {
      var key :| key in rest;
      values := values + [byRoute[key]];
      rest := rest - {key};
    }
    normal := SortBy(values, KeyOf);
  }

  // ---------- Conflicts ----------

  /** The only kept observation of a device. */
  ghost predicate Sole(input: seq<Observation>, b: Bounds, o: Observation) {
    && Kept(input, b, KeyOf(o)) == Some(o)
    && forall c :: Kept(input, b, (o.instance, c)).Some? ==> c == o.route.canonical
  }

  /** A device was observed on two routes. */
  ghost predicate Conflicting(input: seq<Observation>, b: Bounds, instance: nat) {
    exists c, other :: c != other && Kept(input, b, (instance, c)).Some? && Kept(input, b, (instance, other)).Some?
  }

  ghost predicate Observed(input: seq<Observation>, b: Bounds, instance: nat) {
    exists c :: Kept(input, b, (instance, c)).Some?
  }

  /** The observation a device is observed by alone, if there is one. */
  ghost function SoleOf(input: seq<Observation>, b: Bounds, instance: nat): (r: Option<Observation>)
    ensures r.Some? ==> r.value.instance == instance && Sole(input, b, r.value)
    ensures r.None? ==> forall o: Observation :: o.instance == instance ==> !Sole(input, b, o)
  {
    if o: Observation :| o.instance == instance && Sole(input, b, o) then Some(o) else None
  }

  /** An observed device is either observed by one observation alone or conflicting. */
  lemma OneOrMany(input: seq<Observation>, b: Bounds, instance: nat)
    ensures Observed(input, b, instance) <==> Conflicting(input, b, instance) || SoleOf(input, b, instance).Some?
    ensures !(Conflicting(input, b, instance) && SoleOf(input, b, instance).Some?)
    ensures forall o: Observation :: o.instance == instance && Sole(input, b, o) ==> SoleOf(input, b, instance) == Some(o)
  {
    if c :| Kept(input, b, (instance, c)).Some? {
      var o := Kept(input, b, (instance, c)).value;
      if !Sole(input, b, o) {
        var other :| Kept(input, b, (instance, other)).Some? && other != c;
        assert Conflicting(input, b, instance);
      }
    }
  }

  datatype Duplicate = Duplicate(instance: nat, routes: seq<Route>)

  /** Some standing observation of the device is on the route. */
  ghost predicate StandsOn(input: seq<Observation>, b: Bounds, instance: nat, r: Route) {
    var kept := Kept(input, b, (instance, r.canonical));
    kept.Some? && kept.value.route == r
  }

  /** All observations of a device, in order. */
  function Of(observations: seq<Observation>, instance: nat): (r: seq<Observation>)
    ensures forall o :: o in r <==> o in observations && o.instance == instance
  {
    if observations == [] then []
    else
      var start, o := observations[..|observations| - 1], observations[|observations| - 1];
      assert observations == start + [o];
      if o.instance == instance then Of(start, instance) + [o] else Of(start, instance)
  }

  lemma {:induction false} OfIsRanked(observations: seq<Observation>, instance: nat)
    requires Ranked(observations, KeyOf)
    ensures Ranked(Of(observations, instance), KeyOf)
  {
    if observations != [] {
      var start, o := observations[..|observations| - 1], observations[|observations| - 1];
      OfIsRanked(start, instance);
      forall p | p in Of(start, instance) ensures RankLess(KeyOf(p), KeyOf(o)) {
        var i :| 0 <= i < |start| && start[i] == p;
        assert observations[i] == p;
      }
    }
  }

  function ByInstance(o: Observation): Rank {
    (o.instance, "")
  }

  function DuplicateRank(d: Duplicate): Rank {
    (d.instance, "")
  }

  function RouteRank(r: Route): Rank {
    (0, r.canonical)
  }

  function RoutesOf(observations: seq<Observation>): (routes: seq<Route>)
    ensures |routes| == |observations| && forall i :: 0 <= i < |routes| ==> routes[i] == observations[i].route
  {
    seq(|observations|, i requires 0 <= i < |observations| => observations[i].route)
  }

  /** A conflict report: the device and all routes it was observed on, at least two, in order. */
  ghost predicate Reports(normal: seq<Observation>, d: Duplicate) {
    && |d.routes| == |Of(normal, d.instance)| > 1
    && Ranked(d.routes, RouteRank)
    && (forall r :: r in d.routes <==> r in RoutesOf(Of(normal, d.instance)))
  }

  lemma DistinctMore<T>(items: seq<T>, rank: T -> Rank, x: T)
    requires DistinctRanks(items, rank) && forall y :: y in items ==> rank(y) != rank(x)
    ensures DistinctRanks(items + [x], rank)
  {
  }

  /** A report has exactly the routes of the device's standing observations. */
  lemma ReportMeans(input: seq<Observation>, b: Bounds, normal: seq<Observation>, d: Duplicate)
    requires Normalized(input, b, normal) && Reports(normal, d)
    ensures forall r: Route :: r in d.routes <==> StandsOn(input, b, d.instance, r)
  {
    var of := Of(normal, d.instance);
    forall r: Route ensures r in RoutesOf(of) <==> StandsOn(input, b, d.instance, r) {
      if i :| 0 <= i < |of| && RoutesOf(of)[i] == r {
        assert of[i] in of;
      }
      if StandsOn(input, b, d.instance, r) {
        var o := Kept(input, b, (d.instance, r.canonical)).value;
        assert o in normal && o in of;
        var i :| 0 <= i < |of| && of[i] == o;
        assert RoutesOf(of)[i] == r;
      }
    }
  }

  method Report(normal: seq<Observation>, instance: nat) returns (d: Duplicate)
    requires Ranked(normal, KeyOf) && |Of(normal, instance)| > 1
    ensures d.instance == instance && Reports(normal, d)
  {
    OfIsRanked(normal, instance);
    RoutesDiffer(Of(normal, instance), instance);
    var routes := SortBy(RoutesOf(Of(normal, instance)), RouteRank);
    d := Duplicate(instance, routes);
  }

  /** The observations that stand alone, and the reports of all conflicts, but for the devices that rest. */
  ghost predicate SplitExcept(normal: seq<Observation>, rest: set<nat>, unique: seq<Observation>,
                              duplicates: seq<Duplicate>) {
    && DistinctRanks(unique, ByInstance) && DistinctRanks(duplicates, DuplicateRank)
    && (forall o :: o in unique <==> o.instance !in rest && Of(normal, o.instance) == [o])
    && (forall d :: d in duplicates ==> d.instance !in rest && Reports(normal, d))
    && (forall x :: x !in rest && |Of(normal, x)| > 1 ==> exists d :: d in duplicates && d.instance == x)
  }

  lemma SplitAlone(normal: seq<Observation>, rest: set<nat>, unique: seq<Observation>, duplicates: seq<Duplicate>,
                   o: Observation)
    requires SplitExcept(normal, rest, unique, duplicates) && o.instance in rest && Of(normal, o.instance) == [o]
    ensures SplitExcept(normal, rest - {o.instance}, unique + [o], duplicates)
  {
    hide Of, Reports, DistinctRanks;
    DistinctMore(unique, ByInstance, o);
  }

  lemma SplitReport(normal: seq<Observation>, rest: set<nat>, unique: seq<Observation>, duplicates: seq<Duplicate>,
                    d: Duplicate)
    requires SplitExcept(normal, rest, unique, duplicates) && d.instance in rest && Reports(normal, d)
    ensures SplitExcept(normal, rest - {d.instance}, unique, duplicates + [d])
  {
    assert |Of(normal, d.instance)| > 1;
    hide Of, Reports, DistinctRanks;
    DistinctMore(duplicates, DuplicateRank, d);
    forall x | x !in rest - {d.instance} && |Of(normal, x)| > 1
      ensures exists e :: e in duplicates + [d] && e.instance == x
    {
      if x == d.instance {
        assert d in duplicates + [d];
      } else {
        var e :| e in duplicates && e.instance == x;
        assert e in duplicates + [d];
      }
    }
  }

  method SplitDuplicates(normal: seq<Observation>) returns (unique: seq<Observation>, duplicates: seq<Duplicate>)
    requires Ranked(normal, KeyOf)
    ensures Ranked(unique, ByInstance) && Ranked(duplicates, DuplicateRank)
    ensures forall o :: o in unique <==> Of(normal, o.instance) == [o]
    ensures forall d :: d in duplicates ==> Reports(normal, d)
    ensures forall x :: |Of(normal, x)| > 1 <==> exists d :: d in duplicates && d.instance == x
  {
    var byInstance := GroupByInstance(normal);
    unique, duplicates := [], [];
    var rest := byInstance.Keys;
    while rest != {}
      invariant rest <= byInstance.Keys && SplitExcept(normal, rest, unique, duplicates)
      decreases rest
    {
      hide Of, SplitExcept;
      var x :| x in rest;
      var observations := byInstance[x];
      if |observations| == 1 {
        assert observations == [observations[0]] && observations[0] in observations;
        SplitAlone(normal, rest, unique, duplicates, observations[0]);
        unique := unique + [observations[0]];
      } else {
        var d := Report(normal, x);
        SplitReport(normal, rest, unique, duplicates, d);
        duplicates := duplicates + [d];
      }
      rest := rest - {x};
    }
    hide Of, DistinctRanks, Ranked;
    unique := SortBy(unique, ByInstance);
    duplicates := SortBy(duplicates, DuplicateRank);
    assert forall d :: d in duplicates ==> Reports(normal, d);
  }

  method GroupByInstance(normal: seq<Observation>) returns (byInstance: map<nat, seq<Observation>>)
    ensures forall x :: x in byInstance <==> Of(normal, x) != []
    ensures forall x :: x in byInstance ==> byInstance[x] == Of(normal, x)
  {
    byInstance := map[];
    for i := 0 to |normal|
      invariant forall x :: x in byInstance <==> Of(normal[..i], x) != []
      invariant forall x :: x in byInstance ==> byInstance[x] == Of(normal[..i], x)
    {
      var o := normal[i];
      assert normal[..i + 1][..i] == normal[..i];
      var others := if o.instance in byInstance then byInstance[o.instance] else [];
      byInstance := byInstance[o.instance := others + [o]];
    }
    assert normal[..|normal|] == normal;
  }

  lemma RoutesDiffer(observations: seq<Observation>, instance: nat)
    requires Ranked(observations, KeyOf) && forall o :: o in observations ==> o.instance == instance
    ensures DistinctRanks(RoutesOf(observations), RouteRank)
  {
    RankedIsDistinct(observations, KeyOf);
    var routes := RoutesOf(observations);
    forall i, j | 0 <= i < j < |routes| ensures RouteRank(routes[i]) != RouteRank(routes[j]) {
      assert observations[i] in observations && observations[j] in observations;
      assert KeyOf(observations[i]) != KeyOf(observations[j]);
    }
  }

  /** In terms of the observations themselves: what the split calls unique is observed alone, the rest conflicts. */
  lemma SplitMeans(input: seq<Observation>, b: Bounds, normal: seq<Observation>, instance: nat)
    requires Normalized(input, b, normal)
    ensures forall o: Observation :: o.instance == instance ==> (Of(normal, instance) == [o] <==> Sole(input, b, o))
    ensures |Of(normal, instance)| > 1 <==> Conflicting(input, b, instance)
  {
    var all := Of(normal, instance);
    OfIsRanked(normal, instance);
    RankedIsDistinct(all, KeyOf);
    forall c | Kept(input, b, (instance, c)).Some?
      ensures Kept(input, b, (instance, c)).value in all
    {
    }
    if |all| > 1 {
      assert all[0] in all && all[1] in all;
      assert KeyOf(all[0]) != KeyOf(all[1]);
      assert Kept(input, b, (instance, all[0].route.canonical)).Some?;
      assert Kept(input, b, (instance, all[1].route.canonical)).Some?;
    }
    assert |all| > 1 ==> all[0] in all && all[1] in all;
    forall o: Observation | o.instance == instance ensures all == [o] <==> Sole(input, b, o) {
      if all == [o] {
        assert o in all;
      }
      if Sole(input, b, o) {
        assert o in all;
        forall p | p in all ensures p == o {
          assert Kept(input, b, (instance, p.route.canonical)) == Some(p);
        }
      }
    }
  }
}
