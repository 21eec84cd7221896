/** The registry of BACnet devices, refreshed scope by scope. */
module BacnetRegistry {
  import opened Options
  import opened Texts
  import opened BacnetObservations

  // ---------- Devices ----------

  datatype Identity = Identity(
    vendor: nat, vendorName: string, model: string, firmware: string, software: string, version: nat, revision: nat)

  datatype Issue = DiscoveryFailed | IdentityReadFailed | PropertyUnavailable | DuplicateInstance(instance: nat)
    | ProfileSelection

  datatype Device = Device(
    instance: nat, route: Route, identity: Identity, profile: string, lastSeen: nat, configured: bool, issues: seq<Issue>)

  /** What a client answers to a request for the identity of an observed device. */
  datatype Answer = Answer(identity: Identity, issues: seq<Issue>, failed: bool)

  function DeviceRank(d: Device): Rank {
    (d.instance, "")
  }

  /** The device an observation that stands alone becomes; an unset time is set if the device answered. */
  function Made(o: Observation, answer: Answer, profile: Option<string>, attemptedAt: nat): (d: Device)
    ensures d.instance == o.instance
  {
    var identity :=
      if answer.identity.vendor == 0 && o.vendor.Some? then answer.identity.(vendor := o.vendor.value) else answer.identity;
    var issues :=
      answer.issues + (if answer.failed then [IdentityReadFailed] else []) + (if profile.None? then [ProfileSelection] else []);
    var lastSeen := if !answer.failed && o.lastSeen == 0 then attemptedAt else o.lastSeen;
    Device(o.instance, o.route, identity, if profile.Some? then profile.value else "", lastSeen, o.configured, issues)
  }

  function MergeIdentity(current: Identity, previous: Identity): Identity {
    Identity(
      if current.vendor == 0 then previous.vendor else current.vendor,
      if current.vendorName == "" then previous.vendorName else current.vendorName,
      if current.model == "" then previous.model else current.model,
      if current.firmware == "" then previous.firmware else current.firmware,
      if current.software == "" then previous.software else current.software,
      if current.version == 0 then previous.version else current.version,
      if current.revision == 0 then previous.revision else current.revision)
  }

  predicate HasIdentityIssue(issues: seq<Issue>) {
    IdentityReadFailed in issues || PropertyUnavailable in issues
  }

  /** A device whose identity could not be read keeps what was known of it. */
  function Renewed(current: Device, previous: Option<Device>): (d: Device)
    ensures d.instance == current.instance && d.route == current.route
  {
    if previous.None? || !HasIdentityIssue(current.issues) then current
    else
      var known := previous.value;
      current.(identity := MergeIdentity(current.identity, known.identity),
               profile := if known.profile != "" then known.profile else current.profile,
               lastSeen := if current.lastSeen == 0 then known.lastSeen else current.lastSeen)
  }

  /** A device that was not observed is still listed while it was seen recently enough. */
  predicate Retained(d: Device, now: nat, ttl: int) {
    d.lastSeen != 0 && ttl > 0 && now - d.lastSeen < ttl
  }

  function DeviceOf(devices: seq<Device>, instance: nat): (r: Option<Device>)
    ensures r.Some? ==> r.value in devices && r.value.instance == instance
    ensures r.None? ==> forall d :: d in devices ==> d.instance != instance
  {
    if devices == [] then None
    else if devices[|devices| - 1].instance == instance then Some(devices[|devices| - 1])
    else
      var start := devices[..|devices| - 1];
      assert devices == start + [devices[|devices| - 1]];
      DeviceOf(start, instance)
  }

  // ---------- Merging ----------

  /** A previous device that no current one replaces and no conflict drops, seen recently enough. */
  predicate Stays(current: seq<Device>, conflicts: set<nat>, now: nat, ttl: int, d: Device) {
    DeviceOf(current, d.instance).None? && d.instance !in conflicts && Retained(d, now, ttl)
  }

  /** A current device, with what was known of it. */
  predicate Renews(previous: seq<Device>, current: seq<Device>, d: Device) {
    var c := DeviceOf(current, d.instance);
    c.Some? && d == Renewed(c.value, DeviceOf(previous, d.instance))
  }

  predicate Merges(previous: seq<Device>, current: seq<Device>, conflicts: set<nat>, now: nat, ttl: int, d: Device) {
    Renews(previous, current, d) || (d in previous && Stays(current, conflicts, now, ttl, d))
  }

  method MergeRetainedDevices(previous: seq<Device>, current: seq<Device>, duplicates: seq<Duplicate>, now: nat, ttl: int)
    returns (merged: seq<Device>)
    requires DistinctRanks(previous, DeviceRank) && DistinctRanks(current, DeviceRank)
    ensures Ranked(merged, DeviceRank)
    ensures forall d :: d in merged <==> Merges(previous, current, set x | x in duplicates :: x.instance, now, ttl, d)
  {
    var conflicts := set x | x in duplicates :: x.instance;
    merged := RenewDevices(previous, current);
    ghost var renewed := merged;
    for i := 0 to |previous|
      invariant DistinctRanks(merged, DeviceRank)
      invariant forall d :: d in merged <==>
                  Renews(previous, current, d) || (d in previous[..i] && Stays(current, conflicts, now, ttl, d))
    {
      var d := previous[i];
      assert previous[..i + 1] == previous[..i] + [d];
      if Stays(current, conflicts, now, ttl, d) {
        assert forall e :: e in previous[..i] ==> DeviceRank(e) != DeviceRank(d);
        assert forall e :: Renews(previous, current, e) ==> DeviceRank(e) != DeviceRank(d);
        hide Stays, Renews, DistinctRanks;
        DistinctMore(merged, DeviceRank, d);
        merged := merged + [d];
      }
    }
    assert previous[..|previous|] == previous;
    merged := SortBy(merged, DeviceRank);
  }

  method RenewDevices(previous: seq<Device>, current: seq<Device>) returns (renewed: seq<Device>)
    requires DistinctRanks(current, DeviceRank)
    ensures DistinctRanks(renewed, DeviceRank)
    ensures forall d :: d in renewed <==> Renews(previous, current, d)
  {
    renewed := current;
    for i := 0 to |current|
      invariant |renewed| == |current|
      invariant forall k :: i <= k < |current| ==> renewed[k] == current[k]
      invariant forall k :: 0 <= k < i ==> renewed[k] == Renewed(current[k], DeviceOf(previous, current[k].instance))
    {
      var known := DeviceOf(previous, renewed[i].instance);
      if known.Some? && HasIdentityIssue(renewed[i].issues) {
        renewed := renewed[i := Renewed(renewed[i], known)];
      }
    }
    RenewedAll(previous, current, renewed);
  }

  lemma DeviceIsFound(devices: seq<Device>, d: Device)
    requires DistinctRanks(devices, DeviceRank) && d in devices
    ensures DeviceOf(devices, d.instance) == Some(d)
  {
    SameRankSameItem(devices, DeviceRank, d, DeviceOf(devices, d.instance).value);
  }

  lemma RenewedAll(previous: seq<Device>, current: seq<Device>, renewed: seq<Device>)
    requires DistinctRanks(current, DeviceRank) && |renewed| == |current|
    requires forall k :: 0 <= k < |current| ==> renewed[k] == Renewed(current[k], DeviceOf(previous, current[k].instance))
    ensures DistinctRanks(renewed, DeviceRank)
    ensures forall d :: d in renewed <==> Renews(previous, current, d)
  {
    forall i, j | 0 <= i < j < |renewed| ensures DeviceRank(renewed[i]) != DeviceRank(renewed[j]) {
      assert DeviceRank(current[i]) != DeviceRank(current[j]);
    }
    forall d ensures d in renewed <==> Renews(previous, current, d) {
      if d in renewed {
        var k :| 0 <= k < |renewed| && renewed[k] == d;
        DeviceIsFound(current, current[k]);
      }
      if DeviceOf(current, d.instance).Some? {
        var k :| 0 <= k < |current| && current[k] == DeviceOf(current, d.instance).value;
        assert renewed[k] in renewed;
      }
    }
  }

  // ---------- Refreshing a scope ----------

  datatype ConfiguredDevice = ConfiguredDevice(instance: nat, route: Route)

  datatype Scope = Scope(bounds: Bounds, configured: seq<ConfiguredDevice>, ttl: int)

  datatype ScopeSnapshot = ScopeSnapshot(
    lastAttempt: nat, lastSuccess: nat, devices: seq<Device>, duplicates: seq<Duplicate>, issues: seq<Issue>)

  /** What the client found, and how it answers for each observation. */
  datatype Finding = Finding(
    sightings: seq<Observation>, failed: bool, now: nat, identify: Observation -> Answer, select: (nat, Identity) -> Option<string>)

  function ConfiguredObservations(configured: seq<ConfiguredDevice>): (r: seq<Observation>)
    ensures |r| == |configured| && forall o :: o in r ==> o.configured
  {
    seq(|configured|, i requires 0 <= i < |configured| =>
      Observation(configured[i].instance, configured[i].route, 0, None, true))
  }

  function Input(scope: Scope, f: Finding): seq<Observation> {
    f.sightings + ConfiguredObservations(scope.configured)
  }

  function DeviceFor(f: Finding, o: Observation): (d: Device)
    ensures d.instance == o.instance
  {
    var answer := f.identify(o);
    var identity :=
      if answer.identity.vendor == 0 && o.vendor.Some? then answer.identity.(vendor := o.vendor.value) else answer.identity;
    Made(o, answer, f.select(o.instance, identity), f.now)
  }

  /** The device is listed after a refresh: observed alone it is renewed, unobserved it may stay, in conflict it goes. */
  ghost predicate ListedAfter(scope: Scope, previous: seq<Device>, f: Finding, d: Device) {
    var o := SoleOf(Input(scope, f), scope.bounds, d.instance);
    if o.Some? then d == Renewed(DeviceFor(f, o.value), DeviceOf(previous, d.instance))
    else !Observed(Input(scope, f), scope.bounds, d.instance) && d in previous && Retained(d, f.now, scope.ttl)
  }

  /** The report of a conflict has exactly the routes that the device's observations stand for, in order. */
  ghost predicate ReportsRoutes(scope: Scope, f: Finding, d: Duplicate) {
    && Ranked(d.routes, RouteRank)
    && forall r: Route :: r in d.routes <==> StandsOn(Input(scope, f), scope.bounds, d.instance, r)
  }

  /** The snapshot that a refresh leaves. */
  ghost predicate Refreshed(scope: Scope, was: ScopeSnapshot, f: Finding, s: ScopeSnapshot) {
    && Ranked(s.devices, DeviceRank) && Ranked(s.duplicates, DuplicateRank)
    && (forall d :: d in s.devices <==> ListedAfter(scope, was.devices, f, d))
    && (forall x :: (exists d :: d in s.duplicates && d.instance == x) <==> Conflicting(Input(scope, f), scope.bounds, x))
    && (forall d :: d in s.duplicates ==> ReportsRoutes(scope, f, d))
    && (DiscoveryFailed in s.issues <==> f.failed)
    && (forall x :: DuplicateInstance(x) in s.issues <==> Conflicting(Input(scope, f), scope.bounds, x))
    && s.lastAttempt == f.now
    && s.lastSuccess == (if f.failed || s.duplicates != [] then was.lastSuccess else f.now)
  }

  /** What every snapshot of a scope is. */
  ghost predicate Consistent(scope: Scope, s: ScopeSnapshot) {
    && Ranked(s.devices, DeviceRank) && Ranked(s.duplicates, DuplicateRank)
    && (forall d :: d in s.devices ==> InBounds(d.instance, scope.bounds))
    && (forall x :: x in s.duplicates ==> InBounds(x.instance, scope.bounds))
    && (forall d, x :: d in s.devices && x in s.duplicates ==> d.instance != x.instance)
  }

  lemma ConflictInBounds(input: seq<Observation>, b: Bounds, instance: nat)
    requires Conflicting(input, b, instance)
    ensures InBounds(instance, b)
  {
    var c, other :| c != other && Kept(input, b, (instance, c)).Some? && Kept(input, b, (instance, other)).Some?;
  }

  lemma RefreshKeepsConsistent(scope: Scope, was: ScopeSnapshot, f: Finding, s: ScopeSnapshot)
    requires Consistent(scope, was) && Refreshed(scope, was, f, s)
    ensures Consistent(scope, s)
  {
    forall x | x in s.duplicates
      ensures Conflicting(Input(scope, f), scope.bounds, x.instance) && InBounds(x.instance, scope.bounds)
    {
      assert exists d :: d in s.duplicates && d.instance == x.instance;
      ConflictInBounds(Input(scope, f), scope.bounds, x.instance);
    }
    forall d, x | d in s.devices && x in s.duplicates ensures d.instance != x.instance {
      OneOrMany(Input(scope, f), scope.bounds, d.instance);
    }
  }

  /** A refresh determines the devices and their order, whatever order the observations and old devices were visited in. */
  lemma RefreshIsDetermined(scope: Scope, was: ScopeSnapshot, f: Finding, one: ScopeSnapshot, other: ScopeSnapshot)
    requires Refreshed(scope, was, f, one) && Refreshed(scope, was, f, other)
    ensures one.devices == other.devices && one.duplicates == other.duplicates
  {
    hide ListedAfter, StandsOn, Conflicting;
    RankedIsUnique(one.devices, other.devices, DeviceRank);
    SameReports(scope, was, f, one, other);
    SameReports(scope, was, f, other, one);
    RankedIsUnique(one.duplicates, other.duplicates, DuplicateRank);
  }

  lemma SameReports(scope: Scope, was: ScopeSnapshot, f: Finding, one: ScopeSnapshot, other: ScopeSnapshot)
    requires Refreshed(scope, was, f, one) && Refreshed(scope, was, f, other)
    ensures forall d :: d in one.duplicates ==> d in other.duplicates
  {
    hide ListedAfter, StandsOn, Conflicting;
    forall d | d in one.duplicates ensures d in other.duplicates {
      assert Conflicting(Input(scope, f), scope.bounds, d.instance) by {
        assert exists e :: e in one.duplicates && e.instance == d.instance;
      }
      assert exists e :: e in other.duplicates && e.instance == d.instance;
      var e :| e in other.duplicates && e.instance == d.instance;
      RankedIsUnique(d.routes, e.routes, RouteRank);
      assert d == e;
    }
  }

  /** The first of the numbers that is set. */
  function FirstSet(a: nat, b: nat, c: nat): nat {
    if a != 0 then a else if b != 0 then b else c
  }

  function FirstText(a: string, b: string): string {
    if a != "" then a else b
  }

  /**
    A device observed alone is listed as its observation and the client's answer say. Where the answer is incomplete and the
    device was known, each part of its identity that is not answered, its profile and its time are the known ones.
   */
  lemma ObservedIsListed(scope: Scope, was: ScopeSnapshot, f: Finding, s: ScopeSnapshot, o: Observation,
                         known: Option<Device>)
    requires Consistent(scope, was) && Refreshed(scope, was, f, s)
    requires SoleOf(Input(scope, f), scope.bounds, o.instance) == Some(o)
    requires if known.Some? then known.value in was.devices && known.value.instance == o.instance
             else forall d :: d in was.devices ==> d.instance != o.instance
    ensures exists d :: d in s.devices && IsListedAs(f, o, known, d)
  {
    RankedIsDistinct(was.devices, DeviceRank);
    if known.Some? {
      DeviceIsFound(was.devices, known.value);
    }
    var d := Renewed(DeviceFor(f, o), DeviceOf(was.devices, o.instance));
    assert ListedAfter(scope, was.devices, f, d);
    hide Refreshed, Consistent, ListedAfter, SoleOf, Ranked, DistinctRanks;
    assert d in s.devices by { assert Refreshed(scope, was, f, s); ListedIn(scope, was, f, s, d); }
    RenewedMeans(f, o, known, d);
  }

  lemma ListedIn(scope: Scope, was: ScopeSnapshot, f: Finding, s: ScopeSnapshot, d: Device)
    requires Refreshed(scope, was, f, s) && ListedAfter(scope, was.devices, f, d)
    ensures d in s.devices
  {
  }

  lemma RenewedMeans(f: Finding, o: Observation, known: Option<Device>, d: Device)
    requires d == Renewed(DeviceFor(f, o), known)
    ensures IsListedAs(f, o, known, d)
  {
  }

  predicate IsListedAs(f: Finding, o: Observation, known: Option<Device>, d: Device) {
    var a, id := f.identify(o), d.identity;
    var incomplete := a.failed || IdentityReadFailed in a.issues || PropertyUnavailable in a.issues;
    var unknown := Device(0, o.route, Identity(0, "", "", "", "", 0, 0), "", 0, false, []);
    var before := if incomplete && known.Some? then known.value else unknown;
    var vendor := FirstSet(a.identity.vendor, if o.vendor.Some? then o.vendor.value else 0, 0);
    var selected := f.select(o.instance, a.identity.(vendor := vendor));
    && d.instance == o.instance && d.route == o.route && d.configured == o.configured
    && id.vendor == FirstSet(vendor, before.identity.vendor, 0)
    && id.vendorName == FirstText(a.identity.vendorName, before.identity.vendorName)
    && id.model == FirstText(a.identity.model, before.identity.model)
    && id.firmware == FirstText(a.identity.firmware, before.identity.firmware)
    && id.software == FirstText(a.identity.software, before.identity.software)
    && id.version == FirstSet(a.identity.version, before.identity.version, 0)
    && id.revision == FirstSet(a.identity.revision, before.identity.revision, 0)
    && d.profile == FirstText(before.profile, if selected.Some? then selected.value else "")
    && d.lastSeen == FirstSet(o.lastSeen, if a.failed then 0 else f.now, before.lastSeen)
    && (forall x :: x in a.issues ==> x in d.issues)
    && (IdentityReadFailed in d.issues <==> a.failed || IdentityReadFailed in a.issues)
    && (ProfileSelection in d.issues <==> selected.None? || ProfileSelection in a.issues)
  }

  datatype Outcome = Succeeded | Failed | Unavailable

  /** The snapshots of all scopes. */
  class Manager {
    const scopes: map<string, Scope>
    var snapshots: map<string, ScopeSnapshot>
    var generation: nat
    var closed: bool

    ghost predicate Valid()
      reads this
    {
      && snapshots.Keys == scopes.Keys
      && (forall key :: key in scopes ==> Consistent(scopes[key], snapshots[key]))
    }

    constructor (scopes: map<string, Scope>)
      ensures Valid() && this.scopes == scopes && generation == 0 && !closed
      ensures forall key :: key in scopes ==> snapshots[key] == ScopeSnapshot(0, 0, [], [], [])
    {
      this.scopes := scopes;
      this.snapshots := map key | key in scopes :: ScopeSnapshot(0, 0, [], [], []);
      this.generation := 0;
      this.closed := false;
    }

    method Replace(key: string, f: Finding, devices: seq<Device>, duplicates: seq<Duplicate>, issues: seq<Issue>,
                   success: bool)
      requires key in scopes && key in snapshots
      requires DistinctRanks(snapshots[key].devices, DeviceRank) && DistinctRanks(devices, DeviceRank)
      modifies this
      ensures generation == old(generation) + 1 && closed == old(closed)
      ensures snapshots.Keys == old(snapshots.Keys)
      ensures forall other :: other in snapshots && other != key ==> snapshots[other] == old(snapshots)[other]
      ensures var was, s := old(snapshots)[key], snapshots[key];
              && Ranked(s.devices, DeviceRank)
              && (forall d :: d in s.devices <==>
                    Merges(was.devices, devices, set x | x in duplicates :: x.instance, f.now, scopes[key].ttl, d))
              && s.duplicates == duplicates && s.issues == issues && s.lastAttempt == f.now
              && s.lastSuccess == (if success then f.now else was.lastSuccess)
    {
      var previous := snapshots[key];
      var merged := MergeRetainedDevices(previous.devices, devices, duplicates, f.now, scopes[key].ttl);
      var lastSuccess := if success then f.now else previous.lastSuccess;
      snapshots := snapshots[key := ScopeSnapshot(f.now, lastSuccess, merged, duplicates, issues)];
      generation := generation + 1;
    }

    method RefreshScope(key: string, f: Finding) returns (outcome: Outcome)
      requires Valid()
      modifies this
      ensures Valid() && closed == old(closed)
      ensures outcome.Unavailable? <==> old(closed) || key !in scopes
      ensures outcome.Unavailable? ==> snapshots == old(snapshots) && generation == old(generation)
      ensures !outcome.Unavailable? ==>
                && generation == old(generation) + 1
                && (forall other :: other in snapshots && other != key ==> snapshots[other] == old(snapshots)[other])
                && Refreshed(scopes[key], old(snapshots)[key], f, snapshots[key])
                && (outcome.Succeeded? <==> !f.failed && snapshots[key].duplicates == [])
    {
      if closed || key !in scopes {
        return Unavailable;
      }
      var scope := scopes[key];
      var normal := NormalizeObservations(Input(scope, f), scope.bounds);
      var unique, duplicates := SplitDuplicates(normal);
      var issues := IssuesOf(f, duplicates);
      var devices := MakeDevices(f, unique);
      RankedIsDistinct(snapshots[key].devices, DeviceRank);
      ghost var was := snapshots[key];
      Replace(key, f, devices, duplicates, issues, !f.failed && duplicates == []);
      hide Merges, Normalized, DistinctRanks, Of, DeviceFor, InBounds;
      RefreshIsRefresh(scope, was, f, normal, unique, duplicates, devices, snapshots[key]);
      RefreshKeepsConsistent(scope, was, f, snapshots[key]);
      return if f.failed || duplicates != [] then Failed else Succeeded;
    }

    method Close()
      requires Valid()
      modifies this
      ensures Valid() && closed && snapshots == old(snapshots) && generation == old(generation)
    {
      closed := true;
    }
  }

  method MakeDevices(f: Finding, unique: seq<Observation>) returns (devices: seq<Device>)
    requires Ranked(unique, ByInstance)
    ensures |devices| == |unique| && forall k :: 0 <= k < |unique| ==> devices[k] == DeviceFor(f, unique[k])
    ensures DistinctRanks(devices, DeviceRank)
  {
    devices := [];
    for i := 0 to |unique|
      invariant |devices| == i && forall k :: 0 <= k < i ==> devices[k] == DeviceFor(f, unique[k])
    {
      devices := devices + [DeviceFor(f, unique[i])];
    }
    DevicesDiffer(f, unique, devices);
  }

  /** One issue for a failed discovery and one for each conflict. */
  method IssuesOf(f: Finding, duplicates: seq<Duplicate>) returns (issues: seq<Issue>)
    ensures DiscoveryFailed in issues <==> f.failed
    ensures forall x :: DuplicateInstance(x) in issues <==> exists d :: d in duplicates && d.instance == x
    ensures |issues| == |duplicates| + if f.failed then 1 else 0
  {
    issues := if f.failed then [DiscoveryFailed] else [];
    for i := 0 to |duplicates|
      invariant |issues| == i + if f.failed then 1 else 0
      invariant DiscoveryFailed in issues <==> f.failed
      invariant forall x :: DuplicateInstance(x) in issues <==> exists d :: d in duplicates[..i] && d.instance == x
    {
      assert duplicates[..i + 1] == duplicates[..i] + [duplicates[i]];
      assert duplicates[i] in duplicates[..i + 1];
      issues := issues + [DuplicateInstance(duplicates[i].instance)];
    }
    assert duplicates[..|duplicates|] == duplicates;
  }

  lemma DevicesDiffer(f: Finding, unique: seq<Observation>, devices: seq<Device>)
    requires Ranked(unique, ByInstance) && |devices| == |unique|
    requires forall k :: 0 <= k < |unique| ==> devices[k] == DeviceFor(f, unique[k])
    ensures DistinctRanks(devices, DeviceRank)
  {
    forall i, j | 0 <= i < j < |devices| ensures DeviceRank(devices[i]) != DeviceRank(devices[j]) {
      RankLessTotal(ByInstance(unique[i]), ByInstance(unique[j]));
    }
  }

  lemma RefreshIsRefresh(scope: Scope, was: ScopeSnapshot, f: Finding, normal: seq<Observation>, unique: seq<Observation>,
                         duplicates: seq<Duplicate>, devices: seq<Device>, s: ScopeSnapshot)
    requires Normalized(Input(scope, f), scope.bounds, normal)
    requires Ranked(duplicates, DuplicateRank) && DistinctRanks(devices, DeviceRank)
    requires forall o :: o in unique <==> Of(normal, o.instance) == [o]
    requires forall x :: |Of(normal, x)| > 1 <==> exists d :: d in duplicates && d.instance == x
    requires forall d :: d in duplicates ==> Reports(normal, d)
    requires DiscoveryFailed in s.issues <==> f.failed
    requires forall x :: DuplicateInstance(x) in s.issues <==> exists d :: d in duplicates && d.instance == x
    requires |devices| == |unique| && forall k :: 0 <= k < |unique| ==> devices[k] == DeviceFor(f, unique[k])
    requires Ranked(s.devices, DeviceRank) && s.duplicates == duplicates && s.lastAttempt == f.now
    requires forall d :: d in s.devices <==>
               Merges(was.devices, devices, set x | x in duplicates :: x.instance, f.now, scope.ttl, d)
    requires s.lastSuccess == if !f.failed && duplicates == [] then f.now else was.lastSuccess
    ensures Refreshed(scope, was, f, s)
  {
    var input, conflicts := Input(scope, f), set x | x in duplicates :: x.instance;
    forall x ensures (exists d :: d in s.duplicates && d.instance == x) <==> Conflicting(input, scope.bounds, x) {
      SplitMeans(input, scope.bounds, normal, x);
    }
    forall d | d in duplicates ensures ReportsRoutes(scope, f, d) {
      ReportMeans(input, scope.bounds, normal, d);
    }
    hide Normalized, DistinctRanks, Merges, ListedAfter, Conflicting, ReportsRoutes, Reports;
    forall d ensures d in s.devices <==> ListedAfter(scope, was.devices, f, d) {
      MergesWhatIsListed(scope, was.devices, f, normal, unique, devices, conflicts, d);
    }
  }

  lemma MergesWhatIsListed(scope: Scope, previous: seq<Device>, f: Finding, normal: seq<Observation>,
                           unique: seq<Observation>,
                           devices: seq<Device>, conflicts: set<nat>, d: Device)
    requires Normalized(Input(scope, f), scope.bounds, normal) && DistinctRanks(devices, DeviceRank)
    requires forall o :: o in unique <==> Of(normal, o.instance) == [o]
    requires |devices| == |unique| && forall k :: 0 <= k < |unique| ==> devices[k] == DeviceFor(f, unique[k])
    requires forall x :: x in conflicts <==> Conflicting(Input(scope, f), scope.bounds, x)
    ensures Merges(previous, devices, conflicts, f.now, scope.ttl, d) <==> ListedAfter(scope, previous, f, d)
  {
    OneOrMany(Input(scope, f), scope.bounds, d.instance);
    WhichDevice(scope, f, normal, unique, devices, d.instance);
    var o := SoleOf(Input(scope, f), scope.bounds, d.instance);
    var made := if o.Some? then Some(DeviceFor(f, o.value)) else None;
    MergesAsMade(previous, devices, conflicts, f.now, scope.ttl, d, made, Observed(Input(scope, f), scope.bounds, d.instance));
    hide Merges, Normalized, DistinctRanks, Sole, Conflicting, Observed, Retained, Renewed, DeviceFor;
  }

  lemma MergesAsMade(previous: seq<Device>, devices: seq<Device>, conflicts: set<nat>, now: nat, ttl: int, d: Device,
                     made: Option<Device>, observed: bool)
    requires DeviceOf(devices, d.instance) == made
    requires (observed <==> d.instance in conflicts || made.Some?) && !(d.instance in conflicts && made.Some?)
    ensures Merges(previous, devices, conflicts, now, ttl, d) <==>
              if made.Some? then d == Renewed(made.value, DeviceOf(previous, d.instance))
              else !observed && d in previous && Retained(d, now, ttl)
  {
    hide Renewed, Retained, DeviceOf;
  }

  lemma WhichDevice(scope: Scope, f: Finding, normal: seq<Observation>, unique: seq<Observation>,
                    devices: seq<Device>, x: nat)
    requires Normalized(Input(scope, f), scope.bounds, normal) && DistinctRanks(devices, DeviceRank)
    requires forall o :: o in unique <==> Of(normal, o.instance) == [o]
    requires |devices| == |unique| && forall k :: 0 <= k < |unique| ==> devices[k] == DeviceFor(f, unique[k])
    ensures var o := SoleOf(Input(scope, f), scope.bounds, x);
            DeviceOf(devices, x) == if o.Some? then Some(DeviceFor(f, o.value)) else None
  {
    SplitMeans(Input(scope, f), scope.bounds, normal, x);
    var o := SoleOf(Input(scope, f), scope.bounds, x);
    if o.Some? {
      assert o.value in unique;
      var k :| 0 <= k < |unique| && unique[k] == o.value;
      assert devices[k] in devices;
      DeviceIsFound(devices, devices[k]);
    } else {
      forall k | 0 <= k < |devices| ensures devices[k].instance != x {
        assert unique[k] in unique && devices[k] == DeviceFor(f, unique[k]);
      }
    }
  }

  // ---------- Runs ----------

  /** The snapshots of a scope from its beginning, one more than the refreshes. */
  ghost predicate Run(scope: Scope, snapshots: seq<ScopeSnapshot>, findings: seq<Finding>) {
    && |snapshots| == |findings| + 1
    && snapshots[0] == ScopeSnapshot(0, 0, [], [], [])
    && (forall i :: 0 <= i < |findings| ==> Refreshed(scope, snapshots[i], findings[i], snapshots[i + 1]))
  }

  lemma {:induction false} EverySnapshotConsistent(scope: Scope, snapshots: seq<ScopeSnapshot>,
                                                   findings: seq<Finding>, n: nat)
    requires Run(scope, snapshots, findings) && n <= |findings|
    ensures Consistent(scope, snapshots[n])
  {
    hide Refreshed;
    if n == 0 {
      NothingIsConsistent(scope);
    } else {
      hide Consistent;
      EverySnapshotConsistent(scope, snapshots, findings, n - 1);
      RefreshKeepsConsistent(scope, snapshots[n - 1], findings[n - 1], snapshots[n]);
    }
  }

  lemma NothingIsConsistent(scope: Scope)
    ensures Consistent(scope, ScopeSnapshot(0, 0, [], [], []))
  {
  }

  ghost predicate ObservedIn(scope: Scope, f: Finding, instance: nat) {
    Observed(Input(scope, f), scope.bounds, instance)
  }

  /**
    Refresh j observed the device without conflict and made it what it
    is, and no later one up to n observed or dropped it.
   */
  ghost predicate ListedSince(scope: Scope, snapshots: seq<ScopeSnapshot>, findings: seq<Finding>, n: nat, d: Device,
                              j: nat)
    requires Run(scope, snapshots, findings) && n <= |findings|
  {
    && j < n && ObservedIn(scope, findings[j], d.instance) && d in snapshots[j + 1].devices
    && forall k :: j < k < n ==> !ObservedIn(scope, findings[k], d.instance) && SeenLately(d, findings[k].now, scope.ttl)
  }

  /** Less than one time to live has passed since the device was last seen, if it ever was. */
  predicate SeenLately(d: Device, now: nat, ttl: int) {
    d.lastSeen > 0 && 0 < ttl && now < d.lastSeen + ttl
  }

  /** A device that a refresh does not observe is listed after it, as it was, exactly if it was listed and seen lately. */
  lemma ListedUnobserved(scope: Scope, was: ScopeSnapshot, f: Finding, s: ScopeSnapshot, d: Device)
    requires Refreshed(scope, was, f, s) && !ObservedIn(scope, f, d.instance)
    ensures d in s.devices <==> d in was.devices && SeenLately(d, f.now, scope.ttl)
  {
    OneOrMany(Input(scope, f), scope.bounds, d.instance);
    assert d in s.devices <==> ListedAfter(scope, was.devices, f, d);
  }

  /** A device is listed exactly if the last refresh that observed it listed it and it was recently seen ever since. */
  lemma {:induction false} WhoIsListed(scope: Scope, snapshots: seq<ScopeSnapshot>, findings: seq<Finding>, n: nat,
                                       d: Device)
    requires Run(scope, snapshots, findings) && n <= |findings|
    ensures d in snapshots[n].devices <==> exists j: nat :: ListedSince(scope, snapshots, findings, n, d, j)
  {
    if n > 0 {
      WhoIsListed(scope, snapshots, findings, n - 1, d);
      if d in snapshots[n].devices {
        var j := LastObserver(scope, snapshots, findings, n, d);
      } else {
        forall j: nat ensures !ListedSince(scope, snapshots, findings, n, d, j) {
          NotListedSince(scope, snapshots, findings, n, d, j);
        }
      }
    }
  }

  lemma LastObserver(scope: Scope, snapshots: seq<ScopeSnapshot>, findings: seq<Finding>, n: nat,
                     d: Device) returns (j: nat)
    requires Run(scope, snapshots, findings) && 0 < n <= |findings| && d in snapshots[n].devices
    requires var m := n - 1;
             d in snapshots[m].devices ==> exists i: nat :: ListedSince(scope, snapshots, findings, m, d, i)
    ensures ListedSince(scope, snapshots, findings, n, d, j)
  {
    var f := findings[n - 1];
    assert Refreshed(scope, snapshots[n - 1], f, snapshots[n]);
    if ObservedIn(scope, f, d.instance) {
      j := n - 1;
    } else {
      ListedUnobserved(scope, snapshots[n - 1], f, snapshots[n], d);
      j :| ListedSince(scope, snapshots, findings, n - 1, d, j);
      hide Run, Refreshed, ObservedIn, SeenLately;
    }
  }

  lemma NotListedSince(scope: Scope, snapshots: seq<ScopeSnapshot>, findings: seq<Finding>, n: nat, d: Device, j: nat)
    requires Run(scope, snapshots, findings) && 0 < n <= |findings| && d !in snapshots[n].devices
    requires ListedSince(scope, snapshots, findings, n - 1, d, j) ==> d in snapshots[n - 1].devices
    ensures !ListedSince(scope, snapshots, findings, n, d, j)
  {
    var f := findings[n - 1];
    assert Refreshed(scope, snapshots[n - 1], f, snapshots[n]);
    if !ObservedIn(scope, f, d.instance) {
      ListedUnobserved(scope, snapshots[n - 1], f, snapshots[n], d);
    }
    hide Run, Refreshed, ObservedIn, SeenLately;
  }

  /**
    A device not observed by a refresh at least one time to live after it was last seen is gone after that refresh, and
    until one observes it again.
   */
  lemma {:induction false} UnseenIsGone(scope: Scope, snapshots: seq<ScopeSnapshot>, findings: seq<Finding>, k: nat, n: nat,
                                        instance: nat)
    requires Run(scope, snapshots, findings) && k < n <= |findings|
    requires forall d :: d in snapshots[k].devices && d.instance == instance ==> findings[k].now - d.lastSeen >= scope.ttl
    requires forall i :: k <= i < n ==> !ObservedIn(scope, findings[i], instance)
    ensures forall d :: d in snapshots[n].devices ==> d.instance != instance
    decreases n
  {
    if n > k + 1 {
      UnseenIsGone(scope, snapshots, findings, k, n - 1, instance);
    }
    forall d | d in snapshots[n].devices ensures d.instance != instance {
      assert ListedAfter(scope, snapshots[n - 1].devices, findings[n - 1], d);
      OneOrMany(Input(scope, findings[n - 1]), scope.bounds, d.instance);
    }
  }
}
