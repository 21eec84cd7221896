/** What a refresh of a scope observes, told from what the client sighted and from the routes that are configured. */
module BacnetScopes {
  import opened Options
  import opened BacnetObservations
  import opened BacnetRegistry

  /** The device is inside the bounds, and was sighted or is configured on the route, which is valid. */
  ghost predicate SeenOn(scope: Scope, f: Finding, instance: nat, canonical: string) {
    && (scope.bounds.low.Some? ==> scope.bounds.low.value <= instance)
    && (scope.bounds.high.Some? ==> instance <= scope.bounds.high.value)
    && ((exists o :: o in f.sightings && IsOn(o.instance, o.route, instance, canonical)) ||
        (exists c :: c in scope.configured && IsOn(c.instance, c.route, instance, canonical)))
  }

  predicate IsOn(x: nat, route: Route, instance: nat, canonical: string) {
    x == instance && route.valid && route.canonical == canonical
  }

  /** The i-th configured route is the last one to the device of that name, and has no time and no vendor. */
  ghost predicate StandsConfigured(scope: Scope, instance: nat, o: Observation, i: int) {
    && 0 <= i < |scope.configured| && o == Observation(instance, scope.configured[i].route, 0, None, true)
    && forall j :: i < j < |scope.configured| ==>
         !IsOn(scope.configured[j].instance, scope.configured[j].route, instance, o.route.canonical)
  }

  /** The i-th sighting is the newest of the device on its route, and the first as new as it is; no route is configured. */
  ghost predicate StandsSighted(scope: Scope, f: Finding, instance: nat, o: Observation, i: int) {
    && 0 <= i < |f.sightings| && o == f.sightings[i]
    && (forall c :: c in scope.configured ==> !IsOn(c.instance, c.route, instance, o.route.canonical))
    && forall j :: 0 <= j < |f.sightings| && IsOn(f.sightings[j].instance, f.sightings[j].route, instance, o.route.canonical) ==>
         f.sightings[j].lastSeen <= o.lastSeen && (j < i ==> f.sightings[j].lastSeen < o.lastSeen)
  }

  ghost predicate OnlySightings(f: Finding) {
    forall o :: o in f.sightings ==> !o.configured
  }

  /** A device has a standing observation on a route exactly if it was seen on it; a configured route stands before sightings. */
  lemma StandsExactlyWhen(scope: Scope, f: Finding, instance: nat, canonical: string)
    requires OnlySightings(f)
    ensures var r := Kept(Input(scope, f), scope.bounds, (instance, canonical));
            && (r.Some? <==> SeenOn(scope, f, instance, canonical))
            && (r.Some? ==> IsOn(r.value.instance, r.value.route, instance, canonical))
            && (r.Some? ==> (exists i :: StandsConfigured(scope, instance, r.value, i)) ||
                            (exists i :: StandsSighted(scope, f, instance, r.value, i)))
  {
    var configured, key := ConfiguredObservations(scope.configured), (instance, canonical);
    var r := Kept(Input(scope, f), scope.bounds, key);
    WhichIsKept(f.sightings, configured, scope.bounds, key);
    assert forall i :: 0 <= i < |configured| ==>
        configured[i] == Observation(scope.configured[i].instance, scope.configured[i].route, 0, None, true);
    if r.Some? {
      if r.value.configured {
        var i :| LastConfigured(configured, scope.bounds, key, r.value, i);
        assert scope.configured[i] in scope.configured;
        assert StandsConfigured(scope, instance, r.value, i);
      } else {
        var i :| FirstNewest(f.sightings, scope.bounds, key, r.value, i);
        NoneConfigured(scope, f, key);
        assert StandsSighted(scope, f, instance, r.value, i);
      }
    }
    if SeenOn(scope, f, instance, canonical) {
      SeenStands(scope, f, instance, canonical);
    }
  }

  lemma NoneConfigured(scope: Scope, f: Finding, key: Rank)
    requires InBounds(key.0, scope.bounds)
    requires forall o :: o in ConfiguredObservations(scope.configured) ==> !(Usable(o, scope.bounds) && KeyOf(o) == key)
    ensures forall c :: c in scope.configured ==> !IsOn(c.instance, c.route, key.0, key.1)
  {
    var configured := ConfiguredObservations(scope.configured);
    forall c | c in scope.configured ensures !IsOn(c.instance, c.route, key.0, key.1) {
      var i :| 0 <= i < |scope.configured| && scope.configured[i] == c;
      assert configured[i] in configured;
    }
  }

  lemma SeenStands(scope: Scope, f: Finding, instance: nat, canonical: string)
    requires SeenOn(scope, f, instance, canonical)
    ensures Kept(Input(scope, f), scope.bounds, (instance, canonical)).Some?
  {
    var input, configured := Input(scope, f), ConfiguredObservations(scope.configured);
    if o :| o in f.sightings && IsOn(o.instance, o.route, instance, canonical) {
      UsableIsKept(input, scope.bounds, o);
    } else {
      var c :| c in scope.configured && IsOn(c.instance, c.route, instance, canonical);
      var i :| 0 <= i < |scope.configured| && scope.configured[i] == c;
      assert configured[i] in configured;
      UsableIsKept(input, scope.bounds, configured[i]);
    }
  }

  /**
    A device is observed by a refresh exactly if it was seen on some route, in conflict exactly if on two; and alone exactly
    if on one, by the observation that stands for it.
   */
  lemma ObservedExactlyWhen(scope: Scope, f: Finding, instance: nat)
    requires OnlySightings(f)
    ensures var sole := SoleOf(Input(scope, f), scope.bounds, instance);
            && (ObservedIn(scope, f, instance) <==> exists c :: SeenOn(scope, f, instance, c))
            && (Conflicting(Input(scope, f), scope.bounds, instance) <==>
                 exists c, d :: c != d && SeenOn(scope, f, instance, c) && SeenOn(scope, f, instance, d))
            && (sole.None? ==> forall c :: SeenOn(scope, f, instance, c) ==> exists d :: d != c && SeenOn(scope, f, instance, d))
            && (sole.Some? ==>
                 && (forall c :: SeenOn(scope, f, instance, c) <==> c == sole.value.route.canonical)
                 && ((exists i :: StandsConfigured(scope, instance, sole.value, i)) ||
                     (exists i :: StandsSighted(scope, f, instance, sole.value, i))))
  {
    var input, b := Input(scope, f), scope.bounds;
    forall c
      ensures Kept(input, b, (instance, c)).Some? <==> SeenOn(scope, f, instance, c)
    {
      StandsExactlyWhen(scope, f, instance, c);
    }
    OneOrMany(input, b, instance);
    if SoleOf(input, b, instance).Some? {
      StandsExactlyWhen(scope, f, instance, SoleOf(input, b, instance).value.route.canonical);
    }
    hide Kept, SeenOn, StandsConfigured, StandsSighted;
  }
}
