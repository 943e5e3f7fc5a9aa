/** The inclusion theorem for the LRU policy replay: whatever the routes and the
    sizes of their experts, a larger cache always holds what a smaller one does. */
module ReplayInclusion {
  import opened Wrappers
  import opened ReplayModel
  import opened ReplayCaches
  import opened ReplayAgreement
  import Traces = TileReplay

  /** What is left when `l` is about to be evicted. */
  ghost function Left(m: Contents, pinned: set<Key>, l: Key): Contents
    requires l in m
  {
    map k | k in m && (k in pinned || k == l || Before(l, m[l], k, m[k])) :: m[k]
  }

  /** An evicted expert was in the way: what was left with it did not fit. */
  lemma {:induction false} EvictedDidNotFit(m: Contents, pinned: set<Key>, required: nat, capacity: nat, l: Key)
    requires l in m && l !in EvictFor(m, pinned, required, capacity)
    ensures l !in pinned && Bytes(Left(m, pinned, l)) + required > capacity
    decreases |m|
  {
    hide Victim, Bytes;
    VictimOf(m, pinned);
    var k := Victim(m, pinned).value;
    if k == l {
      assert Left(m, pinned, l) == m;
    } else {
      EvictedDidNotFit(m - {k}, pinned, required, capacity, l);
      assert Left(m - {k}, pinned, l) == Left(m, pinned, l);
    }
  }

  /** Nothing used later than a kept unpinned expert is evicted. */
  lemma {:induction false} KeptIsUpward(m: Contents, pinned: set<Key>, required: nat, capacity: nat, k: Key, l: Key)
    requires k in EvictFor(m, pinned, required, capacity) && k !in pinned && k in m
    requires l in m && Before(k, m[k], l, m[l])
    ensures l in EvictFor(m, pinned, required, capacity)
    decreases |m|
  {
    hide Victim, Bytes;
    if Bytes(m) + required > capacity {
      VictimOf(m, pinned);
      match Victim(m, pinned)
      case None =>
      case Some(v) =>
        EvictionIs(m - {v}, pinned, required, capacity);
        assert v != l;
        KeptIsUpward(m - {v}, pinned, required, capacity, k, l);
    }
  }

  /** `small` is the most recent part of `large`. */
  ghost predicate Stacked(small: Contents, large: Contents) {
    && (forall k :: k in small ==> k in large && small[k] == large[k])
    && forall k, l :: k in small && l in large && Before(k, large[k], l, large[l]) ==> l in small
  }

  /** Sizes are the trace's, all entries demanded, none used in the future. */
  ghost predicate Tidy(m: Contents, size: Key -> nat, clock: nat) {
    forall k :: k in m ==> m[k].bytes == size(k) && m[k].lastUse <= clock && !m[k].probation
  }

  ghost function Unpinned(m: Contents, pinned: set<Key>): Contents {
    map k | k in m && k !in pinned :: m[k]
  }

  lemma {:induction false} BytesSplit(m: Contents, pinned: set<Key>)
    ensures Bytes(m) == Bytes(Pinned(m, pinned)) + Bytes(Unpinned(m, pinned))
    decreases |m|
  {
    hide Bytes;
    if m == map[] {
      assert Pinned(m, pinned) == map[] && Unpinned(m, pinned) == map[];
      NoBytes();
    } else {
      var k: Key :| k in m;
      BytesSplit(m - {k}, pinned);
      BytesWithout(m, k);
      if k in pinned {
        BytesWithout(Pinned(m, pinned), k);
        assert Pinned(m - {k}, pinned) == Pinned(m, pinned) - {k};
        assert Unpinned(m - {k}, pinned) == Unpinned(m, pinned);
      } else {
        BytesWithout(Unpinned(m, pinned), k);
        assert Unpinned(m - {k}, pinned) == Unpinned(m, pinned) - {k};
        assert Pinned(m - {k}, pinned) == Pinned(m, pinned);
      }
    }
  }

  /** The bytes of the whole route. */
  function RouteBytes(layer: nat, experts: seq<nat>, size: Key -> nat): nat {
    if experts == [] then 0
    else RouteBytes(layer, experts[..|experts| - 1], size) + size(Key(layer, experts[|experts| - 1]))
  }

  ghost predicate Sized(m: Contents, size: Key -> nat) {
    forall k :: k in m ==> m[k].bytes == size(k)
  }

  /** Pinned and missing bytes together are the route's, whatever is resident. */
  lemma {:induction false} RouteIsPinnedPlusMissing(m: Contents, layer: nat, experts: seq<nat>, size: Key -> nat)
    requires Distinct(experts) && Sized(m, size)
    ensures Bytes(Pinned(m, Pins(layer, experts))) + MissBytes(m, layer, experts, size)
      == RouteBytes(layer, experts, size)
  {
    hide Bytes, Pins, Pinned;
    if experts == [] {
      PinnedByNone(m, layer);
      NoBytes();
    } else {
      var rest := experts[..|experts| - 1];
      var k := Key(layer, experts[|experts| - 1]);
      RouteIsPinnedPlusMissing(m, layer, rest, size);
      PinnedSnoc(m, layer, experts);
      if k in m {
        BytesWith(Pinned(m, Pins(layer, rest)), k, m[k]);
      }
    }
  }

  /** A route is served exactly when its own bytes fit, whatever is resident. */
  lemma ServedIffFits(m: Contents, layer: nat, experts: seq<nat>, sizeOf: Key -> Option<nat>, capacity: nat)
    requires Distinct(experts) && Sized(m, SizeOrZero(sizeOf))
    ensures Verdict(m, layer, experts, sizeOf, capacity).Success?
      <==>
        PlanError(m, layer, experts, sizeOf) == None && RouteBytes(layer, experts, SizeOrZero(sizeOf)) <= capacity
  {
    hide Bytes, Pins, Pinned, MissBytes, PlanError, EvictFor, RouteBytes, Sized;
    var size := SizeOrZero(sizeOf);
    RouteIsPinnedPlusMissing(m, layer, experts, size);
    EvictionIs(m, Pins(layer, experts), MissBytes(m, layer, experts, size), capacity);
  }

  /** Eviction keeps, in the larger cache, whatever it keeps in the smaller. */
  lemma KeptInBoth(small: Contents, large: Contents, layer: nat, experts: seq<nat>, size: Key -> nat, c: nat, d: nat,
                   k: Key)
    requires Stacked(small, large) && Sized(small, size) && Sized(large, size) && c <= d && Distinct(experts)
    requires var pinned := Pins(layer, experts); var kept := EvictFor(small, pinned,
      MissBytes(small, layer, experts, size), c);
      k in kept && k !in pinned && Bytes(kept) + MissBytes(small, layer, experts, size) <= c
    ensures k in small && k in EvictFor(large, Pins(layer, experts), MissBytes(large, layer, experts, size), d)
  {
    hide Bytes, Pins, MissBytes, EvictFor;
    var pinned := Pins(layer, experts);
    var missing, missing' := MissBytes(small, layer, experts, size), MissBytes(large, layer, experts, size);
    var kept := EvictFor(small, pinned, missing, c);
    EvictionIs(small, pinned, missing, c);
    if k !in EvictFor(large, pinned, missing', d) {
      EvictedDidNotFit(large, pinned, missing', d, k);
      var left := Left(large, pinned, k);
      forall l | l in Unpinned(left, pinned) ensures l in Unpinned(kept, pinned) && kept[l] == left[l] {
        if l != k {
          KeptIsUpward(small, pinned, missing, c, k, l);
        }
      }
      BytesMonotone(Unpinned(left, pinned), Unpinned(kept, pinned));
      BytesSplit(left, pinned);
      BytesSplit(kept, pinned);
      assert Pinned(left, pinned) == Pinned(large, pinned) && Pinned(kept, pinned) == Pinned(small, pinned);
      RouteIsPinnedPlusMissing(small, layer, experts, size);
      RouteIsPinnedPlusMissing(large, layer, experts, size);
    }
  }

  /** What a served route leaves: the route itself, newest, over what was kept. */
  ghost predicate IsServed(kept: Contents, pinned: set<Key>, size: Key -> nat, clock: nat, after: Contents) {
    && after.Keys == kept.Keys + pinned
    && (forall k :: k in pinned ==> after[k] == Use(size(k), clock, false))
    && (forall k :: k in kept && k !in pinned ==> after[k] == kept[k])
  }

  lemma ServeIsServed(kept: Contents, layer: nat, experts: seq<nat>, size: Key -> nat, clock: nat)
    requires Sized(kept, size)
    ensures IsServed(kept, Pins(layer, experts), size, clock, Serve(kept, layer, experts, size, clock))
  {
    hide Pins, Serve;
    ServeIs(kept, layer, experts, size, clock);
  }

  /** Serving the same route puts it on top of both stacks. */
  lemma ServingKeepsStack(small: Contents, large: Contents, keptSmall: Contents, keptLarge: Contents, pinned: set<Key>,
                          size: Key -> nat, clock: nat, small': Contents, large': Contents)
    requires Stacked(small, large) && Tidy(large, size, clock)
    requires forall k :: k in keptSmall ==> k in small && keptSmall[k] == small[k]
    requires forall k :: k in keptLarge ==> k in large && keptLarge[k] == large[k]
    requires forall k :: k in keptSmall && k !in pinned ==> k in keptLarge
    requires forall k, l :: k in keptSmall && k !in pinned && l in small && Before(k, small[k], l, small[l]) ==>
      l in keptSmall
    requires IsServed(keptSmall, pinned, size, clock + 1, small')
      && IsServed(keptLarge, pinned, size, clock + 1, large')
    ensures Stacked(small', large')
  {
    forall k | k in small' ensures k in large' && small'[k] == large'[k] {
      assert k in pinned || k in keptSmall;
    }
    forall k, l | k in small' && l in large' && Before(k, large'[k], l, large'[l]) ensures l in small' {
      if l !in pinned {
        assert l in keptLarge && large'[l] == large[l] && large[l].lastUse <= clock;
        assert k !in pinned;
        assert k in keptSmall && large'[k] == large[k];
        assert l in small;
        assert l in keptSmall;
      }
    }
  }

  /** After one route served at both capacities, inclusion still holds. */
  lemma RouteKeepsStack(t: Tally, u: Tally, route: Traces.RouteLayer, sizeOf: Key -> Option<nat>, c: nat, d: nat)
    requires Stacked(t.contents, u.contents) && t.clock == u.clock && c <= d
    requires Tidy(t.contents, SizeOrZero(sizeOf), t.clock) && Tidy(u.contents, SizeOrZero(sizeOf), u.clock)
    requires Verdict(t.contents, route.layer, Firsts(route.expertIds), sizeOf, c).Success?
    ensures Stacked(PolicyStep(t, route, c, sizeOf).contents, PolicyStep(u, route, d, sizeOf).contents)
  {
    hide Bytes, Pins, MissBytes, EvictFor, Serve, Stacked, IsServed, PlanError, Tidy, Hits, Firsts;
    var layer, experts, size := route.layer, Firsts(route.expertIds), SizeOrZero(sizeOf);
    FirstsAre(route.expertIds);
    var pinned := Pins(layer, experts);
    var missing, missing' := MissBytes(t.contents, layer, experts, size), MissBytes(u.contents, layer, experts, size);
    var kept, kept' := EvictFor(t.contents, pinned, missing, c), EvictFor(u.contents, pinned, missing', d);
    TidyIsSized(t.contents, size, t.clock);
    TidyIsSized(u.contents, size, u.clock);
    EvictionIs(t.contents, pinned, missing, c);
    EvictionIs(u.contents, pinned, missing', d);
    ServeIsServed(kept, layer, experts, size, t.clock + 1);
    ServeIsServed(kept', layer, experts, size, u.clock + 1);
    forall k | k in kept && k !in pinned ensures k in kept' {
      KeptInBoth(t.contents, u.contents, layer, experts, size, c, d, k);
    }
    forall k, l | k in kept && k !in pinned && l in t.contents
      && Before(k, t.contents[k], l, t.contents[l]) ensures l in kept {
      KeptIsUpward(t.contents, pinned, missing, c, k, l);
    }
    ServingKeepsStack(t.contents, u.contents, kept, kept', pinned, size, t.clock,
                      PolicyStep(t, route, c, sizeOf).contents, PolicyStep(u, route, d, sizeOf).contents);
  }

  lemma TidyIsSized(m: Contents, size: Key -> nat, clock: nat)
    requires Tidy(m, size, clock)
    ensures Sized(m, size)
  {
  }

  lemma StepKeepsTidy(t: Tally, route: Traces.RouteLayer, sizeOf: Key -> Option<nat>, capacity: nat)
    requires Tidy(t.contents, SizeOrZero(sizeOf), t.clock)
    ensures Tidy(PolicyStep(t, route, capacity, sizeOf).contents, SizeOrZero(sizeOf), t.clock + 1)
  {
    hide Bytes, Pins, MissBytes, EvictFor, Serve, Hits, Firsts;
    var layer, experts, size := route.layer, Firsts(route.expertIds), SizeOrZero(sizeOf);
    var missing := MissBytes(t.contents, layer, experts, size);
    EvictionIs(t.contents, Pins(layer, experts), missing, capacity);
    ServeIsServed(EvictFor(t.contents, Pins(layer, experts), missing, capacity), layer, experts, size, t.clock + 1);
  }

  lemma {:induction false} MoreIsPlanned(small: Contents, large: Contents, layer: nat, experts: seq<nat>,
                                         sizeOf: Key -> Option<nat>)
    requires forall k :: k in small ==> k in large
    requires PlanError(small, layer, experts, sizeOf) == None
    ensures PlanError(large, layer, experts, sizeOf) == None
    ensures Hits(small, layer, experts) <= Hits(large, layer, experts)
    ensures MissBytes(large, layer, experts, SizeOrZero(sizeOf)) <= MissBytes(small, layer, experts, SizeOrZero(sizeOf))
  {
    if experts != [] {
      MoreIsPlanned(small, large, layer, experts[..|experts| - 1], sizeOf);
    }
  }

  /** Main result: whatever trace the LRU replay gets through
      at one capacity, it gets through at any larger one, whose contents always
      include the smaller's; so hits never fall and miss bytes never rise. */
  lemma {:induction false} LargerPolicyCacheIncludesSmaller(routes: seq<Traces.RouteLayer>,
                                                            sizeOf: Key -> Option<nat>, c: nat, d: nat)
    requires c <= d && PolicyRun(routes, c, sizeOf).Success?
    ensures PolicyRun(routes, d, sizeOf).Success?
    ensures var t, u := PolicyRun(routes, c, sizeOf).value, PolicyRun(routes, d, sizeOf).value;
      && Stacked(t.contents, u.contents) && t.clock == u.clock
      && Tidy(t.contents, SizeOrZero(sizeOf), t.clock) && Tidy(u.contents, SizeOrZero(sizeOf), u.clock)
      && t.hits <= u.hits && u.missBytes <= t.missBytes
  {
    hide Verdict, Stacked, Tidy, PlanError, Hits, MissBytes, EvictFor, Serve, Pins, Firsts;
    if routes == [] {
      NothingStacked(sizeOf);
    } else {
      var before, route := routes[..|routes| - 1], routes[|routes| - 1];
      LargerPolicyCacheIncludesSmaller(before, sizeOf, c, d);
      var t, u := PolicyRun(before, c, sizeOf).value, PolicyRun(before, d, sizeOf).value;
      ServedInBoth(t, u, route, sizeOf, c, d);
      RouteKeepsStack(t, u, route, sizeOf, c, d);
      StepKeepsTidy(t, route, sizeOf, c);
      StepKeepsTidy(u, route, sizeOf, d);
    }
  }

  lemma NothingStacked(sizeOf: Key -> Option<nat>)
    ensures Stacked(map[], map[]) && Tidy(map[], SizeOrZero(sizeOf), 0)
  {
  }

  lemma ServedInBoth(t: Tally, u: Tally, route: Traces.RouteLayer, sizeOf: Key -> Option<nat>, c: nat, d: nat)
    requires Stacked(t.contents, u.contents) && c <= d
    requires Tidy(t.contents, SizeOrZero(sizeOf), t.clock) && Tidy(u.contents, SizeOrZero(sizeOf), u.clock)
    requires Verdict(t.contents, route.layer, Firsts(route.expertIds), sizeOf, c).Success?
    ensures Verdict(u.contents, route.layer, Firsts(route.expertIds), sizeOf, d).Success?
    ensures Hits(t.contents, route.layer, Firsts(route.expertIds))
      <= Hits(u.contents, route.layer, Firsts(route.expertIds))
    ensures MissBytes(u.contents, route.layer, Firsts(route.expertIds), SizeOrZero(sizeOf))
         <= MissBytes(t.contents, route.layer, Firsts(route.expertIds), SizeOrZero(sizeOf))
  {
    hide Verdict, PlanError, Hits, MissBytes, RouteBytes, Firsts;
    var layer, experts := route.layer, Firsts(route.expertIds);
    FirstsAre(route.expertIds);
    ServedIffFits(t.contents, layer, experts, sizeOf, c);
    MoreIsPlanned(t.contents, u.contents, layer, experts, sizeOf);
    ServedIffFits(u.contents, layer, experts, sizeOf, d);
  }
}
