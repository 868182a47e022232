/**
 * The vehicle manager's bookkeeping: the list of all client vehicles, the
 * streamed-in subset that gets a pulse every frame, and the flag that keeps
 * DeleteAll's iteration safe from removals its own deletions trigger.
 *
 * Vehicles are opaque handles. Anything the game computes for a vehicle (its
 * distance to a point, what its per-frame pulse does) is passed in as a
 * function.
 */
module VehicleRegistry {
  import opened Common

  type Handle = nat

  datatype Registry = Registry(list: seq<Handle>, streamedIn: seq<Handle>, canRemoveFromList: bool)

  /** The registry of a freshly constructed manager. */
  const EmptyRegistry := Registry([], [], true)

  /** Number of occurrences of `v` in `s`. */
  function Count(s: seq<Handle>, v: Handle): nat
  {
    if |s| == 0 then 0 else (if s[0] == v then 1 else 0) + Count(s[1..], v)
  }

  /** `s` with every occurrence of `v` taken out, the rest in order (list remove / ListRemove). */
  function RemoveAll(s: seq<Handle>, v: Handle): (r: seq<Handle>)
    ensures v !in r
    ensures forall x :: x in r <==> x in s && x != v
    ensures |r| == |s| - Count(s, v)
  {
    if |s| == 0 then []
    else if s[0] == v then RemoveAll(s[1..], v)
    else [s[0]] + RemoveAll(s[1..], v)
  }

  lemma {:induction false} RemoveAllAbsent(s: seq<Handle>, v: Handle)
    requires v !in s
    ensures RemoveAll(s, v) == s
  {
    if |s| > 0 {
      RemoveAllAbsent(s[1..], v);
    }
  }

  lemma {:induction false} RemoveAllAppend(s: seq<Handle>, v: Handle)
    requires v !in s
    ensures RemoveAll(s + [v], v) == s
  {
    if |s| == 0 {
      assert s + [v] == [v];
    } else {
      assert (s + [v])[1..] == s[1..] + [v];
      RemoveAllAppend(s[1..], v);
    }
  }

  /** RemoveFromList: ignored while DeleteAll runs, otherwise drops `v` from the list. */
  function RemoveFromList(r: Registry, v: Handle): (r': Registry)
    ensures !r.canRemoveFromList ==> r' == r
    ensures r.canRemoveFromList ==> v !in r'.list && (forall x :: x != v ==> (x in r'.list <==> x in r.list))
    ensures r'.streamedIn == r.streamedIn && r'.canRemoveFromList == r.canRemoveFromList
  {
    if r.canRemoveFromList then r.(list := RemoveAll(r.list, v)) else r
  }

  /** Removing a vehicle undoes adding it to the end of the list. */
  lemma {:induction false} RemoveUndoesAppend(r: Registry, v: Handle)
    requires r.canRemoveFromList && v !in r.list
    ensures RemoveFromList(r.(list := r.list + [v]), v) == r
  {
    RemoveAllAppend(r.list, v);
  }

  /** Exists: a linear scan of the list. */
  method Exists(r: Registry, v: Handle) returns (found: bool)
    ensures found <==> v in r.list
  {
    var i := 0;
    while i < |r.list|
      invariant 0 <= i <= |r.list|
      invariant v !in r.list[..i]
    {
      if r.list[i] == v {
        return true;
      }
      i := i + 1;
    }
    assert r.list[..i] == r.list;
    return false;
  }

  /** Every streamed-in vehicle is also in the list of all vehicles. */
  predicate Consistent(r: Registry)
  {
    forall v :: v in r.streamedIn ==> v in r.list
  }

  /**
   * `delete` of one vehicle: its destructor asks to be taken off the list
   * (a request ignored while removal is switched off) and, its game object
   * gone, it leaves the streamed-in list.
   */
  function Destroy(r: Registry, v: Handle): (r': Registry)
    ensures r.canRemoveFromList ==> v !in r'.list
    ensures !r.canRemoveFromList ==> r'.list == r.list
    ensures forall x :: x != v ==> (x in r'.list <==> x in r.list)
    ensures v !in r'.streamedIn
    ensures forall x :: x != v ==> (x in r'.streamedIn <==> x in r.streamedIn)
    ensures r'.canRemoveFromList == r.canRemoveFromList
  {
    OnDestruction(RemoveFromList(r, v), v)
  }

  /**
   * DeleteAll: every vehicle is deleted while removal is switched off, so the
   * removal each deletion requests leaves the list being walked alone; then
   * the list is cleared and removal switched back on. Returns the vehicles
   * deleted, in order. A deleted vehicle is no longer streamed in, so a
   * consistent registry ends as empty as a freshly constructed one.
   */
  method DeleteAll(r: Registry) returns (r': Registry, deleted: seq<Handle>)
    ensures deleted == r.list
    ensures r'.list == [] && r'.canRemoveFromList
    ensures forall v :: v in r'.streamedIn <==> v in r.streamedIn && v !in r.list
    ensures Consistent(r) ==> r' == EmptyRegistry
  {
    var current := r.(canRemoveFromList := false);
    deleted := [];
    var i := 0;
    while i < |current.list|
      invariant 0 <= i <= |current.list|
      invariant current.list == r.list && !current.canRemoveFromList
      invariant deleted == r.list[..i]
      invariant forall v :: v in current.streamedIn <==> v in r.streamedIn && v !in r.list[..i]
    {
      var v := current.list[i];
      deleted := deleted + [v];
      assert r.list[..i + 1] == r.list[..i] + [v];
      current := Destroy(current, v);
      i := i + 1;
    }
    assert r.list[..i] == r.list;
    r' := current.(list := [], canRemoveFromList := true);
    assert |r'.streamedIn| > 0 ==> r'.streamedIn[0] in r'.streamedIn;
  }

  /**
   * After DeleteAll on a consistent registry, no vehicle exists any more and
   * the next frame's pulse visits nothing.
   */
  method DeleteAllThenPulse(r: Registry, v: Handle, pulse: (Registry, Handle) -> Registry)
    returns (found: bool, pulsed: seq<Handle>)
    requires Consistent(r)
    ensures !found && pulsed == []
  {
    var cleared, _ := DeleteAll(r);
    found := Exists(cleared, v);
    var _, p := DoPulse(cleared, pulse);
    pulsed := p;
  }

  /** `list[i]` is in range and no vehicle in range is nearer; none before it is as near. */
  ghost predicate IsFirstNearest(list: seq<Handle>, distance: Handle -> real, radius: real, i: int)
  {
    && 0 <= i < |list|
    && distance(list[i]) <= radius
    && (forall j :: 0 <= j < |list| && distance(list[j]) <= radius ==> distance(list[i]) <= distance(list[j]))
    && (forall j :: 0 <= j < i && distance(list[j]) <= radius ==> distance(list[i]) < distance(list[j]))
  }

  /** At most one position is the first nearest one. */
  lemma FirstNearestUnique(list: seq<Handle>, distance: Handle -> real, radius: real, i: int, k: int)
    requires IsFirstNearest(list, distance, radius, i) && IsFirstNearest(list, distance, radius, k)
    ensures i == k
  {
  }

  /**
   * GetClosest: the first vehicle, in list order, of least distance not
   * above `radius`; None when no vehicle is that close. `distance` stands
   * for DistanceBetweenPoints3D from the query point to the vehicle.
   */
  method GetClosest(r: Registry, distance: Handle -> real, radius: real) returns (closest: Option<Handle>)
    ensures closest.None? <==> forall j :: 0 <= j < |r.list| ==> distance(r.list[j]) > radius
    ensures closest.Some? ==>
              exists i :: IsFirstNearest(r.list, distance, radius, i) && r.list[i] == closest.value
  {
    closest := None;
    var closestIndex := -1;
    var closestDistance: real := 0.0;
    var k := 0;
    while k < |r.list|
      invariant 0 <= k <= |r.list|
      invariant closest.None? <==> closestIndex == -1
      invariant closest.None? ==> forall j :: 0 <= j < k ==> distance(r.list[j]) > radius
      invariant closest.Some? ==> IsFirstNearest(r.list[..k], distance, radius, closestIndex)
      invariant closest.Some? ==> closest.value == r.list[closestIndex] && closestDistance == distance(r.list[closestIndex])
    {
      var d := distance(r.list[k]);
      if d <= radius {
        if closest.None? || d < closestDistance {
          closest := Some(r.list[k]);
          closestIndex := k;
          closestDistance := d;
        }
      }
      k := k + 1;
    }
    assert r.list[..k] == r.list;
  }

  /** OnCreation: a vehicle whose game object was created starts receiving pulses. */
  function OnCreation(r: Registry, v: Handle): (r': Registry)
    ensures |r'.streamedIn| == |r.streamedIn| + 1
    ensures r'.streamedIn[..|r.streamedIn|] == r.streamedIn && r'.streamedIn[|r.streamedIn|] == v
    ensures r'.list == r.list && r'.canRemoveFromList == r.canRemoveFromList
  {
    r.(streamedIn := r.streamedIn + [v])
  }

  /** OnDestruction: a vehicle whose game object is gone stops receiving pulses. */
  function OnDestruction(r: Registry, v: Handle): (r': Registry)
    ensures v !in r'.streamedIn
    ensures forall x :: x != v ==> (x in r'.streamedIn <==> x in r.streamedIn)
    ensures r'.list == r.list && r'.canRemoveFromList == r.canRemoveFromList
  {
    r.(streamedIn := RemoveAll(r.streamedIn, v))
  }

  /** Destroying the game object of a vehicle that was not streamed in undoes its creation. */
  lemma {:induction false} DestructionUndoesCreation(r: Registry, v: Handle)
    requires v !in r.streamedIn
    ensures OnDestruction(OnCreation(r, v), v) == r
  {
    RemoveAllAppend(r.streamedIn, v);
  }

  /** Destroying twice is destroying once. */
  lemma {:induction false} DestructionIdempotent(r: Registry, v: Handle)
    ensures OnDestruction(OnDestruction(r, v), v) == OnDestruction(r, v)
  {
    RemoveAllAbsent(RemoveAll(r.streamedIn, v), v);
  }

  /**
   * DoPulse: walks a copy of the streamed-in list taken on entry, so the
   * vehicles pulsed are exactly those streamed in at that moment, even when
   * a pulse streams vehicles in or out. `pulse` is StreamedInPulse's effect
   * on the registry.
   */
  method DoPulse(r: Registry, pulse: (Registry, Handle) -> Registry) returns (r': Registry, pulsed: seq<Handle>)
    ensures pulsed == r.streamedIn
    ensures r' == PulseAll(r, r.streamedIn, pulse)
  {
    var cloneList := r.streamedIn;
    r' := r;
    pulsed := [];
    var i := 0;
    while i < |cloneList|
      invariant 0 <= i <= |cloneList|
      invariant pulsed == cloneList[..i]
      invariant PulseAll(r', cloneList[i..], pulse) == PulseAll(r, cloneList, pulse)
    {
      var v := cloneList[i];
      pulsed := pulsed + [v];
      assert cloneList[i..][1..] == cloneList[i + 1..];
      r' := pulse(r', v);
      i := i + 1;
    }
    assert cloneList[..i] == cloneList;
  }

  /** The registry after pulsing `vehicles` in order. */
  function PulseAll(r: Registry, vehicles: seq<Handle>, pulse: (Registry, Handle) -> Registry): Registry
    decreases |vehicles|
  {
    if |vehicles| == 0 then r else PulseAll(pulse(r, vehicles[0]), vehicles[1..], pulse)
  }

  /** Vehicles the manager allows before refusing to create more. */
  const VehicleLimit := 64

  /** Vehicles the game's own pool can hold. */
  const GamePoolLimit := 110

  function IsVehicleLimitReached(poolVehicleCount: nat): (reached: bool)
    ensures reached <==> poolVehicleCount >= VehicleLimit
  {
    poolVehicleCount >= VehicleLimit
  }

  /**
   * The manager refuses new vehicles while the game's pool still has room:
   * from 64 up to the pool's own 110, and not a vehicle earlier.
   */
  lemma RefusedBeforeGamePoolFull()
    ensures VehicleLimit < GamePoolLimit
    ensures forall n: nat :: VehicleLimit <= n <= GamePoolLimit ==> IsVehicleLimitReached(n)
    ensures forall n: nat :: n < VehicleLimit ==> !IsVehicleLimitReached(n)
  {
  }
}
