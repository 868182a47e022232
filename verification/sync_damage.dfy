/**
 * SVehiclePartStateSync and SVehicleDamageSync: the state of a vehicle's
 * doors, wheels, panels and lights, sent as arrays of small bit fields,
 * either every element (full sync) or only the elements flagged as changed
 * (delta sync).
 *
 * The array sizes MAX_DOORS, MAX_WHEELS, MAX_PANELS and MAX_LIGHTS come from
 * a game header that is not part of this model: here every group is a
 * sequence, and the reader takes the group's length from the structure it
 * reads into.
 */
module SyncDamage {
  import opened Common
  import opened BitStream

  /** One element of a part-state array: its changed flag and its state. */
  datatype Part = Part(changed: bool, state: uint8)

  // ----- SVehiclePartStateSync -----

  /**
   * One element as Write sends it: in delta sync a changed flag, followed by
   * the state only when the element changed; in full sync just the state.
   * The state travels in a `numBits`-wide bit field, so only its low bits go.
   */
  function WritePart(p: Part, numBits: nat, delta: bool): (bs: Bits)
    ensures delta ==> |bs| >= 1 && bs[0] == p.changed
    ensures delta && !p.changed ==> |bs| == 1
    ensures delta && p.changed ==> bs[1..] == WriteBits(p.state, numBits)
    ensures !delta ==> bs == WriteBits(p.state, numBits)
    ensures |bs| == (if !delta then numBits else if p.changed then 1 + numBits else 1)
  {
    if !delta then WriteBits(p.state, numBits)
    else if p.changed then [true] + WriteBits(p.state, numBits)
    else [false]
  }

  /** SVehiclePartStateSync::Write: every element in order. */
  function WritePartState(parts: seq<Part>, numBits: nat, delta: bool): (bs: Bits)
    ensures delta || numBits > 0 ==> |bs| >= |parts|
  {
    if |parts| == 0 then [] else WritePart(parts[0], numBits, delta) + WritePartState(parts[1..], numBits, delta)
  }

  /**
   * One element as Read takes it, over `prior`, the element's content
   * before the read. In delta sync an unset flag leaves the state alone
   * (the flag itself is stored); reading the flag past the end of the
   * stream gives false. Fails when the state bits are missing.
   */
  function ReadPart(r: Reader, prior: Part, numBits: nat, delta: bool): (res: Option<(Part, Reader)>)
    ensures delta && r.pos < |r.bits| && !r.bits[r.pos] ==> res == Some((Part(false, prior.state), Skip(r, 1)))
    ensures delta && r.pos >= |r.bits| ==> res == Some((Part(false, prior.state), r))
    ensures delta && r.pos < |r.bits| && r.bits[r.pos] ==> (res.None? <==> r.pos + 1 + numBits > |r.bits|)
    ensures !delta ==> (res.None? <==> r.pos + numBits > |r.bits|)
    ensures !delta && res.Some? ==> res.value.0.changed && res.value.1 == Skip(r, numBits)
  {
    var (flag, r1) := if delta then ReadBit(r) else (true, r);
    if !flag then Some((Part(false, prior.state), r1))
    else
      match ReadBits(r1, numBits)
      case None => None
      case Some((v, r2)) => Some((Part(true, ToUInt8(v)), r2))
  }

  /**
   * SVehiclePartStateSync::Read into an array whose content is `prior`:
   * every element in order; fails as soon as an element's state bits are
   * missing.
   */
  function ReadPartState(r: Reader, prior: seq<Part>, numBits: nat, delta: bool): (res: Option<(seq<Part>, Reader)>)
    ensures res.Some? ==> |res.value.0| == |prior|
    decreases |prior|
  {
    if |prior| == 0 then Some(([], r))
    else
      match ReadPart(r, prior[0], numBits, delta)
      case None => None
      case Some((p, r1)) =>
        match ReadPartState(r1, prior[1..], numBits, delta)
        case None => None
        case Some((rest, r2)) => Some(([p] + rest, r2))
  }

  /**
   * What the reader holds for an element after reading what the writer sent
   * for `p`: a changed element (every element, in full sync) is flagged
   * changed and carries the low `numBits` bits of its state, as an
   * `unsigned char`; an unchanged one keeps the reader's previous state.
   */
  function ReceivedPart(p: Part, prior: Part, numBits: nat, delta: bool): Part
  {
    if !delta || p.changed then Part(true, ToUInt8(Low(p.state, numBits))) else Part(false, prior.state)
  }

  function Received(parts: seq<Part>, prior: seq<Part>, numBits: nat, delta: bool): (out: seq<Part>)
    requires |prior| == |parts|
    ensures |out| == |parts|
  {
    if |parts| == 0 then []
    else [ReceivedPart(parts[0], prior[0], numBits, delta)] + Received(parts[1..], prior[1..], numBits, delta)
  }

  lemma PartRoundTrip(r: Reader, p: Part, prior: Part, numBits: nat, delta: bool)
    requires Holds(r, WritePart(p, numBits, delta))
    ensures ReadPart(r, prior, numBits, delta) == Some((ReceivedPart(p, prior, numBits, delta), Skip(r, |WritePart(p, numBits, delta)|)))
  {
    var bs := WritePart(p, numBits, delta);
    if !delta {
      ReadWriteBits(r, p.state, numBits);
    } else if p.changed {
      assert bs == [true] + WriteBits(p.state, numBits);
      HoldsSplit(r, [true], WriteBits(p.state, numBits));
      assert r.bits[r.pos] == bs[0];
      ReadWriteBits(Skip(r, 1), p.state, numBits);
    } else {
      assert r.bits[r.pos] == bs[0];
    }
  }

  /**
   * Reading back what Write sent restores every changed flag (full sync
   * marks every element changed) and the low `numBits` bits of every sent
   * state; an element delta sync skipped keeps the state the reader had.
   */
  lemma {:induction false} PartStateRoundTrip(r: Reader, parts: seq<Part>, prior: seq<Part>, numBits: nat, delta: bool)
    requires |prior| == |parts|
    requires Holds(r, WritePartState(parts, numBits, delta))
    ensures ReadPartState(r, prior, numBits, delta) ==
            Some((Received(parts, prior, numBits, delta), Skip(r, |WritePartState(parts, numBits, delta)|)))
    decreases |parts|
  {
    if |parts| > 0 {
      var head := WritePart(parts[0], numBits, delta);
      var tail := WritePartState(parts[1..], numBits, delta);
      assert WritePartState(parts, numBits, delta) == head + tail;
      HoldsSplit(r, head, tail);
      var r1 := Skip(r, |head|);
      var p := ReceivedPart(parts[0], prior[0], numBits, delta);
      var rest := Received(parts[1..], prior[1..], numBits, delta);
      assert ReadPart(r, prior[0], numBits, delta) == Some((p, r1)) by {
        PartRoundTrip(r, parts[0], prior[0], numBits, delta);
      }
      assert ReadPartState(r1, prior[1..], numBits, delta) == Some((rest, Skip(r1, |tail|))) by {
        PartStateRoundTrip(r1, parts[1..], prior[1..], numBits, delta);
      }
      assert Received(parts, prior, numBits, delta) == [p] + rest;
      assert Skip(r1, |tail|) == Skip(r, |head + tail|);
    }
  }

  /** Element `i` of what the reader holds is what it holds for element `i` of what was sent. */
  lemma {:induction false} ReceivedElements(parts: seq<Part>, prior: seq<Part>, numBits: nat, delta: bool)
    requires |prior| == |parts|
    ensures forall i :: 0 <= i < |parts| ==> Received(parts, prior, numBits, delta)[i] == ReceivedPart(parts[i], prior[i], numBits, delta)
    decreases |parts|
  {
    if |parts| > 0 {
      ReceivedElements(parts[1..], prior[1..], numBits, delta);
    }
  }

  /** A full-sync read that succeeds marks every element changed, whatever the stream held. */
  lemma {:induction false} FullSyncMarksAllChanged(r: Reader, prior: seq<Part>, numBits: nat)
    requires ReadPartState(r, prior, numBits, false).Some?
    ensures forall i :: 0 <= i < |prior| ==> ReadPartState(r, prior, numBits, false).value.0[i].changed
    decreases |prior|
  {
    if |prior| > 0 {
      var (p, r1) := ReadPart(r, prior[0], numBits, false).value;
      FullSyncMarksAllChanged(r1, prior[1..], numBits);
    }
  }

  lemma MulStep(k: nat, n: nat)
    ensures (k + 1) * n == n + k * n
  {
  }

  /** In full sync every element takes exactly `numBits` bits. */
  lemma {:induction false} FullSyncSize(parts: seq<Part>, numBits: nat)
    ensures |WritePartState(parts, numBits, false)| == |parts| * numBits
    decreases |parts|
  {
    if |parts| > 0 {
      FullSyncSize(parts[1..], numBits);
      MulStep(|parts| - 1, numBits);
    }
  }

  /** Number of elements flagged as changed. */
  function ChangedCount(parts: seq<Part>): nat
  {
    if |parts| == 0 then 0 else (if parts[0].changed then 1 else 0) + ChangedCount(parts[1..])
  }

  /** In delta sync every element takes a flag bit, and only changed ones add their state bits. */
  lemma {:induction false} DeltaSyncSize(parts: seq<Part>, numBits: nat)
    ensures |WritePartState(parts, numBits, true)| == |parts| + ChangedCount(parts) * numBits
    decreases |parts|
  {
    if |parts| > 0 {
      DeltaSyncSize(parts[1..], numBits);
      var c := ChangedCount(parts[1..]);
      if parts[0].changed {
        MulStep(c, numBits);
      }
    }
  }

  // ----- SVehicleDamageSync -----

  /** The damage structure's data: one part-state array per group. */
  datatype Damage = Damage(doors: seq<Part>, wheels: seq<Part>, panels: seq<Part>, lights: seq<Part>)

  /** Which groups the structure syncs, and whether in delta sync. */
  datatype DamageConfig = DamageConfig(syncDoors: bool, syncWheels: bool, syncPanels: bool, syncLights: bool, delta: bool)

  /** Door states take three bits; wheel, panel and light states take two. */
  const DoorBits := 3
  const PartBits := 2

  /** One group as Write sends it: its part-state structure, or nothing when the group is off. */
  function WriteGroup(enabled: bool, parts: seq<Part>, numBits: nat, delta: bool): (bs: Bits)
  {
    if enabled then WritePartState(parts, numBits, delta) else []
  }

  /** SVehicleDamageSync::Write: the enabled groups in the order doors, wheels, panels, lights. */
  function WriteDamage(d: Damage, c: DamageConfig): (bs: Bits)
    ensures !c.syncDoors && !c.syncWheels && !c.syncPanels && !c.syncLights ==> bs == []
    ensures c.delta ==> |bs| >= (if c.syncDoors then |d.doors| else 0) + (if c.syncWheels then |d.wheels| else 0)
                                + (if c.syncPanels then |d.panels| else 0) + (if c.syncLights then |d.lights| else 0)
  {
    WriteGroup(c.syncDoors, d.doors, DoorBits, c.delta)
    + WriteGroup(c.syncWheels, d.wheels, PartBits, c.delta)
    + WriteGroup(c.syncPanels, d.panels, PartBits, c.delta)
    + WriteGroup(c.syncLights, d.lights, PartBits, c.delta)
  }

  /**
   * One group as Read takes it: an enabled group is read into a fresh
   * part-state structure whose arrays hold `scratch` (the structure is a
   * local the source never initialises) and copied over the data as a
   * whole; a disabled group keeps `kept`.
   */
  function ReadGroup(r: Reader, enabled: bool, kept: seq<Part>, scratch: seq<Part>, numBits: nat, delta: bool): (res: Option<(seq<Part>, Reader)>)
  {
    if enabled then ReadPartState(r, scratch, numBits, delta) else Some((kept, r))
  }

  /**
   * SVehicleDamageSync::Read over data `current`: the enabled groups in
   * order; the first group that fails makes the whole read fail, and a
   * disabled group is neither read nor changed.
   */
  function ReadDamage(r: Reader, c: DamageConfig, current: Damage, scratch: Damage): (res: Option<(Damage, Reader)>)
    ensures res.Some? ==> |res.value.0.doors| == |if c.syncDoors then scratch.doors else current.doors|
    ensures res.Some? ==> |res.value.0.wheels| == |if c.syncWheels then scratch.wheels else current.wheels|
    ensures res.Some? ==> |res.value.0.panels| == |if c.syncPanels then scratch.panels else current.panels|
    ensures res.Some? ==> |res.value.0.lights| == |if c.syncLights then scratch.lights else current.lights|
  {
    var doors := ReadGroup(r, c.syncDoors, current.doors, scratch.doors, DoorBits, c.delta);
    if doors.None? then None
    else
      var wheels := ReadGroup(doors.value.1, c.syncWheels, current.wheels, scratch.wheels, PartBits, c.delta);
      if wheels.None? then None
      else
        var panels := ReadGroup(wheels.value.1, c.syncPanels, current.panels, scratch.panels, PartBits, c.delta);
        if panels.None? then None
        else
          var lights := ReadGroup(panels.value.1, c.syncLights, current.lights, scratch.lights, PartBits, c.delta);
          if lights.None? then None
          else Some((Damage(doors.value.0, wheels.value.0, panels.value.0, lights.value.0), lights.value.1))
  }

  /** A disabled group is neither read nor changed. */
  lemma DisabledGroupsKept(r: Reader, c: DamageConfig, current: Damage, scratch: Damage)
    requires ReadDamage(r, c, current, scratch).Some?
    ensures !c.syncDoors ==> ReadDamage(r, c, current, scratch).value.0.doors == current.doors
    ensures !c.syncWheels ==> ReadDamage(r, c, current, scratch).value.0.wheels == current.wheels
    ensures !c.syncPanels ==> ReadDamage(r, c, current, scratch).value.0.panels == current.panels
    ensures !c.syncLights ==> ReadDamage(r, c, current, scratch).value.0.lights == current.lights
  {
  }

  /** With every group disabled the read consumes nothing and changes nothing. */
  lemma NothingEnabledReadsNothing(r: Reader, c: DamageConfig, current: Damage, scratch: Damage)
    requires !c.syncDoors && !c.syncWheels && !c.syncPanels && !c.syncLights
    ensures ReadDamage(r, c, current, scratch) == Some((current, r))
  {
  }

  /** A failing door read fails the whole read. */
  lemma FirstGroupFailureFails(r: Reader, c: DamageConfig, current: Damage, scratch: Damage)
    requires c.syncDoors && ReadPartState(r, scratch.doors, DoorBits, c.delta).None?
    ensures ReadDamage(r, c, current, scratch).None?
  {
  }

  /**
   * Once the doors are read or skipped, a failing wheel read fails the whole
   * read, whether or not the doors were enabled.
   */
  lemma WheelFailureFails(r: Reader, c: DamageConfig, current: Damage, scratch: Damage,
                          doors: seq<Part>, r1: Reader)
    requires ReadGroup(r, c.syncDoors, current.doors, scratch.doors, DoorBits, c.delta) == Some((doors, r1))
    requires c.syncWheels && ReadPartState(r1, scratch.wheels, PartBits, c.delta).None?
    ensures ReadDamage(r, c, current, scratch).None?
  {
  }

  /** A failing panel read after the doors and wheels fails the whole read. */
  lemma PanelFailureFails(r: Reader, c: DamageConfig, current: Damage, scratch: Damage,
                          doors: seq<Part>, r1: Reader, wheels: seq<Part>, r2: Reader)
    requires ReadGroup(r, c.syncDoors, current.doors, scratch.doors, DoorBits, c.delta) == Some((doors, r1))
    requires ReadGroup(r1, c.syncWheels, current.wheels, scratch.wheels, PartBits, c.delta) == Some((wheels, r2))
    requires c.syncPanels && ReadPartState(r2, scratch.panels, PartBits, c.delta).None?
    ensures ReadDamage(r, c, current, scratch).None?
  {
  }

  /** A failing light read after the other three groups fails the whole read. */
  lemma LightFailureFails(r: Reader, c: DamageConfig, current: Damage, scratch: Damage,
                          doors: seq<Part>, r1: Reader, wheels: seq<Part>, r2: Reader,
                          panels: seq<Part>, r3: Reader)
    requires ReadGroup(r, c.syncDoors, current.doors, scratch.doors, DoorBits, c.delta) == Some((doors, r1))
    requires ReadGroup(r1, c.syncWheels, current.wheels, scratch.wheels, PartBits, c.delta) == Some((wheels, r2))
    requires ReadGroup(r2, c.syncPanels, current.panels, scratch.panels, PartBits, c.delta) == Some((panels, r3))
    requires c.syncLights && ReadPartState(r3, scratch.lights, PartBits, c.delta).None?
    ensures ReadDamage(r, c, current, scratch).None?
  {
  }

  /** What the reader holds for one group after reading what the writer sent. */
  function ReceivedGroup(enabled: bool, sent: seq<Part>, kept: seq<Part>, scratch: seq<Part>, numBits: nat, delta: bool): seq<Part>
    requires enabled ==> |scratch| == |sent|
  {
    if enabled then Received(sent, scratch, numBits, delta) else kept
  }

  /** Every enabled group of `d` has the length of the reader's array for it. */
  predicate Fits(d: Damage, c: DamageConfig, scratch: Damage)
  {
    && (c.syncDoors ==> |scratch.doors| == |d.doors|)
    && (c.syncWheels ==> |scratch.wheels| == |d.wheels|)
    && (c.syncPanels ==> |scratch.panels| == |d.panels|)
    && (c.syncLights ==> |scratch.lights| == |d.lights|)
  }

  lemma GroupRoundTrip(r: Reader, enabled: bool, sent: seq<Part>, kept: seq<Part>, scratch: seq<Part>, numBits: nat, delta: bool)
    requires enabled ==> |scratch| == |sent|
    requires Holds(r, WriteGroup(enabled, sent, numBits, delta))
    ensures ReadGroup(r, enabled, kept, scratch, numBits, delta) ==
            Some((ReceivedGroup(enabled, sent, kept, scratch, numBits, delta), Skip(r, |WriteGroup(enabled, sent, numBits, delta)|)))
  {
    if enabled {
      PartStateRoundTrip(r, sent, scratch, numBits, delta);
    }
  }

  /**
   * Reading back what Write sent with the same configuration restores each
   * enabled group as the part-state round trip describes and leaves each
   * disabled group as the reader had it.
   */
  lemma DamageRoundTrip(r: Reader, d: Damage, c: DamageConfig, current: Damage, scratch: Damage)
    requires Fits(d, c, scratch)
    requires Holds(r, WriteDamage(d, c))
    ensures ReadDamage(r, c, current, scratch) == Some((
              Damage(
                ReceivedGroup(c.syncDoors, d.doors, current.doors, scratch.doors, DoorBits, c.delta),
                ReceivedGroup(c.syncWheels, d.wheels, current.wheels, scratch.wheels, PartBits, c.delta),
                ReceivedGroup(c.syncPanels, d.panels, current.panels, scratch.panels, PartBits, c.delta),
                ReceivedGroup(c.syncLights, d.lights, current.lights, scratch.lights, PartBits, c.delta)),
              Skip(r, |WriteDamage(d, c)|)))
  {
    var g1 := WriteGroup(c.syncDoors, d.doors, DoorBits, c.delta);
    var g2 := WriteGroup(c.syncWheels, d.wheels, PartBits, c.delta);
    var g3 := WriteGroup(c.syncPanels, d.panels, PartBits, c.delta);
    var g4 := WriteGroup(c.syncLights, d.lights, PartBits, c.delta);
    var r1 := Skip(r, |g1|);
    var r2 := Skip(r1, |g2|);
    var r3 := Skip(r2, |g3|);
    var r4 := Skip(r3, |g4|);
    var doors := ReceivedGroup(c.syncDoors, d.doors, current.doors, scratch.doors, DoorBits, c.delta);
    var wheels := ReceivedGroup(c.syncWheels, d.wheels, current.wheels, scratch.wheels, PartBits, c.delta);
    var panels := ReceivedGroup(c.syncPanels, d.panels, current.panels, scratch.panels, PartBits, c.delta);
    var lights := ReceivedGroup(c.syncLights, d.lights, current.lights, scratch.lights, PartBits, c.delta);
    assert WriteDamage(d, c) == g1 + g2 + g3 + g4;
    HoldsFour(r, g1, g2, g3, g4);
    assert ReadGroup(r, c.syncDoors, current.doors, scratch.doors, DoorBits, c.delta) == Some((doors, r1)) by {
      GroupRoundTrip(r, c.syncDoors, d.doors, current.doors, scratch.doors, DoorBits, c.delta);
    }
    assert ReadGroup(r1, c.syncWheels, current.wheels, scratch.wheels, PartBits, c.delta) == Some((wheels, r2)) by {
      GroupRoundTrip(r1, c.syncWheels, d.wheels, current.wheels, scratch.wheels, PartBits, c.delta);
    }
    assert ReadGroup(r2, c.syncPanels, current.panels, scratch.panels, PartBits, c.delta) == Some((panels, r3)) by {
      GroupRoundTrip(r2, c.syncPanels, d.panels, current.panels, scratch.panels, PartBits, c.delta);
    }
    assert ReadGroup(r3, c.syncLights, current.lights, scratch.lights, PartBits, c.delta) == Some((lights, r4)) by {
      GroupRoundTrip(r3, c.syncLights, d.lights, current.lights, scratch.lights, PartBits, c.delta);
    }
    ReadDamageSteps(r, c, current, scratch, doors, r1, wheels, r2, panels, r3, lights, r4);
  }

  /** ReadDamage is the four group reads, one after another. */
  lemma ReadDamageSteps(r: Reader, c: DamageConfig, current: Damage, scratch: Damage,
                        doors: seq<Part>, r1: Reader, wheels: seq<Part>, r2: Reader,
                        panels: seq<Part>, r3: Reader, lights: seq<Part>, r4: Reader)
    requires ReadGroup(r, c.syncDoors, current.doors, scratch.doors, DoorBits, c.delta) == Some((doors, r1))
    requires ReadGroup(r1, c.syncWheels, current.wheels, scratch.wheels, PartBits, c.delta) == Some((wheels, r2))
    requires ReadGroup(r2, c.syncPanels, current.panels, scratch.panels, PartBits, c.delta) == Some((panels, r3))
    requires ReadGroup(r3, c.syncLights, current.lights, scratch.lights, PartBits, c.delta) == Some((lights, r4))
    ensures ReadDamage(r, c, current, scratch) == Some((Damage(doors, wheels, panels, lights), r4))
  {
  }

  /** Four pieces written one after another are read one after another. */
  lemma HoldsFour(r: Reader, a: Bits, b: Bits, c: Bits, d: Bits)
    requires Holds(r, a + b + c + d)
    ensures Holds(r, a) && Holds(Skip(r, |a|), b)
    ensures Holds(Skip(Skip(r, |a|), |b|), c)
    ensures Holds(Skip(Skip(Skip(r, |a|), |b|), |c|), d)
    ensures Skip(Skip(Skip(Skip(r, |a|), |b|), |c|), |d|) == Skip(r, |a + b + c + d|)
  {
    HoldsSplit(r, a + b + c, d);
    HoldsSplit(r, a + b, c);
    HoldsSplit(r, a, b);
  }

  /** In delta sync with the flags kept, a door sent as changed comes back with its 3-bit state. */
  lemma DoorStateSurvives(r: Reader, d: Damage, c: DamageConfig, current: Damage, scratch: Damage, i: nat)
    requires Fits(d, c, scratch) && c.syncDoors
    requires Holds(r, WriteDamage(d, c))
    requires i < |d.doors| && (d.doors[i].changed || !c.delta) && d.doors[i].state < 8
    ensures ReadDamage(r, c, current, scratch).Some?
    ensures ReadDamage(r, c, current, scratch).value.0.doors[i] == Part(true, d.doors[i].state)
  {
    DamageRoundTrip(r, d, c, current, scratch);
    ReceivedElements(d.doors, scratch.doors, DoorBits, c.delta);
    assert Pow2(3) == 8 by {
      assert Pow2(1) == 2 && Pow2(2) == 4;
    }
    LowFits(d.doors[i].state, 3);
  }
}
