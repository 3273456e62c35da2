/**
 * The two floor-building procedures: one threshold floor per door, and the
 * merge of several floors into one floor carrying all their loops.
 */
module Utils {
  import opened Wrappers
  import opened Geometry
  import opened Units
  import opened Footprint
  import opened Catalogue
  import opened Model

  // ------------------------------------------------------ one floor per door

  /** The loop built from the door before the floor is placed. */
  function DoorEdges(d: Door): Loop
  {
    Edges(d.location, d.width, d.host.thickness)
  }

  /** The loop of the created floor after it is moved and rotated. */
  function DoorLoop(d: Door): Loop
  {
    Placed(d.location, d.width, d.host.thickness, d.cosAngle, d.sinAngle)
  }

  /** The floor a door yields: its one loop, the chosen type, the door's level, the converted height offset. */
  function DoorFloor(d: Door, typeId: nat, heightFt: real): FloorRecord
  {
    FloorRecord(typeId, d.levelId, [DoorLoop(d)], heightFt)
  }

  /** The host creates a floor for this door. */
  predicate Builds(d: Door, accepts: seq<Loop> -> bool)
  {
    accepts([DoorEdges(d)])
  }

  /**
   * The floor a door yields has one closed four-edge loop with side lengths
   * width, thickness, width, thickness, area width * thickness, at the door's
   * base height, centred on the door's location point; its height offset is
   * the given millimetres in feet.
   */
  lemma DoorFloorShape(d: Door, typeId: nat, offsetMm: real)
    requires IsUnit(d.cosAngle, d.sinAngle)
    ensures var f := DoorFloor(d, typeId, ToInternal(offsetMm));
      && |f.loops| == 1 && IsClosed(f.loops[0]) && |f.loops[0]| == 4
      && SqLengths(f.loops[0]) == [d.width * d.width, d.host.thickness * d.host.thickness,
                                  d.width * d.width, d.host.thickness * d.host.thickness]
      && Area(f.loops[0]) == d.width * d.host.thickness
      && AtHeight(f.loops[0], d.location.z)
      && Centroid(f.loops[0]) == d.location
      && f.heightOffset * MillimetresPerFoot == offsetMm
  {
    PlacedShape(d.location, d.width, d.host.thickness, d.cosAngle, d.sinAngle);
  }

  /**
   * `create_separate_floor`. Builds the rectangle from the door, creates the
   * floor on the modern (version > 2021) or the legacy path, and only when a
   * floor was created moves it by `p1 - center`, rotates it about the vertical
   * axis through p1 and sets its height offset. Both paths give the same
   * document.
   */
  method CreateSeparateFloor(doc: Document, types: seq<FloorType>, door: Door, typeName: string,
                             offsetMm: real, version: int) returns (floor: Option<nat>)
    requires doc.Valid()
    requires FirstMatch(types, typeName).Some?
    modifies doc
    ensures doc.Valid()
    ensures var f := DoorFloor(door, FirstMatch(types, typeName).value.id, ToInternal(offsetMm));
      if Builds(door, doc.accepts) then
        && floor == Some(old(doc.nextId)) && doc.nextId == old(doc.nextId) + 1
        && doc.floors == old(doc.floors)[old(doc.nextId) := f]
      else floor == None && doc.floors == old(doc.floors) && doc.nextId == old(doc.nextId)
  {
    var p1 := door.location;
    var q := Corners(p1, door.width, door.host.thickness);
    var center := Center(p1, door.width, door.host.thickness);

    var line1, line2, line3, line4 := Edge(q[0], q[1]), Edge(q[1], q[2]), Edge(q[2], q[3]), Edge(q[3], q[0]);
    var curveLoop := [line1, line2, line3, line4];
    var profiles := [curveLoop];
    assert curveLoop == DoorEdges(door);

    var floorType := FindFloorTypeByName(types, typeName);

    if version > 2021 {
      floor := doc.CreateFloor(profiles, floorType.value.id, door.levelId);
    } else {
      var curveArray: Loop := [];
      curveArray := curveArray + [line1];
      curveArray := curveArray + [line2];
      curveArray := curveArray + [line3];
      curveArray := curveArray + [line4];
      assert curveArray == curveLoop;
      floor := doc.NewFloor(curveArray, floorType.value.id, door.levelId);
    }

    if floor.Some? {
      var id := floor.value;
      var moved := [Translate(curveLoop, Sub(p1, center))];
      doc.MoveElement(id, Sub(p1, center));
      assert MoveLoops(profiles, Sub(p1, center)) == moved;
      doc.RotateElement(id, p1, door.cosAngle, door.sinAngle);
      assert RotateLoops(moved, p1, door.cosAngle, door.sinAngle) == [DoorLoop(door)];
      doc.SetHeightOffset(id, ToInternal(offsetMm));
    }
  }

  // ------------------------------------------------------------------ merge

  datatype MergeError = EmptyList | DeletedElement | CreationRejected

  /** The document, the loops collected so far, and whether every floor was still there. */
  datatype Gathered = Gathered(floors: Floors, loops: seq<Loop>, ok: bool)

  /**
   * The merge loop: for each floor in order, take the first loop of its
   * sketch and delete the floor; stop at a floor that is no longer there.
   */
  function Gather(m: Floors, ids: seq<nat>, acc: seq<Loop>): Gathered
    decreases |ids|
  {
    if ids == [] then Gathered(m, acc, true)
    else if ids[0] !in m || |m[ids[0]].loops| == 0 then Gathered(m, acc, false)
    else Gather(m - {ids[0]}, ids[1..], acc + [m[ids[0]].loops[0]])
  }

  /** The document after a merge, the next id, and what `combine_floors` returned or raised. */
  datatype Merged = Merged(floors: Floors, next: nat, result: Result<nat, MergeError>)

  /** `combine_floors` as a function of the document. */
  function Combine(m: Floors, next: nat, ids: seq<nat>, heightFt: real, accepts: seq<Loop> -> bool): Merged
  {
    if ids == [] then Merged(m, next, Failure(EmptyList))
    else if ids[0] !in m then Merged(m, next, Failure(DeletedElement))
    else
      var first := m[ids[0]];
      var g := Gather(m, ids, []);
      if !g.ok then Merged(g.floors, next, Failure(DeletedElement))
      else if !Creatable(g.loops, accepts) then Merged(g.floors, next, Failure(CreationRejected))
      else Merged(g.floors[next := FloorRecord(first.typeId, first.levelId, g.loops, heightFt)],
                  next + 1, Success(next))
  }

  /**
   * `combine_floors`. Type and level come from the first floor; each floor's
   * first loop is collected and the floor deleted before the next one is
   * read; then one floor is created from all the loops and its height offset
   * set. A failure leaves the deletions made so far in place.
   */
  method CombineFloors(doc: Document, ids: seq<nat>, offsetMm: real) returns (r: Result<nat, MergeError>)
    requires doc.Valid()
    modifies doc
    ensures doc.Valid()
    ensures Merged(doc.floors, doc.nextId, r)
         == Combine(old(doc.floors), old(doc.nextId), ids, ToInternal(offsetMm), doc.accepts)
  {
    if |ids| == 0 {
      return Failure(EmptyList);
    }
    if ids[0] !in doc.floors {
      return Failure(DeletedElement);
    }
    var typeId, levelId := doc.floors[ids[0]].typeId, doc.floors[ids[0]].levelId;
    var profiles: seq<Loop> := [];
    for i := 0 to |ids|
      invariant doc.Valid() && doc.nextId == old(doc.nextId)
      invariant Gather(old(doc.floors), ids, []) == Gather(doc.floors, ids[i..], profiles)
    {
      assert ids[i..][1..] == ids[i + 1..];
      var id := ids[i];
      if id !in doc.floors || |doc.floors[id].loops| == 0 {
        return Failure(DeletedElement);
      }
      profiles := profiles + [doc.floors[id].loops[0]];
      doc.Delete(id);
    }
    var created := doc.CreateFloor(profiles, typeId, levelId);
    if created.None? {
      return Failure(CreationRejected);
    }
    doc.SetHeightOffset(created.value, ToInternal(offsetMm));
    r := Success(created.value);
  }

  // ------------------------------------------------------ merge properties

  ghost predicate Distinct(ids: seq<nat>)
  {
    forall i, j :: 0 <= i < j < |ids| ==> ids[i] != ids[j]
  }

  /** Every id names a floor with at least one loop. */
  ghost predicate AllPresent(m: Floors, ids: seq<nat>)
  {
    forall i :: 0 <= i < |ids| ==> ids[i] in m && |m[ids[i]].loops| > 0
  }

  function ToSet(ids: seq<nat>): set<nat>
  {
    set id | id in ids
  }

  /** Profile item 0 of each floor's sketch, in list order. */
  function FirstLoops(m: Floors, ids: seq<nat>): (r: seq<Loop>)
    requires AllPresent(m, ids)
    ensures |r| == |ids| && forall i :: 0 <= i < |ids| ==> r[i] == m[ids[i]].loops[0]
  {
    if ids == [] then [] else [m[ids[0]].loops[0]] + FirstLoops(m, ids[1..])
  }

  /** The merge goes through: a non-empty list of distinct existing floors whose loops the host accepts. */
  ghost predicate MergeApplies(m: Floors, ids: seq<nat>, accepts: seq<Loop> -> bool)
  {
    ids != [] && Distinct(ids) && AllPresent(m, ids) && accepts(FirstLoops(m, ids))
  }

  /** The floor the merge creates: the first floor's type and level, one loop per input floor. */
  function MergedFloor(m: Floors, ids: seq<nat>, heightFt: real): FloorRecord
    requires ids != [] && AllPresent(m, ids)
  {
    FloorRecord(m[ids[0]].typeId, m[ids[0]].levelId, FirstLoops(m, ids), heightFt)
  }

  lemma TailDistinct(ids: seq<nat>)
    requires ids != [] && Distinct(ids)
    ensures Distinct(ids[1..]) && ids[0] !in ids[1..]
  {
    forall i, j | 0 <= i < j < |ids[1..]| ensures ids[1..][i] != ids[1..][j] {
      assert ids[1..][i] == ids[i + 1] && ids[1..][j] == ids[j + 1];
    }
    forall i | 0 <= i < |ids[1..]| ensures ids[1..][i] != ids[0] {
      assert ids[1..][i] == ids[i + 1];
    }
  }

  lemma TailPresent(m: Floors, ids: seq<nat>)
    requires ids != [] && AllPresent(m, ids) && ids[0] !in ids[1..]
    ensures AllPresent(m - {ids[0]}, ids[1..])
  {
    forall i | 0 <= i < |ids[1..]| ensures ids[1..][i] in m - {ids[0]} {
      assert ids[1..][i] == ids[i + 1];
    }
  }

  lemma TailRemoved(m: Floors, ids: seq<nat>)
    requires ids != []
    ensures (m - {ids[0]}) - ToSet(ids[1..]) == m - ToSet(ids)
  {
    assert ToSet(ids) == {ids[0]} + ToSet(ids[1..]) by {
      assert ids == [ids[0]] + ids[1..];
    }
  }

  lemma {:induction false} GatherAll(m: Floors, ids: seq<nat>, acc: seq<Loop>)
    requires Distinct(ids) && AllPresent(m, ids)
    ensures Gather(m, ids, acc) == Gathered(m - ToSet(ids), acc + FirstLoops(m, ids), true)
  {
    if ids == [] {
      assert m - ToSet(ids) == m;
    } else {
      var m' := m - {ids[0]};
      var x := m[ids[0]].loops[0];
      TailDistinct(ids);
      TailPresent(m, ids);
      GatherAll(m', ids[1..], acc + [x]);
      TailRemoved(m, ids);
      assert FirstLoops(m', ids[1..]) == FirstLoops(m, ids)[1..];
      assert FirstLoops(m, ids) == [x] + FirstLoops(m, ids)[1..];
      assert acc + [x] + FirstLoops(m', ids[1..]) == acc + FirstLoops(m, ids);
    }
  }

  lemma {:induction false} GatherOkOnlyIf(m: Floors, ids: seq<nat>, acc: seq<Loop>)
    requires Gather(m, ids, acc).ok
    ensures Distinct(ids) && AllPresent(m, ids)
  {
    if ids != [] {
      var m' := m - {ids[0]};
      GatherOkOnlyIf(m', ids[1..], acc + [m[ids[0]].loops[0]]);
      forall i | 0 < i < |ids| ensures ids[i] != ids[0] && ids[i] in m && m[ids[i]] == m'[ids[i]] {
        assert ids[i] == ids[1..][i - 1];
      }
    }
  }

  lemma {:induction false} GatherFrame(m: Floors, ids: seq<nat>, acc: seq<Loop>)
    ensures var g := Gather(m, ids, acc);
      && (forall id :: id in g.floors ==> id in m && g.floors[id] == m[id])
      && (forall id :: id in m && id !in ids ==> id in g.floors)
  {
    if ids != [] && ids[0] in m && |m[ids[0]].loops| > 0 {
      GatherFrame(m - {ids[0]}, ids[1..], acc + [m[ids[0]].loops[0]]);
    }
  }

  /** When the merge goes through, the input floors give way to one new floor. */
  lemma MergeSucceeds(m: Floors, next: nat, ids: seq<nat>, heightFt: real, accepts: seq<Loop> -> bool)
    requires MergeApplies(m, ids, accepts)
    ensures Combine(m, next, ids, heightFt, accepts)
         == Merged((m - ToSet(ids))[next := MergedFloor(m, ids, heightFt)], next + 1, Success(next))
  {
    GatherAll(m, ids, []);
    assert [] + FirstLoops(m, ids) == FirstLoops(m, ids);
  }

  /**
   * The merge succeeds exactly when the list is non-empty, its floors are
   * distinct and present, and the host accepts their first loops; then the
   * input floors are gone and one new floor carries their loops in list
   * order, with the first floor's type and level.
   */
  lemma MergeOutcome(m: Floors, next: nat, ids: seq<nat>, heightFt: real, accepts: seq<Loop> -> bool)
    requires WellFormed(m, next)
    ensures Combine(m, next, ids, heightFt, accepts).result.Success? <==> MergeApplies(m, ids, accepts)
    ensures MergeApplies(m, ids, accepts) ==>
      Combine(m, next, ids, heightFt, accepts)
        == Merged((m - ToSet(ids))[next := MergedFloor(m, ids, heightFt)], next + 1, Success(next))
  {
    if MergeApplies(m, ids, accepts) {
      MergeSucceeds(m, next, ids, heightFt, accepts);
    }
    if ids != [] && ids[0] in m && Gather(m, ids, []).ok {
      GatherOkOnlyIf(m, ids, []);
      GatherAll(m, ids, []);
      assert [] + FirstLoops(m, ids) == FirstLoops(m, ids);
    }
  }

  /** The merged floor has one loop per input floor, each that floor's first loop. */
  lemma MergedFloorLoops(m: Floors, ids: seq<nat>, heightFt: real)
    requires ids != [] && AllPresent(m, ids)
    ensures var f := MergedFloor(m, ids, heightFt);
      |f.loops| == |ids| && (forall i :: 0 <= i < |ids| ==> f.loops[i] == m[ids[i]].loops[0])
      && f.typeId == m[ids[0]].typeId && f.levelId == m[ids[0]].levelId && f.heightOffset == heightFt
  {
  }

  /**
   * Whatever happens, a floor not in the list is untouched, nothing but the
   * new floor appears, and a failed merge creates nothing.
   */
  lemma MergeFrame(m: Floors, next: nat, ids: seq<nat>, heightFt: real, accepts: seq<Loop> -> bool)
    requires WellFormed(m, next)
    ensures var r := Combine(m, next, ids, heightFt, accepts);
      && (forall id :: id in m && id !in ids ==> id in r.floors && r.floors[id] == m[id])
      && (forall id :: id in r.floors && id != next ==> id in m && r.floors[id] == m[id])
      && (r.result.Failure? ==> r.next == next && r.floors.Keys <= m.Keys)
  {
    if ids != [] && ids[0] in m {
      GatherFrame(m, ids, []);
    }
  }

  /** On an empty list the merge fails before touching the document. */
  lemma MergeEmpty(m: Floors, next: nat, heightFt: real, accepts: seq<Loop> -> bool)
    ensures Combine(m, next, [], heightFt, accepts) == Merged(m, next, Failure(EmptyList))
  {
  }

  /** When the host refuses the merged floor, the input floors are already deleted. */
  lemma MergeRejected(m: Floors, next: nat, ids: seq<nat>, heightFt: real, accepts: seq<Loop> -> bool)
    requires ids != [] && Distinct(ids) && AllPresent(m, ids) && !accepts(FirstLoops(m, ids))
    ensures Combine(m, next, ids, heightFt, accepts) == Merged(m - ToSet(ids), next, Failure(CreationRejected))
  {
    GatherAll(m, ids, []);
    assert [] + FirstLoops(m, ids) == FirstLoops(m, ids);
  }

  function TotalArea(loops: seq<Loop>): real
  {
    if loops == [] then 0.0 else Area(loops[0]) + TotalArea(loops[1..])
  }

  /** Sum of the floor areas of the listed floors. */
  function FloorsArea(m: Floors, ids: seq<nat>): real
    requires forall i :: 0 <= i < |ids| ==> ids[i] in m
  {
    if ids == [] then 0.0 else TotalArea(m[ids[0]].loops) + FloorsArea(m, ids[1..])
  }

  lemma {:induction false} FirstLoopsArea(m: Floors, ids: seq<nat>)
    requires AllPresent(m, ids)
    requires forall i :: 0 <= i < |ids| ==> |m[ids[i]].loops| == 1
    ensures TotalArea(FirstLoops(m, ids)) == FloorsArea(m, ids)
  {
    if ids != [] {
      FirstLoopsArea(m, ids[1..]);
      var l := m[ids[0]].loops;
      assert l[1..] == [];
      assert TotalArea(l) == Area(l[0]);
      var f := FirstLoops(m, ids);
      assert f[1..] == FirstLoops(m, ids[1..]);
      assert TotalArea(f) == Area(f[0]) + TotalArea(f[1..]);
    }
  }

  /** Merging single-loop floors keeps the total signed area; `MergedFloorLoops` gives the loop count. */
  lemma MergeKeepsArea(m: Floors, ids: seq<nat>, heightFt: real)
    requires ids != [] && AllPresent(m, ids)
    requires forall i :: 0 <= i < |ids| ==> |m[ids[i]].loops| == 1
    ensures TotalArea(MergedFloor(m, ids, heightFt).loops) == FloorsArea(m, ids)
  {
    FirstLoopsArea(m, ids);
  }
}
