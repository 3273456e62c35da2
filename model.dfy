/**
 * The host document, reduced to what the macro reads and writes: a map from
 * element id to floor record, the id the next created element gets, and the
 * host's (unseen) decision whether it accepts a set of loops as a floor.
 */
module Model {
  import opened Geometry
  import opened Wrappers

  /** A floor element: its type, its level, its sketch loops and its height above the level (feet). */
  datatype FloorRecord = FloorRecord(typeId: nat, levelId: nat, loops: seq<Loop>, heightOffset: real)

  type Floors = map<nat, FloorRecord>

  /** Revit's wall kinds. */
  datatype WallKind = Unknown | Basic | Curtain | Stacked

  /** A host wall: the width of its type and its kind. */
  datatype Wall = Wall(thickness: real, kind: WallKind)

  /**
   * A door instance as the macro reads it: its location point, its rotation
   * angle given by cosine and sine, the width of its type, its host wall and
   * its level.
   */
  datatype Door = Door(location: Point, cosAngle: real, sinAngle: real, width: real, host: Wall, levelId: nat)

  /** Every id is below the next id, and every floor has at least one loop. */
  ghost predicate WellFormed(floors: Floors, next: nat)
  {
    forall id :: id in floors ==> id < next && |floors[id].loops| > 0
  }

  /** The host creates a floor from a non-empty list of loops that it accepts. */
  predicate Creatable(profiles: seq<Loop>, accepts: seq<Loop> -> bool)
  {
    |profiles| > 0 && accepts(profiles)
  }

  function MoveLoops(loops: seq<Loop>, v: Point): (r: seq<Loop>)
    ensures |r| == |loops| && forall i :: 0 <= i < |loops| ==> r[i] == Translate(loops[i], v)
  {
    if loops == [] then [] else [Translate(loops[0], v)] + MoveLoops(loops[1..], v)
  }

  function RotateLoops(loops: seq<Loop>, pivot: Point, c: real, s: real): (r: seq<Loop>)
    ensures |r| == |loops| && forall i :: 0 <= i < |loops| ==> r[i] == Rotate(loops[i], pivot, c, s)
  {
    if loops == [] then [] else [Rotate(loops[0], pivot, c, s)] + RotateLoops(loops[1..], pivot, c, s)
  }

  class Document {
    var floors: Floors
    var nextId: nat
    /** The host's geometry check on a floor's profile, not visible to the macro. */
    const accepts: seq<Loop> -> bool

    ghost predicate Valid()
      reads this
    {
      WellFormed(floors, nextId)
    }

    constructor (floors0: Floors, next0: nat, accepts0: seq<Loop> -> bool)
      requires WellFormed(floors0, next0)
      ensures Valid() && floors == floors0 && nextId == next0 && accepts == accepts0
    {
      floors, nextId, accepts := floors0, next0, accepts0;
    }

    /** `Floor.Create`: one floor whose loops are `profiles`, at height offset 0; `None` when the host refuses. */
    method CreateFloor(profiles: seq<Loop>, typeId: nat, levelId: nat) returns (r: Option<nat>)
      requires Valid()
      modifies this
      ensures Valid()
      ensures if Creatable(profiles, accepts) then
          && r == Some(old(nextId)) && nextId == old(nextId) + 1
          && floors == old(floors)[old(nextId) := FloorRecord(typeId, levelId, profiles, 0.0)]
        else r == None && floors == old(floors) && nextId == old(nextId)
    {
      if |profiles| > 0 && accepts(profiles) {
        r := Some(nextId);
        floors := floors[nextId := FloorRecord(typeId, levelId, profiles, 0.0)];
        nextId := nextId + 1;
      } else {
        r := None;
      }
    }

    /** `Document.Create.NewFloor` (legacy): one flat edge list becomes the floor's only loop. */
    method NewFloor(curves: Loop, typeId: nat, levelId: nat) returns (r: Option<nat>)
      requires Valid()
      modifies this
      ensures Valid()
      ensures if accepts([curves]) then
          && r == Some(old(nextId)) && nextId == old(nextId) + 1
          && floors == old(floors)[old(nextId) := FloorRecord(typeId, levelId, [curves], 0.0)]
        else r == None && floors == old(floors) && nextId == old(nextId)
    {
      r := CreateFloor([curves], typeId, levelId);
    }

    /** `Document.Delete` of an existing element. */
    method Delete(id: nat)
      requires Valid() && id in floors
      modifies this
      ensures Valid() && floors == old(floors) - {id} && nextId == old(nextId)
    {
      floors := floors - {id};
    }

    /** `ElementTransformUtils.MoveElement`: every loop of the floor moves by `v`. */
    method MoveElement(id: nat, v: Point)
      requires Valid() && id in floors
      modifies this
      ensures Valid() && nextId == old(nextId)
      ensures floors == old(floors)[id := old(floors)[id].(loops := MoveLoops(old(floors)[id].loops, v))]
    {
      floors := floors[id := floors[id].(loops := MoveLoops(floors[id].loops, v))];
    }

    /** `ElementTransformUtils.RotateElement` about the vertical axis through `pivot`, by the angle whose cosine and sine are (c, s). */
    method RotateElement(id: nat, pivot: Point, c: real, s: real)
      requires Valid() && id in floors
      modifies this
      ensures Valid() && nextId == old(nextId)
      ensures floors == old(floors)[id := old(floors)[id].(loops := RotateLoops(old(floors)[id].loops, pivot, c, s))]
    {
      floors := floors[id := floors[id].(loops := RotateLoops(floors[id].loops, pivot, c, s))];
    }

    /** Sets the floor's "height offset from level" parameter (feet). */
    method SetHeightOffset(id: nat, h: real)
      requires Valid() && id in floors
      modifies this
      ensures Valid() && nextId == old(nextId)
      ensures floors == old(floors)[id := old(floors)[id].(heightOffset := h)]
    {
      floors := floors[id := floors[id].(heightOffset := h)];
    }
  }
}
