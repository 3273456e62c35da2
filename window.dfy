/**
 * The dialog's OK handler: one floor per selected door, in door order, then
 * (checkbox ticked, modern host) the merge of all of them, whose failure is
 * ignored.
 */
module Window {
  import opened Wrappers
  import opened Geometry
  import opened Units
  import opened Catalogue
  import opened Model
  import opened Utils

  /** The floors the door loop creates, in door order: one per door the host builds. */
  function BatchFloors(doors: seq<Door>, accepts: seq<Loop> -> bool, typeId: nat, heightFt: real): seq<FloorRecord>
  {
    if doors == [] then []
    else
      var rest := BatchFloors(doors[..|doors| - 1], accepts, typeId, heightFt);
      var d := doors[|doors| - 1];
      if Builds(d, accepts) then rest + [DoorFloor(d, typeId, heightFt)] else rest
  }

  /** The document after `recs` were created one after the other from id `next` on. */
  function AddFloors(m: Floors, next: nat, recs: seq<FloorRecord>): Floors
  {
    if recs == [] then m
    else AddFloors(m, next, recs[..|recs| - 1])[next + |recs| - 1 := recs[|recs| - 1]]
  }

  /** The ids `next`, `next + 1`, ... handed out to `n` new elements. */
  function FreshIds(next: nat, n: nat): seq<nat>
  {
    seq(n, i => next + i)
  }

  /**
   * `OK_Click`. The result is the list of created floor ids (`list_floors`).
   * The document ends as the door loop left it, or as the merge of those
   * floors left it when the box is ticked and the version is above 2021.
   */
  method OkClick(doc: Document, types: seq<FloorType>, doors: seq<Door>, typeName: string,
                 offsetMm: real, combine: bool, version: int) returns (created: seq<nat>)
    requires doc.Valid()
    requires FirstMatch(types, typeName).Some?
    modifies doc
    ensures doc.Valid()
    ensures var h := ToInternal(offsetMm);
      var batch := BatchFloors(doors, doc.accepts, FirstMatch(types, typeName).value.id, h);
      var mid := AddFloors(old(doc.floors), old(doc.nextId), batch);
      var midNext := old(doc.nextId) + |batch|;
      && created == FreshIds(old(doc.nextId), |batch|)
      && if combine && version > 2021 then
           var r := Combine(mid, midNext, created, h, doc.accepts);
           doc.floors == r.floors && doc.nextId == r.next
         else doc.floors == mid && doc.nextId == midNext
  {
    ghost var typeId := FirstMatch(types, typeName).value.id;
    ghost var h := ToInternal(offsetMm);
    var listFloors: seq<nat> := [];
    for i := 0 to |doors|
      invariant doc.Valid()
      invariant var batch := BatchFloors(doors[..i], doc.accepts, typeId, h);
        && listFloors == FreshIds(old(doc.nextId), |batch|)
        && doc.floors == AddFloors(old(doc.floors), old(doc.nextId), batch)
        && doc.nextId == old(doc.nextId) + |batch|
    {
      assert doors[..i + 1][..i] == doors[..i];
      var floor := CreateSeparateFloor(doc, types, doors[i], typeName, offsetMm, version);
      if floor.Some? {
        listFloors := listFloors + [floor.value];
      }
    }
    assert doors[..|doors|] == doors;
    if combine && version > 2021 {
      // The merge's outcome is discarded, as the handler swallows its exception.
      var outcome := CombineFloors(doc, listFloors, offsetMm);
    }
    created := listFloors;
  }

  // ------------------------------------------------------------ properties

  /** The door loop treats each door on its own, in order. */
  lemma {:induction false} BatchFloorsConcat(a: seq<Door>, b: seq<Door>, accepts: seq<Loop> -> bool,
                                             typeId: nat, heightFt: real)
    ensures BatchFloors(a + b, accepts, typeId, heightFt)
         == BatchFloors(a, accepts, typeId, heightFt) + BatchFloors(b, accepts, typeId, heightFt)
    decreases |b|
  {
    if b == [] {
      assert a + b == a;
    } else {
      var b' := b[..|b| - 1];
      assert (a + b)[..|a + b| - 1] == a + b';
      assert (a + b)[|a + b| - 1] == b[|b| - 1];
      BatchFloorsConcat(a, b', accepts, typeId, heightFt);
    }
  }

  /** One door yields its floor exactly when the host builds it. */
  lemma BatchFloorsOne(d: Door, accepts: seq<Loop> -> bool, typeId: nat, heightFt: real)
    ensures BatchFloors([d], accepts, typeId, heightFt)
         == if Builds(d, accepts) then [DoorFloor(d, typeId, heightFt)] else []
  {
    assert [d][..0] == [];
  }

  /** The positions of the doors the host builds, in door order. */
  function BuiltDoors(doors: seq<Door>, accepts: seq<Loop> -> bool): seq<nat>
  {
    if doors == [] then []
    else
      var rest := BuiltDoors(doors[..|doors| - 1], accepts);
      if Builds(doors[|doors| - 1], accepts) then rest + [|doors| - 1] else rest
  }

  /** The positions listed are increasing, and a door is listed exactly when the host builds it. */
  lemma {:induction false} BuiltDoorsSpec(doors: seq<Door>, accepts: seq<Loop> -> bool)
    ensures var idx := BuiltDoors(doors, accepts);
      && (forall k :: 0 <= k < |idx| ==> idx[k] < |doors|)
      && (forall k, l :: 0 <= k < l < |idx| ==> idx[k] < idx[l])
      && (forall j :: 0 <= j < |doors| ==> (j in idx <==> Builds(doors[j], accepts)))
  {
    if doors != [] {
      var init := doors[..|doors| - 1];
      BuiltDoorsSpec(init, accepts);
      var idx := BuiltDoors(doors, accepts);
      var rest := BuiltDoors(init, accepts);
      assert idx == if Builds(doors[|doors| - 1], accepts) then rest + [|doors| - 1] else rest;
      forall j | 0 <= j < |doors| ensures j in idx <==> Builds(doors[j], accepts) {
        if j < |init| {
          assert doors[j] == init[j];
          assert j in idx <==> j in rest;
        }
      }
    }
  }

  /**
   * The batch holds, in door order, the floor of each door the host builds
   * and nothing else: entry k is the floor of the k-th built door.
   */
  lemma {:induction false} BatchFloorsMembers(doors: seq<Door>, accepts: seq<Loop> -> bool, typeId: nat, heightFt: real)
    ensures var batch, idx := BatchFloors(doors, accepts, typeId, heightFt), BuiltDoors(doors, accepts);
      && |batch| == |idx| <= |doors|
      && forall k :: 0 <= k < |idx| ==> idx[k] < |doors| && batch[k] == DoorFloor(doors[idx[k]], typeId, heightFt)
  {
    BuiltDoorsSpec(doors, accepts);
    if doors != [] {
      var init := doors[..|doors| - 1];
      BatchFloorsMembers(init, accepts, typeId, heightFt);
      var batch := BatchFloors(doors, accepts, typeId, heightFt);
      var rest := BatchFloors(init, accepts, typeId, heightFt);
      var idx := BuiltDoors(doors, accepts);
      var restIdx := BuiltDoors(init, accepts);
      var last := doors[|doors| - 1];
      assert batch == if Builds(last, accepts) then rest + [DoorFloor(last, typeId, heightFt)] else rest;
      assert idx == if Builds(last, accepts) then restIdx + [|doors| - 1] else restIdx;
      forall k | 0 <= k < |idx| ensures batch[k] == DoorFloor(doors[idx[k]], typeId, heightFt) {
        if k < |restIdx| {
          assert batch[k] == rest[k] && idx[k] == restIdx[k];
          assert doors[idx[k]] == init[restIdx[k]];
        }
      }
    }
  }

  /** When the host builds every door, there is one floor per door, in door order. */
  lemma {:induction false} BatchFloorsAllBuilt(doors: seq<Door>, accepts: seq<Loop> -> bool, typeId: nat, heightFt: real)
    requires forall j :: 0 <= j < |doors| ==> Builds(doors[j], accepts)
    ensures var batch := BatchFloors(doors, accepts, typeId, heightFt);
      |batch| == |doors| && forall k :: 0 <= k < |doors| ==> batch[k] == DoorFloor(doors[k], typeId, heightFt)
  {
    if doors != [] {
      BatchFloorsAllBuilt(doors[..|doors| - 1], accepts, typeId, heightFt);
    }
  }

  /** Creating `recs` from id `next` on adds exactly those floors under fresh ids and keeps the rest. */
  lemma {:induction false} AddFloorsSpec(m: Floors, next: nat, recs: seq<FloorRecord>)
    requires forall id :: id in m ==> id < next
    ensures var r := AddFloors(m, next, recs);
      && (forall id :: id in r <==> id in m || next <= id < next + |recs|)
      && (forall id :: id in m ==> r[id] == m[id])
      && (forall id :: next <= id < next + |recs| ==> r[id] == recs[id - next])
  {
    if recs != [] {
      AddFloorsSpec(m, next, recs[..|recs| - 1]);
    }
  }

  /** The first loop of each record, in order. */
  function Heads(recs: seq<FloorRecord>): seq<Loop>
    requires forall k :: 0 <= k < |recs| ==> |recs[k].loops| > 0
  {
    seq(|recs|, k requires 0 <= k < |recs| => recs[k].loops[0])
  }

  lemma AddFloorsWellFormed(m: Floors, next: nat, recs: seq<FloorRecord>)
    requires WellFormed(m, next)
    requires forall k :: 0 <= k < |recs| ==> |recs[k].loops| > 0
    ensures WellFormed(AddFloors(m, next, recs), next + |recs|)
  {
    var mid := AddFloors(m, next, recs);
    AddFloorsSpec(m, next, recs);
    forall id | id in mid ensures id < next + |recs| && |mid[id].loops| > 0 {
      if id !in m {
        assert mid[id] == recs[id - next];
      }
    }
  }

  lemma FreshIdsSet(next: nat, n: nat)
    ensures forall id :: id in ToSet(FreshIds(next, n)) <==> next <= id < next + n
  {
    var ids := FreshIds(next, n);
    forall id | next <= id < next + n ensures id in ToSet(ids) {
      assert ids[id - next] == id;
    }
  }

  lemma FreshIdsDistinct(next: nat, n: nat)
    ensures Distinct(FreshIds(next, n))
  {
  }

  /** The fresh ids name the new records, each with its loops, in order. */
  lemma BatchFloorsPresent(m: Floors, next: nat, recs: seq<FloorRecord>)
    requires WellFormed(m, next)
    requires forall k :: 0 <= k < |recs| ==> |recs[k].loops| > 0
    ensures var mid, ids := AddFloors(m, next, recs), FreshIds(next, |recs|);
      && AllPresent(mid, ids)
      && (forall k :: 0 <= k < |ids| ==> mid[ids[k]] == recs[k])
  {
    var mid := AddFloors(m, next, recs);
    var ids := FreshIds(next, |recs|);
    AddFloorsSpec(m, next, recs);
    forall k | 0 <= k < |ids| ensures ids[k] in mid && mid[ids[k]] == recs[k] {
      assert ids[k] == next + k;
    }
  }

  lemma BatchFloorsHeads(mid: Floors, ids: seq<nat>, recs: seq<FloorRecord>)
    requires forall k :: 0 <= k < |recs| ==> |recs[k].loops| > 0
    requires |ids| == |recs| && AllPresent(mid, ids)
    requires forall k :: 0 <= k < |ids| ==> mid[ids[k]] == recs[k]
    ensures FirstLoops(mid, ids) == Heads(recs)
  {
    var f := FirstLoops(mid, ids);
    var h := Heads(recs);
    forall k | 0 <= k < |f| ensures f[k] == h[k] {
    }
  }

  /** Removing the fresh ids again gives back the document before the batch. */
  lemma BatchFloorsRemoved(m: Floors, next: nat, recs: seq<FloorRecord>)
    requires WellFormed(m, next)
    ensures AddFloors(m, next, recs) - ToSet(FreshIds(next, |recs|)) == m
  {
    var mid := AddFloors(m, next, recs);
    var added := ToSet(FreshIds(next, |recs|));
    AddFloorsSpec(m, next, recs);
    FreshIdsSet(next, |recs|);
    var rest := mid - added;
    forall id ensures id in rest <==> id in m {
      if id in m {
        assert id < next;
      }
    }
    forall id | id in rest ensures rest[id] == m[id] {
    }
  }

  /** After the door loop the fresh ids are ready to be merged. */
  lemma BatchFloorsReady(m: Floors, next: nat, recs: seq<FloorRecord>)
    requires WellFormed(m, next)
    requires recs != [] && forall k :: 0 <= k < |recs| ==> |recs[k].loops| > 0
    ensures Distinct(FreshIds(next, |recs|)) && AllPresent(AddFloors(m, next, recs), FreshIds(next, |recs|))
    ensures FreshIds(next, |recs|)[0] in AddFloors(m, next, recs)
    ensures AddFloors(m, next, recs)[FreshIds(next, |recs|)[0]] == recs[0]
    ensures forall k :: 0 <= k < |recs| ==> AddFloors(m, next, recs)[FreshIds(next, |recs|)[k]] == recs[k]
    ensures FirstLoops(AddFloors(m, next, recs), FreshIds(next, |recs|)) == Heads(recs)
    ensures AddFloors(m, next, recs) - ToSet(FreshIds(next, |recs|)) == m
  {
    var mid := AddFloors(m, next, recs);
    var ids := FreshIds(next, |recs|);
    FreshIdsDistinct(next, |recs|);
    BatchFloorsPresent(m, next, recs);
    assert mid[ids[0]] == recs[0];
    BatchFloorsHeads(mid, ids, recs);
    BatchFloorsRemoved(m, next, recs);
  }

  /** Merging floors that stand for `recs`, on top of `m`. */
  lemma MergeBatch(m: Floors, mid: Floors, ids: seq<nat>, recs: seq<FloorRecord>, newId: nat,
                   heightFt: real, accepts: seq<Loop> -> bool)
    requires recs != [] && forall k :: 0 <= k < |recs| ==> |recs[k].loops| > 0
    requires |ids| == |recs| && Distinct(ids) && AllPresent(mid, ids)
    requires ids[0] in mid
    requires mid[ids[0]] == recs[0]
    requires FirstLoops(mid, ids) == Heads(recs)
    requires mid - ToSet(ids) == m
    ensures Combine(mid, newId, ids, heightFt, accepts)
         == if accepts(Heads(recs))
            then Merged(m[newId := FloorRecord(recs[0].typeId, recs[0].levelId, Heads(recs), heightFt)], newId + 1, Success(newId))
            else Merged(m, newId, Failure(CreationRejected))
  {
    if accepts(Heads(recs)) {
      MergeSucceeds(mid, newId, ids, heightFt, accepts);
    } else {
      MergeRejected(mid, newId, ids, heightFt, accepts);
    }
  }

  /**
   * Creating a batch of floors and merging them leaves the document as it
   * was before the batch plus, when the host accepts the loops, one floor
   * with the first record's type and level carrying every record's loop in
   * order; when the host refuses, the batch floors are gone and nothing
   * replaces them.
   */
  lemma BatchThenMerge(m: Floors, next: nat, recs: seq<FloorRecord>, heightFt: real, accepts: seq<Loop> -> bool)
    requires WellFormed(m, next)
    requires recs != [] && forall k :: 0 <= k < |recs| ==> |recs[k].loops| > 0
    ensures Combine(AddFloors(m, next, recs), next + |recs|, FreshIds(next, |recs|), heightFt, accepts)
         == if accepts(Heads(recs))
            then Merged(m[next + |recs| := FloorRecord(recs[0].typeId, recs[0].levelId, Heads(recs), heightFt)],
                        next + |recs| + 1, Success(next + |recs|))
            else Merged(m, next + |recs|, Failure(CreationRejected))
  {
    BatchFloorsReady(m, next, recs);
    MergeBatch(m, AddFloors(m, next, recs), FreshIds(next, |recs|), recs, next + |recs|, heightFt, accepts);
  }
}
