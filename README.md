# CREATE-THRESHOLD, modelled in Dafny

CREATE-THRESHOLD is a Revit macro. It builds a thin "threshold" floor under
every selected door. The floor is a rectangle as wide as the door and as deep
as the host wall is thick. It is created at the door's location point, moved
back by half its size, rotated by the door's angle about the vertical axis
through that point, and raised by a height offset the user types in
millimetres. When the user ticks the "combine" box and the host is newer than
2021, all threshold floors are then merged into one floor.

This project models that core and proves properties about it:

- `Geometry`: points, edges and loops with exact `real` coordinates. It has
  translation, rotation about a vertical axis, squared edge length, a
  shoelace area and the vertex centroid.
- `Units`: the millimetre to foot conversion of the height offset.
- `Footprint`: the door's corners, its centre, the closed four-edge loop,
  and the loop after the move and the rotation.
- `Catalogue`: the sorted list of floor-type names, and the first-match
  lookup of a type by name.
- `Model`: the host document as a class. It holds a map from element id to
  floor record and a counter for fresh ids. It also carries the host's own
  decision, which the macro cannot see, of whether it accepts a set of loops
  as a floor. Its methods are the host calls the macro makes: create (modern
  and legacy), delete, move, rotate and set the height offset.
- `Utils`: `create_separate_floor` and `combine_floors` as methods over the
  document. Each is tied to pure specification functions (`DoorFloor`,
  `Combine`), and lemmas about those functions state what a floor or a merge
  looks like.
- `Window`: the OK handler. It runs the door loop and then, when asked, the
  merge, which is allowed to fail. Lemmas connect the loop's outcome to the
  merge.
- `Selection`: the door filter on the host wall's kind.

The door's rotation angle is given by its cosine and sine, with
`c * c + s * s == 1`. Areas and lengths are compared exactly; no square root
is taken.

## Model

| member | source | states |
|---|---|---|
| Catalogue.Names | script.py:62-65 | the appended list holds, position by position, the name of each floor type in catalogue order |
| Catalogue.Sort | script.py:66 | the sorted names are in ordinal order and are a permutation of the input |
| Catalogue.SortedUnique | script.py:66 | two sorted lists holding the same names are equal, so the sorted list does not depend on the sorting algorithm |
| Catalogue.FloorTypeNames | script.py:61-67 | the type names come back sorted, as a permutation of the catalogue's names, one per type |
| Catalogue.FirstMatchSpec | script.py:70-77 | the lookup finds nothing exactly when no type has the name; otherwise the type found has the name and no earlier type has it |
| Catalogue.FindFloorTypeByName | script.py:70-77 | the loop that stops at the first name match returns the first matching type, or nothing |
| Units.ToInternal | script.py:132 | the offset in feet times 304.8 gives back the offset in millimetres |
| Units.ToInternalLinear | script.py:132 | the conversion is additive and commutes with scaling |
| Units.OneMetreOffset | script.py:132 | a 1000 mm offset becomes between 3.2808 and 3.2809 feet |
| Geometry.Translate | script.py:129 | moving a loop moves every edge by the vector and keeps the edge count |
| Geometry.Rotate | script.py:130-131 | rotating a loop rotates every edge about the pivot and keeps the edge count |
| Geometry.TranslateKeepsClosed | script.py:129 | a moved closed loop is still closed |
| Geometry.RotateKeepsClosed | script.py:130-131 | a rotated closed loop is still closed |
| Geometry.TranslateKeepsSqLength | script.py:129 | a move keeps an edge's length |
| Geometry.RotateKeepsSqLength | script.py:130-131 | a rotation by a unit (cos, sin) keeps an edge's length |
| Geometry.TranslateKeepsArea | script.py:129 | a move keeps the enclosed area |
| Geometry.RotateKeepsArea | script.py:130-131 | a rotation keeps the enclosed area |
| Geometry.TranslateMovesCentroid | script.py:129 | a move shifts the centroid by the same vector |
| Geometry.RotateMovesCentroid | script.py:130-131 | a rotation about a pivot rotates the centroid about that pivot |
| Footprint.Corners | script.py:96-99 | p2, p3 and p4 are p1 shifted by (width, 0), (width, thickness) and (0, thickness), all at p1's height |
| Footprint.Center | script.py:100 | the average of the four corners is p1 + (width/2, thickness/2, 0) |
| Footprint.MoveVector | script.py:129 | p1 - center is (-width/2, -thickness/2, 0) |
| Footprint.EdgesClosed | script.py:103-107 | the four lines form a closed loop of four edges |
| Footprint.EdgesSides | script.py:96-107 | the edges run +X, +Y, -X, -Y with lengths width, thickness, width, thickness, at p1's height |
| Footprint.EdgesArea | script.py:96-107 | the loop encloses width * thickness, counter-clockwise |
| Footprint.EdgesCentroid | script.py:100-107 | the centre the macro computes is the centroid of the loop it builds |
| Footprint.TranslateAtHeight | script.py:129 | the horizontal move keeps every vertex at its height |
| Footprint.RotateAtHeight | script.py:130-131 | the rotation about a vertical axis keeps every vertex at its height |
| Footprint.TranslateKeepsSqLengths | script.py:129 | the move keeps the edge lengths in order |
| Footprint.RotateKeepsSqLengths | script.py:130-131 | the rotation keeps the edge lengths in order |
| Footprint.PlacedShape | script.py:96-131 | after the move and rotation the footprint is a closed four-edge loop with the same sides and area, at the door's height, centred on the door's location point |
| Footprint.Door900By200 | script.py:96-100 | a 900 by 200 footprint has its centre 450 along the width and 100 into the wall from p1 |
| Footprint.QuarterTurn | script.py:130-131 | after a quarter turn the area is unchanged and the width edge runs along +Y |
| Model.MoveLoops | script.py:129 | moving an element moves each of its loops, in order |
| Model.RotateLoops | script.py:130-131 | rotating an element rotates each of its loops, in order |
| Model.Document.CreateFloor | script.py:117 | a floor with the given loops, type and level gets the next fresh id when the host accepts a non-empty profile; otherwise nothing changes |
| Model.Document.NewFloor | script.py:119-126 | the legacy call makes the flat edge list the floor's only loop, with the same outcome rules |
| Model.Document.Delete | script.py:152 | the element is gone and nothing else changes |
| Model.Document.MoveElement | script.py:129 | only the moved floor's loops change, each moved by the vector |
| Model.Document.RotateElement | script.py:130-131 | only the rotated floor's loops change, each rotated about the pivot |
| Model.Document.SetHeightOffset | script.py:132 | only the floor's height offset changes |
| Utils.DoorFloorShape | script.py:96-132 | the floor a door yields has one closed four-edge loop with the door's width and the wall's thickness as sides, area width * thickness, at the door's height, centred on the door's point, with the offset converted to feet |
| Utils.CreateSeparateFloor | script.py:81-134 | on both version paths: when the host builds the footprint, exactly one floor is added under the next id, placed and raised; otherwise the result is none and the document is unchanged |
| Utils.CombineFloors | script.py:137-156 | the merge method leaves the document, the next id and its outcome exactly as the merge function describes |
| Utils.FirstLoops | script.py:144-151 | the collected profiles are, in list order, the first sketch loop of each floor |
| Utils.GatherAll | script.py:144-152 | on distinct present floors the loop deletes all of them and collects their first loops in order |
| Utils.GatherOkOnlyIf | script.py:144-152 | the loop runs to the end only when the floors are distinct and present |
| Utils.GatherFrame | script.py:144-152 | the loop only deletes, and every floor not in the list survives it |
| Utils.MergeSucceeds | script.py:137-156 | a merge that applies deletes the listed floors and adds one floor with the first floor's type and level and all their loops |
| Utils.MergeOutcome | script.py:137-156 | the merge succeeds exactly when the list is non-empty, its floors are distinct and present and the host accepts their loops, and then the document is exactly as described |
| Utils.MergedFloorLoops | script.py:139-155 | the merged floor has one loop per input floor, each that floor's first loop, with the first floor's type and level and the given offset |
| Utils.MergeFrame | script.py:137-156 | whatever happens, floors not in the list are untouched, no floor but the new one appears, and a failed merge creates nothing |
| Utils.MergeEmpty | script.py:139 | an empty list fails before anything is deleted |
| Utils.MergeRejected | script.py:152-155 | when the host refuses the merged floor, the listed floors stay deleted and nothing is created |
| Utils.FirstLoopsArea | script.py:144-151 | for single-loop floors the collected loops enclose the floors' total area |
| Utils.MergeKeepsArea | script.py:141-155 | merging single-loop floors keeps their total signed area |
| Window.OkClick | script.py:189-214 | the handler returns the fresh ids of the created floors, in door order; the document is as the door loop left it, or as the merge of those floors left it when the box is ticked and the version is above 2021, whatever the merge's outcome |
| Window.BatchFloorsConcat | script.py:199-203 | the door loop treats each door on its own, in order |
| Window.BatchFloorsOne | script.py:200-203 | one door gives its floor exactly when the host builds it |
| Window.BuiltDoorsSpec | script.py:200-203 | the positions of the doors the host builds are listed in increasing order, each door exactly when the host builds it |
| Window.BatchFloorsMembers | script.py:199-203 | entry k of the created floors is the floor of the k-th door the host builds, so there is one floor per built door, in door order, and no other |
| Window.BatchFloorsAllBuilt | script.py:199-203 | when the host builds every door, there is one floor per door, in door order |
| Window.AddFloorsSpec | script.py:199-203 | the loop adds exactly the built floors under fresh ids and keeps every earlier floor |
| Window.AddFloorsWellFormed | script.py:199-203 | the door loop keeps the document well formed |
| Window.BatchFloorsPresent | script.py:199-208 | each returned id names its created floor |
| Window.BatchFloorsRemoved | script.py:199-208 | deleting the returned ids gives back the document from before the click |
| Window.BatchFloorsReady | script.py:199-208 | the returned ids are distinct, present and name the created floors in order |
| Window.MergeBatch | script.py:206-210 | merging the created floors gives the earlier document plus one merged floor, or the earlier document alone when the host refuses |
| Window.BatchThenMerge | script.py:199-210 | a click with the box ticked leaves the document from before the click plus one floor with the first door floor's type and level carrying every door floor's loop in order, or leaves it without any new floor when the host refuses the merge |
| Selection.HostedDoorsMembers | script.py:230-235 | a door is kept exactly when it was selected and its host wall is Basic, Stacked or Unknown |
| Selection.HostedDoorsConcat | script.py:230-235 | the filter keeps the selection order |
| Selection.GetListDoor | script.py:226-239 | the kept doors are the selected doors with a kept host kind, in order, and an aborted pick gives an empty list |

## Left out

- The door's angle in radians, and sin and cos of it: the model takes the cosine and sine, with `c * c + s * s == 1`.
- IEEE floating point: coordinates and the 304.8 division are exact reals.
- Transactions, the "Completed!" message box, the WPF window, its XAML loading and the Cancel button: these are UI and host I/O.
- Reading the offset text with `float()`, and the rectangle pick with its door filter: the selection and the offset are parameters.
- How the host version is detected: the version is a parameter.
- Whether the host accepts a profile is the document's `accepts`, a function the macro cannot see. A host whose create call raises an error, instead of returning no floor, is modelled as returning none.
- The order of a floor sketch's profile curves is taken to be the order they were created in.
- Name order is ordinal, character by character. Culture-aware string comparison is not modelled.
- Utils.CreateSeparateFloor: a floor type with the chosen name is a precondition. With no match, the modern path raises from `floor_type.Id` and the legacy path passes no type to the host; neither is modelled.
- Window.OkClick: has the same precondition, because it calls Utils.CreateSeparateFloor for each door.
- Model.Document.CreateFloor: element ids come from a counter, so successive floors get consecutive ids. The host gives out ids its own way, and a floor also owns a sketch element with an id of its own; only freshness and order are meant.
- Window.OkClick: the door loop has no error handling. So when the host raises instead of returning no floor, the handler ends at that door. That covers `Floor.Create` refusing a profile, and `Line.CreateBound` refusing a zero-width door or a wall of zero thickness. The remaining doors are not processed, and the merge, the commit and the message box are not reached. The model instead skips the door, goes on with the next one, and commits the result.
- Selection.GetListDoor: a partly built list, from an error inside the loop after some doors were kept, is not modelled; only an aborted pick is.
- The main entry point that shows the window only when doors were kept is UI flow and is not modelled.
