/** The door selection: doors hosted by a basic, stacked or unknown-kind wall are kept. */
module Selection {
  import opened Wrappers
  import opened Model

  /** The host wall kinds the macro accepts; curtain walls are left out. */
  predicate KeepsHost(k: WallKind)
  {
    k == Basic || k == Stacked || k == Unknown
  }

  /** The selected doors whose host wall kind is kept, in selection order. */
  function HostedDoors(doors: seq<Door>): seq<Door>
  {
    if doors == [] then []
    else
      var rest := HostedDoors(doors[..|doors| - 1]);
      var d := doors[|doors| - 1];
      if KeepsHost(d.host.kind) then rest + [d] else rest
  }

  /** A door is kept exactly when it was selected and its host wall is of a kept kind. */
  lemma {:induction false} HostedDoorsMembers(doors: seq<Door>)
    ensures var r := HostedDoors(doors);
      |r| <= |doors| && forall d :: d in r <==> d in doors && KeepsHost(d.host.kind)
  {
    if doors != [] {
      var init := doors[..|doors| - 1];
      HostedDoorsMembers(init);
      assert doors == init + [doors[|doors| - 1]];
    }
  }

  /** The filter keeps the selection order. */
  lemma {:induction false} HostedDoorsConcat(a: seq<Door>, b: seq<Door>)
    ensures HostedDoors(a + b) == HostedDoors(a) + HostedDoors(b)
    decreases |b|
  {
    if b == [] {
      assert a + b == a;
    } else {
      var b' := b[..|b| - 1];
      assert (a + b)[..|a + b| - 1] == a + b';
      assert (a + b)[|a + b| - 1] == b[|b| - 1];
      HostedDoorsConcat(a, b');
    }
  }

  /**
   * `get_list_Door`. The selection is `None` when the user aborts picking,
   * which the macro swallows, returning an empty list.
   */
  method GetListDoor(selection: Option<seq<Door>>) returns (listDoors: seq<Door>)
    ensures listDoors == if selection.None? then [] else HostedDoors(selection.value)
    ensures forall d :: d in listDoors <==> selection.Some? && d in selection.value && KeepsHost(d.host.kind)
  {
    listDoors := [];
    if selection.None? {
      return;
    }
    var selected := selection.value;
    for i := 0 to |selected|
      invariant listDoors == HostedDoors(selected[..i])
    {
      assert selected[..i + 1][..i] == selected[..i];
      var door := selected[i];
      if door.host.kind == Basic || door.host.kind == Stacked || door.host.kind == Unknown {
        listDoors := listDoors + [door];
      }
    }
    assert selected[..|selected|] == selected;
    HostedDoorsMembers(selected);
  }
}
