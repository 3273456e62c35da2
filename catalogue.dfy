/**
 * The document's floor-type catalogue, as the dialog and the floor builder
 * use it: the sorted list of type names for the drop-down and the lookup of
 * a type by its name.
 */
module Catalogue {
  import opened Wrappers

  /** A floor type element: its element id and its type name. */
  datatype FloorType = FloorType(id: nat, name: string)

  /** Ordinal string order: character by character, a proper prefix first. */
  predicate NameLe(a: string, b: string)
  {
    a == [] || (b != [] && (a[0] < b[0] || (a[0] == b[0] && NameLe(a[1..], b[1..]))))
  }

  lemma {:induction false} NameLeTotal(a: string, b: string)
    ensures NameLe(a, b) || NameLe(b, a)
  {
    if a != [] && b != [] && a[0] == b[0] {
      NameLeTotal(a[1..], b[1..]);
    }
  }

  lemma {:induction false} NameLeTransitive(a: string, b: string, c: string)
    requires NameLe(a, b) && NameLe(b, c)
    ensures NameLe(a, c)
  {
    if a != [] && a[0] == b[0] && b[0] == c[0] {
      NameLeTransitive(a[1..], b[1..], c[1..]);
    }
  }

  lemma {:induction false} NameLeAntisymmetric(a: string, b: string)
    requires NameLe(a, b) && NameLe(b, a)
    ensures a == b
  {
    if a != [] && b != [] {
      NameLeAntisymmetric(a[1..], b[1..]);
      assert a == [a[0]] + a[1..] && b == [b[0]] + b[1..];
    }
  }

  ghost predicate Sorted(s: seq<string>)
  {
    forall i, j :: 0 <= i < j < |s| ==> NameLe(s[i], s[j])
  }

  /** The type names, in catalogue order. */
  function Names(types: seq<FloorType>): (r: seq<string>)
    ensures |r| == |types| && forall i :: 0 <= i < |types| ==> r[i] == types[i].name
  {
    if types == [] then [] else Names(types[..|types| - 1]) + [types[|types| - 1].name]
  }

  lemma PrependSorted(a: string, rest: seq<string>)
    requires Sorted(rest)
    requires forall y :: y in rest ==> NameLe(a, y)
    ensures Sorted([a] + rest)
  {
    var r := [a] + rest;
    forall i, j | 0 <= i < j < |r| ensures NameLe(r[i], r[j]) {
      if i == 0 {
        assert r[j] in rest;
      } else {
        assert r[i] == rest[i - 1] && r[j] == rest[j - 1];
      }
    }
  }

  /** Below the head of a sorted list means below all of it. */
  lemma BelowHead(x: string, s: seq<string>)
    requires Sorted(s) && s != [] && NameLe(x, s[0])
    ensures forall y :: y in s ==> NameLe(x, y)
  {
    forall y | y in s ensures NameLe(x, y) {
      if y != s[0] {
        var j :| 0 <= j < |s| && s[j] == y;
        NameLeTransitive(x, s[0], y);
      }
    }
  }

  /** The head of a sorted list stays below the tail with a larger name put in. */
  lemma HeadBelowInserted(x: string, s: seq<string>, rest: seq<string>)
    requires Sorted(s) && s != [] && !NameLe(x, s[0])
    requires multiset(rest) == multiset(s[1..]) + multiset{x}
    ensures forall y :: y in rest ==> NameLe(s[0], y)
  {
    forall y | y in rest ensures NameLe(s[0], y) {
      assert y in multiset(rest);
      if y == x {
        NameLeTotal(x, s[0]);
      } else {
        assert y in multiset(s[1..]);
        var j :| 0 <= j < |s[1..]| && s[1..][j] == y;
        assert s[j + 1] == y;
      }
    }
  }

  /** Puts `x` into its place in a sorted list. */
  function Insert(x: string, s: seq<string>): (r: seq<string>)
    requires Sorted(s)
    ensures Sorted(r) && multiset(r) == multiset(s) + multiset{x}
  {
    if s == [] then [x]
    else if NameLe(x, s[0]) then
      BelowHead(x, s);
      PrependSorted(x, s);
      assert s == [s[0]] + s[1..];
      [x] + s
    else
      var rest := Insert(x, s[1..]);
      HeadBelowInserted(x, s, rest);
      PrependSorted(s[0], rest);
      assert s == [s[0]] + s[1..];
      [s[0]] + rest
  }

  /** `list.sort()` on names: insertion sort into ordinal order. */
  function Sort(s: seq<string>): (r: seq<string>)
    ensures Sorted(r) && multiset(r) == multiset(s)
  {
    if s == [] then []
    else
      assert s == s[..|s| - 1] + [s[|s| - 1]];
      Insert(s[|s| - 1], Sort(s[..|s| - 1]))
  }

  lemma SortedTail(a: seq<string>)
    requires Sorted(a) && a != []
    ensures Sorted(a[1..])
  {
    forall i, j | 0 <= i < j < |a[1..]| ensures NameLe(a[1..][i], a[1..][j]) {
      assert a[1..][i] == a[i + 1] && a[1..][j] == a[j + 1];
    }
  }

  /** Two sorted lists holding the same names start with the same name. */
  lemma SameHead(a: seq<string>, b: seq<string>)
    requires Sorted(a) && Sorted(b) && multiset(a) == multiset(b) && a != [] && b != []
    ensures a[0] == b[0]
  {
    assert a[0] in multiset(b) && b[0] in multiset(a);
    var i :| 0 <= i < |b| && b[i] == a[0];
    var j :| 0 <= j < |a| && a[j] == b[0];
    if i > 0 && j > 0 {
      NameLeAntisymmetric(a[0], b[0]);
    }
  }

  lemma TailMultiset(a: seq<string>)
    requires a != []
    ensures multiset(a[1..]) == multiset(a) - multiset{a[0]}
  {
    assert a == [a[0]] + a[1..];
  }

  /**
   * A sorted permutation is unique: whatever sorting algorithm the host runs,
   * the names come out as `Sort` gives them.
   */
  lemma {:induction false} SortedUnique(a: seq<string>, b: seq<string>)
    requires Sorted(a) && Sorted(b) && multiset(a) == multiset(b)
    ensures a == b
  {
    assert |multiset(a)| == |a| && |multiset(b)| == |b|;
    if a != [] {
      SameHead(a, b);
      TailMultiset(a);
      TailMultiset(b);
      SortedTail(a);
      SortedTail(b);
      SortedUnique(a[1..], b[1..]);
      assert a == [a[0]] + a[1..] && b == [b[0]] + b[1..];
    }
  }

  /**
   * `get_floor_type_names`: every type's name, appended in catalogue order,
   * then sorted. The result is sorted and holds each name as often as the
   * catalogue does.
   */
  method FloorTypeNames(types: seq<FloorType>) returns (names: seq<string>)
    ensures Sorted(names)
    ensures multiset(names) == multiset(Names(types))
    ensures |names| == |types|
  {
    names := [];
    for i := 0 to |types|
      invariant names == Names(types[..i])
    {
      assert types[..i + 1][..i] == types[..i];
      names := names + [types[i].name];
    }
    assert types[..|types|] == types;
    names := Sort(names);
    assert |multiset(names)| == |multiset(Names(types))|;
  }

  /** The first catalogue entry with the given name, if any. */
  function FirstMatch(types: seq<FloorType>, name: string): Option<FloorType>
  {
    if types == [] then None
    else if types[0].name == name then Some(types[0])
    else FirstMatch(types[1..], name)
  }

  /**
   * No entry found exactly when no entry has the name; otherwise the entry
   * found has the name and no earlier entry has it.
   */
  lemma {:induction false} FirstMatchSpec(types: seq<FloorType>, name: string)
    ensures FirstMatch(types, name).None? <==> forall i :: 0 <= i < |types| ==> types[i].name != name
    ensures FirstMatch(types, name).Some? ==>
      exists i :: 0 <= i < |types| && types[i] == FirstMatch(types, name).value
        && types[i].name == name && forall j :: 0 <= j < i ==> types[j].name != name
  {
    if types != [] && types[0].name != name {
      FirstMatchSpec(types[1..], name);
      if FirstMatch(types, name).Some? {
        var i :| 0 <= i < |types[1..]| && types[1..][i] == FirstMatch(types, name).value
          && types[1..][i].name == name && forall j :: 0 <= j < i ==> types[1..][j].name != name;
        assert types[i + 1] == FirstMatch(types, name).value;
        assert forall j :: 0 <= j < i + 1 ==> types[j].name != name by {
          forall j | 0 <= j < i + 1 ensures types[j].name != name {
            if j > 0 { assert types[j] == types[1..][j - 1]; }
          }
        }
      } else {
        forall i | 0 <= i < |types| ensures types[i].name != name {
          if i > 0 { assert types[i] == types[1..][i - 1]; }
        }
      }
    }
  }

  /** `get_floorType_byName`: a linear search that stops at the first match. */
  method FindFloorTypeByName(types: seq<FloorType>, name: string) returns (r: Option<FloorType>)
    ensures r == FirstMatch(types, name)
  {
    r := None;
    var i := 0;
    while i < |types|
      invariant 0 <= i <= |types|
      invariant FirstMatch(types[i..], name) == FirstMatch(types, name)
    {
      assert types[i..][1..] == types[i + 1..];
      if types[i].name == name {
        r := Some(types[i]);
        break;
      }
      i := i + 1;
    }
  }
}
