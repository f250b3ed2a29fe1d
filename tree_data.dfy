/** The tree list of the editor: a table of tree records keyed by `id`, with
    one selected tree. Ids of new trees are one more than the largest id in
    use, deleting never empties the list, and an update replaces one field of
    the records carrying the given id. */
module TreeData {
  import opened Types

  /** One tree record. The source's `type` field is called `kind` here
      (`type` is a Dafny keyword). */
  datatype Tree = Tree(id: int, name: string, trunkDiameter: real, crownWidth: real,
                       height: real, color: string, kind: string,
                       latitude: real, longitude: real)

  /** `updateTree(id, field, value)`: the field to replace together with its
      new value, one constructor per field of Tree. */
  datatype FieldUpdate =
    | SetId(id: int)
    | SetName(name: string)
    | SetTrunkDiameter(trunkDiameter: real)
    | SetCrownWidth(crownWidth: real)
    | SetHeight(height: real)
    | SetColor(color: string)
    | SetKind(kind: string)
    | SetLatitude(latitude: real)
    | SetLongitude(longitude: real)

  /** The colour palette new trees draw from. */
  const TreeColors: seq<string> :=
    ["#228B22", "#006400", "#556B2F", "#8FBC8F", "#2E8B57", "#3CB371"]

  /** The kind every new tree starts with ("broadleaf"). */
  const Broadleaf: string := "広葉樹"

  /** Both random offsets of a new tree are (r - 0.5) · OffsetSpan degrees. */
  const OffsetSpan: real := 0.002

  // ----- ids -----

  predicate HasId(ts: seq<Tree>, id: int)
  {
    exists i :: 0 <= i < |ts| && ts[i].id == id
  }

  /** No two records share an id. */
  predicate IdsDistinct(ts: seq<Tree>)
  {
    forall i, j :: 0 <= i < j < |ts| ==> ts[i].id != ts[j].id
  }

  /** `Math.max(...trees.map(t => t.id))` for a non-empty list. */
  function MaxId(ts: seq<Tree>): (m: int)
    requires ts != []
    ensures forall i :: 0 <= i < |ts| ==> ts[i].id <= m
    ensures exists i :: 0 <= i < |ts| && ts[i].id == m
  {
    if |ts| == 1 then ts[0].id
    else
      var rest := MaxId(ts[1..]);
      assert forall i :: 1 <= i < |ts| ==> ts[i] == ts[1..][i - 1];
      if ts[0].id >= rest then ts[0].id else rest
  }

  /** The id `addNewTree` gives the next tree. */
  function NextId(ts: seq<Tree>): (n: int)
    requires ts != []
    ensures !HasId(ts, n)
    ensures forall i :: 0 <= i < |ts| ==> ts[i].id < n
  {
    MaxId(ts) + 1
  }

  // ----- decimal rendering of an id, for the default name -----

  function Digit(d: nat): char
    requires d < 10
  {
    "0123456789"[d]
  }

  function NatToString(n: nat): (s: string)
    ensures |s| >= 1
    decreases n
  {
    if n < 10 then [Digit(n)] else NatToString(n / 10) + [Digit(n % 10)]
  }

  /** The decimal form of an integer, as a JavaScript template literal prints it. */
  function IntToString(i: int): string
  {
    if i < 0 then "-" + NatToString(-i) else NatToString(i)
  }

  /** The default name of a tree: "tree" followed by its id. */
  function DefaultName(id: int): string
  {
    "樹木" + IntToString(id)
  }

  // ----- records -----

  /** The one tree of the initial state, 0.0002 degrees north-east of the reference point. */
  function InitialTree(ref: ReferencePoint): Tree
  {
    Tree(1, "樹木1", 0.4, 3.0, 5.0, "#228B22", Broadleaf,
         ref.latitude + 0.0002, ref.longitude + 0.0002)
  }

  /** The record `addNewTree` appends, given its id, colour and offsets. */
  function NewTree(id: int, color: string, ref: ReferencePoint, latOffset: real, lonOffset: real): Tree
  {
    Tree(id, DefaultName(id), 0.3, 2.5, 4.0, color, Broadleaf,
         ref.latitude + latOffset, ref.longitude + lonOffset)
  }

  /** The colour picked by `Math.floor(random · 6)` for a random number in [0, 1). */
  function RandomColor(random: real): (c: string)
    requires 0.0 <= random < 1.0
    ensures c in TreeColors
  {
    TreeColors[(random * (|TreeColors| as real)).Floor]
  }

  /** The offset `(random - 0.5) · 0.002` for a random number in [0, 1). */
  function RandomOffset(random: real): (o: real)
    requires 0.0 <= random < 1.0
    ensures -0.001 <= o < 0.001
  {
    (random - 0.5) * OffsetSpan
  }

  /** `{ ...tree, [field]: value }`. */
  function WithField(t: Tree, u: FieldUpdate): (r: Tree)
    ensures u.SetId? ==> r.id == u.id
    ensures !u.SetId? ==> r.id == t.id
  {
    match u
    case SetId(v) => t.(id := v)
    case SetName(v) => t.(name := v)
    case SetTrunkDiameter(v) => t.(trunkDiameter := v)
    case SetCrownWidth(v) => t.(crownWidth := v)
    case SetHeight(v) => t.(height := v)
    case SetColor(v) => t.(color := v)
    case SetKind(v) => t.(kind := v)
    case SetLatitude(v) => t.(latitude := v)
    case SetLongitude(v) => t.(longitude := v)
  }

  // ----- list transforms -----

  /** `trees.find(t => t.id === id)`: the first record with that id. */
  function FindById(ts: seq<Tree>, id: int): (r: Option<Tree>)
    ensures r == None <==> !HasId(ts, id)
    ensures r != None ==> exists k :: 0 <= k < |ts| && r == Some(ts[k]) && ts[k].id == id
                                      && forall j :: 0 <= j < k ==> ts[j].id != id
  {
    if ts == [] then None
    else if ts[0].id == id then Some(ts[0])
    else
      var r := FindById(ts[1..], id);
      assert forall i :: 1 <= i < |ts| ==> ts[i] == ts[1..][i - 1];
      assert HasId(ts[1..], id) ==> HasId(ts, id);
      assert HasId(ts, id) ==> HasId(ts[1..], id) by {
        if HasId(ts, id) {
          var i :| 0 <= i < |ts| && ts[i].id == id;
          assert ts[1..][i - 1].id == id;
        }
      }
      assert r != None ==> exists k :: 0 <= k < |ts| && r == Some(ts[k]) && ts[k].id == id
                                       && forall j :: 0 <= j < k ==> ts[j].id != id by {
        if r.Some? {
          var k :| 0 <= k < |ts[1..]| && r == Some(ts[1..][k]) && ts[1..][k].id == id
                   && forall j :: 0 <= j < k ==> ts[1..][j].id != id;
          assert r == Some(ts[k + 1]) && forall j :: 0 <= j < k + 1 ==> ts[j].id != id;
        }
      }
      r
  }

  /** `trees.filter(t => t.id !== id)`. */
  function Without(ts: seq<Tree>, id: int): (r: seq<Tree>)
    ensures forall t :: t in r <==> t in ts && t.id != id
    ensures |r| <= |ts|
  {
    if ts == [] then []
    else if ts[0].id == id then Without(ts[1..], id)
    else [ts[0]] + Without(ts[1..], id)
  }

  /** `trees.map(t => t.id === id ? { ...t, [field]: value } : t)`. */
  function UpdateWhere(ts: seq<Tree>, id: int, u: FieldUpdate): (r: seq<Tree>)
    ensures |r| == |ts|
    ensures forall i :: 0 <= i < |ts| ==> r[i] == if ts[i].id == id then WithField(ts[i], u) else ts[i]
  {
    if ts == [] then []
    else
      var rest := UpdateWhere(ts[1..], id, u);
      [if ts[0].id == id then WithField(ts[0], u) else ts[0]] + rest
  }

  // ----- properties of the transforms -----

  /** The filter keeps the order: filtering a concatenation filters each part. */
  lemma {:induction false} WithoutAppend(a: seq<Tree>, b: seq<Tree>, id: int)
    ensures Without(a + b, id) == Without(a, id) + Without(b, id)
  {
    if a == [] {
      assert a + b == b;
    } else {
      assert (a + b)[1..] == a[1..] + b;
      WithoutAppend(a[1..], b, id);
    }
  }

  /** Deleting an id no record carries changes nothing. */
  lemma {:induction false} WithoutUnknownId(ts: seq<Tree>, id: int)
    requires !HasId(ts, id)
    ensures Without(ts, id) == ts
  {
    if ts != [] {
      assert forall i :: 0 <= i < |ts[1..]| ==> ts[1..][i] == ts[i + 1];
      WithoutUnknownId(ts[1..], id);
      assert ts == [ts[0]] + ts[1..];
    }
  }

  /** With distinct ids, deleting a present id removes exactly one record. */
  lemma {:induction false} WithoutKnownIdRemovesOne(ts: seq<Tree>, id: int)
    requires IdsDistinct(ts) && HasId(ts, id)
    ensures |Without(ts, id)| == |ts| - 1
  {
    var rest := ts[1..];
    assert IdsDistinct(rest) by {
      forall i, j | 0 <= i < j < |rest| ensures rest[i].id != rest[j].id {
        assert rest[i] == ts[i + 1] && rest[j] == ts[j + 1];
      }
    }
    if ts[0].id == id {
      assert forall i :: 0 <= i < |rest| ==> rest[i] == ts[i + 1];
      WithoutUnknownId(rest, id);
    } else {
      var i :| 0 <= i < |ts| && ts[i].id == id;
      assert rest[i - 1].id == id;
      WithoutKnownIdRemovesOne(rest, id);
    }
  }

  /** Putting a record in front of a list of distinct ids none of which is
      its own keeps the ids distinct. */
  lemma PrependKeepsIdsDistinct(t: Tree, ts: seq<Tree>)
    requires IdsDistinct(ts) && forall u :: u in ts ==> u.id != t.id
    ensures IdsDistinct([t] + ts)
  {
    var r := [t] + ts;
    forall i, j | 0 <= i < j < |r| ensures r[i].id != r[j].id {
      assert r[j] == ts[j - 1];
      if i > 0 {
        assert r[i] == ts[i - 1];
      }
    }
  }

  /** Filtering keeps ids distinct. */
  lemma {:induction false} WithoutKeepsIdsDistinct(ts: seq<Tree>, id: int)
    requires IdsDistinct(ts)
    ensures IdsDistinct(Without(ts, id))
  {
    if ts != [] {
      var rest := ts[1..];
      assert IdsDistinct(rest) by {
        forall i, j | 0 <= i < j < |rest| ensures rest[i].id != rest[j].id {
          assert rest[i] == ts[i + 1] && rest[j] == ts[j + 1];
        }
      }
      WithoutKeepsIdsDistinct(rest, id);
      if ts[0].id != id {
        var w := Without(rest, id);
        forall u | u in w ensures u.id != ts[0].id {
          var k :| 0 <= k < |rest| && rest[k] == u;
          assert ts[k + 1] == u;
        }
        PrependKeepsIdsDistinct(ts[0], w);
      }
    }
  }

  /** Deleting from a list of two or more records with distinct ids leaves at
      least one record. */
  lemma WithoutLeavesARecord(ts: seq<Tree>, id: int)
    requires IdsDistinct(ts) && |ts| >= 2
    ensures Without(ts, id) != []
  {
    if HasId(ts, id) {
      WithoutKnownIdRemovesOne(ts, id);
    } else {
      WithoutUnknownId(ts, id);
    }
  }

  /** Without distinct ids the list can be emptied: two records with id 1,
      deleting id 1. */
  lemma DuplicateIdsCanEmptyTheList(t: Tree)
    requires t.id == 1
    ensures |[t, t]| == 2 && Without([t, t], 1) == []
  {
    assert [t, t][1..] == [t];
    assert [t][1..] == [];
  }

  /** An update of any field but `id` keeps every record's id. */
  lemma UpdateKeepsIds(ts: seq<Tree>, id: int, u: FieldUpdate)
    requires !u.SetId?
    ensures forall i :: 0 <= i < |ts| ==> UpdateWhere(ts, id, u)[i].id == ts[i].id
    ensures IdsDistinct(ts) ==> IdsDistinct(UpdateWhere(ts, id, u))
  {
    var r := UpdateWhere(ts, id, u);
    forall i | 0 <= i < |ts| ensures r[i].id == ts[i].id {
      match u
      case SetName(_) =>
      case SetTrunkDiameter(_) =>
      case SetCrownWidth(_) =>
      case SetHeight(_) =>
      case SetColor(_) =>
      case SetKind(_) =>
      case SetLatitude(_) =>
      case SetLongitude(_) =>
    }
  }

  /** An update of an id no record carries changes nothing. */
  lemma UpdateUnknownId(ts: seq<Tree>, id: int, u: FieldUpdate)
    requires !HasId(ts, id)
    ensures UpdateWhere(ts, id, u) == ts
  {
    var r := UpdateWhere(ts, id, u);
    assert forall i :: 0 <= i < |ts| ==> r[i] == ts[i];
  }

  /** The tree table of `useTreeData`: the list of records and the selected id. */
  class TreeStore {
    var trees: seq<Tree>
    var selectedTreeId: int

    /** The invariant add, delete and id-preserving updates keep. */
    ghost predicate Valid()
      reads this
    {
      trees != [] && IdsDistinct(trees)
    }

    /** The initial state: one tree with id 1, selected. */
    constructor (initialReferencePoint: ReferencePoint)
      ensures trees == [InitialTree(initialReferencePoint)] && selectedTreeId == 1
      ensures Valid()
    {
      trees := [InitialTree(initialReferencePoint)];
      selectedTreeId := 1;
    }

    /** `trees.find(t => t.id === selectedTreeId) || trees[0]`. */
    function SelectedTree(): (t: Tree)
      reads this
      requires trees != []
      ensures t in trees
      ensures HasId(trees, selectedTreeId) ==>
        exists k :: 0 <= k < |trees| && t == trees[k] && t.id == selectedTreeId
                    && forall j :: 0 <= j < k ==> trees[j].id != selectedTreeId
      ensures !HasId(trees, selectedTreeId) ==> t == trees[0]
    {
      match FindById(trees, selectedTreeId)
      case Some(t) => t
      case None => trees[0]
    }

    method SetSelectedTreeId(id: int)
      modifies this
      ensures trees == old(trees) && selectedTreeId == id
    {
      selectedTreeId := id;
    }

    /** addNewTree: append a tree with id max+1 near the reference point and
        select it. The three random numbers stand for the `Math.random()` calls. */
    method AddNewTree(referencePoint: ReferencePoint, colorRandom: real, latRandom: real, lonRandom: real)
      requires trees != []
      requires 0.0 <= colorRandom < 1.0 && 0.0 <= latRandom < 1.0 && 0.0 <= lonRandom < 1.0
      modifies this
      ensures |trees| == |old(trees)| + 1 && trees[..|old(trees)|] == old(trees)
      ensures var t := trees[|old(trees)|];
        && t == NewTree(NextId(old(trees)), RandomColor(colorRandom), referencePoint,
                        RandomOffset(latRandom), RandomOffset(lonRandom))
        && !HasId(old(trees), t.id)
        && selectedTreeId == t.id
        && -0.001 <= t.latitude - referencePoint.latitude < 0.001
        && -0.001 <= t.longitude - referencePoint.longitude < 0.001
      ensures old(Valid()) ==> Valid()
    {
      var newId := MaxId(trees) + 1;
      var newColor := RandomColor(colorRandom);
      var latOffset := RandomOffset(latRandom);
      var lonOffset := RandomOffset(lonRandom);
      var t := NewTree(newId, newColor, referencePoint, latOffset, lonOffset);
      ghost var before := trees;
      trees := trees + [t];
      selectedTreeId := newId;
      assert trees[..|before|] == before;
      assert !HasId(before, newId);
      assert IdsDistinct(before) ==> IdsDistinct(trees) by {
        if IdsDistinct(before) {
          forall i, j | 0 <= i < j < |trees| ensures trees[i].id != trees[j].id {
            if j == |before| {
              assert trees[i] == before[i];
            } else {
              assert trees[i] == before[i] && trees[j] == before[j];
            }
          }
        }
      }
    }

    /** deleteTree: with two or more trees, drop every tree with that id and
        select the first remaining tree. `ok` is false when the filter left
        nothing, where the source fails on `newTrees[0].id` after the list has
        been set to empty; with distinct ids that cannot happen. */
    method DeleteTree(id: int) returns (ok: bool)
      modifies this
      ensures |old(trees)| <= 1 ==> ok && trees == old(trees) && selectedTreeId == old(selectedTreeId)
      ensures |old(trees)| > 1 ==> trees == Without(old(trees), id)
      ensures |old(trees)| > 1 && ok ==> trees != [] && selectedTreeId == trees[0].id
      ensures |old(trees)| > 1 && !ok ==> trees == [] && selectedTreeId == old(selectedTreeId)
      ensures old(Valid()) ==> ok && Valid()
    {
      if |trees| <= 1 {
        return true;
      }
      var newTrees := Without(trees, id);
      if IdsDistinct(trees) {
        WithoutLeavesARecord(trees, id);
        WithoutKeepsIdsDistinct(trees, id);
      }
      trees := newTrees;
      if newTrees == [] {
        return false;
      }
      selectedTreeId := newTrees[0].id;
      ok := true;
    }

    /** updateTree: replace one field of every tree with that id. */
    method UpdateTree(id: int, u: FieldUpdate)
      modifies this
      ensures trees == UpdateWhere(old(trees), id, u)
      ensures selectedTreeId == old(selectedTreeId)
      ensures old(Valid()) && !u.SetId? ==> Valid()
    {
      if !u.SetId? {
        UpdateKeepsIds(trees, id, u);
      }
      trees := UpdateWhere(trees, id, u);
    }
  }
}
