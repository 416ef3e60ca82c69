/**
 * The change list of a commit: one record per flagged cell, in the commit
 * loop's i-j-k scan order. It stands for the cell nodes the commit loop
 * spawns (flag 1) and the death animations it starts (flag -1).
 */
module Changes {
  import opened Grid

  datatype Transition = Born | Died

  datatype Change = Change(x: int, y: int, z: int, transition: Transition)

  /** The pending flag that produces a record with this transition. */
  function FlagOf(t: Transition): int
  {
    match t
    case Born => 1
    case Died => -1
  }

  /** The record for one cell carrying `flag`; no record when nothing is pending. */
  function CellChange(flag: int, x: int, y: int, z: int): seq<Change>
  {
    if flag == 1 then [Change(x, y, z, Born)]
    else if flag == -1 then [Change(x, y, z, Died)]
    else []
  }

  /** Records of the cells (i, j, 0) .. (i, j, k - 1) of the pending flags `p`. */
  function RowChanges(p: Layer, i: int, j: int, k: int): seq<Change>
    requires 0 <= i < |p| && 0 <= j < |p[i]| && 0 <= k <= |p[i][j]|
    decreases k
  {
    if k == 0 then [] else RowChanges(p, i, j, k - 1) + CellChange(p[i][j][k - 1], i, j, k - 1)
  }

  /** Records of the rows (i, 0, _) .. (i, j - 1, _). */
  function PlaneChanges(p: Layer, i: int, j: int): seq<Change>
    requires 0 <= i < |p| && 0 <= j <= |p[i]|
    decreases j
  {
    if j == 0 then [] else PlaneChanges(p, i, j - 1) + RowChanges(p, i, j - 1, |p[i][j - 1]|)
  }

  /** Records of the planes 0 .. i - 1. */
  function LayerChanges(p: Layer, i: int): seq<Change>
    requires 0 <= i <= |p|
    decreases i
  {
    if i == 0 then [] else LayerChanges(p, i - 1) + PlaneChanges(p, i - 1, |p[i - 1]|)
  }

  /**
   * The records a commit of the pending flags `p` reports: one for every
   * flagged cell and no other, in strictly increasing scan order.
   */
  function ChangeList(p: Layer): (r: seq<Change>)
    ensures forall c :: c in r <==> Reports(p, c)
    ensures InScanOrder(r)
  {
    var r := LayerChanges(p, |p|);
    assert forall c :: c in r <==> Reports(p, c) by {
      forall c
        ensures c in r <==> Reports(p, c)
      {
        LayerChangesMembers(p, |p|, c);
      }
    }
    LayerChangesOrdered(p, |p|);
    r
  }

  // Which records appear.

  /** The record (x, y, z, t) is reported exactly when (x, y, z) is a cell
      whose pending flag is the one that transition t stands for. */
  predicate Reports(p: Layer, c: Change)
  {
    && 0 <= c.x < |p| && 0 <= c.y < |p[c.x]| && 0 <= c.z < |p[c.x][c.y]|
    && p[c.x][c.y][c.z] == FlagOf(c.transition)
  }

  lemma {:induction false} RowChangesMembers(p: Layer, i: int, j: int, k: int, c: Change)
    requires 0 <= i < |p| && 0 <= j < |p[i]| && 0 <= k <= |p[i][j]|
    ensures c in RowChanges(p, i, j, k) <==> c.x == i && c.y == j && c.z < k && Reports(p, c)
    decreases k
  {
    if k > 0 {
      RowChangesMembers(p, i, j, k - 1, c);
    }
  }

  lemma {:induction false} PlaneChangesMembers(p: Layer, i: int, j: int, c: Change)
    requires 0 <= i < |p| && 0 <= j <= |p[i]|
    ensures c in PlaneChanges(p, i, j) <==> c.x == i && c.y < j && Reports(p, c)
    decreases j
  {
    if j > 0 {
      PlaneChangesMembers(p, i, j - 1, c);
      RowChangesMembers(p, i, j - 1, |p[i][j - 1]|, c);
    }
  }

  lemma {:induction false} LayerChangesMembers(p: Layer, i: int, c: Change)
    requires 0 <= i <= |p|
    ensures c in LayerChanges(p, i) <==> c.x < i && Reports(p, c)
    decreases i
  {
    if i > 0 {
      LayerChangesMembers(p, i - 1, c);
      PlaneChangesMembers(p, i - 1, |p[i - 1]|, c);
    }
  }

  /** No flag is pending anywhere in `p`. */
  predicate NoFlags(p: Layer)
  {
    forall x, y, z :: 0 <= x < |p| && 0 <= y < |p[x]| && 0 <= z < |p[x][y]| ==> p[x][y][z] == 0
  }

  lemma {:induction false} NoRowChanges(p: Layer, i: int, j: int, k: int)
    requires NoFlags(p) && 0 <= i < |p| && 0 <= j < |p[i]| && 0 <= k <= |p[i][j]|
    ensures RowChanges(p, i, j, k) == []
    decreases k
  {
    if k > 0 {
      NoRowChanges(p, i, j, k - 1);
    }
  }

  lemma {:induction false} NoPlaneChanges(p: Layer, i: int, j: int)
    requires NoFlags(p) && 0 <= i < |p| && 0 <= j <= |p[i]|
    ensures PlaneChanges(p, i, j) == []
    decreases j
  {
    if j > 0 {
      NoPlaneChanges(p, i, j - 1);
      NoRowChanges(p, i, j - 1, |p[i][j - 1]|);
    }
  }

  lemma {:induction false} NoLayerChanges(p: Layer, i: int)
    requires NoFlags(p) && 0 <= i <= |p|
    ensures LayerChanges(p, i) == []
    decreases i
  {
    if i > 0 {
      NoLayerChanges(p, i - 1);
      NoPlaneChanges(p, i - 1, |p[i - 1]|);
    }
  }

  /** With no flag pending a commit reports nothing. */
  lemma NoFlagsNoChanges(p: Layer)
    requires NoFlags(p)
    ensures ChangeList(p) == []
  {
    NoLayerChanges(p, |p|);
  }

  /** Cell by cell: a commit reports (x, y, z) as Born exactly when its flag
      is 1 and as Died exactly when its flag is -1. */
  lemma ChangeListCell(p: Layer, x: int, y: int, z: int)
    requires 0 <= x < |p| && 0 <= y < |p[x]| && 0 <= z < |p[x][y]|
    ensures Change(x, y, z, Born) in ChangeList(p) <==> p[x][y][z] == 1
    ensures Change(x, y, z, Died) in ChangeList(p) <==> p[x][y][z] == -1
  {
    assert Reports(p, Change(x, y, z, Born)) <==> p[x][y][z] == 1;
    assert Reports(p, Change(x, y, z, Died)) <==> p[x][y][z] == -1;
  }

  // In which order.

  /** Cell (a, b, c) comes before (i, j, k) in i-j-k scan order. */
  predicate ScannedBefore(a: int, b: int, c: int, i: int, j: int, k: int)
  {
    a < i || (a == i && (b < j || (b == j && c < k)))
  }

  /** Record a comes before record b: its cell is scanned first. */
  predicate ScanBefore(a: Change, b: Change)
  {
    ScannedBefore(a.x, a.y, a.z, b.x, b.y, b.z)
  }

  /** The records follow strictly increasing scan order (so no cell twice). */
  predicate InScanOrder(s: seq<Change>)
  {
    forall m, n :: 0 <= m < n < |s| ==> ScanBefore(s[m], s[n])
  }

  lemma ConcatInScanOrder(s: seq<Change>, t: seq<Change>)
    requires InScanOrder(s) && InScanOrder(t)
    requires forall a, b :: a in s && b in t ==> ScanBefore(a, b)
    ensures InScanOrder(s + t)
  {
  }

  lemma {:induction false} RowChangesOrdered(p: Layer, i: int, j: int, k: int)
    requires 0 <= i < |p| && 0 <= j < |p[i]| && 0 <= k <= |p[i][j]|
    ensures InScanOrder(RowChanges(p, i, j, k))
    decreases k
  {
    if k > 0 {
      RowChangesOrdered(p, i, j, k - 1);
      forall a | a in RowChanges(p, i, j, k - 1)
        ensures a.x == i && a.y == j && a.z < k - 1
      {
        RowChangesMembers(p, i, j, k - 1, a);
      }
      ConcatInScanOrder(RowChanges(p, i, j, k - 1), CellChange(p[i][j][k - 1], i, j, k - 1));
    }
  }

  lemma {:induction false} PlaneChangesOrdered(p: Layer, i: int, j: int)
    requires 0 <= i < |p| && 0 <= j <= |p[i]|
    ensures InScanOrder(PlaneChanges(p, i, j))
    decreases j
  {
    if j > 0 {
      PlaneChangesOrdered(p, i, j - 1);
      RowChangesOrdered(p, i, j - 1, |p[i][j - 1]|);
      forall a, b | a in PlaneChanges(p, i, j - 1) && b in RowChanges(p, i, j - 1, |p[i][j - 1]|)
        ensures ScanBefore(a, b)
      {
        PlaneChangesMembers(p, i, j - 1, a);
        RowChangesMembers(p, i, j - 1, |p[i][j - 1]|, b);
      }
      ConcatInScanOrder(PlaneChanges(p, i, j - 1), RowChanges(p, i, j - 1, |p[i][j - 1]|));
    }
  }

  lemma LayerPrecedesPlane(p: Layer, i: int)
    requires 0 <= i < |p|
    ensures forall a, b :: a in LayerChanges(p, i) && b in PlaneChanges(p, i, |p[i]|) ==> ScanBefore(a, b)
  {
    forall a, b | a in LayerChanges(p, i) && b in PlaneChanges(p, i, |p[i]|)
      ensures ScanBefore(a, b)
    {
      LayerChangesMembers(p, i, a);
      PlaneChangesMembers(p, i, |p[i]|, b);
    }
  }

  lemma {:induction false} LayerChangesOrdered(p: Layer, i: int)
    requires 0 <= i <= |p|
    ensures InScanOrder(LayerChanges(p, i))
    decreases i
  {
    if i > 0 {
      LayerChangesOrdered(p, i - 1);
      PlaneChangesOrdered(p, i - 1, |p[i - 1]|);
      LayerPrecedesPlane(p, i - 1);
      ConcatInScanOrder(LayerChanges(p, i - 1), PlaneChanges(p, i - 1, |p[i - 1]|));
    }
  }
}
