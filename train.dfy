/**
 * The train-spawn tool's composition panel: a button that removes every
 * wagon, one button per wagon in the composition (clicking removes that
 * wagon) and one button per rolling-stock prototype (clicking appends it).
 * After every change to the wagon list the train's statistics are
 * recomputed.
 *
 * The prototype catalogue and its order, and the computation of the
 * statistics (acceleration, deceleration, total length) from the
 * prototypes, are external: statistics are modelled by the wagon list they
 * were computed from.
 */
module TrainComposition {
  import opened Wrappers

  datatype RollingStockID = RollingStockID(id: nat)

  /** The train's statistics: zeroed, or computed from a wagon list. */
  datatype TrainStats = Zero | CalculatedFrom(wagons: seq<RollingStockID>)

  /** `Vec::remove(i)`: the element at `i` is dropped and the others keep their order. */
  function RemoveAt(s: seq<RollingStockID>, i: nat): (r: seq<RollingStockID>)
    requires i < |s|
    ensures |r| == |s| - 1
    ensures forall k :: 0 <= k < i ==> r[k] == s[k]
    ensures forall k :: i <= k < |r| ==> r[k] == s[k + 1]
  {
    s[..i] + s[i + 1..]
  }

  /** Removing an element and putting it back at the same place restores the list. */
  lemma RemoveAtInverse(s: seq<RollingStockID>, i: nat)
    requires i < |s|
    ensures RemoveAt(s, i)[..i] + [s[i]] + RemoveAt(s, i)[i..] == s
  {
  }

  /** The largest clicked index below `n`, if any: the wagon button that is handled last. */
  function LastClicked(clicks: set<nat>, n: nat): (r: Option<nat>)
    ensures r.None? <==> forall i :: 0 <= i < n ==> i !in clicks
    ensures r.Some? ==> r.value < n && r.value in clicks && forall i :: r.value < i < n ==> i !in clicks
    decreases n
  {
    if n == 0 then None
    else if n - 1 in clicks then Some(n - 1)
    else LastClicked(clicks, n - 1)
  }

  /** The prototypes whose buttons were clicked, in catalogue order. */
  function Picked(prototypes: seq<RollingStockID>, clicks: seq<bool>): (r: seq<RollingStockID>)
    requires |clicks| == |prototypes|
    ensures |r| <= |prototypes|
    ensures forall x :: x in r ==> x in prototypes
    ensures (forall i :: 0 <= i < |clicks| ==> !clicks[i]) ==> r == []
    decreases |prototypes|
  {
    if prototypes == [] then []
    else
      var n := |prototypes| - 1;
      Picked(prototypes[..n], clicks[..n]) + (if clicks[n] then [prototypes[n]] else [])
  }

  /** A prototype is appended exactly when one of its buttons was clicked. */
  lemma {:induction false} PickedMembers(prototypes: seq<RollingStockID>, clicks: seq<bool>, x: RollingStockID)
    requires |clicks| == |prototypes|
    ensures x in Picked(prototypes, clicks) <==> exists i :: 0 <= i < |prototypes| && clicks[i] && prototypes[i] == x
    decreases |prototypes|
  {
    if prototypes != [] {
      var n := |prototypes| - 1;
      PickedMembers(prototypes[..n], clicks[..n], x);
      if exists i :: 0 <= i < |prototypes| && clicks[i] && prototypes[i] == x {
        var i :| 0 <= i < |prototypes| && clicks[i] && prototypes[i] == x;
        if i < n {
          assert clicks[..n][i] && prototypes[..n][i] == x;
        }
      }
    }
  }

  /** The indices of the clicked buttons, ascending: each clicked index once, and nothing else. */
  function ClickedIndices(clicks: seq<bool>): (r: seq<nat>)
    ensures forall k :: 0 <= k < |r| ==> r[k] < |clicks| && clicks[r[k]]
    ensures forall k, m :: 0 <= k < m < |r| ==> r[k] < r[m]
    ensures forall i :: 0 <= i < |clicks| && clicks[i] ==> i in r
    decreases |clicks|
  {
    if clicks == [] then []
    else
      var n := |clicks| - 1;
      assert forall i :: 0 <= i < n ==> clicks[..n][i] == clicks[i];
      ClickedIndices(clicks[..n]) + (if clicks[n] then [n] else [])
  }

  /**
   * The appended prototypes are those of the clicked buttons, one per click,
   * in catalogue order.
   */
  lemma {:induction false} PickedInOrder(prototypes: seq<RollingStockID>, clicks: seq<bool>)
    requires |clicks| == |prototypes|
    ensures |Picked(prototypes, clicks)| == |ClickedIndices(clicks)|
    ensures forall k :: 0 <= k < |Picked(prototypes, clicks)| ==>
      Picked(prototypes, clicks)[k] == prototypes[ClickedIndices(clicks)[k]]
    decreases |prototypes|
  {
    if prototypes != [] {
      var n := |prototypes| - 1;
      PickedInOrder(prototypes[..n], clicks[..n]);
      var all, before := Picked(prototypes, clicks), Picked(prototypes[..n], clicks[..n]);
      var indices, earlier := ClickedIndices(clicks), ClickedIndices(clicks[..n]);
      assert all == before + (if clicks[n] then [prototypes[n]] else []);
      assert indices == earlier + (if clicks[n] then [n] else []);
      forall k | 0 <= k < |all|
        ensures all[k] == prototypes[indices[k]]
      {
        if k < |before| {
          assert all[k] == before[k] && indices[k] == earlier[k];
          assert prototypes[..n][earlier[k]] == prototypes[earlier[k]];
        }
      }
    }
  }

  /** The wagon list after the remove-all button and the wagon buttons of one frame. */
  function AfterRemovals(wagons: seq<RollingStockID>, removeAllClicked: bool, wagonClicks: set<nat>): (r: seq<RollingStockID>)
    ensures removeAllClicked ==> r == []
    ensures !removeAllClicked && LastClicked(wagonClicks, |wagons|).None? ==> r == wagons
    ensures !removeAllClicked && LastClicked(wagonClicks, |wagons|).Some? ==>
      r == RemoveAt(wagons, LastClicked(wagonClicks, |wagons|).value)
  {
    if removeAllClicked then []
    else match LastClicked(wagonClicks, |wagons|)
      case None => wagons
      case Some(i) => RemoveAt(wagons, i)
  }

  /** The wagon buttons, handled in list order; the last clicked one is remembered. */
  method WagonRow(wagons: seq<RollingStockID>, clicks: set<nat>) returns (remove: Option<nat>)
    ensures remove == LastClicked(clicks, |wagons|)
  {
    remove := None;
    for i := 0 to |wagons|
      invariant remove == LastClicked(clicks, i)
    {
      if i in clicks {
        remove := Some(i);
      }
    }
  }

  /** The `TrainSpawnResource`: the composition being assembled and its statistics. */
  class TrainSpawnResource {
    var wagons: seq<RollingStockID>
    var stats: TrainStats

    /** The statistics describe the current wagon list. */
    ghost predicate Consistent()
      reads this
    {
      stats == CalculatedFrom(wagons) || (stats == Zero && wagons == [])
    }

    constructor ()
      ensures wagons == [] && stats == Zero && Consistent()
    {
      wagons := [];
      stats := Zero;
    }

    method SetZero()
      modifies this
      ensures wagons == old(wagons) && stats == Zero
    {
      stats := Zero;
    }

    method Calculate()
      modifies this
      ensures wagons == old(wagons) && stats == CalculatedFrom(wagons) && Consistent()
    {
      stats := CalculatedFrom(wagons);
    }

    /** The prototype buttons, handled in catalogue order: each click appends its prototype and recomputes. */
    method PrototypeRow(prototypes: seq<RollingStockID>, clicks: seq<bool>)
      requires |clicks| == |prototypes|
      requires Consistent()
      modifies this
      ensures Consistent()
      ensures wagons == old(wagons) + Picked(prototypes, clicks)
      ensures wagons == old(wagons) ==> stats == old(stats)
      ensures wagons != old(wagons) ==> stats == CalculatedFrom(wagons)
    {
      for i := 0 to |prototypes|
        invariant wagons == old(wagons) + Picked(prototypes[..i], clicks[..i])
        invariant Consistent()
        invariant wagons == old(wagons) ==> stats == old(stats)
        invariant wagons != old(wagons) ==> stats == CalculatedFrom(wagons)
      {
        assert prototypes[..i + 1][..i] == prototypes[..i] && clicks[..i + 1][..i] == clicks[..i];
        if clicks[i] {
          wagons := wagons + [prototypes[i]];
          Calculate();
        }
      }
      assert prototypes[..|prototypes|] == prototypes && clicks[..|prototypes|] == clicks;
    }

    /**
     * One frame of `train_properties`: remove all, then at most one wagon
     * (the last clicked), then the clicked prototypes in catalogue order.
     */
    method TrainProperties(removeAllClicked: bool, wagonClicks: set<nat>,
                           prototypes: seq<RollingStockID>, protoClicks: seq<bool>)
      requires |protoClicks| == |prototypes|
      requires Consistent()
      modifies this
      ensures Consistent()
      ensures wagons == AfterRemovals(old(wagons), removeAllClicked, wagonClicks) + Picked(prototypes, protoClicks)
      ensures wagons != old(wagons) ==> stats == CalculatedFrom(wagons) || (removeAllClicked && stats == Zero)
    {
      if removeAllClicked {
        wagons := [];
        SetZero();
      }
      var remove := WagonRow(wagons, wagonClicks);
      if remove.Some? {
        wagons := RemoveAt(wagons, remove.value);
        Calculate();
      }
      PrototypeRow(prototypes, protoClicks);
    }
  }
}
