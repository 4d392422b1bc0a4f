/** The utilization figures kalmax/main.py reports after allocation: for a
    shelf, the share of its length taken by stacks; for a stack, the share of
    the shelf height taken by its games. Both are a division by a configured
    size, which fails when that size is zero. */
module Metrics {
  import opened Layout
  import opened Greedy
  import opened AllocationProperties

  /** (max_length - remaining_length) / max_length, or None where the division
      by a zero length would fail. */
  function ShelfUtilization(sh: ShelfState): (r: Option<real>)
    ensures r.None? <==> sh.maxLength == 0.0
    ensures r.Some? ==> r.value * sh.maxLength == sh.maxLength - sh.remainingLength
  {
    if sh.maxLength == 0.0 then None
    else Some((sh.maxLength - sh.remainingLength) / sh.maxLength)
  }

  /** (max_height - remaining_height) / max_height for a stack on a shelf of
      height `maxHeight`, or None where the division by zero would fail. */
  function StackUtilization(st: StackState, maxHeight: real): (r: Option<real>)
    ensures r.None? <==> maxHeight == 0.0
    ensures r.Some? ==> r.value * maxHeight == maxHeight - st.remainingHeight
  {
    if maxHeight == 0.0 then None
    else Some((maxHeight - st.remainingHeight) / maxHeight)
  }

  /** On a shelf whose bookkeeping holds, the utilization is the total width of
      its stack bases over its length. */
  lemma ShelfUtilizationIsBaseShare(sh: ShelfState)
    requires ShelfInv(sh) && sh.maxLength != 0.0
    ensures ShelfUtilization(sh) == Some(SumWidths(sh.stacks) / sh.maxLength)
  {
  }

  /** With a positive length and non-negative bases, a shelf's utilization is a
      fraction between 0 and 1. */
  lemma ShelfUtilizationIsFraction(sh: ShelfState)
    requires ShelfInv(sh) && sh.maxLength > 0.0
    requires forall k :: 0 <= k < |sh.stacks| ==> sh.stacks[k].baseWidth >= 0.0
    ensures 0.0 <= ShelfUtilization(sh).value <= 1.0
  {
    BaseWithinSumWidths(sh.stacks, 0);
    var u := ShelfUtilization(sh).value;
    assert u == SumWidths(sh.stacks) / sh.maxLength;
    assert SumWidths(sh.stacks) <= sh.maxLength;
  }

  /** The total height of games of non-negative height is non-negative. */
  lemma {:induction false} SumHeightsNonNegative(games: seq<BoardGame>)
    requires forall n :: 0 <= n < |games| ==> games[n].height >= 0.0
    ensures SumHeights(games) >= 0.0
  {
    if games != [] {
      SumHeightsNonNegative(games[..|games| - 1]);
    }
  }

  /** On a stack whose bookkeeping holds, the utilization is the total height of
      its games over the shelf height. */
  lemma StackUtilizationIsHeightShare(st: StackState, maxHeight: real)
    requires StackInv(st, maxHeight) && maxHeight != 0.0
    ensures StackUtilization(st, maxHeight) == Some(SumHeights(st.games) / maxHeight)
  {
  }

  /** A stack's utilization is at most 1 exactly when its games stay within the
      shelf height; it is at least 0 when its games have non-negative heights. */
  lemma StackUtilizationIsFraction(st: StackState, maxHeight: real)
    requires StackInv(st, maxHeight) && maxHeight > 0.0
    ensures StackUtilization(st, maxHeight).value <= 1.0 <==> WithinHeight(st)
    ensures (forall n :: 0 <= n < |st.games| ==> st.games[n].height >= 0.0)
            ==> StackUtilization(st, maxHeight).value >= 0.0
  {
    if (forall n :: 0 <= n < |st.games| ==> st.games[n].height >= 0.0) {
      SumHeightsNonNegative(st.games);
    }
  }

  /** After a run on new shelves of positive size, with games of non-negative
      size no taller than the shelves, every utilization main reports is a
      fraction between 0 and 1. */
  lemma ReportedUtilizationsAreFractions(count: nat, maxLength: real, maxHeight: real, games: seq<BoardGame>)
    requires maxLength > 0.0 && maxHeight > 0.0
    requires forall n :: 0 <= n < |games| ==> NonNegativeGame(games[n]) && games[n].height <= maxHeight
    ensures var after := Allocate(NewShelves(count, maxLength, maxHeight), games).shelves;
            |after| == count
            && (forall i :: 0 <= i < count ==>
                  var u := ShelfUtilization(after[i]); u.Some? && 0.0 <= u.value <= 1.0)
            && (forall i, k :: 0 <= i < count && 0 <= k < |after[i].stacks| ==>
                  var u := StackUtilization(after[i].stacks[k], maxHeight); u.Some? && 0.0 <= u.value <= 1.0)
  {
    var start := NewShelves(count, maxLength, maxHeight);
    var after := Allocate(start, games).shelves;
    forall i | 0 <= i < count ensures ShelfInv(start[i]) {
      NewShelfIsEmpty(maxLength, maxHeight);
    }
    AllocateKeepsInv(start, games);
    AllocateKeepsBases(start, games);
    AllocateWithinHeight(start, games);
    AllocateExtends(start, games);
    var tallEnough := (g: BoardGame) => g.height >= 0.0;
    AllocateKeepsAllStacked(start, games, tallEnough);
    forall i | 0 <= i < count
      ensures var u := ShelfUtilization(after[i]); u.Some? && 0.0 <= u.value <= 1.0
    {
      ShelfUtilizationIsFraction(after[i]);
    }
    forall i, k | 0 <= i < count && 0 <= k < |after[i].stacks|
      ensures var u := StackUtilization(after[i].stacks[k], maxHeight); u.Some? && 0.0 <= u.value <= 1.0
    {
      assert StackInv(after[i].stacks[k], after[i].maxHeight);
      assert forall n :: 0 <= n < |after[i].stacks[k].games| ==> tallEnough(after[i].stacks[k].games[n]);
      StackUtilizationIsFraction(after[i].stacks[k], maxHeight);
    }
  }
}
