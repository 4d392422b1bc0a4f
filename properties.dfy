/** What the first-fit allocation keeps over a whole run: the shelf and stack
    bookkeeping, the games themselves (each is placed once or left over once),
    the order of the games left over, and the placements already made. */
module AllocationProperties {
  import opened Layout
  import opened Greedy

  // ---------------------------------------------------------------------
  // Bookkeeping
  // ---------------------------------------------------------------------

  /** Putting a game on a stack it fits on keeps every shelf's bookkeeping. */
  lemma PutOnStackKeepsInv(shelves: seq<ShelfState>, s: Slot, g: BoardGame)
    requires ShelvesInv(shelves) && FitsAt(shelves, g, s.shelf, s.stack)
    ensures ShelvesInv(PutOnStack(shelves, s, g))
  {
    var sh := shelves[s.shelf];
    var st := sh.stacks[s.stack];
    CanFitIffAddKeepsInv(st, g, sh.maxHeight);
    SumWidthsUpdate(sh.stacks, s.stack, AddGame(st, g));
  }

  /** Handling one game keeps every shelf's bookkeeping: the length left stays
      non-negative and the stacks' bases never add up to more than the shelf. */
  lemma PlaceGameKeepsInv(shelves: seq<ShelfState>, g: BoardGame)
    requires ShelvesInv(shelves)
    ensures ShelvesInv(PlaceGame(shelves, g).shelves)
  {
    match FirstFit(shelves, g)
    case Some(s) => PutOnStackKeepsInv(shelves, s, g);
    case None =>
      match FirstOpenShelf(shelves, g)
      case Some(j) => StartNewStackKeepsInv(shelves[j], g);
      case None =>
  }

  /** A whole run keeps every shelf's bookkeeping. */
  lemma {:induction false} AllocateKeepsInv(shelves: seq<ShelfState>, games: seq<BoardGame>)
    requires ShelvesInv(shelves)
    ensures ShelvesInv(Allocate(shelves, games).shelves)
  {
    if games != [] {
      AllocateKeepsInv(shelves, games[..|games| - 1]);
      PlaceGameKeepsInv(Allocate(shelves, games[..|games| - 1]).shelves, games[|games| - 1]);
    }
  }

  // ---------------------------------------------------------------------
  // Nothing placed is ever moved
  // ---------------------------------------------------------------------

  /** `after` came from `before` by adding games on top of stacks and stacks at
      the right end of shelves: the shelves and their capacities are the same,
      every stack is still there on the same base, and its games are still at
      the bottom of it in the same order. */
  predicate Extends(before: seq<ShelfState>, after: seq<ShelfState>)
  {
    && |after| == |before|
    && forall i :: 0 <= i < |before| ==>
         && after[i].maxLength == before[i].maxLength
         && after[i].maxHeight == before[i].maxHeight
         && |before[i].stacks| <= |after[i].stacks|
         && forall k :: 0 <= k < |before[i].stacks| ==>
              && after[i].stacks[k].baseWidth == before[i].stacks[k].baseWidth
              && |before[i].stacks[k].games| <= |after[i].stacks[k].games|
              && after[i].stacks[k].games[..|before[i].stacks[k].games|] == before[i].stacks[k].games
  }

  /** No length or height left has grown. */
  predicate NeverFreed(before: seq<ShelfState>, after: seq<ShelfState>)
    requires Extends(before, after)
  {
    forall i :: 0 <= i < |before| ==>
      && after[i].remainingLength <= before[i].remainingLength
      && forall k :: 0 <= k < |before[i].stacks| ==>
           after[i].stacks[k].remainingHeight <= before[i].stacks[k].remainingHeight
  }

  predicate NonNegativeGame(g: BoardGame)
  {
    g.width >= 0.0 && g.height >= 0.0
  }

  lemma ExtendsTransitive(a: seq<ShelfState>, b: seq<ShelfState>, c: seq<ShelfState>)
    requires Extends(a, b) && Extends(b, c)
    ensures Extends(a, c)
    ensures NeverFreed(a, b) && NeverFreed(b, c) ==> NeverFreed(a, c)
  {
    forall i, k | 0 <= i < |a| && 0 <= k < |a[i].stacks|
      ensures c[i].stacks[k].games[..|a[i].stacks[k].games|] == a[i].stacks[k].games
    {
      var n := |a[i].stacks[k].games|;
      var m := |b[i].stacks[k].games|;
      assert c[i].stacks[k].games[..n] == c[i].stacks[k].games[..m][..n];
    }
  }

  /** Handling one game only adds: it never moves or removes a placed game, and
      with a game of non-negative size it never frees any length or height. */
  lemma PlaceGameExtends(shelves: seq<ShelfState>, g: BoardGame)
    ensures Extends(shelves, PlaceGame(shelves, g).shelves)
    ensures NonNegativeGame(g) ==> NeverFreed(shelves, PlaceGame(shelves, g).shelves)
  {
    match FirstFit(shelves, g)
    case Some(s) =>
      var r := PutOnStack(shelves, s, g);
      assert r[s.shelf].stacks[s.stack].games[..|shelves[s.shelf].stacks[s.stack].games|]
          == shelves[s.shelf].stacks[s.stack].games;
    case None =>
      match FirstOpenShelf(shelves, g)
      case Some(j) =>
      case None =>
  }

  /** A run never moves or removes a game once placed (there is no backtracking),
      and with games of non-negative size the lengths and heights left only go down. */
  lemma {:induction false} AllocateExtends(shelves: seq<ShelfState>, games: seq<BoardGame>)
    ensures Extends(shelves, Allocate(shelves, games).shelves)
    ensures (forall n :: 0 <= n < |games| ==> NonNegativeGame(games[n]))
            ==> NeverFreed(shelves, Allocate(shelves, games).shelves)
  {
    if games != [] {
      var init := games[..|games| - 1];
      var prior := Allocate(shelves, init).shelves;
      AllocateExtends(shelves, init);
      PlaceGameExtends(prior, games[|games| - 1]);
      ExtendsTransitive(shelves, prior, Allocate(shelves, games).shelves);
    }
  }

  // ---------------------------------------------------------------------
  // Stacks within the shelf height
  // ---------------------------------------------------------------------

  /** Handling one game that is no taller than any shelf keeps every stack within
      its shelf's height; the shelf's own check does not look at heights, so the
      bound on the game is needed. */
  lemma PlaceGameWithinHeight(shelves: seq<ShelfState>, g: BoardGame)
    requires ShelvesWithinHeight(shelves)
    requires forall j :: 0 <= j < |shelves| ==> g.height <= shelves[j].maxHeight
    ensures ShelvesWithinHeight(PlaceGame(shelves, g).shelves)
  {
    match FirstFit(shelves, g)
    case Some(s) =>
    case None =>
      match FirstOpenShelf(shelves, g)
      case Some(j) =>
        StartNewStackHeight(shelves[j], g);
        var r := shelves[j := StartNewStack(shelves[j], g)];
        assert forall k :: 0 <= k < |shelves[j].stacks| ==> r[j].stacks[k] == shelves[j].stacks[k];
      case None =>
  }

  /** A run over games none taller than any shelf keeps every stack within its
      shelf's height, so the games on a stack never add up to more than the shelf
      height. */
  lemma {:induction false} AllocateWithinHeight(shelves: seq<ShelfState>, games: seq<BoardGame>)
    requires ShelvesWithinHeight(shelves)
    requires forall n, j :: 0 <= n < |games| && 0 <= j < |shelves| ==> games[n].height <= shelves[j].maxHeight
    ensures ShelvesWithinHeight(Allocate(shelves, games).shelves)
  {
    if games != [] {
      var init := games[..|games| - 1];
      var prior := Allocate(shelves, init).shelves;
      AllocateWithinHeight(shelves, init);
      AllocateExtends(shelves, init);
      assert forall j :: 0 <= j < |prior| ==> prior[j].maxHeight == shelves[j].maxHeight;
      PlaceGameWithinHeight(prior, games[|games| - 1]);
    }
  }

  // ---------------------------------------------------------------------
  // Conservation: every game is placed once or left over once
  // ---------------------------------------------------------------------

  /** How many of the games satisfy `p`. */
  function Tally(games: seq<BoardGame>, p: BoardGame -> bool): nat
  {
    if games == [] then 0
    else Tally(games[..|games| - 1], p) + if p(games[|games| - 1]) then 1 else 0
  }

  /** How many games on a row of stacks satisfy `p`. */
  function TallyStacks(stacks: seq<StackState>, p: BoardGame -> bool): nat
  {
    if stacks == [] then 0
    else TallyStacks(stacks[..|stacks| - 1], p) + Tally(stacks[|stacks| - 1].games, p)
  }

  /** How many games on the shelves satisfy `p`. */
  function TallyShelves(shelves: seq<ShelfState>, p: BoardGame -> bool): nat
  {
    if shelves == [] then 0
    else TallyShelves(shelves[..|shelves| - 1], p) + TallyStacks(shelves[|shelves| - 1].stacks, p)
  }

  lemma TallyAppend(games: seq<BoardGame>, g: BoardGame, p: BoardGame -> bool)
    ensures Tally(games + [g], p) == Tally(games, p) + if p(g) then 1 else 0
  {
    assert (games + [g])[..|games|] == games;
  }

  lemma {:induction false} TallyStacksUpdate(stacks: seq<StackState>, k: nat, v: StackState, p: BoardGame -> bool)
    requires k < |stacks|
    ensures TallyStacks(stacks[k := v], p) + Tally(stacks[k].games, p) == TallyStacks(stacks, p) + Tally(v.games, p)
  {
    var n := |stacks|;
    if k < n - 1 {
      assert stacks[k := v][..n - 1] == stacks[..n - 1][k := v];
      assert stacks[k := v][n - 1] == stacks[n - 1];
      TallyStacksUpdate(stacks[..n - 1], k, v, p);
    } else {
      assert stacks[k := v][..n - 1] == stacks[..n - 1];
    }
  }

  lemma {:induction false} TallyShelvesUpdate(shelves: seq<ShelfState>, i: nat, v: ShelfState, p: BoardGame -> bool)
    requires i < |shelves|
    ensures TallyShelves(shelves[i := v], p) + TallyStacks(shelves[i].stacks, p)
         == TallyShelves(shelves, p) + TallyStacks(v.stacks, p)
  {
    var n := |shelves|;
    if i < n - 1 {
      assert shelves[i := v][..n - 1] == shelves[..n - 1][i := v];
      assert shelves[i := v][n - 1] == shelves[n - 1];
      TallyShelvesUpdate(shelves[..n - 1], i, v, p);
    } else {
      assert shelves[i := v][..n - 1] == shelves[..n - 1];
    }
  }

  /** Putting a game on an existing stack adds exactly that game. */
  lemma PutOnStackConserves(shelves: seq<ShelfState>, s: Slot, g: BoardGame, p: BoardGame -> bool)
    requires s.shelf < |shelves| && s.stack < |shelves[s.shelf].stacks|
    ensures TallyShelves(PutOnStack(shelves, s, g), p) == TallyShelves(shelves, p) + if p(g) then 1 else 0
  {
    var sh := shelves[s.shelf];
    var st := sh.stacks[s.stack];
    var v := sh.(stacks := sh.stacks[s.stack := AddGame(st, g)]);
    assert PutOnStack(shelves, s, g) == shelves[s.shelf := v];
    TallyAppend(st.games, g, p);
    TallyStacksUpdate(sh.stacks, s.stack, AddGame(st, g), p);
    TallyShelvesUpdate(shelves, s.shelf, v, p);
  }

  /** Starting a new stack for a game on shelf `j` adds exactly that game. */
  lemma StartNewStackConserves(shelves: seq<ShelfState>, j: nat, g: BoardGame, p: BoardGame -> bool)
    requires j < |shelves|
    ensures TallyShelves(shelves[j := StartNewStack(shelves[j], g)], p) == TallyShelves(shelves, p) + if p(g) then 1 else 0
  {
    var v := StartNewStack(shelves[j], g);
    assert v.stacks[..|shelves[j].stacks|] == shelves[j].stacks;
    TallyAppend([], g, p);
    TallyShelvesUpdate(shelves, j, v, p);
  }

  /** Handling one game adds exactly that game to the shelves when it is placed,
      and nothing otherwise. */
  lemma PlaceGameConserves(shelves: seq<ShelfState>, g: BoardGame, p: BoardGame -> bool)
    ensures TallyShelves(PlaceGame(shelves, g).shelves, p)
         == TallyShelves(shelves, p) + if PlaceGame(shelves, g).placed && p(g) then 1 else 0
  {
    match FirstFit(shelves, g)
    case Some(s) =>
      PutOnStackConserves(shelves, s, g, p);
    case None =>
      match FirstOpenShelf(shelves, g)
      case Some(j) =>
        StartNewStackConserves(shelves, j, g, p);
      case None =>
  }

  /** Conservation over a run: for any property of games, the games on the
      shelves afterwards and the games left over that have it are as many as the
      games on the shelves before and the games handled that have it. */
  lemma {:induction false} AllocateConserves(shelves: seq<ShelfState>, games: seq<BoardGame>, p: BoardGame -> bool)
    ensures TallyShelves(Allocate(shelves, games).shelves, p) + Tally(Allocate(shelves, games).unplaced, p)
         == TallyShelves(shelves, p) + Tally(games, p)
  {
    if games != [] {
      var init := games[..|games| - 1];
      var g := games[|games| - 1];
      var prior := Allocate(shelves, init);
      AllocateConserves(shelves, init, p);
      PlaceGameConserves(prior.shelves, g, p);
      TallyAppend(prior.unplaced, g, p);
    }
  }

  /** Shelves holding no stacks hold no games. */
  lemma {:induction false} BareShelvesHoldNothing(shelves: seq<ShelfState>, p: BoardGame -> bool)
    requires forall i :: 0 <= i < |shelves| ==> shelves[i].stacks == []
    ensures TallyShelves(shelves, p) == 0
  {
    if shelves != [] {
      BareShelvesHoldNothing(shelves[..|shelves| - 1], p);
    }
  }

  /** Counting copies of one game is its multiplicity in the sequence. */
  lemma {:induction false} TallyCopies(games: seq<BoardGame>, x: BoardGame)
    ensures Tally(games, y => y == x) == multiset(games)[x]
  {
    if games != [] {
      var init := games[..|games| - 1];
      TallyCopies(init, x);
      assert games == init + [games[|games| - 1]];
    }
  }

  /** Starting from shelves without stacks, every game handled is either on a
      stack or in the left-over list, and exactly once: each game's copies on
      the shelves and left over are as many as its copies handled. */
  lemma AllocateFromBareShelves(shelves: seq<ShelfState>, games: seq<BoardGame>, x: BoardGame)
    requires forall i :: 0 <= i < |shelves| ==> shelves[i].stacks == []
    ensures TallyShelves(Allocate(shelves, games).shelves, y => y == x)
            + multiset(Allocate(shelves, games).unplaced)[x] == multiset(games)[x]
  {
    var r := Allocate(shelves, games);
    AllocateConserves(shelves, games, y => y == x);
    BareShelvesHoldNothing(shelves, y => y == x);
    TallyCopies(games, x);
    TallyCopies(r.unplaced, x);
  }

  /** Starting from shelves without stacks, the number of games placed plus
      the number left over is the number of games handled. */
  lemma AllocateCountsFromBareShelves(shelves: seq<ShelfState>, games: seq<BoardGame>)
    requires forall i :: 0 <= i < |shelves| ==> shelves[i].stacks == []
    ensures TallyShelves(Allocate(shelves, games).shelves, _ => true)
            + |Allocate(shelves, games).unplaced| == |games|
  {
    AllocateConserves(shelves, games, _ => true);
    BareShelvesHoldNothing(shelves, _ => true);
    AllTallied(games);
    AllTallied(Allocate(shelves, games).unplaced);
  }

  /** Counting with a property every game has counts them all. */
  lemma {:induction false} AllTallied(games: seq<BoardGame>)
    ensures Tally(games, _ => true) == |games|
  {
    if games != [] {
      AllTallied(games[..|games| - 1]);
    }
  }

  // ---------------------------------------------------------------------
  // The games left over
  // ---------------------------------------------------------------------

  /** `a` is `b` with some elements dropped and the rest kept in order. */
  predicate Subsequence<T(==)>(a: seq<T>, b: seq<T>)
    decreases |b|
  {
    if b == [] then a == []
    else
      || Subsequence(a, b[..|b| - 1])
      || (a != [] && a[|a| - 1] == b[|b| - 1] && Subsequence(a[..|a| - 1], b[..|b| - 1]))
  }

  /** The games left over appear in the order they were handled. */
  lemma {:induction false} UnplacedInInputOrder(shelves: seq<ShelfState>, games: seq<BoardGame>)
    ensures Subsequence(Allocate(shelves, games).unplaced, games)
  {
    if games != [] {
      var init := games[..|games| - 1];
      var g := games[|games| - 1];
      var prior := Allocate(shelves, init);
      UnplacedInInputOrder(shelves, init);
      if !PlaceGame(prior.shelves, g).placed {
        assert (prior.unplaced + [g])[..|prior.unplaced|] == prior.unplaced;
      }
    }
  }

  /** With no shelves, neither pass finds a place for a game. */
  lemma NoShelfTakesGame(g: BoardGame)
    ensures PlaceGame([], g) == Placement([], false)
  {
    assert FirstSlotFrom([], g, 0) == None;
    assert FirstOpenShelfFrom([], g, 0) == None;
  }

  /** With no shelves at all, every game is left over, in the order given, and
      the run completes normally. */
  lemma {:induction false} AllocateWithoutShelves(games: seq<BoardGame>)
    ensures Allocate([], games) == Allocation([], games)
  {
    if games != [] {
      var init, g := games[..|games| - 1], games[|games| - 1];
      AllocateWithoutShelves(init);
      NoShelfTakesGame(g);
      assert games == init + [g];
    }
  }

  /** Every stack base on the shelves is non-negative. */
  predicate NonNegativeBases(shelves: seq<ShelfState>)
  {
    forall i, k :: 0 <= i < |shelves| && 0 <= k < |shelves[i].stacks| ==> shelves[i].stacks[k].baseWidth >= 0.0
  }

  /** With non-negative bases, each base is at most the total of the bases. */
  lemma {:induction false} BaseWithinSumWidths(stacks: seq<StackState>, k: nat)
    requires forall m :: 0 <= m < |stacks| ==> stacks[m].baseWidth >= 0.0
    ensures 0.0 <= SumWidths(stacks)
    ensures k < |stacks| ==> stacks[k].baseWidth <= SumWidths(stacks)
  {
    if stacks != [] {
      var n := |stacks|;
      BaseWithinSumWidths(stacks[..n - 1], if k < n - 1 then k else 0);
    }
  }

  /** A game wider than every shelf fits on no stack and can start none, so it is
      left over. */
  lemma TooWideNeverPlaced(shelves: seq<ShelfState>, g: BoardGame)
    requires ShelvesInv(shelves) && NonNegativeBases(shelves)
    requires forall j :: 0 <= j < |shelves| ==> g.width > shelves[j].maxLength
    ensures !PlaceGame(shelves, g).placed
  {
    forall i, k | 0 <= i < |shelves| && 0 <= k < |shelves[i].stacks|
      ensures !FitsAt(shelves, g, i, k)
    {
      BaseWithinSumWidths(shelves[i].stacks, k);
    }
    forall j | 0 <= j < |shelves|
      ensures !CanStartNewStack(shelves[j], g)
    {
      BaseWithinSumWidths(shelves[j].stacks, 0);
    }
    PlaceGameLeftOver(shelves, g);
  }

  /** A game of non-negative size keeps the bases non-negative. */
  lemma PlaceGameKeepsBases(shelves: seq<ShelfState>, g: BoardGame)
    requires NonNegativeBases(shelves) && g.width >= 0.0
    ensures NonNegativeBases(PlaceGame(shelves, g).shelves)
  {
    match FirstFit(shelves, g)
    case Some(s) =>
    case None =>
      match FirstOpenShelf(shelves, g)
      case Some(j) =>
        var r := shelves[j := StartNewStack(shelves[j], g)];
        assert forall k :: 0 <= k < |shelves[j].stacks| ==> r[j].stacks[k] == shelves[j].stacks[k];
      case None =>
  }

  /** Games of non-negative width keep the bases non-negative over a whole run. */
  lemma {:induction false} AllocateKeepsBases(shelves: seq<ShelfState>, games: seq<BoardGame>)
    requires NonNegativeBases(shelves)
    requires forall n :: 0 <= n < |games| ==> games[n].width >= 0.0
    ensures NonNegativeBases(Allocate(shelves, games).shelves)
  {
    if games != [] {
      AllocateKeepsBases(shelves, games[..|games| - 1]);
      PlaceGameKeepsBases(Allocate(shelves, games[..|games| - 1]).shelves, games[|games| - 1]);
    }
  }

  /** Every game stacked on the shelves satisfies `p`. */
  predicate AllStacked(shelves: seq<ShelfState>, p: BoardGame -> bool)
  {
    forall i, k, n :: 0 <= i < |shelves| && 0 <= k < |shelves[i].stacks| && 0 <= n < |shelves[i].stacks[k].games|
      ==> p(shelves[i].stacks[k].games[n])
  }

  /** Placing a game that satisfies `p` keeps every stacked game satisfying `p`. */
  lemma PlaceGameKeepsAllStacked(shelves: seq<ShelfState>, g: BoardGame, p: BoardGame -> bool)
    requires AllStacked(shelves, p) && p(g)
    ensures AllStacked(PlaceGame(shelves, g).shelves, p)
  {
    match FirstFit(shelves, g)
    case Some(s) =>
      var r := PutOnStack(shelves, s, g);
      var before := shelves[s.shelf].stacks[s.stack].games;
      assert forall n :: 0 <= n < |before| ==> r[s.shelf].stacks[s.stack].games[n] == before[n];
    case None =>
      match FirstOpenShelf(shelves, g)
      case Some(j) =>
        var r := shelves[j := StartNewStack(shelves[j], g)];
        assert forall k :: 0 <= k < |shelves[j].stacks| ==> r[j].stacks[k] == shelves[j].stacks[k];
      case None =>
  }

  /** Over a whole run, when the shelves start with games satisfying `p` and
      every game handed in satisfies `p`, so does every game on the shelves. */
  lemma {:induction false} AllocateKeepsAllStacked(shelves: seq<ShelfState>, games: seq<BoardGame>, p: BoardGame -> bool)
    requires AllStacked(shelves, p)
    requires forall n :: 0 <= n < |games| ==> p(games[n])
    ensures AllStacked(Allocate(shelves, games).shelves, p)
  {
    if games != [] {
      AllocateKeepsAllStacked(shelves, games[..|games| - 1], p);
      PlaceGameKeepsAllStacked(Allocate(shelves, games[..|games| - 1]).shelves, games[|games| - 1], p);
    }
  }

  /** Every copy of a game wider than every shelf is left over, whatever the
      order of the games, when all widths are non-negative. */
  lemma {:induction false} TooWideAlwaysUnplaced(shelves: seq<ShelfState>, games: seq<BoardGame>, g: BoardGame)
    requires ShelvesInv(shelves) && NonNegativeBases(shelves)
    requires forall n :: 0 <= n < |games| ==> games[n].width >= 0.0
    requires forall j :: 0 <= j < |shelves| ==> g.width > shelves[j].maxLength
    ensures multiset(Allocate(shelves, games).unplaced)[g] == multiset(games)[g]
  {
    if games != [] {
      var init := games[..|games| - 1];
      var last := games[|games| - 1];
      assert games == init + [last];
      TooWideAlwaysUnplaced(shelves, init, g);
      if last == g {
        var prior := Allocate(shelves, init);
        assert !PlaceGame(prior.shelves, g).placed by {
          AllocateExtends(shelves, init);
          AllocateKeepsInv(shelves, init);
          AllocateKeepsBases(shelves, init);
          TooWideNeverPlaced(prior.shelves, g);
        }
      }
    }
  }
}
