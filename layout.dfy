/** The value view of a shelving arrangement: board games, the stacks they form
    and the shelves that hold those stacks, with the single-step operations of
    kalmax/models.py stated as pure functions on those values. */
module Layout {

  datatype Option<T> = None | Some(value: T)

  /** A board game: an immutable record of its name and footprint. */
  datatype BoardGame = BoardGame(name: string, width: real, height: real)

  /** What a stack holds: its fixed base width, the height still free above it,
      and its games from bottom to top. */
  datatype StackState = StackState(baseWidth: real, remainingHeight: real, games: seq<BoardGame>)

  /** What a shelf holds: its fixed capacity, the length still free, and its
      stacks from left to right. */
  datatype ShelfState = ShelfState(maxLength: real, maxHeight: real, remainingLength: real,
                                   stacks: seq<StackState>)

  /** Total height of a pile of games. */
  function SumHeights(games: seq<BoardGame>): real
  {
    if games == [] then 0.0 else SumHeights(games[..|games| - 1]) + games[|games| - 1].height
  }

  /** Total length taken on a shelf by a row of stacks. */
  function SumWidths(stacks: seq<StackState>): real
  {
    if stacks == [] then 0.0 else SumWidths(stacks[..|stacks| - 1]) + stacks[|stacks| - 1].baseWidth
  }

  lemma SumHeightsAppend(games: seq<BoardGame>, g: BoardGame)
    ensures SumHeights(games + [g]) == SumHeights(games) + g.height
  {
    assert (games + [g])[..|games|] == games;
  }

  lemma SumWidthsAppend(stacks: seq<StackState>, s: StackState)
    ensures SumWidths(stacks + [s]) == SumWidths(stacks) + s.baseWidth
  {
    assert (stacks + [s])[..|stacks|] == stacks;
  }

  /** SumWidths only depends on the base widths. */
  lemma {:induction false} SumWidthsUpdate(stacks: seq<StackState>, k: nat, s: StackState)
    requires k < |stacks| && s.baseWidth == stacks[k].baseWidth
    ensures SumWidths(stacks[k := s]) == SumWidths(stacks)
  {
    var n := |stacks|;
    if k < n - 1 {
      assert stacks[k := s][..n - 1] == stacks[..n - 1][k := s];
      SumWidthsUpdate(stacks[..n - 1], k, s);
    } else {
      assert stacks[k := s][..n - 1] == stacks[..n - 1];
    }
  }

  // ---------------------------------------------------------------------
  // Stack (kalmax/models.py:15-26)
  // ---------------------------------------------------------------------

  /** A stack freshly built on a given base for a shelf of a given height. */
  function NewStack(baseWidth: real, maxHeight: real): StackState
  {
    StackState(baseWidth, maxHeight, [])
  }

  /** A game fits on a stack when it is no wider than the base and no taller
      than the height left. */
  predicate CanFit(s: StackState, g: BoardGame)
  {
    g.width <= s.baseWidth && g.height <= s.remainingHeight
  }

  /** Put a game on top of a stack; nothing is checked. */
  function AddGame(s: StackState, g: BoardGame): StackState
  {
    s.(games := s.games + [g], remainingHeight := s.remainingHeight - g.height)
  }

  /** The bookkeeping every stack keeps: the height left plus the height used is
      the shelf height, and no game overhangs the base. */
  predicate StackInv(s: StackState, maxHeight: real)
  {
    && s.remainingHeight + SumHeights(s.games) == maxHeight
    && forall j :: 0 <= j < |s.games| ==> s.games[j].width <= s.baseWidth
  }

  /** A stack that does not rise above its shelf. */
  predicate WithinHeight(s: StackState)
  {
    s.remainingHeight >= 0.0
  }

  // ---------------------------------------------------------------------
  // Shelf (kalmax/models.py:32-46)
  // ---------------------------------------------------------------------

  /** An empty shelf of the given capacity. */
  function NewShelf(maxLength: real, maxHeight: real): ShelfState
  {
    ShelfState(maxLength, maxHeight, maxLength, [])
  }

  /** A shelf can take a new stack when the game's width fits in the length left.
      The game's height is not compared with the shelf height. */
  predicate CanStartNewStack(sh: ShelfState, g: BoardGame)
  {
    g.width <= sh.remainingLength
  }

  /** Open a new stack at the right end of a shelf, based on the game's width
      and holding just that game; nothing is checked. */
  function StartNewStack(sh: ShelfState, g: BoardGame): ShelfState
  {
    sh.(stacks := sh.stacks + [AddGame(NewStack(g.width, sh.maxHeight), g)],
        remainingLength := sh.remainingLength - g.width)
  }

  /** The bookkeeping every shelf keeps: the length left is never negative, the
      length left plus the stacks' bases is the shelf length, and every stack
      keeps its own bookkeeping against the shelf height. */
  predicate ShelfInv(sh: ShelfState)
  {
    && sh.remainingLength >= 0.0
    && sh.remainingLength + SumWidths(sh.stacks) == sh.maxLength
    && forall k :: 0 <= k < |sh.stacks| ==> StackInv(sh.stacks[k], sh.maxHeight)
  }

  predicate ShelvesInv(shelves: seq<ShelfState>)
  {
    forall i :: 0 <= i < |shelves| ==> ShelfInv(shelves[i])
  }

  /** Every stack on every shelf stays below its shelf's height. */
  predicate ShelvesWithinHeight(shelves: seq<ShelfState>)
  {
    forall i, k :: 0 <= i < |shelves| && 0 <= k < |shelves[i].stacks| ==> WithinHeight(shelves[i].stacks[k])
  }

  // ---------------------------------------------------------------------
  // Properties of the single-step operations
  // ---------------------------------------------------------------------

  /** A new stack has the whole shelf height free, the given base and no games,
      and it keeps the stack bookkeeping. */
  lemma NewStackIsEmpty(baseWidth: real, maxHeight: real)
    ensures NewStack(baseWidth, maxHeight).remainingHeight == maxHeight
    ensures NewStack(baseWidth, maxHeight).baseWidth == baseWidth
    ensures NewStack(baseWidth, maxHeight).games == []
    ensures StackInv(NewStack(baseWidth, maxHeight), maxHeight)
  {
  }

  /** Adding a game appends it on top, keeps the earlier games and the base, and
      lowers the height left by exactly the game's height, which stays
      non-negative when the game fitted. */
  lemma AddGameAppends(s: StackState, g: BoardGame)
    ensures |AddGame(s, g).games| == |s.games| + 1
    ensures AddGame(s, g).games[..|s.games|] == s.games && AddGame(s, g).games[|s.games|] == g
    ensures AddGame(s, g).baseWidth == s.baseWidth
    ensures AddGame(s, g).remainingHeight == s.remainingHeight - g.height
    ensures CanFit(s, g) ==> WithinHeight(AddGame(s, g))
  {
  }

  /** The accounting half of the stack bookkeeping survives any addition. */
  lemma AddGameKeepsAccounting(s: StackState, g: BoardGame, maxHeight: real)
    requires s.remainingHeight + SumHeights(s.games) == maxHeight
    ensures AddGame(s, g).remainingHeight + SumHeights(AddGame(s, g).games) == maxHeight
  {
    SumHeightsAppend(s.games, g);
  }

  /** On a stack that keeps its bookkeeping, a game
      fits exactly when adding it keeps the bookkeeping and the stack within
      its shelf. */
  lemma CanFitIffAddKeepsInv(s: StackState, g: BoardGame, maxHeight: real)
    requires StackInv(s, maxHeight)
    ensures CanFit(s, g) <==> StackInv(AddGame(s, g), maxHeight) && WithinHeight(AddGame(s, g))
  {
    AddGameKeepsAccounting(s, g, maxHeight);
    var t := AddGame(s, g);
    assert t.games[|s.games|] == g;
    if StackInv(t, maxHeight) && WithinHeight(t) {
      assert t.games[|s.games|].width <= t.baseWidth;
    }
  }

  /** A new shelf has its whole length free and no stacks, and keeps the shelf
      bookkeeping when its length is not negative. */
  lemma NewShelfIsEmpty(maxLength: real, maxHeight: real)
    ensures NewShelf(maxLength, maxHeight).remainingLength == maxLength
    ensures NewShelf(maxLength, maxHeight).stacks == []
    ensures maxLength >= 0.0 ==> ShelfInv(NewShelf(maxLength, maxHeight))
  {
  }

  /** A row of `count` new shelves, all of the same size. */
  function NewShelves(count: nat, maxLength: real, maxHeight: real): (r: seq<ShelfState>)
    ensures |r| == count && forall i :: 0 <= i < count ==> r[i] == NewShelf(maxLength, maxHeight)
  {
    if count == 0 then [] else NewShelves(count - 1, maxLength, maxHeight) + [NewShelf(maxLength, maxHeight)]
  }

  /** Starting a stack appends exactly one stack, based on the game's width, holding
      just that game, with the shelf height less the game's height left; the
      earlier stacks and the capacity stay as they were, and the length left
      drops by exactly the game's width. */
  lemma StartNewStackAppends(sh: ShelfState, g: BoardGame)
    ensures |StartNewStack(sh, g).stacks| == |sh.stacks| + 1
    ensures StartNewStack(sh, g).stacks[..|sh.stacks|] == sh.stacks
    ensures StartNewStack(sh, g).stacks[|sh.stacks|] == StackState(g.width, sh.maxHeight - g.height, [g])
    ensures StartNewStack(sh, g).remainingLength == sh.remainingLength - g.width
    ensures StartNewStack(sh, g).maxLength == sh.maxLength && StartNewStack(sh, g).maxHeight == sh.maxHeight
  {
  }

  /** Starting a stack when the shelf allows it keeps the shelf bookkeeping:
      the length left stays non-negative and the bases still add up to the
      shelf length. */
  lemma StartNewStackKeepsInv(sh: ShelfState, g: BoardGame)
    requires ShelfInv(sh) && CanStartNewStack(sh, g)
    ensures ShelfInv(StartNewStack(sh, g))
  {
    var t := StartNewStack(sh, g);
    var added := AddGame(NewStack(g.width, sh.maxHeight), g);
    SumWidthsAppend(sh.stacks, added);
    AddGameKeepsAccounting(NewStack(g.width, sh.maxHeight), g, sh.maxHeight);
    assert forall k :: 0 <= k < |sh.stacks| ==> t.stacks[k] == sh.stacks[k];
    assert t.stacks[|sh.stacks|] == added;
  }

  /** Without the shelf's permission, starting a stack drives the length left
      below zero. */
  lemma StartNewStackOverrunsShelf(sh: ShelfState, g: BoardGame)
    requires !CanStartNewStack(sh, g)
    ensures StartNewStack(sh, g).remainingLength < 0.0
  {
  }

  /** The new stack stays within its shelf exactly when the game is no taller
      than the shelf: the shelf itself does not check this. */
  lemma StartNewStackHeight(sh: ShelfState, g: BoardGame)
    ensures WithinHeight(StartNewStack(sh, g).stacks[|sh.stacks|]) <==> g.height <= sh.maxHeight
  {
  }

  /** A game taller than an empty shelf is still given a stack there, and that
      stack rises above the shelf. */
  lemma OverTallGameStartsStack()
    ensures CanStartNewStack(NewShelf(10.0, 10.0), BoardGame("tall", 4.0, 12.0))
    ensures StartNewStack(NewShelf(10.0, 10.0), BoardGame("tall", 4.0, 12.0)).stacks[0].remainingHeight == -2.0
  {
  }
}
