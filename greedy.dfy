/** The greedy first-fit allocation of kalmax/main.py (allocate_games_to_shelves),
    stated as pure functions over the value view of the shelves, with the
    properties the allocation keeps: placement order, capacity bookkeeping,
    conservation of games and the order of the games left over. */
module Greedy {
  import opened Layout

  /** A position on the shelves: a shelf index and a stack index on that shelf. */
  datatype Slot = Slot(shelf: nat, stack: nat)

  /** The result of handling one game: the new shelves and whether it found a place. */
  datatype Placement = Placement(shelves: seq<ShelfState>, placed: bool)

  /** The result of a whole allocation: the final shelves and the games left over. */
  datatype Allocation = Allocation(shelves: seq<ShelfState>, unplaced: seq<BoardGame>)

  /** The stack at (i, k) exists and the game fits on it. */
  predicate FitsAt(shelves: seq<ShelfState>, g: BoardGame, i: int, k: int)
  {
    0 <= i < |shelves| && 0 <= k < |shelves[i].stacks| && CanFit(shelves[i].stacks[k], g)
  }

  /** The scanning order: shelves in order, and stacks in order within a shelf. */
  predicate Before(i: int, k: int, s: Slot)
  {
    i < s.shelf || (i == s.shelf && k < s.stack)
  }

  // ---------------------------------------------------------------------
  // The two scans
  // ---------------------------------------------------------------------

  /** The first stack, at index `from` or later, that the game fits on. */
  function FirstStackFrom(stacks: seq<StackState>, g: BoardGame, from: nat): (r: Option<nat>)
    requires from <= |stacks|
    decreases |stacks| - from
    ensures r.Some? ==> from <= r.value < |stacks| && CanFit(stacks[r.value], g)
  {
    if from == |stacks| then None
    else if CanFit(stacks[from], g) then Some(from)
    else FirstStackFrom(stacks, g, from + 1)
  }

  /** The stack scan misses nothing: no stack it passes over fits the game. */
  lemma {:induction false} FirstStackFromIsFirst(stacks: seq<StackState>, g: BoardGame, from: nat)
    requires from <= |stacks|
    decreases |stacks| - from
    ensures var r := FirstStackFrom(stacks, g, from);
            r.Some? ==> forall k :: from <= k < r.value ==> !CanFit(stacks[k], g)
    ensures var r := FirstStackFrom(stacks, g, from);
            r.None? ==> forall k :: from <= k < |stacks| ==> !CanFit(stacks[k], g)
  {
    if from < |stacks| && !CanFit(stacks[from], g) {
      FirstStackFromIsFirst(stacks, g, from + 1);
    }
  }

  /** The first stack, on shelf `from` or a later one, that the game fits on. */
  function FirstSlotFrom(shelves: seq<ShelfState>, g: BoardGame, from: nat): (r: Option<Slot>)
    requires from <= |shelves|
    decreases |shelves| - from
    ensures r.Some? ==> from <= r.value.shelf && FitsAt(shelves, g, r.value.shelf, r.value.stack)
  {
    if from == |shelves| then None
    else match FirstStackFrom(shelves[from].stacks, g, 0)
      case Some(k) => Some(Slot(from, k))
      case None => FirstSlotFrom(shelves, g, from + 1)
  }

  /** The slot scan misses nothing: no slot it passes over fits the game. */
  lemma {:induction false} FirstSlotFromIsFirst(shelves: seq<ShelfState>, g: BoardGame, from: nat)
    requires from <= |shelves|
    decreases |shelves| - from
    ensures var r := FirstSlotFrom(shelves, g, from);
            r.Some? ==> forall i, k :: from <= i && Before(i, k, r.value) ==> !FitsAt(shelves, g, i, k)
    ensures var r := FirstSlotFrom(shelves, g, from);
            r.None? ==> forall i, k :: from <= i ==> !FitsAt(shelves, g, i, k)
  {
    if from < |shelves| {
      FirstStackFromIsFirst(shelves[from].stacks, g, 0);
      if FirstStackFrom(shelves[from].stacks, g, 0).None? {
        FirstSlotFromIsFirst(shelves, g, from + 1);
      }
    }
  }

  /** The existing-stack pass: the first stack, in shelf order then stack order,
      that the game fits on, if any. */
  function FirstFit(shelves: seq<ShelfState>, g: BoardGame): (r: Option<Slot>)
    ensures r.Some? ==> FitsAt(shelves, g, r.value.shelf, r.value.stack)
  {
    FirstSlotFrom(shelves, g, 0)
  }

  /** First fit finds the first fitting slot in scan order, and finds one
      whenever there is one. */
  lemma FirstFitScansInOrder(shelves: seq<ShelfState>, g: BoardGame)
    ensures var r := FirstFit(shelves, g);
            r.Some? ==> forall i, k :: Before(i, k, r.value) ==> !FitsAt(shelves, g, i, k)
    ensures FirstFit(shelves, g).None? <==> forall i, k :: !FitsAt(shelves, g, i, k)
  {
    FirstSlotFromIsFirst(shelves, g, 0);
  }

  /** A fitting slot with no fitting slot before it is the one the scan finds. */
  lemma FirstFitIsFirst(shelves: seq<ShelfState>, g: BoardGame, s: Slot)
    requires FitsAt(shelves, g, s.shelf, s.stack)
    requires forall i, k :: Before(i, k, s) ==> !FitsAt(shelves, g, i, k)
    ensures FirstFit(shelves, g) == Some(s)
  {
    FirstFitScansInOrder(shelves, g);
    var r := FirstFit(shelves, g).value;
    assert !Before(r.shelf, r.stack, s);
    assert !Before(s.shelf, s.stack, r);
  }

  /** The first shelf, at index `from` or later, that can start a stack for the game. */
  function FirstOpenShelfFrom(shelves: seq<ShelfState>, g: BoardGame, from: nat): (r: Option<nat>)
    requires from <= |shelves|
    decreases |shelves| - from
    ensures r.Some? ==> from <= r.value < |shelves| && CanStartNewStack(shelves[r.value], g)
  {
    if from == |shelves| then None
    else if CanStartNewStack(shelves[from], g) then Some(from)
    else FirstOpenShelfFrom(shelves, g, from + 1)
  }

  /** The shelf scan misses nothing: no shelf it passes over can start a stack. */
  lemma {:induction false} FirstOpenShelfFromIsFirst(shelves: seq<ShelfState>, g: BoardGame, from: nat)
    requires from <= |shelves|
    decreases |shelves| - from
    ensures var r := FirstOpenShelfFrom(shelves, g, from);
            r.Some? ==> forall j :: from <= j < r.value ==> !CanStartNewStack(shelves[j], g)
    ensures var r := FirstOpenShelfFrom(shelves, g, from);
            r.None? ==> forall j :: from <= j < |shelves| ==> !CanStartNewStack(shelves[j], g)
  {
    if from < |shelves| && !CanStartNewStack(shelves[from], g) {
      FirstOpenShelfFromIsFirst(shelves, g, from + 1);
    }
  }

  /** The new-stack pass: the first shelf that can start a stack for the game, if any. */
  function FirstOpenShelf(shelves: seq<ShelfState>, g: BoardGame): (r: Option<nat>)
    ensures r.Some? ==> r.value < |shelves| && CanStartNewStack(shelves[r.value], g)
  {
    FirstOpenShelfFrom(shelves, g, 0)
  }

  /** The new-stack scan finds the first shelf that can start a stack, and
      finds one whenever there is one. */
  lemma FirstOpenShelfScansInOrder(shelves: seq<ShelfState>, g: BoardGame)
    ensures var r := FirstOpenShelf(shelves, g);
            r.Some? ==> forall j :: 0 <= j < r.value ==> !CanStartNewStack(shelves[j], g)
    ensures FirstOpenShelf(shelves, g).None? <==> forall j :: 0 <= j < |shelves| ==> !CanStartNewStack(shelves[j], g)
  {
    FirstOpenShelfFromIsFirst(shelves, g, 0);
  }

  /** A shelf that can start a stack with no such shelf before it is the one the scan finds. */
  lemma FirstOpenShelfIsFirst(shelves: seq<ShelfState>, g: BoardGame, j: nat)
    requires j < |shelves| && CanStartNewStack(shelves[j], g)
    requires forall j' :: 0 <= j' < j ==> !CanStartNewStack(shelves[j'], g)
    ensures FirstOpenShelf(shelves, g) == Some(j)
  {
    FirstOpenShelfScansInOrder(shelves, g);
  }

  // ---------------------------------------------------------------------
  // One game, and a whole run
  // ---------------------------------------------------------------------

  /** Put the game on the stack at the given slot and change nothing else. */
  function PutOnStack(shelves: seq<ShelfState>, s: Slot, g: BoardGame): seq<ShelfState>
    requires s.shelf < |shelves| && s.stack < |shelves[s.shelf].stacks|
  {
    var sh := shelves[s.shelf];
    shelves[s.shelf := sh.(stacks := sh.stacks[s.stack := AddGame(sh.stacks[s.stack], g)])]
  }

  /** Handle one game: the existing-stack pass, then the new-stack pass, then give up. */
  function PlaceGame(shelves: seq<ShelfState>, g: BoardGame): Placement
  {
    match FirstFit(shelves, g)
    case Some(s) => Placement(PutOnStack(shelves, s, g), true)
    case None =>
      match FirstOpenShelf(shelves, g)
      case Some(j) => Placement(shelves[j := StartNewStack(shelves[j], g)], true)
      case None => Placement(shelves, false)
  }

  /** Handle the games one after the other, in the order given, collecting the
      games that found no place. */
  function Allocate(shelves: seq<ShelfState>, games: seq<BoardGame>): Allocation
    decreases |games|
  {
    if games == [] then Allocation(shelves, [])
    else
      var prior := Allocate(shelves, games[..|games| - 1]);
      var g := games[|games| - 1];
      var step := PlaceGame(prior.shelves, g);
      Allocation(step.shelves, if step.placed then prior.unplaced else prior.unplaced + [g])
  }

  /** Allocating one more game of the list continues from the allocation of
      the games before it. */
  lemma AllocateOneMore(shelves: seq<ShelfState>, games: seq<BoardGame>, n: nat)
    requires n < |games|
    ensures var prior := Allocate(shelves, games[..n]);
            var step := PlaceGame(prior.shelves, games[n]);
            Allocate(shelves, games[..n + 1])
              == Allocation(step.shelves, if step.placed then prior.unplaced else prior.unplaced + [games[n]])
  {
    assert games[..n + 1][..n] == games[..n];
  }

  // ---------------------------------------------------------------------
  // Where one game goes
  // ---------------------------------------------------------------------

  /** First fit: the game goes on the first stack, in shelf order then stack order,
      that it fits on; that stack alone changes, and no stack is added. */
  lemma PlaceGameFirstFit(shelves: seq<ShelfState>, g: BoardGame, s: Slot)
    requires FitsAt(shelves, g, s.shelf, s.stack)
    requires forall i, k :: Before(i, k, s) ==> !FitsAt(shelves, g, i, k)
    ensures PlaceGame(shelves, g) == Placement(PutOnStack(shelves, s, g), true)
    ensures PlaceGame(shelves, g).placed
    ensures |PlaceGame(shelves, g).shelves| == |shelves|
    ensures forall j :: 0 <= j < |shelves| && j != s.shelf ==> PlaceGame(shelves, g).shelves[j] == shelves[j]
    ensures PlaceGame(shelves, g).shelves[s.shelf].remainingLength == shelves[s.shelf].remainingLength
    ensures PlaceGame(shelves, g).shelves[s.shelf].stacks
         == shelves[s.shelf].stacks[s.stack := AddGame(shelves[s.shelf].stacks[s.stack], g)]
  {
    FirstFitIsFirst(shelves, g, s);
  }

  /** Existing stacks first: when the game fits on some existing stack, it is
      placed and no shelf gets a new stack. */
  lemma PlaceGamePrefersExistingStacks(shelves: seq<ShelfState>, g: BoardGame)
    requires exists i, k :: FitsAt(shelves, g, i, k)
    ensures PlaceGame(shelves, g).placed
    ensures |PlaceGame(shelves, g).shelves| == |shelves|
    ensures forall j :: 0 <= j < |shelves| ==> |PlaceGame(shelves, g).shelves[j].stacks| == |shelves[j].stacks|
  {
    FirstFitScansInOrder(shelves, g);
  }

  /** New-stack fallback: when the game fits on no existing stack, a stack is
      started for it on the first shelf that can start one, and every other
      shelf stays as it was. */
  lemma PlaceGameNewStack(shelves: seq<ShelfState>, g: BoardGame, j: nat)
    requires forall i, k :: !FitsAt(shelves, g, i, k)
    requires j < |shelves| && CanStartNewStack(shelves[j], g)
    requires forall j' :: 0 <= j' < j ==> !CanStartNewStack(shelves[j'], g)
    ensures PlaceGame(shelves, g) == Placement(shelves[j := StartNewStack(shelves[j], g)], true)
  {
    FirstOpenShelfIsFirst(shelves, g, j);
  }

  /** A game is left over exactly when it fits on no stack and no shelf can
      start a stack for it; then nothing changes. */
  lemma PlaceGameLeftOver(shelves: seq<ShelfState>, g: BoardGame)
    ensures !PlaceGame(shelves, g).placed
        <==> (forall i, k :: !FitsAt(shelves, g, i, k))
             && (forall j :: 0 <= j < |shelves| ==> !CanStartNewStack(shelves[j], g))
    ensures !PlaceGame(shelves, g).placed ==> PlaceGame(shelves, g).shelves == shelves
  {
    FirstFitScansInOrder(shelves, g);
    FirstOpenShelfScansInOrder(shelves, g);
  }
}
