/** The allocation logic of kalmax/main.py: allocate_games_to_shelves, working
    in place on the shelf and stack objects, proved to do exactly what the pure
    first-fit allocation Greedy.Allocate describes; and, from main, the ordering
    of the games, the construction of the shelves and the allocation call. */
module Kalmax {
  import opened Layout
  import opened Greedy
  import opened Models
  import opened GameOrder
  import opened AllocationProperties

  /** add_game on the k-th stack of the i-th shelf, seen from the whole row of
      shelves: that one stack gains the game and no other shelf or stack changes. */
  method AddGameAt(shelves: seq<Shelf>, i: nat, k: nat, game: BoardGame)
    requires ValidShelves(shelves)
    requires i < |shelves| && k < |shelves[i].stacks|
    modifies shelves[i].stacks[k]
    ensures Views(shelves) == PutOnStack(old(Views(shelves)), Slot(i, k), game)
  {
    ghost var before := Views(shelves);
    var stack := shelves[i].stacks[k];
    stack.AddGame(game);
    forall j | 0 <= j < |shelves| && j != i
      ensures shelves[j].View() == before[j]
    {
      assert shelves[i].Repr !! shelves[j].Repr;
      assert forall m :: 0 <= m < |shelves[j].stacks| ==> shelves[j].stacks[m] != stack;
    }
    assert StackViews(shelves[i].stacks) == before[i].stacks[k := stack.View()];
  }

  /** The inner loop of the existing-stack pass, over the stacks of shelf `i`
      in order: put the game on the first one it fits on. */
  method PlaceOnShelf(shelves: seq<Shelf>, i: nat, game: BoardGame) returns (placed: bool)
    requires ValidShelves(shelves) && i < |shelves|
    modifies shelves[i].stacks
    ensures unchanged(shelves)
    ensures var found := FirstStackFrom(old(Views(shelves))[i].stacks, game, 0);
            placed == found.Some?
            && (placed ==> Views(shelves) == PutOnStack(old(Views(shelves)), Slot(i, found.value), game))
            && (!placed ==> Views(shelves) == old(Views(shelves)))
  {
    ghost var before := Views(shelves);
    var shelf := shelves[i];
    placed := false;
    for k := 0 to |shelf.stacks|
      invariant Views(shelves) == before
      invariant FirstStackFrom(before[i].stacks, game, 0) == FirstStackFrom(before[i].stacks, game, k)
    {
      var stack := shelf.stacks[k];
      assert before[i].stacks[k] == stack.View();
      if stack.CanFit(game) {
        AddGameAt(shelves, i, k, game);
        placed := true;
        return;
      }
    }
  }

  /** Changing only the stacks keeps the shelves valid and owning the same objects. */
  twostate lemma ShelvesKept(shelves: seq<Shelf>)
    requires old(ValidShelves(shelves)) && unchanged(shelves)
    ensures ValidShelves(shelves) && Footprint(shelves) == old(Footprint(shelves))
    ensures fresh(Footprint(shelves) - old(Footprint(shelves)))
  {
  }

  /** The existing-stack pass: scan the shelves in order and, on each, its stacks
      in order, and put the game on the first stack it fits on. */
  method PlaceOnExistingStack(shelves: seq<Shelf>, game: BoardGame) returns (placed: bool)
    requires ValidShelves(shelves)
    modifies StacksOf(shelves)
    ensures placed == FirstFit(old(Views(shelves)), game).Some?
    ensures placed ==> Views(shelves) == PutOnStack(old(Views(shelves)), FirstFit(old(Views(shelves)), game).value, game)
    ensures placed ==> Placement(Views(shelves), placed) == PlaceGame(old(Views(shelves)), game)
    ensures !placed ==> Views(shelves) == old(Views(shelves))
  {
    ghost var before := Views(shelves);
    ghost var found := FirstFit(before, game);
    assert found.Some? ==> PlaceGame(before, game) == Placement(PutOnStack(before, found.value, game), true);
    placed := false;
    for i := 0 to |shelves|
      invariant !placed
      invariant Views(shelves) == before
      invariant FirstFit(before, game) == FirstSlotFrom(before, game, i)
    {
      placed := PlaceOnShelf(shelves, i, game);
      if placed {
        break;
      }
    }
  }

  /** start_new_stack on shelf `i`, seen from the whole row of shelves: that shelf
      gains one new stack, every other shelf is unchanged, and the shelves stay
      valid with only the new stack added to what they own. */
  method StartNewStackAt(shelves: seq<Shelf>, i: nat, game: BoardGame)
    requires ValidShelves(shelves) && i < |shelves|
    modifies shelves[i]
    ensures ValidShelves(shelves)
    ensures fresh(Footprint(shelves) - old(Footprint(shelves)))
    ensures Views(shelves) == old(Views(shelves))[i := StartNewStack(old(Views(shelves))[i], game)]
  {
    ghost var before := Views(shelves);
    var shelf := shelves[i];
    shelf.StartNewStack(game);
    forall j | 0 <= j < |shelves| && j != i
      ensures shelves[j] != shelf && shelves[j].View() == before[j]
    {
      assert shelves[i].Repr !! shelves[j].Repr;
    }
    assert Views(shelves) == before[i := StartNewStack(before[i], game)];
    ShelfGrown(shelves, i, shelf.stacks[|shelf.stacks| - 1]);
  }

  /** One shelf taking ownership of one new object keeps the shelves valid, and
      everything they own that is new is that new object. */
  twostate lemma ShelfGrown(shelves: seq<Shelf>, new i: nat, new added: object)
    requires old(ValidShelves(shelves)) && i < |shelves| && shelves[i].Valid()
    requires fresh(added) && shelves[i].Repr == old(shelves[i].Repr) + {added}
    requires forall j :: 0 <= j < |shelves| && j != i ==> shelves[j].Repr == old(shelves[j].Repr) && shelves[j].Valid()
    ensures ValidShelves(shelves)
    ensures fresh(Footprint(shelves) - old(Footprint(shelves)))
  {
    forall j, l | 0 <= j < l < |shelves| ensures shelves[j].Repr !! shelves[l].Repr {
      assert old(shelves[j].Repr !! shelves[l].Repr);
    }
    forall o | o in Footprint(shelves) && o !in old(Footprint(shelves)) ensures fresh(o) {
      var j :| 0 <= j < |shelves| && o in shelves[j].Repr;
      assert j == i;
    }
  }

  /** The new-stack pass: scan the shelves in order and start a stack for the
      game on the first one that can start one. */
  method StartStackOnFirstShelf(shelves: seq<Shelf>, game: BoardGame) returns (placed: bool)
    requires ValidShelves(shelves)
    modifies shelves
    ensures ValidShelves(shelves)
    ensures fresh(Footprint(shelves) - old(Footprint(shelves)))
    ensures var found := FirstOpenShelf(old(Views(shelves)), game);
            placed == found.Some?
            && (placed ==> Views(shelves) == old(Views(shelves))[found.value := StartNewStack(old(Views(shelves))[found.value], game)])
            && (!placed ==> Views(shelves) == old(Views(shelves)))
    ensures FirstFit(old(Views(shelves)), game).None? ==> Placement(Views(shelves), placed) == PlaceGame(old(Views(shelves)), game)
  {
    ghost var before := Views(shelves);
    placed := false;
    for i := 0 to |shelves|
      invariant unchanged(shelves)
      invariant FirstOpenShelf(before, game) == FirstOpenShelfFrom(before, game, i)
    {
      var shelf := shelves[i];
      assert before[i] == shelf.View();
      if shelf.CanStartNewStack(game) {
        StartNewStackAt(shelves, i, game);
        placed := true;
        return;
      }
    }
  }

  /** The body of the loop in allocate_games_to_shelves, for one game: the
      existing-stack pass, then, if that placed nothing, the new-stack pass. */
  method PlaceOneGame(shelves: seq<Shelf>, game: BoardGame) returns (placed: bool)
    requires ValidShelves(shelves)
    modifies Footprint(shelves)
    ensures ValidShelves(shelves) && fresh(Footprint(shelves) - old(Footprint(shelves)))
    ensures Placement(Views(shelves), placed) == PlaceGame(old(Views(shelves)), game)
  {
    placed := PlaceOnExistingStack(shelves, game);
    ShelvesKept(shelves);
    if !placed {
      placed := StartStackOnFirstShelf(shelves, game);
    }
  }

  /** allocate_games_to_shelves: handle the games in the order given; put each on
      the first existing stack it fits on, or else on a new stack on the first
      shelf with room for its width, or else add it to the games left over. The
      shelves are changed in place and returned with the games left over. */
  method AllocateGamesToShelves(games: seq<BoardGame>, shelves: seq<Shelf>)
    returns (result: seq<Shelf>, unplaced: seq<BoardGame>)
    requires ValidShelves(shelves)
    modifies Footprint(shelves)
    ensures result == shelves
    ensures ValidShelves(shelves) && fresh(Footprint(shelves) - old(Footprint(shelves)))
    ensures Allocation(Views(shelves), unplaced) == Allocate(old(Views(shelves)), games)
  {
    ghost var start := Views(shelves);
    unplaced := [];
    for n := 0 to |games|
      invariant ValidShelves(shelves)
      invariant fresh(Footprint(shelves) - old(Footprint(shelves)))
      invariant Allocation(Views(shelves), unplaced) == Allocate(start, games[..n])
    {
      var game := games[n];
      AllocateOneMore(start, games, n);
      var placed := PlaceOneGame(shelves, game);
      if !placed {
        unplaced := unplaced + [game];
      }
    }
    assert games[..|games|] == games;
    result := shelves;
  }

  /** Adding one shelf at the end of the row adds its view at the end. */
  lemma ViewsAppend(shelves: seq<Shelf>, shelf: Shelf)
    ensures Views(shelves + [shelf]) == Views(shelves) + [shelf.View()]
  {
    assert (shelves + [shelf])[..|shelves|] == shelves;
  }

  /** Adding a valid shelf that shares nothing with the row keeps the row valid,
      and the row then owns exactly what it owned and what the new shelf owns. */
  lemma ShelvesAppend(shelves: seq<Shelf>, shelf: Shelf)
    requires ValidShelves(shelves) && shelf.Valid()
    requires shelf.Repr !! Footprint(shelves)
    ensures ValidShelves(shelves + [shelf])
    ensures Footprint(shelves + [shelf]) == Footprint(shelves) + shelf.Repr
  {
    var row := shelves + [shelf];
    forall i | 0 <= i < |shelves| ensures shelves[i].Repr !! shelf.Repr {
      assert forall o :: o in shelves[i].Repr ==> o in Footprint(shelves);
    }
    assert forall i :: 0 <= i < |shelves| ==> row[i] == shelves[i];
    forall o ensures o in Footprint(row) <==> o in Footprint(shelves) || o in shelf.Repr {
      if o in Footprint(row) {
        var i :| 0 <= i < |row| && o in row[i].Repr;
        if i < |shelves| {
          assert o in shelves[i].Repr;
        }
      }
      if o in Footprint(shelves) {
        var i :| 0 <= i < |shelves| && o in shelves[i].Repr;
        assert o in row[i].Repr;
      }
      if o in shelf.Repr {
        assert o in row[|shelves|].Repr;
      }
    }
  }

  /** One more new shelf of the given size at the end of the row. */
  method AppendNewShelf(shelves: seq<Shelf>, maxLength: real, maxHeight: real) returns (row: seq<Shelf>)
    requires ValidShelves(shelves)
    ensures |row| == |shelves| + 1 && row[..|shelves|] == shelves
    ensures ValidShelves(row) && fresh(Footprint(row) - Footprint(shelves))
    ensures Views(row) == old(Views(shelves)) + [NewShelf(maxLength, maxHeight)]
  {
    ghost var owned, seen := Footprint(shelves), Views(shelves);
    var shelf := new Shelf(maxLength, maxHeight);
    assert shelf.Repr !! owned;
    assert Views(shelves) == seen by {
      assert forall i :: 0 <= i < |shelves| ==> Views(shelves)[i] == shelves[i].View() == seen[i];
    }
    ShelvesAppend(shelves, shelf);
    ViewsAppend(shelves, shelf);
    row := shelves + [shelf];
    assert row[..|shelves|] == shelves;
  }

  /** The shelves main builds: `count` new, empty shelves of the configured
      size, each a distinct object owning nothing the others own. */
  method BuildShelves(count: nat, maxLength: real, maxHeight: real) returns (shelves: seq<Shelf>)
    ensures |shelves| == count && ValidShelves(shelves) && fresh(Footprint(shelves))
    ensures Views(shelves) == NewShelves(count, maxLength, maxHeight)
  {
    shelves := [];
    for n := 0 to count
      invariant |shelves| == n && ValidShelves(shelves) && fresh(Footprint(shelves))
      invariant Views(shelves) == NewShelves(n, maxLength, maxHeight)
    {
      shelves := AppendNewShelf(shelves, maxLength, maxHeight);
    }
  }

  /** main, without the reading, printing and drawing: sort the games widest
      first (tallest first among equal widths), build `count` empty shelves of
      the configured size, and allocate the sorted games to them. */
  method Organize(games: seq<BoardGame>, count: nat, maxLength: real, maxHeight: real)
    returns (shelves: seq<Shelf>, unplaced: seq<BoardGame>)
    ensures |shelves| == count && ValidShelves(shelves) && fresh(Footprint(shelves))
    ensures Allocation(Views(shelves), unplaced) == Allocate(NewShelves(count, maxLength, maxHeight), SortByFootprint(games))
    ensures TallyShelves(Views(shelves), _ => true) + |unplaced| == |games|
  {
    var sorted := SortByFootprint(games);
    shelves := BuildShelves(count, maxLength, maxHeight);
    shelves, unplaced := AllocateGamesToShelves(sorted, shelves);
    AllocateCountsFromBareShelves(NewShelves(count, maxLength, maxHeight), sorted);
    assert |sorted| == |multiset(sorted)| == |multiset(games)| == |games|;
  }
}
