/** The mutable stacks and shelves of kalmax/models.py. Each object shows its
    state as a Layout value through View(), and every method that changes an
    object says what the new View() is in terms of the old one. */
module Models {
  import opened Layout

  /** A vertical pile of games on a fixed base. */
  class Stack {
    const baseWidth: real
    var remainingHeight: real
    var games: seq<BoardGame>

    function View(): StackState
      reads this
    {
      StackState(baseWidth, remainingHeight, games)
    }

    /** A new stack on the given base, with the whole shelf height free and no games. */
    constructor (baseWidth: real, maxHeight: real)
      ensures View() == NewStack(baseWidth, maxHeight)
    {
      this.baseWidth := baseWidth;
      remainingHeight := maxHeight;
      games := [];
    }

    /** Whether the game fits on this stack; reads the stack and changes nothing. */
    predicate CanFit(game: BoardGame)
      reads this
    {
      Layout.CanFit(View(), game)
    }

    /** Put the game on top, whether or not it fits. */
    method AddGame(game: BoardGame)
      modifies this
      ensures View() == Layout.AddGame(old(View()), game)
    {
      games := games + [game];
      remainingHeight := remainingHeight - game.height;
    }
  }

  /** A shelf of fixed capacity holding a row of stacks. */
  class Shelf {
    const maxLength: real
    const maxHeight: real
    var remainingLength: real
    var stacks: seq<Stack>
    /** This shelf and the stacks it owns. */
    ghost var Repr: set<object>

    /** The shelf owns its stacks, and holds no stack twice. */
    ghost predicate Valid()
      reads this
    {
      && this in Repr
      && (forall k :: 0 <= k < |stacks| ==> stacks[k] in Repr)
      && (forall k, l :: 0 <= k < l < |stacks| ==> stacks[k] != stacks[l])
    }

    function View(): ShelfState
      reads this, stacks
    {
      ShelfState(maxLength, maxHeight, remainingLength, StackViews(stacks))
    }

    /** A new shelf of the given capacity, with its whole length free and no stacks. */
    constructor (maxLength: real, maxHeight: real)
      ensures Valid() && fresh(Repr) && Repr == {this}
      ensures View() == NewShelf(maxLength, maxHeight)
    {
      this.maxLength := maxLength;
      this.maxHeight := maxHeight;
      remainingLength := maxLength;
      stacks := [];
      Repr := {this};
    }

    /** Whether the game's width fits in the length left; the game's height is
        not looked at. */
    predicate CanStartNewStack(game: BoardGame)
      reads this, stacks
    {
      Layout.CanStartNewStack(View(), game)
    }

    /** Open a new stack for the game at the right end of the shelf, whether or
        not there is room. The stacks already on the shelf are the same objects
        in the same order, and nothing but this shelf and the new stack changes. */
    method StartNewStack(game: BoardGame)
      requires Valid()
      modifies this
      ensures |stacks| == |old(stacks)| + 1 && stacks[..|old(stacks)|] == old(stacks)
      ensures Valid() && Repr == old(Repr) + {stacks[|stacks| - 1]} && fresh(stacks[|stacks| - 1])
      ensures View() == Layout.StartNewStack(old(View()), game)
    {
      var stack := new Stack(game.width, maxHeight);
      stack.AddGame(game);
      stacks := stacks + [stack];
      remainingLength := remainingLength - game.width;
      Repr := Repr + {stack};
    }
  }

  /** The views of a row of stacks, in order. */
  function StackViews(stacks: seq<Stack>): (r: seq<StackState>)
    reads stacks
    ensures |r| == |stacks| && forall k {:trigger r[k]} :: 0 <= k < |stacks| ==> r[k] == stacks[k].View()
  {
    if stacks == [] then [] else StackViews(stacks[..|stacks| - 1]) + [stacks[|stacks| - 1].View()]
  }

  /** Every object owned by one of the shelves. */
  ghost function Footprint(shelves: seq<Shelf>): set<object>
    reads shelves
  {
    set i, o | 0 <= i < |shelves| && o in shelves[i].Repr :: o
  }

  /** Each shelf is valid and no two shelves share an object, so no stack is on
      two shelves and no shelf is listed twice. */
  ghost predicate ValidShelves(shelves: seq<Shelf>)
    reads shelves
  {
    && (forall i :: 0 <= i < |shelves| ==> shelves[i].Valid())
    && (forall i, j :: 0 <= i < j < |shelves| ==> shelves[i].Repr !! shelves[j].Repr)
  }

  /** Every stack on one of the shelves. */
  ghost function StacksOf(shelves: seq<Shelf>): (r: set<Stack>)
    reads shelves
    ensures forall i, k :: 0 <= i < |shelves| && 0 <= k < |shelves[i].stacks| ==> shelves[i].stacks[k] in r
  {
    set i, k | 0 <= i < |shelves| && 0 <= k < |shelves[i].stacks| :: shelves[i].stacks[k]
  }

  /** The views of the shelves, in order. */
  ghost function Views(shelves: seq<Shelf>): (r: seq<ShelfState>)
    reads shelves, StacksOf(shelves)
    ensures |r| == |shelves| && forall i {:trigger r[i]} :: 0 <= i < |shelves| ==> r[i] == shelves[i].View()
  {
    if shelves == [] then [] else Views(shelves[..|shelves| - 1]) + [shelves[|shelves| - 1].View()]
  }
}
