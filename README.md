# kalmax shelf allocation, in Dafny

kalmax puts a collection of board games on a row of shelves. Each game has a
width and a height. Each shelf has a fixed length and height. Games are piled
into vertical stacks, and a stack's base is the width of the game that opened
it. A game can go on a stack when it is no wider than the base and no taller
than the height the stack has left. A shelf can open a new stack for a game
when the game's width fits in the length the shelf has left. The shelf does
not look at the game's height.

The allocator is a greedy first fit. Games are handled one at a time, in the
order given:

1. Existing stacks are tried first, shelf by shelf and stack by stack.
2. Otherwise the first shelf with room opens a new stack.
3. Otherwise the game is left over.

The caller sorts the games beforehand, widest first and then tallest first,
builds a number of equal shelves, and reports each shelf's and each stack's
utilization.

The project has seven modules:

- **Layout** (`layout.dfy`): the data model as values. A game is a datatype.
  The states of a stack and a shelf are datatypes too. The single-step
  operations (`NewStack`, `CanFit`, `AddGame`, `NewShelf`, `CanStartNewStack`,
  `StartNewStack`) are functions, with the lemmas that say what each one does.
- **Models** (`models.dfy`): the mutable `Stack` and `Shelf` objects. Each
  object exposes its state as a Layout value through `View()`, and every method
  states its new `View()` in terms of the old one. A shelf owns its stacks
  through a ghost `Repr` set.
- **Greedy** (`greedy.dfy`): the allocation as a reference specification.
  - `FirstFit` is the existing-stack pass and `FirstOpenShelf` is the new-stack
    pass.
  - `PlaceGame` handles one game and `Allocate` handles a whole list of games.
- **AllocationProperties** (`properties.dfy`): what a whole run keeps.
  - The shelf bookkeeping and the stack height bound.
  - No game is ever moved or removed.
  - Games are conserved.
  - Left-over games keep their order.
  - What happens to games that are too wide.
- **GameOrder** (`gameorder.dfy`): the sort that main applies, as a stable
  insertion sort, with proofs that it sorts, permutes and is stable.
- **Metrics** (`metrics.dfy`): the two utilization formulas, and proofs that
  they are fractions between 0 and 1.
- **Kalmax** (`kalmax.dfy`): `allocate_games_to_shelves` as imperative code
  over the `Shelf` and `Stack` objects, with the same loops, passes and early
  exits. Each method is proved to leave the shelves in the state that the
  Greedy specification computes. Also here: the shelf construction and the
  allocation part of `main`.

Sizes are `real`. The allocator only compares, adds and subtracts sizes, and
the model does this exactly, so float rounding is not captured (see Left out).

## Model

| member | source | states |
|---|---|---|
| Layout.NewStackIsEmpty | kalmax/models.py:16-19 | A new stack has the given base, the whole shelf height left and no games, and its height left plus the heights of its games equals the shelf height |
| Layout.AddGameAppends | kalmax/models.py:24-26 | Adding a game puts it on top, keeps the earlier games and the base, and lowers the height left by exactly the game's height. When `can_fit` held, the stack stays within the shelf height |
| Layout.AddGameKeepsAccounting | kalmax/models.py:24-26 | Whether or not the game fits, adding it keeps the height left plus the heights of the stacked games equal to the shelf height |
| Layout.CanFitIffAddKeepsInv | kalmax/models.py:21-26 | On a stack whose bookkeeping holds, `can_fit` is true exactly when adding the game keeps every game within the base and the pile within the shelf height (both directions) |
| Models.Stack.constructor | kalmax/models.py:16-19 | The new object's state is the new, empty stack of the given base and shelf height |
| Models.Stack.AddGame | kalmax/models.py:24-26 | The stack's new state is its old state with the game appended and its height lowered, with no check that the game fits |
| Layout.NewShelfIsEmpty | kalmax/models.py:33-37 | A new shelf has its whole length left and no stacks, and keeps the shelf bookkeeping when its length is not negative |
| Models.Shelf.constructor | kalmax/models.py:33-37 | The new object's state is the new, empty shelf of the given size, and it owns only itself |
| Models.Shelf.StartNewStack | kalmax/models.py:42-46 | The stacks already on the shelf stay the same objects in the same order. One fresh stack is appended, and the shelf's state becomes the specification's new-stack state |
| Layout.StartNewStackAppends | kalmax/models.py:42-46 | Starting a stack appends exactly one stack, based on the game's width, holding just that game, with the shelf height less the game's height left. The length left drops by the game's width and the earlier stacks and the capacity are unchanged |
| Layout.StartNewStackKeepsInv | kalmax/models.py:39-46 | When `can_start_new_stack` holds, the length left stays non-negative and the bases still add up to the shelf's length |
| Layout.StartNewStackOverrunsShelf | kalmax/models.py:39-46 | On any shelf, starting a stack without that permission drives the length left below zero |
| Layout.StartNewStackHeight | kalmax/models.py:39-44 | The new stack is within the shelf height exactly when the game is no taller than the shelf; `can_start_new_stack` does not check this |
| Layout.OverTallGameStartsStack | kalmax/models.py:39-44 | A concrete case: a 4-by-12 game is given a stack on an empty 10-by-10 shelf, and that stack's height left is -2 |
| Layout.NewShelves | kalmax/main.py:130 | The row has the configured number of shelves, each a new shelf of the configured size |
| Greedy.FirstStackFrom | kalmax/main.py:40-44 | The index found on one shelf is a stack the game fits on |
| Greedy.FirstStackFromIsFirst | kalmax/main.py:40-44 | The stack scan skips only stacks the game does not fit on, and finds nothing only when no stack from the start index on fits |
| Greedy.FirstSlotFrom | kalmax/main.py:39-46 | The slot found is an existing stack, on the start shelf or a later one, that the game fits on |
| Greedy.FirstSlotFromIsFirst | kalmax/main.py:39-46 | The shelf-by-shelf scan skips only stacks that do not fit, and finds nothing only when nothing from the start shelf on fits |
| Greedy.FirstFit | kalmax/main.py:39-46 | The slot found by the existing-stack pass is a stack the game fits on |
| Greedy.FirstFitScansInOrder | kalmax/main.py:39-46 | The existing-stack pass returns the first fitting stack in shelf-then-stack order, and returns nothing exactly when no stack fits |
| Greedy.FirstFitIsFirst | kalmax/main.py:39-46 | A fitting stack with no fitting stack before it in scan order is the one the pass finds |
| Greedy.FirstOpenShelfFrom | kalmax/main.py:50-54 | The shelf found, from the start index on, can start a stack for the game |
| Greedy.FirstOpenShelfFromIsFirst | kalmax/main.py:50-54 | The shelf scan skips only shelves that cannot start a stack, and finds nothing only when none from the start index on can |
| Greedy.FirstOpenShelf | kalmax/main.py:50-54 | The shelf found by the new-stack pass can start a stack for the game |
| Greedy.FirstOpenShelfScansInOrder | kalmax/main.py:50-54 | The new-stack pass returns the first shelf that can start a stack, and returns nothing exactly when no shelf can |
| Greedy.FirstOpenShelfIsFirst | kalmax/main.py:50-54 | A shelf that can start a stack, with no such shelf before it, is the one the pass finds |
| Greedy.PlaceGameFirstFit | kalmax/main.py:38-46 | The game goes on the first stack it fits on, and the new shelves are exactly the old ones with the game added to that stack: nothing else changes and no stack is added |
| Greedy.PlaceGamePrefersExistingStacks | kalmax/main.py:38-54 | When any existing stack fits, the game is placed and no shelf gains a stack |
| Greedy.PlaceGameNewStack | kalmax/main.py:48-54 | When no stack fits, the first shelf that can start a stack gets one for the game, and every other shelf is unchanged |
| Greedy.PlaceGameLeftOver | kalmax/main.py:48-58 | A game is left over exactly when no stack fits it and no shelf can start one, and then the shelves are unchanged |
| AllocationProperties.PutOnStackKeepsInv | kalmax/main.py:41-42 | Putting a game on a stack it fits on keeps every shelf's and stack's bookkeeping |
| AllocationProperties.PlaceGameKeepsInv | kalmax/main.py:38-54 | Handling one game keeps every shelf's length left non-negative and its bases within its length |
| AllocationProperties.AllocateKeepsInv | kalmax/main.py:35-58 | A whole run keeps that bookkeeping on every shelf |
| AllocationProperties.ExtendsTransitive | kalmax/main.py:35-58 | "Only adds games and stacks" composes across steps, and so does "never frees length or height" |
| AllocationProperties.PlaceGameExtends | kalmax/main.py:38-54 | Handling one game only appends: no game is moved or removed and no stack is removed. With a game of non-negative size, no length or height left grows |
| AllocationProperties.AllocateExtends | kalmax/main.py:35-58 | There is no backtracking over a run: every placed game stays where it was put, and with non-negative sizes the lengths and heights left only go down |
| AllocationProperties.PlaceGameWithinHeight | kalmax/main.py:38-54 | When the game is no taller than any shelf, every stack stays within its shelf height |
| AllocationProperties.AllocateWithinHeight | kalmax/main.py:35-58 | Over a run of games none taller than any shelf, every stack stays within its shelf height |
| AllocationProperties.PutOnStackConserves | kalmax/main.py:41-42 | Putting a game on a stack adds exactly that game to the shelves' contents |
| AllocationProperties.StartNewStackConserves | kalmax/main.py:51-52 | Starting a stack adds exactly that game to the shelves' contents |
| AllocationProperties.PlaceGameConserves | kalmax/main.py:38-58 | Handling a game adds exactly it to the shelves when it is placed, and adds nothing otherwise |
| AllocationProperties.AllocateConserves | kalmax/main.py:33-60 | For any property of games: the placed games with it plus the left-over games with it equal those already on the shelves plus those handed in. No game is lost or duplicated |
| AllocationProperties.BareShelvesHoldNothing | kalmax/main.py:130 | Shelves without stacks hold no games |
| AllocationProperties.TallyCopies | kalmax/main.py:33-60 | Counting the copies of a game in a list gives its multiplicity |
| AllocationProperties.AllocateFromBareShelves | kalmax/main.py:33-60 | From empty shelves, every copy of every game handed in ends up either on a stack or in the left-over list, never both and never lost |
| AllocationProperties.AllocateCountsFromBareShelves | kalmax/main.py:33-60 | From empty shelves, the games placed plus the games left over number exactly the games handed in |
| AllocationProperties.AllTallied | kalmax/main.py:33-60 | Counting with an always-true property counts every game |
| AllocationProperties.UnplacedInInputOrder | kalmax/main.py:56-58 | The games left over are a subsequence of the input, in input order |
| AllocationProperties.NoShelfTakesGame | kalmax/main.py:38-58 | With no shelves, neither pass finds a place, so the game is left over and nothing changes |
| AllocationProperties.AllocateWithoutShelves | kalmax/main.py:32-60 | With no shelves, every game is left over in the order given, and the run ends normally |
| AllocationProperties.BaseWithinSumWidths | kalmax/models.py:42-46 | With non-negative bases, their total is non-negative and each base is at most the total |
| AllocationProperties.TooWideNeverPlaced | kalmax/main.py:38-58 | A game wider than every shelf fits on no stack, can start none and is left over |
| AllocationProperties.PlaceGameKeepsBases | kalmax/main.py:38-54 | Handling a game of non-negative width keeps every base non-negative |
| AllocationProperties.AllocateKeepsBases | kalmax/main.py:35-58 | Over a run of games of non-negative width, every base stays non-negative |
| AllocationProperties.PlaceGameKeepsAllStacked | kalmax/main.py:38-54 | If every stacked game has some property and so does the new game, every stacked game still has it afterwards |
| AllocationProperties.AllocateKeepsAllStacked | kalmax/main.py:35-58 | Over a run, the property holds for every stacked game when it held for the games already there and for every game handed in |
| AllocationProperties.TooWideAlwaysUnplaced | kalmax/main.py:33-60 | Every copy of a game wider than every shelf is left over, whatever the order of the games |
| GameOrder.KeyOrderIsTotalPreorder | kalmax/main.py:124 | The (width, height) order is total and transitive, and two games tie exactly when both sizes are equal |
| GameOrder.InsertAddsGame | kalmax/main.py:124 | Inserting adds exactly the one game |
| GameOrder.InsertKeepsSorted | kalmax/main.py:124 | Inserting into a sorted list keeps it sorted |
| GameOrder.SortByFootprint | kalmax/main.py:124 | The sorted list is ordered widest first and then tallest first, and it is a permutation of the input |
| GameOrder.InsertKeepsTies | kalmax/main.py:124 | Inserting a game before the first game whose key is not greater keeps tied games in order |
| GameOrder.SortIsStable | kalmax/main.py:124 | Games with the same width and height keep their input order |
| Metrics.ShelfUtilization | kalmax/main.py:138 | The result is absent exactly when the shelf length is zero. Otherwise, multiplied by the length, it gives the length taken |
| Metrics.ShelfUtilizationIsBaseShare | kalmax/main.py:138 | On a shelf whose bookkeeping holds, utilization is the total base width over the length |
| Metrics.ShelfUtilizationIsFraction | kalmax/main.py:138 | With a positive length and non-negative bases, it lies between 0 and 1 |
| Metrics.StackUtilization | kalmax/main.py:142 | The result is absent exactly when the shelf height is zero. Otherwise, multiplied by the height, it gives the height taken |
| Metrics.SumHeightsNonNegative | kalmax/main.py:142 | Games of non-negative height have a non-negative total height |
| Metrics.StackUtilizationIsHeightShare | kalmax/main.py:142 | On a stack whose bookkeeping holds, utilization is the total height of its games over the shelf height |
| Metrics.StackUtilizationIsFraction | kalmax/main.py:142 | It is at most 1 exactly when the stack is within the shelf height, and at least 0 when game heights are non-negative |
| Metrics.ReportedUtilizationsAreFractions | kalmax/main.py:130-143 | After a run on new shelves of positive size, with games of non-negative size no taller than a shelf, every shelf and stack utilization that main reports is defined and between 0 and 1 |
| Kalmax.AddGameAt | kalmax/main.py:41-42 | Adding to one stack of one shelf changes that stack as the specification says, and no other shelf or stack |
| Kalmax.PlaceOnShelf | kalmax/main.py:40-44 | The inner loop over one shelf's stacks puts the game on the first stack it fits on, and reports whether it found one |
| Kalmax.PlaceOnExistingStack | kalmax/main.py:38-46 | The existing-stack pass places the game exactly when the specification's first fit finds a stack. The new state is the game put on that stack, and nothing changes otherwise |
| Kalmax.StartNewStackAt | kalmax/main.py:51-52 | Starting a stack on shelf i changes that shelf's state as the specification says. The shelves stay valid, and only the new stack is newly owned |
| Kalmax.StartStackOnFirstShelf | kalmax/main.py:48-54 | The new-stack pass starts a stack on the first shelf that can, and places the game exactly when such a shelf exists. After a failed existing-stack pass, it agrees with the specification's handling of the game |
| Kalmax.PlaceOneGame | kalmax/main.py:36-58 | One iteration of the loop leaves the shelves in the state, and the placed flag at the value, that the specification computes |
| Kalmax.AllocateGamesToShelves | kalmax/main.py:32-60 | The shelves are changed in place and returned. Their final state and the left-over list are exactly the specification's allocation of the games, in order |
| Kalmax.AppendNewShelf | kalmax/main.py:130 | One fresh, empty shelf of the given size is appended, and the earlier shelves are untouched |
| Kalmax.BuildShelves | kalmax/main.py:130 | `count` fresh shelves, each empty and of the configured size, sharing no object |
| Kalmax.Organize | kalmax/main.py:118-133 | main's allocation: the result is the specification's allocation of the sorted games on new shelves, and the placed games plus the left-over games number exactly the games read |

## Left out

- Reading the games from a spreadsheet (kalmax/main.py:15-26) is left out. The model takes the list of games as a parameter.
- Drawing the shelves with matplotlib (kalmax/main.py:65-112) is left out. It only reads the final state.
- Printing the metrics, the placements and the left-over list (kalmax/main.py:136-158) is left out, along with the `__repr__` methods. Only the utilization formulas are modelled.
- The configured number of shelves and their size (kalmax/main.py:127-129) are parameters, not constants.
- Email sending (misc/send_email.py) is not part of this model. It is unrelated to allocation.
- Floating point is left out. Sizes are exact reals, so the model does not capture float rounding in the subtractions and comparisons or the percentage rounding when printing.
- Metrics.ShelfUtilization and Metrics.StackUtilization return None where Python would raise ZeroDivisionError on a zero size.
- Games are not checked for positive sizes, and neither is the code being modelled. Results that need non-negative sizes assume them.
- BoardGame.name is carried along but plays no part in any decision. Games with equal fields are equal values, where Python compares objects by identity.
- GameOrder.SortByFootprint models `list.sort` (a stable sort done in place) as a pure stable insertion sort on a sequence. The model says what the sorted order is, not how Python's sort reaches it.
- `can_start_new_stack` does not check the game's height (kalmax/models.py:39-40). The model keeps this as written. A game taller than the shelf gets a stack whose height left is negative (Layout.StartNewStackHeight, Layout.OverTallGameStartsStack). The stack height bound is therefore proved only for games no taller than the shelves.
- Kalmax.AllocateGamesToShelves and the other Kalmax methods require the shelves to be distinct objects that share no stack (`ValidShelves`). The model does not cover a list that names the same shelf twice or puts one stack on two shelves, which `allocate_games_to_shelves` (kalmax/main.py:32) would accept. Its only caller builds distinct shelves (kalmax/main.py:130).
- The code does not keep a stack within the shelf height (kalmax/models.py:39-40), and it does not guard the divisions at kalmax/main.py:138 and 142 against a zero size. The model keeps both.
