/** The order in which kalmax/main.py hands games to the allocator: by width,
    widest first, and among games of the same width by height, tallest first.
    The sort used there is stable, so games with the same width and height stay
    in the order they were read. */
module GameOrder {
  import opened Layout

  /** The sort key (width, height) of `a` is at least that of `b`, compared
      lexicographically. */
  predicate KeyAtLeast(a: BoardGame, b: BoardGame)
  {
    a.width > b.width || (a.width == b.width && a.height >= b.height)
  }

  /** `a` and `b` have the same sort key. */
  predicate SameKey(a: BoardGame, b: BoardGame)
  {
    a.width == b.width && a.height == b.height
  }

  /** Widest first, and tallest first among games of the same width. */
  predicate SortedByFootprint(s: seq<BoardGame>)
  {
    forall i, j :: 0 <= i < j < |s| ==> KeyAtLeast(s[i], s[j])
  }

  /** The key order is total and transitive, and two games are each at least
      the other exactly when they have the same key. */
  lemma KeyOrderIsTotalPreorder(a: BoardGame, b: BoardGame, c: BoardGame)
    ensures KeyAtLeast(a, b) || KeyAtLeast(b, a)
    ensures KeyAtLeast(a, b) && KeyAtLeast(b, c) ==> KeyAtLeast(a, c)
    ensures KeyAtLeast(a, b) && KeyAtLeast(b, a) <==> SameKey(a, b)
  {
  }

  /** Insert a game into a list before the first game whose key is not greater
      than its own. */
  function Insert(g: BoardGame, s: seq<BoardGame>): seq<BoardGame>
  {
    if s == [] then [g]
    else if KeyAtLeast(g, s[0]) then [g] + s
    else [s[0]] + Insert(g, s[1..])
  }

  /** Inserting adds exactly the one game. */
  lemma {:induction false} InsertAddsGame(g: BoardGame, s: seq<BoardGame>)
    ensures multiset(Insert(g, s)) == multiset(s) + multiset{g}
  {
    if s != [] && !KeyAtLeast(g, s[0]) {
      InsertAddsGame(g, s[1..]);
      assert s == [s[0]] + s[1..];
      var a, b := multiset(s[1..]), multiset(Insert(g, s[1..]));
      assert multiset(Insert(g, s)) == multiset{s[0]} + b;
      assert forall y :: (multiset{s[0]} + b)[y] == (multiset(s) + multiset{g})[y];
    }
  }

  /** Inserting into a sorted list keeps it sorted. */
  lemma {:induction false} InsertKeepsSorted(g: BoardGame, s: seq<BoardGame>)
    requires SortedByFootprint(s)
    ensures SortedByFootprint(Insert(g, s))
  {
    if s != [] && !KeyAtLeast(g, s[0]) {
      InsertKeepsSorted(g, s[1..]);
      InsertAddsGame(g, s[1..]);
      var rest := Insert(g, s[1..]);
      forall j | 0 <= j < |rest| ensures KeyAtLeast(s[0], rest[j]) {
        assert rest[j] in multiset(rest);
        if rest[j] != g {
          assert rest[j] in multiset(s[1..]);
          var m :| 0 <= m < |s[1..]| && s[1..][m] == rest[j];
          assert s[m + 1] == rest[j];
        }
      }
      assert Insert(g, s) == [s[0]] + rest;
    }
  }

  /** The games in the order the allocator receives them: sorted by key,
      widest first, and a rearrangement of the games given. */
  function SortByFootprint(games: seq<BoardGame>): (r: seq<BoardGame>)
    ensures SortedByFootprint(r)
    ensures multiset(r) == multiset(games)
  {
    if games == [] then []
    else
      var rest := SortByFootprint(games[1..]);
      InsertKeepsSorted(games[0], rest);
      InsertAddsGame(games[0], rest);
      assert games == [games[0]] + games[1..];
      Insert(games[0], rest)
  }

  /** The games that have the same key as `x`, in their order in `s`. */
  function WithKeyOf(s: seq<BoardGame>, x: BoardGame): seq<BoardGame>
  {
    if s == [] then []
    else (if SameKey(s[0], x) then [s[0]] else []) + WithKeyOf(s[1..], x)
  }

  lemma {:induction false} InsertKeepsTies(g: BoardGame, s: seq<BoardGame>, x: BoardGame)
    ensures WithKeyOf(Insert(g, s), x) == (if SameKey(g, x) then [g] else []) + WithKeyOf(s, x)
  {
    if s != [] && !KeyAtLeast(g, s[0]) {
      InsertKeepsTies(g, s[1..], x);
      var r := Insert(g, s);
      assert r[1..] == Insert(g, s[1..]);
    } else if s != [] {
      assert ([g] + s)[1..] == s;
    }
  }

  /** The sort is stable: games with the same key keep their input order. */
  lemma {:induction false} SortIsStable(games: seq<BoardGame>, x: BoardGame)
    ensures WithKeyOf(SortByFootprint(games), x) == WithKeyOf(games, x)
  {
    if games != [] {
      SortIsStable(games[1..], x);
      InsertKeepsTies(games[0], SortByFootprint(games[1..]), x);
    }
  }
}
