/**
 * The resumable round robin of tournament_manager.py (`ResumableTournament`):
 * the schedule of ordered model pairs times game numbers, the pending
 * units (the schedule minus the units whose id was recorded as completed),
 * running a chunk of pending games, and the standings tally.
 */
module Tournament {
  import opened Wrappers
  import opened Text
  import opened Sorting
  import Elo

  // ---------------------------------------------------------------------
  // Matchup ids

  /**
   * `f"{model1}_vs_{model2}_game{game_num}"`: the id opens with the first
   * model and "_vs_", and the game number reads back from the digits after
   * the last "_game".
   */
  function MatchupId(model1: string, model2: string, gameNum: nat): (id: string)
    ensures model1 + "_vs_" <= id
    ensures var d := NatToString(gameNum);
      |id| >= |d| + 5 && id[|id| - |d| - 5..] == "_game" + d
  {
    model1 + "_vs_" + model2 + "_game" + NatToString(gameNum)
  }

  predicate NoUnderscore(s: string) {
    forall i :: 0 <= i < |s| ==> s[i] != '_'
  }

  /** In `p + "_game" + d` with no '_' in `d`, no '_' stands after the separator's. */
  lemma UnderscoreAfterPrefix(p: string, d: string, i: int)
    requires NoUnderscore(d)
    requires |p| <= i < |p| + 5 + |d|
    ensures (p + "_game" + d)[i] == '_' ==> i == |p|
  {
    var s := p + "_game" + d;
    if i > |p| {
      if i < |p| + 5 {
        assert s[i] == "_game"[i - |p|];
      } else {
        assert s[i] == d[i - |p| - 5];
      }
    }
  }

  /** `p + "_game" + d` splits in one way only when `d` has no '_'. */
  lemma SplitAtGame(p1: string, d1: string, p2: string, d2: string)
    requires NoUnderscore(d1) && NoUnderscore(d2)
    requires p1 + "_game" + d1 == p2 + "_game" + d2
    ensures p1 == p2 && d1 == d2
  {
    var s := p1 + "_game" + d1;
    assert s[|p1|] == '_';
    assert s[|p2|] == (p2 + "_game" + d2)[|p2|] == '_';
    if |p1| <= |p2| {
      UnderscoreAfterPrefix(p1, d1, |p2|);
    }
    if |p2| <= |p1| {
      UnderscoreAfterPrefix(p2, d2, |p1|);
    }
    assert p1 == s[..|p1|] == p2;
    assert d1 == s[|p1| + 5..] == d2;
  }

  /** "_vs_" cannot start one or two places before the separator it overlaps. */
  lemma NoShortOverlap(a: string, b: string, i: int)
    ensures |a| - 3 < i < |a| ==> !OccursAt(a + "_vs_" + b, "_vs_", i)
  {
    var s := a + "_vs_" + b;
    if 0 <= i && |a| - 3 < i < |a| {
      assert s[|a|] == '_';
      assert |s| >= i + 4;
      assert s[i..i + 4][|a| - i] == s[|a|];
    }
  }

  /** An occurrence of "_vs_" that starts inside `a` puts "_vs" inside `a`. */
  lemma VsInside(a: string, b: string, i: int)
    ensures 0 <= i < |a| && OccursAt(a + "_vs_" + b, "_vs_", i) ==> Contains(a, "_vs")
  {
    var s := a + "_vs_" + b;
    if 0 <= i && i + 3 <= |a| && OccursAt(s, "_vs_", i) {
      assert s[i..i + 3] == a[i..i + 3];
      assert s[i..i + 3] == s[i..i + 4][..3] == "_vs";
      assert OccursAt(a, "_vs", i);
    }
    NoShortOverlap(a, b, i);
  }

  /** `a + "_vs_" + b` splits in one way only when neither `a` contains "_vs". */
  lemma SplitAtVs(a1: string, b1: string, a2: string, b2: string)
    requires !Contains(a1, "_vs") && !Contains(a2, "_vs")
    requires a1 + "_vs_" + b1 == a2 + "_vs_" + b2
    ensures a1 == a2 && b1 == b2
  {
    var s := a1 + "_vs_" + b1;
    assert OccursAt(s, "_vs_", |a1|);
    assert s[|a2|..|a2| + 4] == (a2 + "_vs_" + b2)[|a2|..|a2| + 4] == "_vs_";
    assert OccursAt(s, "_vs_", |a2|);
    VsInside(a1, b1, |a2|);
    VsInside(a2, b2, |a1|);
    assert a1 == s[..|a1|] == a2;
    assert b1 == s[|a1| + 4..] == b2;
  }

  /**
   * Two units get the same id only when they are the same unit, provided
   * no first model name contains "_vs" (second names are unrestricted).
   */
  lemma MatchupIdInjective(m1: string, m2: string, n: nat, k1: string, k2: string, k: nat)
    requires !Contains(m1, "_vs") && !Contains(k1, "_vs")
    requires MatchupId(m1, m2, n) == MatchupId(k1, k2, k)
    ensures m1 == k1 && m2 == k2 && n == k
  {
    var d, e := NatToString(n), NatToString(k);
    assert NoUnderscore(d) && NoUnderscore(e);
    SplitAtGame(m1 + "_vs_" + m2, d, k1 + "_vs_" + k2, e);
    SplitAtVs(m1, m2, k1, k2);
    NatToStringInjective(n, k);
  }

  /**
   * Excluding "_vs_" and "_game" from names is not enough: these two
   * different units, whose names contain neither, share an id.
   */
  lemma MatchupIdCollision()
    ensures !Contains("_vs", "_vs_") && !Contains("y", "_vs_") && !Contains("", "_vs_") && !Contains("vs_y", "_vs_")
    ensures !Contains("_vs", "_game") && !Contains("y", "_game") && !Contains("", "_game") && !Contains("vs_y", "_game")
    ensures MatchupId("_vs", "y", 0) == MatchupId("", "vs_y", 0)
  {
    assert NatToString(0) == "0";
    assert "vs_y"[0..4] == "vs_y" && "vs_y"[0] != "_vs_"[0];
  }

  // ---------------------------------------------------------------------
  // The schedule

  /** A unit of the schedule by indices: (first model, second model, game number). */
  type Cell = (nat, nat, nat)

  /** Games 0 .. games-1 of the ordered pair (i, j): the innermost loop. */
  function GameSpan(i: nat, j: nat, games: nat): seq<Cell> {
    if games == 0 then [] else GameSpan(i, j, games - 1) + [(i, j, games - 1)]
  }

  /** Row `i` for second models 0 .. upTo-1, skipping `i` itself: the middle loop. */
  function Opponents(games: nat, i: nat, upTo: nat): seq<Cell> {
    if upTo == 0 then []
    else Opponents(games, i, upTo - 1) + (if i == upTo - 1 then [] else GameSpan(i, upTo - 1, games))
  }

  /** The first `rows` rows: the outer loop. */
  function CellRows(n: nat, games: nat, rows: nat): seq<Cell> {
    if rows == 0 then [] else CellRows(n, games, rows - 1) + Opponents(games, rows - 1, n)
  }

  /** The whole schedule over `n` models, in generation order. */
  function Schedule(n: nat, games: nat): seq<Cell> {
    CellRows(n, games, n)
  }

  /** The cells the schedule is made of: two different models and a game number in range. */
  predicate ScheduledCell(c: Cell, n: nat, games: nat) {
    c.0 < n && c.1 < n && c.0 != c.1 && c.2 < games
  }

  predicate CellLess(a: Cell, b: Cell) {
    a.0 < b.0 || (a.0 == b.0 && (a.1 < b.1 || (a.1 == b.1 && a.2 < b.2)))
  }

  predicate Increasing(cs: seq<Cell>) {
    forall k, l :: 0 <= k < l < |cs| ==> CellLess(cs[k], cs[l])
  }

  lemma IncreasingConcat(a: seq<Cell>, b: seq<Cell>)
    requires Increasing(a) && Increasing(b)
    requires forall x, y :: x in a && y in b ==> CellLess(x, y)
    ensures Increasing(a + b)
  {
    forall k, l | 0 <= k < l < |a + b|
      ensures CellLess((a + b)[k], (a + b)[l])
    {
      if l < |a| {
        assert (a + b)[k] == a[k] && (a + b)[l] == a[l];
      } else if k < |a| {
        assert (a + b)[k] == a[k] && (a + b)[l] == b[l - |a|];
        assert a[k] in a && b[l - |a|] in b;
      } else {
        assert (a + b)[k] == b[k - |a|] && (a + b)[l] == b[l - |a|];
      }
    }
  }

  lemma {:induction false} GameSpanShape(i: nat, j: nat, games: nat)
    ensures |GameSpan(i, j, games)| == games
    ensures forall k :: 0 <= k < games ==> GameSpan(i, j, games)[k] == (i, j, k)
    ensures Increasing(GameSpan(i, j, games))
  {
    if games > 0 {
      GameSpanShape(i, j, games - 1);
    }
  }

  lemma MulStep(a: nat, b: nat)
    ensures (a + 1) * b == a * b + b
  {
  }

  lemma {:induction false} GameSpanMembers(i: nat, j: nat, games: nat)
    ensures forall c :: c in GameSpan(i, j, games) ==> c.0 == i && c.1 == j && c.2 < games
  {
    if games > 0 {
      GameSpanMembers(i, j, games - 1);
    }
  }

  lemma {:induction false} OpponentsLength(games: nat, i: nat, upTo: nat)
    ensures |Opponents(games, i, upTo)| == (if i < upTo then upTo - 1 else upTo) * games
  {
    if upTo > 0 {
      var j := upTo - 1;
      OpponentsLength(games, i, j);
      if i != j {
        GameSpanShape(i, j, games);
        if i < j {
          MulStep(j - 1, games);
        } else {
          MulStep(j, games);
        }
      }
    }
  }

  lemma {:induction false} OpponentsMembers(games: nat, i: nat, upTo: nat)
    ensures forall c :: c in Opponents(games, i, upTo) ==> c.0 == i && c.1 < upTo && c.1 != i && c.2 < games
  {
    if upTo > 0 {
      var j := upTo - 1;
      OpponentsMembers(games, i, j);
      if i != j {
        GameSpanMembers(i, j, games);
      }
    }
  }

  lemma {:induction false} OpponentsComplete(games: nat, i: nat, upTo: nat)
    ensures forall j: nat, k: nat :: j < upTo && j != i && k < games ==> (i, j, k) in Opponents(games, i, upTo)
  {
    if upTo > 0 {
      var j := upTo - 1;
      OpponentsComplete(games, i, j);
      var prev := Opponents(games, i, j);
      if i != j {
        var span := GameSpan(i, j, games);
        GameSpanShape(i, j, games);
        forall j': nat, k: nat | j' < upTo && j' != i && k < games
          ensures (i, j', k) in prev + span
        {
          if j' == j {
            assert span[k] == (i, j, k);
          } else {
            assert (i, j', k) in prev;
          }
        }
        assert Opponents(games, i, upTo) == prev + span;
      }
    }
  }

  lemma {:induction false} OpponentsIncreasing(games: nat, i: nat, upTo: nat)
    ensures Increasing(Opponents(games, i, upTo))
  {
    if upTo > 0 {
      var j := upTo - 1;
      OpponentsIncreasing(games, i, j);
      if i != j {
        OpponentsMembers(games, i, j);
        GameSpanMembers(i, j, games);
        GameSpanShape(i, j, games);
        IncreasingConcat(Opponents(games, i, j), GameSpan(i, j, games));
      }
    }
  }

  lemma {:induction false} CellRowsLength(n: nat, games: nat, rows: nat)
    requires rows <= n
    ensures |CellRows(n, games, rows)| == rows * ((n - 1) * games)
  {
    if rows > 0 {
      var i := rows - 1;
      CellRowsLength(n, games, i);
      OpponentsLength(games, i, n);
      assert rows * ((n - 1) * games) == i * ((n - 1) * games) + (n - 1) * games;
    }
  }

  lemma {:induction false} CellRowsMembers(n: nat, games: nat, rows: nat)
    requires rows <= n
    ensures forall c :: c in CellRows(n, games, rows) ==> c.0 < rows && ScheduledCell(c, n, games)
  {
    if rows > 0 {
      CellRowsMembers(n, games, rows - 1);
      OpponentsMembers(games, rows - 1, n);
    }
  }

  lemma {:induction false} CellRowsComplete(n: nat, games: nat, rows: nat)
    requires rows <= n
    ensures forall c: Cell :: ScheduledCell(c, n, games) && c.0 < rows ==> c in CellRows(n, games, rows)
  {
    if rows > 0 {
      var i := rows - 1;
      CellRowsComplete(n, games, i);
      OpponentsComplete(games, i, n);
      var prev, row := CellRows(n, games, i), Opponents(games, i, n);
      forall c: Cell | ScheduledCell(c, n, games) && c.0 < rows
        ensures c in prev + row
      {
        if c.0 == i {
          var j: nat, k: nat := c.1, c.2;
          assert j < n && j != i && k < games;
          assert (i, j, k) in row;
          assert c == (i, j, k);
        } else {
          assert c in prev;
        }
      }
    }
  }

  lemma {:induction false} CellRowsIncreasing(n: nat, games: nat, rows: nat)
    requires rows <= n
    ensures Increasing(CellRows(n, games, rows))
  {
    if rows > 0 {
      var i := rows - 1;
      var prev, row := CellRows(n, games, i), Opponents(games, i, n);
      CellRowsIncreasing(n, games, i);
      OpponentsIncreasing(games, i, n);
      RowsBeforeRow(n, games, i);
      IncreasingConcat(prev, row);
      assert CellRows(n, games, rows) == prev + row;
    }
  }

  /** Every cell of the earlier rows comes before every cell of row `i`. */
  lemma RowsBeforeRow(n: nat, games: nat, i: nat)
    requires i < n
    ensures forall x, y :: x in CellRows(n, games, i) && y in Opponents(games, i, n) ==> CellLess(x, y)
  {
    CellRowsMembers(n, games, i);
    OpponentsMembers(games, i, n);
  }

  /**
   * `generate_all_matchups` by indices: n(n-1) ordered pairs of different
   * models, each with the game numbers 0 .. games-1, every such cell once,
   * in nested-loop order.
   */
  lemma ScheduleShape(n: nat, games: nat)
    ensures |Schedule(n, games)| == n * (n - 1) * games
    ensures forall c: Cell :: c in Schedule(n, games) <==> ScheduledCell(c, n, games)
    ensures Increasing(Schedule(n, games))
  {
    CellRowsLength(n, games, n);
    CellRowsMembers(n, games, n);
    CellRowsComplete(n, games, n);
    CellRowsIncreasing(n, games, n);
    assert n * ((n - 1) * games) == n * (n - 1) * games;
  }

  /** A scheduled unit by model names. */
  datatype Unit = Unit(model1: string, model2: string, gameNum: nat)

  function UnitId(u: Unit): string {
    MatchupId(u.model1, u.model2, u.gameNum)
  }

  predicate CellsBelow(cs: seq<Cell>, n: nat) {
    forall c :: c in cs ==> c.0 < n && c.1 < n
  }

  /** The units the cells name (a cell naming no model names no unit). */
  function UnitsOf(models: seq<string>, cs: seq<Cell>): seq<Unit> {
    if cs == [] then []
    else
      var c := cs[|cs| - 1];
      UnitsOf(models, cs[..|cs| - 1]) + (if c.0 < |models| && c.1 < |models| then [Unit(models[c.0], models[c.1], c.2)] else [])
  }

  lemma UnitsOfSnoc(models: seq<string>, cs: seq<Cell>, c: Cell)
    requires c.0 < |models| && c.1 < |models|
    ensures UnitsOf(models, cs + [c]) == UnitsOf(models, cs) + [Unit(models[c.0], models[c.1], c.2)]
  {
    assert (cs + [c])[..|cs|] == cs;
  }

  lemma {:induction false} UnitsOfIndex(models: seq<string>, cs: seq<Cell>)
    requires CellsBelow(cs, |models|)
    ensures |UnitsOf(models, cs)| == |cs|
    ensures forall k :: 0 <= k < |cs| ==> cs[k] in cs && UnitsOf(models, cs)[k] == Unit(models[cs[k].0], models[cs[k].1], cs[k].2)
  {
    if cs != [] {
      assert cs[|cs| - 1] in cs;
      UnitsOfIndex(models, cs[..|cs| - 1]);
    }
  }

  /** Python's `range(n)` is empty for a negative `n`. */
  function RangeLength(n: int): nat {
    if n < 0 then 0 else n
  }

  /** The units of `generate_all_matchups` for `models` and `games_per_matchup`. */
  function AllUnits(models: seq<string>, gamesPerMatchup: int): seq<Unit> {
    UnitsOf(models, Schedule(|models|, RangeLength(gamesPerMatchup)))
  }

  /**
   * `generate_all_matchups` yields n*(n-1)*g units: every ordered pair of
   * different positions with every game number below g, in loop order.
   */
  lemma AllUnitsShape(models: seq<string>, gamesPerMatchup: int)
    ensures var n, g := |models|, RangeLength(gamesPerMatchup);
      var units := AllUnits(models, gamesPerMatchup);
      |units| == n * (n - 1) * g && |Schedule(n, g)| == |units| &&
      forall k :: 0 <= k < |units| ==>
        var c := Schedule(n, g)[k];
        ScheduledCell(c, n, g) && units[k] == Unit(models[c.0], models[c.1], c.2)
  {
    var n, g := |models|, RangeLength(gamesPerMatchup);
    ScheduleShape(n, g);
    CellRowsMembers(n, g, n);
    UnitsOfIndex(models, Schedule(n, g));
  }

  /** Every ordered pair of different positions and game number below g is scheduled. */
  lemma AllUnitsComplete(models: seq<string>, gamesPerMatchup: int, i: nat, j: nat, k: nat)
    requires i < |models| && j < |models| && i != j && k < RangeLength(gamesPerMatchup)
    ensures Unit(models[i], models[j], k) in AllUnits(models, gamesPerMatchup)
  {
    var n, g := |models|, RangeLength(gamesPerMatchup);
    ScheduleShape(n, g);
    AllUnitsShape(models, gamesPerMatchup);
    var c: Cell := (i, j, k);
    assert ScheduledCell(c, n, g);
    var p :| 0 <= p < |Schedule(n, g)| && Schedule(n, g)[p] == c;
    assert AllUnits(models, gamesPerMatchup)[p] == Unit(models[i], models[j], k);
  }

  /** The units' ids are pairwise different when the model names are. */
  lemma ScheduleIdsDistinct(models: seq<string>, gamesPerMatchup: int)
    requires Elo.Distinct(models)
    requires forall m :: m in models ==> !Contains(m, "_vs")
    ensures var units := AllUnits(models, gamesPerMatchup);
      forall k, l :: 0 <= k < l < |units| ==> UnitId(units[k]) != UnitId(units[l])
  {
    var n, g := |models|, RangeLength(gamesPerMatchup);
    ScheduleShape(n, g);
    AllUnitsShape(models, gamesPerMatchup);
    var cells := Schedule(n, g);
    var units := AllUnits(models, gamesPerMatchup);
    forall k, l | 0 <= k < l < |units|
      ensures UnitId(units[k]) != UnitId(units[l])
    {
      var a, b := cells[k], cells[l];
      assert CellLess(a, b);
      if UnitId(units[k]) == UnitId(units[l]) {
        assert models[a.0] in models;
        MatchupIdInjective(models[a.0], models[a.1], a.2, models[b.0], models[b.1], b.2);
      }
    }
  }

  lemma {:induction false} UnitsOfAppend(models: seq<string>, a: seq<Cell>, b: seq<Cell>)
    ensures UnitsOf(models, a + b) == UnitsOf(models, a) + UnitsOf(models, b)
  {
    if b == [] {
      assert a + b == a;
    } else {
      var b' := b[..|b| - 1];
      UnitsOfAppend(models, a, b');
      assert (a + b)[..|a + b| - 1] == a + b';
      assert (a + b)[|a + b| - 1] == b[|b| - 1];
    }
  }

  /** `generate_all_matchups`: the three nested loops. */
  method GenerateAllMatchups(models: seq<string>, gamesPerMatchup: int) returns (matchups: seq<Unit>)
    ensures matchups == AllUnits(models, gamesPerMatchup)
  {
    var n, g := |models|, RangeLength(gamesPerMatchup);
    matchups := [];
    for i := 0 to n
      invariant matchups == UnitsOf(models, CellRows(n, g, i))
    {
      matchups := AppendRow(models, i, g, matchups);
      UnitsOfAppend(models, CellRows(n, g, i), Opponents(g, i, n));
    }
  }

  lemma SkipSelf(models: seq<string>, g: nat, i: nat)
    ensures UnitsOf(models, Opponents(g, i, i + 1)) == UnitsOf(models, Opponents(g, i, i))
  {
    var row := Opponents(g, i, i);
    assert Opponents(g, i, i + 1) == row + [];
    assert row + [] == row;
  }

  lemma AddOpponent(models: seq<string>, g: nat, i: nat, j: nat, base: seq<Unit>)
    requires i != j
    ensures base + UnitsOf(models, Opponents(g, i, j + 1))
         == (base + UnitsOf(models, Opponents(g, i, j))) + UnitsOf(models, GameSpan(i, j, g))
  {
    var before, span := UnitsOf(models, Opponents(g, i, j)), UnitsOf(models, GameSpan(i, j, g));
    assert Opponents(g, i, j + 1) == Opponents(g, i, j) + GameSpan(i, j, g);
    UnitsOfAppend(models, Opponents(g, i, j), GameSpan(i, j, g));
    assert base + (before + span) == (base + before) + span;
  }

  /** The middle loop: every second model j != i, with all its games. */
  method AppendRow(models: seq<string>, i: nat, g: nat, matchups: seq<Unit>) returns (matchups': seq<Unit>)
    requires i < |models|
    ensures matchups' == matchups + UnitsOf(models, Opponents(g, i, |models|))
  {
    var n := |models|;
    matchups' := matchups;
    for j := 0 to n
      invariant matchups' == matchups + UnitsOf(models, Opponents(g, i, j))
    {
      matchups' := NextOpponent(models, i, j, g, matchups, matchups');
    }
  }

  /** One iteration of the middle loop: `if i == j: continue`, otherwise the games of models i and j. */
  method NextOpponent(models: seq<string>, i: nat, j: nat, g: nat, ghost base: seq<Unit>, matchups: seq<Unit>)
    returns (matchups': seq<Unit>)
    requires i < |models| && j < |models|
    requires matchups == base + UnitsOf(models, Opponents(g, i, j))
    ensures matchups' == base + UnitsOf(models, Opponents(g, i, j + 1))
  {
    if i != j {
      AddOpponent(models, g, i, j, base);
      matchups' := AppendGames(models, i, j, g, matchups);
    } else {
      SkipSelf(models, g, i);
      matchups' := matchups;
    }
  }

  /** The innermost loop: games 0 .. g-1 of models i and j. */
  method AppendGames(models: seq<string>, i: nat, j: nat, g: nat, matchups: seq<Unit>) returns (matchups': seq<Unit>)
    requires i < |models| && j < |models|
    ensures matchups' == matchups + UnitsOf(models, GameSpan(i, j, g))
  {
    matchups' := matchups;
    for k := 0 to g
      invariant matchups' == matchups + UnitsOf(models, GameSpan(i, j, k))
    {
      UnitsOfSnoc(models, GameSpan(i, j, k), (i, j, k));
      matchups' := matchups' + [Unit(models[i], models[j], k)];
    }
  }

  // ---------------------------------------------------------------------
  // Completed units and the pending filter

  /** What a completion record reads from `run_game`'s result (`result.get(...)`). */
  datatype GameResult = GameResult(winner: Option<string>, loser: Option<string>, totalTurns: Option<int>, gameId: Option<string>)

  /** A game of the chunk either returns its result or raises. */
  datatype Outcome = Returned(result: GameResult) | Raised

  /**
   * One entry of `completed_matchups`.  Entries loaded from the progress
   * file may lack any key, or hold a value of another type there: `None`.
   */
  datatype CompletionRecord = CompletionRecord(
    matchupId: Option<string>, model1: Option<string>, model2: Option<string>, gameNum: Option<int>,
    winner: Option<string>, loser: Option<string>, totalTurns: Option<int>, gameId: Option<string>)

  /** The record `run_chunk` writes for a unit whose game returned `r`. */
  function RecordOf(u: Unit, r: GameResult): CompletionRecord {
    CompletionRecord(Some(UnitId(u)), Some(u.model1), Some(u.model2), Some(u.gameNum as int),
      r.winner, r.loser, r.totalTurns, r.gameId)
  }

  /** `any(m.get("matchup_id") == matchup_id for m in completed)`. */
  function IsCompleted(id: string, records: seq<CompletionRecord>): bool {
    records != [] && (records[|records| - 1].matchupId == Some(id) || IsCompleted(id, records[..|records| - 1]))
  }

  lemma {:induction false} IsCompletedExists(id: string, records: seq<CompletionRecord>)
    ensures IsCompleted(id, records) <==> exists k :: 0 <= k < |records| && records[k].matchupId == Some(id)
  {
    if records != [] {
      var prev := records[..|records| - 1];
      IsCompletedExists(id, prev);
      if IsCompleted(id, prev) {
        var k :| 0 <= k < |prev| && prev[k].matchupId == Some(id);
        assert records[k] == prev[k];
      }
      if exists k :: 0 <= k < |records| && records[k].matchupId == Some(id) {
        var k :| 0 <= k < |records| && records[k].matchupId == Some(id);
        if k < |prev| {
          assert prev[k] == records[k];
        }
      }
    }
  }

  lemma {:induction false} IsCompletedAppend(id: string, a: seq<CompletionRecord>, b: seq<CompletionRecord>)
    ensures IsCompleted(id, a + b) <==> IsCompleted(id, a) || IsCompleted(id, b)
  {
    if b == [] {
      assert a + b == a;
    } else {
      var b' := b[..|b| - 1];
      IsCompletedAppend(id, a, b');
      assert (a + b)[..|a + b| - 1] == a + b';
    }
  }

  /** The ids recorded as completed. */
  function CompletedIds(records: seq<CompletionRecord>): (ids: set<string>)
    ensures forall id :: id in ids <==> IsCompleted(id, records)
  {
    if records == [] then {}
    else
      var last := records[|records| - 1];
      CompletedIds(records[..|records| - 1]) + (if last.matchupId.Some? then {last.matchupId.value} else {})
  }

  /** The records carry pairwise different ids, none missing. */
  predicate DistinctIds(records: seq<CompletionRecord>) {
    (forall k :: 0 <= k < |records| ==> records[k].matchupId.Some?) &&
    (forall k, l :: 0 <= k < l < |records| ==> records[k].matchupId != records[l].matchupId)
  }

  lemma {:induction false} CompletedIdsCount(records: seq<CompletionRecord>)
    requires DistinctIds(records)
    ensures |CompletedIds(records)| == |records|
  {
    if records != [] {
      var prev, last := records[..|records| - 1], records[|records| - 1];
      assert DistinctIds(prev);
      CompletedIdsCount(prev);
      IsCompletedExists(last.matchupId.value, prev);
    }
  }

  /** The schedule in order, without the units whose id was recorded. */
  function PendingOf(units: seq<Unit>, records: seq<CompletionRecord>): seq<Unit> {
    if units == [] then []
    else
      var u := units[|units| - 1];
      PendingOf(units[..|units| - 1], records) + (if IsCompleted(UnitId(u), records) then [] else [u])
  }

  lemma {:induction false} PendingMembers(units: seq<Unit>, records: seq<CompletionRecord>)
    ensures |PendingOf(units, records)| <= |units|
    ensures forall u :: u in PendingOf(units, records) <==> u in units && !IsCompleted(UnitId(u), records)
  {
    if units != [] {
      var prev := units[..|units| - 1];
      PendingMembers(prev, records);
      assert units == prev + [units[|units| - 1]];
    }
  }

  /** With nothing recorded the whole schedule is pending. */
  lemma {:induction false} NothingCompleted(units: seq<Unit>)
    ensures PendingOf(units, []) == units
  {
    if units != [] {
      NothingCompleted(units[..|units| - 1]);
      assert units == units[..|units| - 1] + [units[|units| - 1]];
    }
  }

  /** The units' ids are pairwise different. */
  predicate DistinctUnitIds(units: seq<Unit>) {
    forall k, l :: 0 <= k < l < |units| ==> UnitId(units[k]) != UnitId(units[l])
  }

  /** The ids of `units`. */
  function UnitIds(units: seq<Unit>): set<string> {
    if units == [] then {} else UnitIds(units[..|units| - 1]) + {UnitId(units[|units| - 1])}
  }

  lemma {:induction false} UnitIdsMembers(units: seq<Unit>)
    ensures forall id :: id in UnitIds(units) <==> exists u :: u in units && UnitId(u) == id
  {
    if units != [] {
      var prev := units[..|units| - 1];
      UnitIdsMembers(prev);
      assert units == prev + [units[|units| - 1]];
    }
  }

  /** Filtering keeps the ids apart. */
  lemma {:induction false} PendingDistinct(units: seq<Unit>, records: seq<CompletionRecord>)
    requires DistinctUnitIds(units)
    ensures DistinctUnitIds(PendingOf(units, records))
  {
    if units != [] {
      var prev, u := units[..|units| - 1], units[|units| - 1];
      assert DistinctUnitIds(prev);
      PendingDistinct(prev, records);
      PendingMembers(prev, records);
      var p := PendingOf(prev, records);
      forall v | v in p
        ensures UnitId(v) != UnitId(u)
      {
        var k :| 0 <= k < |prev| && prev[k] == v;
        assert units[k] == v;
      }
    }
  }

  /**
   * The filter drops exactly the units whose id is among the completed
   * ids: |pending| + |ids of the schedule that were completed| == |schedule|.
   */
  lemma NewIdLast(units: seq<Unit>)
    requires units != [] && DistinctUnitIds(units)
    ensures DistinctUnitIds(units[..|units| - 1])
    ensures UnitId(units[|units| - 1]) !in UnitIds(units[..|units| - 1])
  {
    var prev := units[..|units| - 1];
    UnitIdsMembers(prev);
    forall v | v in prev
      ensures UnitId(v) != UnitId(units[|units| - 1])
    {
      var k :| 0 <= k < |prev| && prev[k] == v;
      assert units[k] == v;
    }
  }

  lemma {:induction false} PendingCount(units: seq<Unit>, records: seq<CompletionRecord>)
    requires DistinctUnitIds(units)
    ensures |PendingOf(units, records)| + |UnitIds(units) * CompletedIds(records)| == |units|
  {
    if units != [] {
      var prev, u := units[..|units| - 1], units[|units| - 1];
      NewIdLast(units);
      PendingCount(prev, records);
      var done := UnitIds(prev) * CompletedIds(records);
      assert UnitIds(units) == UnitIds(prev) + {UnitId(u)};
      if IsCompleted(UnitId(u), records) {
        assert UnitIds(units) * CompletedIds(records) == done + {UnitId(u)};
      } else {
        assert UnitIds(units) * CompletedIds(records) == done;
      }
    }
  }

  /**
   * Resume idempotence: when the completed ids are distinct and each is the
   * id of a scheduled unit, |pending| == |schedule| - |completed|.
   */
  lemma ResumeCount(models: seq<string>, gamesPerMatchup: int, records: seq<CompletionRecord>)
    requires Elo.Distinct(models)
    requires forall m :: m in models ==> !Contains(m, "_vs")
    requires DistinctIds(records)
    requires forall k :: 0 <= k < |records| ==>
      exists u :: u in AllUnits(models, gamesPerMatchup) && records[k].matchupId == Some(UnitId(u))
    ensures |PendingOf(AllUnits(models, gamesPerMatchup), records)| == |AllUnits(models, gamesPerMatchup)| - |records|
  {
    var units := AllUnits(models, gamesPerMatchup);
    ScheduleIdsDistinct(models, gamesPerMatchup);
    PendingCount(units, records);
    CompletedIdsCount(records);
    CompletedWithin(units, records);
    assert UnitIds(units) * CompletedIds(records) == CompletedIds(records);
  }

  /** Records that all name scheduled units complete only ids of the schedule. */
  lemma CompletedWithin(units: seq<Unit>, records: seq<CompletionRecord>)
    requires forall k :: 0 <= k < |records| ==> exists u :: u in units && records[k].matchupId == Some(UnitId(u))
    ensures CompletedIds(records) <= UnitIds(units)
  {
    UnitIdsMembers(units);
    forall id | id in CompletedIds(records)
      ensures id in UnitIds(units)
    {
      IsCompletedExists(id, records);
      var k :| 0 <= k < |records| && records[k].matchupId == Some(id);
      var u :| u in units && records[k].matchupId == Some(UnitId(u));
    }
  }

  // ---------------------------------------------------------------------
  // Running a chunk

  /** Python's `s[:c]`: a negative bound counts from the end. */
  function SliceTo<T>(s: seq<T>, c: int): (r: seq<T>)
    ensures |r| == (if c >= 0 then (if c < |s| then c else |s|) else (if |s| + c > 0 then |s| + c else 0))
    ensures r == s[..|r|]
  {
    if c >= 0 then (if c < |s| then s[..c] else s)
    else if |s| + c > 0 then s[..|s| + c] else []
  }

  /** The records a chunk writes: one per game that returned, in chunk order. */
  function ChunkRecords(chunk: seq<Unit>, play: (nat, Unit) -> Outcome): seq<CompletionRecord> {
    if chunk == [] then []
    else
      var k := |chunk| - 1;
      ChunkRecords(chunk[..k], play) + (match play(k, chunk[k]) case Returned(r) => [RecordOf(chunk[k], r)] case Raised => [])
  }

  /** A record is written exactly for each game of the chunk that returned. */
  lemma {:induction false} ChunkRecordsMembers(chunk: seq<Unit>, play: (nat, Unit) -> Outcome)
    ensures |ChunkRecords(chunk, play)| <= |chunk|
    ensures forall rec :: rec in ChunkRecords(chunk, play) <==>
      exists k :: 0 <= k < |chunk| && play(k, chunk[k]).Returned? && rec == RecordOf(chunk[k], play(k, chunk[k]).result)
  {
    if chunk != [] {
      var k := |chunk| - 1;
      var prev := chunk[..k];
      ChunkRecordsMembers(prev, play);
      var last := match play(k, chunk[k]) case Returned(r) => [RecordOf(chunk[k], r)] case Raised => [];
      assert ChunkRecords(chunk, play) == ChunkRecords(prev, play) + last;
      forall rec | exists k' :: 0 <= k' < |chunk| && play(k', chunk[k']).Returned? && rec == RecordOf(chunk[k'], play(k', chunk[k']).result)
        ensures rec in ChunkRecords(chunk, play)
      {
        var k' :| 0 <= k' < |chunk| && play(k', chunk[k']).Returned? && rec == RecordOf(chunk[k'], play(k', chunk[k']).result);
        if k' < k {
          assert prev[k'] == chunk[k'];
        }
      }
      forall rec | rec in ChunkRecords(prev, play)
        ensures exists k' :: 0 <= k' < |chunk| && play(k', chunk[k']).Returned? && rec == RecordOf(chunk[k'], play(k', chunk[k']).result)
      {
        var k' :| 0 <= k' < |prev| && play(k', prev[k']).Returned? && rec == RecordOf(prev[k'], play(k', prev[k']).result);
        assert chunk[k'] == prev[k'];
      }
    }
  }

  /** The state `save_progress` writes: the completed records and this session's. */
  datatype SavedProgress = SavedProgress(completed: seq<CompletionRecord>, session: seq<CompletionRecord>)

  /** `ResumableTournament`. */
  class ResumableTournament {
    const models: seq<string>
    const gamesPerMatchup: int
    /** `completed_matchups`. */
    var completed: seq<CompletionRecord>
    /** `current_session_results`. */
    var session: seq<CompletionRecord>
    /** The last state written to the progress file, if any. */
    ghost var saved: Option<SavedProgress>

    /** `__init__`, given the `completed_matchups` the progress file holds ([] without a file). */
    constructor(models: seq<string>, gamesPerMatchup: int, loaded: seq<CompletionRecord>)
      ensures this.models == models && this.gamesPerMatchup == gamesPerMatchup
      ensures completed == loaded && session == [] && saved == None
    {
      this.models := models;
      this.gamesPerMatchup := gamesPerMatchup;
      completed := loaded;
      session := [];
      saved := None;
    }

    /** The units still to play. */
    function Pending(): seq<Unit>
      reads this
    {
      PendingOf(AllUnits(models, gamesPerMatchup), completed)
    }

    /** `get_pending_matchups`. */
    method GetPendingMatchups() returns (pending: seq<Unit>)
      ensures pending == Pending()
    {
      var all := GenerateAllMatchups(models, gamesPerMatchup);
      pending := [];
      for k := 0 to |all|
        invariant pending == PendingOf(all[..k], completed)
      {
        assert all[..k + 1][..k] == all[..k];
        if !IsCompleted(UnitId(all[k]), completed) {
          pending := pending + [all[k]];
        }
      }
      assert all[..|all|] == all;
    }

    /**
     * `run_chunk`: nothing pending returns false and changes nothing;
     * otherwise the first `chunk_size` pending units (Python slice) are
     * played in order, each game that returns appends its record to both
     * lists and saves, and the result is true.
     */
    method RunChunk(chunkSize: int, play: (nat, Unit) -> Outcome) returns (more: bool)
      modifies this
      ensures old(Pending()) == [] ==>
        !more && completed == old(completed) && session == old(session) && saved == old(saved)
      ensures old(Pending()) != [] ==>
        var recs := ChunkRecords(SliceTo(old(Pending()), chunkSize), play);
        more && completed == old(completed) + recs && session == old(session) + recs &&
        saved == (if recs == [] then old(saved) else Some(SavedProgress(completed, session)))
    {
      var pending := GetPendingMatchups();
      if |pending| == 0 {
        return false;
      }
      var chunk := SliceTo(pending, chunkSize);
      for k := 0 to |chunk|
        invariant completed == old(completed) + ChunkRecords(chunk[..k], play)
        invariant session == old(session) + ChunkRecords(chunk[..k], play)
        invariant saved == (if ChunkRecords(chunk[..k], play) == [] then old(saved) else Some(SavedProgress(completed, session)))
      {
        assert chunk[..k + 1][..k] == chunk[..k];
        ghost var done := ChunkRecords(chunk[..k], play);
        match play(k, chunk[k])
        case Returned(r) =>
          var rec := RecordOf(chunk[k], r);
          assert ChunkRecords(chunk[..k + 1], play) == done + [rec];
          assert old(completed) + (done + [rec]) == (old(completed) + done) + [rec];
          assert old(session) + (done + [rec]) == (old(session) + done) + [rec];
          completed := completed + [rec];
          session := session + [rec];
          saved := Some(SavedProgress(completed, session));
        case Raised =>
          assert ChunkRecords(chunk[..k + 1], play) == done + [];
      }
      assert chunk[..|chunk|] == chunk;
      return true;
    }
  }

  /** A game of the chunk that returned is no longer pending. */
  lemma ReturnedLeavesPending(units: seq<Unit>, records: seq<CompletionRecord>, chunk: seq<Unit>,
                              play: (nat, Unit) -> Outcome, k: nat)
    requires k < |chunk| && play(k, chunk[k]).Returned?
    ensures chunk[k] !in PendingOf(units, records + ChunkRecords(chunk, play))
  {
    var recs := ChunkRecords(chunk, play);
    var rec := RecordOf(chunk[k], play(k, chunk[k]).result);
    ChunkRecordsMembers(chunk, play);
    assert rec in recs;
    IsCompletedExists(UnitId(chunk[k]), recs);
    IsCompletedAppend(UnitId(chunk[k]), records, recs);
    PendingMembers(units, records + recs);
  }

  /**
   * A pending game of the chunk that raised stays pending, when the
   * schedule's ids are pairwise different.
   */
  lemma RaisedStaysPending(units: seq<Unit>, records: seq<CompletionRecord>, chunkSize: int,
                           play: (nat, Unit) -> Outcome, k: nat)
    requires DistinctUnitIds(units)
    requires var chunk := SliceTo(PendingOf(units, records), chunkSize);
      k < |chunk| && play(k, chunk[k]).Raised?
    ensures var chunk := SliceTo(PendingOf(units, records), chunkSize);
      chunk[k] in PendingOf(units, records + ChunkRecords(chunk, play))
  {
    var pending := PendingOf(units, records);
    var chunk := SliceTo(pending, chunkSize);
    var recs := ChunkRecords(chunk, play);
    var u := chunk[k];
    PendingDistinct(units, records);
    PendingMembers(units, records);
    PendingMembers(units, records + recs);
    assert u == pending[k] && u in pending;
    ChunkRecordsMembers(chunk, play);
    forall rec | rec in recs
      ensures rec.matchupId != Some(UnitId(u))
    {
      var k' :| 0 <= k' < |chunk| && play(k', chunk[k']).Returned? && rec == RecordOf(chunk[k'], play(k', chunk[k']).result);
      assert chunk[k'] == pending[k'] && k' != k;
    }
    IsCompletedExists(UnitId(u), recs);
    IsCompletedAppend(UnitId(u), records, recs);
  }

  // ---------------------------------------------------------------------
  // Standings

  /** Python truthiness of an optional name: present and not empty. */
  predicate Truthy(o: Option<string>) {
    o.Some? && o.value != ""
  }

  /** `games_played[m]` after the records: both sides of each record naming two models. */
  function GamesOf(records: seq<CompletionRecord>, m: string): nat {
    if records == [] then 0
    else
      var r := records[|records| - 1];
      GamesOf(records[..|records| - 1], m) +
        (if Truthy(r.model1) && Truthy(r.model2)
         then (if r.model1 == Some(m) then 1 else 0) + (if r.model2 == Some(m) then 1 else 0)
         else 0)
  }

  /** `wins[m]` after the records: one per record whose winner is `m`. */
  function WinsOf(records: seq<CompletionRecord>, m: string): nat {
    if records == [] then 0
    else
      var r := records[|records| - 1];
      WinsOf(records[..|records| - 1], m) + (if Truthy(r.winner) && r.winner == Some(m) then 1 else 0)
  }

  /** The keys of `wins` after the records. */
  function WinKeys(records: seq<CompletionRecord>): set<Option<string>> {
    if records == [] then {}
    else
      var r := records[|records| - 1];
      WinKeys(records[..|records| - 1]) + {r.model1, r.model2} + (if Truthy(r.winner) then {r.winner} else {})
  }

  /** The keys of `games_played`: a side is entered only when `wins` lacks it. */
  function GameKeys(records: seq<CompletionRecord>): set<Option<string>> {
    if records == [] then {}
    else
      var prev, r := records[..|records| - 1], records[|records| - 1];
      GameKeys(prev) + (if r.model1 !in WinKeys(prev) then {r.model1} else {})
        + (if r.model2 !in WinKeys(prev) then {r.model2} else {})
  }

  /**
   * `games_played[model1] += 1` raises `KeyError` for a side that `wins`
   * already held (as an earlier winner) but `games_played` never received.
   */
  predicate StepFails(prev: seq<CompletionRecord>, r: CompletionRecord) {
    Truthy(r.model1) && Truthy(r.model2) &&
    (r.model1 !in GameKeys(prev + [r]) || r.model2 !in GameKeys(prev + [r]))
  }

  /** The tally loop raises on some record. */
  predicate TallyFails(records: seq<CompletionRecord>) {
    records != [] &&
    (TallyFails(records[..|records| - 1]) || StepFails(records[..|records| - 1], records[|records| - 1]))
  }

  /** The counters hold the counts of `done`; a model without a key has none. */
  ghost predicate CountsAgree(wins: map<Option<string>, nat>, games: map<Option<string>, nat>, done: seq<CompletionRecord>) {
    GamesAgree(games, done) && WinsAgree(wins, done)
  }

  ghost predicate GamesAgree(games: map<Option<string>, nat>, done: seq<CompletionRecord>) {
    (forall m: string :: Some(m) in games ==> games[Some(m)] == GamesOf(done, m)) &&
    (forall m: string :: Some(m) !in games ==> GamesOf(done, m) == 0)
  }

  ghost predicate WinsAgree(wins: map<Option<string>, nat>, done: seq<CompletionRecord>) {
    (forall m: string :: Some(m) in wins ==> wins[Some(m)] == WinsOf(done, m)) &&
    (forall m: string :: Some(m) !in wins ==> WinsOf(done, m) == 0)
  }

  /** The counters after the records `done`. */
  ghost predicate Counted(wins: map<Option<string>, nat>, games: map<Option<string>, nat>, done: seq<CompletionRecord>) {
    wins.Keys == WinKeys(done) && games.Keys == GameKeys(done) && games.Keys <= wins.Keys &&
    CountsAgree(wins, games, done)
  }

  lemma CountsStep(done: seq<CompletionRecord>, r: CompletionRecord, m: string)
    ensures GamesOf(done + [r], m) == GamesOf(done, m) +
      (if Truthy(r.model1) && Truthy(r.model2)
       then (if r.model1 == Some(m) then 1 else 0) + (if r.model2 == Some(m) then 1 else 0) else 0)
    ensures WinsOf(done + [r], m) == WinsOf(done, m) + (if Truthy(r.winner) && r.winner == Some(m) then 1 else 0)
  {
    assert (done + [r])[..|done|] == done;
  }

  lemma KeysStep(done: seq<CompletionRecord>, r: CompletionRecord)
    ensures WinKeys(done + [r]) == WinKeys(done) + {r.model1, r.model2} + (if Truthy(r.winner) then {r.winner} else {})
    ensures GameKeys(done + [r]) == GameKeys(done) + (if r.model1 !in WinKeys(done) then {r.model1} else {})
        + (if r.model2 !in WinKeys(done) then {r.model2} else {})
  {
    assert (done + [r])[..|done|] == done;
  }

  /** The first half of an iteration: both sides get counters, zero when new. */
  method EnterSides(wins: map<Option<string>, nat>, games: map<Option<string>, nat>, r: CompletionRecord,
                    ghost done: seq<CompletionRecord>)
    returns (wins': map<Option<string>, nat>, games': map<Option<string>, nat>)
    requires games.Keys <= wins.Keys && CountsAgree(wins, games, done)
    ensures wins'.Keys == wins.Keys + {r.model1, r.model2}
    ensures games'.Keys == games.Keys + (if r.model1 !in wins then {r.model1} else {})
      + (if r.model2 !in wins then {r.model2} else {})
    ensures games'.Keys <= wins'.Keys && CountsAgree(wins', games', done)
  {
    var w1, g1 := EnterSide(wins, games, r.model1, done);
    wins', games' := EnterSide(w1, g1, r.model2, done);
  }

  /** `if model not in wins: wins[model] = 0; games_played[model] = 0`. */
  method EnterSide(wins: map<Option<string>, nat>, games: map<Option<string>, nat>, side: Option<string>,
                   ghost done: seq<CompletionRecord>)
    returns (wins': map<Option<string>, nat>, games': map<Option<string>, nat>)
    requires games.Keys <= wins.Keys && CountsAgree(wins, games, done)
    ensures wins'.Keys == wins.Keys + {side}
    ensures games'.Keys == games.Keys + (if side !in wins then {side} else {})
    ensures games'.Keys <= wins'.Keys && CountsAgree(wins', games', done)
  {
    wins', games' := wins, games;
    if side !in wins {
      wins' := wins[side := 0];
      games' := games[side := 0];
    }
  }

  /** One iteration of the tally loop: enter both sides, count the game, count the win. */
  method TallyRecord(wins: map<Option<string>, nat>, games: map<Option<string>, nat>, r: CompletionRecord,
                     ghost done: seq<CompletionRecord>)
    returns (ok: bool, wins': map<Option<string>, nat>, games': map<Option<string>, nat>)
    requires Counted(wins, games, done)
    ensures ok == !StepFails(done, r)
    ensures ok ==> Counted(wins', games', done + [r])
  {
    KeysStep(done, r);
    wins', games' := EnterSides(wins, games, r, done);
    if Truthy(r.model1) && Truthy(r.model2) && (r.model1 !in games' || r.model2 !in games') {
      return false, wins', games';
    }
    games' := CountGame(games', r, done);
    wins' := CountWin(wins', r, done);
    ok := true;
  }

  /** `games_played[model1] += 1; games_played[model2] += 1` for a record naming two models. */
  method CountGame(games: map<Option<string>, nat>, r: CompletionRecord, ghost done: seq<CompletionRecord>)
    returns (games': map<Option<string>, nat>)
    requires GamesAgree(games, done)
    requires Truthy(r.model1) && Truthy(r.model2) ==> r.model1 in games && r.model2 in games
    ensures games'.Keys == games.Keys && GamesAgree(games', done + [r])
  {
    games' := games;
    if Truthy(r.model1) && Truthy(r.model2) {
      games' := games'[r.model1 := games'[r.model1] + 1];
      games' := games'[r.model2 := games'[r.model2] + 1];
    }
    forall m: string
      ensures Some(m) in games' ==> games'[Some(m)] == GamesOf(done + [r], m)
      ensures Some(m) !in games' ==> GamesOf(done + [r], m) == 0
    {
      CountsStep(done, r, m);
    }
  }

  /** `wins[winner] = wins.get(winner, 0) + 1` for a truthy winner. */
  method CountWin(wins: map<Option<string>, nat>, r: CompletionRecord, ghost done: seq<CompletionRecord>)
    returns (wins': map<Option<string>, nat>)
    requires WinsAgree(wins, done)
    ensures wins'.Keys == wins.Keys + (if Truthy(r.winner) then {r.winner} else {})
    ensures WinsAgree(wins', done + [r])
  {
    wins' := wins;
    if Truthy(r.winner) {
      wins' := wins'[r.winner := (if r.winner in wins' then wins'[r.winner] else 0) + 1];
    }
    forall m: string
      ensures Some(m) in wins' ==> wins'[Some(m)] == WinsOf(done + [r], m)
      ensures Some(m) !in wins' ==> WinsOf(done + [r], m) == 0
    {
      CountsStep(done, r, m);
    }
  }

  /** A row of the standings: model, games, wins and win rate. */
  datatype Standing = Standing(model: string, games: nat, wins: nat, winRate: real)

  function WinRate(s: Standing): real {
    s.winRate
  }

  /** The row of `m`: a model without counted games gets (m, 0, 0, 0.0). */
  function StandingOf(records: seq<CompletionRecord>, m: string): Standing {
    var g := GamesOf(records, m);
    if g > 0 then Standing(m, g, WinsOf(records, m), WinsOf(records, m) as real / g as real)
    else Standing(m, 0, 0, 0.0)
  }

  /** The rows, in the order of `models`. */
  function StandingRows(models: seq<string>, records: seq<CompletionRecord>): seq<Standing> {
    if models == [] then []
    else StandingRows(models[..|models| - 1], records) + [StandingOf(records, models[|models| - 1])]
  }

  lemma StandingRowsShape(models: seq<string>, records: seq<CompletionRecord>)
    ensures |StandingRows(models, records)| == |models|
    ensures forall k :: 0 <= k < |models| ==> StandingRows(models, records)[k] == StandingOf(records, models[k])
  {
    if models != [] {
      StandingRowsShape(models[..|models| - 1], records);
    }
  }

  /**
   * The tally part of `print_current_standings`: `None` where it raises
   * `KeyError`, otherwise the rows sorted by win rate, highest first.
   */
  method CurrentStandings(models: seq<string>, completed: seq<CompletionRecord>) returns (standings: Option<seq<Standing>>)
    ensures standings.None? <==> TallyFails(completed)
    ensures standings.Some? ==> standings.value == SortDesc(StandingRows(models, completed), WinRate)
  {
    var wins: map<Option<string>, nat> := map[];
    var games: map<Option<string>, nat> := map[];
    for k := 0 to |completed|
      invariant !TallyFails(completed[..k])
      invariant Counted(wins, games, completed[..k])
    {
      var ok;
      assert completed[..k + 1] == completed[..k] + [completed[k]];
      ok, wins, games := TallyRecord(wins, games, completed[k], completed[..k]);
      if !ok {
        NotFailedAfter(completed, k + 1);
        return None;
      }
    }
    assert completed[..|completed|] == completed;
    var rows: seq<Standing> := [];
    for k := 0 to |models|
      invariant rows == StandingRows(models[..k], completed)
    {
      assert models[..k + 1][..k] == models[..k];
      var model := models[k];
      if Some(model) in games && games[Some(model)] > 0 {
        var w := if Some(model) in wins then wins[Some(model)] else 0;
        rows := rows + [Standing(model, games[Some(model)], w, w as real / games[Some(model)] as real)];
      } else {
        rows := rows + [Standing(model, 0, 0, 0.0)];
      }
    }
    assert models[..|models|] == models;
    standings := Some(SortDesc(rows, WinRate));
  }

  /** A failure on a prefix is a failure of the whole tally. */
  lemma {:induction false} NotFailedAfter(records: seq<CompletionRecord>, k: nat)
    requires k <= |records| && TallyFails(records[..k])
    ensures TallyFails(records)
  {
    if k < |records| {
      var prev := records[..|records| - 1];
      assert prev[..k] == records[..k];
      NotFailedAfter(prev, k);
    } else {
      assert records[..k] == records;
    }
  }

  /**
   * A record is consistent when its truthy winner is one of its two
   * truthy sides; `run_chunk` writes such records whenever `run_game`
   * names a winner among the two models it was given.
   */
  predicate Consistent(r: CompletionRecord) {
    Truthy(r.winner) ==> Truthy(r.model1) && Truthy(r.model2) && (r.winner == r.model1 || r.winner == r.model2)
  }

  /** Over consistent records both counter dicts have the same keys. */
  lemma {:induction false} ConsistentKeys(records: seq<CompletionRecord>)
    requires forall k :: 0 <= k < |records| ==> Consistent(records[k])
    ensures GameKeys(records) == WinKeys(records)
  {
    if records != [] {
      var prev := records[..|records| - 1];
      assert forall k :: 0 <= k < |prev| ==> prev[k] == records[k];
      ConsistentKeys(prev);
    }
  }

  /** Over consistent records the tally never raises. */
  lemma {:induction false} ConsistentNeverFails(records: seq<CompletionRecord>)
    requires forall k :: 0 <= k < |records| ==> Consistent(records[k])
    ensures !TallyFails(records)
  {
    if records != [] {
      var prev := records[..|records| - 1];
      var r := records[|records| - 1];
      assert forall k :: 0 <= k < |prev| ==> prev[k] == records[k];
      ConsistentNeverFails(prev);
      ConsistentKeys(prev);
      assert records == prev + [r];
      KeysStep(prev, r);
    }
  }

  /** Over consistent records a model wins at most the games it is counted in. */
  lemma {:induction false} WinsAtMostGames(records: seq<CompletionRecord>, m: string)
    requires forall k :: 0 <= k < |records| ==> Consistent(records[k])
    ensures WinsOf(records, m) <= GamesOf(records, m)
  {
    if records != [] {
      var prev := records[..|records| - 1];
      assert forall k :: 0 <= k < |prev| ==> prev[k] == records[k];
      WinsAtMostGames(prev, m);
    }
  }

  lemma FractionBounds(w: real, g: real)
    requires 0.0 <= w <= g && 0.0 < g
    ensures 0.0 <= w / g <= 1.0
  {
    assert w / g * g == w;
  }

  lemma StandingRateBounds(records: seq<CompletionRecord>, m: string)
    requires forall k :: 0 <= k < |records| ==> Consistent(records[k])
    ensures 0.0 <= StandingOf(records, m).winRate <= 1.0
  {
    var g, w := GamesOf(records, m), WinsOf(records, m);
    if g > 0 {
      WinsAtMostGames(records, m);
      FractionBounds(w as real, g as real);
    }
  }

  /** Over consistent records every win rate of the standings lies in [0, 1]. */
  lemma WinRateBounds(models: seq<string>, records: seq<CompletionRecord>)
    requires forall k :: 0 <= k < |records| ==> Consistent(records[k])
    ensures forall s :: s in SortDesc(StandingRows(models, records), WinRate) ==> 0.0 <= s.winRate <= 1.0
  {
    var rows := StandingRows(models, records);
    StandingRowsShape(models, records);
    forall s | s in SortDesc(rows, WinRate)
      ensures 0.0 <= s.winRate <= 1.0
    {
      assert s in multiset(SortDesc(rows, WinRate));
      var k :| 0 <= k < |rows| && rows[k] == s;
      StandingRateBounds(records, models[k]);
    }
  }
}
